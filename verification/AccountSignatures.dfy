/** Account signatures on the wire: a map of maps, written in key order and read back only if the
    keys increase strictly. */
module AccountSignatures {
  import opened Common

  type bytes = seq<byte>

  const SIGNATURE_LENGTH: nat := 64

  /** A `BTreeMap` with one-byte keys, as its entries in key order. */
  type Entries<V> = seq<(byte, V)>
  type Inner = Entries<bytes>
  type Signatures = Entries<Inner>

  /** The keys increase strictly, the first one above `last`. */
  ghost predicate Increasing<V>(last: Option<byte>, m: Entries<V>)
    decreases |m|
  {
    m == [] || ((last.Some? ==> last.value < m[0].0) && Increasing(Some(m[0].0), m[1..]))
  }

  ghost predicate InnerFits(last: Option<byte>, m: Inner) {
    Increasing(last, m) && forall i :: 0 <= i < |m| ==> |m[i].1| == SIGNATURE_LENGTH
  }

  ghost predicate OuterFits(last: Option<byte>, m: Signatures) {
    Increasing(last, m) && forall i :: 0 <= i < |m| ==> |m[i].1| < 256 && InnerFits(None, m[i].1)
  }

  /** What the format can carry: lengths are one byte, and signatures are those of Ed25519. */
  ghost predicate Fits(m: Signatures) { |m| < 256 && OuterFits(None, m) }

  /** A cast to `u8`. */
  function ToU8(n: nat): byte { (n % 256) as byte }

  // ---------------------------------------------------------------- writing

  function SerialEntry(e: (byte, bytes)): bytes { [e.0, 0] + e.1 }

  function SerialInner(m: Inner): bytes {
    if m == [] then [] else SerialEntry(m[0]) + SerialInner(m[1..])
  }

  function SerialCredential(e: (byte, Inner)): bytes { [e.0, ToU8(|e.1|)] + SerialInner(e.1) }

  function SerialOuter(m: Signatures): bytes {
    if m == [] then [] else SerialCredential(m[0]) + SerialOuter(m[1..])
  }

  function Serial(m: Signatures): bytes { [ToU8(|m|)] + SerialOuter(m) }

  method WriteInner(m: Inner, before: bytes) returns (out: bytes)
    ensures out == before + SerialInner(m)
  {
    out := before;
    for i := 0 to |m|
      invariant out + SerialInner(m[i..]) == before + SerialInner(m)
    {
      assert m[i..][1..] == m[i + 1..];
      out := out + [m[i].0];
      out := out + [0];
      out := out + m[i].1;
      assert out + SerialInner(m[i + 1..]) == before + SerialInner(m);
    }
    assert m[|m|..] == [];
  }

  /** The nested loops that write the signatures. */
  method WriteSignatures(m: Signatures) returns (out: bytes)
    ensures out == Serial(m)
  {
    out := [ToU8(|m|)];
    for i := 0 to |m|
      invariant out + SerialOuter(m[i..]) == Serial(m)
    {
      assert m[i..][1..] == m[i + 1..];
      out := out + [m[i].0];
      out := out + [ToU8(|m[i].1|)];
      out := WriteInner(m[i].1, out);
      assert out + SerialOuter(m[i + 1..]) == Serial(m);
    }
    assert m[|m|..] == [];
  }

  /** The layout: entries one after the other, each with its key, its tag or its length, and its content. */
  lemma {:induction false} InnerLayout(k: byte, signature: bytes, m: Inner, n: Inner)
    ensures SerialInner([(k, signature)]) == [k, 0] + signature
    ensures SerialInner(m + n) == SerialInner(m) + SerialInner(n)
    decreases |m|
  {
    if m == [] {
      assert m + n == n && SerialInner([(k, signature)][1..]) == [];
    } else {
      InnerLayout(k, signature, m[1..], n);
      assert (m + n)[1..] == m[1..] + n;
    }
  }

  lemma SmallCast(n: nat)
    requires n < 256
    ensures ToU8(n) == n as byte
  {
  }

  lemma OneCredential(k: byte, inner: Inner)
    requires |inner| < 256
    ensures SerialOuter([(k, inner)]) == [k, |inner| as byte] + SerialInner(inner)
  {
    SmallCast(|inner|);
    var one, written := [(k, inner)], [k, ToU8(|inner|)] + SerialInner(inner);
    assert one[1..] == [] && SerialOuter(one) == SerialCredential(one[0]) + SerialOuter(one[1..]);
    assert written + SerialOuter([]) == written;
  }

  lemma CredentialsCounted(m: Signatures)
    requires |m| < 256
    ensures Serial(m) == [|m| as byte] + SerialOuter(m)
  {
    SmallCast(|m|);
  }

  lemma {:induction false} OuterLayout(m: Signatures, n: Signatures)
    ensures SerialOuter(m + n) == SerialOuter(m) + SerialOuter(n)
    decreases |m|
  {
    if m == [] {
      assert m + n == n;
    } else {
      var first := SerialCredential(m[0]);
      OuterLayout(m[1..], n);
      assert (m + n)[0] == m[0] && (m + n)[1..] == m[1..] + n;
      assert first + (SerialOuter(m[1..]) + SerialOuter(n)) == (first + SerialOuter(m[1..])) + SerialOuter(n);
    }
  }

  // ---------------------------------------------------------------- reading

  type Read<V> = Option<(V, bytes)>

  function Before<V>(first: (byte, V), more: Read<Entries<V>>): Read<Entries<V>> {
    match more
    case None => None
    case Some(r) => Some(([first] + r.0, r.1))
  }

  /** A key index, the scheme tag and a signature. */
  function ReadEntry(source: bytes): Read<(byte, bytes)> {
    if |source| < 2 + SIGNATURE_LENGTH || source[1] != 0 then None
    else Some(((source[0], source[2..2 + SIGNATURE_LENGTH]), source[2 + SIGNATURE_LENGTH..]))
  }

  predicate After(last: Option<byte>, k: byte) { last.None? || last.value < k }

  function ReadInner(n: nat, source: bytes, last: Option<byte>): Read<Inner> {
    if n == 0 then Some(([], source))
    else
      match ReadEntry(source)
      case None => None
      case Some(e) => if After(last, e.0.0) then Before(e.0, ReadInner(n - 1, e.1, Some(e.0.0))) else None
  }

  function ReadCredential(source: bytes): Read<(byte, Inner)> {
    if |source| < 2 then None
    else
      match ReadInner(source[1] as nat, source[2..], None)
      case None => None
      case Some(inner) => Some(((source[0], inner.0), inner.1))
  }

  function ReadOuter(n: nat, source: bytes, last: Option<byte>): Read<Signatures> {
    if n == 0 then Some(([], source))
    else
      match ReadCredential(source)
      case None => None
      case Some(e) => if After(last, e.0.0) then Before(e.0, ReadOuter(n - 1, e.1, Some(e.0.0))) else None
  }

  function Deserial(source: bytes): Read<Signatures> {
    if source == [] then None else ReadOuter(source[0] as nat, source[1..], None)
  }

  // ---------------------------------------------------------------- writing, then reading

  lemma EntryReadsBack(e: (byte, bytes), more: bytes)
    requires |e.1| == SIGNATURE_LENGTH
    ensures ReadEntry(SerialEntry(e) + more) == Some((e, more))
  {
    var source := SerialEntry(e) + more;
    assert source[2..2 + SIGNATURE_LENGTH] == e.1 && source[2 + SIGNATURE_LENGTH..] == more;
  }

  lemma {:induction false} InnerReadsBack(m: Inner, last: Option<byte>, tail: bytes)
    requires InnerFits(last, m)
    ensures ReadInner(|m|, SerialInner(m) + tail, last) == Some((m, tail))
    decreases |m|
  {
    if m == [] {
      assert SerialInner(m) + tail == tail;
    } else {
      var more := SerialInner(m[1..]) + tail;
      var source := SerialInner(m) + tail;
      assert source == SerialEntry(m[0]) + more;
      EntryReadsBack(m[0], more);
      InnerReadsBack(m[1..], Some(m[0].0), tail);
      assert [m[0]] + m[1..] == m;
    }
  }

  lemma CredentialReadsBack(e: (byte, Inner), tail: bytes)
    requires |e.1| < 256 && InnerFits(None, e.1)
    ensures ReadCredential(SerialCredential(e) + tail) == Some((e, tail))
  {
    var source := SerialCredential(e) + tail;
    assert source[2..] == SerialInner(e.1) + tail;
    InnerReadsBack(e.1, None, tail);
  }

  lemma {:induction false} OuterReadsBack(m: Signatures, last: Option<byte>, tail: bytes)
    requires OuterFits(last, m)
    ensures ReadOuter(|m|, SerialOuter(m) + tail, last) == Some((m, tail))
    decreases |m|
  {
    if m == [] {
      assert SerialOuter(m) + tail == tail;
    } else {
      var more := SerialOuter(m[1..]) + tail;
      assert SerialOuter(m) + tail == SerialCredential(m[0]) + more;
      CredentialReadsBack(m[0], more);
      OuterReadsBack(m[1..], Some(m[0].0), tail);
      assert [m[0]] + m[1..] == m;
    }
  }

  // ---------------------------------------------------------------- reading, then writing

  lemma {:induction false} InnerCanonical(n: nat, source: bytes, last: Option<byte>)
    requires ReadInner(n, source, last).Some?
    ensures var r := ReadInner(n, source, last).value;
      |r.0| == n && InnerFits(last, r.0) && source == SerialInner(r.0) + r.1
    decreases n
  {
    if n > 0 {
      var e := ReadEntry(source).value;
      assert source == SerialEntry(e.0) + e.1;
      InnerCanonical(n - 1, e.1, Some(e.0.0));
      var more := ReadInner(n - 1, e.1, Some(e.0.0)).value;
      var m := [e.0] + more.0;
      assert m[1..] == more.0;
    }
  }

  lemma CredentialCanonical(source: bytes)
    requires ReadCredential(source).Some?
    ensures var r := ReadCredential(source).value;
      |r.0.1| < 256 && InnerFits(None, r.0.1) && source == SerialCredential(r.0) + r.1
  {
    InnerCanonical(source[1] as nat, source[2..], None);
    assert source == [source[0], source[1]] + source[2..];
  }

  lemma {:induction false} OuterCanonical(n: nat, source: bytes, last: Option<byte>)
    requires ReadOuter(n, source, last).Some?
    ensures var r := ReadOuter(n, source, last).value;
      |r.0| == n && OuterFits(last, r.0) && source == SerialOuter(r.0) + r.1
    decreases n
  {
    if n > 0 {
      var e := ReadCredential(source).value;
      CredentialCanonical(source);
      OuterCanonical(n - 1, e.1, Some(e.0.0));
      var more := ReadOuter(n - 1, e.1, Some(e.0.0)).value;
      var m := [e.0] + more.0;
      assert m[1..] == more.0;
    }
  }

  /** Reading accepts exactly the encodings of the values that fit, and stops behind them. */
  lemma AcceptsExactly(source: bytes, m: Signatures, rest: bytes)
    ensures Deserial(source) == Some((m, rest)) <==> Fits(m) && source == Serial(m) + rest
  {
    if Deserial(source) == Some((m, rest)) {
      OuterCanonical(source[0] as nat, source[1..], None);
      assert source == [source[0]] + source[1..];
    }
    if Fits(m) && source == Serial(m) + rest {
      assert source[1..] == SerialOuter(m) + rest;
      OuterReadsBack(m, None, rest);
    }
  }

  /** Reading undoes writing exactly for the values that fit. */
  lemma RoundTrip(m: Signatures, tail: bytes)
    ensures Deserial(Serial(m) + tail) == Some((m, tail)) <==> Fits(m)
  {
    AcceptsExactly(Serial(m) + tail, m, tail);
  }

  // ---------------------------------------------------------------- one entry too many

  /** A credential for every key from `k` on, without signatures. */
  function AllKeys(k: nat): Signatures
    requires k <= 256
    decreases 256 - k
  {
    if k == 256 then [] else [(k as byte, [])] + AllKeys(k + 1)
  }

  lemma {:induction false} AllKeysIncrease(k: nat, last: Option<byte>)
    requires k <= 256 && (last.Some? ==> (last.value as nat) < k)
    ensures |AllKeys(k)| == 256 - k && Increasing(last, AllKeys(k))
    ensures forall i :: 0 <= i < |AllKeys(k)| ==> AllKeys(k)[i].1 == []
    decreases 256 - k
  {
    if k < 256 {
      AllKeysIncrease(k + 1, Some(k as byte));
      assert AllKeys(k)[1..] == AllKeys(k + 1);
    }
  }

  /** Any map with all 256 keys is written with length zero, and read back as the empty map. */
  lemma FullMapIsLost(m: Signatures, tail: bytes)
    requires |m| == 256
    ensures Serial(m)[0] == 0 && Deserial(Serial(m) + tail) == Some(([], SerialOuter(m) + tail))
  {
    assert (Serial(m) + tail)[1..] == SerialOuter(m) + tail;
  }

  /** There is such a map, with increasing keys and nothing else wrong. */
  lemma FullMapExists() returns (m: Signatures)
    ensures |m| == 256 && OuterFits(None, m)
    ensures Deserial(Serial(m)) == Some(([], SerialOuter(m))) && m != []
  {
    AllKeysIncrease(0, None);
    m := AllKeys(0);
    FullMapIsLost(m, []);
    assert Serial(m) + [] == Serial(m) && SerialOuter(m) + [] == SerialOuter(m);
  }

  // ---------------------------------------------------------------- the loops that read

  function Joined<V>(acc: Entries<V>, more: Read<Entries<V>>): Read<Entries<V>> {
    match more
    case None => None
    case Some(r) => Some((acc + r.0, r.1))
  }

  lemma JoinedToNothing<V>(more: Read<Entries<V>>)
    ensures Joined([], more) == more
  {
    if more.Some? { assert [] + more.value.0 == more.value.0; }
  }

  lemma JoinedBefore<V>(acc: Entries<V>, e: (byte, V), more: Read<Entries<V>>)
    ensures Joined(acc, Before(e, more)) == Joined(acc + [e], more)
  {
    if more.Some? { assert acc + ([e] + more.value.0) == acc + [e] + more.value.0; }
  }

  /** The loop over the signatures of one credential: each signature is put into the map one
      step late, when the next key has been compared with it. */
  method DeserialInner(length: nat, source: bytes) returns (r: Read<Inner>)
    ensures r == ReadInner(length, source, None)
  {
    var innerMap: Inner := [];
    var lastInner: Option<(byte, bytes)> := None;
    var rest := source;
    JoinedToNothing(ReadInner(length, source, None));
    for i := 0 to length
      invariant lastInner.None? ==> innerMap == []
      invariant Joined(Flushed(innerMap, lastInner), ReadInner(length - i, rest, KeyOf(lastInner))) ==
                ReadInner(length, source, None)
    {
      var e := ReadEntry(rest);
      if e.None? {
        return None;
      }
      var (entry, behind) := e.value;
      if lastInner.Some? {
        if entry.0 <= lastInner.value.0 {
          return None;
        }
      }
      JoinedBefore(Flushed(innerMap, lastInner), entry, ReadInner(length - i - 1, behind, Some(entry.0)));
      innerMap := Flushed(innerMap, lastInner);
      lastInner := Some(entry);
      rest := behind;
    }
    r := Some((Flushed(innerMap, lastInner), rest));
    assert r.value.0 + [] == r.value.0;
  }

  function KeyOf(last: Option<(byte, bytes)>): Option<byte> {
    match last
    case None => None
    case Some(e) => Some(e.0)
  }

  function Flushed(m: Inner, last: Option<(byte, bytes)>): Inner {
    match last
    case None => m
    case Some(e) => m + [e]
  }

  /** The nested loops that read the signatures. */
  method DeserialSignatures(source: bytes) returns (r: Read<Signatures>)
    ensures r == Deserial(source)
  {
    if source == [] {
      return None;
    }
    var length := source[0] as nat;
    var sigs: Signatures := [];
    var last: Option<byte> := None;
    var rest := source[1..];
    JoinedToNothing(ReadOuter(length, rest, None));
    for i := 0 to length
      invariant Joined(sigs, ReadOuter(length - i, rest, last)) == Deserial(source)
    {
      if |rest| < 2 {
        return None;
      }
      var k := rest[0];
      if last.Some? && last.value >= k {
        return None;
      }
      var inner := DeserialInner(rest[1] as nat, rest[2..]);
      if inner.None? {
        return None;
      }
      var (m, behind) := inner.value;
      JoinedBefore(sigs, (k, m), ReadOuter(length - i - 1, behind, Some(k)));
      last := Some(k);
      sigs := sigs + [(k, m)];
      rest := behind;
    }
    r := Some((sigs, rest));
    assert sigs + [] == sigs;
  }
}
