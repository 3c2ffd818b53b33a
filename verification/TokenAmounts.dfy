/** Token amounts of CIS-2 on the wire: unsigned LEB128, at most 37 bytes. */
module TokenAmounts {
  import opened Common
  import opened Bits

  const MAX_LENGTH: nat := 37

  /** The seven bits a byte carries: the mask `0b0111_1111`. */
  function Payload(b: byte): nat { b as nat % 128 }

  /** Whether another byte follows: the mask `0b1000_0000`. */
  predicate Continues(b: byte) { b >= 128 }

  /** The remainder is the bitwise mask. */
  lemma PayloadIsMask(b: byte)
    ensures Payload(b) == And(b as nat, 0x7f, 8)
  {
    assert Pow2(7) == 128;
    MaskLow(b as nat, 7, 8, 0x7f);
    LowIsRemainder(b as nat, 7);
  }

  /** The comparison is the bitwise test. */
  lemma ContinuesIsMask(b: byte)
    ensures Continues(b) <==> And(b as nat, 0x80, 8) != 0
  {
    var x := b as nat;
    assert And(x, 0x80, 8) == 2 * And(x / 2, 0x40, 7);
    assert And(x / 2, 0x40, 7) == 2 * And(x / 4, 0x20, 6) by { assert x / 2 / 2 == x / 4; }
    assert And(x / 4, 0x20, 6) == 2 * And(x / 8, 0x10, 5) by { assert x / 4 / 2 == x / 8; }
    assert And(x / 8, 0x10, 5) == 2 * And(x / 16, 8, 4) by { assert x / 8 / 2 == x / 16; }
    assert And(x / 16, 8, 4) == 2 * And(x / 32, 4, 3) by { assert x / 16 / 2 == x / 32; }
    assert And(x / 32, 4, 3) == 2 * And(x / 64, 2, 2) by { assert x / 32 / 2 == x / 64; }
    assert And(x / 64, 2, 2) == 2 * And(x / 128, 1, 1) by { assert x / 64 / 2 == x / 128; }
    assert And(x / 128, 1, 1) == x / 128;
  }

  /** The upper half of a byte: the mask `0b1111_0000`. */
  lemma HighBitsAreMask(d: nat)
    requires d < 256
    ensures And(d, 0xf0, 8) != 0 <==> d / 16 != 0
  {
    assert Pow2(4) == 16 && Pow2(8) == 256 && Not(15, 8) == 0xf0;
    MaskHigh(d, 4, 8);
    LowIsRemainder(d, 4);
  }

  // ---------------------------------------------------------------- the format

  /** The value of a group of seven bits that `n` groups lie below. */
  function Scale(x: nat, n: nat): nat {
    if n == 0 then x else 128 * Scale(x, n - 1)
  }

  function Pow128(n: nat): nat { Scale(1, n) }

  /** The number that bytes of seven bits each stand for, the lowest first. */
  ghost function Number(bytes: seq<byte>): nat {
    if bytes == [] then 0 else Payload(bytes[0]) + 128 * Number(bytes[1..])
  }

  /** The first `n` bytes are one LEB128 number: only the last has no continuation bit. */
  ghost predicate Leading(input: seq<byte>, n: nat) {
    && 1 <= n <= |input|
    && (forall i :: 0 <= i < n - 1 ==> Continues(input[i]))
    && !Continues(input[n - 1])
  }

  lemma {:induction false} ScaleNext(x: nat, n: nat)
    ensures Scale(x + 1, n) == Scale(x, n) + Pow128(n)
    decreases n
  {
    if n > 0 { ScaleNext(x, n - 1); }
  }

  lemma {:induction false} ScaleGrows(x: nat, y: nat, n: nat)
    requires x <= y
    ensures Scale(x, n) <= Scale(y, n)
    decreases n
  {
    if n > 0 { ScaleGrows(x, y, n - 1); }
  }

  lemma {:induction false} NumberBound(bytes: seq<byte>)
    ensures Number(bytes) < Pow128(|bytes|)
  {
    if bytes != [] { NumberBound(bytes[1..]); }
  }

  /** One byte more. */
  lemma {:induction false} NumberOfSnoc(bytes: seq<byte>, b: byte)
    ensures Number(bytes + [b]) == Number(bytes) + Scale(Payload(b), |bytes|)
    decreases |bytes|
  {
    if bytes == [] {
      assert ([b])[1..] == [];
      assert bytes + [b] == [b];
    } else {
      NumberOfSnoc(bytes[1..], b);
      assert (bytes + [b])[1..] == bytes[1..] + [b];
    }
  }

  lemma Extended(input: seq<byte>, i: nat)
    requires i < |input|
    ensures Number(input[..i + 1]) == Number(input[..i]) + Scale(Payload(input[i]), i)
  {
    NumberOfSnoc(input[..i], input[i]);
    assert input[..i] + [input[i]] == input[..i + 1];
  }

  // ---------------------------------------------------------------- encoding

  /** The encoding of a number, as few bytes as possible. */
  function Encode(v: nat): (r: seq<byte>)
    ensures r != []
  {
    if v / 128 == 0 then [(v % 128) as byte] else [(v % 128 + 128) as byte] + Encode(v / 128)
  }

  /** The lowest seven bits of a byte, by the mask. */
  method MaskPayload(b: byte) returns (r: nat)
    ensures r == Payload(b)
  {
    PayloadIsMask(b);
    r := And(b as nat, 0x7f, 8);
  }

  lemma LowestGroup(v: nat)
    ensures Payload((v % 256) as byte) == v % 128
  {
    var q, r := v / 256, v % 256;
    Remainder(v, 128, 2 * q + r / 128, r % 128);
  }

  /** The loop that writes an amount. */
  method Serial(amount: nat) returns (out: seq<byte>)
    ensures out == Encode(amount)
  {
    var value := amount;
    out := [];
    while true
      invariant out + Encode(value) == Encode(amount)
      decreases value
    {
      var b := MaskPayload((value % 256) as byte);
      LowestGroup(value);
      var rest := value / 128;
      assert Encode(value) == if rest == 0 then [b as byte] else [(b + 128) as byte] + Encode(rest);
      if rest != 0 {
        b := b + 128;
      }
      out := out + [b as byte];
      if rest == 0 {
        return;
      }
      value := rest;
    }
  }

  lemma {:induction false} EncodeLength(v: nat, n: nat)
    requires n >= 1 && v < Pow128(n)
    ensures |Encode(v)| <= n
    decreases n
  {
    if v / 128 != 0 { EncodeLength(v / 128, n - 1); }
  }

  /** Every 256-bit amount fits the limit. */
  lemma EncodingFits(v: nat)
    requires v < Pow2(256)
    ensures |Encode(v)| <= MAX_LENGTH
  {
    Pow128Is(37);
    Pow2Grows(256, 259);
    EncodeLength(v, 37);
  }

  // ---------------------------------------------------------------- decoding up to 128 bits

  datatype Parsed = Parsed(value: nat, rest: seq<byte>) | ParseError

  /** A payload shifted left in a word of `w` bits: the shift amount is taken modulo the width,
      and high bits are dropped. */
  function Shifted(payload: nat, i: nat, w: nat): nat
    requires w > 0
  {
    Low(ShiftLeft(payload, Wrapped(7 * i, w)), w)
  }

  function ShiftLeft(x: nat, k: nat): nat {
    if k == 0 then x else 2 * ShiftLeft(x, k - 1)
  }

  /** The remainder of `a` by `w`. */
  function Wrapped(a: nat, w: nat): nat
    requires w > 0
  {
    if a < w then a else Wrapped(a - w, w)
  }

  /** Decoding from byte `i` on, with `result` so far, in words of `w` bits. */
  function DecodeFrom(input: seq<byte>, i: nat, result: nat, w: nat): Parsed
    requires w > 0 && i <= MAX_LENGTH
    decreases MAX_LENGTH - i, |input|
  {
    if i == MAX_LENGTH || i >= |input| then ParseError
    else
      var sum := result + Shifted(Payload(input[i]), i, w);
      if sum >= Pow2(w) then ParseError
      else if !Continues(input[i]) then Parsed(sum, input[i + 1..])
      else DecodeFrom(input, i + 1, sum, w)
  }

  /** The loop that reads an amount of `w` bits. */
  method Deserial(input: seq<byte>, w: nat) returns (r: Parsed)
    requires w > 0
    ensures r == DecodeFrom(input, 0, 0, w)
  {
    var result: nat := 0;
    for i := 0 to MAX_LENGTH
      invariant DecodeFrom(input, i, result, w) == DecodeFrom(input, 0, 0, w)
    {
      if i >= |input| {
        return ParseError;
      }
      var b := input[i] as nat;
      PayloadIsMask(input[i]);
      ContinuesIsMask(input[i]);
      var sum := result + Shifted(And(b, 0x7f, 8), i, w);
      if sum >= Pow2(w) {
        return ParseError;
      }
      result := sum;
      if And(b, 0x80, 8) == 0 {
        return Parsed(result, input[i + 1..]);
      }
    }
    r := ParseError;
  }

  /** Seven bits are one group. */
  lemma {:induction false} ScaleIsShift(x: nat, n: nat)
    ensures Scale(x, n) == ShiftLeft(x, 7 * n)
    decreases n
  {
    if n > 0 {
      ScaleIsShift(x, n - 1);
      SevenMore(x, 7 * n - 7);
    }
  }

  lemma SevenMore(x: nat, k: nat)
    ensures ShiftLeft(x, k + 7) == 128 * ShiftLeft(x, k)
  {
    assert ShiftLeft(x, k + 7) == 2 * ShiftLeft(x, k + 6);
    assert ShiftLeft(x, k + 6) == 2 * ShiftLeft(x, k + 5);
    assert ShiftLeft(x, k + 5) == 2 * ShiftLeft(x, k + 4);
    assert ShiftLeft(x, k + 4) == 2 * ShiftLeft(x, k + 3);
    assert ShiftLeft(x, k + 3) == 2 * ShiftLeft(x, k + 2);
    assert ShiftLeft(x, k + 2) == 2 * ShiftLeft(x, k + 1);
  }

  lemma {:induction false} ShiftedOne(x: nat, k: nat)
    requires x > 0
    ensures ShiftLeft(x, k) >= Pow2(k) && ShiftLeft(1, k) == Pow2(k) && ShiftLeft(0, k) == 0
    decreases k
  {
    if k > 0 { ShiftedOne(x, k - 1); }
  }

  lemma Pow128Is(n: nat)
    ensures Pow128(n) == Pow2(7 * n)
  {
    ScaleIsShift(1, n);
    ShiftedOne(1, 7 * n);
  }

  /** A shift whose result fits loses nothing, even when the shift amount wraps around. */
  lemma ShiftedFits(d: nat, i: nat, w: nat)
    requires w > 0 && Scale(d, i) < Pow2(w)
    ensures Shifted(d, i, w) == Scale(d, i)
  {
    ScaleIsShift(d, i);
    ShiftedOne(1, 7 * i);
    ShiftedOne(1, Wrapped(7 * i, w));
    if d > 0 {
      ShiftedOne(d, 7 * i);
      if w <= 7 * i { Pow2Grows(w, 7 * i); }
    }
    LowOfSmall(Scale(d, i), w);
  }

  lemma {:induction false} NumberGrows(input: seq<byte>, i: nat, n: nat)
    requires i <= n <= |input|
    ensures Number(input[..i]) <= Number(input[..n])
    decreases n
  {
    if i < n {
      NumberGrows(input, i, n - 1);
      Extended(input, n - 1);
    }
  }

  lemma {:induction false} DecodesFrom(input: seq<byte>, n: nat, i: nat, w: nat)
    requires w > 0 && n <= MAX_LENGTH && Leading(input, n) && i < n && Number(input[..n]) < Pow2(w)
    ensures DecodeFrom(input, i, Number(input[..i]), w) == Parsed(Number(input[..n]), input[n..])
    decreases n - i
  {
    Extended(input, i);
    NumberGrows(input, i + 1, n);
    ShiftedFits(Payload(input[i]), i, w);
    if i + 1 < n {
      DecodesFrom(input, n, i + 1, w);
    }
  }

  /** Any LEB128 number that fits the width, padded or not, is decoded to its value. */
  lemma DecodesNumbers(input: seq<byte>, n: nat, w: nat)
    requires w > 0 && n <= MAX_LENGTH && Leading(input, n) && Number(input[..n]) < Pow2(w)
    ensures DecodeFrom(input, 0, 0, w) == Parsed(Number(input[..n]), input[n..])
  {
    DecodesFrom(input, n, 0, w);
  }

  lemma {:induction false} ParsedFrom(input: seq<byte>, i: nat, result: nat, w: nat) returns (n: nat)
    requires w > 0 && i <= MAX_LENGTH && i <= |input| && (forall j :: 0 <= j < i ==> Continues(input[j]))
    requires DecodeFrom(input, i, result, w).Parsed?
    ensures Leading(input, n) && n <= MAX_LENGTH && DecodeFrom(input, i, result, w).rest == input[n..]
    ensures DecodeFrom(input, i, result, w).value < Pow2(w)
    decreases MAX_LENGTH - i
  {
    n := i + 1;
    if Continues(input[i]) {
      n := ParsedFrom(input, i + 1, result + Shifted(Payload(input[i]), i, w), w);
    }
  }

  /** Whatever is decoded, for any width, is the value of a whole LEB128 number of at most 37 bytes, and
      the rest is what follows it: input that ends within a number is an error. */
  lemma DecodesWholeNumbers(input: seq<byte>, w: nat) returns (n: nat)
    requires w > 0 && DecodeFrom(input, 0, 0, w).Parsed?
    ensures Leading(input, n) && n <= 37 && DecodeFrom(input, 0, 0, w).rest == input[n..]
    ensures DecodeFrom(input, 0, 0, w).value < Pow2(w)
    ensures Number(input[..n]) < Pow2(w) ==> DecodeFrom(input, 0, 0, w).value == Number(input[..n])
  {
    n := ParsedFrom(input, 0, 0, w);
    if Number(input[..n]) < Pow2(w) { DecodesNumbers(input, n, w); }
  }

  // ---------------------------------------------------------------- the round trip

  /** An encoding, whatever follows it, is one LEB128 number: the encoded one. */
  lemma {:induction false} EncodeIsLeading(v: nat, tail: seq<byte>)
    ensures Leading(Encode(v) + tail, |Encode(v)|) && Number(Encode(v)) == v
    decreases v
  {
    if v / 128 != 0 {
      var b := (v % 128 + 128) as byte;
      var more := Encode(v / 128);
      EncodeIsLeading(v / 128, tail);
      var input := Encode(v) + tail;
      assert Encode(v) == [b] + more && Encode(v)[1..] == more;
      assert input[1..] == more + tail;
      forall i | 0 <= i < |more| ensures Continues(input[i]) {
        if i > 0 { assert input[i] == (more + tail)[i - 1]; }
      }
      assert input[|more|] == (more + tail)[|more| - 1];
    }
  }

  /** Decoding undoes encoding for every width, whatever follows, and reads nothing more. */
  lemma RoundTrip(v: nat, w: nat, tail: seq<byte>)
    requires 0 < w <= 256 && v < Pow2(w)
    ensures DecodeFrom(Encode(v) + tail, 0, 0, w) == Parsed(v, tail)
    ensures |Encode(v)| <= MAX_LENGTH
  {
    Pow2Grows(w, 256);
    EncodingFits(v);
    EncodeIsLeading(v, tail);
    var input, n := Encode(v) + tail, |Encode(v)|;
    assert input[..n] == Encode(v) && input[n..] == tail;
    DecodesNumbers(input, n, w);
  }

  // ---------------------------------------------------------------- decoding 256 bits

  /** The number at the front of the input, if it ends within 37 bytes and fits 256 bits. */
  ghost predicate Fits256(input: seq<byte>, n: nat) {
    Leading(input, n) && n <= MAX_LENGTH && Number(input[..n]) < Pow2(256)
  }

  ghost predicate Decoded256(input: seq<byte>, r: Parsed) {
    match r
    case ParseError => forall n: nat :: !Fits256(input, n)
    case Parsed(value, rest) =>
      exists n: nat :: Fits256(input, n) && value == Number(input[..n]) && rest == input[n..]
  }

  /** Decoding a 256-bit amount succeeds exactly when the input starts with a number that fits:
      the last byte allowed carries four bits only. */
  method DeserialU256(input: seq<byte>) returns (r: Parsed)
    ensures Decoded256(input, r)
  {
    var result: nat := 0;
    for i := 0 to 36
      invariant i <= |input| && result == Number(input[..i])
      invariant forall j :: 0 <= j < i ==> Continues(input[j])
    {
      if i >= |input| {
        return ParseError;
      }
      Extended(input, i);
      PayloadIsMask(input[i]);
      ContinuesIsMask(input[i]);
      result := result + Scale(And(input[i] as nat, 0x7f, 8), i);
      if And(input[i] as nat, 0x80, 8) == 0 {
        ShortFits(input, i + 1);
        return Parsed(result, input[i + 1..]);
      }
    }
    if 36 == |input| {
      return ParseError;
    }
    r := DeserialLast(input, result);
  }

  /** The last byte allowed. */
  method DeserialLast(input: seq<byte>, number: nat) returns (r: Parsed)
    requires |input| > 36 && number == Number(input[..36]) && forall j :: 0 <= j < 36 ==> Continues(input[j])
    ensures Decoded256(input, r)
  {
    PayloadIsMask(input[36]);
    ContinuesIsMask(input[36]);
    var d := And(input[36] as nat, 0x7f, 8);
    HighBitsAreMask(d);
    if And(d, 0xf0, 8) != 0 {
      NoneFits(input);
      return ParseError;
    }
    var result := number + Scale(d, 36);
    if And(input[36] as nat, 0x80, 8) != 0 {
      NoneFits(input);
      return ParseError;
    }
    Extended(input, 36);
    LastByte(input);
    assert Fits256(input, 37);
    r := Parsed(result, input[37..]);
  }

  /** A number of at most 36 bytes fits. */
  lemma ShortFits(input: seq<byte>, n: nat)
    requires Leading(input, n) && n <= 36
    ensures Fits256(input, n)
  {
    NumberBound(input[..n]);
    Pow128Below(n);
  }

  /** The 37th byte of a number that fits carries at most four bits. */
  lemma LastByte(input: seq<byte>)
    requires |input| >= 37
    ensures Number(input[..37]) < Pow2(256) <==> Payload(input[36]) / 16 == 0
  {
    Extended(input, 36);
    NumberBound(input[..36]);
    LastDigit(Number(input[..36]), Payload(input[36]), 36);
    Bound256();
  }

  lemma NoneFits(input: seq<byte>)
    requires |input| >= 37 && (forall j :: 0 <= j < 36 ==> Continues(input[j]))
    requires Payload(input[36]) / 16 != 0 || Continues(input[36])
    ensures Decoded256(input, ParseError)
  {
    LastByte(input);
    forall n: nat ensures !Fits256(input, n) {
      assert 1 <= n <= 36 ==> Continues(input[n - 1]);
    }
  }

  lemma Bound256()
    ensures Pow2(256) == 16 * Pow128(36)
  {
    Pow128Is(36);
    assert Pow2(253) == 2 * Pow2(252);
    assert Pow2(254) == 2 * Pow2(253);
    assert Pow2(255) == 2 * Pow2(254);
  }

  lemma LastDigit(low: nat, d: nat, n: nat)
    requires low < Pow128(n)
    ensures low + Scale(d, n) < 16 * Pow128(n) <==> d / 16 == 0
  {
    SixteenGroups(n);
    if d < 16 {
      ScaleNext(d, n);
      ScaleGrows(d + 1, 16, n);
    } else {
      ScaleGrows(16, d, n);
    }
  }

  lemma {:induction false} SixteenGroups(n: nat)
    ensures Scale(16, n) == 16 * Pow128(n)
    decreases n
  {
    if n > 0 { SixteenGroups(n - 1); }
  }

  lemma Pow128Below(n: nat)
    requires n <= 36
    ensures Pow128(n) <= Pow2(256)
  {
    Pow128Is(n);
    Pow2Grows(7 * n, 256);
  }

  /** A number ends in one place only, so what a decoder may return is determined by the input. */
  lemma OneAnswer(input: seq<byte>, r: Parsed, n: nat)
    requires Decoded256(input, r) && Fits256(input, n)
    ensures r == Parsed(Number(input[..n]), input[n..])
  {
    var m: nat :| Fits256(input, m) && r.value == Number(input[..m]) && r.rest == input[m..];
    assert !Continues(input[m - 1]) && !Continues(input[n - 1]);
  }

  /** Reading a 256-bit amount undoes writing it, whatever follows. */
  lemma RoundTripU256(v: nat, tail: seq<byte>, r: Parsed)
    requires v < Pow2(256) && Decoded256(Encode(v) + tail, r)
    ensures r == Parsed(v, tail)
  {
    EncodingFits(v);
    EncodeIsLeading(v, tail);
    var input, n := Encode(v) + tail, |Encode(v)|;
    assert input[..n] == Encode(v) && input[n..] == tail;
    OneAnswer(input, r, n);
  }
}
