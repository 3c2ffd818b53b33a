/** Serialization into the contract state: fixed-width integers, vectors and tree nodes. Reading
    back what was written does not depend on what follows it. */
module Codecs {
  import opened Common
  import opened BTreeForest

  type bytes = seq<byte>

  /** How values of a type are written and read. `fits` holds of the values that can be written. */
  datatype Codec<!T> = Codec(fits: T -> bool, serial: T -> bytes, deserial: bytes -> Option<(T, bytes)>)

  ghost predicate ReadsBack<T(!new)>(c: Codec<T>, v: T, tail: bytes) {
    c.deserial(c.serial(v) + tail) == Some((v, tail))
  }

  /** Reading returns the value that was written and stops behind it. */
  ghost predicate Lawful<T(!new)>(c: Codec<T>) {
    forall v, tail :: c.fits(v) ==> ReadsBack(c, v, tail)
  }

  /** Different values are written differently. */
  ghost predicate Injective<T(!new)>(c: Codec<T>) {
    forall v, w :: c.fits(v) && c.fits(w) && c.serial(v) == c.serial(w) ==> v == w
  }

  lemma LawfulInjective<T(!new)>(c: Codec<T>)
    requires Lawful(c)
    ensures Injective(c)
  {
    forall v, w | c.fits(v) && c.fits(w) && c.serial(v) == c.serial(w) ensures v == w {
      assert ReadsBack(c, v, []) && ReadsBack(c, w, []);
    }
  }

  // ---------------------------------------------------------------- little-endian integers

  function Pow256(n: nat): (r: nat)
    ensures r > 0
  {
    if n == 0 then 1 else 256 * Pow256(n - 1)
  }

  /** The `n` lowest bytes of a number, the lowest first. */
  function LeBytes(x: nat, n: nat): (r: bytes)
    ensures |r| == n
  {
    if n == 0 then [] else [(x % 256) as byte] + LeBytes(x / 256, n - 1)
  }

  function FromLe(s: bytes): (r: nat)
    ensures r < Pow256(|s|)
  {
    if s == [] then 0 else s[0] as nat + 256 * FromLe(s[1..])
  }

  lemma {:induction false} LeRoundTrip(x: nat, n: nat)
    requires x < Pow256(n)
    ensures FromLe(LeBytes(x, n)) == x
    decreases n
  {
    if n > 0 {
      LeRoundTrip(x / 256, n - 1);
      assert LeBytes(x, n)[1..] == LeBytes(x / 256, n - 1);
    }
  }

  /** The lowest byte comes first: what follows `s` counts `256^|s|` times. */
  lemma {:induction false} LeConcat(b: byte, s: bytes, t: bytes)
    ensures FromLe([b]) == b as nat && FromLe(s + t) == FromLe(s) + Pow256(|s|) * FromLe(t)
    decreases |s|
  {
    if s == [] {
      assert s + t == t;
    } else {
      LeConcat(b, s[1..], t);
      assert (s + t)[1..] == s[1..] + t;
      Distribute(Pow256(|s| - 1), FromLe(t));
    }
  }

  lemma Distribute(p: nat, x: nat)
    ensures 256 * (p * x) == (256 * p) * x
  {
  }

  /** Every string of bytes is what is written of the number it stands for. */
  lemma {:induction false} LeCanonical(s: bytes)
    ensures LeBytes(FromLe(s), |s|) == s
    decreases |s|
  {
    if s != [] {
      LeCanonical(s[1..]);
      var x, low, high := FromLe(s), s[0] as nat, FromLe(s[1..]);
      assert x == low + 256 * high && x % 256 == low && x / 256 == high;
      assert s == [s[0]] + s[1..];
    }
  }

  lemma LeInjective(x: nat, y: nat, n: nat)
    requires x < Pow256(n) && y < Pow256(n) && LeBytes(x, n) == LeBytes(y, n)
    ensures x == y
  {
    LeRoundTrip(x, n);
    LeRoundTrip(y, n);
  }

  function DeserialLe(n: nat, input: bytes): Option<(nat, bytes)> {
    if |input| < n then None else Some((FromLe(input[..n]), input[n..]))
  }

  lemma LeReadsBack(x: nat, n: nat, tail: bytes)
    requires x < Pow256(n)
    ensures DeserialLe(n, LeBytes(x, n) + tail) == Some((x, tail))
  {
    LeRoundTrip(x, n);
    var input := LeBytes(x, n) + tail;
    assert input[..n] == LeBytes(x, n) && input[n..] == tail;
  }

  // ---------------------------------------------------------------- vectors

  function SerialAll<T>(c: Codec<T>, s: seq<T>): bytes {
    if s == [] then [] else c.serial(s[0]) + SerialAll(c, s[1..])
  }

  function DeserialAll<T>(c: Codec<T>, n: nat, input: bytes): Option<(seq<T>, bytes)> {
    if n == 0 then Some(([], input))
    else
      match c.deserial(input)
      case None => None
      case Some(first) =>
        match DeserialAll(c, n - 1, first.1)
        case None => None
        case Some(more) => Some(([first.0] + more.0, more.1))
  }

  lemma {:induction false} AllReadBack<T(!new)>(c: Codec<T>, s: seq<T>, tail: bytes)
    requires Lawful(c) && forall i :: 0 <= i < |s| ==> c.fits(s[i])
    ensures DeserialAll(c, |s|, SerialAll(c, s) + tail) == Some((s, tail))
    decreases |s|
  {
    if s == [] {
      assert SerialAll(c, s) + tail == tail;
    } else {
      var more := SerialAll(c, s[1..]) + tail;
      assert ReadsBack(c, s[0], more);
      assert SerialAll(c, s) + tail == c.serial(s[0]) + more;
      AllReadBack(c, s[1..], tail);
      assert [s[0]] + s[1..] == s;
    }
  }

  /** A vector: the number of elements in four bytes, then the elements. */
  function SerialVec<T>(c: Codec<T>, s: seq<T>): bytes { LeBytes(|s|, 4) + SerialAll(c, s) }

  function DeserialVec<T>(c: Codec<T>, input: bytes): Option<(seq<T>, bytes)> {
    match DeserialLe(4, input)
    case None => None
    case Some(length) => DeserialAll(c, length.0, length.1)
  }

  lemma VecReadsBack<T(!new)>(c: Codec<T>, s: seq<T>, tail: bytes)
    requires Lawful(c) && |s| < Pow256(4) && forall i :: 0 <= i < |s| ==> c.fits(s[i])
    ensures DeserialVec(c, SerialVec(c, s) + tail) == Some((s, tail))
  {
    var more := SerialAll(c, s) + tail;
    assert SerialVec(c, s) + tail == LeBytes(|s|, 4) + more;
    LeReadsBack(|s|, 4, more);
    AllReadBack(c, s, tail);
  }

  // ---------------------------------------------------------------- tree nodes

  /** A node id is written as a 64-bit integer. */
  function IdCodec(): Codec<NodeId> {
    Codec((id: NodeId) => 0 <= id < Pow256(8),
          (id: NodeId) => if id < 0 then [] else LeBytes(id, 8),
          (input: bytes) => match DeserialLe(8, input) case None => None case Some(r) => Some((r.0 as int, r.1)))
  }

  lemma IdsReadBack()
    ensures Lawful(IdCodec()) && Injective(IdCodec())
  {
    forall id, tail | IdCodec().fits(id) ensures ReadsBack(IdCodec(), id, tail) { LeReadsBack(id, 8, tail); }
    LawfulInjective(IdCodec());
  }

  predicate NodeFits(keys: Codec<Key>, node: Node) {
    && |node.keys| < Pow256(4) && |node.children| < Pow256(4)
    && (forall i :: 0 <= i < |node.keys| ==> keys.fits(node.keys[i]))
    && (forall i :: 0 <= i < |node.children| ==> IdCodec().fits(node.children[i]))
  }

  function SerialNode(keys: Codec<Key>, node: Node): bytes {
    SerialVec(keys, node.keys) + SerialVec(IdCodec(), node.children)
  }

  function DeserialNode(keys: Codec<Key>, input: bytes): Option<(Node, bytes)> {
    match DeserialVec(keys, input)
    case None => None
    case Some(ks) =>
      match DeserialVec(IdCodec(), ks.1)
      case None => None
      case Some(cs) => Some((Node(ks.0, cs.0), cs.1))
  }

  function NodeCodec(keys: Codec<Key>): Codec<Node> {
    Codec((node: Node) => NodeFits(keys, node),
          (node: Node) => SerialNode(keys, node),
          (input: bytes) => DeserialNode(keys, input))
  }

  /** The encoding of a node delimits itself, whatever the encoding of its keys. */
  lemma NodesReadBack(keys: Codec<Key>)
    requires Lawful(keys)
    ensures Lawful(NodeCodec(keys))
  {
    forall node, tail | NodeFits(keys, node) ensures ReadsBack(NodeCodec(keys), node, tail) {
      NodeReadsBack(keys, node, tail);
    }
  }

  lemma NodeReadsBack(keys: Codec<Key>, node: Node, tail: bytes)
    requires Lawful(keys) && NodeFits(keys, node)
    ensures DeserialNode(keys, SerialNode(keys, node) + tail) == Some((node, tail))
  {
    var more := SerialVec(IdCodec(), node.children) + tail;
    assert SerialNode(keys, node) + tail == SerialVec(keys, node.keys) + more;
    VecReadsBack(keys, node.keys, more);
    IdsReadBack();
    VecReadsBack(IdCodec(), node.children, tail);
  }
}
