/** `StateBTreeSet`: the B-tree whose nodes are separate entries of the contract state, edited
    through handles that write back only when they are dropped. */
module StateBTree {
  import opened Common
  import opened BTreeForest
  import opened BTreeSteps
  import opened BTreeOrder
  import opened NodeLog

  /** A handle to a stored node: the value is loaded at the first use and written back when
      the handle is dropped. */
  datatype StateRefMut = StateRefMut(id: NodeId, lazy: Option<Node>)

  datatype Search = Found(index: nat) | Missing(index: nat)

  type Pending = map<NodeId, Node>

  /** The stored nodes, overlaid with the values of the live handles, are the forest `g`. */
  ghost predicate Overlay(nodes: map<NodeId, Node>, pend: Pending, g: Forest) {
    && nodes.Keys == g.Keys
    && pend.Keys <= g.Keys
    && forall x {:trigger g[x]} :: x in g ==> (if x in pend then pend[x] else nodes[x]) == g[x].Plain()
  }

  /** A handle to a stored node that has not been changed is no change. */
  lemma OverlayMore(nodes: map<NodeId, Node>, pend: Pending, g: Forest, x: NodeId)
    requires Overlay(nodes, pend, g) && x in g && x !in pend
    ensures Overlay(nodes, pend[x := nodes[x]], g)
  {
  }

  /** Every key of every stored node. */
  ghost function StoredKeys(nodes: map<NodeId, Node>): set<Key> {
    set x, k | x in nodes && k in nodes[x].keys :: k
  }

  lemma StoredKeysAre(nodes: map<NodeId, Node>, g: Forest)
    requires Overlay(nodes, map[], g)
    ensures StoredKeys(nodes) == KeySet(g)
  {
    forall k ensures k in StoredKeys(nodes) <==> Holds(g, k) {
      if k in StoredKeys(nodes) {
        var x :| x in nodes && k in nodes[x].keys;
        assert k in g[x].keys;
      }
      if Holds(g, k) {
        var x :| x in g && k in g[x].keys;
        assert k in nodes[x].keys;
      }
    }
    KeysHeld(g);
  }

  /** `<[T]>::binary_search`: where the key is, or where it would go. */
  method BinarySearch(keys: seq<Key>, key: Key) returns (r: Search)
    requires Sorted(keys)
    ensures r.Found? ==> r.index < |keys| && keys[r.index] == key
    ensures r.Missing? ==> r.index <= |keys| && key !in keys
    ensures forall i :: 0 <= i < r.index ==> keys[i] < key
    ensures r.Missing? ==> forall i :: r.index <= i < |keys| ==> key < keys[i]
  {
    var low, high := 0, |keys|;
    while low < high
      invariant 0 <= low <= high <= |keys|
      invariant forall i :: 0 <= i < low ==> keys[i] < key
      invariant forall i :: high <= i < |keys| ==> key < keys[i]
    {
      var mid := low + (high - low) / 2;
      if keys[mid] < key {
        low := mid + 1;
      } else if key < keys[mid] {
        high := mid;
      } else {
        return Found(mid);
      }
    }
    r := Missing(low);
  }

  /** The keys above `key` start behind the position found. */
  lemma FirstAbove(keys: seq<Key>, key: Key, s: Search)
    requires Sorted(keys) && (s.Found? ==> s.index < |keys| && keys[s.index] == key) && s.index <= |keys|
    requires forall i :: 0 <= i < s.index ==> keys[i] < key
    requires s.Missing? ==> forall i :: s.index <= i < |keys| ==> key < keys[i]
    ensures var index := if s.Found? then s.index + 1 else s.index;
            forall i :: 0 <= i < |keys| ==> (keys[i] > key <==> i >= index)
  {
  }

  /** `r` is the least element of `s`, or nothing if there is none. */
  ghost predicate IsLeast(r: Option<Key>, s: set<Key>) {
    match r
    case None => s == {}
    case Some(k) => k in s && forall q :: q in s ==> k <= q
  }

  /** `r` is the greatest element of `s`, or nothing if there is none. */
  ghost predicate IsGreatest(r: Option<Key>, s: set<Key>) {
    match r
    case None => s == {}
    case Some(k) => k in s && forall q :: q in s ==> q <= k
  }

  /** A key inside the interval of a leaf is in the leaf. */
  lemma LeafCovers(g: Forest, rt: NodeId, y: NodeId)
    requires Shape(g, rt) && y in g && g[y].ht == 0
    ensures forall q :: q in KeySet(g) ==> q in g[y].keys || q <= g[y].lo || g[y].hi <= q
  {
    KeysHeld(g);
    forall q | q in KeySet(g) ensures q in g[y].keys || q <= g[y].lo || g[y].hi <= q {
      var x :| x in g && q in g[x].keys;
      assert NodeOk(g, g[x]);
      assert x != y ==> Laminar(g[x], g[y]);
    }
  }

  lemma AllInRoot(g: Forest, rt: NodeId)
    requires Shape(g, rt)
    ensures forall q :: q in KeySet(g) ==> g[rt].lo < q < g[rt].hi
  {
    KeysHeld(g);
    forall q | q in KeySet(g) ensures g[rt].lo < q < g[rt].hi {
      var x :| x in g && q in g[x].keys;
      assert NodeOk(g, g[x]) && Placed(g, rt, x);
    }
  }

  /** At the leaf of a search, the least of the keys `above` is the next key of the leaf, or
      else the last one passed on the way down. */
  lemma LeastAtLeaf(g: Forest, rt: NodeId, y: NodeId, key: Key, index: nat, soFar: Option<Key>, above: set<Key>)
    requires true == Shape(g, rt)
    requires y in g && g[y].ht == 0 && index <= |g[y].keys|
    requires above == (set k | k in KeySet(g) && k > key) || above == (set k | k in KeySet(g) && k >= key)
    requires g[y].lo <= key < g[y].hi && (key in above ==> key !in g[y].keys && g[y].lo < key)
    requires forall i :: 0 <= i < |g[y].keys| ==> (g[y].keys[i] > key <==> i >= index)
    requires rt in g && PassedAbove(g, rt, y, soFar)
    ensures IsLeast(if index < |g[y].keys| then Some(g[y].keys[index]) else soFar, above)
  {
    LeafCovers(g, rt, y);
    AllInRoot(g, rt);
    KeysHeld(g);
    assert NodeOk(g, g[y]);
    if index < |g[y].keys| { assert g[y].keys[index] in g[y].keys; }
    var r := if index < |g[y].keys| then Some(g[y].keys[index]) else soFar;
    forall q | q in above ensures r.Some? && r.value <= q {
      assert q in g[y].keys ==> q > key;
    }
    assert above == {} || r.Some?;
  }

  /** At the leaf of a search, the greatest of the keys `below` is the previous key of the leaf,
      or else the last one passed on the way down. */
  lemma GreatestAtLeaf(g: Forest, rt: NodeId, y: NodeId, key: Key, index: nat, soFar: Option<Key>, below: set<Key>)
    requires true == Shape(g, rt)
    requires y in g && g[y].ht == 0 && index <= |g[y].keys|
    requires below == (set k | k in KeySet(g) && k < key) || below == (set k | k in KeySet(g) && k <= key)
    requires g[y].lo < key <= g[y].hi && (key in below ==> key !in g[y].keys && key < g[y].hi)
    requires forall i :: 0 <= i < |g[y].keys| ==> (g[y].keys[i] < key <==> i < index)
    requires rt in g && PassedBelow(g, rt, y, soFar)
    ensures IsGreatest(if index == 0 then soFar else Some(g[y].keys[index - 1]), below)
  {
    LeafCovers(g, rt, y);
    AllInRoot(g, rt);
    KeysHeld(g);
    assert NodeOk(g, g[y]);
    if index > 0 { assert g[y].keys[index - 1] in g[y].keys; }
    var r := if index == 0 then soFar else Some(g[y].keys[index - 1]);
    forall q | q in below ensures r.Some? && q <= r.value {
      assert q in g[y].keys ==> q < key;
    }
    assert below == {} || r.Some?;
  }

  /** A search has loaded node `id`, after `loads` loads from the root on. */
  ghost predicate AtNode(g: Forest, rt: NodeId, id: NodeId, node: Node, loads: nat) {
    rt in g && id in g && node == g[id].Plain() && 1 <= loads && loads + g[id].ht == g[rt].ht + 1
  }

  /** The last key passed on the way down that is larger: the end of the node's interval. */
  ghost predicate PassedAbove(g: Forest, rt: NodeId, id: NodeId, soFar: Option<Key>)
    requires rt in g && id in g
  {
    if soFar.None? then g[id].hi == g[rt].hi else soFar.value == g[id].hi && soFar.value in KeySet(g)
  }

  /** The last key passed on the way down that is smaller: the start of the node's interval. */
  ghost predicate PassedBelow(g: Forest, rt: NodeId, id: NodeId, soFar: Option<Key>)
    requires rt in g && id in g
  {
    if soFar.None? then g[id].lo == g[rt].lo else soFar.value == g[id].lo && soFar.value in KeySet(g)
  }

  /** What a search learns about the node it is at. */
  lemma NodeView(m: nat, nodes: map<NodeId, Node>, next: NodeId, g: Forest, rt: NodeId, id: NodeId)
    requires true == View(m, nodes, next, g, map[], rt)
    requires id in g
    ensures KeysOk(g[id]) && (g[id].ht == 0 <==> g[id].children == [])
    ensures g[id].children != [] ==> |g[id].children| == |g[id].keys| + 1
    ensures nodes[id] == g[id].Plain()
  {
    assert NodeOk(g, g[id]);
  }

  /** What a search learns about the child it goes to. */
  lemma ChildView(m: nat, nodes: map<NodeId, Node>, next: NodeId, g: Forest, rt: NodeId, id: NodeId, i: nat)
    requires true == View(m, nodes, next, g, map[], rt)
    requires id in g && i < |g[id].children| == |g[id].keys| + 1
    ensures var c := g[id].children[i];
            && c in g && c in nodes && nodes[c] == g[c].Plain() && c != rt
            && g[c].ht + 1 == g[id].ht && g[c].lo == Lo(g[id], i) && g[c].hi == Hi(g[id], i)
  {
    ChildOf(g, rt, id, i);
    var c := g[id].children[i];
    assert nodes[c] == g[c].Plain();
  }

  /** A search for the next larger key goes down before key `index`. */
  lemma DownAbove(m: nat, nodes: map<NodeId, Node>, next: NodeId, g: Forest, rt: NodeId, id: NodeId, loads: nat,
                  index: nat, soFar: Option<Key>)
    requires true == View(m, nodes, next, g, map[], rt)
    requires id in nodes && AtNode(g, rt, id, nodes[id], loads) && PassedAbove(g, rt, id, soFar)
    requires index < |g[id].children| == |g[id].keys| + 1
    ensures var c := g[id].children[index];
            && c in nodes && AtNode(g, rt, c, nodes[c], loads + 1)
            && PassedAbove(g, rt, c, if index < |g[id].keys| then Some(g[id].keys[index]) else soFar)
            && g[c].ht < g[id].ht && g[c].lo == Lo(g[id], index) && g[c].hi == Hi(g[id], index)
  {
    ChildView(m, nodes, next, g, rt, id, index);
    KeysHeld(g);
    if index < |g[id].keys| { assert g[id].keys[index] in g[id].keys; }
  }

  /** A search for the next smaller key goes down behind key `index - 1`. */
  lemma DownBelow(m: nat, nodes: map<NodeId, Node>, next: NodeId, g: Forest, rt: NodeId, id: NodeId, loads: nat,
                  index: nat, soFar: Option<Key>)
    requires true == View(m, nodes, next, g, map[], rt)
    requires id in nodes && AtNode(g, rt, id, nodes[id], loads) && PassedBelow(g, rt, id, soFar)
    requires index < |g[id].children| == |g[id].keys| + 1
    ensures var c := g[id].children[index];
            && c in nodes && AtNode(g, rt, c, nodes[c], loads + 1)
            && PassedBelow(g, rt, c, if index > 0 then Some(g[id].keys[index - 1]) else soFar)
            && g[c].ht < g[id].ht && g[c].lo == Lo(g[id], index) && g[c].hi == Hi(g[id], index)
  {
    ChildView(m, nodes, next, g, rt, id, index);
    KeysHeld(g);
    if index > 0 { assert g[id].keys[index - 1] in g[id].keys; }
  }

  lemma RoomyView(m: nat, nodes: map<NodeId, Node>, next: NodeId, g: Forest, rt: NodeId, key: Key)
    requires View(m, nodes, next, g, map[], rt)
    ensures var h := Widened(g, rt, WideLo(g[rt], key), WideHi(g[rt], key));
            && View(m, nodes, next, h, map[], rt) && KeySet(h) == KeySet(g)
            && h[rt].lo < key < h[rt].hi
  {
    var a, b := WideLo(g[rt], key), WideHi(g[rt], key);
    WidenShape(g, rt, a, b);
    assert NodeOk(g, g[rt]);
    var h := Widened(g, rt, a, b);
    forall x | x in h ensures |h[x].keys| <= 2 * m - 1 && (x != rt ==> m - 1 <= |h[x].keys|) {
      assert |g[x].keys| <= 2 * m - 1;
    }
  }

  /** Interval ends for a root that make room for `key`. */
  ghost function WideLo(n: GNode, key: Key): int { if key <= n.lo then key - 1 else n.lo }
  ghost function WideHi(n: GNode, key: Key): int { if key >= n.hi then key + 1 else n.hi }

  lemma OnlyKey(g: Forest, id: NodeId, key: Key)
    requires g == map[id := GNode([key], [], 0, key - 1, key + 1)]
    ensures Shape(g, id) && KeySet(g) == {key}
  {
    assert NodeOk(g, g[id]);
    forall k ensures Holds(g, k) <==> k == key {
      if k == key { assert k in g[id].keys; }
    }
    KeysHeld(g);
  }

  /** Apart from `n`, nothing as high as `n` or higher changes. */
  ghost predicate SameAbove(before: Forest, after: Forest, n: NodeId)
    requires n in before
  {
    forall x {:trigger after[x]} {:trigger before[x]} ::
      x in before && x != n && before[x].ht >= before[n].ht ==> x in after && after[x] == before[x]
  }

  /** The stored nodes, seen through the live handles `pend`, are a B-tree at `rt`, and every
      node id is below the next one to be given out. */
  ghost predicate View(m: nat, nodes: map<NodeId, Node>, next: NodeId, g: Forest, pend: Pending, rt: NodeId) {
    && BTree(g, rt, m)
    && Overlay(nodes, pend, g)
    && forall x :: x in g ==> x < next
  }

  /** Three handles written over by a rotation. */
  lemma RotatedOverlay(nodes: map<NodeId, Node>, pend: Pending, g: Forest,
                       n: NodeId, p: GNode, l: NodeId, a: GNode, r: NodeId, b: GNode)
    requires n in g && l in g && r in g && n != l && n != r && l != r && g[n].ht > g[l].ht == g[r].ht
    requires n !in pend && l !in pend && r !in pend && pend.Keys <= g.Keys
    requires nodes.Keys == g.Keys
    requires forall x :: x in g && x != n && x != l && x != r ==>
             (if x in pend then pend[x] else nodes[x]) == g[x].Plain()
    ensures var h := Rotated(g, n, p, l, a, r, b);
            && Overlay(nodes, pend[n := p.Plain()][l := a.Plain()][r := b.Plain()], h)
            && SameAbove(g, h, n)
            && h.Keys == g.Keys && h[n] == p && h[l] == a && h[r] == b
  {
  }

  /** The view after a key went through `n` from `l` to `r`. */
  lemma RotatedRightView(m: nat, nodes: map<NodeId, Node>, next: NodeId, g: Forest, pend: Pending, rt: NodeId,
                         n: NodeId, i: nat, l: NodeId, r: NodeId)
    requires n in g && l in g && r in g && n != l && n != r && l != r
    requires n !in pend && l !in pend && r !in pend
    requires View(m, nodes, next, g, pend[n := g[n].Plain()][l := g[l].Plain()][r := g[r].Plain()], rt)
    requires Siblings(g, rt, n, i, l, r) && |g[l].keys| > m - 1 && |g[r].keys| == m - 1
    ensures var h := RotatedRight(g, rt, n, i, l, r);
            && View(m, nodes, next, h, pend[r := h[r].Plain()][n := h[n].Plain()][l := h[l].Plain()], rt)
            && KeySet(h) == KeySet(g) && SameAbove(g, h, n)
  {
    RotateRightStep(g, rt, m, n, i, l, r);
    var h := RotatedRight(g, rt, n, i, l, r);
    RotatedOverlay(nodes, pend, g, n, h[n], l, h[l], r, h[r]);
    assert pend[n := h[n].Plain()][l := h[l].Plain()][r := h[r].Plain()] ==
           pend[r := h[r].Plain()][n := h[n].Plain()][l := h[l].Plain()];
  }

  /** The view after a key went through `n` from `r` to `l`. */
  lemma RotatedLeftView(m: nat, nodes: map<NodeId, Node>, next: NodeId, g: Forest, pend: Pending, rt: NodeId,
                        n: NodeId, i: nat, l: NodeId, r: NodeId)
    requires n in g && l in g && r in g && n != l && n != r && l != r
    requires n !in pend && l !in pend && r !in pend
    requires View(m, nodes, next, g, pend[n := g[n].Plain()][l := g[l].Plain()][r := g[r].Plain()], rt)
    requires Siblings(g, rt, n, i, l, r) && |g[l].keys| == m - 1 && |g[r].keys| > m - 1
    ensures var h := RotatedLeft(g, rt, n, i, l, r);
            && View(m, nodes, next, h, pend[l := h[l].Plain()][n := h[n].Plain()][r := h[r].Plain()], rt)
            && KeySet(h) == KeySet(g) && SameAbove(g, h, n)
  {
    RotateLeftStep(g, rt, m, n, i, l, r);
    var h := RotatedLeft(g, rt, n, i, l, r);
    RotatedOverlay(nodes, pend, g, n, h[n], l, h[l], r, h[r]);
    assert pend[n := h[n].Plain()][l := h[l].Plain()][r := h[r].Plain()] ==
           pend[l := h[l].Plain()][n := h[n].Plain()][r := h[r].Plain()];
  }

  /** The three nodes after a key went through `n` from `l` to `r`, as they are written. */
  lemma RotatedRightNodes(g: Forest, rt: NodeId, n: NodeId, i: nat, l: NodeId, r: NodeId)
    requires true == Siblings(g, rt, n, i, l, r)
    requires g[l].keys != []
    ensures var h := RotatedRight(g, rt, n, i, l, r);
            var inner := g[r].children != [];
            && (inner ==> g[l].children != [])
            && h[n].Plain() == Node(g[n].keys[i := g[l].keys[|g[l].keys| - 1]], g[n].children)
            && h[r].Plain() == Node([g[n].keys[i]] + g[r].keys,
                                    if inner then [g[l].children[|g[l].children| - 1]] + g[r].children
                                    else g[r].children)
            && h[l].Plain() == Node(g[l].keys[..|g[l].keys| - 1],
                                    if inner then g[l].children[..|g[l].children| - 1] else g[l].children)
  {
  }

  /** The three nodes after a key went through `n` from `r` to `l`, as they are written. */
  lemma RotatedLeftNodes(g: Forest, rt: NodeId, n: NodeId, i: nat, l: NodeId, r: NodeId)
    requires true == Siblings(g, rt, n, i, l, r)
    requires g[r].keys != []
    ensures var h := RotatedLeft(g, rt, n, i, l, r);
            var inner := g[l].children != [];
            && (inner ==> g[r].children != [])
            && h[n].Plain() == Node(g[n].keys[i := g[r].keys[0]], g[n].children)
            && h[l].Plain() == Node(g[l].keys + [g[n].keys[i]],
                                    if inner then g[l].children + [g[r].children[0]] else g[l].children)
            && h[r].Plain() == Node(g[r].keys[1..], if inner then g[r].children[1..] else g[r].children)
  {
  }

  /** The view after child `i + 1` of `n` was merged into child `i`, and its entry deleted. */
  lemma MergedView(m: nat, nodes: map<NodeId, Node>, next: NodeId, g: Forest, pend: Pending, rt: NodeId,
                   n: NodeId, i: nat, l: NodeId, r: NodeId)
    requires n in g && l in g && r in g && n != l && n != r && l != r
    requires n !in pend && l !in pend && r !in pend
    requires View(m, nodes, next, g, pend[n := g[n].Plain()][l := g[l].Plain()][r := g[r].Plain()], rt)
    requires Siblings(g, rt, n, i, l, r) && |g[l].keys| == |g[r].keys| == m - 1 && (n != rt ==> |g[n].keys| >= m)
    ensures var h := Merged(g, rt, n, i, l, r);
            && true == View(m, nodes - {r}, next, h, pend[n := h[n].Plain()][l := h[l].Plain()], rt)
            && KeySet(h) == KeySet(g) && true == SameAbove(g, h, n) && |h[l].keys| == 2 * m - 1
  {
    MergeStep(g, rt, m, n, i);
    var h := Merged(g, rt, n, i, l, r);
    var p := pend[n := h[n].Plain()][l := h[l].Plain()];
    forall x | x in h ensures (if x in p then p[x] else nodes[x]) == h[x].Plain() {
      if x != n && x != l { assert h[x] == g[x]; }
    }
    assert p.Keys <= h.Keys && (nodes - {r}).Keys == h.Keys;
  }

  /** The three nodes after a split, as they are written. */
  lemma SplitNodes(g: Forest, rt: NodeId, m: nat, n: NodeId, i: nat, c: NodeId, s: NodeId, h: Forest)
    requires m > 0 && true == CanSplit(g, rt, n, i, c, m - 1, s)
    requires c in g && |g[c].keys| == 2 * m - 1
    requires h == Split(g, rt, n, i, c, m - 1, s)
    ensures i < |g[n].children| == |g[n].keys| + 1 && (g[c].children == [] || |g[c].children| == 2 * m)
    ensures h[n].Plain() == Node(g[n].keys[..i] + [g[c].keys[m - 1]] + g[n].keys[i..],
                                 g[n].children[..i + 1] + [s] + g[n].children[i + 1..])
    ensures h[c].Plain() == Node(g[c].keys[..m - 1], if g[c].children == [] then [] else g[c].children[..m])
    ensures h[s].Plain() == Node(g[c].keys[m..], if g[c].children == [] then [] else g[c].children[m..])
  {
  }

  /** What a split of child `i` of `n`, the node `c`, into `c` and `s` leaves and changes. */
  ghost predicate SplitDone(before: Forest, after: Forest, n: NodeId, i: nat, c: NodeId, s: NodeId) {
    && n in before && c in before && n != c && s !in before
    && after.Keys == before.Keys + {s} && KeySet(after) == KeySet(before)
    && (forall x :: x in before ==> after[x].ht == before[x].ht)
    && (forall x :: x in before && x != c ==> after[x].lo == before[x].lo && after[x].hi == before[x].hi)
    && before[n].ht > after[c].ht == after[s].ht
    && |after[n].keys| == |before[n].keys| + 1 && i < |after[n].keys| && after[n].keys[i] in before[c].keys
    && after[c].lo == before[c].lo && after[s].hi == before[c].hi
    && after[c].hi == after[n].keys[i] == after[s].lo
  }

  lemma SplitIsDone(g: Forest, rt: NodeId, n: NodeId, i: nat, c: NodeId, at: nat, s: NodeId)
    requires true == CanSplit(g, rt, n, i, c, at, s)
    ensures true == SplitDone(g, Split(g, rt, n, i, c, at, s), n, i, c, s)
  {
    SplitShape(g, rt, n, i, c, at, s);
    assert g[c].keys[at] in g[c].keys;
  }

  /** The view after the full child `i` of `n` was split, with an entry `s` for its upper half. */
  lemma SplitView(m: nat, nodes: map<NodeId, Node>, g: Forest, pend: Pending, rt: NodeId, n: NodeId, i: nat, c: NodeId,
                  s: NodeId)
    requires true == View(m, nodes, s, g, pend, rt)
    requires n in g && c in g && n in pend && c in pend
    requires i < |g[n].children| && g[n].children[i] == c
    requires |g[n].keys| < 2 * m - 1 && |g[c].keys| == 2 * m - 1
    ensures true == CanSplit(g, rt, n, i, c, m - 1, s)
    ensures var h := Split(g, rt, n, i, c, m - 1, s);
            && true == View(m, nodes[s := h[s].Plain()], s + 1, h,
                            pend[n := h[n].Plain()][c := h[c].Plain()][s := h[s].Plain()], rt)
            && KeySet(h) == KeySet(g) && |h[c].keys| == |h[s].keys| == m - 1
            && (g[rt].keys != [] ==> h[rt].keys != [])
  {
    SplitStep(g, rt, m, n, i, s);
    var h := Split(g, rt, n, i, c, m - 1, s);
    var p := pend[n := h[n].Plain()][c := h[c].Plain()][s := h[s].Plain()];
    forall x | x in h ensures (if x in p then p[x] else nodes[s := h[s].Plain()][x]) == h[x].Plain() {
      if x != n && x != c && x != s { assert h[x] == g[x]; }
    }
    assert p.Keys <= h.Keys && nodes[s := h[s].Plain()].Keys == h.Keys;
  }

  /** The same, with the three nodes as they are written. */
  lemma SplitInView(m: nat, nodes: map<NodeId, Node>, g: Forest, pend: Pending, rt: NodeId, n: NodeId, i: nat,
                    c: NodeId, s: NodeId)
    returns (h: Forest)
    requires true == View(m, nodes, s, g, pend, rt)
    requires n in g && c in g && n in pend && c in pend
    requires i < |g[n].children| && g[n].children[i] == c
    requires |g[n].keys| < 2 * m - 1 && |g[c].keys| == 2 * m - 1
    ensures true == SplitDone(g, h, n, i, c, s)
    ensures |h[c].keys| == |h[s].keys| == m - 1 && |g[n].children| == |g[n].keys| + 1
    ensures true == View(m, nodes[s := h[s].Plain()], s + 1, h,
                         pend[n := h[n].Plain()][c := h[c].Plain()][s := h[s].Plain()], rt)
    ensures rt in g && rt in h && (g[rt].keys != [] ==> h[rt].keys != [])
    ensures g[c].children == [] || |g[c].children| == 2 * m
    ensures h[n].Plain() == Node(g[n].keys[..i] + [g[c].keys[m - 1]] + g[n].keys[i..],
                                 g[n].children[..i + 1] + [s] + g[n].children[i + 1..])
    ensures h[c].Plain() == Node(g[c].keys[..m - 1], if g[c].children == [] then [] else g[c].children[..m])
    ensures h[s].Plain() == Node(g[c].keys[m..], if g[c].children == [] then [] else g[c].children[m..])
  {
    SplitView(m, nodes, g, pend, rt, n, i, c, s);
    SplitIsDone(g, rt, n, i, c, m - 1, s);
    h := Split(g, rt, n, i, c, m - 1, s);
    SplitNodes(g, rt, m, n, i, c, s, h);
  }

  /** Once the largest key of a leaf is gone, no comparison in the tree tells it from the upper
      end of the leaf's interval. */
  lemma PredecessorApart(g: Forest, rt: NodeId, y: NodeId)
    requires Shape(g, rt) && y in g && g[y].ht == 0 && g[y].keys != []
    ensures var last := |g[y].keys| - 1;
            var h := WithKeys(g, y, g[y].keys[..last]);
            true == AllApart(h, g[y].hi, g[y].keys[last])
  {
    var last := |g[y].keys| - 1;
    var h := WithKeys(g, y, g[y].keys[..last]);
    assert NodeOk(g, g[y]);
    forall x | x in h ensures NodeApart(h[x], g[y].hi, g[y].keys[last]) {
      assert NodeOk(g, g[x]);
      assert x != y ==> Laminar(g[x], g[y]);
    }
  }

  /** Once the smallest key of a leaf is gone, no comparison in the tree tells it from the lower
      end of the leaf's interval. */
  lemma SuccessorApart(g: Forest, rt: NodeId, y: NodeId)
    requires Shape(g, rt) && y in g && g[y].ht == 0 && g[y].keys != []
    ensures var h := WithKeys(g, y, g[y].keys[1..]);
            true == AllApart(h, g[y].lo, g[y].keys[0])
  {
    var h := WithKeys(g, y, g[y].keys[1..]);
    assert NodeOk(g, g[y]);
    forall x | x in h ensures NodeApart(h[x], g[y].lo, g[y].keys[0]) {
      assert NodeOk(g, g[x]);
      assert x != y ==> Laminar(g[x], g[y]);
    }
  }

  class StateBTreeSet {
    /** The minimum degree. */
    const M: nat
    /** The entries of the state under this set's prefix, decoded. */
    var nodes: map<NodeId, Node>
    var root: Option<NodeId>
    var len: nat
    var nextNodeId: NodeId
    /** The stored nodes with their heights and intervals. */
    ghost var g: Forest
    /** What was done to the entries, in order. */
    ghost var log: seq<NodeOp>

    /** The entries are what the operations on them have left. */
    ghost predicate Logged()
      reads this
    {
      Legal(log) && nodes == Replay(log)
    }

    /** The tree at `rt`, seen through the live handles `pend`. */
    ghost predicate Rep(pend: Pending, rt: NodeId)
      reads this
    {
      View(M, nodes, nextNodeId, g, pend, rt) && Logged()
    }

    ghost predicate Valid()
      reads this
    {
      && M >= 2 && Logged()
      && len == |KeySet(g)|
      && match root
         case None => nodes == map[] && g == map[]
         case Some(r) => Rep(map[], r) && g[r].keys != []
    }

    /** The abstract set. */
    ghost function Contents(): set<Key>
      reads this
    {
      StoredKeys(nodes)
    }

    constructor (m: nat)
      requires m >= 2
      ensures Valid() && M == m && Contents() == {}
    {
      M := m;
      nodes, root, len, nextNodeId, g, log := map[], None, 0, 0, map[], [];
      new;
      NoKeys();
    }

    // ---------------------------------------------------------------- handles

    /** The handle with its value loaded. */
    function Loaded(h: StateRefMut): (r: StateRefMut)
      reads this
      requires h.lazy.None? ==> h.id in nodes
      ensures r.id == h.id && r.lazy.Some?
    {
      if h.lazy.Some? then h else StateRefMut(h.id, Some(nodes[h.id]))
    }

    method GetNodeMut(id: NodeId) returns (h: StateRefMut)
      requires id in nodes
      ensures h == StateRefMut(id, None)
    {
      h := StateRefMut(id, None);
    }

    /** Dropping a handle writes a loaded value back to its entry, which must still exist. The
        entry is named by no other live handle, so the tree seen through them is the same. */
    method Drop(h: StateRefMut, ghost rt: NodeId, ghost pend: Pending)
      requires h.lazy.Some? && h.id !in pend && Rep(pend[h.id := h.lazy.value], rt)
      modifies this`nodes, this`log
      ensures nodes == old(nodes)[h.id := h.lazy.value]
      ensures Rep(pend, rt)
    {
      assert g[h.id].Plain() == h.lazy.value;
      OneMoreOp(log, Store(h.id, h.lazy.value));
      log := log + [Store(h.id, h.lazy.value)];
      nodes := nodes[h.id := h.lazy.value];
    }

    method CreateNode(keys: seq<Key>, children: seq<NodeId>) returns (id: NodeId, h: StateRefMut)
      modifies this`nodes, this`log, this`nextNodeId
      ensures id == old(nextNodeId) && nextNodeId == id + 1
      ensures nodes == old(nodes)[id := Node(keys, children)]
      ensures h == StateRefMut(id, Some(Node(keys, children)))
      ensures old(Logged()) ==> Logged()
    {
      id := nextNodeId;
      if Logged() { OneMoreOp(log, Create(id, Node(keys, children))); }
      log := log + [Create(id, Node(keys, children))];
      nextNodeId := nextNodeId + 1;
      nodes := nodes[id := Node(keys, children)];
      h := StateRefMut(id, Some(Node(keys, children)));
    }

    /** Deleting an entry drops its handle without storing. */
    method DeleteNode(id: NodeId, h: StateRefMut)
      requires h.id == id && id in nodes
      modifies this`nodes, this`log
      ensures nodes == old(nodes) - {id}
      ensures old(Logged()) ==> Logged()
    {
      if Logged() { OneMoreOp(log, Delete(id)); }
      log := log + [Delete(id)];
      nodes := nodes - {id};
    }

    // ---------------------------------------------------------------- insertion

    /** Splits the full child `i` of `node` at its middle key, into a new entry. */
    method SplitChild(node: StateRefMut, i: nat, child: StateRefMut, ghost rt: NodeId, ghost pend: Pending)
      returns (node': StateRefMut, child': StateRefMut, larger: StateRefMut)
      requires Rep(pend, rt)
      requires node.id in pend && node.lazy == Some(pend[node.id])
      requires child.id in pend && child.lazy == Some(pend[child.id])
      requires i < |node.lazy.value.children| && node.lazy.value.children[i] == child.id
      requires |node.lazy.value.keys| < 2 * M - 1 && |child.lazy.value.keys| == 2 * M - 1
      modifies this`nodes, this`log, this`nextNodeId, this`g
      ensures node'.id == node.id && node'.lazy.Some? && child'.id == child.id && child'.lazy.Some?
      ensures larger.id == old(nextNodeId) && larger.lazy.Some?
      ensures true == SplitDone(old(g), g, node.id, i, child.id, larger.id)
      ensures Rep(pend[node.id := node'.lazy.value][child.id := child'.lazy.value][larger.id := larger.lazy.value], rt)
      ensures |child'.lazy.value.keys| == |larger.lazy.value.keys| == M - 1
      ensures node'.lazy.value == g[node.id].Plain()
      ensures old(g[rt].keys) != [] ==> g[rt].keys != []
    {
      assert node.lazy.value == g[node.id].Plain() && child.lazy.value == g[child.id].Plain();
      ghost var h;
      var n, c, l;
      n, c, l, h := SplitInTwo(M, node.lazy.value, i, child.lazy.value, nextNodeId, nodes, g, pend, rt, node.id,
                               child.id);
      var id;
      id, larger := CreateNode(l.keys, l.children);
      child' := child.(lazy := Some(c));
      node' := node.(lazy := Some(n));
      g := h;
    }

    /** The values of a split: the middle key of `c` moves up, and what is above it into a new node
        with the id `s`. */
    static method SplitInTwo(m: nat, n: Node, i: nat, c: Node, s: NodeId, ghost nodes: map<NodeId, Node>,
                             ghost g: Forest, ghost pend: Pending, ghost rt: NodeId, ghost p: NodeId, ghost x: NodeId)
      returns (n': Node, c': Node, l: Node, ghost h: Forest)
      requires true == View(m, nodes, s, g, pend, rt)
      requires p in pend && x in pend && p in g && x in g && n == g[p].Plain() && c == g[x].Plain()
      requires i < |n.children| && n.children[i] == x && |n.keys| < 2 * m - 1 && |c.keys| == 2 * m - 1
      ensures true == SplitDone(g, h, p, i, x, s)
      ensures n' == h[p].Plain() && c' == h[x].Plain() && l == h[s].Plain() && |c'.keys| == |l.keys| == m - 1
      ensures true == View(m, nodes[s := l], s + 1, h, pend[p := n'][x := c'][s := l], rt)
      ensures rt in g && rt in h && (g[rt].keys != [] ==> h[rt].keys != [])
    {
      h := SplitInView(m, nodes, g, pend, rt, p, i, x, s);
      l := Node(c.keys[m..], if c.IsLeaf() then [] else c.children[m..]);
      var up := c.keys[m - 1];
      c' := Node(c.keys[..m - 1], if c.IsLeaf() then [] else c.children[..m]);
      n' := Node(n.keys[..i] + [up] + n.keys[i..], n.children[..i + 1] + [s] + n.children[i + 1..]);
    }

    /** Inserts below a node that is not full, which covers the key. The other live handles
        `pend` name nodes at least as high, so the descent never meets them. */
    method InsertNonFull(initial: StateRefMut, key: Key, ghost rt: NodeId, ghost pend: Pending)
      returns (isNew: bool, ghost loads: nat)
      requires initial.lazy.Some? && initial.id !in pend
      requires Rep(pend[initial.id := initial.lazy.value], rt)
      requires |initial.lazy.value.keys| < 2 * M - 1
      requires g[initial.id].lo < key < g[initial.id].hi
      requires forall x :: x in pend ==> g[x].ht >= g[initial.id].ht
      modifies this`nodes, this`log, this`nextNodeId, this`g
      ensures Rep(pend, rt)
      ensures KeySet(g) == old(KeySet(g)) + {key}
      ensures isNew <==> key !in old(KeySet(g))
      ensures loads <= old(g[initial.id].ht)
      ensures old(g[rt].keys) != [] ==> g[rt].keys != []
    {
      var node := initial;
      ghost var more;
      loads := 0;
      while true
        invariant node.lazy.Some? && node.id !in pend && node.id in g
        invariant Rep(pend[node.id := node.lazy.value], rt)
        invariant |node.lazy.value.keys| < 2 * M - 1
        invariant g[node.id].lo < key < g[node.id].hi
        invariant forall x :: x in pend ==> g[x].ht >= g[node.id].ht
        invariant KeySet(g) == old(KeySet(g))
        invariant old(g[rt].keys) != [] ==> g[rt].keys != []
        invariant loads + g[node.id].ht <= old(g[initial.id].ht)
        decreases g[node.id].ht
      {
        var n := node.lazy.value;
        assert NodeOk(g, g[node.id]);
        var r := BinarySearch(n.keys, key);
        if r.Found? {
          assert Holds(g, key);
          Drop(node, rt, pend);
          return false, loads;
        }
        if n.IsLeaf() {
          InsertIntoLeaf(node, r.index, key, rt, pend);
          return true, loads;
        }
        var present;
        present, node, more := DescendForInsert(node, r.index, key, rt, pend);
        loads := loads + more;
        if present {
          return false, loads;
        }
      }
    }

    /** The key goes into a leaf that has room for it. */
    method InsertIntoLeaf(node: StateRefMut, i: nat, key: Key, ghost rt: NodeId, ghost pend: Pending)
      requires node.lazy.Some? && node.id !in pend && node.id in g
      requires Rep(pend[node.id := node.lazy.value], rt)
      requires node.lazy.value.IsLeaf() && i <= |node.lazy.value.keys| < 2 * M - 1
      requires Lo(g[node.id], i) < key < Hi(g[node.id], i) && key !in node.lazy.value.keys
      requires g[node.id].lo < key < g[node.id].hi
      modifies this`nodes, this`log, this`g
      ensures Rep(pend, rt)
      ensures KeySet(g) == old(KeySet(g)) + {key} && key !in old(KeySet(g))
      ensures old(g[rt].keys) != [] ==> g[rt].keys != []
    {
      var n := node.lazy.value;
      assert NodeOk(g, g[node.id]);
      forall x | x in g ensures key !in g[x].keys {
        if key in g[x].keys { InsideOnly(g, rt, x, node.id, key); }
      }
      LeafInsert(g, rt, M, node.id, i, key);
      var node' := node.(lazy := Some(Node(n.keys[..i] + [key] + n.keys[i..], n.children)));
      g := WithKeys(g, node.id, n.keys[..i] + [key] + n.keys[i..]);
      Drop(node', rt, pend);
    }

    /** The node `next`, lower than `height`, that an insertion goes on with. */
    ghost predicate Entered(next: StateRefMut, key: Key, height: nat, rt: NodeId, pend: Pending)
      reads this
    {
      && next.lazy.Some? && next.id !in pend && next.id in g
      && Rep(pend[next.id := next.lazy.value], rt)
      && |next.lazy.value.keys| < 2 * M - 1
      && g[next.id].lo < key < g[next.id].hi
      && g[next.id].ht < height
      && forall x :: x in pend ==> x in g && g[x].ht >= g[next.id].ht
    }

    /** One level down: to child `i`, which is loaded, or to a half of it after splitting. */
    method DescendForInsert(node: StateRefMut, i: nat, key: Key, ghost rt: NodeId, ghost pend: Pending)
      returns (present: bool, next: StateRefMut, ghost loads: nat)
      requires node.lazy.Some? && node.id !in pend && node.id in g
      requires Rep(pend[node.id := node.lazy.value], rt)
      requires i < |node.lazy.value.children| && |node.lazy.value.keys| < 2 * M - 1
      requires NodeOk(g, g[node.id]) && Lo(g[node.id], i) < key < Hi(g[node.id], i)
      requires forall x :: x in pend ==> g[x].ht >= g[node.id].ht
      modifies this`nodes, this`log, this`nextNodeId, this`g
      ensures KeySet(g) == old(KeySet(g)) && loads == 1
      ensures rt in g && (old(g[rt].keys) != [] ==> g[rt].keys != [])
      ensures present ==> Rep(pend, rt) && key in KeySet(g)
      ensures !present ==> true == Entered(next, key, old(g[node.id].ht), rt, pend)
    {
      var n := node.lazy.value;
      ChildOf(g, rt, node.id, i);
      var child := GetNodeMut(n.children[i]);
      child := Loaded(child);
      loads := 1;
      next, present := child, false;
      assert child.lazy.value == g[child.id].Plain();
      if |child.lazy.value.keys| != 2 * M - 1 {
        assert pend[node.id := n][child.id := child.lazy.value] == pend[child.id := child.lazy.value][node.id := n];
        Drop(node, rt, pend[child.id := child.lazy.value]);
        return;
      }
      present, next := SplitAndDescend(node, i, child, key, rt, pend);
    }

    /** The child is full: it is split, and the descent goes on in a half. */
    method SplitAndDescend(node: StateRefMut, i: nat, child: StateRefMut, key: Key, ghost rt: NodeId,
                           ghost pend: Pending)
      returns (present: bool, next: StateRefMut)
      requires node.lazy.Some? && node.id !in pend && node.id in g && child.id !in pend && child.id != node.id
      requires child.lazy.Some? && Rep(pend[node.id := node.lazy.value][child.id := child.lazy.value], rt)
      requires i < |node.lazy.value.children| && node.lazy.value.children[i] == child.id
      requires |node.lazy.value.keys| < 2 * M - 1 && |child.lazy.value.keys| == 2 * M - 1
      requires child.id in g && g[child.id].lo < key < g[child.id].hi
      requires forall x :: x in pend ==> g[x].ht >= g[node.id].ht
      modifies this`nodes, this`log, this`nextNodeId, this`g
      ensures KeySet(g) == old(KeySet(g))
      ensures rt in g && (old(g[rt].keys) != [] ==> g[rt].keys != [])
      ensures present ==> Rep(pend, rt) && key in KeySet(g)
      ensures !present ==> true == Entered(next, key, old(g[node.id].ht), rt, pend)
    {
      var n := node.lazy.value;
      var node', child', larger;
      node', child', larger := SplitChild(node, i, child, rt, pend[node.id := n][child.id := child.lazy.value]);
      present, next := AfterSplit(node', i, child', larger, key, rt, pend);
    }

    /** The key is the one moved up, or goes to one of the halves. */
    method AfterSplit(node: StateRefMut, i: nat, child: StateRefMut, larger: StateRefMut, key: Key,
                      ghost rt: NodeId, ghost pend: Pending)
      returns (present: bool, next: StateRefMut)
      requires node.lazy.Some? && child.lazy.Some? && larger.lazy.Some?
      requires node.id !in pend && child.id !in pend && larger.id !in pend
      requires node.id != child.id && node.id != larger.id && child.id != larger.id
      requires Rep(pend[node.id := node.lazy.value][child.id := child.lazy.value][larger.id := larger.lazy.value], rt)
      requires i < |node.lazy.value.keys|
      requires g[child.id].lo < key < g[larger.id].hi
      requires g[child.id].hi == node.lazy.value.keys[i] == g[larger.id].lo
      modifies this`nodes, this`log
      ensures present ==> Rep(pend, rt) && key in KeySet(g)
      ensures !present ==>
                && (next == child || next == larger)
                && Rep(pend[next.id := next.lazy.value], rt)
                && g[next.id].lo < key < g[next.id].hi
    {
      var moved := node.lazy.value.keys[i];
      ghost var n, c, l := node.lazy.value, child.lazy.value, larger.lazy.value;
      assert g[node.id].Plain() == n;
      if moved == key {
        assert key in g[node.id].keys;
        Drop(larger, rt, pend[node.id := n][child.id := c]);
        Drop(child, rt, pend[node.id := n]);
        Drop(node, rt, pend);
        present, next := true, larger;
      } else if moved < key {
        assert pend[node.id := n][child.id := c][larger.id := l] == pend[child.id := c][larger.id := l][node.id := n];
        Drop(node, rt, pend[child.id := c][larger.id := l]);
        assert pend[child.id := c][larger.id := l] == pend[larger.id := l][child.id := c];
        Drop(child, rt, pend[larger.id := l]);
        present, next := false, larger;
      } else {
        Drop(larger, rt, pend[node.id := n][child.id := c]);
        assert pend[node.id := n][child.id := c] == pend[child.id := c][node.id := n];
        Drop(node, rt, pend[child.id := c]);
        present, next := false, child;
      }
    }

    /** Puts an empty node above a full root, and splits the old root below it. */
    method GrowRoot(rootNode: StateRefMut) returns (newRoot: StateRefMut, child: StateRefMut, larger: StateRefMut)
      requires root == Some(rootNode.id) && Rep(map[], rootNode.id)
      requires rootNode.lazy == Some(nodes[rootNode.id]) && |rootNode.lazy.value.keys| == 2 * M - 1
      modifies this`nodes, this`log, this`nextNodeId, this`g, this`root
      ensures root == Some(newRoot.id) && child.id == rootNode.id
      ensures newRoot.lazy.Some? && child.lazy.Some? && larger.lazy.Some?
      ensures newRoot.id != child.id && newRoot.id != larger.id && child.id != larger.id
      ensures Rep(map[newRoot.id := newRoot.lazy.value, child.id := child.lazy.value, larger.id := larger.lazy.value],
                  newRoot.id)
      ensures KeySet(g) == old(KeySet(g))
      ensures |newRoot.lazy.value.keys| == 1 && |child.lazy.value.keys| == |larger.lazy.value.keys| == M - 1
      ensures g[newRoot.id].lo == old(g[rootNode.id].lo) == g[child.id].lo
      ensures g[newRoot.id].hi == old(g[rootNode.id].hi) == g[larger.id].hi
      ensures g[child.id].hi == newRoot.lazy.value.keys[0] == g[larger.id].lo
      ensures newRoot.lazy.value.keys[0] in rootNode.lazy.value.keys
      ensures g[newRoot.id].ht > g[child.id].ht == g[larger.id].ht == old(g[rootNode.id].ht)
    {
      var rootId := rootNode.id;
      GrowShape(g, rootId, nextNodeId);
      var newRootId;
      ghost var gn := GNode([], [rootId], g[rootId].ht + 1, g[rootId].lo, g[rootId].hi);
      newRootId, newRoot := CreateNode([], [rootId]);
      g := g[newRootId := gn];
      root := Some(newRootId);
      ghost var g0 := g;
      assert Sizes(g, newRootId, M);
      child := rootNode;
      newRoot, child, larger := SplitChild(newRoot, 0, child, newRootId,
        map[newRootId := newRoot.lazy.value, rootId := child.lazy.value]);
      assert newRoot.lazy.value == g[newRootId].Plain();
      assert child.lazy.value == g[child.id].Plain();
      assert larger.lazy.value == g[larger.id].Plain();
    }

    /** The insertion below a root that had to be split first. The handles to the new root and
        to the half not taken stay live meanwhile. */
    method InsertAboveRoot(rootNode: StateRefMut, key: Key) returns (isNew: bool, ghost loads: nat)
      requires root == Some(rootNode.id) && Rep(map[], rootNode.id)
      requires rootNode.lazy == Some(nodes[rootNode.id]) && |rootNode.lazy.value.keys| == 2 * M - 1
      requires g[rootNode.id].lo < key < g[rootNode.id].hi && key !in rootNode.lazy.value.keys
      modifies this`nodes, this`log, this`nextNodeId, this`g, this`root
      ensures root.Some? && Rep(map[], root.value) && g[root.value].keys != []
      ensures KeySet(g) == old(KeySet(g)) + {key}
      ensures isNew <==> key !in old(KeySet(g))
      ensures loads <= old(g[rootNode.id].ht)
    {
      var newRoot, child, larger := GrowRoot(rootNode);
      var keyInRoot := newRoot.lazy.value.keys[0];
      var initial, other := child, larger;
      if keyInRoot < key {
        initial, other := larger, child;
      }
      ghost var top := map[newRoot.id := newRoot.lazy.value];
      assert top[other.id := other.lazy.value][initial.id := initial.lazy.value] ==
             map[newRoot.id := newRoot.lazy.value, child.id := child.lazy.value, larger.id := larger.lazy.value];
      isNew, loads := InsertNonFull(initial, key, newRoot.id, top[other.id := other.lazy.value]);
      Drop(other, newRoot.id, top);
      assert top == map[][newRoot.id := newRoot.lazy.value];
      Drop(newRoot, newRoot.id, map[]);
    }

    /** The first key makes a leaf root. */
    method InsertFirst(key: Key)
      requires Valid() && root.None?
      modifies this
      ensures Valid() && KeySet(g) == {key}
    {
      var id, _ := CreateNode([key], []);
      root := Some(id);
      len := 1;
      g := map[id := GNode([key], [], 0, key - 1, key + 1)];
      OnlyKey(g, id, key);
    }

    /** Insertion into a tree that has a root. */
    method InsertBelow(rootId: NodeId, key: Key) returns (isNew: bool, ghost loads: nat)
      requires root == Some(rootId) && Rep(map[], rootId) && g[rootId].keys != []
      requires g[rootId].lo < key < g[rootId].hi
      modifies this`nodes, this`log, this`nextNodeId, this`g, this`root
      ensures root.Some? && Rep(map[], root.value) && g[root.value].keys != []
      ensures KeySet(g) == old(KeySet(g)) + {key}
      ensures isNew <==> key !in old(KeySet(g))
      ensures loads <= old(g[rootId].ht) + 1
    {
      var rootNode := GetNodeMut(rootId);
      rootNode := Loaded(rootNode);
      loads := 0;
      assert rootNode.lazy.value == g[rootId].Plain();
      if |rootNode.lazy.value.keys| != 2 * M - 1 {
        isNew, loads := InsertNonFull(rootNode, key, rootId, map[]);
      } else {
        assert NodeOk(g, g[rootId]);
        var r := BinarySearch(rootNode.lazy.value.keys, key);
        if r.Found? {
          assert Holds(g, key);
          Drop(rootNode, rootId, map[]);
          isNew := false;
        } else {
          isNew, loads := InsertAboveRoot(rootNode, key);
        }
      }
      loads := loads + 1;
    }

    /** Insertion and the count, on the forest. */
    method InsertCounted(key: Key) returns (isNew: bool, ghost loads: nat)
      requires Valid() && root.Some?
      modifies this
      ensures Valid() && KeySet(g) == old(KeySet(g)) + {key}
      ensures isNew <==> key !in old(KeySet(g))
      ensures loads <= old(g[root.value].ht) + 1
    {
      MakeRoom(key);
      ghost var before := KeySet(g);
      isNew, loads := InsertBelow(root.value, key);
      assert |before + {key}| == if key in before then |before| else |before| + 1 by {
        if key in before { assert before + {key} == before; }
      }
      if isNew {
        len := len + 1;
      }
    }

    /** Adds a key; returns whether it is new. */
    method Insert(key: Key) returns (isNew: bool, ghost loads: nat)
      requires Valid()
      modifies this
      ensures Valid()
      ensures Contents() == old(Contents()) + {key}
      ensures isNew <==> key !in old(Contents())
      ensures loads <= old(Levels()) && old(FewLevels())
    {
      StoredKeysAre(nodes, g);
      LevelsBound();
      if root.None? {
        NoKeys();
        InsertFirst(key);
        isNew, loads := true, 0;
      } else {
        isNew, loads := InsertCounted(key);
      }
      StoredKeysAre(nodes, g);
    }

    // ---------------------------------------------------------------- removal

    /** The child `r` that a descent through `n` continues with: it can spare a key, and covers
        at least the interval `(lo, hi)`. */
    ghost predicate Prepared(r: StateRefMut, rt: NodeId, pend: Pending, before: Forest, id: NodeId, lo: int, hi: int)
      reads this
      requires id in before
    {
      var n := before[id];
      && r.lazy.Some? && r.id in g && r.id !in pend && r.id != rt
      && Rep(pend[r.id := r.lazy.value], rt)
      && |r.lazy.value.keys| >= M
      && g[r.id].ht + 1 == n.ht
      && n.lo <= g[r.id].lo <= lo && hi <= g[r.id].hi <= n.hi
      && KeySet(g) == KeySet(before)
      && SameAbove(before, g, id)
    }

    /** Moves key `i` of `parent` into `child`, followed by all of `larger`, whose entry is deleted. */
    method Merge(parent: StateRefMut, i: nat, child: StateRefMut, larger: StateRefMut, ghost rt: NodeId,
                 ghost pend: Pending)
      returns (parent': StateRefMut, child': StateRefMut)
      requires parent.lazy.Some? && child.lazy.Some? && larger.lazy.Some?
      requires parent.id !in pend && child.id !in pend && larger.id !in pend
      requires Rep(pend[parent.id := parent.lazy.value][child.id := child.lazy.value][larger.id := larger.lazy.value],
                   rt)
      requires Siblings(g, rt, parent.id, i, child.id, larger.id)
      requires parent.id != rt ==> |parent.lazy.value.keys| >= M
      requires |child.lazy.value.keys| == |larger.lazy.value.keys| == M - 1
      modifies this`nodes, this`log, this`g
      ensures parent'.id == parent.id && child'.id == child.id && parent'.lazy.Some? && child'.lazy.Some?
      ensures Rep(pend[parent.id := parent'.lazy.value][child.id := child'.lazy.value], rt)
      ensures |child'.lazy.value.keys| == 2 * M - 1
      ensures KeySet(g) == old(KeySet(g)) && SameAbove(old(g), g, parent.id)
      ensures g[child.id].ht == old(g[child.id].ht)
      ensures g[child.id].lo == old(g[child.id].lo) && g[child.id].hi == old(g[larger.id].hi)
      ensures g[parent.id].ht == old(g[parent.id].ht) && larger.id !in g
    {
      assert parent.lazy.value == g[parent.id].Plain();
      assert child.lazy.value == g[child.id].Plain() && larger.lazy.value == g[larger.id].Plain();
      MergedView(M, nodes, nextNodeId, g, pend, rt, parent.id, i, child.id, larger.id);
      var p, c, l := parent.lazy.value, child.lazy.value, larger.lazy.value;
      var parentKey := p.keys[i];
      var largerId := p.children[i + 1];
      parent' := parent.(lazy := Some(Node(p.keys[..i] + p.keys[i + 1..], p.children[..i + 1] + p.children[i + 2..])));
      child' := child.(lazy := Some(Node(c.keys + [parentKey] + l.keys, c.children + l.children)));
      DeleteNode(largerId, larger);
      g := Merged(g, rt, parent.id, i, child.id, larger.id);
    }

    /** `a`, `b` and `c` are loaded handles to three distinct nodes outside `pend`. */
    static ghost predicate Live(a: StateRefMut, b: StateRefMut, c: StateRefMut, pend: Pending) {
      && a.lazy.Some? && b.lazy.Some? && c.lazy.Some?
      && a.id != b.id && a.id != c.id && b.id != c.id
      && a.id !in pend && b.id !in pend && c.id !in pend
    }

    /** The pending values with three more handles. */
    static ghost function With3(pend: Pending, a: StateRefMut, b: StateRefMut, c: StateRefMut): Pending
      requires a.lazy.Some? && b.lazy.Some? && c.lazy.Some?
    {
      pend[a.id := a.lazy.value][b.id := b.lazy.value][c.id := c.lazy.value]
    }

    /** A key goes from the smaller sibling `s` through the parent `n` to the child `c`. */
    static method RotateRight(n: Node, i: nat, c: Node, s: Node, ghost m: nat, ghost nodes: map<NodeId, Node>,
                              ghost next: NodeId, ghost g: Forest, ghost pend: Pending, ghost rt: NodeId,
                              ghost p: NodeId, ghost l: NodeId, ghost r: NodeId)
      returns (n': Node, c': Node, s': Node, ghost h: Forest)
      requires true == Siblings(g, rt, p, i, l, r)
      requires n == g[p].Plain() && s == g[l].Plain() && c == g[r].Plain() && |s.keys| > m - 1 && |c.keys| == m - 1
      requires p !in pend && l !in pend && r !in pend
               && true == View(m, nodes, next, g, pend[p := n][l := s][r := c], rt)
      ensures true == View(m, nodes, next, h, pend[r := c'][p := n'][l := s'], rt)
      ensures KeySet(h) == KeySet(g) && true == SameAbove(g, h, p) && |c'.keys| == m
      ensures r in h && h[r].ht == g[r].ht && g[p].lo <= h[r].lo <= g[r].lo && h[r].hi == g[r].hi
    {
      RotatedRightView(m, nodes, next, g, pend, rt, p, i, l, r);
      RotatedRightNodes(g, rt, p, i, l, r);
      h := RotatedRight(g, rt, p, i, l, r);
      var largestKeySibling := s.keys[|s.keys| - 1];
      s' := Node(s.keys[..|s.keys| - 1], s.children);
      var swappedNodeKey := n.keys[i];
      n' := Node(n.keys[i := largestKeySibling], n.children);
      c' := Node([swappedNodeKey] + c.keys, c.children);
      if !c.IsLeaf() {
        c' := Node(c'.keys, [s.children[|s.children| - 1]] + c.children);
        s' := Node(s'.keys, s.children[..|s.children| - 1]);
      }
    }

    /** The smaller sibling gives its largest key to the parent, and the parent one to the child. */
    method TakeFromSmaller(node: StateRefMut, i: nat, child: StateRefMut, smaller: StateRefMut, ghost rt: NodeId,
                           ghost pend: Pending)
      returns (r: StateRefMut)
      requires Live(node, smaller, child, pend) && Rep(With3(pend, node, smaller, child), rt)
      requires i > 0 && Siblings(g, rt, node.id, i - 1, smaller.id, child.id)
      requires |smaller.lazy.value.keys| > M - 1 && |child.lazy.value.keys| == M - 1
      modifies this`nodes, this`log, this`g
      ensures r.id == child.id && r.lazy.Some? && Rep(pend[r.id := r.lazy.value], rt)
      ensures |r.lazy.value.keys| == M && KeySet(g) == old(KeySet(g)) && SameAbove(old(g), g, node.id)
      ensures r.id in g && g[r.id].ht == old(g[child.id].ht)
      ensures old(g[node.id].lo) <= g[r.id].lo <= old(g[child.id].lo) && g[r.id].hi == old(g[child.id].hi)
    {
      assert node.lazy.value == g[node.id].Plain() && child.lazy.value == g[child.id].Plain();
      assert smaller.lazy.value == g[smaller.id].Plain();
      ghost var h;
      var n, c, s;
      n, c, s, h := RotateRight(node.lazy.value, i - 1, child.lazy.value, smaller.lazy.value,
                                M, nodes, nextNodeId, g, pend, rt, node.id, smaller.id, child.id);
      g := h;
      r := child.(lazy := Some(c));
      DropBoth(smaller.(lazy := Some(s)), node.(lazy := Some(n)), rt, pend[r.id := c]);
    }

    /** Drops two handles, one after the other. */
    method DropBoth(a: StateRefMut, b: StateRefMut, ghost rt: NodeId, ghost pend: Pending)
      requires a.lazy.Some? && b.lazy.Some? && a.id != b.id && a.id !in pend && b.id !in pend
      requires Rep(pend[b.id := b.lazy.value][a.id := a.lazy.value], rt)
      modifies this`nodes, this`log
      ensures Rep(pend, rt)
    {
      Drop(a, rt, pend[b.id := b.lazy.value]);
      Drop(b, rt, pend);
    }

    /** A key goes from the larger sibling `l` through the parent `n` to the child `c`. */
    static method RotateLeft(n: Node, i: nat, c: Node, l: Node, ghost m: nat, ghost nodes: map<NodeId, Node>,
                             ghost next: NodeId, ghost g: Forest, ghost pend: Pending, ghost rt: NodeId,
                             ghost p: NodeId, ghost x: NodeId, ghost y: NodeId)
      returns (n': Node, c': Node, l': Node, ghost h: Forest)
      requires true == Siblings(g, rt, p, i, x, y)
      requires n == g[p].Plain() && c == g[x].Plain() && l == g[y].Plain() && |l.keys| > m - 1 && |c.keys| == m - 1
      requires p !in pend && x !in pend && y !in pend
               && true == View(m, nodes, next, g, pend[p := n][x := c][y := l], rt)
      ensures true == View(m, nodes, next, h, pend[x := c'][p := n'][y := l'], rt)
      ensures KeySet(h) == KeySet(g) && true == SameAbove(g, h, p) && |c'.keys| == m
      ensures x in h && h[x].ht == g[x].ht && h[x].lo == g[x].lo && g[x].hi <= h[x].hi <= g[p].hi
    {
      RotatedLeftView(m, nodes, next, g, pend, rt, p, i, x, y);
      RotatedLeftNodes(g, rt, p, i, x, y);
      h := RotatedLeft(g, rt, p, i, x, y);
      var firstKeySibling := l.keys[0];
      l' := Node(l.keys[1..], l.children);
      var swappedNodeKey := n.keys[i];
      n' := Node(n.keys[i := firstKeySibling], n.children);
      c' := Node(c.keys + [swappedNodeKey], c.children);
      if !c.IsLeaf() {
        c' := Node(c'.keys, c.children + [l.children[0]]);
        l' := Node(l'.keys, l.children[1..]);
      }
    }

    /** The larger sibling gives its smallest key to the parent, and the parent one to the child. */
    method TakeFromLarger(node: StateRefMut, i: nat, child: StateRefMut, larger: StateRefMut, ghost rt: NodeId,
                          ghost pend: Pending)
      returns (r: StateRefMut)
      requires Live(node, child, larger, pend) && Rep(With3(pend, node, child, larger), rt)
      requires Siblings(g, rt, node.id, i, child.id, larger.id)
      requires |larger.lazy.value.keys| > M - 1 && |child.lazy.value.keys| == M - 1
      modifies this`nodes, this`log, this`g
      ensures r.id == child.id && r.lazy.Some? && Rep(pend[r.id := r.lazy.value], rt)
      ensures |r.lazy.value.keys| == M && KeySet(g) == old(KeySet(g)) && SameAbove(old(g), g, node.id)
      ensures r.id in g && g[r.id].ht == old(g[child.id].ht)
      ensures g[r.id].lo == old(g[child.id].lo) && old(g[child.id].hi) <= g[r.id].hi <= old(g[node.id].hi)
    {
      assert node.lazy.value == g[node.id].Plain() && child.lazy.value == g[child.id].Plain();
      assert larger.lazy.value == g[larger.id].Plain();
      ghost var h;
      var n, c, l;
      n, c, l, h := RotateLeft(node.lazy.value, i, child.lazy.value, larger.lazy.value,
                               M, nodes, nextNodeId, g, pend, rt, node.id, child.id, larger.id);
      g := h;
      r := child.(lazy := Some(c));
      DropBoth(larger.(lazy := Some(l)), node.(lazy := Some(n)), rt, pend[r.id := c]);
    }

    /** Child `i` of `node`, made able to lose a key: as it is, with a key from a sibling, or
        merged with a sibling. */
    method PrepareChildForKeyRemoval(node: StateRefMut, i: nat, ghost rt: NodeId, ghost pend: Pending)
      returns (r: StateRefMut, ghost loads: nat)
      requires node.lazy.Some? && node.id in g && node.id !in pend && Rep(pend[node.id := node.lazy.value], rt)
      requires i < |node.lazy.value.children| && NodeOk(g, g[node.id])
      requires |node.lazy.value.keys| >= 1 && (node.id != rt ==> |node.lazy.value.keys| >= M)
      requires forall x :: x in pend ==> g[x].ht >= g[node.id].ht
      modifies this`nodes, this`log, this`g
      ensures Prepared(r, rt, pend, old(g), node.id, old(Lo(g[node.id], i)), old(Hi(g[node.id], i)))
      ensures loads <= 3
    {
      var n := node.lazy.value;
      ChildOf(g, rt, node.id, i);
      var child := GetNodeMut(n.children[i]);
      child := Loaded(child);
      loads := 1;
      assert child.lazy.value == g[child.id].Plain();
      if |child.lazy.value.keys| != M - 1 {
        assert pend[node.id := n][child.id := child.lazy.value] == pend[child.id := child.lazy.value][node.id := n];
        Drop(node, rt, pend[child.id := child.lazy.value]);
        return child, loads;
      }
      var smaller: Option<StateRefMut> := None;
      if 0 < i {
        SiblingsOf(g, rt, node.id, i - 1);
        var s := GetNodeMut(n.children[i - 1]);
        s := Loaded(s);
        loads := 2;
        assert s.lazy.value == g[s.id].Plain();
        if |s.lazy.value.keys| != M - 1 {
          r := TakeFromSmaller(node, i, child, s, rt, pend);
          return;
        }
        smaller := Some(s);
      }
      ghost var more;
      r, more := PrepareWithLarger(node, i, child, smaller, rt, pend);
      loads := loads + more;
    }

    /** Child `i` of `node` has no key to spare, nor has its smaller sibling, if there is one. */
    ghost predicate AtMinimum(node: StateRefMut, i: nat, child: StateRefMut, smaller: Option<StateRefMut>,
                              rt: NodeId, pend: Pending)
      reads this
    {
      && node.lazy.Some? && node.id in g && node.id !in pend && Rep(pend[node.id := node.lazy.value], rt)
      && i < |node.lazy.value.children| && NodeOk(g, g[node.id]) && g[node.id].ht > 0
      && |node.lazy.value.keys| >= 1 && (node.id != rt ==> |node.lazy.value.keys| >= M)
      && (forall x :: x in pend ==> g[x].ht >= g[node.id].ht)
      && child.id == node.lazy.value.children[i] && child.id in nodes && child.lazy == Some(nodes[child.id])
      && |child.lazy.value.keys| == M - 1
      && (smaller.Some? <==> i > 0)
      && (smaller.Some? ==>
            && smaller.value.id == node.lazy.value.children[i - 1]
            && smaller.value.id in nodes && smaller.value.lazy == Some(nodes[smaller.value.id])
            && |smaller.value.lazy.value.keys| == M - 1)
    }

    /** The smaller sibling, if there is one, has no key to spare. */
    method PrepareWithLarger(node: StateRefMut, i: nat, child: StateRefMut, smaller: Option<StateRefMut>,
                             ghost rt: NodeId, ghost pend: Pending)
      returns (r: StateRefMut, ghost loads: nat)
      requires AtMinimum(node, i, child, smaller, rt, pend)
      modifies this`nodes, this`log, this`g
      ensures Prepared(r, rt, pend, old(g), node.id, old(Lo(g[node.id], i)), old(Hi(g[node.id], i)))
      ensures loads <= 1
    {
      loads := 0;
      if i < |node.lazy.value.children| - 1 {
        r, loads := PrepareFromLarger(node, i, child, smaller, rt, pend);
      } else if smaller.Some? {
        ChildOf(g, rt, node.id, i);
        SiblingsOf(g, rt, node.id, i - 1);
        r := MergeInto(node, i - 1, smaller.value, child, rt, pend);
      } else {
        assert false;
        r := child;
      }
    }

    /** There is a larger sibling, which is loaded. */
    method PrepareFromLarger(node: StateRefMut, i: nat, child: StateRefMut, smaller: Option<StateRefMut>,
                             ghost rt: NodeId, ghost pend: Pending)
      returns (r: StateRefMut, ghost loads: nat)
      requires AtMinimum(node, i, child, smaller, rt, pend)
      requires i < |node.lazy.value.children| - 1
      modifies this`nodes, this`log, this`g
      ensures Prepared(r, rt, pend, old(g), node.id, old(Lo(g[node.id], i)), old(Hi(g[node.id], i)))
      ensures loads == 1
    {
      ChildOf(g, rt, node.id, i);
      SiblingsOf(g, rt, node.id, i);
      var l := GetNodeMut(node.lazy.value.children[i + 1]);
      l := Loaded(l);
      loads := 1;
      if smaller.Some? {
        SiblingsOf(g, rt, node.id, i - 1);
        DistinctChildren(g, rt, node.id, i - 1, i + 1);
        r := UseLargerOfTwo(node, i, child, l, smaller.value, rt, pend);
      } else {
        r := UseLarger(node, i, child, l, rt, pend);
      }
    }

    /** The larger sibling lends a key or is merged, while a handle to the smaller one is live. */
    method UseLargerOfTwo(node: StateRefMut, i: nat, child: StateRefMut, larger: StateRefMut, smaller: StateRefMut,
                          ghost rt: NodeId, ghost pend: Pending)
      returns (r: StateRefMut)
      requires Live(node, child, larger, pend) && Rep(With3(pend, node, child, larger), rt)
      requires Siblings(g, rt, node.id, i, child.id, larger.id)
      requires node.id != rt ==> |node.lazy.value.keys| >= M
      requires |child.lazy.value.keys| == M - 1
      requires smaller.id in nodes && smaller.lazy == Some(nodes[smaller.id])
      requires smaller.id !in pend && smaller.id !in {node.id, child.id, larger.id}
      modifies this`nodes, this`log, this`g
      ensures r.id == child.id && r.lazy.Some? && Rep(pend[r.id := r.lazy.value], rt)
      ensures |r.lazy.value.keys| >= M && KeySet(g) == old(KeySet(g)) && SameAbove(old(g), g, node.id)
      ensures r.id in g && g[r.id].ht == old(g[child.id].ht)
      ensures g[r.id].lo == old(g[child.id].lo) && old(g[child.id].hi) <= g[r.id].hi <= old(g[node.id].hi)
    {
      ghost var pend' := pend[smaller.id := smaller.lazy.value];
      OverlayMore(nodes, With3(pend, node, child, larger), g, smaller.id);
      assert With3(pend', node, child, larger) == With3(pend, node, child, larger)[smaller.id := smaller.lazy.value];
      r := UseLarger(node, i, child, larger, rt, pend');
      assert pend'[r.id := r.lazy.value] == pend[r.id := r.lazy.value][smaller.id := smaller.lazy.value];
      Drop(smaller, rt, pend[r.id := r.lazy.value]);
    }

    /** The larger sibling lends a key or is merged. */
    method UseLarger(node: StateRefMut, i: nat, child: StateRefMut, larger: StateRefMut, ghost rt: NodeId,
                     ghost pend: Pending)
      returns (r: StateRefMut)
      requires Live(node, child, larger, pend) && Rep(With3(pend, node, child, larger), rt)
      requires Siblings(g, rt, node.id, i, child.id, larger.id)
      requires node.id != rt ==> |node.lazy.value.keys| >= M
      requires |child.lazy.value.keys| == M - 1
      modifies this`nodes, this`log, this`g
      ensures r.id == child.id && r.lazy.Some? && Rep(pend[r.id := r.lazy.value], rt)
      ensures |r.lazy.value.keys| >= M && KeySet(g) == old(KeySet(g)) && SameAbove(old(g), g, node.id)
      ensures r.id in g && g[r.id].ht == old(g[child.id].ht)
      ensures g[r.id].lo == old(g[child.id].lo) && old(g[child.id].hi) <= g[r.id].hi <= old(g[node.id].hi)
    {
      assert larger.lazy.value == g[larger.id].Plain() && node.lazy.value == g[node.id].Plain();
      if |larger.lazy.value.keys| != M - 1 {
        r := TakeFromLarger(node, i, child, larger, rt, pend);
      } else {
        r := MergeInto(node, i, child, larger, rt, pend);
      }
    }

    /** Merges two children of `node` and drops `node`. */
    method MergeInto(node: StateRefMut, i: nat, child: StateRefMut, larger: StateRefMut, ghost rt: NodeId,
                     ghost pend: Pending)
      returns (r: StateRefMut)
      requires Live(node, child, larger, pend) && Rep(With3(pend, node, child, larger), rt)
      requires Siblings(g, rt, node.id, i, child.id, larger.id)
      requires node.id != rt ==> |node.lazy.value.keys| >= M
      requires |child.lazy.value.keys| == |larger.lazy.value.keys| == M - 1
      modifies this`nodes, this`log, this`g
      ensures r.id == child.id && r.lazy.Some? && Rep(pend[r.id := r.lazy.value], rt)
      ensures |r.lazy.value.keys| == 2 * M - 1 && KeySet(g) == old(KeySet(g)) && SameAbove(old(g), g, node.id)
      ensures r.id in g && g[r.id].ht == old(g[child.id].ht)
      ensures g[r.id].lo == old(g[child.id].lo) && g[r.id].hi == old(g[larger.id].hi)
    {
      var node', child' := Merge(node, i, child, larger, rt, pend);
      assert pend[node.id := node'.lazy.value][child.id := child'.lazy.value] ==
             pend[child.id := child'.lazy.value][node.id := node'.lazy.value];
      Drop(node', rt, pend[child.id := child'.lazy.value]);
      r := child';
    }

    /** Takes the largest key of a subtree that can spare one. */
    method RemoveLargestKey(initial: StateRefMut, ghost rt: NodeId, ghost pend: Pending)
      returns (k: Key, ghost loads: nat)
      requires initial.lazy.Some? && initial.id in g && initial.id !in pend && initial.id != rt
      requires Rep(pend[initial.id := initial.lazy.value], rt) && |initial.lazy.value.keys| >= M
      requires forall x :: x in pend ==> g[x].ht >= g[initial.id].ht
      modifies this`nodes, this`log, this`g
      ensures Rep(pend, rt) && SameAbove(old(g), g, initial.id)
      ensures old(g[initial.id].lo) < k < old(g[initial.id].hi)
      ensures k in old(KeySet(g)) && KeySet(g) == old(KeySet(g)) - {k}
      ensures true == AllApart(g, old(g[initial.id].hi), k)
      ensures loads <= 3 * old(g[initial.id].ht)
    {
      var node := initial;
      ghost var more;
      loads := 0;
      while !node.lazy.value.IsLeaf()
        invariant node.lazy.Some? && node.id in g && node.id !in pend && node.id != rt
        invariant Rep(pend[node.id := node.lazy.value], rt) && |node.lazy.value.keys| >= M
        invariant SameAbove(old(g), g, initial.id)
        invariant old(g[initial.id].lo) <= g[node.id].lo && g[node.id].hi == old(g[initial.id].hi)
        invariant KeySet(g) == old(KeySet(g))
        invariant (node.id == initial.id && g == old(g)) || g[node.id].ht < old(g[initial.id].ht)
        invariant loads + 3 * g[node.id].ht <= 3 * old(g[initial.id].ht)
        decreases g[node.id].ht
      {
        assert NodeOk(g, g[node.id]) && node.lazy.value == g[node.id].Plain();
        var childIndex := |node.lazy.value.children| - 1;
        node, more := PrepareChildForKeyRemoval(node, childIndex, rt, pend);
        loads := loads + more;
      }
      k := TakeLastOfLeaf(node, rt, pend);
    }

    method TakeLastOfLeaf(node: StateRefMut, ghost rt: NodeId, ghost pend: Pending) returns (k: Key)
      requires node.lazy.Some? && node.id in g && node.id !in pend && node.id != rt
      requires Rep(pend[node.id := node.lazy.value], rt) && |node.lazy.value.keys| >= M && node.lazy.value.IsLeaf()
      modifies this`nodes, this`log, this`g
      ensures Rep(pend, rt) && SameAbove(old(g), g, node.id)
      ensures old(g[node.id].lo) < k < old(g[node.id].hi)
      ensures k in old(KeySet(g)) && KeySet(g) == old(KeySet(g)) - {k}
      ensures true == AllApart(g, old(g[node.id].hi), k)
    {
      var n := node.lazy.value;
      assert NodeOk(g, g[node.id]) && n == g[node.id].Plain();
      k := n.keys[|n.keys| - 1];
      PredecessorApart(g, rt, node.id);
      LeafRemove(g, rt, M, node.id, |n.keys| - 1);
      var keys := n.keys[..|n.keys| - 1];
      assert keys == n.keys[..|n.keys| - 1] + n.keys[|n.keys|..];
      g := WithKeys(g, node.id, keys);
      Drop(node.(lazy := Some(Node(keys, n.children))), rt, pend);
    }

    /** Takes the smallest key of a subtree that can spare one. */
    method RemoveSmallestKey(initial: StateRefMut, ghost rt: NodeId, ghost pend: Pending)
      returns (k: Key, ghost loads: nat)
      requires initial.lazy.Some? && initial.id in g && initial.id !in pend && initial.id != rt
      requires Rep(pend[initial.id := initial.lazy.value], rt) && |initial.lazy.value.keys| >= M
      requires forall x :: x in pend ==> g[x].ht >= g[initial.id].ht
      modifies this`nodes, this`log, this`g
      ensures Rep(pend, rt) && SameAbove(old(g), g, initial.id)
      ensures old(g[initial.id].lo) < k < old(g[initial.id].hi)
      ensures k in old(KeySet(g)) && KeySet(g) == old(KeySet(g)) - {k}
      ensures true == AllApart(g, old(g[initial.id].lo), k)
      ensures loads <= 3 * old(g[initial.id].ht)
    {
      var node := initial;
      ghost var more;
      loads := 0;
      while !node.lazy.value.IsLeaf()
        invariant node.lazy.Some? && node.id in g && node.id !in pend && node.id != rt
        invariant Rep(pend[node.id := node.lazy.value], rt) && |node.lazy.value.keys| >= M
        invariant SameAbove(old(g), g, initial.id)
        invariant g[node.id].lo == old(g[initial.id].lo) && g[node.id].hi <= old(g[initial.id].hi)
        invariant KeySet(g) == old(KeySet(g))
        invariant (node.id == initial.id && g == old(g)) || g[node.id].ht < old(g[initial.id].ht)
        invariant loads + 3 * g[node.id].ht <= 3 * old(g[initial.id].ht)
        decreases g[node.id].ht
      {
        assert NodeOk(g, g[node.id]) && node.lazy.value == g[node.id].Plain();
        node, more := PrepareChildForKeyRemoval(node, 0, rt, pend);
        loads := loads + more;
      }
      k := TakeFirstOfLeaf(node, rt, pend);
    }

    method TakeFirstOfLeaf(node: StateRefMut, ghost rt: NodeId, ghost pend: Pending) returns (k: Key)
      requires node.lazy.Some? && node.id in g && node.id !in pend && node.id != rt
      requires Rep(pend[node.id := node.lazy.value], rt) && |node.lazy.value.keys| >= M && node.lazy.value.IsLeaf()
      modifies this`nodes, this`log, this`g
      ensures Rep(pend, rt) && SameAbove(old(g), g, node.id)
      ensures old(g[node.id].lo) < k < old(g[node.id].hi)
      ensures k in old(KeySet(g)) && KeySet(g) == old(KeySet(g)) - {k}
      ensures true == AllApart(g, old(g[node.id].lo), k)
    {
      var n := node.lazy.value;
      assert NodeOk(g, g[node.id]) && n == g[node.id].Plain();
      k := n.keys[0];
      SuccessorApart(g, rt, node.id);
      LeafRemove(g, rt, M, node.id, 0);
      var keys := n.keys[1..];
      assert keys == n.keys[..0] + n.keys[1..];
      g := WithKeys(g, node.id, keys);
      Drop(node.(lazy := Some(Node(keys, n.children))), rt, pend);
    }

    /** Replaces key `i` of `node` by `p`, which no comparison in the tree tells from it. */
    method ReplaceKey(node: StateRefMut, i: nat, p: Key, ghost rt: NodeId)
      requires node.lazy.Some? && Rep(map[node.id := node.lazy.value], rt)
      requires i < |node.lazy.value.keys|
      requires true == AllApart(g, node.lazy.value.keys[i], p)
      modifies this`nodes, this`log, this`g
      ensures Rep(map[], rt)
      ensures KeySet(g) == old(KeySet(g)) - {node.lazy.value.keys[i]} + {p}
    {
      var n := node.lazy.value;
      assert n == g[node.id].Plain();
      ReplaceShape(g, rt, node.id, i, p);
      ghost var h := Replaced(g, node.id, i, p);
      assert Sizes(h, rt, M) by {
        forall x | x in h ensures |h[x].keys| <= 2 * M - 1 && (x != rt ==> M - 1 <= |h[x].keys|) {
          assert |g[x].keys| <= 2 * M - 1;
        }
      }
      g := h;
      Drop(node.(lazy := Some(Node(n.keys[i := p], n.children))), rt, map[]);
    }

    /** The largest key below the left neighbour takes the place of key `i`. */
    method ReplaceByPredecessor(node: StateRefMut, i: nat, left: StateRefMut, ghost rt: NodeId)
      returns (ghost loads: nat)
      requires node.lazy.Some? && left.lazy.Some? && node.id != left.id && left.id != rt
      requires Rep(map[node.id := node.lazy.value][left.id := left.lazy.value], rt)
      requires i < |node.lazy.value.keys| && |left.lazy.value.keys| >= M
      requires g[left.id].ht < g[node.id].ht && g[left.id].hi == node.lazy.value.keys[i]
      modifies this`nodes, this`log, this`g
      ensures Rep(map[], rt) && KeySet(g) == old(KeySet(g)) - {node.lazy.value.keys[i]}
      ensures loads <= 3 * old(g[left.id].ht)
    {
      var p;
      p, loads := RemoveLargestKey(left, rt, map[node.id := node.lazy.value]);
      ReplaceKey(node, i, p, rt);
    }

    /** The smallest key below the right neighbour does, while a handle to the left one is live. */
    method ReplaceBySuccessor(node: StateRefMut, i: nat, left: StateRefMut, right: StateRefMut, ghost rt: NodeId)
      returns (ghost loads: nat)
      requires Live(node, left, right, map[]) && right.id != rt
      requires Rep(With3(map[], node, left, right), rt)
      requires i < |node.lazy.value.keys| && |right.lazy.value.keys| >= M
      requires g[right.id].ht == g[left.id].ht < g[node.id].ht && g[right.id].lo == node.lazy.value.keys[i]
      modifies this`nodes, this`log, this`g
      ensures Rep(map[], rt) && KeySet(g) == old(KeySet(g)) - {node.lazy.value.keys[i]}
      ensures loads <= 3 * old(g[right.id].ht)
    {
      ghost var top := map[node.id := node.lazy.value];
      assert With3(map[], node, left, right) == top[left.id := left.lazy.value][right.id := right.lazy.value];
      var p;
      p, loads := RemoveSmallestKey(right, rt, top[left.id := left.lazy.value]);
      Drop(left, rt, top);
      ReplaceKey(node, i, p, rt);
    }

    /** The key is in an inner node: its predecessor or successor replaces it, or it moves down
        into the merge of its two neighbours, where the search goes on. */
    method RemoveFromInner(node: StateRefMut, i: nat, ghost rt: NodeId)
      returns (done: bool, next: StateRefMut, ghost loads: nat)
      requires node.lazy.Some? && node.id in g && Rep(map[node.id := node.lazy.value], rt)
      requires i < |node.lazy.value.keys| && !node.lazy.value.IsLeaf()
      requires node.id != rt ==> |node.lazy.value.keys| >= M
      modifies this`nodes, this`log, this`g
      ensures done ==> loads <= 3 * old(g[node.id].ht)
      ensures !done ==> next.id in g && loads + 3 * g[next.id].ht <= 3 * old(g[node.id].ht)
      ensures done ==> Rep(map[], rt) && KeySet(g) == old(KeySet(g)) - {node.lazy.value.keys[i]}
      ensures !done ==>
                && next.lazy.Some? && next.id in g && next.id != rt && Rep(map[next.id := next.lazy.value], rt)
                && |next.lazy.value.keys| >= M
                && g[next.id].ht < old(g[node.id].ht)
                && g[next.id].lo < node.lazy.value.keys[i] < g[next.id].hi
                && KeySet(g) == old(KeySet(g))
    {
      var n := node.lazy.value;
      assert n == g[node.id].Plain() && NodeOk(g, g[node.id]);
      SiblingsOf(g, rt, node.id, i);
      var left := GetNodeMut(n.children[i]);
      left := Loaded(left);
      loads := 1;
      ghost var more;
      assert left.lazy.value == g[left.id].Plain();
      next, done := left, true;
      ghost var top := map[node.id := n];
      if |left.lazy.value.keys| != M - 1 {
        more := ReplaceByPredecessor(node, i, left, rt);
        loads := loads + more;
        return;
      }
      var right := GetNodeMut(n.children[i + 1]);
      right := Loaded(right);
      loads := 2;
      assert right.lazy.value == g[right.id].Plain();
      if |right.lazy.value.keys| != M - 1 {
        more := ReplaceBySuccessor(node, i, left, right, rt);
        loads := loads + more;
        return;
      }
      assert top == map[][node.id := n];
      next := MergeInto(node, i, left, right, rt, map[]);
      done := false;
    }

    /** The key is in a leaf that can spare it. */
    method RemoveFromLeaf(node: StateRefMut, i: nat, ghost rt: NodeId)
      requires node.lazy.Some? && node.id in g && Rep(map[node.id := node.lazy.value], rt)
      requires node.lazy.value.IsLeaf() && i < |node.lazy.value.keys|
      requires node.id != rt ==> |node.lazy.value.keys| >= M
      modifies this`nodes, this`log, this`g
      ensures Rep(map[], rt)
      ensures KeySet(g) == old(KeySet(g)) - {node.lazy.value.keys[i]}
    {
      var n := node.lazy.value;
      assert n == g[node.id].Plain() && NodeOk(g, g[node.id]);
      LeafRemove(g, rt, M, node.id, i);
      var keys := n.keys[..i] + n.keys[i + 1..];
      g := WithKeys(g, node.id, keys);
      Drop(node.(lazy := Some(Node(keys, n.children))), rt, map[]);
    }

    /** The search ends at a leaf without the key: it is nowhere. */
    method LeaveLeaf(node: StateRefMut, key: Key, ghost rt: NodeId)
      requires node.lazy.Some? && node.id in g && Rep(map[node.id := node.lazy.value], rt)
      requires node.lazy.value.IsLeaf() && key !in node.lazy.value.keys && g[node.id].lo < key < g[node.id].hi
      modifies this`nodes, this`log
      ensures Rep(map[], rt) && key !in KeySet(g)
    {
      assert node.lazy.value == g[node.id].Plain() && NodeOk(g, g[node.id]);
      KeysHeld(g);
      forall x | x in g ensures key !in g[x].keys {
        if key in g[x].keys { InsideOnly(g, rt, x, node.id, key); }
      }
      Drop(node, rt, map[]);
    }

    /** The search for a key to remove, preparing every node before entering it. */
    method RemoveKey(rt: NodeId, key: Key) returns (deleted: bool, ghost loads: nat)
      requires Rep(map[], rt) && g[rt].keys != [] && g[rt].lo < key < g[rt].hi
      modifies this`nodes, this`log, this`g
      ensures Rep(map[], rt)
      ensures KeySet(g) == old(KeySet(g)) - {key}
      ensures deleted <==> key in old(KeySet(g))
      ensures loads <= 3 * old(g[rt].ht) + 1
    {
      var node := GetNodeMut(rt);
      node := Loaded(node);
      loads := 1;
      ghost var more;
      while true
        invariant node.lazy.Some? && node.id in g && Rep(map[node.id := node.lazy.value], rt)
        invariant g[node.id].lo < key < g[node.id].hi
        invariant |node.lazy.value.keys| >= 1 && (node.id != rt ==> |node.lazy.value.keys| >= M)
        invariant KeySet(g) == old(KeySet(g))
        invariant loads + 3 * g[node.id].ht <= 3 * old(g[rt].ht) + 1
        decreases g[node.id].ht
      {
        var n := node.lazy.value;
        assert n == g[node.id].Plain() && NodeOk(g, g[node.id]);
        var r := BinarySearch(n.keys, key);
        if r.Found? {
          assert key in g[node.id].keys;
          if n.IsLeaf() {
            RemoveFromLeaf(node, r.index, rt);
            return true, loads;
          }
          var done;
          done, node, more := RemoveFromInner(node, r.index, rt);
          loads := loads + more;
          if done {
            return true, loads;
          }
        } else {
          if n.IsLeaf() {
            LeaveLeaf(node, key, rt);
            return false, loads;
          }
          assert map[][node.id := n] == map[node.id := n];
          node, more := PrepareChildForKeyRemoval(node, r.index, rt, map[]);
          loads := loads + more;
        }
      }
    }

    /** The search and the count; the root may be left without keys. */
    method RemoveAndCount(key: Key) returns (deleted: bool, ghost loads: nat)
      requires Valid() && root.Some?
      modifies this`nodes, this`log, this`g, this`len
      ensures Rep(map[], root.value) && len == |KeySet(g)| && (deleted || KeySet(g) != {})
      ensures KeySet(g) == old(KeySet(g)) - {key}
      ensures deleted <==> key in old(KeySet(g))
      ensures loads <= 3 * old(g[root.value].ht) + 1
    {
      MakeRoom(key);
      RootHasKeys(g, root.value);
      ghost var before := KeySet(g);
      deleted, loads := RemoveKey(root.value, key);
      CountRemoved(before, key);
      if deleted {
        len := len - 1;
      } else {
        assert before - {key} == before;
      }
    }

    /** The removal on the forest. */
    method RemoveCounted(key: Key) returns (deleted: bool, ghost loads: nat)
      requires Valid() && root.Some?
      modifies this
      ensures Valid() && KeySet(g) == old(KeySet(g)) - {key}
      ensures deleted <==> key in old(KeySet(g))
      ensures loads <= 3 * old(g[root.value].ht) + 2
    {
      deleted, loads := RemoveAndCount(key);
      var rootNode := GetNodeMut(root.value);
      ghost var more := FinishRemoval(rootNode, deleted);
      loads := loads + more;
    }

    /** After the search: an emptied tree loses its root, a root without keys its place. */
    method FinishRemoval(rootNode: StateRefMut, deleted: bool) returns (ghost loads: nat)
      requires root == Some(rootNode.id) && Rep(map[], rootNode.id) && rootNode.lazy.None?
      requires len == |KeySet(g)| && (deleted || KeySet(g) != {})
      modifies this`nodes, this`log, this`root, this`g
      ensures Valid() && KeySet(g) == old(KeySet(g))
      ensures loads <= 1
    {
      loads := 0;
      if deleted && len == 0 {
        root := None;
        NoKeysLeft(g, rootNode.id, M);
        DeleteNode(rootNode.id, rootNode);
        g := map[];
        NoKeys();
      } else {
        loads := FixRoot(rootNode);
      }
    }

    /** A root without keys, which is loaded to see it, gives way to its only child. */
    method FixRoot(rootHandle: StateRefMut) returns (ghost loads: nat)
      requires root == Some(rootHandle.id) && Rep(map[], rootHandle.id) && KeySet(g) != {} && rootHandle.lazy.None?
      modifies this`nodes, this`log, this`root, this`g
      ensures root.Some? && Rep(map[], root.value) && g[root.value].keys != []
      ensures KeySet(g) == old(KeySet(g)) && loads == 1
    {
      var rootNode := Loaded(rootHandle);
      loads := 1;
      var rootId := rootNode.id;
      assert rootNode.lazy.value == g[rootId].Plain();
      if rootNode.lazy.value.keys == [] {
        KeysBelowRoot(g, rootId);
        ShrinkShape(g, rootId);
        root := Some(rootNode.lazy.value.children[0]);
        DeleteNode(rootId, rootNode);
        ghost var h := g - {rootId};
        assert Sizes(h, root.value, M) && h[root.value].keys != [] by {
          forall x | x in h ensures |h[x].keys| <= 2 * M - 1 && M - 1 <= |h[x].keys| {
            assert |g[x].keys| <= 2 * M - 1;
          }
        }
        g := h;
      } else {
        Drop(rootNode, rootId, map[]);
      }
    }

    /** Removes a key; returns whether it was there. */
    method Remove(key: Key) returns (deleted: bool, ghost loads: nat)
      requires Valid()
      modifies this
      ensures Valid()
      ensures Contents() == old(Contents()) - {key}
      ensures deleted <==> key in old(Contents())
      ensures (old(root).Some? ==> loads <= 3 * old(Levels()) - 1) && (old(root).None? ==> loads == 0)
      ensures old(FewLevels())
    {
      StoredKeysAre(nodes, g);
      LevelsBound();
      if root.None? {
        NoKeys();
        return false, 0;
      }
      deleted, loads := RemoveCounted(key);
      StoredKeysAre(nodes, g);
    }

    /** Removes every key: all entries under the prefix are deleted. */
    method Clear()
      requires Valid()
      modifies this
      ensures Valid() && Contents() == {}
    {
      root, nextNodeId, len := None, 0, 0;
      OneMoreOp(log, DeleteAll);
      log := log + [DeleteAll];
      nodes, g := map[], map[];
      NoKeys();
    }

    // ---------------------------------------------------------------- queries

    /** Loads a copy of a node. */
    method GetNode(id: NodeId) returns (n: Node)
      requires id in nodes
      ensures n == nodes[id]
    {
      n := nodes[id];
    }

    /** A forest for the stored nodes whose root covers `key`. */
    lemma Roomy(key: Key) returns (h: Forest)
      requires Valid() && root.Some?
      ensures View(M, nodes, nextNodeId, h, map[], root.value) && KeySet(h) == Contents()
      ensures h[root.value].lo < key < h[root.value].hi && h[root.value].ht == g[root.value].ht
    {
      RoomyView(M, nodes, nextNodeId, g, root.value, key);
      StoredKeysAre(nodes, g);
      h := Widened(g, root.value, WideLo(g[root.value], key), WideHi(g[root.value], key));
    }

    /** The number of levels of the tree. */
    ghost function Levels(): nat
      reads this
    {
      if root.Some? && root.value in g then g[root.value].ht + 1 else 0
    }

    /** The number of levels is logarithmic in the number of keys. */
    ghost predicate FewLevels()
      reads this
    {
      Levels() > 0 ==> 2 * Pow(M, Levels() - 1) - 1 <= len
    }

    lemma LevelsBound()
      requires Valid()
      ensures FewLevels()
    {
      if root.Some? { HeightBound(g, root.value, M); }
    }

    /** The stored entries are the nodes reached from the root, each by one path. */
    lemma StoredIffReached(id: NodeId)
      requires Valid() && root.Some?
      ensures id in nodes <==> exists path :: Follow(nodes, root.value, path) == Some(id)
      ensures forall p, q {:trigger Follow(nodes, root.value, p), Follow(nodes, root.value, q)} ::
                Follow(nodes, root.value, p) == Follow(nodes, root.value, q) == Some(id) ==> p == q
      ensures id in nodes ==> id < nextNodeId
    {
      assert Plain(g) == nodes by {
        forall x | x in g ensures Plain(g)[x] == nodes[x] { assert nodes[x] == g[x].Plain(); }
      }
      if id in nodes { var path := PathTo(g, root.value, id); }
      forall path | Follow(nodes, root.value, path) == Some(id) ensures id in nodes {
        FollowStored(g, root.value, path);
      }
      forall p, q | Follow(nodes, root.value, p) == Follow(nodes, root.value, q) == Some(id) ensures p == q {
        OnePath(g, root.value, p, q);
      }
    }

    /** Whether the set holds the key. */
    method Contains(key: Key) returns (r: bool, ghost loads: nat)
      requires Valid()
      ensures r <==> key in Contents()
      ensures loads <= Levels() && FewLevels()
    {
      loads := 0;
      LevelsBound();
      if root.None? {
        return false, loads;
      }
      ghost var h := Roomy(key);
      KeysHeld(h);
      var id := root.value;
      var node := GetNode(id);
      loads := 1;
      while true
        invariant id in h && node == h[id].Plain() && h[id].lo < key < h[id].hi
        invariant 1 <= loads && loads + h[id].ht == h[root.value].ht + 1
        decreases h[id].ht
      {
        NodeView(M, nodes, nextNodeId, h, root.value, id);
        var s := BinarySearch(node.keys, key);
        if s.Found? {
          assert key in h[id].keys;
          return true, loads;
        }
        if node.IsLeaf() {
          LeafCovers(h, root.value, id);
          return false, loads;
        }
        ChildView(M, nodes, nextNodeId, h, root.value, id, s.index);
        id := node.children[s.index];
        node := GetNode(id);
        loads := loads + 1;
      }
    }

    /** The least key above `key`. */
    method Higher(key: Key) returns (r: Option<Key>, ghost loads: nat)
      requires Valid()
      ensures IsLeast(r, set k | k in Contents() && k > key)
      ensures loads <= Levels() && FewLevels()
    {
      loads := 0;
      LevelsBound();
      if root.None? {
        return None, loads;
      }
      ghost var h := Roomy(key);
      r, loads := HigherFrom(M, nodes, nextNodeId, h, root.value, key);
    }

    /** The descent from the root. */
    static method HigherFrom(ghost m: nat, nodes: map<NodeId, Node>, ghost next: NodeId, ghost h: Forest, rt: NodeId,
                             key: Key)
      returns (r: Option<Key>, ghost loads: nat)
      requires true == View(m, nodes, next, h, map[], rt)
      requires rt in h && h[rt].lo < key < h[rt].hi
      ensures IsLeast(r, set k | k in KeySet(h) && k > key)
      ensures rt in h && 1 <= loads <= h[rt].ht + 1
    {
      ghost var above := set k | k in KeySet(h) && k > key;
      var id := rt;
      var node := nodes[id];
      loads := 1;
      var soFar: Option<Key> := None;
      while true
        invariant true == AtNode(h, rt, id, node, loads)
        invariant true == (h[id].lo <= key < h[id].hi)
        invariant true == PassedAbove(h, rt, id, soFar)
        decreases h[id].ht
      {
        NodeView(m, nodes, next, h, rt, id);
        var s := BinarySearch(node.keys, key);
        var index := if s.Found? then s.index + 1 else s.index;
        FirstAbove(node.keys, key, s);
        if node.IsLeaf() {
          LeastAtLeaf(h, rt, id, key, index, soFar, above);
          return if index < |node.keys| then Some(node.keys[index]) else soFar, loads;
        }
        DownAbove(m, nodes, next, h, rt, id, loads, index, soFar);
        if index < |node.keys| {
          soFar := Some(node.keys[index]);
        }
        id := node.children[index];
        node := nodes[id];
        loads := loads + 1;
      }
    }

    /** The least key that is at least `key`. */
    method EqOrHigher(key: Key) returns (r: Option<Key>, ghost loads: nat)
      requires Valid()
      ensures IsLeast(r, set k | k in Contents() && k >= key)
      ensures loads <= Levels() && FewLevels()
    {
      loads := 0;
      LevelsBound();
      if root.None? {
        return None, loads;
      }
      ghost var h := Roomy(key);
      r, loads := EqOrHigherFrom(M, nodes, nextNodeId, h, root.value, key);
    }

    /** The descent from the root. */
    static method EqOrHigherFrom(ghost m: nat, nodes: map<NodeId, Node>, ghost next: NodeId, ghost h: Forest,
                                 rt: NodeId, key: Key)
      returns (r: Option<Key>, ghost loads: nat)
      requires true == View(m, nodes, next, h, map[], rt)
      requires rt in h && h[rt].lo < key < h[rt].hi
      ensures IsLeast(r, set k | k in KeySet(h) && k >= key)
      ensures rt in h && 1 <= loads <= h[rt].ht + 1
    {
      ghost var above := set k | k in KeySet(h) && k >= key;
      var id := rt;
      var node := nodes[id];
      loads := 1;
      var soFar: Option<Key> := None;
      while true
        invariant true == AtNode(h, rt, id, node, loads)
        invariant true == (h[id].lo < key < h[id].hi)
        invariant true == PassedAbove(h, rt, id, soFar)
        decreases h[id].ht
      {
        NodeView(m, nodes, next, h, rt, id);
        var s := BinarySearch(node.keys, key);
        var index := s.index;
        if s.Found? {
          assert node.keys[index] in h[id].keys;
          return Some(node.keys[index]), loads;
        }
        if node.IsLeaf() {
          LeastAtLeaf(h, rt, id, key, index, soFar, above);
          return if index < |node.keys| then Some(node.keys[index]) else soFar, loads;
        }
        DownAbove(m, nodes, next, h, rt, id, loads, index, soFar);
        if index < |node.keys| {
          soFar := Some(node.keys[index]);
        }
        id := node.children[index];
        node := nodes[id];
        loads := loads + 1;
      }
    }

    /** The greatest key below `key`. */
    method Lower(key: Key) returns (r: Option<Key>, ghost loads: nat)
      requires Valid()
      ensures IsGreatest(r, set k | k in Contents() && k < key)
      ensures loads <= Levels() && FewLevels()
    {
      loads := 0;
      LevelsBound();
      if root.None? {
        return None, loads;
      }
      ghost var h := Roomy(key);
      r, loads := LowerFrom(M, nodes, nextNodeId, h, root.value, key);
    }

    /** The descent from the root. */
    static method LowerFrom(ghost m: nat, nodes: map<NodeId, Node>, ghost next: NodeId, ghost h: Forest, rt: NodeId,
                            key: Key)
      returns (r: Option<Key>, ghost loads: nat)
      requires true == View(m, nodes, next, h, map[], rt)
      requires rt in h && h[rt].lo < key < h[rt].hi
      ensures IsGreatest(r, set k | k in KeySet(h) && k < key)
      ensures rt in h && 1 <= loads <= h[rt].ht + 1
    {
      ghost var below := set k | k in KeySet(h) && k < key;
      var id := rt;
      var node := nodes[id];
      loads := 1;
      var soFar: Option<Key> := None;
      while true
        invariant true == AtNode(h, rt, id, node, loads)
        invariant true == (h[id].lo < key <= h[id].hi)
        invariant true == PassedBelow(h, rt, id, soFar)
        decreases h[id].ht
      {
        NodeView(m, nodes, next, h, rt, id);
        var s := BinarySearch(node.keys, key);
        var index := s.index;
        if node.IsLeaf() {
          GreatestAtLeaf(h, rt, id, key, index, soFar, below);
          return if index == 0 then soFar else Some(node.keys[index - 1]), loads;
        }
        DownBelow(m, nodes, next, h, rt, id, loads, index, soFar);
        if index > 0 {
          soFar := Some(node.keys[index - 1]);
        }
        id := node.children[index];
        node := nodes[id];
        loads := loads + 1;
      }
    }

    /** The greatest key that is at most `key`. */
    method EqOrLower(key: Key) returns (r: Option<Key>, ghost loads: nat)
      requires Valid()
      ensures IsGreatest(r, set k | k in Contents() && k <= key)
      ensures loads <= Levels() && FewLevels()
    {
      loads := 0;
      LevelsBound();
      if root.None? {
        return None, loads;
      }
      ghost var h := Roomy(key);
      r, loads := EqOrLowerFrom(M, nodes, nextNodeId, h, root.value, key);
    }

    /** The descent from the root. */
    static method EqOrLowerFrom(ghost m: nat, nodes: map<NodeId, Node>, ghost next: NodeId, ghost h: Forest,
                                rt: NodeId, key: Key)
      returns (r: Option<Key>, ghost loads: nat)
      requires true == View(m, nodes, next, h, map[], rt)
      requires rt in h && h[rt].lo < key < h[rt].hi
      ensures IsGreatest(r, set k | k in KeySet(h) && k <= key)
      ensures rt in h && 1 <= loads <= h[rt].ht + 1
    {
      ghost var below := set k | k in KeySet(h) && k <= key;
      var id := rt;
      var node := nodes[id];
      loads := 1;
      var soFar: Option<Key> := None;
      while true
        invariant true == AtNode(h, rt, id, node, loads)
        invariant true == (h[id].lo < key < h[id].hi)
        invariant true == PassedBelow(h, rt, id, soFar)
        decreases h[id].ht
      {
        NodeView(m, nodes, next, h, rt, id);
        var s := BinarySearch(node.keys, key);
        var index := s.index;
        if s.Found? {
          assert node.keys[index] in h[id].keys;
          return Some(node.keys[index]), loads;
        }
        if node.IsLeaf() {
          GreatestAtLeaf(h, rt, id, key, index, soFar, below);
          return if index == 0 then soFar else Some(node.keys[index - 1]), loads;
        }
        DownBelow(m, nodes, next, h, rt, id, loads, index, soFar);
        if index > 0 {
          soFar := Some(node.keys[index - 1]);
        }
        id := node.children[index];
        node := nodes[id];
        loads := loads + 1;
      }
    }

    /** The least key. */
    method First() returns (r: Option<Key>, ghost loads: nat)
      requires Valid()
      ensures IsLeast(r, Contents())
      ensures loads <= Levels() && FewLevels()
    {
      loads := 0;
      StoredKeysAre(nodes, g);
      LevelsBound();
      if root.None? {
        return None, loads;
      }
      KeysHeld(g);
      AllInRoot(g, root.value);
      var node := GetNode(root.value);
      loads := 1;
      assert node == g[root.value].Plain() && NodeOk(g, g[root.value]);
      if node.IsLeaf() {
        LeafCovers(g, root.value, root.value);
        assert node.keys[0] in g[root.value].keys;
        return Some(node.keys[0]), loads;
      }
      ChildOf(g, root.value, root.value, 0);
      ghost var more;
      r, more := GetLowestKey(node);
      loads := loads + more;
    }

    /** The lowest key below the first child of the root: the lowest of all. */
    method GetLowestKey(top: Node) returns (r: Option<Key>, ghost loads: nat)
      requires Valid() && root.Some? && top == nodes[root.value] && !top.IsLeaf()
      ensures IsLeast(r, Contents())
      ensures root.value in g && loads <= g[root.value].ht
    {
      StoredKeysAre(nodes, g);
      KeysHeld(g);
      AllInRoot(g, root.value);
      assert top == g[root.value].Plain();
      ChildOf(g, root.value, root.value, 0);
      var id := top.children[0];
      var node := GetNode(id);
      loads := 1;
      assert node == g[id].Plain();
      while !node.IsLeaf()
        invariant id in g && id != root.value && node == g[id].Plain() && g[id].lo == g[root.value].lo
        invariant loads + g[id].ht <= g[root.value].ht
        decreases g[id].ht
      {
        assert NodeOk(g, g[id]);
        ChildOf(g, root.value, id, 0);
        id := node.children[0];
        node := GetNode(id);
        loads := loads + 1;
        assert node == g[id].Plain();
      }
      assert NodeOk(g, g[id]) && |g[id].keys| >= 1;
      LeafCovers(g, root.value, id);
      assert node.keys[0] in g[id].keys;
      r := Some(node.keys[0]);
    }

    /** The greatest key. */
    method Last() returns (r: Option<Key>, ghost loads: nat)
      requires Valid()
      ensures IsGreatest(r, Contents())
      ensures loads <= Levels() && FewLevels()
    {
      loads := 0;
      StoredKeysAre(nodes, g);
      LevelsBound();
      if root.None? {
        return None, loads;
      }
      KeysHeld(g);
      AllInRoot(g, root.value);
      var node := GetNode(root.value);
      loads := 1;
      assert node == g[root.value].Plain() && NodeOk(g, g[root.value]);
      if node.IsLeaf() {
        LeafCovers(g, root.value, root.value);
        assert node.keys[|node.keys| - 1] in g[root.value].keys;
        return Some(node.keys[|node.keys| - 1]), loads;
      }
      ghost var more;
      r, more := GetHighestKey(node);
      loads := loads + more;
    }

    /** The highest key below the last child of the root: the highest of all. */
    method GetHighestKey(top: Node) returns (r: Option<Key>, ghost loads: nat)
      requires Valid() && root.Some? && top == nodes[root.value] && !top.IsLeaf()
      ensures IsGreatest(r, Contents())
      ensures root.value in g && loads <= g[root.value].ht
    {
      StoredKeysAre(nodes, g);
      KeysHeld(g);
      AllInRoot(g, root.value);
      assert top == g[root.value].Plain();
      var last := |top.children| - 1;
      ChildOf(g, root.value, root.value, last);
      var id := top.children[last];
      var node := GetNode(id);
      loads := 1;
      assert node == g[id].Plain();
      while !node.IsLeaf()
        invariant id in g && id != root.value && node == g[id].Plain() && g[id].hi == g[root.value].hi
        invariant loads + g[id].ht <= g[root.value].ht
        decreases g[id].ht
      {
        assert NodeOk(g, g[id]);
        ChildOf(g, root.value, id, |node.children| - 1);
        id := node.children[|node.children| - 1];
        node := GetNode(id);
        loads := loads + 1;
        assert node == g[id].Plain();
      }
      assert NodeOk(g, g[id]) && |g[id].keys| >= 1;
      LeafCovers(g, root.value, id);
      assert node.keys[|node.keys| - 1] in g[id].keys;
      r := Some(node.keys[|node.keys| - 1]);
    }

    method IsEmpty() returns (r: bool)
      requires Valid()
      ensures r <==> Contents() == {}
    {
      StoredKeysAre(nodes, g);
      NoKeys();
      if root.Some? { RootHasKeys(g, root.value); }
      r := root.None?;
    }

    /** Moves the outermost interval ends so that `key` lies between them. */
    ghost method MakeRoom(key: Key)
      requires Valid() && root.Some?
      modifies this`g
      ensures Valid() && KeySet(g) == old(KeySet(g))
      ensures g[root.value].ht == old(g[root.value].ht)
      ensures g[root.value].lo < key < g[root.value].hi
    {
      RoomyView(M, nodes, nextNodeId, g, root.value, key);
      g := Widened(g, root.value, WideLo(g[root.value], key), WideHi(g[root.value], key));
    }
  }

  /** Without keys there is only the root. */
  lemma NoKeysLeft(g: Forest, rt: NodeId, m: nat)
    requires BTree(g, rt, m)
    ensures KeySet(g) == {} ==> g.Keys == {rt}
  {
    KeysHeld(g);
    if x :| x in g && x != rt {
      assert |g[x].keys| >= 1;
      assert g[x].keys[0] in g[x].keys;
      assert Holds(g, g[x].keys[0]);
    } else {
      assert forall x :: x in g.Keys ==> x == rt;
      assert rt in g.Keys;
      assert g.Keys == {rt};
    }
  }

  lemma RootHasKeys(g: Forest, rt: NodeId)
    requires rt in g && g[rt].keys != []
    ensures KeySet(g) != {}
  {
    KeysHeld(g);
    assert g[rt].keys[0] in g[rt].keys;
    assert Holds(g, g[rt].keys[0]);
  }

  lemma CountRemoved(s: set<Key>, k: Key)
    ensures |s - {k}| == if k in s then |s| - 1 else |s|
  {
    if k !in s { assert s - {k} == s; }
  }

  /** A root without keys, in a tree that has keys, is an inner node. */
  lemma KeysBelowRoot(g: Forest, rt: NodeId)
    requires Shape(g, rt) && KeySet(g) != {} && g[rt].keys == []
    ensures g[rt].children != []
  {
    KeysHeld(g);
    var k :| k in KeySet(g);
    var x :| x in g && k in g[x].keys;
    assert Placed(g, rt, x) && NodeOk(g, g[rt]);
  }

  lemma NoKeys()
    ensures KeySet(map[]) == {}
  {
    KeysHeld(map[]);
  }
}
