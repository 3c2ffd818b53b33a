/** The node forest of a StateBTreeSet: every stored node, annotated with its height above
    the leaves and the open interval its whole subtree lives in. The annotations make the
    B-tree shape a property of single nodes and of pairs of nodes, so that no proof about a
    restructuring step needs a recursion over the tree. */
module BTreeForest {

  type Key = int
  type NodeId = int

  /** A stored node (state_btree.rs, `Node`). */
  datatype Node = Node(keys: seq<Key>, children: seq<NodeId>) {
    predicate IsLeaf() { children == [] }
  }

  /** A stored node together with its height and the open interval of its subtree. */
  datatype GNode = GNode(keys: seq<Key>, children: seq<NodeId>, ht: nat, lo: int, hi: int) {
    ghost function Plain(): Node { Node(keys, children) }
  }

  type Forest = map<NodeId, GNode>

  ghost predicate Sorted(s: seq<int>) {
    forall i, j :: 0 <= i < j < |s| ==> s[i] < s[j]
  }

  /** Lower end of the interval of child `i`. */
  ghost function Lo(n: GNode, i: nat): int
    requires i <= |n.keys|
  {
    if i == 0 then n.lo else n.keys[i - 1]
  }

  /** Upper end of the interval of child `i`. */
  ghost function Hi(n: GNode, i: nat): int
    requires i <= |n.keys|
  {
    if i == |n.keys| then n.hi else n.keys[i]
  }

  /** The keys of a node ascend strictly inside the node's interval. */
  ghost predicate KeysOk(n: GNode) {
    && n.lo < n.hi
    && Sorted(n.keys)
    && forall i :: 0 <= i < |n.keys| ==> n.lo < n.keys[i] < n.hi
  }

  /** Child `i` is stored, one level below, and covers exactly the gap between two keys. */
  ghost predicate ChildOk(g: Forest, n: GNode, i: nat)
    requires i < |n.children| == |n.keys| + 1
  {
    && n.children[i] in g
    && g[n.children[i]].ht + 1 == n.ht
    && g[n.children[i]].lo == Lo(n, i)
    && g[n.children[i]].hi == Hi(n, i)
  }

  ghost predicate NodeOk(g: Forest, n: GNode) {
    && KeysOk(n)
    && (n.ht == 0 <==> n.children == [])
    && (n.ht > 0 ==>
          && |n.children| == |n.keys| + 1
          && forall i {:trigger ChildOk(g, n, i)} :: 0 <= i < |n.children| ==> ChildOk(g, n, i))
  }

  /** Two distinct nodes, the first at least as high: their intervals are disjoint, or the
      lower one is nested between two keys of the higher one. */
  ghost predicate Laminar(n: GNode, m: GNode) {
    || n.hi <= m.lo
    || m.hi <= n.lo
    || (&& n.ht > m.ht
        && n.lo <= m.lo && m.hi <= n.hi
        && forall i :: 0 <= i < |n.keys| ==> n.keys[i] <= m.lo || m.hi <= n.keys[i])
  }

  ghost predicate HasParent(g: Forest, x: NodeId) {
    exists p :: p in g && x in g[p].children
  }

  /** `x` is the root or lies strictly below it, inside its interval. */
  ghost predicate Placed(g: Forest, root: NodeId, x: NodeId)
    requires root in g && x in g
  {
    x != root ==>
      && g[x].ht < g[root].ht
      && g[root].lo <= g[x].lo && g[x].hi <= g[root].hi
      && HasParent(g, x)
  }

  /** The search-tree shape: everything except the key counts. */
  ghost predicate Shape(g: Forest, root: NodeId) {
    && root in g
    && (forall x {:trigger NodeOk(g, g[x])} :: x in g ==> NodeOk(g, g[x]))
    && (forall x {:trigger Placed(g, root, x)} :: x in g ==> Placed(g, root, x))
    && (forall x, y {:trigger Laminar(g[x], g[y])} ::
          x in g && y in g && x != y && g[x].ht >= g[y].ht ==> Laminar(g[x], g[y]))
  }

  /** The key counts of a B-tree of minimum degree `m`; the root has no lower bound. */
  ghost predicate Sizes(g: Forest, root: NodeId, m: nat) {
    forall x {:trigger g[x]} :: x in g ==> |g[x].keys| <= 2 * m - 1 && (x != root ==> m - 1 <= |g[x].keys|)
  }

  /** Some stored node holds `k`. */
  ghost predicate Holds(g: Forest, k: Key) {
    exists x :: x in g && k in g[x].keys
  }

  /** The abstract set: every key of every stored node. */
  ghost function KeySet(g: Forest): set<Key> {
    set x, k | x in g && k in g[x].keys :: k
  }

  lemma KeysHeld(g: Forest)
    ensures forall k :: k in KeySet(g) <==> Holds(g, k)
  {
  }

  lemma SameHeld(g: Forest, h: Forest)
    requires forall k :: Holds(h, k) <==> Holds(g, k)
    ensures KeySet(h) == KeySet(g)
  {
    KeysHeld(g);
    KeysHeld(h);
  }

  /** A stored node has one parent, and one place in it. */
  lemma UniqueParent(g: Forest, root: NodeId, p: NodeId, i: nat, q: NodeId, j: nat)
    requires Shape(g, root) && p in g && q in g
    requires i < |g[p].children| && j < |g[q].children|
    requires g[p].children[i] == g[q].children[j]
    ensures p == q && i == j
  {
    assert NodeOk(g, g[p]) && NodeOk(g, g[q]);
    assert ChildOk(g, g[p], i) && ChildOk(g, g[q], j);
    assert NodeOk(g, g[g[p].children[i]]);
    assert p != q ==> Laminar(g[p], g[q]);
  }

  /** The children of a node are pairwise distinct. */
  lemma DistinctChildren(g: Forest, root: NodeId, n: NodeId, i: nat, j: nat)
    requires Shape(g, root) && n in g && i < |g[n].children| && j < |g[n].children|
    ensures i != j ==> g[n].children[i] != g[n].children[j]
  {
    assert NodeOk(g, g[n]);
    assert ChildOk(g, g[n], i) && ChildOk(g, g[n], j);
  }

  /** A key strictly inside the interval of `y` is in no other node at least as high. */
  lemma InsideOnly(g: Forest, root: NodeId, x: NodeId, y: NodeId, k: Key)
    requires Shape(g, root) && x in g && y in g && g[x].ht >= g[y].ht
    requires g[y].lo < k < g[y].hi && k in g[x].keys
    ensures x == y
  {
    assert NodeOk(g, g[x]);
    assert x != y ==> Laminar(g[x], g[y]);
  }

  // ---------------------------------------------------------------- merge

  /** `l` and `r` are neighbouring children of `n`, on either side of its key `i`. */
  ghost predicate Siblings(g: Forest, root: NodeId, n: NodeId, i: nat, l: NodeId, r: NodeId) {
    && Shape(g, root)
    && n in g && l in g && r in g && n != l && n != r && l != r && l != root && r != root
    && NodeOk(g, g[n]) && NodeOk(g, g[l]) && NodeOk(g, g[r])
    && g[n].ht > 0 && i < |g[n].keys|
    && g[n].children[i] == l && g[n].children[i + 1] == r
    && g[l].ht == g[r].ht == g[n].ht - 1
    && g[l].lo == Lo(g[n], i) && g[l].hi == g[n].keys[i] == g[r].lo && g[r].hi == Hi(g[n], i + 1)
  }

  lemma SiblingsOf(g: Forest, root: NodeId, n: NodeId, i: nat)
    requires Shape(g, root) && n in g && i + 1 < |g[n].children|
    ensures Siblings(g, root, n, i, g[n].children[i], g[n].children[i + 1])
  {
    var l, r := g[n].children[i], g[n].children[i + 1];
    assert NodeOk(g, g[n]);
    assert ChildOk(g, g[n], i) && ChildOk(g, g[n], i + 1);
    assert NodeOk(g, g[l]) && NodeOk(g, g[r]);
    assert Placed(g, root, n);
  }

  ghost function MergedParent(p: GNode, i: nat): GNode
    requires i + 1 < |p.children| == |p.keys| + 1
  {
    p.(keys := p.keys[..i] + p.keys[i + 1..], children := p.children[..i + 1] + p.children[i + 2..])
  }

  ghost function MergedChild(l: GNode, k: Key, r: GNode): GNode {
    GNode(l.keys + [k] + r.keys, l.children + r.children, l.ht, l.lo, r.hi)
  }

  /** Child `i` of `n`, the key between, and child `i + 1` become one node. */
  ghost function Merged(g: Forest, root: NodeId, n: NodeId, i: nat, l: NodeId, r: NodeId): Forest
    requires Siblings(g, root, n, i, l, r)
  {
    g[n := MergedParent(g[n], i)][l := MergedChild(g[l], g[n].keys[i], g[r])] - {r}
  }

  lemma MergeParentOk(g: Forest, root: NodeId, n: NodeId, i: nat, l: NodeId, r: NodeId)
    requires true == Siblings(g, root, n, i, l, r)
    ensures NodeOk(Merged(g, root, n, i, l, r), Merged(g, root, n, i, l, r)[n])
  {
    var h := Merged(g, root, n, i, l, r);
    MergedParentKeys(g[n], i);
    assert KeysOk(h[n]);
    forall j: nat | j < |h[n].children| ensures ChildOk(h, h[n], j) { MergeParentChild(g, root, n, i, l, r, j); }
  }

  lemma MergedParentKeys(p: GNode, i: nat)
    requires KeysOk(p) && i < |p.keys| && |p.children| == |p.keys| + 1
    ensures KeysOk(MergedParent(p, i))
  {
  }

  lemma MergeParentChild(g: Forest, root: NodeId, n: NodeId, i: nat, l: NodeId, r: NodeId, j: nat)
    requires true == Siblings(g, root, n, i, l, r)
    requires j < |g[n].keys|
    ensures var h := Merged(g, root, n, i, l, r); true == ChildOk(h, h[n], j)
  {
    var h := Merged(g, root, n, i, l, r);
    var j0 := if j <= i then j else j + 1;
    assert ChildOk(g, g[n], j0);
    assert h[n].children[j] == g[n].children[j0];
    DistinctChildren(g, root, n, j0, i);
    DistinctChildren(g, root, n, j0, i + 1);
  }

  lemma MergeChildOk(g: Forest, root: NodeId, n: NodeId, i: nat, l: NodeId, r: NodeId)
    requires true == Siblings(g, root, n, i, l, r)
    ensures NodeOk(Merged(g, root, n, i, l, r), Merged(g, root, n, i, l, r)[l])
  {
    var h := Merged(g, root, n, i, l, r);
    assert KeysOk(h[l]);
    forall j: nat | h[l].ht > 0 && j < |h[l].children| ensures ChildOk(h, h[l], j) {
      if j < |g[l].children| {
        assert ChildOk(g, g[l], j);
      } else {
        assert ChildOk(g, g[r], j - |g[l].children|);
      }
    }
  }

  lemma MergeOtherOk(g: Forest, root: NodeId, n: NodeId, i: nat, l: NodeId, r: NodeId, x: NodeId)
    requires true == Siblings(g, root, n, i, l, r)
    requires x in g && x != r && x != n && x != l
    ensures NodeOk(Merged(g, root, n, i, l, r), Merged(g, root, n, i, l, r)[x])
  {
    var h := Merged(g, root, n, i, l, r);
    assert NodeOk(g, g[x]);
    forall j: nat | h[x].ht > 0 && j < |h[x].children| ensures ChildOk(h, h[x], j) {
      assert ChildOk(g, g[x], j);
      assert h[x].children[j] != r by {
        if h[x].children[j] == r { UniqueParent(g, root, x, j, n, i + 1); }
      }
      assert h[x].children[j] != l by {
        if h[x].children[j] == l { UniqueParent(g, root, x, j, n, i); }
      }
    }
  }

  lemma MergePlaced(g: Forest, root: NodeId, n: NodeId, i: nat, l: NodeId, r: NodeId, x: NodeId)
    requires true == Siblings(g, root, n, i, l, r)
    requires x in g && x != r
    ensures Placed(Merged(g, root, n, i, l, r), root, x)
  {
    var h := Merged(g, root, n, i, l, r);
    assert Placed(g, root, x) && Placed(g, root, r);
    if x != root {
      var p :| p in g && x in g[p].children;
      var j :| 0 <= j < |g[p].children| && g[p].children[j] == x;
      if p == r {
        assert h[l].children[|g[l].children| + j] == x;
      } else if p == n {
        assert j != i + 1;
        assert h[n].children[if j <= i then j else j - 1] == x;
      } else if p == l {
        assert h[l].children[j] == x;
      } else {
        assert h[p] == g[p];
      }
    }
  }

  lemma MergeLaminar(g: Forest, root: NodeId, n: NodeId, i: nat, l: NodeId, r: NodeId, x: NodeId, y: NodeId)
    requires true == Siblings(g, root, n, i, l, r)
    requires x in g && y in g && x != r && y != r && x != y && g[x].ht >= g[y].ht
    ensures var h := Merged(g, root, n, i, l, r); Laminar(h[x], h[y])
  {
    assert Laminar(g[x], g[y]);
    assert NodeOk(g, g[y]);
    if x == l {
      assert Laminar(g[r], g[y]);
    } else if y == l {
      MergeLaminarBelow(g, root, n, i, l, r, x);
    }
  }

  /** The merged child against a node that is not below it. */
  lemma MergeLaminarBelow(g: Forest, root: NodeId, n: NodeId, i: nat, l: NodeId, r: NodeId, x: NodeId)
    requires true == Siblings(g, root, n, i, l, r)
    requires x in g && x != r && x != l && g[x].ht >= g[l].ht
    ensures var h := Merged(g, root, n, i, l, r); Laminar(h[x], h[l])
  {
    assert Laminar(g[x], g[l]) && Laminar(g[x], g[r]);
    assert NodeOk(g, g[x]);
    if x != n && g[x].ht >= g[n].ht { assert Laminar(g[x], g[n]); }
  }

  lemma MergeKeys(g: Forest, root: NodeId, n: NodeId, i: nat, l: NodeId, r: NodeId)
    requires true == Siblings(g, root, n, i, l, r)
    ensures KeySet(Merged(g, root, n, i, l, r)) == KeySet(g)
  {
    var h := Merged(g, root, n, i, l, r);
    forall k ensures Holds(h, k) <==> Holds(g, k) {
      if Holds(g, k) {
        var x :| x in g && k in g[x].keys;
        if x == r || x == l || k == g[n].keys[i] { assert k in h[l].keys; } else { assert k in h[x].keys; }
      }
      if Holds(h, k) {
        var x :| x in h && k in h[x].keys;
        if x == l {
          assert k in g[l].keys || k in g[n].keys || k in g[r].keys;
        } else {
          assert k in g[x].keys;
        }
      }
    }
    SameHeld(g, h);
  }

  /** Merging two neighbouring children keeps the search-tree shape and the key set. */
  lemma MergeShape(g: Forest, root: NodeId, n: NodeId, i: nat, l: NodeId, r: NodeId)
    requires true == Siblings(g, root, n, i, l, r)
    ensures Shape(Merged(g, root, n, i, l, r), root)
    ensures KeySet(Merged(g, root, n, i, l, r)) == KeySet(g)
  {
    var h := Merged(g, root, n, i, l, r);
    forall x | x in h ensures NodeOk(h, h[x]) {
      if x == n { MergeParentOk(g, root, n, i, l, r); }
      else if x == l { MergeChildOk(g, root, n, i, l, r); }
      else { MergeOtherOk(g, root, n, i, l, r, x); }
    }
    forall x | x in h ensures Placed(h, root, x) { MergePlaced(g, root, n, i, l, r, x); }
    forall x, y | x in h && y in h && x != y && h[x].ht >= h[y].ht ensures Laminar(h[x], h[y]) {
      MergeLaminar(g, root, n, i, l, r, x, y);
    }
    MergeKeys(g, root, n, i, l, r);
  }

  // ---------------------------------------------------------------- split

  /** `c` is child `i` of `n`, has a key `at`, and `s` is unused. */
  ghost predicate CanSplit(g: Forest, root: NodeId, n: NodeId, i: nat, c: NodeId, at: nat, s: NodeId) {
    && Shape(g, root)
    && n in g && c in g && s !in g && n != c && c != root
    && NodeOk(g, g[n]) && NodeOk(g, g[c])
    && g[n].ht > 0 && i < |g[n].children| && g[n].children[i] == c
    && ChildOk(g, g[n], i)
    && at < |g[c].keys|
  }

  lemma ChildOf(g: Forest, root: NodeId, n: NodeId, i: nat)
    requires Shape(g, root) && n in g && i < |g[n].children|
    ensures var c := g[n].children[i];
            && c in g && n != c && c != root && g[n].ht > 0
            && NodeOk(g, g[n]) && NodeOk(g, g[c]) && ChildOk(g, g[n], i)
  {
    var c := g[n].children[i];
    assert NodeOk(g, g[n]);
    assert ChildOk(g, g[n], i);
    assert NodeOk(g, g[c]);
    assert Placed(g, root, n);
  }

  ghost function SplitParent(p: GNode, i: nat, k: Key, s: NodeId): GNode
    requires i < |p.children| == |p.keys| + 1
  {
    p.(keys := p.keys[..i] + [k] + p.keys[i..], children := p.children[..i + 1] + [s] + p.children[i + 1..])
  }

  ghost function SplitLeft(c: GNode, at: nat): GNode
    requires at < |c.keys| && (c.children == [] || |c.children| == |c.keys| + 1)
  {
    GNode(c.keys[..at], if c.children == [] then [] else c.children[..at + 1], c.ht, c.lo, c.keys[at])
  }

  ghost function SplitRight(c: GNode, at: nat): GNode
    requires at < |c.keys| && (c.children == [] || |c.children| == |c.keys| + 1)
  {
    GNode(c.keys[at + 1..], if c.children == [] then [] else c.children[at + 1..], c.ht, c.keys[at], c.hi)
  }

  /** Key `at` of `c` moves up to `n`; what is above it moves to the new node `s`. */
  ghost function Split(g: Forest, root: NodeId, n: NodeId, i: nat, c: NodeId, at: nat, s: NodeId): Forest
    requires CanSplit(g, root, n, i, c, at, s)
  {
    g[n := SplitParent(g[n], i, g[c].keys[at], s)][c := SplitLeft(g[c], at)][s := SplitRight(g[c], at)]
  }

  lemma SplitParentOk(g: Forest, root: NodeId, n: NodeId, i: nat, c: NodeId, at: nat, s: NodeId)
    requires true == CanSplit(g, root, n, i, c, at, s)
    ensures var h := Split(g, root, n, i, c, at, s); NodeOk(h, h[n])
  {
    var h := Split(g, root, n, i, c, at, s);
    SplitParentKeys(g[n], i, g[c].keys[at], s);
    forall j: nat | j < |h[n].children| ensures ChildOk(h, h[n], j) {
      if j <= i {
        assert ChildOk(g, g[n], j);
        assert h[n].children[j] == g[n].children[j];
      } else if j > i + 1 {
        assert ChildOk(g, g[n], j - 1);
        assert h[n].children[j] == g[n].children[j - 1];
      }
      assert h[n].children[j] == c ==> j == i by {
        if h[n].children[j] == c && j != i + 1 { UniqueParent(g, root, n, if j <= i then j else j - 1, n, i); }
      }
    }
  }

  lemma SplitParentKeys(p: GNode, i: nat, k: Key, s: NodeId)
    requires KeysOk(p) && i < |p.children| == |p.keys| + 1 && Lo(p, i) < k < Hi(p, i)
    ensures KeysOk(SplitParent(p, i, k, s))
  {
    var q := SplitParent(p, i, k, s);
    forall a, b | 0 <= a < b < |q.keys| ensures q.keys[a] < q.keys[b] {
      assert a < i ==> q.keys[a] == p.keys[a];
      assert b > i ==> q.keys[b] == p.keys[b - 1];
    }
  }

  lemma SplitHalvesOk(g: Forest, root: NodeId, n: NodeId, i: nat, c: NodeId, at: nat, s: NodeId)
    requires true == CanSplit(g, root, n, i, c, at, s)
    ensures var h := Split(g, root, n, i, c, at, s); NodeOk(h, h[c]) && NodeOk(h, h[s])
  {
    var h := Split(g, root, n, i, c, at, s);
    forall j: nat | h[c].ht > 0 && j < |h[c].children| ensures ChildOk(h, h[c], j) {
      assert ChildOk(g, g[c], j);
    }
    forall j: nat | h[s].ht > 0 && j < |h[s].children| ensures ChildOk(h, h[s], j) {
      assert ChildOk(g, g[c], at + 1 + j);
    }
  }

  lemma SplitOtherOk(g: Forest, root: NodeId, n: NodeId, i: nat, c: NodeId, at: nat, s: NodeId, x: NodeId)
    requires true == CanSplit(g, root, n, i, c, at, s)
    requires x in g && x != n && x != c
    ensures var h := Split(g, root, n, i, c, at, s); NodeOk(h, h[x])
  {
    var h := Split(g, root, n, i, c, at, s);
    assert NodeOk(g, g[x]);
    forall j: nat | h[x].ht > 0 && j < |h[x].children| ensures ChildOk(h, h[x], j) {
      assert ChildOk(g, g[x], j);
      assert h[x].children[j] != c by {
        if h[x].children[j] == c { UniqueParent(g, root, x, j, n, i); }
      }
    }
  }

  lemma SplitPlaced(g: Forest, root: NodeId, n: NodeId, i: nat, c: NodeId, at: nat, s: NodeId, x: NodeId)
    requires true == CanSplit(g, root, n, i, c, at, s)
    requires x in g || x == s
    ensures Placed(Split(g, root, n, i, c, at, s), root, x)
  {
    var h := Split(g, root, n, i, c, at, s);
    assert Placed(g, root, c);
    if x == s {
      assert h[n].children[i + 1] == s;
    } else if x != root {
      assert Placed(g, root, x);
      SplitHasParent(g, root, n, i, c, at, s, x);
    }
  }

  lemma SplitHasParent(g: Forest, root: NodeId, n: NodeId, i: nat, c: NodeId, at: nat, s: NodeId, x: NodeId)
    requires true == CanSplit(g, root, n, i, c, at, s)
    requires x in g && HasParent(g, x)
    ensures HasParent(Split(g, root, n, i, c, at, s), x)
  {
    var h := Split(g, root, n, i, c, at, s);
    var p :| p in g && x in g[p].children;
    var j :| 0 <= j < |g[p].children| && g[p].children[j] == x;
    if p == n {
      assert NodeOk(g, g[n]);
      SplitParentHas(g[n], i, g[c].keys[at], s, j);
      assert x in h[n].children;
    } else if p == c {
      assert NodeOk(g, g[c]);
      SplitHalvesHave(g[c], at, j);
      assert x in h[c].children || x in h[s].children;
    } else {
      assert h[p] == g[p];
    }
  }

  lemma SplitParentHas(p: GNode, i: nat, k: Key, s: NodeId, j: nat)
    requires i < |p.children| == |p.keys| + 1 && j < |p.children|
    ensures p.children[j] in SplitParent(p, i, k, s).children
  {
    assert SplitParent(p, i, k, s).children[if j <= i then j else j + 1] == p.children[j];
  }

  lemma SplitHalvesHave(c: GNode, at: nat, j: nat)
    requires at < |c.keys| && j < |c.children| == |c.keys| + 1
    ensures c.children[j] in SplitLeft(c, at).children || c.children[j] in SplitRight(c, at).children
  {
    var l, r := SplitLeft(c, at), SplitRight(c, at);
    if j <= at {
      assert l.children[j] == c.children[j];
    } else {
      assert r.children[j - at - 1] == c.children[j];
    }
  }

  /** The node of the forest before the split that `x` comes from. */
  ghost function Origin(c: NodeId, s: NodeId, x: NodeId): NodeId { if x == s then c else x }

  /** Below: the halves of `c` against a lower or equally high node `m`. */
  lemma HalvesAbove(c: GNode, at: nat, m: GNode)
    requires at < |c.keys| && (c.children == [] || |c.children| == |c.keys| + 1)
    requires KeysOk(c) && m.lo < m.hi && Laminar(c, m)
    ensures Laminar(SplitLeft(c, at), m) && Laminar(SplitRight(c, at), m)
  {
    assert SplitLeft(c, at).keys <= c.keys;
    assert forall j :: 0 <= j < |c.keys| - at - 1 ==> SplitRight(c, at).keys[j] == c.keys[at + 1 + j];
  }

  /** The halves of `c` against a higher or equally high node `m`. */
  lemma HalvesBelow(c: GNode, at: nat, m: GNode)
    requires at < |c.keys| && (c.children == [] || |c.children| == |c.keys| + 1)
    requires KeysOk(c) && Laminar(m, c)
    ensures Laminar(m, SplitLeft(c, at)) && Laminar(m, SplitRight(c, at))
  {
  }

  /** The parent with one more key `k` against a lower node `m`. */
  lemma ParentAbove(p: GNode, i: nat, k: Key, s: NodeId, m: GNode)
    requires i < |p.children| == |p.keys| + 1
    requires Laminar(p, m)
    requires p.hi <= m.lo || m.hi <= p.lo || k <= m.lo || m.hi <= k
    ensures Laminar(SplitParent(p, i, k, s), m)
  {
  }

  lemma SplitLaminar(g: Forest, root: NodeId, n: NodeId, i: nat, c: NodeId, at: nat, s: NodeId, x: NodeId, y: NodeId)
    requires true == CanSplit(g, root, n, i, c, at, s)
    requires (x in g || x == s) && (y in g || y == s) && x != y
    requires g[Origin(c, s, x)].ht >= g[Origin(c, s, y)].ht
    ensures var h := Split(g, root, n, i, c, at, s); Laminar(h[x], h[y])
  {
    var x0, y0 := Origin(c, s, x), Origin(c, s, y);
    assert NodeOk(g, g[y0]);
    if x0 == y0 {
    } else if y0 == c {
      assert Laminar(g[x0], g[c]);
      HalvesBelow(g[c], at, g[x0]);
      if x == n {
        ParentAbove(g[n], i, g[c].keys[at], s, SplitLeft(g[c], at));
        ParentAbove(g[n], i, g[c].keys[at], s, SplitRight(g[c], at));
      }
    } else if x0 == c {
      assert Laminar(g[c], g[y]);
      HalvesAbove(g[c], at, g[y]);
    } else if x == n {
      assert Laminar(g[n], g[y]);
      if g[y].ht <= g[c].ht { assert Laminar(g[c], g[y]); }
      ParentAbove(g[n], i, g[c].keys[at], s, g[y]);
    } else {
      assert Laminar(g[x], g[y]);
    }
  }

  lemma SplitKeySet(g: Forest, root: NodeId, n: NodeId, i: nat, c: NodeId, at: nat, s: NodeId)
    requires true == CanSplit(g, root, n, i, c, at, s)
    ensures KeySet(Split(g, root, n, i, c, at, s)) == KeySet(g)
  {
    var h := Split(g, root, n, i, c, at, s);
    forall k ensures Holds(h, k) <==> Holds(g, k) {
      SplitKeysIn(g[n].keys, i, g[c].keys[at], k);
      HalvesIn(g[c].keys, at, k);
      if Holds(g, k) {
        var x :| x in g && k in g[x].keys;
        assert if x == c then k in h[c].keys || k in h[n].keys || k in h[s].keys else k in h[x].keys;
      }
      if Holds(h, k) {
        var x :| x in h && k in h[x].keys;
        assert if x == n then k in g[n].keys || k in g[c].keys else k in g[Origin(c, s, x)].keys;
      }
    }
    SameHeld(g, h);
  }

  lemma HalvesIn(keys: seq<Key>, at: nat, q: Key)
    requires at < |keys|
    ensures q in keys <==> q in keys[..at] || q == keys[at] || q in keys[at + 1..]
  {
    assert keys == keys[..at] + [keys[at]] + keys[at + 1..];
  }

  lemma SplitKeysIn(keys: seq<Key>, i: nat, k: Key, q: Key)
    requires i <= |keys|
    ensures q in keys[..i] + [k] + keys[i..] <==> q in keys || q == k
  {
    assert keys == keys[..i] + keys[i..];
  }

  lemma SplitNodeOk(g: Forest, root: NodeId, n: NodeId, i: nat, c: NodeId, at: nat, s: NodeId, x: NodeId)
    requires true == CanSplit(g, root, n, i, c, at, s)
    requires x in Split(g, root, n, i, c, at, s)
    ensures var h := Split(g, root, n, i, c, at, s); true == NodeOk(h, h[x])
  {
    if x == n { SplitParentOk(g, root, n, i, c, at, s); }
    else if x == c || x == s { SplitHalvesOk(g, root, n, i, c, at, s); }
    else { SplitOtherOk(g, root, n, i, c, at, s, x); }
  }

  /** Splitting a child at any of its keys keeps the search-tree shape and the key set. */
  lemma SplitShape(g: Forest, root: NodeId, n: NodeId, i: nat, c: NodeId, at: nat, s: NodeId)
    requires true == CanSplit(g, root, n, i, c, at, s)
    ensures Shape(Split(g, root, n, i, c, at, s), root)
    ensures KeySet(Split(g, root, n, i, c, at, s)) == KeySet(g)
  {
    var h := Split(g, root, n, i, c, at, s);
    forall x | x in h ensures NodeOk(h, h[x]) { SplitNodeOk(g, root, n, i, c, at, s, x); }
    forall x | x in h ensures Placed(h, root, x) { SplitPlaced(g, root, n, i, c, at, s, x); }
    forall x, y | x in h && y in h && x != y && h[x].ht >= h[y].ht ensures Laminar(h[x], h[y]) {
      SplitLaminar(g, root, n, i, c, at, s, x, y);
    }
    SplitKeySet(g, root, n, i, c, at, s);
  }

  // ---------------------------------------------------------------- leaves and roots

  /** A leaf may take any ascending keys inside its interval. */
  lemma LeafShape(g: Forest, root: NodeId, x: NodeId, keys: seq<Key>)
    requires Shape(g, root) && x in g && g[x].ht == 0
    requires KeysOk(g[x].(keys := keys))
    ensures Shape(g[x := g[x].(keys := keys)], root)
  {
    var h := g[x := g[x].(keys := keys)];
    forall y | y in h ensures NodeOk(h, h[y]) {
      assert NodeOk(g, g[y]);
      forall j: nat | h[y].ht > 0 && j < |h[y].children| ensures ChildOk(h, h[y], j) {
        assert ChildOk(g, g[y], j);
      }
    }
    forall y | y in h ensures Placed(h, root, y) {
      assert Placed(g, root, y);
      if y != root {
        var p :| p in g && y in g[p].children;
        assert y in h[p].children;
      }
    }
    forall y, z | y in h && z in h && y != z && h[y].ht >= h[z].ht ensures Laminar(h[y], h[z]) {
      assert Laminar(g[y], g[z]);
    }
  }

  /** A new root above the old one, with no key yet. */
  lemma GrowShape(g: Forest, root: NodeId, r: NodeId)
    requires Shape(g, root) && r !in g
    ensures var h := g[r := GNode([], [root], g[root].ht + 1, g[root].lo, g[root].hi)];
            Shape(h, r) && KeySet(h) == KeySet(g)
  {
    var h := g[r := GNode([], [root], g[root].ht + 1, g[root].lo, g[root].hi)];
    forall y | y in h ensures NodeOk(h, h[y]) {
      if y == r {
        assert NodeOk(g, g[root]);
        assert ChildOk(h, h[r], 0);
      } else {
        assert NodeOk(g, g[y]);
        forall j: nat | h[y].ht > 0 && j < |h[y].children| ensures ChildOk(h, h[y], j) {
          assert ChildOk(g, g[y], j);
        }
      }
    }
    forall y | y in h ensures Placed(h, r, y) {
      if y == root {
        assert root in h[r].children;
      } else if y != r {
        assert Placed(g, root, y);
        var p :| p in g && y in g[p].children;
        assert y in h[p].children;
      }
    }
    forall y, z | y in h && z in h && y != z && h[y].ht >= h[z].ht ensures Laminar(h[y], h[z]) {
      if y == r {
        assert Placed(g, root, z);
      } else {
        assert z != r by { assert Placed(g, root, y); }
        assert Laminar(g[y], g[z]);
      }
    }
    forall k ensures Holds(h, k) <==> Holds(g, k) {
      if Holds(g, k) {
        var x :| x in g && k in g[x].keys;
        assert k in h[x].keys;
      }
      if Holds(h, k) {
        var x :| x in h && k in h[x].keys;
        assert k in g[x].keys;
      }
    }
    SameHeld(g, h);
  }

  /** A root without keys gives way to its only child. */
  lemma ShrinkShape(g: Forest, root: NodeId)
    requires Shape(g, root) && g[root].children != [] && g[root].keys == []
    ensures g[root].children[0] in g && g[root].children[0] != root
    ensures Shape(g - {root}, g[root].children[0]) && KeySet(g - {root}) == KeySet(g)
  {
    ChildOf(g, root, root, 0);
    var h, r := g - {root}, g[root].children[0];
    forall y | y in h ensures NodeOk(h, h[y]) {
      assert NodeOk(g, g[y]);
      assert Placed(g, root, y);
      forall j: nat | h[y].ht > 0 && j < |h[y].children| ensures ChildOk(h, h[y], j) {
        assert ChildOk(g, g[y], j);
      }
    }
    forall y | y in h ensures Placed(h, r, y) {
      assert Placed(g, root, y);
      var p :| p in g && y in g[p].children;
      if p != root {
        assert y in h[p].children;
        assert NodeOk(g, g[y]);
        var j :| 0 <= j < |g[p].children| && g[p].children[j] == y;
        ChildOf(g, root, p, j);
        assert Placed(g, root, p);
      }
    }
    forall y, z | y in h && z in h && y != z && h[y].ht >= h[z].ht ensures Laminar(h[y], h[z]) {
      assert Laminar(g[y], g[z]);
    }
    forall k ensures Holds(h, k) <==> Holds(g, k) {
      if Holds(g, k) {
        var x :| x in g && k in g[x].keys;
        assert x in h;
      }
      if Holds(h, k) {
        var x :| x in h && k in h[x].keys;
        assert x in g;
      }
    }
    SameHeld(g, h);
  }

  /** A key is in at most one node. */
  lemma OneHolder(g: Forest, root: NodeId, x: NodeId, y: NodeId, k: Key)
    requires Shape(g, root) && x in g && y in g && k in g[x].keys && k in g[y].keys
    ensures x == y
  {
    assert NodeOk(g, g[x]) && NodeOk(g, g[y]);
    if g[x].ht >= g[y].ht { InsideOnly(g, root, x, y, k); } else { InsideOnly(g, root, y, x, k); }
  }

  // ---------------------------------------------------------------- moving interval ends

  ghost function WidenedNode(n: GNode, lo: int, hi: int, a: int, b: int): GNode {
    n.(lo := if n.lo == lo then a else n.lo, hi := if n.hi == hi then b else n.hi)
  }

  /** The outermost interval ends are free: they may be moved outwards. */
  ghost function Widened(g: Forest, root: NodeId, a: int, b: int): Forest
    requires root in g
  {
    map x | x in g :: WidenedNode(g[x], g[root].lo, g[root].hi, a, b)
  }

  lemma WidenShape(g: Forest, root: NodeId, a: int, b: int)
    requires Shape(g, root) && a <= g[root].lo && g[root].hi <= b
    ensures Shape(Widened(g, root, a, b), root) && KeySet(Widened(g, root, a, b)) == KeySet(g)
  {
    var h := Widened(g, root, a, b);
    forall y | y in h ensures NodeOk(h, h[y]) {
      assert NodeOk(g, g[y]);
      assert Placed(g, root, y);
      forall j: nat | h[y].ht > 0 && j < |h[y].children| ensures ChildOk(h, h[y], j) {
        assert ChildOk(g, g[y], j);
        assert Placed(g, root, g[y].children[j]);
      }
    }
    forall y | y in h ensures Placed(h, root, y) {
      assert Placed(g, root, y);
      if y != root {
        var p :| p in g && y in g[p].children;
        assert y in h[p].children;
      }
    }
    forall y, z | y in h && z in h && y != z && h[y].ht >= h[z].ht ensures Laminar(h[y], h[z]) {
      assert Laminar(g[y], g[z]);
      assert Placed(g, root, y) && Placed(g, root, z);
      assert NodeOk(g, g[y]) && NodeOk(g, g[z]);
    }
    SameKeys(g, h);
  }

  lemma SameKeys(g: Forest, h: Forest)
    requires g.Keys == h.Keys && forall x :: x in g ==> g[x].keys == h[x].keys
    ensures KeySet(g) == KeySet(h)
  {
    forall k ensures Holds(h, k) <==> Holds(g, k) {
      if Holds(g, k) {
        var x :| x in g && k in g[x].keys;
        assert k in h[x].keys;
      }
      if Holds(h, k) {
        var x :| x in h && k in h[x].keys;
        assert k in g[x].keys;
      }
    }
    SameHeld(g, h);
  }

  /** `p` can stand in for `k` in every comparison with `v`. */
  ghost predicate Apart(v: int, k: Key, p: Key) {
    v == k || (v < k && v < p) || (v > k && v > p)
  }

  ghost predicate NodeApart(n: GNode, k: Key, p: Key) {
    && Apart(n.lo, k, p) && Apart(n.hi, k, p)
    && forall i :: 0 <= i < |n.keys| ==> Apart(n.keys[i], k, p)
  }

  ghost predicate AllApart(g: Forest, k: Key, p: Key) {
    forall x {:trigger g[x]} :: x in g ==> NodeApart(g[x], k, p)
  }

  ghost function Swapped(v: int, k: Key, p: Key): int { if v == k then p else v }

  /** Key `i` of `n` is replaced by `p`, and with it every interval end it stood for. */
  ghost function Replaced(g: Forest, n: NodeId, i: nat, p: Key): Forest
    requires n in g && i < |g[n].keys|
  {
    var k := g[n].keys[i];
    map x | x in g ::
      GNode(if x == n then g[n].keys[i := p] else g[x].keys, g[x].children, g[x].ht,
            Swapped(g[x].lo, k, p), Swapped(g[x].hi, k, p))
  }

  lemma ReplacedKeys(g: Forest, root: NodeId, n: NodeId, i: nat, p: Key, x: NodeId, j: nat)
    requires Shape(g, root) && n in g && i < |g[n].keys| && x in g && j < |g[x].keys|
    ensures Replaced(g, n, i, p)[x].keys[j] == Swapped(g[x].keys[j], g[n].keys[i], p)
  {
    assert NodeOk(g, g[n]);
    if g[x].keys[j] == g[n].keys[i] { OneHolder(g, root, x, n, g[n].keys[i]); }
  }

  lemma ReplacedNodeOk(g: Forest, root: NodeId, n: NodeId, i: nat, p: Key, y: NodeId)
    requires Shape(g, root) && n in g && i < |g[n].keys| && y in g
    requires NodeApart(g[y], g[n].keys[i], p)
    ensures NodeOk(Replaced(g, n, i, p), Replaced(g, n, i, p)[y])
  {
    var h, k := Replaced(g, n, i, p), g[n].keys[i];
    assert NodeOk(g, g[y]);
    forall j: nat | j < |g[y].keys| ensures h[y].keys[j] == Swapped(g[y].keys[j], k, p) {
      ReplacedKeys(g, root, n, i, p, y, j);
    }
    forall j: nat | h[y].ht > 0 && j < |h[y].children| ensures ChildOk(h, h[y], j) {
      assert ChildOk(g, g[y], j);
    }
  }

  lemma ReplacedLaminar(g: Forest, root: NodeId, n: NodeId, i: nat, p: Key, y: NodeId, z: NodeId)
    requires Shape(g, root) && n in g && i < |g[n].keys| && y in g && z in g
    requires NodeApart(g[y], g[n].keys[i], p) && NodeApart(g[z], g[n].keys[i], p) && Laminar(g[y], g[z])
    ensures Laminar(Replaced(g, n, i, p)[y], Replaced(g, n, i, p)[z])
  {
    var h, k := Replaced(g, n, i, p), g[n].keys[i];
    forall j: nat | j < |g[y].keys| ensures h[y].keys[j] == Swapped(g[y].keys[j], k, p) {
      ReplacedKeys(g, root, n, i, p, y, j);
    }
  }

  /** A key may be replaced by any key no comparison can tell from it. */
  lemma ReplaceShape(g: Forest, root: NodeId, n: NodeId, i: nat, p: Key)
    requires Shape(g, root) && n in g && i < |g[n].keys|
    requires AllApart(g, g[n].keys[i], p)
    ensures Shape(Replaced(g, n, i, p), root)
    ensures KeySet(Replaced(g, n, i, p)) == KeySet(g) - {g[n].keys[i]} + {p}
  {
    var h, k := Replaced(g, n, i, p), g[n].keys[i];
    forall y | y in h ensures NodeOk(h, h[y]) {
      assert NodeApart(g[y], k, p);
      ReplacedNodeOk(g, root, n, i, p, y);
    }
    forall y | y in h ensures Placed(h, root, y) {
      assert Placed(g, root, y);
      assert NodeApart(g[y], k, p) && NodeApart(g[root], k, p);
      if y != root {
        var q :| q in g && y in g[q].children;
        assert y in h[q].children;
      }
    }
    forall y, z | y in h && z in h && y != z && h[y].ht >= h[z].ht ensures Laminar(h[y], h[z]) {
      assert Laminar(g[y], g[z]);
      assert NodeApart(g[y], k, p) && NodeApart(g[z], k, p);
      ReplacedLaminar(g, root, n, i, p, y, z);
    }
    ReplaceKeys(g, root, n, i, p);
  }

  lemma ReplaceKeys(g: Forest, root: NodeId, n: NodeId, i: nat, p: Key)
    requires Shape(g, root) && n in g && i < |g[n].keys|
    ensures KeySet(Replaced(g, n, i, p)) == KeySet(g) - {g[n].keys[i]} + {p}
  {
    var h, k := Replaced(g, n, i, p), g[n].keys[i];
    assert h[n].keys[i] == p;
    forall q ensures Holds(h, q) <==> (Holds(g, q) && q != k) || q == p {
      if Holds(g, q) && q != k {
        var x :| x in g && q in g[x].keys;
        var j :| 0 <= j < |g[x].keys| && g[x].keys[j] == q;
        ReplacedKeys(g, root, n, i, p, x, j);
        assert h[x].keys[j] == q;
      }
      if Holds(h, q) {
        var x :| x in h && q in h[x].keys;
        var j :| 0 <= j < |h[x].keys| && h[x].keys[j] == q;
        ReplacedKeys(g, root, n, i, p, x, j);
        assert g[x].keys[j] in g[x].keys;
      }
      if q == p { assert p in h[n].keys; }
    }
    KeysHeld(g);
    KeysHeld(h);
  }
}
