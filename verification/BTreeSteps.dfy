/** The restructuring steps of insertion and deletion as the code performs them, with the key
    counts: splitting a full child, merging two minimal children, and rotating a key through
    the parent. A rotation is a merge followed by a split at another place. */
module BTreeSteps {
  import opened BTreeForest

  /** Shape and key counts of a B-tree of minimum degree `m`. */
  ghost predicate BTree(g: Forest, root: NodeId, m: nat) {
    m >= 2 && Shape(g, root) && Sizes(g, root, m)
  }

  /** Splitting a full child of a node that is not full. */
  lemma SplitStep(g: Forest, root: NodeId, m: nat, n: NodeId, i: nat, s: NodeId)
    requires BTree(g, root, m) && n in g && i < |g[n].children| && s !in g
    requires |g[n].keys| < 2 * m - 1
    requires g[n].children[i] in g && |g[g[n].children[i]].keys| == 2 * m - 1
    ensures CanSplit(g, root, n, i, g[n].children[i], m - 1, s)
    ensures var h := Split(g, root, n, i, g[n].children[i], m - 1, s);
            && BTree(h, root, m) && KeySet(h) == KeySet(g)
            && |h[g[n].children[i]].keys| == |h[s].keys| == m - 1
            && (g[root].keys != [] ==> h[root].keys != [])
  {
    var c := g[n].children[i];
    ChildOf(g, root, n, i);
    SplitShape(g, root, n, i, c, m - 1, s);
    SplitSizes(g, root, m, n, i, c, s);
  }

  lemma SplitSizes(g: Forest, root: NodeId, m: nat, n: NodeId, i: nat, c: NodeId, s: NodeId)
    requires m >= 2 && Sizes(g, root, m) && CanSplit(g, root, n, i, c, m - 1, s)
    requires |g[n].keys| < 2 * m - 1 && |g[c].keys| == 2 * m - 1
    ensures var h := Split(g, root, n, i, c, m - 1, s);
            && Sizes(h, root, m)
            && |h[c].keys| == |h[s].keys| == m - 1
            && (g[root].keys != [] ==> h[root].keys != [])
  {
    var h := Split(g, root, n, i, c, m - 1, s);
    forall x | x in h ensures |h[x].keys| <= 2 * m - 1 && (x != root ==> m - 1 <= |h[x].keys|) {
      if x != s { assert |g[x].keys| <= 2 * m - 1; }
    }
  }

  /** Merging two minimal neighbouring children of a node that can spare a key. */
  lemma MergeStep(g: Forest, root: NodeId, m: nat, n: NodeId, i: nat)
    requires BTree(g, root, m) && n in g && i + 1 < |g[n].children|
    requires n != root ==> |g[n].keys| >= m
    requires g[n].children[i] in g && g[n].children[i + 1] in g
    requires |g[g[n].children[i]].keys| == |g[g[n].children[i + 1]].keys| == m - 1
    ensures Siblings(g, root, n, i, g[n].children[i], g[n].children[i + 1])
    ensures var h := Merged(g, root, n, i, g[n].children[i], g[n].children[i + 1]);
            && BTree(h, root, m) && KeySet(h) == KeySet(g)
            && |h[g[n].children[i]].keys| == 2 * m - 1
  {
    var l, r := g[n].children[i], g[n].children[i + 1];
    SiblingsOf(g, root, n, i);
    MergeShape(g, root, n, i, l, r);
    var h := Merged(g, root, n, i, l, r);
    forall x | x in h ensures |h[x].keys| <= 2 * m - 1 && (x != root ==> m - 1 <= |h[x].keys|) {
      assert |g[x].keys| <= 2 * m - 1;
    }
  }

  /** The three nodes of a rotation across key `i` of `n`: `p`, `a` and `b` replace the parent
      and its children `i` and `i + 1`. */
  ghost function Rotated(g: Forest, n: NodeId, p: GNode, l: NodeId, a: GNode, r: NodeId, b: GNode): Forest {
    g[n := p][l := a][r := b]
  }

  /** Moving the border between two neighbouring children to key `at` of their concatenation. */
  lemma ShiftBorder(g: Forest, root: NodeId, n: NodeId, i: nat, l: NodeId, r: NodeId, at: nat)
    requires Siblings(g, root, n, i, l, r)
    requires at < |g[l].keys| + 1 + |g[r].keys|
    ensures var c := MergedChild(g[l], g[n].keys[i], g[r]);
            && (c.children == [] || |c.children| == |c.keys| + 1)
            && var h := Rotated(g, n, g[n].(keys := g[n].keys[i := c.keys[at]]), l, SplitLeft(c, at), r,
                                SplitRight(c, at));
               Shape(h, root) && KeySet(h) == KeySet(g)
  {
    var f := Merged(g, root, n, i, l, r);
    MergeShape(g, root, n, i, l, r);
    ChildOf(f, root, n, i);
    var c := MergedChild(g[l], g[n].keys[i], g[r]);
    assert CanSplit(f, root, n, i, l, at, r);
    SplitShape(f, root, n, i, l, at, r);
    var h := Rotated(g, n, g[n].(keys := g[n].keys[i := c.keys[at]]), l, SplitLeft(c, at), r, SplitRight(c, at));
    ShiftedParent(g[n], i, c.keys[at], r);
    assert h == Split(f, root, n, i, l, at, r);
  }

  lemma ShiftedParent(p: GNode, i: nat, k: Key, r: NodeId)
    requires i + 1 < |p.children| == |p.keys| + 1 && p.children[i + 1] == r
    ensures SplitParent(MergedParent(p, i), i, k, r) == p.(keys := p.keys[i := k])
  {
  }

  /** Two neighbouring nodes of the same height. */
  ghost predicate Neighbours(a: GNode, b: GNode) {
    && a.ht == b.ht
    && (a.ht == 0 <==> a.children == []) && (b.ht == 0 <==> b.children == [])
    && (a.ht > 0 ==> |a.children| == |a.keys| + 1 && |b.children| == |b.keys| + 1)
  }

  /** The smaller sibling after giving its largest key away. */
  ghost function LentLast(a: GNode): GNode
    requires a.keys != []
  {
    a.(keys := a.keys[..|a.keys| - 1],
       children := if a.children == [] then [] else a.children[..|a.children| - 1],
       hi := a.keys[|a.keys| - 1])
  }

  /** The larger node after taking the separator `k` from below. */
  ghost function TookFirst(a: GNode, k: Key, b: GNode): GNode
    requires a.keys != [] && (b.children != [] ==> a.children != [])
  {
    b.(keys := [k] + b.keys,
       children := if b.children == [] then [] else [a.children[|a.children| - 1]] + b.children,
       lo := a.keys[|a.keys| - 1])
  }

  lemma RotateRightNodes(a: GNode, k: Key, b: GNode)
    requires Neighbours(a, b) && a.keys != []
    ensures var c, at := MergedChild(a, k, b), |a.keys| - 1;
            && c.keys[at] == a.keys[at]
            && (c.children == [] || |c.children| == |c.keys| + 1)
            && SplitLeft(c, at) == LentLast(a) && SplitRight(c, at) == TookFirst(a, k, b)
  {
    var c, at := MergedChild(a, k, b), |a.keys| - 1;
    assert c.keys == a.keys[..at] + [a.keys[at]] + ([k] + b.keys);
    assert SplitLeft(c, at).keys == LentLast(a).keys;
    assert SplitRight(c, at).keys == TookFirst(a, k, b).keys;
  }

  /** The larger sibling after giving its smallest key away. */
  ghost function LentFirst(b: GNode): GNode
    requires b.keys != []
  {
    b.(keys := b.keys[1..], children := if b.children == [] then [] else b.children[1..], lo := b.keys[0])
  }

  /** The smaller node after taking the separator `k` from above. */
  ghost function TookLast(a: GNode, k: Key, b: GNode): GNode
    requires b.keys != [] && (a.children != [] ==> b.children != [])
  {
    a.(keys := a.keys + [k],
       children := if a.children == [] then [] else a.children + [b.children[0]],
       hi := b.keys[0])
  }

  lemma RotateLeftNodes(a: GNode, k: Key, b: GNode)
    requires Neighbours(a, b) && b.keys != []
    ensures var c, at := MergedChild(a, k, b), |a.keys| + 1;
            && c.keys[at] == b.keys[0]
            && (c.children == [] || |c.children| == |c.keys| + 1)
            && SplitLeft(c, at) == TookLast(a, k, b) && SplitRight(c, at) == LentFirst(b)
  {
    var c, at := MergedChild(a, k, b), |a.keys| + 1;
    assert SplitLeft(c, at).keys == TookLast(a, k, b).keys;
    assert SplitRight(c, at).keys == LentFirst(b).keys;
  }

  /** Key counts after a rotation. */
  lemma RotatedSizes(g: Forest, root: NodeId, m: nat, n: NodeId, p: GNode, l: NodeId, a: GNode, r: NodeId, b: GNode)
    requires Sizes(g, root, m) && n in g && l in g && r in g && n != l && n != r
    requires |p.keys| == |g[n].keys| && m - 1 <= |a.keys| <= 2 * m - 1 && m - 1 <= |b.keys| <= 2 * m - 1
    ensures Sizes(Rotated(g, n, p, l, a, r, b), root, m)
  {
    var h := Rotated(g, n, p, l, a, r, b);
    forall x | x in h ensures |h[x].keys| <= 2 * m - 1 && (x != root ==> m - 1 <= |h[x].keys|) {
      assert |g[x].keys| <= 2 * m - 1;
    }
  }

  /** Taking the largest key of the smaller sibling `l` for its neighbour `r`. */
  ghost function RotatedRight(g: Forest, root: NodeId, n: NodeId, i: nat, l: NodeId, r: NodeId): Forest
    requires Siblings(g, root, n, i, l, r) && g[l].keys != []
  {
    Rotated(g, n, g[n].(keys := g[n].keys[i := g[l].keys[|g[l].keys| - 1]]),
            l, LentLast(g[l]), r, TookFirst(g[l], g[n].keys[i], g[r]))
  }

  lemma RotateRightStep(g: Forest, root: NodeId, m: nat, n: NodeId, i: nat, l: NodeId, r: NodeId)
    requires BTree(g, root, m) && Siblings(g, root, n, i, l, r)
    requires |g[l].keys| > m - 1 && |g[r].keys| == m - 1
    ensures var h := RotatedRight(g, root, n, i, l, r); BTree(h, root, m) && KeySet(h) == KeySet(g)
  {
    var at := |g[l].keys| - 1;
    var p, a, b := g[n].(keys := g[n].keys[i := g[l].keys[at]]), LentLast(g[l]), TookFirst(g[l], g[n].keys[i], g[r]);
    RotateRightNodes(g[l], g[n].keys[i], g[r]);
    ShiftBorderTo(g, root, n, i, l, r, at, p, a, b);
    RotatedSizes(g, root, m, n, p, l, a, r, b);
  }

  /** `ShiftBorder`, with names for the three nodes. */
  lemma ShiftBorderTo(g: Forest, root: NodeId, n: NodeId, i: nat, l: NodeId, r: NodeId, at: nat, p: GNode, a: GNode,
                      b: GNode)
    requires Siblings(g, root, n, i, l, r) && at < |g[l].keys| + 1 + |g[r].keys|
    requires var c := MergedChild(g[l], g[n].keys[i], g[r]);
             && (c.children == [] || |c.children| == |c.keys| + 1)
             && p == g[n].(keys := g[n].keys[i := c.keys[at]]) && a == SplitLeft(c, at) && b == SplitRight(c, at)
    ensures var h := Rotated(g, n, p, l, a, r, b); Shape(h, root) && KeySet(h) == KeySet(g)
  {
    ShiftBorder(g, root, n, i, l, r, at);
  }

  /** Taking the smallest key of the larger sibling `r` for its neighbour `l`. */
  ghost function RotatedLeft(g: Forest, root: NodeId, n: NodeId, i: nat, l: NodeId, r: NodeId): Forest
    requires Siblings(g, root, n, i, l, r) && g[r].keys != []
  {
    Rotated(g, n, g[n].(keys := g[n].keys[i := g[r].keys[0]]),
            l, TookLast(g[l], g[n].keys[i], g[r]), r, LentFirst(g[r]))
  }

  lemma RotateLeftStep(g: Forest, root: NodeId, m: nat, n: NodeId, i: nat, l: NodeId, r: NodeId)
    requires BTree(g, root, m) && Siblings(g, root, n, i, l, r)
    requires |g[l].keys| == m - 1 && |g[r].keys| > m - 1
    ensures var h := RotatedLeft(g, root, n, i, l, r); BTree(h, root, m) && KeySet(h) == KeySet(g)
  {
    var p, a, b := g[n].(keys := g[n].keys[i := g[r].keys[0]]), TookLast(g[l], g[n].keys[i], g[r]), LentFirst(g[r]);
    RotateLeftNodes(g[l], g[n].keys[i], g[r]);
    ShiftBorderTo(g, root, n, i, l, r, |g[l].keys| + 1, p, a, b);
    RotatedSizes(g, root, m, n, p, l, a, r, b);
  }

  // ---------------------------------------------------------------- leaves

  ghost function WithKeys(g: Forest, x: NodeId, keys: seq<Key>): Forest
    requires x in g
  {
    g[x := g[x].(keys := keys)]
  }

  /** Inserting an absent key between its neighbours in a leaf. */
  lemma LeafInsert(g: Forest, root: NodeId, m: nat, x: NodeId, i: nat, k: Key)
    requires BTree(g, root, m) && x in g && g[x].children == [] && i <= |g[x].keys| < 2 * m - 1
    requires Lo(g[x], i) < k < Hi(g[x], i)
    ensures var h := WithKeys(g, x, g[x].keys[..i] + [k] + g[x].keys[i..]);
            BTree(h, root, m) && KeySet(h) == KeySet(g) + {k}
  {
    var keys := g[x].keys[..i] + [k] + g[x].keys[i..];
    var h := WithKeys(g, x, keys);
    assert NodeOk(g, g[x]);
    forall a, b | 0 <= a < b < |keys| ensures keys[a] < keys[b] {
      assert a < i ==> keys[a] == g[x].keys[a];
      assert b > i ==> keys[b] == g[x].keys[b - 1];
    }
    LeafShape(g, root, x, keys);
    forall y | y in h ensures |h[y].keys| <= 2 * m - 1 && (y != root ==> m - 1 <= |h[y].keys|) {
      assert |g[y].keys| <= 2 * m - 1;
    }
    forall q ensures Holds(h, q) <==> Holds(g, q) || q == k {
      SplitKeysIn(g[x].keys, i, k, q);
      KeysOfUpdated(g, x, keys, q);
    }
    KeysHeld(g);
    KeysHeld(h);
  }

  /** Removing a key from a leaf that can spare it. */
  lemma LeafRemove(g: Forest, root: NodeId, m: nat, x: NodeId, i: nat)
    requires BTree(g, root, m) && x in g && g[x].children == [] && i < |g[x].keys|
    requires x != root ==> |g[x].keys| >= m
    ensures var h := WithKeys(g, x, g[x].keys[..i] + g[x].keys[i + 1..]);
            BTree(h, root, m) && KeySet(h) == KeySet(g) - {g[x].keys[i]} && g[x].keys[i] in KeySet(g)
  {
    var keys, k := g[x].keys[..i] + g[x].keys[i + 1..], g[x].keys[i];
    var h := WithKeys(g, x, keys);
    assert NodeOk(g, g[x]);
    assert forall a :: 0 <= a < |keys| ==> keys[a] == g[x].keys[if a < i then a else a + 1];
    LeafShape(g, root, x, keys);
    forall y | y in h ensures |h[y].keys| <= 2 * m - 1 && (y != root ==> m - 1 <= |h[y].keys|) {
      assert |g[y].keys| <= 2 * m - 1;
    }
    assert Holds(g, k) by { assert k in g[x].keys; }
    forall q ensures Holds(h, q) <==> Holds(g, q) && q != k {
      HalvesIn(g[x].keys, i, q);
      KeysOfUpdated(g, x, keys, q);
      if Holds(h, k) && q == k {
        var y :| y in h && k in h[y].keys;
        if y != x { OneHolder(g, root, x, y, k); }
      }
    }
    KeysHeld(g);
    KeysHeld(h);
  }

  /** A key is held after an update of `x` if the new keys or another node hold it. */
  lemma KeysOfUpdated(g: Forest, x: NodeId, keys: seq<Key>, q: Key)
    requires x in g
    ensures q in keys ==> Holds(WithKeys(g, x, keys), q)
    ensures Holds(WithKeys(g, x, keys), q) ==> q in keys || Holds(g, q)
    ensures Holds(g, q) && q !in g[x].keys ==> Holds(WithKeys(g, x, keys), q)
    ensures Holds(g, q) && (q in g[x].keys ==> q in keys) ==> Holds(WithKeys(g, x, keys), q)
  {
    var h := WithKeys(g, x, keys);
    if q in keys { assert q in h[x].keys; }
    if Holds(h, q) && q !in keys {
      var y :| y in h && q in h[y].keys;
      assert q in g[y].keys;
    }
    if Holds(g, q) && (q in g[x].keys ==> q in keys) {
      var y :| y in g && q in g[y].keys;
      assert q in h[y].keys;
    }
  }
}
