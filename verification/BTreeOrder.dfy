/** The in-order traversal of a forest: what it lists, in which order, and how long it is. */
module BTreeOrder {
  import opened Common
  import opened BTreeForest
  import opened BTreeSteps

  /** All keys of the subtree of `x`, in order. */
  ghost function All(g: Forest, root: NodeId, x: NodeId): seq<Key>
    requires Shape(g, root) && x in g
    decreases g[x].ht, |g[x].keys| + 1
  {
    Child(g, root, x, 0) + Walk(g, root, x, 0)
  }

  /** What follows child `i` of `x`: key `i`, the next child, and so on. */
  ghost function Walk(g: Forest, root: NodeId, x: NodeId, i: nat): seq<Key>
    requires Shape(g, root) && x in g && i <= |g[x].keys|
    decreases g[x].ht, |g[x].keys| - i
  {
    if i == |g[x].keys| then []
    else
      [g[x].keys[i]] + Child(g, root, x, i + 1) + Walk(g, root, x, i + 1)
  }

  /** The keys below child `i`, none for a leaf. */
  ghost function Child(g: Forest, root: NodeId, x: NodeId, i: nat): seq<Key>
    requires Shape(g, root) && x in g && i <= |g[x].keys|
    decreases g[x].ht, 0
  {
    if g[x].children == [] then []
    else
      assert NodeOk(g, g[x]);
      ChildOf(g, root, x, i);
      All(g, root, g[x].children[i])
  }

  /** All of `s` lies strictly between `lo` and `hi`. */
  ghost predicate Within(s: seq<Key>, lo: int, hi: int) {
    forall i :: 0 <= i < |s| ==> lo < s[i] < hi
  }

  /** The traversal ascends strictly, inside the interval of its node. */
  lemma {:induction false} AllAscends(g: Forest, root: NodeId, x: NodeId)
    requires Shape(g, root) && x in g
    ensures Sorted(All(g, root, x)) && Within(All(g, root, x), g[x].lo, g[x].hi)
    decreases g[x].ht, |g[x].keys| + 1
  {
    assert NodeOk(g, g[x]);
    assert All(g, root, x) == Child(g, root, x, 0) + Walk(g, root, x, 0);
    ChildAscends(g, root, x, 0);
    WalkAscends(g, root, x, 0);
  }

  lemma {:induction false} ChildAscends(g: Forest, root: NodeId, x: NodeId, i: nat)
    requires Shape(g, root) && x in g && i <= |g[x].keys| && NodeOk(g, g[x])
    ensures Sorted(Child(g, root, x, i)) && Within(Child(g, root, x, i), Lo(g[x], i), Hi(g[x], i))
    decreases g[x].ht, 0
  {
    if g[x].children != [] {
      ChildOf(g, root, x, i);
      AllAscends(g, root, g[x].children[i]);
    }
  }

  lemma {:induction false} WalkAscends(g: Forest, root: NodeId, x: NodeId, i: nat)
    requires Shape(g, root) && x in g && i <= |g[x].keys| && NodeOk(g, g[x])
    ensures Sorted(Walk(g, root, x, i))
    ensures forall j :: 0 <= j < |Walk(g, root, x, i)| ==> Hi(g[x], i) <= Walk(g, root, x, i)[j] < g[x].hi
    decreases g[x].ht, |g[x].keys| - i
  {
    if i < |g[x].keys| {
      ChildAscends(g, root, x, i + 1);
      WalkAscends(g, root, x, i + 1);
      var c, w := Child(g, root, x, i + 1), Walk(g, root, x, i + 1);
      assert Walk(g, root, x, i) == [g[x].keys[i]] + c + w;
      Joined(g[x].keys[i], c, Hi(g[x], i + 1), w, g[x].hi);
    }
  }

  lemma Joined(k: Key, c: seq<Key>, mid: int, w: seq<Key>, hi: int)
    requires Sorted(c) && Within(c, k, mid) && k < mid <= hi
    requires Sorted(w) && forall j :: 0 <= j < |w| ==> mid <= w[j] < hi
    ensures Sorted([k] + c + w)
    ensures forall j :: 0 <= j < |[k] + c + w| ==> k <= ([k] + c + w)[j] < hi
  {
    var s := [k] + c + w;
    forall j | 0 <= j < |s| ensures k <= s[j] < hi && (j <= |c| ==> s[j] < mid) && (j > |c| ==> mid <= s[j]) {
      assert s[j] == if j == 0 then k else if j <= |c| then c[j - 1] else w[j - 1 - |c|];
    }
    forall i, j | 0 <= i < j < |s| ensures s[i] < s[j] {
      assert s[j] == if j <= |c| then c[j - 1] else w[j - 1 - |c|];
      if 1 <= i && j <= |c| { assert s[i] == c[i - 1]; }
      if i > |c| { assert s[i] == w[i - 1 - |c|]; }
    }
  }

  // ---------------------------------------------------------------- what is listed

  lemma {:induction false} AllHeld(g: Forest, root: NodeId, x: NodeId, k: Key)
    requires Shape(g, root) && x in g && k in All(g, root, x)
    ensures Holds(g, k)
    decreases g[x].ht, |g[x].keys| + 1
  {
    assert All(g, root, x) == Child(g, root, x, 0) + Walk(g, root, x, 0);
    if k in Walk(g, root, x, 0) { WalkHeld(g, root, x, 0, k); } else { ChildHeld(g, root, x, 0, k); }
  }

  lemma {:induction false} ChildHeld(g: Forest, root: NodeId, x: NodeId, i: nat, k: Key)
    requires Shape(g, root) && x in g && i <= |g[x].keys| && k in Child(g, root, x, i)
    ensures Holds(g, k)
    decreases g[x].ht, 0
  {
    assert NodeOk(g, g[x]);
    ChildOf(g, root, x, i);
    AllHeld(g, root, g[x].children[i], k);
  }

  lemma {:induction false} WalkHeld(g: Forest, root: NodeId, x: NodeId, i: nat, k: Key)
    requires Shape(g, root) && x in g && i <= |g[x].keys| && k in Walk(g, root, x, i)
    ensures Holds(g, k)
    decreases g[x].ht, |g[x].keys| - i
  {
    if i < |g[x].keys| {
      assert Walk(g, root, x, i) == [g[x].keys[i]] + Child(g, root, x, i + 1) + Walk(g, root, x, i + 1);
      if k == g[x].keys[i] {
        assert k in g[x].keys;
      } else if k in Child(g, root, x, i + 1) {
        ChildHeld(g, root, x, i + 1, k);
      } else {
        WalkHeld(g, root, x, i + 1, k);
      }
    }
  }

  /** The walk lists the keys of its node and of the later children. */
  lemma {:induction false} WalkLists(g: Forest, root: NodeId, x: NodeId, i: nat, j: nat, k: Key)
    requires Shape(g, root) && x in g && i <= j < |g[x].keys|
    requires k == g[x].keys[j] || k in Child(g, root, x, j + 1)
    ensures k in Walk(g, root, x, i)
    decreases j - i
  {
    assert Walk(g, root, x, i) == [g[x].keys[i]] + Child(g, root, x, i + 1) + Walk(g, root, x, i + 1);
    if i < j { WalkLists(g, root, x, i + 1, j, k); }
  }

  /** The traversal of a node lists what is in its children. */
  lemma AllLists(g: Forest, root: NodeId, x: NodeId, i: nat, k: Key)
    requires Shape(g, root) && x in g && i <= |g[x].keys| && k in Child(g, root, x, i)
    ensures k in All(g, root, x)
  {
    assert NodeOk(g, g[x]);
    assert All(g, root, x) == Child(g, root, x, 0) + Walk(g, root, x, 0);
    if i > 0 { WalkLists(g, root, x, 0, i - 1, k); }
  }

  /** What the traversal of a stored node lists, the traversal of the root lists. */
  lemma {:induction false} ListedUpwards(g: Forest, root: NodeId, x: NodeId, k: Key)
    requires Shape(g, root) && x in g && k in All(g, root, x)
    ensures k in All(g, root, root)
    decreases g[root].ht - g[x].ht
  {
    if x != root {
      assert Placed(g, root, x);
      var p :| p in g && x in g[p].children;
      var j :| 0 <= j < |g[p].children| && g[p].children[j] == x;
      ChildOf(g, root, p, j);
      assert Placed(g, root, p);
      AllLists(g, root, p, j, k);
      ListedUpwards(g, root, p, k);
    }
  }

  /** The traversal of the root lists exactly the stored keys. */
  lemma RootListsAll(g: Forest, root: NodeId)
    requires Shape(g, root)
    ensures forall k :: k in All(g, root, root) <==> k in KeySet(g)
  {
    KeysHeld(g);
    forall k ensures k in All(g, root, root) <==> k in KeySet(g) {
      if k in All(g, root, root) { AllHeld(g, root, root, k); }
      if Holds(g, k) {
        var x :| x in g && k in g[x].keys;
        var j :| 0 <= j < |g[x].keys| && g[x].keys[j] == k;
        WalkLists(g, root, x, 0, j, k);
        ListedUpwards(g, root, x, k);
      }
    }
  }

  /** An ascending sequence has as many elements as its set. */
  lemma {:induction false} AscendingCount(s: seq<Key>, t: set<Key>)
    requires Sorted(s) && forall k :: k in s <==> k in t
    ensures |s| == |t|
  {
    if s == [] {
      assert forall k :: k in t <==> k in s;
      assert t == {};
    } else {
      var last := s[|s| - 1];
      var front := s[..|s| - 1];
      assert s == front + [last];
      AscendingCount(front, t - {last});
    }
  }

  /** In a B-tree, the traversal is the set in ascending order. */
  lemma TraversalIsTheSet(g: Forest, root: NodeId)
    requires Shape(g, root)
    ensures Sorted(All(g, root, root)) && |All(g, root, root)| == |KeySet(g)|
    ensures forall k :: k in All(g, root, root) <==> k in KeySet(g)
  {
    AllAscends(g, root, root);
    RootListsAll(g, root);
    AscendingCount(All(g, root, root), KeySet(g));
  }

  // ---------------------------------------------------------------- how long it is

  ghost function Pow(m: nat, e: nat): nat {
    if e == 0 then 1 else m * Pow(m, e - 1)
  }

  /** A walk over `r` more keys has at least `r` keys and `r` children of at least `c` keys. */
  lemma OneMore(a: nat, p: nat)
    ensures (a + 1) * p == p + a * p
  {
  }

  lemma {:induction false} WalkLength(g: Forest, root: NodeId, m: nat, x: NodeId, i: nat)
    requires BTree(g, root, m) && x in g && i <= |g[x].keys|
    ensures g[x].ht == 0 ==> |Walk(g, root, x, i)| == |g[x].keys| - i
    ensures g[x].ht > 0 ==> |Walk(g, root, x, i)| >= (|g[x].keys| - i) * Pow(m, g[x].ht)
    decreases g[x].ht, |g[x].keys| - i
  {
    assert NodeOk(g, g[x]);
    if i < |g[x].keys| {
      WalkLength(g, root, m, x, i + 1);
      if g[x].ht > 0 {
        ChildLength(g, root, m, x, i + 1);
        OneMore(|g[x].keys| - i - 1, Pow(m, g[x].ht));
      }
    }
  }

  lemma {:induction false} ChildLength(g: Forest, root: NodeId, m: nat, x: NodeId, i: nat)
    requires BTree(g, root, m) && x in g && i <= |g[x].keys| && g[x].ht > 0
    ensures |Child(g, root, x, i)| >= Pow(m, g[x].ht) - 1
    decreases g[x].ht, 0
  {
    assert NodeOk(g, g[x]);
    ChildOf(g, root, x, i);
    AllLength(g, root, m, g[x].children[i]);
  }

  /** A node other than the root, at height `h`, has at least `m^(h+1) - 1` keys below and in it. */
  lemma {:induction false} AllLength(g: Forest, root: NodeId, m: nat, x: NodeId)
    requires BTree(g, root, m) && x in g && x != root
    ensures |All(g, root, x)| >= Pow(m, g[x].ht + 1) - 1
    decreases g[x].ht, |g[x].keys| + 1
  {
    assert NodeOk(g, g[x]);
    assert |g[x].keys| >= m - 1;
    WalkLength(g, root, m, x, 0);
    assert All(g, root, x) == Child(g, root, x, 0) + Walk(g, root, x, 0);
    if g[x].ht > 0 {
      ChildLength(g, root, m, x, 0);
      var p := Pow(m, g[x].ht);
      Times(|g[x].keys|, m - 1, p);
      assert m * p == p + (m - 1) * p;
    } else {
      assert Pow(m, 1) == m * Pow(m, 0);
    }
  }

  lemma Times(a: int, b: int, p: nat)
    requires a >= b
    ensures a * p >= b * p
  {
  }

  /** A tree of height `h` whose root has a key holds at least `2 m^h - 1` keys. */
  lemma HeightBound(g: Forest, root: NodeId, m: nat)
    requires BTree(g, root, m) && g[root].keys != []
    ensures |KeySet(g)| >= 2 * Pow(m, g[root].ht) - 1
  {
    TraversalIsTheSet(g, root);
    assert NodeOk(g, g[root]);
    WalkLength(g, root, m, root, 0);
    assert All(g, root, root) == Child(g, root, root, 0) + Walk(g, root, root, 0);
    if g[root].ht > 0 {
      ChildLength(g, root, m, root, 0);
      Times(|g[root].keys|, 1, Pow(m, g[root].ht));
    }
  }

  // ---------------------------------------------------------------- what is reached

  /** The node a path of child indices leads to from `root`. */
  ghost function Follow(nodes: map<NodeId, Node>, root: NodeId, path: seq<nat>): Option<NodeId> {
    if path == [] then Some(root)
    else
      match Follow(nodes, root, path[..|path| - 1])
      case None => None
      case Some(p) =>
        if p in nodes && path[|path| - 1] < |nodes[p].children| then Some(nodes[p].children[path[|path| - 1]]) else None
  }

  ghost function Plain(g: Forest): map<NodeId, Node> { map x | x in g :: g[x].Plain() }

  /** A path leads to a stored node, one level down for each index. */
  lemma {:induction false} FollowStored(g: Forest, root: NodeId, path: seq<nat>)
    requires Shape(g, root)
    ensures var r := Follow(Plain(g), root, path);
            r.Some? ==> r.value in g && g[r.value].ht + |path| == g[root].ht
  {
    if path != [] {
      var front := path[..|path| - 1];
      FollowStored(g, root, front);
      var p := Follow(Plain(g), root, front);
      if p.Some? && path[|path| - 1] < |g[p.value].children| { ChildOf(g, root, p.value, path[|path| - 1]); }
    }
  }

  /** Every stored node is reached. */
  lemma {:induction false} PathTo(g: Forest, root: NodeId, x: NodeId) returns (path: seq<nat>)
    requires Shape(g, root) && x in g
    ensures Follow(Plain(g), root, path) == Some(x)
    decreases g[root].ht - g[x].ht
  {
    if x == root {
      path := [];
    } else {
      assert Placed(g, root, x);
      var p :| p in g && x in g[p].children;
      var j :| 0 <= j < |g[p].children| && g[p].children[j] == x;
      ChildOf(g, root, p, j);
      assert Placed(g, root, p);
      var front := PathTo(g, root, p);
      path := front + [j];
      assert path[..|path| - 1] == front;
    }
  }

  /** No node is reached twice. */
  lemma {:induction false} OnePath(g: Forest, root: NodeId, p: seq<nat>, q: seq<nat>)
    requires Shape(g, root)
    requires Follow(Plain(g), root, p).Some? && Follow(Plain(g), root, p) == Follow(Plain(g), root, q)
    ensures p == q
    decreases |p|
  {
    FollowStored(g, root, p);
    FollowStored(g, root, q);
    if p != [] {
      var p', q' := p[..|p| - 1], q[..|q| - 1];
      FollowStored(g, root, p');
      FollowStored(g, root, q');
      var a, b := Follow(Plain(g), root, p').value, Follow(Plain(g), root, q').value;
      UniqueParent(g, root, a, p[|p| - 1], b, q[|q| - 1]);
      OnePath(g, root, p', q');
      assert p == p' + [p[|p| - 1]] && q == q' + [q[|q| - 1]];
    }
  }
}
