/** The iterator of a StateBTreeSet: a stack of partly consumed node copies. */
module StateBTreeIteration {
  import opened Common
  import opened BTreeForest
  import opened BTreeSteps
  import opened BTreeOrder
  import opened StateBTree

  /** A copy of a node whose keys are taken out one by one. */
  datatype Frame = Frame(keys: seq<Option<Key>>, children: seq<NodeId>, index: nat)

  /** The frame is a copy of node `x` with the keys before `index` consumed. */
  ghost predicate FrameOk(g: Forest, x: NodeId, f: Frame) {
    && x in g && f.children == g[x].children && |f.keys| == |g[x].keys|
    && f.index < |f.keys|
    && forall i :: f.index <= i < |f.keys| ==> f.keys[i] == Some(g[x].keys[i])
  }

  /** The frames are copies of the nodes `ids`. */
  ghost predicate FramesOk(g: Forest, ids: seq<NodeId>, stack: seq<Frame>) {
    |ids| == |stack| && forall i :: 0 <= i < |stack| ==> FrameOk(g, ids[i], stack[i])
  }

  /** What the frames still list, the last frame first. */
  ghost function Pushed(g: Forest, root: NodeId, ids: seq<NodeId>, stack: seq<Frame>): seq<Key>
    requires Shape(g, root) && FramesOk(g, ids, stack)
    decreases |stack|
  {
    if stack == [] then []
    else
      var last := |stack| - 1;
      assert FrameOk(g, ids[last], stack[last]);
      Walk(g, root, ids[last], stack[last].index) + Pushed(g, root, ids[..last], stack[..last])
  }

  /** What a node still to be loaded lists. */
  ghost function Unloaded(g: Forest, root: NodeId, next: Option<NodeId>): seq<Key>
    requires Shape(g, root) && (next.Some? ==> next.value in g)
  {
    if next.Some? then All(g, root, next.value) else []
  }

  /** An iterator with a node to load and a stack of frames, which has `rest` still to list. */
  ghost predicate Listing(g: Forest, root: NodeId, next: Option<NodeId>, ids: seq<NodeId>, stack: seq<Frame>,
                          rest: seq<Key>) {
    && Shape(g, root)
    && (next.Some? ==> next.value in g)
    && FramesOk(g, ids, stack)
    && rest == Unloaded(g, root, next) + Pushed(g, root, ids, stack)
  }

  /** The first child of a node, none for a leaf. */
  ghost function FirstChild(n: GNode): Option<NodeId> { if n.children == [] then None else Some(n.children[0]) }

  lemma PushedSnoc(g: Forest, root: NodeId, ids: seq<NodeId>, stack: seq<Frame>, x: NodeId, f: Frame)
    requires Shape(g, root) && FramesOk(g, ids, stack) && FrameOk(g, x, f)
    ensures FramesOk(g, ids + [x], stack + [f])
    ensures Pushed(g, root, ids + [x], stack + [f]) == Walk(g, root, x, f.index) + Pushed(g, root, ids, stack)
  {
    var ids', stack' := ids + [x], stack + [f];
    assert ids'[..|stack|] == ids && stack'[..|stack|] == stack;
  }

  lemma Regroup(a: seq<Key>, b: seq<Key>, c: seq<Key>)
    ensures (a + b) + c == a + (b + c)
  {
  }

  /** Loading a node lists its first child before it. */
  lemma LoadStep(g: Forest, root: NodeId, x: NodeId, ids: seq<NodeId>, stack: seq<Frame>, f: Frame, rest: seq<Key>)
    requires Listing(g, root, Some(x), ids, stack, rest) && FrameOk(g, x, f) && f.index == 0
    ensures Listing(g, root, FirstChild(g[x]), ids + [x], stack + [f], rest)
  {
    if g[x].children != [] { ChildOf(g, root, x, 0); }
    PushedSnoc(g, root, ids, stack, x, f);
    Regroup(Child(g, root, x, 0), Walk(g, root, x, 0), Pushed(g, root, ids, stack));
  }

  /** What is left of a frame when a key is taken: nothing after the last one. */
  function Advanced(f: Frame): seq<Frame>
    requires f.index < |f.keys|
  {
    if f.index + 1 == |f.keys| then [] else [Frame(f.keys[f.index := None], f.children, f.index + 1)]
  }

  lemma TakenHead(k: Key, child: seq<Key>, walk: seq<Key>, pushed: seq<Key>, rest: seq<Key>)
    requires rest == [] + (([k] + child + walk) + pushed)
    ensures rest != [] && rest[0] == k && rest[1..] == child + (walk + pushed)
  {
  }

  /** A frame with a key to take. */
  lemma FrontKey(g: Forest, root: NodeId, x: NodeId, f: Frame)
    requires Shape(g, root) && FrameOk(g, x, f)
    ensures f.keys[f.index].Some? && (f.children != [] ==> f.index + 1 < |f.children|)
  {
    assert NodeOk(g, g[x]);
  }

  /** Taking a key from the last frame: the head of what is still to come. */
  lemma TakeStep(g: Forest, root: NodeId, ids: seq<NodeId>, stack: seq<Frame>, x: NodeId, f: Frame, rest: seq<Key>,
                 next: Option<NodeId>, ids': seq<NodeId>, stack': seq<Frame>)
    requires FramesOk(g, ids, stack) && FrameOk(g, x, f) && Listing(g, root, None, ids + [x], stack + [f], rest)
    requires f.children != [] ==> f.index + 1 < |f.children|
    requires next == (if f.children == [] then None else Some(f.children[f.index + 1]))
    requires stack' == stack + Advanced(f) && ids' == (if Advanced(f) == [] then ids else ids + [x])
    ensures rest != [] && Some(rest[0]) == f.keys[f.index]
    ensures Listing(g, root, next, ids', stack', rest[1..])
  {
    var i := f.index;
    assert NodeOk(g, g[x]);
    PushedSnoc(g, root, ids, stack, x, f);
    if g[x].children != [] { ChildOf(g, root, x, i + 1); }
    var child, walk, pushed := Child(g, root, x, i + 1), Walk(g, root, x, i + 1), Pushed(g, root, ids, stack);
    TakenHead(g[x].keys[i], child, walk, pushed, rest);
    if i + 1 < |f.keys| {
      PushedSnoc(g, root, ids, stack, x, Advanced(f)[0]);
    } else {
      assert walk + pushed == pushed;
      assert stack + Advanced(f) == stack;
    }
  }

  /** The last frame has a key to take. */
  lemma TopFrame(g: Forest, root: NodeId, ids: seq<NodeId>, stack: seq<Frame>, f: Frame)
    requires Shape(g, root) && FramesOk(g, ids, stack) && stack != [] && f == stack[|stack| - 1]
    ensures f.index < |f.keys| && f.keys[f.index].Some? && (f.children != [] ==> f.index + 1 < |f.children|)
  {
    assert FrameOk(g, ids[|stack| - 1], f);
    FrontKey(g, root, ids[|stack| - 1], f);
  }

  /** `TakeStep` for a whole stack. */
  lemma TakeTop(g: Forest, root: NodeId, ids: seq<NodeId>, stack: seq<Frame>, f: Frame, rest: seq<Key>,
                next: Option<NodeId>, stack': seq<Frame>)
    requires Listing(g, root, None, ids, stack, rest) && stack != [] && f == stack[|stack| - 1]
    requires f.index < |f.keys| && (f.children != [] ==> f.index + 1 < |f.children|)
    requires next == (if f.children == [] then None else Some(f.children[f.index + 1]))
    requires stack' == stack[..|stack| - 1] + Advanced(f)
    ensures rest != [] && Some(rest[0]) == f.keys[f.index]
    ensures true == Listing(g, root, next, ids[..|stack'|], stack', rest[1..])
  {
    var last := |stack| - 1;
    var below, x := ids[..last], ids[last];
    assert FrameOk(g, x, f);
    assert stack == stack[..last] + [f] && ids == below + [x];
    TakeStep(g, root, below, stack[..last], x, f, rest, next, ids[..|stack'|], stack');
  }

  lemma HeadMoves(items: seq<Key>, rest: seq<Key>)
    requires rest != []
    ensures (items + [rest[0]]) + rest[1..] == items + rest
  {
  }

  class StateBTreeSetIter {
    const tree: StateBTreeSet
    var length: nat
    var nextNode: Option<NodeId>
    var stack: seq<Frame>
    /** The nodes the frames are copies of. */
    ghost var ids: seq<NodeId>
    /** What is still to come. */
    ghost var rest: seq<Key>

    /** The iterator fits the tree, which does not change while it is borrowed. */
    ghost predicate Valid()
      reads this, tree
    {
      && tree.Valid()
      && length == |rest|
      && match tree.root
         case None => nextNode.None? && stack == [] && rest == []
         case Some(r) => Listing(tree.g, r, nextNode, ids, stack, rest)
    }

    constructor (t: StateBTreeSet)
      requires t.Valid()
      ensures Valid() && tree == t
      ensures Sorted(rest) && |rest| == t.len && forall k :: k in rest <==> k in t.Contents()
    {
      StoredKeysAre(t.nodes, t.g);
      NoKeys();
      if t.root.Some? { TraversalIsTheSet(t.g, t.root.value); }
      tree, length, nextNode, stack := t, t.len, t.root, [];
      ids := [];
      rest := if t.root.Some? then All(t.g, t.root.value, t.root.value) else [];
    }

    /** Loads the path from the pending node down to its first leaf. */
    method LoadPending()
      requires Valid() && tree.root.Some?
      modifies this`nextNode, this`stack, this`ids
      ensures Valid() && nextNode.None?
    {
      ghost var g, r := tree.g, tree.root.value;
      while nextNode.Some?
        invariant Valid()
        decreases if nextNode.Some? then g[nextNode.value].ht + 1 else 0
      {
        var id := nextNode.value;
        NodeView(tree.M, tree.nodes, tree.nextNodeId, g, r, id);
        var node := tree.GetNode(id);
        var frame := Frame(seq(|node.keys|, i requires 0 <= i < |node.keys| => Some(node.keys[i])), node.children, 0);
        assert |g[id].keys| >= 1;
        assert FrameOk(g, id, frame);
        LoadStep(g, r, id, ids, stack, frame, rest);
        if node.IsLeaf() {
          nextNode := None;
        } else {
          ChildView(tree.M, tree.nodes, tree.nextNodeId, g, r, id, 0);
          nextNode := Some(node.children[0]);
        }
        stack := stack + [frame];
        ids := ids + [id];
      }
    }

    /** The next key, which is the head of what is still to come. */
    method Next() returns (r: Option<Key>)
      requires Valid()
      modifies this
      ensures Valid()
      ensures old(rest) == [] ==> r.None? && rest == []
      ensures old(rest) != [] ==> r == Some(old(rest)[0]) && rest == old(rest)[1..]
    {
      if tree.root.None? {
        return None;
      }
      LoadPending();
      if stack == [] {
        return None;
      }
      r := TakeKey();
    }

    /** Takes the next key of the last frame; the key is still there, and the count not yet zero. */
    method TakeKey() returns (r: Option<Key>)
      requires Valid() && tree.root.Some? && nextNode.None? && stack != []
      modifies this
      ensures true == Valid()
      ensures old(rest) != [] && r == Some(old(rest)[0]) && rest == old(rest)[1..]
    {
      var last := |stack| - 1;
      var frame := stack[last];
      ghost var g, rt := tree.g, tree.root.value;
      TopFrame(g, rt, ids, stack, frame);
      var next, left;
      r, next, left := TakeFrom(frame);
      var remaining := stack[..last] + left;
      TakeTop(g, rt, ids, stack, frame, rest, next, remaining);
      Advance(next, remaining, ids[..|remaining|], rest[1..]);
    }

    /** Goes on with another stack, one key having been taken. */
    method Advance(next: Option<NodeId>, remaining: seq<Frame>, ghost ids': seq<NodeId>, ghost rest': seq<Key>)
      requires tree.Valid() && tree.root.Some? && length == |rest'| + 1
      requires true == Listing(tree.g, tree.root.value, next, ids', remaining, rest')
      modifies this
      ensures true == Valid()
      ensures rest == rest'
    {
      ghost var g, rt := tree.g, tree.root;
      length := length - 1;
      nextNode, stack := next, remaining;
      ids, rest := ids', rest';
      assert tree.g == g && tree.root == rt;
      assert true == tree.Valid();
    }

    /** The key at the front of a frame, the child behind it, and what is left of the frame. */
    static method TakeFrom(frame: Frame) returns (r: Option<Key>, next: Option<NodeId>, left: seq<Frame>)
      requires frame.index < |frame.keys| && frame.keys[frame.index].Some?
      requires frame.children != [] ==> frame.index + 1 < |frame.children|
      ensures r == frame.keys[frame.index] && left == Advanced(frame)
      ensures next == if frame.children == [] then None else Some(frame.children[frame.index + 1])
    {
      var keys := frame.keys[frame.index := None];
      r := Some(frame.keys[frame.index].value);
      var index := frame.index + 1;
      next := if frame.children == [] then None else Some(frame.children[index]);
      left := if index == |keys| then [] else [Frame(keys, frame.children, index)];
    }
  }

  /** Running an iterator to its end lists the set in ascending order, `len` keys in all. */
  method Collect(tree: StateBTreeSet) returns (items: seq<Key>)
    requires tree.Valid()
    ensures Sorted(items) && |items| == tree.len
    ensures forall k :: k in items <==> k in tree.Contents()
  {
    var iter := new StateBTreeSetIter(tree);
    ghost var all := iter.rest;
    items := [];
    while true
      invariant true == iter.Valid()
      invariant iter.tree == tree && fresh(iter)
      invariant items + iter.rest == all
      decreases |iter.rest|
    {
      ghost var rest := iter.rest;
      var k := iter.Next();
      if k.None? {
        assert items == all;
        return;
      }
      HeadMoves(items, rest);
      items := items + [k.value];
    }
  }
}
