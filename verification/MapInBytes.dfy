/** A `StateBTreeMap` and the bytes: the values under one prefix and the order of the keys under
    another one, in one store. */
module MapInBytes {
  import opened Common
  import opened Codecs
  import opened ContractState
  import opened BTreeForest
  import opened NodeLog
  import opened StateContainers
  import opened StateBTreeMaps

  /** Where the two parts are, and how keys and values are written. */
  datatype Layout<!V> = Layout(values: bytes, order: bytes, keyCodec: Codec<Key>, valueCodec: Codec<V>)

  /** Different prefixes of one length, and codings that can be read back. */
  ghost predicate LayoutOk<V(!new)>(l: Layout<V>) {
    l.values != l.order && |l.values| == |l.order| && Lawful(l.keyCodec) && Lawful(l.valueCodec)
  }

  /** What is done to the values, or to a node of the tree. */
  datatype Action<V> = OnValues(op: Op<V>) | OnTree(nodeOp: NodeOp)

  /** What an operation does to the bytes of the values. */
  function ValueStep<V>(store: Store, l: Layout<V>, op: Op<V>): Store {
    match op
    case Insert(k, v) => store[KeyUnder(l.values, l.keyCodec, k) := l.valueCodec.serial(v)]
    case RemoveAndGet(k) => store - {KeyUnder(l.values, l.keyCodec, k)}
    case Remove(k) => store - {KeyUnder(l.values, l.keyCodec, k)}
    case Clear => Without(store, l.values)
  }

  /** The operations of a `StateMap` do just that. */
  method PerformOnBytes<V(!new)>(m: StateMap<Key, V>, l: Layout<V>, op: Op<V>) returns (answer: Option<V>)
    requires m.Valid() && m.prefix == l.values && m.keys == l.keyCodec && m.values == l.valueCodec && ValueFits(l, op)
    modifies m, m.api
    ensures true == m.Valid()
    ensures m.model == Apply(old(m.model), op) && m.api.store == ValueStep(old(m.api.store), l, op)
    ensures answer == Answer(old(m.model), op)
  {
    match op {
      case Insert(k, v) => answer := m.Insert(k, v);
      case RemoveAndGet(k) => answer := m.RemoveAndGet(k);
      case Remove(k) =>
        var _ := m.RemoveAndGet(k);
        answer := None;
      case Clear =>
        m.ClearFlat();
        answer := None;
    }
  }

  function Step<V>(store: Store, l: Layout<V>, a: Action<V>): Store {
    match a
    case OnValues(op) => ValueStep(store, l, op)
    case OnTree(op) => ByteStep(store, l.order, l.keyCodec, op)
  }

  function Run<V>(store: Store, l: Layout<V>, actions: seq<Action<V>>): Store {
    if actions == [] then store else Step(Run(store, l, actions[..|actions| - 1]), l, actions[|actions| - 1])
  }

  /** The operations on the values, and those on the tree, in their order. */
  function ValueOps<V>(actions: seq<Action<V>>): seq<Op<V>> {
    if actions == [] then []
    else
      var before, a := ValueOps(actions[..|actions| - 1]), actions[|actions| - 1];
      if a.OnValues? then before + [a.op] else before
  }

  function TreeOps<V>(actions: seq<Action<V>>): seq<NodeOp> {
    if actions == [] then []
    else
      var before, a := TreeOps(actions[..|actions| - 1]), actions[|actions| - 1];
      if a.OnTree? then before + [a.nodeOp] else before
  }

  predicate ValueFits<V>(l: Layout<V>, op: Op<V>) {
    match op
    case Insert(k, v) => l.keyCodec.fits(k) && l.valueCodec.fits(v)
    case RemoveAndGet(k) => l.keyCodec.fits(k)
    case Remove(k) => l.keyCodec.fits(k)
    case Clear => true
  }

  ghost predicate ActionFits<V>(l: Layout<V>, a: Action<V>) {
    match a
    case OnValues(op) => ValueFits(l, op)
    case OnTree(op) => OpFits(l.keyCodec, op)
  }

  /** The store holds the values and the nodes. */
  ghost predicate Holds<V(!new)>(store: Store, l: Layout<V>, values: map<Key, V>, nodes: map<NodeId, Node>) {
    && Represents(store, l.values, l.keyCodec, l.valueCodec, values)
    && RepresentsNodes(store, l.order, l.keyCodec, nodes)
  }

  /** Only entries under the two prefixes differ. */
  ghost predicate OnlyUnderBoth<V>(s: Store, t: Store, l: Layout<V>) {
    forall key {:trigger key in s} {:trigger key in t} :: !HasPrefix(key, l.values) && !HasPrefix(key, l.order) ==>
      (key in s <==> key in t) && (key in s ==> s[key] == t[key])
  }

  lemma ValueInBytes<V(!new)>(store: Store, l: Layout<V>, values: map<Key, V>, op: Op<V>)
    requires LayoutOk(l) && ValueFits(l, op) && Represents(store, l.values, l.keyCodec, l.valueCodec, values)
    ensures true == Represents(ValueStep(store, l, op), l.values, l.keyCodec, l.valueCodec, Apply(values, op))
    ensures true == OnlyUnder(store, ValueStep(store, l, op), l.values)
  {
    LawfulInjective(l.keyCodec);
    match op
    case Insert(k, v) =>
      var content := l.valueCodec.serial(v);
      SerialHolds(l.valueCodec, v, []);
      assert content + [] == content;
      Put(store, l.values, l.keyCodec, l.valueCodec, values, k, v, content);
    case RemoveAndGet(k) => Dropped(store, l.values, l.keyCodec, l.valueCodec, values, k);
    case Remove(k) => Dropped(store, l.values, l.keyCodec, l.valueCodec, values, k);
    case Clear => Cleared(store, l.values, l.keyCodec, l.valueCodec);
  }

  /** One action changes its own part only. */
  lemma ActionInBytes<V(!new)>(store: Store, l: Layout<V>, values: map<Key, V>, nodes: map<NodeId, Node>, a: Action<V>)
    requires LayoutOk(l) && ActionFits(l, a) && (a.OnTree? ==> Allowed(nodes, a.nodeOp))
    requires true == Holds(store, l, values, nodes)
    ensures true == Holds(Step(store, l, a), l, if a.OnValues? then Apply(values, a.op) else values,
                          if a.OnTree? then Perform(nodes, a.nodeOp) else nodes)
    ensures true == OnlyUnderBoth(store, Step(store, l, a), l)
  {
    var t := Step(store, l, a);
    match a
    case OnValues(op) =>
      ValueInBytes(store, l, values, op);
      Untouched(store, t, l.values, l.order, IdCodec(), NodeCodec(l.keyCodec), nodes);
    case OnTree(op) =>
      StepInBytes(store, l.order, l.keyCodec, nodes, op);
      Untouched(store, t, l.order, l.values, l.keyCodec, l.valueCodec, values);
  }

  lemma OneMoreAction<V(!new)>(first: Store, store: Store, l: Layout<V>, values: map<Key, V>, nodes: map<NodeId, Node>,
                               a: Action<V>)
    requires LayoutOk(l) && ActionFits(l, a) && (a.OnTree? ==> Allowed(nodes, a.nodeOp))
    requires true == Holds(store, l, values, nodes)
    requires true == OnlyUnderBoth(first, store, l)
    ensures true == Holds(Step(store, l, a), l, if a.OnValues? then Apply(values, a.op) else values,
                          if a.OnTree? then Perform(nodes, a.nodeOp) else nodes)
    ensures true == OnlyUnderBoth(first, Step(store, l, a), l)
  {
    ActionInBytes(store, l, values, nodes, a);
    SameAgain(first, store, Step(store, l, a), l);
  }

  lemma SameAgain<V>(s: Store, t: Store, u: Store, l: Layout<V>)
    requires OnlyUnderBoth(s, t, l) && OnlyUnderBoth(t, u, l)
    ensures true == OnlyUnderBoth(s, u, l)
  {
  }

  lemma NothingThere<V(!new)>(store: Store, l: Layout<V>)
    requires Unused(store, l.values) && Unused(store, l.order)
    ensures true == Holds(store, l, map[], map[])
    ensures true == OnlyUnderBoth(store, store, l)
  {
  }

  lemma LegalBefore(ops: seq<NodeOp>, op: NodeOp)
    requires Legal(ops + [op])
    ensures Legal(ops) && Allowed(Replay(ops), op) && Replay(ops + [op]) == Perform(Replay(ops), op)
  {
    assert (ops + [op])[..|ops|] == ops;
  }

  lemma OneMoreOnValues<V>(ops: seq<Op<V>>, op: Op<V>)
    ensures ApplyAll(map[], ops + [op]) == Apply(ApplyAll(map[], ops), op)
  {
    assert (ops + [op])[..|ops|] == ops;
  }

  /** However the operations on the values and those on the tree alternate: from a store with nothing
      under the two prefixes, the values are those of the mathematical map, and the nodes those of the
      tree. */
  lemma {:induction false} RunInBytes<V(!new)>(store: Store, l: Layout<V>, actions: seq<Action<V>>)
    requires LayoutOk(l) && Unused(store, l.values) && Unused(store, l.order)
    requires Legal(TreeOps(actions)) && forall i :: 0 <= i < |actions| ==> ActionFits(l, actions[i])
    ensures true == Holds(Run(store, l, actions), l, ApplyAll(map[], ValueOps(actions)), Replay(TreeOps(actions)))
    ensures true == OnlyUnderBoth(store, Run(store, l, actions), l)
    decreases |actions|
  {
    if actions != [] {
      var n := |actions| - 1;
      var before, a := actions[..n], actions[n];
      if a.OnTree? { LegalBefore(TreeOps(before), a.nodeOp); } else { OneMoreOnValues(ValueOps(before), a.op); }
      RunInBytes(store, l, before);
      OneMoreAction(store, Run(store, l, before), l, ApplyAll(map[], ValueOps(before)), Replay(TreeOps(before)), a);
    } else {
      NothingThere(store, l);
    }
  }

  /** A `StateBTreeMap` after any operations, as `StateBTreeMaps.Run` leaves it: doing to the bytes what
      was done to its two parts, in whatever order, leaves exactly its values under the one prefix,
      exactly the nodes of its order under the other one, and the same keys in both. */
  lemma MapIsInBytes<V(!new)>(m: StateBTreeMap<V>, ops: seq<Op<V>>, store: Store, l: Layout<V>, actions: seq<Action<V>>)
    requires m.Valid() && m.keyValue == ApplyAll(map[], ops)
    requires LayoutOk(l) && Unused(store, l.values) && Unused(store, l.order)
    requires ValueOps(actions) == ops && TreeOps(actions) == m.keyOrder.log
    requires forall i :: 0 <= i < |actions| ==> ActionFits(l, actions[i])
    ensures true == Holds(Run(store, l, actions), l, m.keyValue, m.keyOrder.nodes)
    ensures true == OnlyUnderBoth(store, Run(store, l, actions), l)
    ensures forall k :: l.keyCodec.fits(k) ==>
              (KeyUnder(l.values, l.keyCodec, k) in Run(store, l, actions) <==> k in m.keyOrder.Contents())
  {
    RunInBytes(store, l, actions);
    LawfulInjective(l.keyCodec);
    forall k | l.keyCodec.fits(k)
      ensures KeyUnder(l.values, l.keyCodec, k) in Run(store, l, actions) <==> k in m.keyOrder.Contents()
    {
      Present(Run(store, l, actions), l.values, l.keyCodec, l.valueCodec, m.keyValue, k);
    }
  }
}
