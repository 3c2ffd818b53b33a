/** The operations by which a tree changes its stored nodes, and what a sequence of them leaves. */
module NodeLog {
  import opened BTreeForest

  datatype NodeOp = Create(id: NodeId, node: Node) | Store(id: NodeId, node: Node) | Delete(id: NodeId) | DeleteAll

  function Perform(nodes: map<NodeId, Node>, op: NodeOp): map<NodeId, Node> {
    match op
    case Create(id, node) => nodes[id := node]
    case Store(id, node) => nodes[id := node]
    case Delete(id) => nodes - {id}
    case DeleteAll => map[]
  }

  /** Only an entry that exists can be stored to. */
  predicate Allowed(nodes: map<NodeId, Node>, op: NodeOp) { op.Store? ==> op.id in nodes }

  function Replay(ops: seq<NodeOp>): map<NodeId, Node> {
    if ops == [] then map[] else Perform(Replay(ops[..|ops| - 1]), ops[|ops| - 1])
  }

  ghost predicate Legal(ops: seq<NodeOp>) {
    ops != [] ==> Legal(ops[..|ops| - 1]) && Allowed(Replay(ops[..|ops| - 1]), ops[|ops| - 1])
  }

  lemma OneMoreOp(ops: seq<NodeOp>, op: NodeOp)
    requires Legal(ops) && Allowed(Replay(ops), op)
    ensures Legal(ops + [op]) && Replay(ops + [op]) == Perform(Replay(ops), op)
  {
    assert (ops + [op])[..|ops|] == ops;
  }
}
