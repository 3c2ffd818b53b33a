/** The tree and the bytes: what a `StateBTreeSet` does to its nodes, done to the contract state. */
module TreeInBytes {
  import opened Codecs
  import opened ContractState
  import opened NodeLog
  import opened StateContainers
  import opened StateBTree

  /** After every sequence of operations on a tree, whose nodes and ids can be written: doing to the
      bytes what the tree did to its nodes leaves entries that are exactly the nodes of the tree,
      longer nodes that were overwritten notwithstanding, and touches nothing outside the prefix. */
  lemma TreeIsInBytes(tree: StateBTreeSet, store: Store, prefix: bytes, keys: Codec<int>)
    requires tree.Valid() && Lawful(keys) && Unused(store, prefix)
    requires forall i :: 0 <= i < |tree.log| ==> OpFits(keys, tree.log[i])
    ensures true == RepresentsNodes(ByteRun(store, prefix, keys, tree.log), prefix, keys, tree.nodes)
    ensures true == OnlyUnder(store, ByteRun(store, prefix, keys, tree.log), prefix)
  {
    RunInBytes(store, prefix, keys, tree.log);
  }
}
