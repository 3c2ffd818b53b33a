/** Containers over one flat store: `StateBuilder` hands out prefixes, and `StateMap`, `StateSet`
    and the nodes of a `StateBTreeSet` live under them. */
module StateContainers {
  import opened Common
  import opened Codecs
  import opened ContractState
  import opened BTreeForest
  import opened NodeLog

  // ---------------------------------------------------------------- key spaces

  /** Only entries under `prefix` differ. */
  ghost predicate OnlyUnder(s: Store, t: Store, prefix: bytes) {
    forall key {:trigger key in s} {:trigger key in t} :: !HasPrefix(key, prefix) ==>
      (key in s <==> key in t) && (key in s ==> s[key] == t[key])
  }

  /** No entry under `prefix` differs. */
  ghost predicate SameUnder(s: Store, t: Store, prefix: bytes) {
    forall key {:trigger key in s} {:trigger key in t} :: HasPrefix(key, prefix) ==>
      (key in s <==> key in t) && (key in s ==> s[key] == t[key])
  }

  /** Prefixes of one length are disjoint key spaces. */
  lemma Isolated(s: Store, t: Store, p: bytes, q: bytes)
    requires |p| == |q| && p != q && OnlyUnder(s, t, p)
    ensures SameUnder(s, t, q)
  {
  }

  function KeyUnder<K>(prefix: bytes, keys: Codec<K>, k: K): (r: bytes)
    ensures HasPrefix(r, prefix)
  {
    prefix + keys.serial(k)
  }

  lemma KeyInjective<K(!new)>(prefix: bytes, keys: Codec<K>, k: K, l: K)
    requires Injective(keys) && keys.fits(k) && keys.fits(l) && KeyUnder(prefix, keys, k) == KeyUnder(prefix, keys, l)
    ensures k == l
  {
    assert keys.serial(k) == KeyUnder(prefix, keys, k)[|prefix|..];
    assert keys.serial(l) == KeyUnder(prefix, keys, l)[|prefix|..];
  }

  /** The entries under `prefix` are the map `m`. */
  ghost predicate Represents<K(!new), V(!new)>(store: Store, prefix: bytes, keys: Codec<K>, values: Codec<V>,
                                               m: map<K, V>) {
    && (forall k :: k in m ==> keys.fits(k) && KeyUnder(prefix, keys, k) in store)
    && (forall k :: k in m ==> ReadsAs(values, store[KeyUnder(prefix, keys, k)], m[k]))
    && (forall key :: key in store && HasPrefix(key, prefix) ==> exists k :: k in m && key == KeyUnder(prefix, keys, k))
  }

  lemma Present<K(!new), V(!new)>(store: Store, prefix: bytes, keys: Codec<K>, values: Codec<V>, m: map<K, V>, k: K)
    requires Represents(store, prefix, keys, values, m) && Injective(keys) && keys.fits(k)
    ensures KeyUnder(prefix, keys, k) in store <==> k in m
  {
    var key := KeyUnder(prefix, keys, k);
    if key in store {
      var l :| l in m && key == KeyUnder(prefix, keys, l);
      KeyInjective(prefix, keys, k, l);
    }
  }

  lemma Put<K(!new), V(!new)>(store: Store, prefix: bytes, keys: Codec<K>, values: Codec<V>, m: map<K, V>, k: K, v: V,
                              content: bytes)
    requires Represents(store, prefix, keys, values, m) && Injective(keys) && keys.fits(k)
             && ReadsAs(values, content, v)
    ensures Represents(store[KeyUnder(prefix, keys, k) := content], prefix, keys, values, m[k := v])
    ensures OnlyUnder(store, store[KeyUnder(prefix, keys, k) := content], prefix)
  {
    var key := KeyUnder(prefix, keys, k);
    var t, n := store[key := content], m[k := v];
    forall l | l in n ensures ReadsAs(values, t[KeyUnder(prefix, keys, l)], n[l]) {
      if KeyUnder(prefix, keys, l) == key { KeyInjective(prefix, keys, k, l); }
    }
    forall other | other in t && HasPrefix(other, prefix)
      ensures exists l :: l in n && other == KeyUnder(prefix, keys, l)
    {
      if other == key {
        assert k in n;
      } else {
        var l :| l in m && other == KeyUnder(prefix, keys, l);
        assert l in n;
      }
    }
  }

  lemma Dropped<K(!new), V(!new)>(store: Store, prefix: bytes, keys: Codec<K>, values: Codec<V>, m: map<K, V>, k: K)
    requires Represents(store, prefix, keys, values, m) && Injective(keys) && keys.fits(k)
    ensures Represents(store - {KeyUnder(prefix, keys, k)}, prefix, keys, values, m - {k})
    ensures OnlyUnder(store, store - {KeyUnder(prefix, keys, k)}, prefix)
  {
    var key := KeyUnder(prefix, keys, k);
    var t, n := store - {key}, m - {k};
    forall l | l in n ensures KeyUnder(prefix, keys, l) in t {
      if KeyUnder(prefix, keys, l) == key { KeyInjective(prefix, keys, k, l); }
    }
    forall other | other in t && HasPrefix(other, prefix)
      ensures exists l :: l in n && other == KeyUnder(prefix, keys, l)
    {
      var l :| l in m && other == KeyUnder(prefix, keys, l);
      assert l in n;
    }
  }

  lemma Cleared<K(!new), V(!new)>(store: Store, prefix: bytes, keys: Codec<K>, values: Codec<V>)
    ensures Represents(Without(store, prefix), prefix, keys, values, map[])
    ensures OnlyUnder(store, Without(store, prefix), prefix)
  {
  }

  /** What happens in another key space does not matter. */
  lemma Untouched<K(!new), V(!new)>(s: Store, t: Store, p: bytes, q: bytes, keys: Codec<K>, values: Codec<V>,
                                    m: map<K, V>)
    requires |p| == |q| && p != q && OnlyUnder(s, t, p)
    requires Represents(s, q, keys, values, m)
    ensures Represents(t, q, keys, values, m)
  {
    Isolated(s, t, p, q);
  }

  lemma SetUntouched<T(!new)>(s: Store, t: Store, p: bytes, q: bytes, elements: Codec<T>, m: set<T>)
    requires |p| == |q| && p != q && OnlyUnder(s, t, p)
    requires RepresentsSet(s, q, elements, m)
    ensures RepresentsSet(t, q, elements, m)
  {
    Isolated(s, t, p, q);
  }

  // ---------------------------------------------------------------- maps

  class StateMap<K(!new, ==), V(!new)> {
    const api: StateApi
    const prefix: bytes
    const keys: Codec<K>
    const values: Codec<V>
    ghost var model: map<K, V>

    /** A new map, at a prefix under which nothing is stored. */
    constructor (api: StateApi, prefix: bytes, keys: Codec<K>, values: Codec<V>)
      requires Injective(keys) && Lawful(values) && Unused(api.store, prefix)
      ensures this.api == api && this.prefix == prefix && this.keys == keys && this.values == values
      ensures Valid() && model == map[]
    {
      this.api, this.prefix, this.keys, this.values := api, prefix, keys, values;
      model := map[];
    }

    ghost predicate Valid()
      reads this, api
    {
      Injective(keys) && Lawful(values) && Represents(api.store, prefix, keys, values, model)
    }

    method Get(key: K) returns (r: Option<V>)
      requires Valid() && keys.fits(key)
      ensures r == if key in model then Some(model[key]) else None
    {
      var k := KeyUnder(prefix, keys, key);
      Present(api.store, prefix, keys, values, model, key);
      var entry := api.LookupEntry(k);
      if entry.None? {
        r := None;
      } else {
        r := Some(values.deserial(api.store[k]).value.0);
      }
    }

    /** A handle to the value at a key. Dropping the handle is `StateRefMut.StoreMutations`. */
    method GetMut(key: K) returns (r: Option<StateRefMut<V>>)
      requires Valid() && keys.fits(key)
      ensures r.Some? <==> key in model
      ensures r.Some? ==> fresh(r.value) && fresh(r.value.entry) && r.value.Refers(model[key])
      ensures r.Some? ==> r.value.entry.api == api && r.value.entry.key == KeyUnder(prefix, keys, key)
      ensures r.Some? ==> r.value.codec == values
    {
      var k := KeyUnder(prefix, keys, key);
      Present(api.store, prefix, keys, values, model, key);
      var entry := api.LookupEntry(k);
      if entry.None? {
        r := None;
      } else {
        var handle := new StateRefMut(entry.value, values);
        r := Some(handle);
      }
    }

    /** Changing a value through a handle that is then dropped. */
    method Mutate(key: K, value: V) returns (found: bool)
      requires Valid() && keys.fits(key) && values.fits(value)
      modifies this, api
      ensures Valid() && OnlyUnder(old(api.store), api.store, prefix)
      ensures found <==> key in old(model)
      ensures model == if found then old(model)[key := value] else old(model)
    {
      var handle := GetMut(key);
      found := handle.Some?;
      if found {
        handle.value.Assign(model[key], value);
        handle.value.StoreMutations(value);
        Put(old(api.store), prefix, keys, values, model, key, value, api.store[KeyUnder(prefix, keys, key)]);
        model := model[key := value];
      }
    }

    method Insert(key: K, value: V) returns (r: Option<V>)
      requires Valid() && keys.fits(key) && values.fits(value)
      modifies this, api
      ensures Valid() && OnlyUnder(old(api.store), api.store, prefix)
      ensures model == old(model)[key := value]
      ensures r == if key in old(model) then Some(old(model)[key]) else None
      ensures api.store == old(api.store)[KeyUnder(prefix, keys, key) := values.serial(value)]
    {
      var k := KeyUnder(prefix, keys, key);
      r := Get(key);
      if r.None? {
        var entry := api.CreateEntry(k);
        entry.Write(values.serial(value));
      } else {
        var entry := new StateEntry(api, k);
        entry.Truncate(0);
        entry.Write(values.serial(value));
      }
      var content := values.serial(value);
      assert content + [] == content && api.store[k] == content;
      SerialHolds(values, value, []);
      Put(old(api.store), prefix, keys, values, model, key, value, api.store[k]);
      assert api.store == old(api.store)[k := api.store[k]];
      model := model[key := value];
    }

    method RemoveAndGet(key: K) returns (r: Option<V>)
      requires Valid() && keys.fits(key)
      modifies this, api
      ensures Valid() && OnlyUnder(old(api.store), api.store, prefix)
      ensures model == old(model) - {key}
      ensures r == if key in old(model) then Some(old(model)[key]) else None
      ensures api.store == old(api.store) - {KeyUnder(prefix, keys, key)}
    {
      Dropped(api.store, prefix, keys, values, model, key);
      Present(api.store, prefix, keys, values, model, key);
      r := Get(key);
      if r.Some? {
        var _ := api.DeleteEntry(KeyUnder(prefix, keys, key));
      }
      assert KeyUnder(prefix, keys, key) !in old(api.store) ==>
             old(api.store) - {KeyUnder(prefix, keys, key)} == old(api.store);
      model := model - {key};
    }

    method ClearFlat()
      requires Valid()
      modifies this, api
      ensures Valid() && OnlyUnder(old(api.store), api.store, prefix)
      ensures model == map[] && api.store == Without(old(api.store), prefix)
    {
      Cleared(api.store, prefix, keys, values);
      var _ := api.DeletePrefix(prefix);
      model := map[];
    }
  }

  // ---------------------------------------------------------------- sets

  /** The entries under `prefix` are the set `m`; what an entry holds does not matter. */
  ghost predicate RepresentsSet<T(!new)>(store: Store, prefix: bytes, elements: Codec<T>, m: set<T>) {
    && (forall t :: t in m ==> elements.fits(t) && KeyUnder(prefix, elements, t) in store)
    && (forall key :: key in store && HasPrefix(key, prefix) ==>
        exists t :: t in m && key == KeyUnder(prefix, elements, t))
  }

  lemma SetPresent<T(!new)>(store: Store, prefix: bytes, elements: Codec<T>, m: set<T>, t: T)
    requires RepresentsSet(store, prefix, elements, m) && Injective(elements) && elements.fits(t)
    ensures KeyUnder(prefix, elements, t) in store <==> t in m
  {
    var key := KeyUnder(prefix, elements, t);
    if key in store {
      var u :| u in m && key == KeyUnder(prefix, elements, u);
      KeyInjective(prefix, elements, t, u);
    }
  }

  lemma SetPut<T(!new)>(store: Store, prefix: bytes, elements: Codec<T>, m: set<T>, t: T, after: Store)
    requires RepresentsSet(store, prefix, elements, m) && elements.fits(t)
    requires after == store[KeyUnder(prefix, elements, t) := []]
    ensures RepresentsSet(after, prefix, elements, m + {t}) && OnlyUnder(store, after, prefix)
  {
    forall key | key in after && HasPrefix(key, prefix)
      ensures exists u :: u in m + {t} && key == KeyUnder(prefix, elements, u)
    {
      if key == KeyUnder(prefix, elements, t) {
        assert t in m + {t};
      } else {
        var u :| u in m && key == KeyUnder(prefix, elements, u);
        assert u in m + {t};
      }
    }
  }

  lemma SetDropped<T(!new)>(store: Store, prefix: bytes, elements: Codec<T>, m: set<T>, t: T, after: Store)
    requires RepresentsSet(store, prefix, elements, m) && Injective(elements) && elements.fits(t)
    requires after == store - {KeyUnder(prefix, elements, t)}
    ensures RepresentsSet(after, prefix, elements, m - {t}) && OnlyUnder(store, after, prefix)
  {
    forall u | u in m - {t} ensures KeyUnder(prefix, elements, u) in after {
      if KeyUnder(prefix, elements, u) == KeyUnder(prefix, elements, t) { KeyInjective(prefix, elements, t, u); }
    }
    forall key | key in after && HasPrefix(key, prefix)
      ensures exists u :: u in m - {t} && key == KeyUnder(prefix, elements, u)
    {
      var u :| u in m && key == KeyUnder(prefix, elements, u);
      assert u in m - {t};
    }
  }

  class StateSet<T(!new, ==)> {
    const api: StateApi
    const prefix: bytes
    const elements: Codec<T>
    ghost var model: set<T>

    constructor (api: StateApi, prefix: bytes, elements: Codec<T>)
      requires Injective(elements) && Unused(api.store, prefix)
      ensures this.api == api && this.prefix == prefix && this.elements == elements
      ensures Valid() && model == {}
    {
      this.api, this.prefix, this.elements := api, prefix, elements;
      model := {};
    }

    ghost predicate Valid()
      reads this, api
    {
      Injective(elements) && RepresentsSet(api.store, prefix, elements, model)
    }

    method Contains(value: T) returns (r: bool)
      requires Valid() && elements.fits(value)
      ensures r <==> value in model
    {
      SetPresent(api.store, prefix, elements, model, value);
      var entry := api.LookupEntry(KeyUnder(prefix, elements, value));
      r := entry.Some?;
    }

    method Insert(value: T) returns (added: bool)
      requires Valid() && elements.fits(value)
      modifies this, api
      ensures Valid() && OnlyUnder(old(api.store), api.store, prefix)
      ensures model == old(model) + {value} && (added <==> value !in old(model))
    {
      var present := Contains(value);
      added := !present;
      if added {
        var key := KeyUnder(prefix, elements, value);
        var entry := api.CreateEntry(key);
        WholeOverwrite([], []);
        entry.Write([]);
        assert api.store == old(api.store)[key := []];
        SetPut(old(api.store), prefix, elements, model, value, api.store);
        model := model + {value};
      }
    }

    method Remove(value: T) returns (removed: bool)
      requires Valid() && elements.fits(value)
      modifies this, api
      ensures Valid() && OnlyUnder(old(api.store), api.store, prefix)
      ensures model == old(model) - {value} && (removed <==> value in old(model))
    {
      removed := Contains(value);
      if removed {
        var _ := api.DeleteEntry(KeyUnder(prefix, elements, value));
        SetDropped(old(api.store), prefix, elements, model, value, api.store);
        model := model - {value};
      }
    }

    method Clear()
      requires Valid()
      modifies this, api
      ensures Valid() && OnlyUnder(old(api.store), api.store, prefix)
      ensures model == {}
    {
      var _ := api.DeletePrefix(prefix);
      model := {};
    }
  }

  // ---------------------------------------------------------------- tree nodes

  /** The key of a node: the prefix, then the id in eight bytes. */
  function NodeKey(prefix: bytes, id: NodeId): (r: bytes)
    ensures 0 <= id < Pow256(8) ==> r == KeyUnder(prefix, IdCodec(), id)
  {
    prefix + IdCodec().serial(id)
  }

  /** What an operation on the nodes does to the bytes. */
  function ByteStep(store: Store, prefix: bytes, keys: Codec<Key>, op: NodeOp): Store {
    match op
    case Create(id, node) => store[NodeKey(prefix, id) := SerialNode(keys, node)]
    case Store(id, node) =>
      var key := NodeKey(prefix, id);
      if key in store then WriteBack(store, key, SerialNode(keys, node)) else store
    case Delete(id) => store - {NodeKey(prefix, id)}
    case DeleteAll => Without(store, prefix)
  }

  function ByteRun(store: Store, prefix: bytes, keys: Codec<Key>, ops: seq<NodeOp>): Store {
    if ops == [] then store
    else ByteStep(ByteRun(store, prefix, keys, ops[..|ops| - 1]), prefix, keys, ops[|ops| - 1])
  }

  /** The ids and nodes of an operation can be written. */
  ghost predicate OpFits(keys: Codec<Key>, op: NodeOp) {
    match op
    case Create(id, node) => 0 <= id < Pow256(8) && NodeFits(keys, node)
    case Store(id, node) => 0 <= id < Pow256(8) && NodeFits(keys, node)
    case Delete(id) => 0 <= id < Pow256(8)
    case DeleteAll => true
  }

  /** The entries under `prefix` are the nodes of a tree. */
  ghost predicate RepresentsNodes(store: Store, prefix: bytes, keys: Codec<Key>, nodes: map<NodeId, Node>) {
    Represents(store, prefix, IdCodec(), NodeCodec(keys), nodes)
  }

  lemma CreateInBytes(store: Store, prefix: bytes, keys: Codec<Key>, nodes: map<NodeId, Node>, id: NodeId, node: Node)
    requires true == RepresentsNodes(store, prefix, keys, nodes)
    requires Lawful(keys) && 0 <= id < Pow256(8) && NodeFits(keys, node)
    ensures var t := ByteStep(store, prefix, keys, Create(id, node));
            true == RepresentsNodes(t, prefix, keys, nodes[id := node]) && true == OnlyUnder(store, t, prefix)
  {
    IdsReadBack();
    NodesReadBack(keys);
    SerialHolds(NodeCodec(keys), node, []);
    assert SerialNode(keys, node) + [] == SerialNode(keys, node);
    Put(store, prefix, IdCodec(), NodeCodec(keys), nodes, id, node, SerialNode(keys, node));
  }

  lemma StoreInBytes(store: Store, prefix: bytes, keys: Codec<Key>, nodes: map<NodeId, Node>, id: NodeId, node: Node)
    requires true == RepresentsNodes(store, prefix, keys, nodes)
    requires Lawful(keys) && id in nodes && NodeFits(keys, node)
    ensures var t := ByteStep(store, prefix, keys, Store(id, node));
            true == RepresentsNodes(t, prefix, keys, nodes[id := node]) && true == OnlyUnder(store, t, prefix)
  {
    IdsReadBack();
    NodesReadBack(keys);
    var key := NodeKey(prefix, id);
    OverwriteHolds(NodeCodec(keys), store[key], node);
    Put(store, prefix, IdCodec(), NodeCodec(keys), nodes, id, node, Overwrite(store[key], 0, SerialNode(keys, node)));
  }

  /** A handle that was only read from changes nothing. */
  lemma KeptInBytes(store: Store, prefix: bytes, keys: Codec<Key>, nodes: map<NodeId, Node>, id: NodeId, node: Node)
    requires true == RepresentsNodes(store, prefix, keys, nodes)
    requires id in nodes
    requires ReadsAs(NodeCodec(keys), store[NodeKey(prefix, id)], node)
    ensures RepresentsNodes(store, prefix, keys, nodes[id := node])
  {
    IdsReadBack();
    var key := NodeKey(prefix, id);
    Put(store, prefix, IdCodec(), NodeCodec(keys), nodes, id, node, store[key]);
    assert store == store[key := store[key]];
  }

  /** The bytes after a handle is dropped, `loaded` or not. */
  lemma HandleStored(store: Store, prefix: bytes, keys: Codec<Key>, nodes: map<NodeId, Node>, id: NodeId, node: Node,
                     loaded: bool)
    returns (after: Store)
    requires true == RepresentsNodes(store, prefix, keys, nodes)
    requires Lawful(keys) && id in nodes && NodeFits(keys, node)
    requires !loaded ==> ReadsAs(NodeCodec(keys), store[NodeKey(prefix, id)], node)
    ensures after == if loaded then ByteStep(store, prefix, keys, Store(id, node)) else store
    ensures true == RepresentsNodes(after, prefix, keys, nodes[id := node])
  {
    if loaded {
      StoreInBytes(store, prefix, keys, nodes, id, node);
      after := ByteStep(store, prefix, keys, Store(id, node));
    } else {
      KeptInBytes(store, prefix, keys, nodes, id, node);
      after := store;
    }
  }

  lemma NodeKeysDiffer(store: Store, prefix: bytes, keys: Codec<Key>, nodes: map<NodeId, Node>, a: NodeId, b: NodeId)
    requires true == RepresentsNodes(store, prefix, keys, nodes)
    requires a in nodes && b in nodes && a != b
    ensures NodeKey(prefix, a) != NodeKey(prefix, b)
  {
    IdsReadBack();
    if NodeKey(prefix, a) == NodeKey(prefix, b) { KeyInjective(prefix, IdCodec(), a, b); }
  }

  lemma DeleteInBytes(store: Store, prefix: bytes, keys: Codec<Key>, nodes: map<NodeId, Node>, id: NodeId)
    requires true == RepresentsNodes(store, prefix, keys, nodes)
    requires 0 <= id < Pow256(8)
    ensures var t := ByteStep(store, prefix, keys, Delete(id));
            true == RepresentsNodes(t, prefix, keys, nodes - {id}) && true == OnlyUnder(store, t, prefix)
  {
    IdsReadBack();
    Dropped(store, prefix, IdCodec(), NodeCodec(keys), nodes, id);
  }

  /** One operation on the bytes is the operation on the nodes. */
  lemma StepInBytes(store: Store, prefix: bytes, keys: Codec<Key>, nodes: map<NodeId, Node>, op: NodeOp)
    requires RepresentsNodes(store, prefix, keys, nodes) && Lawful(keys) && OpFits(keys, op) && Allowed(nodes, op)
    ensures true == RepresentsNodes(ByteStep(store, prefix, keys, op), prefix, keys, Perform(nodes, op))
    ensures true == OnlyUnder(store, ByteStep(store, prefix, keys, op), prefix)
  {
    match op
    case Create(id, node) => CreateInBytes(store, prefix, keys, nodes, id, node);
    case Store(id, node) => StoreInBytes(store, prefix, keys, nodes, id, node);
    case Delete(id) => DeleteInBytes(store, prefix, keys, nodes, id);
    case DeleteAll => Cleared(store, prefix, IdCodec(), NodeCodec(keys));
  }

  /** Every sequence of operations, from a prefix under which nothing is stored. */
  lemma {:induction false} RunInBytes(store: Store, prefix: bytes, keys: Codec<Key>, ops: seq<NodeOp>)
    requires Lawful(keys) && Unused(store, prefix)
    requires Legal(ops) && forall i :: 0 <= i < |ops| ==> OpFits(keys, ops[i])
    ensures true == RepresentsNodes(ByteRun(store, prefix, keys, ops), prefix, keys, Replay(ops))
    ensures true == OnlyUnder(store, ByteRun(store, prefix, keys, ops), prefix)
    decreases |ops|
  {
    if ops != [] {
      var n := |ops| - 1;
      RunInBytes(store, prefix, keys, ops[..n]);
      StepInBytes(ByteRun(store, prefix, keys, ops[..n]), prefix, keys, Replay(ops[..n]), ops[n]);
    }
  }

  /** The entries of the nodes of a `StateBTreeSet`. */
  class NodeEntries {
    const api: StateApi
    const prefix: bytes
    const keys: Codec<Key>
    ghost var nodes: map<NodeId, Node>

    constructor (api: StateApi, prefix: bytes, keys: Codec<Key>)
      requires Lawful(keys) && Unused(api.store, prefix)
      ensures this.api == api && this.prefix == prefix && this.keys == keys
      ensures Valid() && nodes == map[]
    {
      this.api, this.prefix, this.keys := api, prefix, keys;
      nodes := map[];
    }

    ghost predicate Valid()
      reads this, api
    {
      Lawful(keys) && RepresentsNodes(api.store, prefix, keys, nodes)
    }

    /** A live handle to the node `id`, which stands for `node`. */
    ghost predicate Handle(h: StateRefMut<Node>, id: NodeId, node: Node)
      reads this, api, h, h.entry, h.entry.api
    {
      && id in nodes && h.Refers(node)
      && h.entry.api == api && h.entry.key == NodeKey(prefix, id) && h.codec == NodeCodec(keys)
    }

    method GetNode(id: NodeId) returns (node: Node)
      requires Valid() && id in nodes
      ensures node == nodes[id]
    {
      node := DeserialNode(keys, api.store[NodeKey(prefix, id)]).value.0;
    }

    /** Writes a node as its two vectors, one after the other. */
    method SerialNodeTo(entry: StateEntry, node: Node)
      requires entry.api == api && entry.key in api.store && entry.position == 0
      modifies entry, api
      ensures api.store == WriteBack(old(api.store), entry.key, SerialNode(keys, node))
    {
      WritesCompose(api.store[entry.key], 0, SerialVec(keys, node.keys), SerialVec(IdCodec(), node.children));
      entry.Write(SerialVec(keys, node.keys));
      entry.Write(SerialVec(IdCodec(), node.children));
    }

    /** A new entry that holds a node. */
    method EntryWith(key: bytes, node: Node) returns (entry: StateEntry)
      modifies api
      ensures fresh(entry) && entry.api == api && entry.key == key
      ensures api.store == old(api.store)[key := SerialNode(keys, node)]
    {
      entry := api.CreateEntry(key);
      SerialNodeTo(entry, node);
      WholeOverwrite([], SerialNode(keys, node));
      assert api.store == old(api.store)[key := SerialNode(keys, node)];
    }

    /** A new entry, with a handle that has the node cached. */
    method CreateNode(id: NodeId, node: Node) returns (handle: StateRefMut<Node>)
      requires Valid() && 0 <= id < Pow256(8) && NodeFits(keys, node)
      modifies this, api
      ensures true == Valid()
      ensures api.store == ByteStep(old(api.store), prefix, keys, Create(id, node))
      ensures nodes == old(nodes)[id := node]
      ensures fresh(handle) && fresh(handle.entry) && true == Handle(handle, id, node)
    {
      CreateInBytes(api.store, prefix, keys, nodes, id, node);
      var entry := EntryWith(NodeKey(prefix, id), node);
      handle := Caching(entry, node);
      nodes := nodes[id := node];
    }

    /** A handle that has a node cached. */
    method Caching(entry: StateEntry, node: Node) returns (handle: StateRefMut<Node>)
      requires Lawful(keys) && entry.api == api && entry.key in api.store && NodeFits(keys, node)
      ensures fresh(handle) && handle.entry == entry && handle.codec == NodeCodec(keys) && handle.Refers(node)
    {
      NodesReadBack(keys);
      handle := new StateRefMut(entry, NodeCodec(keys));
      handle.lazy := Some(node);
    }

    method GetNodeMut(id: NodeId) returns (handle: StateRefMut<Node>)
      requires Valid() && id in nodes
      ensures fresh(handle) && fresh(handle.entry) && Handle(handle, id, nodes[id])
    {
      NodesReadBack(keys);
      var entry := api.LookupEntry(NodeKey(prefix, id));
      handle := new StateRefMut(entry.value, NodeCodec(keys));
    }

    /** Dropping a handle stores the node it stands for, and no other entry changes. */
    method DropHandle(id: NodeId, node: Node, handle: StateRefMut<Node>)
      requires Valid() && true == Handle(handle, id, node)
      modifies this, api, handle.entry
      ensures true == Valid()
      ensures handle.lazy.Some? ==> api.store == ByteStep(old(api.store), prefix, keys, Store(id, node))
      ensures handle.lazy.None? ==> api.store == old(api.store)
      ensures nodes == old(nodes)[id := node]
    {
      ghost var after := HandleStored(api.store, prefix, keys, nodes, id, node, handle.lazy.Some?);
      WriteHandle(NodeKey(prefix, id), node, handle);
      nodes := nodes[id := node];
    }

    /** The write-back of a handle, on the bytes. */
    method WriteHandle(key: bytes, node: Node, handle: StateRefMut<Node>)
      requires handle.Refers(node) && handle.entry.api == api && handle.entry.key == key
               && handle.codec == NodeCodec(keys)
      modifies api, handle.entry
      ensures key in old(api.store)
      ensures api.store == if handle.lazy.Some? then WriteBack(old(api.store), key, SerialNode(keys, node))
              else old(api.store)
    {
      handle.StoreMutations(node);
    }

    /** Two handles live at once, to different nodes: dropping the first leaves the second what it
        was, so both nodes are stored. */
    method DropTwo(a: NodeId, nodeA: Node, handleA: StateRefMut<Node>, b: NodeId, nodeB: Node,
                   handleB: StateRefMut<Node>)
      requires Valid() && true == Handle(handleA, a, nodeA)
      requires true == Handle(handleB, b, nodeB) && a != b
      modifies this, api, handleA.entry, handleB.entry
      ensures true == Valid()
      ensures nodes == old(nodes)[a := nodeA][b := nodeB]
    {
      NodeKeysDiffer(api.store, prefix, keys, nodes, a, b);
      DropHandle(a, nodeA, handleA);
      assert api.store[NodeKey(prefix, b)] == old(api.store)[NodeKey(prefix, b)];
      DropHandle(b, nodeB, handleB);
    }

    method DeleteNode(id: NodeId)
      requires Valid() && id in nodes
      modifies this, api
      ensures true == Valid()
      ensures api.store == ByteStep(old(api.store), prefix, keys, Delete(id))
      ensures nodes == old(nodes) - {id}
    {
      DeleteInBytes(api.store, prefix, keys, nodes, id);
      var _ := api.DeleteEntry(NodeKey(prefix, id));
      nodes := nodes - {id};
    }

    /** Deletes every entry under the prefix. */
    method DeleteEvery()
      requires Valid()
      modifies this, api
      ensures true == Valid()
      ensures api.store == ByteStep(old(api.store), prefix, keys, DeleteAll)
      ensures nodes == map[]
    {
      Cleared(api.store, prefix, IdCodec(), NodeCodec(keys));
      var _ := api.DeletePrefix(prefix);
      nodes := map[];
    }

    /** One operation of a tree, by handles: a node that is stored to is loaded first. */
    method Do(op: NodeOp)
      requires Valid() && OpFits(keys, op) && Allowed(nodes, op) && (op.Delete? ==> op.id in nodes)
      modifies this, api
      ensures true == Valid()
      ensures api.store == ByteStep(old(api.store), prefix, keys, op)
      ensures nodes == Perform(old(nodes), op)
    {
      match op {
        case Create(id, node) => var _ := CreateNode(id, node);
        case Store(id, node) => LoadAndStore(id, node);
        case Delete(id) => DeleteNode(id);
        case DeleteAll => DeleteEvery();
      }
    }

    method LoadAndStore(id: NodeId, node: Node)
      requires Valid() && id in nodes && NodeFits(keys, node)
      modifies this, api
      ensures true == Valid()
      ensures api.store == ByteStep(old(api.store), prefix, keys, Store(id, node))
      ensures nodes == old(nodes)[id := node]
    {
      var handle := Changed(id, node);
      DropHandle(id, node, handle);
    }

    /** A handle through which a node was assigned to. */
    method Changed(id: NodeId, node: Node) returns (handle: StateRefMut<Node>)
      requires Valid() && id in nodes && NodeFits(keys, node)
      ensures fresh(handle) && fresh(handle.entry) && true == Handle(handle, id, node)
      ensures handle.lazy == Some(node)
    {
      handle := GetNodeMut(id);
      handle.Assign(nodes[id], node);
    }
  }
}
