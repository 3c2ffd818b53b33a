/** `StateBuilder`: the counter that hands out prefixes, and the theorem that one flat store acts
    as a family of independent stores. */
module StateBuilding {
  import opened Common
  import opened Codecs
  import opened ContractState
  import opened StateContainers

  const PREFIX_SIZE: nat := 8

  /** The first prefix to hand out. */
  const INITIAL: nat := 2

  function Prefix(p: nat): (r: bytes)
    ensures |r| == PREFIX_SIZE
  {
    LeBytes(p, PREFIX_SIZE)
  }

  /** Where the counter is stored. */
  function NextKey(): (r: bytes)
    ensures |r| == PREFIX_SIZE
  {
    seq(PREFIX_SIZE, _ => 0)
  }

  lemma {:induction false} Zeros(n: nat)
    ensures LeBytes(0, n) == seq(n, _ => 0)
  {
    if n > 0 { Zeros(n - 1); }
  }

  function Limit(): nat { Pow256(PREFIX_SIZE) }

  /** The number that is handed out next. */
  function Next(store: Store): nat {
    if NextKey() in store then FromLe(store[NextKey()]) else INITIAL
  }

  /** The counter stands at `n`, and nothing is stored under a prefix not handed out yet. */
  ghost predicate AllocOk(store: Store, n: nat) {
    && INITIAL <= n < Limit()
    && (if NextKey() in store then store[NextKey()] == Prefix(n) else n == INITIAL)
    && forall key, p :: key in store && n <= p < Limit() ==> !HasPrefix(key, Prefix(p))
  }

  lemma NextIs(store: Store, n: nat)
    requires AllocOk(store, n)
    ensures Next(store) == n
  {
    LeRoundTrip(n, PREFIX_SIZE);
  }

  lemma PrefixInjective(p: nat, q: nat)
    requires p < Limit() && q < Limit() && Prefix(p) == Prefix(q)
    ensures p == q
  {
    LeInjective(p, q, PREFIX_SIZE);
  }

  /** The counter lies under no prefix that is handed out. */
  lemma CounterElsewhere(p: nat)
    requires 0 < p < Limit()
    ensures !HasPrefix(NextKey(), Prefix(p))
  {
    Zeros(PREFIX_SIZE);
    if HasPrefix(NextKey(), Prefix(p)) { PrefixInjective(0, p); }
  }

  /** Work under a prefix that was handed out leaves the counter alone. */
  lemma WorkKeepsCounter(s: Store, t: Store, p: nat, n: nat)
    requires AllocOk(s, n) && INITIAL <= p < n && OnlyUnder(s, t, Prefix(p))
    ensures AllocOk(t, n)
  {
    CounterElsewhere(p);
    assert NextKey() in s <==> NextKey() in t;
    forall key, q | key in t && n <= q < Limit() ensures !HasPrefix(key, Prefix(q)) {
      if Prefix(p) == Prefix(q) { PrefixInjective(p, q); }
    }
  }

  lemma Counted(store: Store, n: nat)
    requires AllocOk(store, n) && n + 1 < Limit()
    ensures true == AllocOk(store[NextKey() := Prefix(n + 1)], n + 1)
    ensures true == Unused(store[NextKey() := Prefix(n + 1)], Prefix(n))
  {
    forall p | n <= p < Limit() ensures !HasPrefix(NextKey(), Prefix(p)) { CounterElsewhere(p); }
  }

  class StateBuilder {
    const api: StateApi

    constructor (api: StateApi)
      ensures this.api == api
    {
      this.api := api;
    }

    /** A new prefix: nothing is stored under it, and only the counter changes. */
    method GetAndUpdateItemPrefix(ghost n: nat) returns (prefix: bytes)
      requires AllocOk(api.store, n) && n + 1 < Limit()
      modifies api
      ensures true == AllocOk(api.store, n + 1)
      ensures prefix == Prefix(n) && api.store == old(api.store)[NextKey() := Prefix(n + 1)]
      ensures true == Unused(api.store, prefix)
    {
      Counted(api.store, n);
      var entry := NextEntry(n);
      var data := entry.Read(PREFIX_SIZE);
      assert data == Prefix(n);
      LeRoundTrip(n, PREFIX_SIZE);
      var next := FromLe(data);
      entry.position := 0;
      WholeOverwrite(data, Prefix(next + 1));
      entry.Write(Prefix(next + 1));
      assert api.store == old(api.store)[NextKey() := Prefix(n + 1)];
      prefix := Prefix(next);
    }

    /** A new, empty map. */
    method NewMap<K(!new, ==), V(!new)>(keys: Codec<K>, values: Codec<V>, ghost n: nat) returns (m: StateMap<K, V>)
      requires AllocOk(api.store, n) && n + 1 < Limit() && Injective(keys) && Lawful(values)
      modifies api
      ensures AllocOk(api.store, n + 1) && api.store == old(api.store)[NextKey() := Prefix(n + 1)]
      ensures fresh(m) && m.api == api && m.prefix == Prefix(n) && m.Valid() && m.model == map[]
      ensures m.keys == keys && m.values == values
    {
      var prefix := GetAndUpdateItemPrefix(n);
      m := new StateMap(api, prefix, keys, values);
    }

    /** A new, empty set. */
    method NewSet<T(!new, ==)>(elements: Codec<T>, ghost n: nat) returns (s: StateSet<T>)
      requires AllocOk(api.store, n) && n + 1 < Limit() && Injective(elements)
      modifies api
      ensures AllocOk(api.store, n + 1) && api.store == old(api.store)[NextKey() := Prefix(n + 1)]
      ensures fresh(s) && s.api == api && s.prefix == Prefix(n) && s.Valid() && s.model == {}
      ensures s.elements == elements
    {
      var prefix := GetAndUpdateItemPrefix(n);
      s := new StateSet(api, prefix, elements);
    }

    /** The entry of the counter, created with the initial number if there is none. */
    method NextEntry(ghost n: nat) returns (entry: StateEntry)
      requires AllocOk(api.store, n)
      modifies api
      ensures fresh(entry) && entry.api == api && entry.key == NextKey() && entry.position == 0
      ensures api.store == old(api.store)[NextKey() := Prefix(n)]
    {
      var found := api.LookupEntry(NextKey());
      if found.None? {
        entry := api.CreateEntry(NextKey());
        WholeOverwrite([], Prefix(INITIAL));
        entry.Write(Prefix(INITIAL));
        entry.position := 0;
        assert api.store == old(api.store)[NextKey() := Prefix(n)];
      } else {
        entry := found.value;
        assert api.store == old(api.store)[NextKey() := Prefix(n)];
      }
    }
  }

  // ---------------------------------------------------------------- a family of stores

  /** The key of an entry of a container. */
  function At(p: nat, key: bytes): (r: bytes)
    ensures HasPrefix(r, Prefix(p))
  {
    Prefix(p) + key
  }

  /** What a contract does with its state: allocate a container, change an entry of one, clear
      one, or write the root. */
  datatype Op =
    | New
    | SetEntry(p: nat, key: bytes, content: bytes)
    | DropEntry(p: nat, key: bytes)
    | ClearAll(p: nat)
    | SetRoot(content: bytes)

  function Flat(store: Store, op: Op): Store {
    match op
    case New => store[NextKey() := Prefix(Next(store) + 1)]
    case SetEntry(p, key, content) => store[At(p, key) := content]
    case DropEntry(p, key) => store - {At(p, key)}
    case ClearAll(p) => Without(store, Prefix(p))
    case SetRoot(content) => store[[] := content]
  }

  /** Independent stores, numbered, and a root. */
  datatype Family = Family(root: Option<bytes>, parts: map<nat, map<bytes, bytes>>)

  predicate Legal(fam: Family, op: Op) { op.New? || op.SetRoot? || op.p in fam.parts }

  function Apart(fam: Family, op: Op): Family
    requires Legal(fam, op)
  {
    match op
    case New => fam.(parts := fam.parts[INITIAL + |fam.parts| := map[]])
    case SetEntry(p, key, content) => fam.(parts := fam.parts[p := fam.parts[p][key := content]])
    case DropEntry(p, key) => fam.(parts := fam.parts[p := fam.parts[p] - {key}])
    case ClearAll(p) => fam.(parts := fam.parts[p := map[]])
    case SetRoot(content) => fam.(root := Some(content))
  }

  /** The entries under a prefix are one store of the family. */
  ghost predicate PartIs(store: Store, p: nat, part: map<bytes, bytes>) {
    forall key {:trigger At(p, key)} ::
      (key in part <==> At(p, key) in store) && (key in part ==> store[At(p, key)] == part[key])
  }

  ghost predicate Refines(store: Store, fam: Family) {
    && AllocOk(store, INITIAL + |fam.parts|)
    && fam.root == (if [] in store then Some(store[[]]) else None)
    && (forall p :: p in fam.parts <==> INITIAL <= p < INITIAL + |fam.parts|)
    && (forall p :: p in fam.parts ==> PartIs(store, p, fam.parts[p]))
  }

  lemma PartsUntouched(s: Store, t: Store, fam: Family, p: nat)
    requires Refines(s, fam) && OnlyUnder(s, t, Prefix(p)) && p in fam.parts
    ensures AllocOk(t, INITIAL + |fam.parts|)
    ensures forall q :: q in fam.parts && q != p ==> PartIs(t, q, fam.parts[q])
    ensures fam.root == if [] in t then Some(t[[]]) else None
  {
    WorkKeepsCounter(s, t, p, INITIAL + |fam.parts|);
    forall q | q in fam.parts && q != p ensures PartIs(t, q, fam.parts[q]) {
      if Prefix(p) == Prefix(q) { PrefixInjective(p, q); }
      Isolated(s, t, Prefix(p), Prefix(q));
      assert PartIs(s, q, fam.parts[q]);
    }
  }

  lemma PartReplaced(s: Store, t: Store, fam: Family, p: nat, part: map<bytes, bytes>)
    requires Refines(s, fam) && OnlyUnder(s, t, Prefix(p)) && p in fam.parts && PartIs(t, p, part)
    ensures true == Refines(t, fam.(parts := fam.parts[p := part]))
  {
    PartsUntouched(s, t, fam, p);
    assert fam.parts[p := part].Keys == fam.parts.Keys;
    assert |fam.parts[p := part]| == |fam.parts[p := part].Keys| == |fam.parts|;
  }

  /** Each step on the flat store is the step on the family. */
  lemma StepRefines(store: Store, fam: Family, op: Op)
    requires Refines(store, fam) && Legal(fam, op) && (op.New? ==> INITIAL + |fam.parts| + 1 < Limit())
    ensures Refines(Flat(store, op), Apart(fam, op))
  {
    match op
    case New => NewRefines(store, fam);
    case SetRoot(content) => RootRefines(store, fam, content);
    case SetEntry(p, key, content) => SetRefines(store, fam, p, key, content);
    case DropEntry(p, key) => DropRefines(store, fam, p, key);
    case ClearAll(p) =>
      var t := Without(store, Prefix(p));
      PartReplaced(store, t, fam, p, map[]);
  }

  lemma SetRefines(store: Store, fam: Family, p: nat, key: bytes, content: bytes)
    requires Refines(store, fam) && p in fam.parts
    ensures Refines(Flat(store, SetEntry(p, key, content)), Apart(fam, SetEntry(p, key, content)))
  {
    var t := store[At(p, key) := content];
    var part := fam.parts[p];
    assert PartIs(store, p, part);
    forall k ensures k in part[key := content] <==> At(p, k) in t
             ensures k in part[key := content] ==> t[At(p, k)] == part[key := content][k]
    {
      SameTail(Prefix(p), k, key);
    }
    PartReplaced(store, t, fam, p, part[key := content]);
  }

  lemma DropRefines(store: Store, fam: Family, p: nat, key: bytes)
    requires Refines(store, fam) && p in fam.parts
    ensures Refines(Flat(store, DropEntry(p, key)), Apart(fam, DropEntry(p, key)))
  {
    var t := store - {At(p, key)};
    var part := fam.parts[p];
    assert PartIs(store, p, part);
    PartDropped(store, t, p, part, key);
    PartReplaced(store, t, fam, p, part - {key});
  }

  lemma PartDropped(store: Store, t: Store, p: nat, part: map<bytes, bytes>, key: bytes)
    requires PartIs(store, p, part) && t == store - {At(p, key)}
    ensures true == PartIs(t, p, part - {key})
  {
    forall k ensures k in part - {key} <==> At(p, k) in t
             ensures k in part - {key} ==> t[At(p, k)] == part[k]
    {
      SameTail(Prefix(p), k, key);
    }
  }

  lemma SameTail(p: bytes, a: bytes, b: bytes)
    ensures p + a == p + b <==> a == b
  {
    assert (p + a)[|p|..] == a && (p + b)[|p|..] == b;
  }

  lemma RootRefines(store: Store, fam: Family, content: bytes)
    requires Refines(store, fam)
    ensures Refines(store[[] := content], fam.(root := Some(content)))
  {
    var t := store[[] := content];
    forall p | p in fam.parts ensures PartIs(t, p, fam.parts[p]) {
      assert PartIs(store, p, fam.parts[p]);
    }
  }

  lemma NewRefines(store: Store, fam: Family)
    requires Refines(store, fam) && INITIAL + |fam.parts| + 1 < Limit()
    ensures Refines(Flat(store, New), Apart(fam, New))
  {
    var n := INITIAL + |fam.parts|;
    NextIs(store, n);
    NewAt(store, fam, n, fam.parts[n := map[]]);
  }

  lemma NewAt(store: Store, fam: Family, n: nat, parts: map<nat, map<bytes, bytes>>)
    requires Refines(store, fam) && n == INITIAL + |fam.parts| && n + 1 < Limit() && parts == fam.parts[n := map[]]
    ensures Refines(store[NextKey() := Prefix(n + 1)], Family(fam.root, parts))
  {
    assert parts.Keys == fam.parts.Keys + {n};
    Counted(store, n);
    assert PartIs(store, n, map[]);
    forall p | p in parts ensures PartIs(store[NextKey() := Prefix(n + 1)], p, parts[p]) {
      CounterApart(store, p, parts[p], Prefix(n + 1));
    }
  }

  lemma NewPartCounts(fam: Family)
    requires INITIAL + |fam.parts| !in fam.parts
    ensures |Apart(fam, New).parts| == |fam.parts| + 1
  {
    assert Apart(fam, New).parts.Keys == fam.parts.Keys + {INITIAL + |fam.parts|};
  }

  /** Changing the counter changes no container. */
  lemma CounterApart(store: Store, p: nat, part: map<bytes, bytes>, content: bytes)
    requires 0 < p < Limit() && PartIs(store, p, part)
    ensures PartIs(store[NextKey() := content], p, part)
  {
    CounterElsewhere(p);
  }

  // ---------------------------------------------------------------- whole runs

  function FlatRun(store: Store, ops: seq<Op>): Store
    decreases |ops|
  {
    if ops == [] then store else FlatRun(Flat(store, ops[0]), ops[1..])
  }

  /** The run on independent stores, or nothing if it uses a store it has not allocated. */
  function ApartRun(fam: Family, ops: seq<Op>): Option<Family>
    decreases |ops|
  {
    if ops == [] then Some(fam)
    else if Legal(fam, ops[0]) then ApartRun(Apart(fam, ops[0]), ops[1..])
    else None
  }

  lemma {:induction false} PartsGrow(fam: Family, ops: seq<Op>)
    requires ApartRun(fam, ops).Some?
    ensures |fam.parts| <= |ApartRun(fam, ops).value.parts|
    decreases |ops|
  {
    if ops != [] {
      var next := Apart(fam, ops[0]);
      PartsGrow(next, ops[1..]);
      assert fam.parts.Keys <= next.parts.Keys;
      SubsetSize(fam.parts.Keys, next.parts.Keys);
    }
  }

  lemma SubsetSize<T>(a: set<T>, b: set<T>)
    requires a <= b
    ensures |a| <= |b|
  {
    assert b == a + (b - a);
  }

  /** Over every run that allocates fewer than 2^64 - 2 containers, one flat store acts as a
      family of independent stores: each entry lies in the container it was put in. */
  lemma {:induction false} RunRefines(store: Store, fam: Family, ops: seq<Op>)
    requires Refines(store, fam) && ApartRun(fam, ops).Some?
    requires INITIAL + |ApartRun(fam, ops).value.parts| < Limit()
    ensures Refines(FlatRun(store, ops), ApartRun(fam, ops).value)
    decreases |ops|
  {
    if ops != [] {
      PartsGrow(Apart(fam, ops[0]), ops[1..]);
      if ops[0].New? { NewPartCounts(fam); }
      StepRefines(store, fam, ops[0]);
      RunRefines(Flat(store, ops[0]), Apart(fam, ops[0]), ops[1..]);
    }
  }

  /** A contract starts with an empty state. */
  lemma EmptyRefines()
    ensures Refines(map[], Family(None, map[]))
  {
  }

  /** Every state that a contract can reach is a family of independent stores. */
  lemma ReachableRefines(ops: seq<Op>)
    requires ApartRun(Family(None, map[]), ops).Some?
    requires INITIAL + |ApartRun(Family(None, map[]), ops).value.parts| < Limit()
    ensures Refines(FlatRun(map[], ops), ApartRun(Family(None, map[]), ops).value)
  {
    EmptyRefines();
    RunRefines(map[], Family(None, map[]), ops);
  }
}
