/** Any number of maps and sets in one store: whatever is called in whatever order, and whenever new
    ones are handed out, each is what its own calls make of it. */
module Containers {
  import opened Common
  import opened Codecs
  import opened ContractState
  import opened StateContainers
  import opened StateBuilding

  /** Calls that change a map or a set. `Mutate` goes through a handle, which is then dropped. */
  datatype MapCall<K, V> = Insert(key: K, value: V) | Remove(key: K) | Mutate(key: K, value: V) | ClearMap
  datatype SetCall<T> = Add(element: T) | Delete(element: T) | ClearSet

  /** A new container, or a call of one of the maps or sets there are. */
  datatype Call<K, V, T> = NewMap | NewSet | OnMap(i: nat, mapCall: MapCall<K, V>) | OnSet(j: nat, setCall: SetCall<T>)

  /** What calls return. */
  datatype Answer<V> = Previous(value: Option<V>) | Changed(changed: bool) | Nothing

  // ---------------------------------------------------------------- independent maps and sets

  function MapAfter<K, V>(m: map<K, V>, c: MapCall<K, V>): map<K, V> {
    match c
    case Insert(k, v) => m[k := v]
    case Remove(k) => m - {k}
    case Mutate(k, v) => if k in m then m[k := v] else m
    case ClearMap => map[]
  }

  function MapAnswer<K, V>(m: map<K, V>, c: MapCall<K, V>): Answer<V> {
    match c
    case Insert(k, _) => Previous(if k in m then Some(m[k]) else None)
    case Remove(k) => Previous(if k in m then Some(m[k]) else None)
    case Mutate(k, _) => Changed(k in m)
    case ClearMap => Nothing
  }

  function SetAfter<T>(s: set<T>, c: SetCall<T>): set<T> {
    match c
    case Add(t) => s + {t}
    case Delete(t) => s - {t}
    case ClearSet => {}
  }

  function SetAnswer<V, T>(s: set<T>, c: SetCall<T>): Answer<V> {
    match c
    case Add(t) => Changed(t !in s)
    case Delete(t) => Changed(t in s)
    case ClearSet => Nothing
  }

  /** Maps and sets by themselves. A call of one that does not exist does nothing. */
  datatype Models<K, V, T> = Models(maps: seq<map<K, V>>, sets: seq<set<T>>)

  function CallOn<K, V, T>(ms: Models<K, V, T>, c: Call<K, V, T>): Models<K, V, T> {
    match c
    case NewMap => ms.(maps := ms.maps + [map[]])
    case NewSet => ms.(sets := ms.sets + [{}])
    case OnMap(i, call) => if i < |ms.maps| then ms.(maps := ms.maps[i := MapAfter(ms.maps[i], call)]) else ms
    case OnSet(j, call) => if j < |ms.sets| then ms.(sets := ms.sets[j := SetAfter(ms.sets[j], call)]) else ms
  }

  function AnswerOf<K, V, T>(ms: Models<K, V, T>, c: Call<K, V, T>): Answer<V> {
    match c
    case OnMap(i, call) => if i < |ms.maps| then MapAnswer(ms.maps[i], call) else Nothing
    case OnSet(j, call) => if j < |ms.sets| then SetAnswer(ms.sets[j], call) else Nothing
    case _ => Nothing
  }

  function CallAll<K, V, T>(ms: Models<K, V, T>, calls: seq<Call<K, V, T>>): Models<K, V, T> {
    if calls == [] then ms else CallOn(CallAll(ms, calls[..|calls| - 1]), calls[|calls| - 1])
  }

  /** What becomes of map `i` when only its own calls are made. */
  function MapAlone<K, V, T>(m: map<K, V>, i: nat, calls: seq<Call<K, V, T>>): map<K, V> {
    if calls == [] then m
    else
      var before, c := MapAlone(m, i, calls[..|calls| - 1]), calls[|calls| - 1];
      if c.OnMap? && c.i == i then MapAfter(before, c.mapCall) else before
  }

  function SetAlone<K, V, T>(s: set<T>, j: nat, calls: seq<Call<K, V, T>>): set<T> {
    if calls == [] then s
    else
      var before, c := SetAlone(s, j, calls[..|calls| - 1]), calls[|calls| - 1];
      if c.OnSet? && c.j == j then SetAfter(before, c.setCall) else before
  }

  /** Over every sequence of calls, each container becomes what its own calls make of it. */
  lemma {:induction false} EachAlone<K, V, T>(ms: Models<K, V, T>, calls: seq<Call<K, V, T>>)
    ensures var after := CallAll(ms, calls);
            && |after.maps| >= |ms.maps| && |after.sets| >= |ms.sets|
            && (forall i :: 0 <= i < |ms.maps| ==> after.maps[i] == MapAlone(ms.maps[i], i, calls))
            && (forall j :: 0 <= j < |ms.sets| ==> after.sets[j] == SetAlone(ms.sets[j], j, calls))
    decreases |calls|
  {
    if calls != [] { EachAlone(ms, calls[..|calls| - 1]); }
  }

  /** The calls up to some point, and from there on. */
  lemma {:induction false} CallsSplit<K, V, T>(ms: Models<K, V, T>, first: seq<Call<K, V, T>>, more: seq<Call<K, V, T>>)
    ensures CallAll(ms, first + more) == CallAll(CallAll(ms, first), more)
    decreases |more|
  {
    if more == [] {
      assert first + more == first;
    } else {
      var n := |more| - 1;
      CallsSplit(ms, first, more[..n]);
      assert (first + more)[..|first| + n] == first + more[..n];
    }
  }

  /** A map that was handed out on the way begins empty, and then is what its own calls make of it. */
  lemma NewMapAlone<K, V, T>(ms: Models<K, V, T>, first: seq<Call<K, V, T>>, more: seq<Call<K, V, T>>)
    ensures var i := |CallAll(ms, first).maps|;
            var after := CallAll(ms, first + [NewMap] + more);
            |after.maps| > i && after.maps[i] == MapAlone(map[], i, more)
  {
    var one: seq<Call<K, V, T>> := [NewMap];
    CallsSplit(ms, first, one);
    assert one[..0] == [];
    CallsSplit(ms, first + one, more);
    EachAlone(CallAll(ms, first + one), more);
  }

  /** Every call so far was answered as by the containers alone. */
  ghost predicate Answered<K, V, T>(ms: Models<K, V, T>, calls: seq<Call<K, V, T>>, answers: seq<Answer<V>>)
    requires |answers| <= |calls|
  {
    forall n :: 0 <= n < |answers| ==> answers[n] == AnswerOf(CallAll(ms, calls[..n]), calls[n])
  }

  lemma OneMoreCall<K, V, T>(ms: Models<K, V, T>, calls: seq<Call<K, V, T>>, answers: seq<Answer<V>>, r: Answer<V>)
    requires |answers| < |calls| && Answered(ms, calls, answers)
    requires r == AnswerOf(CallAll(ms, calls[..|answers|]), calls[|answers|])
    ensures true == Answered(ms, calls, answers + [r])
    ensures CallOn(CallAll(ms, calls[..|answers|]), calls[|answers|]) == CallAll(ms, calls[..|answers| + 1])
  {
    CallAllNext(ms, calls, |answers|);
  }

  lemma CallAllNext<K, V, T>(ms: Models<K, V, T>, calls: seq<Call<K, V, T>>, n: nat)
    requires n < |calls|
    ensures CallAll(ms, calls[..n + 1]) == CallOn(CallAll(ms, calls[..n]), calls[n])
  {
    assert calls[..n + 1][..n] == calls[..n];
  }

  // ---------------------------------------------------------------- parts of one store

  /** The prefixes of the containers, and what they hold. */
  datatype MapPart<K, V> = MapPart(prefix: bytes, model: map<K, V>)
  datatype SetPart<T> = SetPart(prefix: bytes, model: set<T>)
  datatype Parts<K, V, T> = Parts(maps: seq<MapPart<K, V>>, sets: seq<SetPart<T>>)

  /** How the containers write their contents. */
  datatype Codings<!K, !V, !T> = Codings(keys: Codec<K>, values: Codec<V>, elements: Codec<T>)

  function ModelsOf<K, V, T>(ps: Parts<K, V, T>): (ms: Models<K, V, T>)
    ensures |ms.maps| == |ps.maps| && |ms.sets| == |ps.sets|
  {
    Models(seq(|ps.maps|, i requires 0 <= i < |ps.maps| => ps.maps[i].model),
           seq(|ps.sets|, j requires 0 <= j < |ps.sets| => ps.sets[j].model))
  }

  /** What a call makes of the parts, if `next` is handed out next. */
  function PartsAfter<K, V, T>(ps: Parts<K, V, T>, c: Call<K, V, T>, next: nat): Parts<K, V, T> {
    match c
    case NewMap => ps.(maps := ps.maps + [MapPart(Prefix(next), map[])])
    case NewSet => ps.(sets := ps.sets + [SetPart(Prefix(next), {})])
    case OnMap(i, call) =>
      if i < |ps.maps| then
        ps.(maps := ps.maps[i := MapPart(ps.maps[i].prefix, MapAfter(ps.maps[i].model, call))])
      else ps
    case OnSet(j, call) =>
      if j < |ps.sets| then
        ps.(sets := ps.sets[j := SetPart(ps.sets[j].prefix, SetAfter(ps.sets[j].model, call))])
      else ps
  }

  lemma ModelsAfter<K, V, T>(ps: Parts<K, V, T>, c: Call<K, V, T>, next: nat)
    ensures ModelsOf(PartsAfter(ps, c, next)) == CallOn(ModelsOf(ps), c)
  {
    var before, after := CallOn(ModelsOf(ps), c), ModelsOf(PartsAfter(ps, c, next));
    assert after.maps == before.maps;
    assert after.sets == before.sets;
  }

  /** The prefix was handed out before `next`. */
  ghost predicate Handed(prefix: bytes, next: nat) {
    exists p :: INITIAL <= p < next && prefix == Prefix(p)
  }

  ghost predicate MapOk<K(!new), V(!new), T(!new)>(store: Store, cs: Codings<K, V, T>, part: MapPart<K, V>, next: nat) {
    Handed(part.prefix, next) && Represents(store, part.prefix, cs.keys, cs.values, part.model)
  }

  ghost predicate SetOk<K(!new), V(!new), T(!new)>(store: Store, cs: Codings<K, V, T>, part: SetPart<T>, next: nat) {
    Handed(part.prefix, next) && RepresentsSet(store, part.prefix, cs.elements, part.model)
  }

  ghost predicate PrefixesDiffer<K, V, T>(ps: Parts<K, V, T>) {
    && (forall i, j :: 0 <= i < j < |ps.maps| ==> ps.maps[i].prefix != ps.maps[j].prefix)
    && (forall i, j :: 0 <= i < j < |ps.sets| ==> ps.sets[i].prefix != ps.sets[j].prefix)
    && (forall i, j :: 0 <= i < |ps.maps| && 0 <= j < |ps.sets| ==> ps.maps[i].prefix != ps.sets[j].prefix)
  }

  ghost predicate PartsOk<K(!new), V(!new), T(!new)>(store: Store, cs: Codings<K, V, T>, ps: Parts<K, V, T>,
                                                     next: nat) {
    && AllocOk(store, next) && PrefixesDiffer(ps)
    && Injective(cs.keys) && Lawful(cs.values) && Injective(cs.elements)
    && (forall i {:trigger ps.maps[i]} :: 0 <= i < |ps.maps| ==> MapOk(store, cs, ps.maps[i], next))
    && (forall j {:trigger ps.sets[j]} :: 0 <= j < |ps.sets| ==> SetOk(store, cs, ps.sets[j], next))
  }

  lemma HandedSize(prefix: bytes, next: nat)
    requires Handed(prefix, next)
    ensures |prefix| == PREFIX_SIZE
  {
  }

  /** Work under the prefix of one container keeps another one. */
  lemma MapKept<K(!new), V(!new), T(!new)>(s: Store, t: Store, cs: Codings<K, V, T>, part: MapPart<K, V>, next: nat,
                                           p: bytes)
    requires MapOk(s, cs, part, next) && Handed(p, next) && p != part.prefix && OnlyUnder(s, t, p)
    ensures true == MapOk(t, cs, part, next)
  {
    HandedSize(p, next);
    HandedSize(part.prefix, next);
    Untouched(s, t, p, part.prefix, cs.keys, cs.values, part.model);
  }

  lemma SetKept<K(!new), V(!new), T(!new)>(s: Store, t: Store, cs: Codings<K, V, T>, part: SetPart<T>, next: nat,
                                           p: bytes)
    requires SetOk(s, cs, part, next) && Handed(p, next) && p != part.prefix && OnlyUnder(s, t, p)
    ensures true == SetOk(t, cs, part, next)
  {
    HandedSize(p, next);
    HandedSize(part.prefix, next);
    SetUntouched(s, t, p, part.prefix, cs.elements, part.model);
  }

  lemma CounterKept(s: Store, t: Store, p: bytes, next: nat)
    requires AllocOk(s, next) && Handed(p, next) && OnlyUnder(s, t, p)
    ensures true == AllocOk(t, next)
  {
    var n :| INITIAL <= n < next && p == Prefix(n);
    WorkKeepsCounter(s, t, n, next);
  }

  /** A call of map `i` changes that part only. */
  lemma MapChanged<K(!new), V(!new), T(!new)>(s: Store, t: Store, cs: Codings<K, V, T>, ps: Parts<K, V, T>, i: nat,
                                              model: map<K, V>, next: nat)
    returns (after: Parts<K, V, T>)
    requires PartsOk(s, cs, ps, next) && i < |ps.maps| && OnlyUnder(s, t, ps.maps[i].prefix)
    requires Represents(t, ps.maps[i].prefix, cs.keys, cs.values, model)
    ensures after == ps.(maps := ps.maps[i := MapPart(ps.maps[i].prefix, model)])
    ensures true == PartsOk(t, cs, after, next)
  {
    var p := ps.maps[i].prefix;
    after := ps.(maps := ps.maps[i := MapPart(p, model)]);
    assert MapOk(s, cs, ps.maps[i], next);
    CounterKept(s, t, p, next);
    forall k | 0 <= k < |after.maps| ensures MapOk(t, cs, after.maps[k], next) {
      if k != i {
        assert MapOk(s, cs, ps.maps[k], next);
        MapKept(s, t, cs, ps.maps[k], next, p);
      }
    }
    forall j | 0 <= j < |after.sets| ensures SetOk(t, cs, after.sets[j], next) {
      assert SetOk(s, cs, ps.sets[j], next);
      SetKept(s, t, cs, ps.sets[j], next, p);
    }
  }

  /** A call of set `j` changes that part only. */
  lemma SetChanged<K(!new), V(!new), T(!new)>(s: Store, t: Store, cs: Codings<K, V, T>, ps: Parts<K, V, T>, j: nat,
                                              model: set<T>, next: nat)
    returns (after: Parts<K, V, T>)
    requires PartsOk(s, cs, ps, next) && j < |ps.sets| && OnlyUnder(s, t, ps.sets[j].prefix)
    requires RepresentsSet(t, ps.sets[j].prefix, cs.elements, model)
    ensures after == ps.(sets := ps.sets[j := SetPart(ps.sets[j].prefix, model)])
    ensures true == PartsOk(t, cs, after, next)
  {
    var p := ps.sets[j].prefix;
    after := ps.(sets := ps.sets[j := SetPart(p, model)]);
    assert SetOk(s, cs, ps.sets[j], next);
    CounterKept(s, t, p, next);
    forall i | 0 <= i < |after.maps| ensures MapOk(t, cs, after.maps[i], next) {
      assert MapOk(s, cs, ps.maps[i], next);
      MapKept(s, t, cs, ps.maps[i], next, p);
    }
    forall k | 0 <= k < |after.sets| ensures SetOk(t, cs, after.sets[k], next) {
      if k != j {
        assert SetOk(s, cs, ps.sets[k], next);
        SetKept(s, t, cs, ps.sets[k], next, p);
      }
    }
  }

  /** Handing out a prefix changes nothing in a container. */
  lemma MapStays<K(!new), V(!new), T(!new)>(s: Store, cs: Codings<K, V, T>, part: MapPart<K, V>, next: nat)
    requires MapOk(s, cs, part, next) && next < Limit()
    ensures true == MapOk(s[NextKey() := Prefix(next + 1)], cs, part, next + 1)
    ensures part.prefix != Prefix(next)
  {
    var p :| INITIAL <= p < next && part.prefix == Prefix(p);
    CounterElsewhere(p);
    if Prefix(p) == Prefix(next) { PrefixInjective(p, next); }
  }

  lemma SetStays<K(!new), V(!new), T(!new)>(s: Store, cs: Codings<K, V, T>, part: SetPart<T>, next: nat)
    requires SetOk(s, cs, part, next) && next < Limit()
    ensures true == SetOk(s[NextKey() := Prefix(next + 1)], cs, part, next + 1)
    ensures part.prefix != Prefix(next)
  {
    var p :| INITIAL <= p < next && part.prefix == Prefix(p);
    CounterElsewhere(p);
    if Prefix(p) == Prefix(next) { PrefixInjective(p, next); }
  }

  /** After a prefix was handed out, before something is under it. */
  lemma AllStay<K(!new), V(!new), T(!new)>(s: Store, t: Store, cs: Codings<K, V, T>, ps: Parts<K, V, T>, next: nat)
    requires PartsOk(s, cs, ps, next) && next + 1 < Limit() && t == s[NextKey() := Prefix(next + 1)]
    ensures true == PartsOk(t, cs, ps, next + 1)
    ensures forall i :: 0 <= i < |ps.maps| ==> ps.maps[i].prefix != Prefix(next)
    ensures forall j :: 0 <= j < |ps.sets| ==> ps.sets[j].prefix != Prefix(next)
  {
    Counted(s, next);
    forall i | 0 <= i < |ps.maps| ensures MapOk(t, cs, ps.maps[i], next + 1) && ps.maps[i].prefix != Prefix(next) {
      assert MapOk(s, cs, ps.maps[i], next);
      MapStays(s, cs, ps.maps[i], next);
    }
    forall j | 0 <= j < |ps.sets| ensures SetOk(t, cs, ps.sets[j], next + 1) && ps.sets[j].prefix != Prefix(next) {
      assert SetOk(s, cs, ps.sets[j], next);
      SetStays(s, cs, ps.sets[j], next);
    }
  }

  lemma MapAdded<K(!new), V(!new), T(!new)>(s: Store, t: Store, cs: Codings<K, V, T>, ps: Parts<K, V, T>, next: nat)
    returns (after: Parts<K, V, T>)
    requires PartsOk(s, cs, ps, next) && next + 1 < Limit() && t == s[NextKey() := Prefix(next + 1)]
    requires Represents(t, Prefix(next), cs.keys, cs.values, map[])
    ensures after == ps.(maps := ps.maps + [MapPart(Prefix(next), map[])])
    ensures true == PartsOk(t, cs, after, next + 1)
  {
    AllStay(s, t, cs, ps, next);
    after := ps.(maps := ps.maps + [MapPart(Prefix(next), map[])]);
    assert Handed(Prefix(next), next + 1);
    forall i | 0 <= i < |after.maps| ensures MapOk(t, cs, after.maps[i], next + 1) {
      if i < |ps.maps| { assert after.maps[i] == ps.maps[i]; }
    }
  }

  lemma SetAdded<K(!new), V(!new), T(!new)>(s: Store, t: Store, cs: Codings<K, V, T>, ps: Parts<K, V, T>, next: nat)
    returns (after: Parts<K, V, T>)
    requires PartsOk(s, cs, ps, next) && next + 1 < Limit() && t == s[NextKey() := Prefix(next + 1)]
    requires RepresentsSet(t, Prefix(next), cs.elements, {})
    ensures after == ps.(sets := ps.sets + [SetPart(Prefix(next), {})])
    ensures true == PartsOk(t, cs, after, next + 1)
  {
    AllStay(s, t, cs, ps, next);
    after := ps.(sets := ps.sets + [SetPart(Prefix(next), {})]);
    assert Handed(Prefix(next), next + 1);
    forall j | 0 <= j < |after.sets| ensures SetOk(t, cs, after.sets[j], next + 1) {
      if j < |ps.sets| { assert after.sets[j] == ps.sets[j]; }
    }
  }

  // ---------------------------------------------------------------- the containers

  predicate MapCallFits<K, V>(keys: Codec<K>, values: Codec<V>, c: MapCall<K, V>) {
    match c
    case Insert(k, v) => keys.fits(k) && values.fits(v)
    case Remove(k) => keys.fits(k)
    case Mutate(k, v) => keys.fits(k) && values.fits(v)
    case ClearMap => true
  }

  predicate SetCallFits<T>(elements: Codec<T>, c: SetCall<T>) {
    match c
    case Add(t) => elements.fits(t)
    case Delete(t) => elements.fits(t)
    case ClearSet => true
  }

  predicate Fits<K, V, T>(cs: Codings<K, V, T>, c: Call<K, V, T>) {
    match c
    case OnMap(_, call) => MapCallFits(cs.keys, cs.values, call)
    case OnSet(_, call) => SetCallFits(cs.elements, call)
    case _ => true
  }

  /** One call of a map. */
  method CallMap<K(!new, ==), V(!new)>(m: StateMap<K, V>, c: MapCall<K, V>) returns (r: Answer<V>)
    requires m.Valid() && MapCallFits(m.keys, m.values, c)
    modifies m, m.api
    ensures true == m.Valid()
    ensures true == OnlyUnder(old(m.api.store), m.api.store, m.prefix)
    ensures m.model == MapAfter(old(m.model), c) && r == MapAnswer(old(m.model), c)
  {
    match c {
      case Insert(k, v) => var previous := m.Insert(k, v); r := Previous(previous);
      case Remove(k) => var previous := m.RemoveAndGet(k); r := Previous(previous);
      case Mutate(k, v) => var found := m.Mutate(k, v); r := Changed(found);
      case ClearMap => m.ClearFlat(); r := Nothing;
    }
  }

  /** One call of a set. */
  method CallSet<V, T(!new, ==)>(s: StateSet<T>, c: SetCall<T>) returns (r: Answer<V>)
    requires s.Valid() && SetCallFits(s.elements, c)
    modifies s, s.api
    ensures true == s.Valid()
    ensures true == OnlyUnder(old(s.api.store), s.api.store, s.prefix)
    ensures s.model == SetAfter(old(s.model), c) && r == SetAnswer(old(s.model), c)
  {
    match c {
      case Add(t) => var added := s.Insert(t); r := Changed(added);
      case Delete(t) => var removed := s.Remove(t); r := Changed(removed);
      case ClearSet => s.Clear(); r := Nothing;
    }
  }

  /** The maps and sets of a contract. */
  class Containers<K(!new, ==), V(!new), T(!new, ==)> {
    const builder: StateBuilder
    const codings: Codings<K, V, T>
    var maps: seq<StateMap<K, V>>
    var sets: seq<StateSet<T>>
    ghost var Repr: set<object>
    /** Their prefixes and what they hold, and the number that is handed out next. */
    ghost var parts: Parts<K, V, T>
    ghost var next: nat

    constructor (builder: StateBuilder, codings: Codings<K, V, T>, ghost next: nat)
      requires AllocOk(builder.api.store, next)
      requires Injective(codings.keys) && Lawful(codings.values) && Injective(codings.elements)
      ensures this.builder == builder && this.codings == codings && this.next == next
      ensures Valid() && ModelsOf(parts) == Models([], []) && Repr == {}
    {
      this.builder, this.codings, this.maps, this.sets, this.next := builder, codings, [], [], next;
      parts, Repr := Parts([], []), {};
    }

    /** The objects are the parts, but for what map `i` and set `j` hold. */
    ghost predicate TiedBut(i: nat, j: nat)
      reads this, maps, sets
    {
      && |maps| == |parts.maps| && |sets| == |parts.sets|
      && (forall k :: 0 <= k < |maps| ==>
            && maps[k].api == builder.api && maps[k].keys == codings.keys && maps[k].values == codings.values
            && maps[k].prefix == parts.maps[k].prefix && (k != i ==> maps[k].model == parts.maps[k].model))
      && (forall k :: 0 <= k < |sets| ==>
            && sets[k].api == builder.api && sets[k].elements == codings.elements
            && sets[k].prefix == parts.sets[k].prefix && (k != j ==> sets[k].model == parts.sets[k].model))
    }

    ghost predicate Tied()
      reads this, maps, sets
    {
      TiedBut(|maps|, |sets|)
    }

    ghost predicate Valid()
      reads this, maps, sets, builder.api
    {
      && (forall i :: 0 <= i < |maps| ==> maps[i] in Repr) && (forall j :: 0 <= j < |sets| ==> sets[j] in Repr)
      && Tied() && PartsOk(builder.api.store, codings, parts, next)
    }

    /** A new map, which is not yet one of the maps. */
    method AllocateMap() returns (m: StateMap<K, V>, ghost after: Parts<K, V, T>)
      requires true == PartsOk(builder.api.store, codings, parts, next)
      requires next + 1 < Limit()
      modifies builder.api
      ensures fresh(m) && m.api == builder.api && m.keys == codings.keys && m.values == codings.values
      ensures after == parts.(maps := parts.maps + [MapPart(m.prefix, m.model)]) == PartsAfter(parts, NewMap, next)
      ensures true == PartsOk(builder.api.store, codings, after, next + 1)
    {
      ghost var s := builder.api.store;
      m := builder.NewMap(codings.keys, codings.values, next);
      after := MapAdded(s, builder.api.store, codings, parts, next);
    }

    method AllocateSet() returns (m: StateSet<T>, ghost after: Parts<K, V, T>)
      requires true == PartsOk(builder.api.store, codings, parts, next)
      requires next + 1 < Limit()
      modifies builder.api
      ensures fresh(m) && m.api == builder.api && m.elements == codings.elements
      ensures after == parts.(sets := parts.sets + [SetPart(m.prefix, m.model)]) == PartsAfter(parts, NewSet, next)
      ensures true == PartsOk(builder.api.store, codings, after, next + 1)
    {
      ghost var s := builder.api.store;
      m := builder.NewSet(codings.elements, next);
      after := SetAdded(s, builder.api.store, codings, parts, next);
    }

    method AppendMap(m: StateMap<K, V>, ghost after: Parts<K, V, T>)
      requires true == Tied()
      requires m.api == builder.api && m.keys == codings.keys && m.values == codings.values
      requires after == parts.(maps := parts.maps + [MapPart(m.prefix, m.model)])
      modifies this`maps, this`parts
      ensures true == Tied()
      ensures maps == old(maps) + [m] && parts == after
    {
      maps, parts := maps + [m], after;
    }

    method AppendSet(m: StateSet<T>, ghost after: Parts<K, V, T>)
      requires true == Tied()
      requires m.api == builder.api && m.elements == codings.elements
      requires after == parts.(sets := parts.sets + [SetPart(m.prefix, m.model)])
      modifies this`sets, this`parts
      ensures true == Tied()
      ensures sets == old(sets) + [m] && parts == after
    {
      sets, parts := sets + [m], after;
    }

    method AddMap()
      requires Valid() && next + 1 < Limit()
      modifies this, builder.api
      ensures true == Valid()
      ensures next == old(next) + 1 && fresh(Repr - old(Repr))
      ensures parts == PartsAfter(old(parts), NewMap, old(next))
    {
      var m, after := AllocateMap();
      next, Repr := next + 1, Repr + {m};
      AppendMap(m, after);
    }

    method AddSet()
      requires Valid() && next + 1 < Limit()
      modifies this, builder.api
      ensures true == Valid()
      ensures next == old(next) + 1 && fresh(Repr - old(Repr))
      ensures parts == PartsAfter(old(parts), NewSet, old(next))
    {
      var m, after := AllocateSet();
      next, Repr := next + 1, Repr + {m};
      AppendSet(m, after);
    }

    /** The call of map `i`, before the parts are updated. */
    method CallPart(i: nat, c: MapCall<K, V>) returns (r: Answer<V>, ghost after: Parts<K, V, T>)
      requires Valid() && i < |maps| && MapCallFits(codings.keys, codings.values, c)
      modifies maps[i], builder.api
      ensures after == PartsAfter(parts, OnMap(i, c), next)
      ensures after == parts.(maps := parts.maps[i := MapPart(maps[i].prefix, maps[i].model)])
      ensures true == PartsOk(builder.api.store, codings, after, next)
      ensures r == AnswerOf(ModelsOf(parts), OnMap(i, c))
    {
      ghost var s := builder.api.store;
      assert MapOk(s, codings, parts.maps[i], next);
      r := CallMap(maps[i], c);
      after := MapChanged(s, builder.api.store, codings, parts, i, maps[i].model, next);
    }

    method CallSetPart(j: nat, c: SetCall<T>) returns (r: Answer<V>, ghost after: Parts<K, V, T>)
      requires Valid() && j < |sets| && SetCallFits(codings.elements, c)
      modifies sets[j], builder.api
      ensures after == PartsAfter(parts, OnSet(j, c), next)
      ensures after == parts.(sets := parts.sets[j := SetPart(sets[j].prefix, sets[j].model)])
      ensures true == PartsOk(builder.api.store, codings, after, next)
      ensures r == AnswerOf(ModelsOf(parts), OnSet(j, c))
    {
      ghost var s := builder.api.store;
      assert SetOk(s, codings, parts.sets[j], next);
      r := CallSet(sets[j], c);
      after := SetChanged(s, builder.api.store, codings, parts, j, sets[j].model, next);
    }

    lemma MapsDiffer(i: nat)
      requires Tied() && PrefixesDiffer(parts) && i < |maps|
      ensures forall k :: 0 <= k < |maps| && k != i ==> maps[k] != maps[i]
    {
      forall k | 0 <= k < |maps| && k != i ensures maps[k] != maps[i] {
        assert parts.maps[k].prefix != parts.maps[i].prefix;
      }
    }

    lemma SetsDiffer(j: nat)
      requires Tied() && PrefixesDiffer(parts) && j < |sets|
      ensures forall k :: 0 <= k < |sets| && k != j ==> sets[k] != sets[j]
    {
      forall k | 0 <= k < |sets| && k != j ensures sets[k] != sets[j] {
        assert parts.sets[k].prefix != parts.sets[j].prefix;
      }
    }

    /** The parts follow a changed map. */
    method UpdateMap(i: nat, ghost after: Parts<K, V, T>)
      requires i < |maps| == |parts.maps| && true == TiedBut(i, |sets|)
      requires after == parts.(maps := parts.maps[i := MapPart(maps[i].prefix, maps[i].model)])
      modifies this`parts
      ensures true == Tied()
      ensures parts == after
    {
      parts := after;
    }

    method UpdateSet(j: nat, ghost after: Parts<K, V, T>)
      requires j < |sets| == |parts.sets| && true == TiedBut(|maps|, j)
      requires after == parts.(sets := parts.sets[j := SetPart(sets[j].prefix, sets[j].model)])
      modifies this`parts
      ensures true == Tied()
      ensures parts == after
    {
      parts := after;
    }

    /** A call of map `i` is that call of its model. */
    method PerformMap(i: nat, c: MapCall<K, V>) returns (r: Answer<V>)
      requires Valid() && i < |maps| && MapCallFits(codings.keys, codings.values, c)
      modifies this`parts, maps[i], builder.api
      ensures true == Valid()
      ensures parts == PartsAfter(old(parts), OnMap(i, c), next)
      ensures r == AnswerOf(ModelsOf(old(parts)), OnMap(i, c))
    {
      MapsDiffer(i);
      ghost var after;
      r, after := CallPart(i, c);
      UpdateMap(i, after);
    }

    /** A call of set `j` is that call of its model. */
    method PerformSet(j: nat, c: SetCall<T>) returns (r: Answer<V>)
      requires Valid() && j < |sets| && SetCallFits(codings.elements, c)
      modifies this`parts, sets[j], builder.api
      ensures true == Valid()
      ensures parts == PartsAfter(old(parts), OnSet(j, c), next)
      ensures r == AnswerOf(ModelsOf(old(parts)), OnSet(j, c))
    {
      SetsDiffer(j);
      ghost var after;
      r, after := CallSetPart(j, c);
      UpdateSet(j, after);
    }

    /** One call changes what its container holds, and nothing else. */
    method Perform(c: Call<K, V, T>) returns (r: Answer<V>)
      requires Valid() && Fits(codings, c) && next + 1 < Limit()
      modifies this, Repr, builder.api
      ensures true == Valid()
      ensures next <= old(next) + 1 && fresh(Repr - old(Repr))
      ensures parts == PartsAfter(old(parts), c, old(next)) && r == AnswerOf(ModelsOf(old(parts)), c)
    {
      r := Nothing;
      match c {
        case NewMap => AddMap();
        case NewSet => AddSet();
        case OnMap(i, call) => if i < |maps| { r := PerformMap(i, call); }
        case OnSet(j, call) => if j < |sets| { r := PerformSet(j, call); }
      }
    }

    /** As many calls as there are answers have been made, and were answered as by the containers alone. */
    ghost predicate Done(was: Models<K, V, T>, calls: seq<Call<K, V, T>>, answers: seq<Answer<V>>)
      reads this
    {
      && |answers| <= |calls| && ModelsOf(parts) == CallAll(was, calls[..|answers|])
      && Answered(was, calls, answers)
    }

    method PerformNext(ghost was: Models<K, V, T>, calls: seq<Call<K, V, T>>, answers: seq<Answer<V>>)
      returns (more: seq<Answer<V>>)
      requires Valid() && next + 1 < Limit() && |answers| < |calls| && Fits(codings, calls[|answers|])
      requires true == Done(was, calls, answers)
      modifies this, Repr, builder.api
      ensures true == Valid()
      ensures next <= old(next) + 1 && fresh(Repr - old(Repr))
      ensures |more| == |answers| + 1 && true == Done(was, calls, more)
    {
      var c := calls[|answers|];
      ModelsAfter(parts, c, next);
      var r := Perform(c);
      OneMoreCall(was, calls, answers, r);
      more := answers + [r];
    }

    /** Any sequence of calls acts on the containers, and is answered, as if each were alone. */
    method PerformAll(calls: seq<Call<K, V, T>>) returns (answers: seq<Answer<V>>)
      requires Valid() && next + |calls| < Limit() && forall n :: 0 <= n < |calls| ==> Fits(codings, calls[n])
      modifies this, Repr, builder.api
      ensures true == Valid()
      ensures ModelsOf(parts) == CallAll(ModelsOf(old(parts)), calls)
      ensures |answers| == |calls| && true == Answered(ModelsOf(old(parts)), calls, answers)
    {
      ghost var was := ModelsOf(parts);
      answers := [];
      for n := 0 to |calls|
        invariant true == Valid()
        invariant next <= old(next) + n && fresh(Repr - old(Repr))
        invariant |answers| == n && true == Done(was, calls, answers)
      {
        answers := PerformNext(was, calls, answers);
      }
      AllDone(was, calls, answers);
    }

    lemma AllDone(was: Models<K, V, T>, calls: seq<Call<K, V, T>>, answers: seq<Answer<V>>)
      requires Done(was, calls, answers) && |answers| == |calls|
      ensures ModelsOf(parts) == CallAll(was, calls) && true == Answered(was, calls, answers)
    {
      assert calls[..|calls|] == calls;
    }
  }

  /** Every program that begins with an empty state and fewer than 2^64 - 2 calls: its containers hold,
      and its calls return, what independent maps and sets would. */
  method RunContract<K(!new, ==), V(!new), T(!new, ==)>(codings: Codings<K, V, T>, calls: seq<Call<K, V, T>>)
    returns (c: Containers<K, V, T>, answers: seq<Answer<V>>)
    requires Injective(codings.keys) && Lawful(codings.values) && Injective(codings.elements)
    requires INITIAL + |calls| < Limit() && forall n :: 0 <= n < |calls| ==> Fits(codings, calls[n])
    ensures true == c.Valid()
    ensures ModelsOf(c.parts) == CallAll(Models([], []), calls)
    ensures |answers| == |calls| && true == Answered(Models([], []), calls, answers)
  {
    EmptyRefines();
    var api := new StateApi();
    var builder := new StateBuilder(api);
    c := new Containers(builder, codings, INITIAL);
    answers := c.PerformAll(calls);
  }
}
