/** `StateBTreeMap`: a map for the values and a B-tree set for the order of its keys, which
    together are one ordered map. */
module StateBTreeMaps {
  import opened Common
  import opened BTreeForest
  import opened BTreeOrder
  import opened StateBTree
  import opened StateBTreeIteration

  /** The operations of an ordered map that change it. */
  datatype Op<V> = Insert(key: Key, value: V) | RemoveAndGet(key: Key) | Remove(key: Key) | Clear

  /** What an operation does to a mathematical map. */
  function Apply<V>(m: map<Key, V>, op: Op<V>): map<Key, V> {
    match op
    case Insert(k, v) => m[k := v]
    case RemoveAndGet(k) => m - {k}
    case Remove(k) => m - {k}
    case Clear => map[]
  }

  /** What an operation returns. */
  function Answer<V>(m: map<Key, V>, op: Op<V>): Option<V> {
    if (op.Insert? || op.RemoveAndGet?) && op.key in m then Some(m[op.key]) else None
  }

  function ApplyAll<V>(m: map<Key, V>, ops: seq<Op<V>>): map<Key, V> {
    if ops == [] then m else Apply(ApplyAll(m, ops[..|ops| - 1]), ops[|ops| - 1])
  }

  class StateBTreeMap<V> {
    /** Mapping from key to value. */
    var keyValue: map<Key, V>
    /** The keys in order. */
    const keyOrder: StateBTreeSet

    ghost predicate Valid()
      reads this, keyOrder
    {
      keyOrder.Valid() && keyValue.Keys == keyOrder.Contents()
    }

    constructor (m: nat)
      requires m >= 2
      ensures Valid() && fresh(keyOrder) && keyValue == map[]
    {
      keyOrder := new StateBTreeSet(m);
      keyValue := map[];
    }

    /** Sets the value of a key; returns the one it had. The trap on an inconsistency between
        the two parts cannot be reached. */
    method Insert(key: Key, value: V) returns (previous: Option<V>)
      requires Valid()
      modifies this, keyOrder
      ensures Valid()
      ensures keyValue == old(keyValue)[key := value]
      ensures previous == if key in old(keyValue) then Some(old(keyValue)[key]) else None
    {
      previous := if key in keyValue then Some(keyValue[key]) else None;
      keyValue := keyValue[key := value];
      if previous.None? {
        var isNew, _ := keyOrder.Insert(key);
        if !isNew {
          assert false;
        }
      }
    }

    /** Removes a key; returns the value it had. The trap cannot be reached. */
    method RemoveAndGet(key: Key) returns (v: Option<V>)
      requires Valid()
      modifies this, keyOrder
      ensures Valid()
      ensures keyValue == old(keyValue) - {key}
      ensures v == if key in old(keyValue) then Some(old(keyValue)[key]) else None
    {
      v := if key in keyValue then Some(keyValue[key]) else None;
      keyValue := keyValue - {key};
      if v.Some? {
        var there, _ := keyOrder.Remove(key);
        if !there {
          assert false;
        }
      }
    }

    method Remove(key: Key)
      requires Valid()
      modifies this, keyOrder
      ensures Valid()
      ensures keyValue == old(keyValue) - {key}
    {
      var there, _ := keyOrder.Remove(key);
      if there {
        keyValue := keyValue - {key};
      }
    }

    method Clear()
      requires Valid()
      modifies this, keyOrder
      ensures Valid() && keyValue == map[]
    {
      keyValue := map[];
      keyOrder.Clear();
    }

    /** The lookup is skipped for an empty map, with the same answer. */
    method Get(key: Key) returns (v: Option<V>)
      requires Valid()
      ensures v == if key in keyValue then Some(keyValue[key]) else None
    {
      var empty := keyOrder.IsEmpty();
      if empty {
        return None;
      }
      v := if key in keyValue then Some(keyValue[key]) else None;
    }

    method ContainsKey(key: Key) returns (r: bool)
      requires Valid()
      ensures r <==> key in keyValue
    {
      ghost var loads;
      r, loads := keyOrder.Contains(key);
    }

    method Higher(key: Key) returns (r: Option<Key>)
      requires Valid()
      ensures IsLeast(r, set k | k in keyValue.Keys && k > key)
    {
      ghost var loads;
      r, loads := keyOrder.Higher(key);
    }

    method LastKey() returns (r: Option<Key>)
      requires Valid()
      ensures IsGreatest(r, keyValue.Keys)
    {
      ghost var loads;
      r, loads := keyOrder.Last();
    }

    method Len() returns (n: nat)
      requires Valid()
      ensures n == |keyValue|
    {
      StoredKeysAre(keyOrder.nodes, keyOrder.g);
      n := keyOrder.len;
    }

    /** The entries in the order of their keys; every key met has a value. */
    method Entries() returns (items: seq<(Key, V)>)
      requires Valid()
      ensures |items| == |keyValue|
      ensures forall i, j :: 0 <= i < j < |items| ==> items[i].0 < items[j].0
      ensures forall k, v :: (k, v) in items <==> k in keyValue && keyValue[k] == v
    {
      var keys := Collect(keyOrder);
      items := [];
      for i := 0 to |keys|
        invariant |items| == i
        invariant forall j :: 0 <= j < i ==> keys[j] in keyValue && items[j] == (keys[j], keyValue[keys[j]])
      {
        assert keys[i] in keys;
        items := items + [(keys[i], keyValue[keys[i]])];
      }
      AscendingCount(keys, keyValue.Keys);
      forall k, v ensures (k, v) in items <==> k in keyValue && keyValue[k] == v {
        if k in keyValue && keyValue[k] == v {
          assert k in keys;
          var i :| 0 <= i < |keys| && keys[i] == k;
          assert items[i] == (k, v);
        }
      }
    }

    /** One operation. */
    method Perform(op: Op<V>) returns (answer: Option<V>)
      requires Valid()
      modifies this, keyOrder
      ensures true == Valid()
      ensures keyValue == Apply(old(keyValue), op) && answer == Answer(old(keyValue), op)
    {
      match op {
        case Insert(k, v) => answer := Insert(k, v);
        case RemoveAndGet(k) => answer := RemoveAndGet(k);
        case Remove(k) => Remove(k); answer := None;
        case Clear => Clear(); answer := None;
      }
    }
  }

  /** Every operation was answered like one on a mathematical map. */
  ghost predicate AnsweredAll<V>(ops: seq<Op<V>>, answers: seq<Option<V>>)
    requires |answers| <= |ops|
  {
    forall i :: 0 <= i < |answers| ==> answers[i] == Answer(ApplyAll(map[], ops[..i]), ops[i])
  }

  lemma OneMore<V>(ops: seq<Op<V>>, answers: seq<Option<V>>, m: map<Key, V>, answer: Option<V>)
    requires |answers| < |ops| && AnsweredAll(ops, answers)
    requires m == ApplyAll(map[], ops[..|answers|]) && answer == Answer(m, ops[|answers|])
    ensures true == AnsweredAll(ops, answers + [answer])
    ensures Apply(m, ops[|answers|]) == ApplyAll(map[], ops[..|answers| + 1])
  {
    assert ops[..|answers| + 1][..|answers|] == ops[..|answers|];
  }

  /** Every run of operations from an empty map answers and ends like a mathematical map. */
  method Run<V>(m: nat, ops: seq<Op<V>>) returns (r: StateBTreeMap<V>, answers: seq<Option<V>>)
    requires m >= 2
    ensures true == r.Valid()
    ensures r.keyValue == ApplyAll(map[], ops)
    ensures |answers| == |ops| && AnsweredAll(ops, answers)
  {
    r := new StateBTreeMap(m);
    answers := [];
    for i := 0 to |ops|
      invariant true == r.Valid()
      invariant fresh(r) && fresh(r.keyOrder) && r.keyValue == ApplyAll(map[], ops[..i])
      invariant |answers| == i && AnsweredAll(ops, answers)
    {
      ghost var before := r.keyValue;
      var a := r.Perform(ops[i]);
      OneMore(ops, answers, before, a);
      answers := answers + [a];
    }
    assert ops[..|ops|] == ops;
  }
}
