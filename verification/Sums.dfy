/** Sums over finite maps. */
module Sums {

  ghost function Pick<K>(m: map<K, int>): (k: K)
    requires |m| != 0
    ensures k in m
  {
    var k :| k in m.Keys;
    k
  }

  ghost function Sum<K>(m: map<K, int>): int
    decreases |m|
  {
    if |m| == 0 then 0 else m[Pick(m)] + Sum(m - {Pick(m)})
  }

  /** The sum does not depend on the order of the keys. */
  lemma {:induction false} SumWithout<K>(m: map<K, int>, k: K)
    requires k in m
    ensures Sum(m) == m[k] + Sum(m - {k})
    decreases |m|
  {
    var j := Pick(m);
    if j != k {
      SumWithout(m - {j}, k);
      SumWithout(m - {k}, j);
      assert m - {j} - {k} == m - {k} - {j};
    }
  }

  /** Changing one value changes the sum by the difference. */
  lemma SumUpdate<K>(m: map<K, int>, k: K, v: int)
    ensures Sum(m[k := v]) == Sum(m) + v - (if k in m then m[k] else 0)
  {
    var n := m[k := v];
    SumWithout(n, k);
    assert n - {k} == m - {k};
    if k in m { SumWithout(m, k); } else { assert m - {k} == m; }
  }

  /** The sum of one value. */
  lemma SumOne<K>(m: map<K, int>, k: K)
    requires m.Keys == {k}
    ensures Sum(m) == m[k]
  {
    SumWithout(m, k);
    assert |m - {k}| == 0;
  }

  /** Sums of two maps over the same keys add up. */
  lemma {:induction false} SumPlus<K>(a: map<K, int>, b: map<K, int>, c: map<K, int>)
    requires a.Keys == b.Keys == c.Keys && forall k :: k in a ==> c[k] == a[k] + b[k]
    ensures Sum(c) == Sum(a) + Sum(b)
    decreases |a|
  {
    if |a| == 0 {
      assert a.Keys == {};
    } else {
      var k :| k in a.Keys;
      SumWithout(a, k);
      SumWithout(b, k);
      SumWithout(c, k);
      SumPlus(a - {k}, b - {k}, c - {k});
    }
  }

  /** No value exceeds the sum when none is negative. */
  lemma {:induction false} SumBounds<K>(m: map<K, int>)
    requires forall k :: k in m ==> m[k] >= 0
    ensures Sum(m) >= 0 && forall k :: k in m ==> m[k] <= Sum(m)
    decreases |m|
  {
    if |m| != 0 {
      var k :| k in m.Keys;
      SumWithout(m, k);
      SumBounds(m - {k});
      forall j | j in m ensures m[j] <= Sum(m) {
        if j != k { assert j in m - {k}; }
      }
    }
  }

  /** A map of zeros sums to zero. */
  lemma {:induction false} SumZero<K>(m: map<K, int>)
    requires forall k :: k in m ==> m[k] == 0
    ensures Sum(m) == 0
    decreases |m|
  {
    if |m| != 0 {
      var k :| k in m.Keys;
      SumWithout(m, k);
      SumZero(m - {k});
    }
  }

  /** Smaller values have the smaller sum. */
  lemma {:induction false} SumGrows<K>(a: map<K, int>, b: map<K, int>)
    requires a.Keys == b.Keys && forall k :: k in a ==> a[k] <= b[k]
    ensures Sum(a) <= Sum(b)
    decreases |a|
  {
    if |a| == 0 {
      assert a.Keys == {};
    } else {
      var k :| k in a.Keys;
      SumWithout(a, k);
      SumWithout(b, k);
      SumGrows(a - {k}, b - {k});
    }
  }
}
