/** Sums over the values of a finite map, used for budgets, byte counters and bandwidth totals. */
module Sums {

  /** The sum of a map's values. The order in which the keys are taken does not matter: see SumRemove. */
  ghost function Sum<K>(m: map<K, int>): int
    decreases |m|
  {
    if m == map[] then 0
    else
      var k :| k in m;
      m[k] + Sum(m - {k})
  }

  /** Any key may be taken out first. */
  lemma {:induction false} SumRemove<K>(m: map<K, int>, k: K)
    requires k in m
    ensures Sum(m) == m[k] + Sum(m - {k})
    decreases |m|
  {
    var c :| c in m && Sum(m) == m[c] + Sum(m - {c});
    if c != k {
      SumRemove(m - {c}, k);
      assert m - {c} - {k} == m - {k} - {c};
      SumRemove(m - {k}, c);
    }
  }

  lemma SumUpdate<K>(m: map<K, int>, k: K, v: int)
    ensures Sum(m[k := v]) == Sum(m) + v - (if k in m then m[k] else 0)
  {
    var u := m[k := v];
    SumRemove(u, k);
    assert u - {k} == m - {k};
    if k in m {
      SumRemove(m, k);
    } else {
      assert m - {k} == m;
    }
  }

  lemma {:induction false} SumNonNegative<K>(m: map<K, int>)
    requires forall k | k in m :: 0 <= m[k]
    ensures 0 <= Sum(m)
    decreases |m|
  {
    if m != map[] {
      var k :| k in m;
      SumRemove(m, k);
      SumNonNegative(m - {k});
    }
  }

  lemma {:induction false} SumDisjoint<K>(a: map<K, int>, b: map<K, int>)
    requires forall k | k in b :: k !in a
    ensures Sum(a + b) == Sum(a) + Sum(b)
    decreases |b|
  {
    if b == map[] {
      assert a + b == a;
    } else {
      var k :| k in b;
      SumRemove(b, k);
      SumRemove(a + b, k);
      MergeRemove(a, b, k);
      SumDisjoint(a, b - {k});
    }
  }

  lemma MergeRemove<K>(a: map<K, int>, b: map<K, int>, k: K)
    requires k in b && k !in a
    ensures (a + b) - {k} == a + (b - {k})
  {
    var l, r := (a + b) - {k}, a + (b - {k});
    forall x ensures x in l <==> x in r {}
  }

  lemma SizeDisjoint<K>(a: map<K, int>, b: map<K, int>)
    requires forall k | k in b :: k !in a
    ensures |a + b| == |a| + |b|
  {
    assert (a + b).Keys == a.Keys + b.Keys;
  }

  lemma {:induction false} SubsetCardinality<T>(a: set<T>, b: set<T>)
    requires a <= b
    ensures |a| <= |b|
    decreases b
  {
    if a != {} {
      var x :| x in a;
      SubsetCardinality(a - {x}, b - {x});
    }
  }
}
