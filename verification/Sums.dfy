/** Sums over finite maps: the counters the daemon keeps are compared with these. */
module Sums {

  ghost function Sum<K>(m: map<K, int>): int
  {
    if m == map[] then 0 else
      var k :| k in m;
      m[k] + Sum(m - {k})
  }

  lemma {:induction false} SumTake<K>(m: map<K, int>, k: K)
    requires k in m
    ensures Sum(m) == m[k] + Sum(m - {k})
    decreases |m|
  {
    assert m != map[];
    var j :| j in m && Sum(m) == m[j] + Sum(m - {j});
    if j != k {
      assert m - {j} - {k} == m - {k} - {j};
      SumTake(m - {j}, k);
      SumTake(m - {k}, j);
    }
  }

  lemma SumSet<K>(m: map<K, int>, k: K, v: int)
    ensures Sum(m[k := v]) == Sum(m) + v - (if k in m then m[k] else 0)
  {
    SumTake(m[k := v], k);
    assert m[k := v] - {k} == m - {k};
    if k in m {
      SumTake(m, k);
    } else {
      assert m - {k} == m;
    }
  }

  lemma SumDrop<K>(m: map<K, int>, k: K)
    ensures Sum(m - {k}) == Sum(m) - (if k in m then m[k] else 0)
  {
    if k in m {
      SumTake(m, k);
    } else {
      assert m - {k} == m;
    }
  }

  lemma {:induction false} SumNonNegative<K>(m: map<K, int>)
    requires forall k :: k in m ==> m[k] >= 0
    ensures Sum(m) >= 0
    ensures forall k :: k in m ==> m[k] <= Sum(m)
    decreases |m|
  {
    forall k | k in m
      ensures Sum(m) >= m[k]
    {
      SumTake(m, k);
      SumNonNegative(m - {k});
    }
    if m != map[] {
      var k :| k in m;
    }
  }

  lemma {:induction false} SumAtMost<K>(m: map<K, int>, n: map<K, int>)
    requires m.Keys == n.Keys
    requires forall k :: k in m ==> m[k] <= n[k]
    ensures Sum(m) <= Sum(n)
    decreases |m|
  {
    if m != map[] {
      var k :| k in m;
      SumTake(m, k);
      SumTake(n, k);
      SumAtMost(m - {k}, n - {k});
    } else {
      assert n == map[];
    }
  }

  lemma {:induction false} SumPlus<K>(m: map<K, int>, n: map<K, int>)
    requires m.Keys == n.Keys
    ensures Sum(map k | k in m :: m[k] + n[k]) == Sum(m) + Sum(n)
    decreases |m|
  {
    var b := map k | k in m :: m[k] + n[k];
    if m != map[] {
      var k :| k in m;
      SumTake(m, k);
      SumTake(n, k);
      SumTake(b, k);
      SumPlus(m - {k}, n - {k});
      assert b - {k} == map j | j in m - {k} :: (m - {k})[j] + (n - {k})[j];
    } else {
      assert b == map[] && n == map[];
    }
  }

  lemma {:induction false} SumZero<K>(m: map<K, int>)
    requires forall k :: k in m ==> m[k] == 0
    ensures Sum(m) == 0
    decreases |m|
  {
    if m != map[] {
      var k :| k in m;
      SumTake(m, k);
      SumZero(m - {k});
    }
  }
}
