/** Sums over finite tables, independent of the order of their keys. */
module Sums {
  /** The sum of all values of a table. */
  ghost function Sum<K(!new)>(m: map<K, int>): int {
    if m == map[] then 0
    else
      var k :| k in m;
      m[k] + Sum(m - {k})
  }

  lemma {:induction false} SumRemove<K(!new)>(m: map<K, int>, k: K)
    requires k in m
    ensures Sum(m) == m[k] + Sum(m - {k})
    decreases |m|
  {
    var first :| first in m && Sum(m) == m[first] + Sum(m - {first});
    if first != k {
      SumRemove(m - {first}, k);
      SumRemove(m - {k}, first);
      assert (m - {first}) - {k} == (m - {k}) - {first};
    }
  }

  lemma SumUpdate<K(!new)>(m: map<K, int>, k: K, v: int)
    ensures Sum(m[k := v]) == Sum(m) + v - (if k in m then m[k] else 0)
  {
    SumRemove(m[k := v], k);
    if k in m {
      SumRemove(m, k);
      assert m[k := v] - {k} == m - {k};
    } else {
      assert m[k := v] - {k} == m;
    }
  }

  lemma {:induction false} SumNonNegative<K(!new)>(m: map<K, int>)
    requires forall k :: k in m ==> 0 <= m[k]
    ensures 0 <= Sum(m)
    decreases |m|
  {
    if m != map[] {
      var k :| k in m && Sum(m) == m[k] + Sum(m - {k});
      SumNonNegative(m - {k});
    }
  }

  lemma MemberAtMostSum<K(!new)>(m: map<K, int>, k: K)
    requires forall j :: j in m ==> 0 <= m[j]
    requires k in m
    ensures m[k] <= Sum(m)
  {
    SumRemove(m, k);
    SumNonNegative(m - {k});
  }

  /** Pointwise domination carries over to sums. */
  lemma {:induction false} SumAtMost<K(!new)>(m: map<K, int>, n: map<K, int>)
    requires m.Keys == n.Keys
    requires forall k :: k in m ==> m[k] <= n[k]
    ensures Sum(m) <= Sum(n)
    decreases |m|
  {
    if m == map[] {
      assert n == map[];
    } else {
      var k :| k in m;
      SumRemove(m, k);
      SumRemove(n, k);
      SumAtMost(m - {k}, n - {k});
    }
  }

  /** Scaling every value scales the sum. */
  lemma {:induction false} SumScale<K(!new)>(m: map<K, int>, n: map<K, int>, r: int)
    requires m.Keys == n.Keys
    requires forall k :: k in m ==> m[k] == n[k] * r
    ensures Sum(m) == Sum(n) * r
    decreases |m|
  {
    if m == map[] {
      assert n == map[];
    } else {
      var k :| k in m;
      SumRemove(m, k);
      SumRemove(n, k);
      SumScale(m - {k}, n - {k}, r);
      assert (n[k] + Sum(n - {k})) * r == n[k] * r + Sum(n - {k}) * r;
    }
  }

  /** The sum of two tables with the same keys, added pointwise. */
  lemma {:induction false} SumAdd<K(!new)>(m: map<K, int>, n: map<K, int>, total: map<K, int>)
    requires m.Keys == n.Keys == total.Keys
    requires forall k :: k in m ==> total[k] == m[k] + n[k]
    ensures Sum(total) == Sum(m) + Sum(n)
    decreases |m|
  {
    if m == map[] {
      assert n == map[] && total == map[];
    } else {
      var k :| k in m;
      SumRemove(m, k);
      SumRemove(n, k);
      SumRemove(total, k);
      SumAdd(m - {k}, n - {k}, total - {k});
    }
  }
}
