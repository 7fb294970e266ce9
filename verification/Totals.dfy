/** Sums over finite maps. The books of the order manager are hash maps, visited in no
    particular order, so every quantity summed over them is a total that no order can change. */
module Totals {

  ghost function Total<K(!new)>(m: map<K, int>): int
  {
    if m == map[] then 0 else
    var k :| k in m;
    m[k] + Total(m - {k})
  }

  /** Any key may be taken out first. */
  lemma {:induction false} TotalRemove<K(!new)>(m: map<K, int>, k: K)
    requires k in m
    ensures Total(m) == m[k] + Total(m - {k})
    decreases |m|
  {
    var j :| j in m && Total(m) == m[j] + Total(m - {j});
    if j != k {
      TotalRemove(m - {j}, k);
      TotalRemove(m - {k}, j);
      assert (m - {j}) - {k} == (m - {k}) - {j};
    }
  }

  lemma TotalUpdate<K(!new)>(m: map<K, int>, k: K, v: int)
    ensures Total(m[k := v]) == Total(m) - (if k in m then m[k] else 0) + v
  {
    TotalRemove(m[k := v], k);
    if k in m {
      TotalRemove(m, k);
      assert m[k := v] - {k} == m - {k};
    } else {
      assert m[k := v] - {k} == m;
    }
  }

  lemma {:induction false} TotalMono<K(!new)>(a: map<K, int>, b: map<K, int>)
    requires a.Keys == b.Keys
    requires forall k | k in a :: a[k] <= b[k]
    ensures Total(a) <= Total(b)
    decreases |a|
  {
    if a == map[] {
      assert b == map[];
    } else {
      var k :| k in a;
      TotalRemove(a, k);
      TotalRemove(b, k);
      TotalMono(a - {k}, b - {k});
    }
  }

  lemma {:induction false} TotalSum<K(!new)>(a: map<K, int>, b: map<K, int>, c: map<K, int>)
    requires a.Keys == b.Keys == c.Keys
    requires forall k | k in a :: c[k] == a[k] + b[k]
    ensures Total(c) == Total(a) + Total(b)
    decreases |a|
  {
    if a == map[] {
      assert b == map[] && c == map[];
    } else {
      var k :| k in a;
      TotalRemove(a, k);
      TotalRemove(b, k);
      TotalRemove(c, k);
      TotalSum(a - {k}, b - {k}, c - {k});
    }
  }

  lemma {:induction false} TotalZero<K(!new)>(m: map<K, int>)
    requires forall k | k in m :: m[k] == 0
    ensures Total(m) == 0
    decreases |m|
  {
    if m != map[] {
      var k :| k in m;
      TotalRemove(m, k);
      TotalZero(m - {k});
    }
  }

  /** A total of non-negative values is at least each of them. */
  lemma {:induction false} TotalBounds<K(!new)>(m: map<K, int>)
    requires forall k | k in m :: m[k] >= 0
    ensures Total(m) >= 0
    ensures forall k | k in m :: m[k] <= Total(m)
    decreases |m|
  {
    forall k | k in m
      ensures m[k] <= Total(m)
    {
      TotalRemove(m, k);
      TotalBounds(m - {k});
    }
  }
}
