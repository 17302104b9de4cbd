/** Sums over finite maps. */
module Totals {
  ghost function Total<K>(m: map<K, int>): int
    decreases |m|
  {
    if m == map[] then 0
    else
      var k :| k in m;
      m[k] + Total(m - {k})
  }

  /** Any key may be taken out first. */
  lemma {:induction false} TotalAt<K>(m: map<K, int>, k: K)
    requires k in m
    ensures Total(m) == m[k] + Total(m - {k})
    decreases |m|
  {
    var j :| j in m && Total(m) == m[j] + Total(m - {j});
    if j != k {
      TotalAt(m - {j}, k);
      TotalAt(m - {k}, j);
      assert m - {j} - {k} == m - {k} - {j};
    }
  }

  lemma TotalPut<K>(m: map<K, int>, k: K, v: int)
    ensures Total(m[k := v]) == Total(m) + v - if k in m then m[k] else 0
  {
    TotalAt(m[k := v], k);
    if k in m {
      TotalAt(m, k);
      assert m[k := v] - {k} == m - {k};
    } else {
      assert m[k := v] - {k} == m;
    }
  }

  function Raised<K>(m: map<K, int>, c: int): map<K, int> {
    map k | k in m :: m[k] + c
  }

  /** Adding the same amount to every entry adds it once per key. */
  lemma {:induction false} TotalRaised<K>(m: map<K, int>, c: int)
    ensures Total(Raised(m, c)) == Total(m) + |m| * c
    decreases |m|
  {
    if m == map[] {
      assert Raised(m, c) == map[];
    } else {
      var k :| k in m;
      var rest := m - {k};
      TotalAt(m, k);
      TotalAt(Raised(m, c), k);
      assert Raised(m, c) - {k} == Raised(rest, c);
      TotalRaised(rest, c);
      assert m.Keys == rest.Keys + {k};
      OneMore(|rest|, |m|, c);
    }
  }

  lemma OneMore(n: nat, m: nat, c: int)
    requires m == n + 1
    ensures m * c == n * c + c
  {
  }

  /** A map with more keys, and no negative entry, sums to no less. */
  lemma {:induction false} TotalGrows<K>(a: map<K, int>, b: map<K, int>)
    requires forall k | k in a :: k in b && a[k] <= b[k]
    requires forall k | k in b :: b[k] >= 0
    ensures Total(a) <= Total(b)
    decreases |b|
  {
    if b == map[] {
      assert a == map[];
    } else {
      var k :| k in b;
      TotalAt(b, k);
      if k in a {
        TotalAt(a, k);
        TotalGrows(a - {k}, b - {k});
      } else {
        TotalGrows(a, b - {k});
      }
    }
  }
}
