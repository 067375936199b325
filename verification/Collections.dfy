/** Sums over maps, and lists without repetitions. */
module Collections {
  predicate Distinct<T(==)>(s: seq<T>) {
    forall i, j :: 0 <= i < j < |s| ==> s[i] != s[j]
  }

  /** The sum of a map's values. */
  ghost function Sum<K>(m: map<K, int>): int
    decreases |m|
  {
    if m == map[] then 0
    else
      var k :| k in m;
      m[k] + Sum(m - {k})
  }

  lemma {:induction false} SumWithout<K>(m: map<K, int>, k: K)
    requires k in m
    ensures Sum(m) == m[k] + Sum(m - {k})
    decreases |m|
  {
    var j :| j in m && Sum(m) == m[j] + Sum(m - {j});
    if j != k {
      SumWithout(m - {j}, k);
      assert m - {j} - {k} == m - {k} - {j};
      SumWithout(m - {k}, j);
    }
  }

  /** Writing one entry changes the sum by the difference. */
  lemma {:induction false} SumUpdate<K>(m: map<K, int>, k: K, v: int)
    ensures Sum(m[k := v]) == Sum(m) + v - (if k in m then m[k] else 0)
  {
    SumWithout(m[k := v], k);
    assert m[k := v] - {k} == m - {k};
    if k in m {
      SumWithout(m, k);
    } else {
      assert m - {k} == m;
    }
  }

  /** A sum of non-negative values is at least each of them. */
  lemma {:induction false} SumAtLeast<K>(m: map<K, int>, k: K)
    requires k in m && forall j :: j in m ==> m[j] >= 0
    ensures Sum(m) >= m[k]
    decreases |m|
  {
    SumWithout(m, k);
    SumNonNegative(m - {k});
  }

  lemma {:induction false} SumNonNegative<K>(m: map<K, int>)
    requires forall j :: j in m ==> m[j] >= 0
    ensures Sum(m) >= 0
    decreases |m|
  {
    if m != map[] {
      var k :| k in m && Sum(m) == m[k] + Sum(m - {k});
      SumNonNegative(m - {k});
    }
  }
}
