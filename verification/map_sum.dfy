/** The sum of the values of a finite map, independent of the order keys are visited in. */
module MapSum {

  ghost function Sum<K>(m: map<K, int>): int
    decreases |m|
  {
    if m == map[] then 0
    else
      var k :| k in m;
      m[k] + Sum(m - {k})
  }

  /** Any key can be taken out first. */
  lemma {:induction false} SumRemove<K>(m: map<K, int>, k: K)
    requires k in m
    ensures Sum(m) == m[k] + Sum(m - {k})
    decreases |m|
  {
    var j :| j in m && Sum(m) == m[j] + Sum(m - {j});
    if j != k {
      var mj := m - {j};
      var mk := m - {k};
      assert k in mj && j in mk;
      SumRemove(mj, k);
      SumRemove(mk, j);
      assert mj - {k} == mk - {j};
    }
  }

  /** Changing one value changes the sum by the difference. */
  lemma SumUpdate<K>(m: map<K, int>, k: K, v: int)
    ensures Sum(m[k := v]) == Sum(m) - (if k in m then m[k] else 0) + v
  {
    var m2 := m[k := v];
    SumRemove(m2, k);
    assert m2 - {k} == m - {k};
    if k in m {
      SumRemove(m, k);
    } else {
      assert m - {k} == m;
    }
  }

  /** A sum of values each between 0 and b is between 0 and b times the number of keys. */
  lemma {:induction false} SumBounded<K>(m: map<K, int>, b: int)
    requires forall k :: k in m ==> 0 <= m[k] <= b
    ensures 0 <= Sum(m) <= b * |m|
    decreases |m|
  {
    if m != map[] {
      var k :| k in m;
      var rest := m - {k};
      SumRemove(m, k);
      SumBounded(rest, b);
      assert |m| == |rest| + 1;
      MulSuccessor(b, |rest|);
    }
  }

  lemma MulSuccessor(b: int, n: nat)
    ensures b * (n + 1) == b * n + b
  {
  }
}
