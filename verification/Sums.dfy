/** Sums over the values of a finite map. */
module Sums {
  ghost function Sum(m: map<string, nat>): nat
    decreases |m|
  {
    if m == map[] then 0
    else
      var k :| k in m;
      m[k] + Sum(m - {k})
  }

  /** The sum does not depend on the order it is taken in. */
  lemma {:induction false} SumRemove(m: map<string, nat>, k: string)
    requires k in m
    ensures Sum(m) == m[k] + Sum(m - {k})
    decreases |m|
  {
    var j :| j in m && Sum(m) == m[j] + Sum(m - {j});
    if j != k {
      SumRemove(m - {j}, k);
      SumRemove(m - {k}, j);
      assert m - {j} - {k} == m - {k} - {j};
    }
  }

  /** The sum of nothing is zero, and every value counts once: there is only one such
      function. */
  lemma SumIs(m: map<string, nat>)
    ensures Sum(map[]) == 0 && forall k | k in m :: Sum(m) == m[k] + Sum(m - {k})
  {
    forall k | k in m ensures Sum(m) == m[k] + Sum(m - {k}) {
      SumRemove(m, k);
    }
  }

  lemma SumPut(m: map<string, nat>, k: string, v: nat)
    ensures Sum(m[k := v]) == Sum(m) - (if k in m then m[k] else 0) + v
  {
    SumRemove(m[k := v], k);
    assert m[k := v] - {k} == m - {k};
    if k in m { SumRemove(m, k); } else { assert m - {k} == m; }
  }

  lemma SumSubset(m: map<string, nat>, ks: set<string>)
    ensures Sum(m - ks) <= Sum(m)
    decreases |ks|
  {
    if ks == {} {
      assert m - ks == m;
    } else {
      var k :| k in ks;
      SumSubset(m, ks - {k});
      var n := m - (ks - {k});
      if k in n {
        SumRemove(n, k);
        assert n - {k} == m - ks;
      } else {
        assert n == m - ks;
      }
    }
  }
}
