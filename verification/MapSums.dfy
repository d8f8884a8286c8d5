/** The sum of the values of a finite map. */
module MapSums {
  import opened Soroban

  ghost function Sum<K>(m: map<K, int>): int
    decreases m.Keys
  {
    if m.Keys == {} then 0
    else
      var k :| k in m;
      m[k] + Sum(m - {k})
  }

  /** The sum may be taken starting from any key. */
  lemma {:induction false} SumFrom<K>(m: map<K, int>, k: K)
    requires k in m
    ensures Sum(m) == m[k] + Sum(m - {k})
    decreases m.Keys
  {
    var c :| c in m && Sum(m) == m[c] + Sum(m - {c});
    if c != k {
      SumFrom(m - {c}, k);
      SumFrom(m - {k}, c);
      assert m - {c} - {k} == m - {k} - {c};
    }
  }

  /** Writing one entry moves the sum by exactly the change of that entry. */
  lemma SumUpdate<K>(m: map<K, int>, k: K, v: int)
    ensures Sum(m[k := v]) == Sum(m) - Get(m, k, 0) + v
  {
    var u := m[k := v];
    SumFrom(u, k);
    assert u - {k} == m - {k};
    if k in m {
      SumFrom(m, k);
    } else {
      assert m - {k} == m;
    }
  }

  /** With no negative value, no entry exceeds the sum. */
  lemma {:induction false} PartAtMostSum<K>(m: map<K, int>, k: K)
    requires forall x :: x in m ==> m[x] >= 0
    ensures 0 <= Get(m, k, 0) <= Sum(m)
    decreases m.Keys
  {
    if m.Keys != {} {
      var c := if k in m then k else var c :| c in m; c;
      SumFrom(m, c);
      PartAtMostSum(m - {c}, k);
    }
  }
}
