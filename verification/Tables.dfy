/** Totals over in-memory tables: what `COUNT(*)` and `SUM(column)` compute. */
module Tables {

  ghost function Sum<K(!new), V>(m: map<K, V>, w: (K, V) -> nat): (total: nat)
    decreases |m|
  {
    if m == map[] then 0
    else
      var k :| k in m;
      w(k, m[k]) + Sum(m - {k}, w)
  }

  /** The total does not depend on the order rows are visited in. */
  lemma {:induction false} SumSplit<K(!new), V>(m: map<K, V>, w: (K, V) -> nat, k: K)
    requires k in m
    ensures Sum(m, w) == w(k, m[k]) + Sum(m - {k}, w)
    decreases |m|
  {
    var first :| first in m && Sum(m, w) == w(first, m[first]) + Sum(m - {first}, w);
    if first != k {
      SumSplit(m - {first}, w, k);
      SumSplit(m - {k}, w, first);
      assert m - {first} - {k} == m - {k} - {first};
    }
  }

  lemma SumInsert<K(!new), V>(m: map<K, V>, w: (K, V) -> nat, k: K, v: V)
    requires k !in m
    ensures Sum(m[k := v], w) == Sum(m, w) + w(k, v)
  {
    SumSplit(m[k := v], w, k);
    assert m[k := v] - {k} == m;
  }

  /** Deleting rows never raises a total. */
  lemma {:induction false} SumSubmap<K(!new), V>(small: map<K, V>, big: map<K, V>, w: (K, V) -> nat)
    requires forall k :: k in small ==> k in big && big[k] == small[k]
    ensures Sum(small, w) <= Sum(big, w)
    decreases |big|
  {
    if k :| k in big {
      SumSplit(big, w, k);
      if k in small {
        SumSplit(small, w, k);
      } else {
        assert small - {k} == small;
      }
      SumSubmap(small - {k}, big - {k}, w);
    }
  }

  /** `SELECT SUM(w) FROM m`, one row at a time. */
  method Total<K(==, !new), V>(m: map<K, V>, w: (K, V) -> nat) returns (total: nat)
    ensures total == Sum(m, w)
  {
    total := 0;
    var rest := m;
    while rest.Keys != {}
      invariant total + Sum(rest, w) == Sum(m, w)
      decreases |rest|
    {
      var k :| k in rest.Keys;
      SumSplit(rest, w, k);
      total, rest := total + w(k, rest[k]), rest - {k};
    }
    assert rest == map[];
  }

  // ---------------------------------------------------------------- totals as counts

  /** The units a total counts: as many for each row as the row weighs. */
  ghost function Units<K, V>(m: map<K, V>, w: (K, V) -> nat): set<(K, nat)>
  {
    set k, i: nat | k in m && i < w(k, m[k]) :: (k, i)
  }

  lemma {:induction false} RowUnits<K>(k: K, n: nat)
    ensures |set i: nat | i < n :: (k, i)| == n
  {
    if n > 0 {
      RowUnits(k, n - 1);
      assert (set i: nat | i < n :: (k, i)) == (set i: nat | i < n - 1 :: (k, i)) + {(k, n - 1)};
    }
  }

  lemma UnitsSplit<K, V>(m: map<K, V>, w: (K, V) -> nat, k: K)
    requires k in m
    ensures var row := set i: nat | i < w(k, m[k]) :: (k, i);
            Units(m, w) == Units(m - {k}, w) + row && Units(m - {k}, w) !! row
  {
  }

  /** A total is the number of units, so it depends on nothing but what each row weighs. */
  lemma {:induction false} SumCounts<K(!new), V>(m: map<K, V>, w: (K, V) -> nat)
    ensures Sum(m, w) == |Units(m, w)|
    decreases |m|
  {
    if k :| k in m {
      SumSplit(m, w, k);
      SumCounts(m - {k}, w);
      RowUnits(k, w(k, m[k]));
      UnitsSplit(m, w, k);
    } else {
      assert m == map[] && Units(m, w) == {};
    }
  }

  ghost function Ones<K, V>(m: map<K, V>, w: (K, V) -> nat): set<K> { set k | k in m && w(k, m[k]) == 1 }

  lemma OnesSplit<K, V>(m: map<K, V>, w: (K, V) -> nat, k: K)
    requires k in m
    ensures k !in Ones(m - {k}, w)
    ensures Ones(m, w) == Ones(m - {k}, w) + (if w(k, m[k]) == 1 then {k} else {})
  {
  }

  /** A total of zeros and ones is the number of ones. */
  lemma {:induction false} SumOfOnes<K(!new), V>(m: map<K, V>, w: (K, V) -> nat)
    requires forall k :: k in m ==> w(k, m[k]) <= 1
    ensures Sum(m, w) == |Ones(m, w)|
    decreases |m|
  {
    if k :| k in m {
      SumSplit(m, w, k);
      SumOfOnes(m - {k}, w);
      OnesSplit(m, w, k);
    } else {
      assert m == map[] && Ones(m, w) == {};
    }
  }
}
