/** Sorting by an encoded key: the key is computed once per value and carried beside it. */
module JsonSort {
  import opened Prelude
  import opened Ordering

  predicate PairLeq<T>(a: (string, T), b: (string, T)) { LexLeq(a.0, b.0) }

  function KeyOf<T>(key: T -> Option<string>, x: T): string { if key(x).Some? then key(x).value else "" }

  /** The order the values are meant to end up in. */
  predicate JsonLeq<T>(key: T -> Option<string>, a: T, b: T) { LexLeq(KeyOf(key, a), KeyOf(key, b)) }

  /** The stable sort by encoded key. */
  function SortedByKey<T>(key: T -> Option<string>, values: seq<T>): (r: seq<T>)
    ensures |r| == |values|
  {
    Sort((a, b) => JsonLeq(key, a, b), values)
  }

  ghost predicate Keyed<T>(key: T -> Option<string>, keyed: seq<(string, T)>)
  {
    forall i :: 0 <= i < |keyed| ==> key(keyed[i].1) == Some(keyed[i].0)
  }

  function Values<T>(keyed: seq<(string, T)>): (r: seq<T>)
    ensures |r| == |keyed| && forall i :: 0 <= i < |r| ==> r[i] == keyed[i].1
  {
    seq(|keyed|, i requires 0 <= i < |keyed| => keyed[i].1)
  }

  lemma {:induction false} InsertProjects<T>(key: T -> Option<string>, keyed: seq<(string, T)>, x: (string, T))
    requires Keyed(key, keyed) && key(x.1) == Some(x.0)
    ensures Keyed(key, Insert(PairLeq, keyed, x))
    ensures Values(Insert(PairLeq, keyed, x)) == Insert((a, b) => JsonLeq(key, a, b), Values(keyed), x.1)
  {
    if keyed != [] {
      assert Values(keyed)[1..] == Values(keyed[1..]);
      InsertProjects(key, keyed[1..], x);
    }
  }

  /** Sorting the keyed vector and dropping the keys is the stable sort of the values. */
  lemma {:induction false} SortProjects<T>(key: T -> Option<string>, keyed: seq<(string, T)>)
    requires Keyed(key, keyed)
    ensures Keyed(key, Sort(PairLeq, keyed))
    ensures Values(Sort(PairLeq, keyed)) == SortedByKey(key, Values(keyed))
  {
    if keyed != [] {
      var init, x := keyed[..|keyed| - 1], keyed[|keyed| - 1];
      assert Values(keyed)[..|keyed| - 1] == Values(init);
      SortProjects(key, init);
      InsertProjects(key, Sort(PairLeq, init), x);
    }
  }

  /** Fails exactly when some value has no encoding; otherwise the values in stable key order. */
  method SortByJsonKey<T>(values: seq<T>, key: T -> Option<string>) returns (sorted: Option<seq<T>>)
    ensures sorted.None? <==> exists i :: 0 <= i < |values| && key(values[i]).None?
    ensures sorted.Some? ==> sorted.value == SortedByKey(key, values)
  {
    var keyed: seq<(string, T)> := [];
    for i := 0 to |values|
      invariant |keyed| == i && Keyed(key, keyed)
      invariant forall j :: 0 <= j < i ==> keyed[j].1 == values[j]
    {
      var k := key(values[i]);
      if k.None? { return None; }
      keyed := keyed + [(k.value, values[i])];
    }
    assert Values(keyed) == values;
    SortProjects(key, keyed);
    keyed := Sort(PairLeq, keyed);
    sorted := Some(Values(keyed));
  }

  /** What that order means: ascending keys, the same values, and equal keys in arrival order. */
  lemma JsonOrderIsStable<T(!new)>(key: T -> Option<string>, values: seq<T>, k: string)
    ensures var r := SortedByKey(key, values);
            && (forall i, j :: 0 <= i < j < |r| ==> LexLeq(KeyOf(key, r[i]), KeyOf(key, r[j])))
            && multiset(r) == multiset(values)
            && Filter(x => KeyOf(key, x) == k, r) == Filter(x => KeyOf(key, x) == k, values)
  {
    var leq := (a: T, b: T) => JsonLeq(key, a, b);
    forall a, b ensures leq(a, b) || leq(b, a) { LexTotal(KeyOf(key, a), KeyOf(key, b)); }
    forall a, b, c | leq(a, b) && leq(b, c) ensures leq(a, c) {
      LexTransitive(KeyOf(key, a), KeyOf(key, b), KeyOf(key, c));
    }
    SortSorts(leq, values);
    forall a, b | KeyOf(key, a) == k && KeyOf(key, b) == k ensures leq(a, b) { LexTotal(k, k); }
    SortStable(leq, x => KeyOf(key, x) == k, values);
  }
}
