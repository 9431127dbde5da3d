/** The byte-wise order of identifiers, and stable sorting by an arbitrary order.
    SQLite's `ORDER BY`, `BTreeMap` iteration, `sort_by` and `sort_by_json_key`
    are all instances of these definitions. */
module Ordering {

  /** Lexicographic order on identifiers and encoded keys. */
  predicate LexLeq(a: string, b: string)
  {
    a == [] || (b != [] && (a[0] < b[0] || (a[0] == b[0] && LexLeq(a[1..], b[1..]))))
  }

  predicate FirstDifference(a: string, b: string, i: int)
  {
    0 <= i < |a| && i < |b| && a[i] != b[i] && forall j :: 0 <= j < i ==> a[j] == b[j]
  }

  /** The first position where the strings differ decides; without one, the shorter string comes first. */
  lemma {:induction false} LexMeaning(a: string, b: string)
    ensures LexLeq(a, b) <==> a <= b || exists i :: FirstDifference(a, b, i) && a[i] < b[i]
  {
    if a != [] && b != [] && a[0] == b[0] {
      LexMeaning(a[1..], b[1..]);
      SameFirst(a, b);
    } else if a != [] && b != [] {
      assert FirstDifference(a, b, 0);
    }
  }

  lemma SameFirst(a: string, b: string)
    requires a != [] && b != [] && a[0] == b[0]
    ensures a <= b <==> a[1..] <= b[1..]
    ensures forall i :: FirstDifference(a, b, i) <==> FirstDifference(a[1..], b[1..], i - 1)
    ensures (exists i :: FirstDifference(a, b, i) && a[i] < b[i]) <==>
            (exists i :: FirstDifference(a[1..], b[1..], i) && a[1..][i] < b[1..][i])
  {
    forall i ensures FirstDifference(a, b, i) <==> FirstDifference(a[1..], b[1..], i - 1) { LaterDifference(a, b, i); }
    if i :| FirstDifference(a[1..], b[1..], i) && a[1..][i] < b[1..][i] {
      assert FirstDifference(a, b, i + 1) by { LaterDifference(a, b, i + 1); }
    }
  }

  lemma LaterDifference(a: string, b: string, i: int)
    requires a != [] && b != [] && a[0] == b[0]
    ensures FirstDifference(a, b, i) <==> FirstDifference(a[1..], b[1..], i - 1)
  {
    if FirstDifference(a[1..], b[1..], i - 1) {
      forall j | 0 <= j < i ensures a[j] == b[j] { if j > 0 { assert a[1..][j - 1] == b[1..][j - 1]; } }
    }
  }

  lemma {:induction false} LexTotal(a: string, b: string)
    ensures LexLeq(a, b) || LexLeq(b, a)
    ensures LexLeq(a, b) && LexLeq(b, a) ==> a == b
  {
    if a != [] && b != [] && a[0] == b[0] {
      LexTotal(a[1..], b[1..]);
      assert a == [a[0]] + a[1..] && b == [b[0]] + b[1..];
    }
  }

  lemma {:induction false} LexTransitive(a: string, b: string, c: string)
    requires LexLeq(a, b) && LexLeq(b, c)
    ensures LexLeq(a, c)
  {
    if a != [] && a[0] == b[0] == c[0] {
      LexTransitive(a[1..], b[1..], c[1..]);
    }
  }

  /** A total preorder: what a comparison function must be for sorting to mean anything. */
  ghost predicate TotalPreorder<T(!new)>(leq: (T, T) -> bool)
  {
    && (forall a, b :: leq(a, b) || leq(b, a))
    && (forall a, b, c :: leq(a, b) && leq(b, c) ==> leq(a, c))
  }

  ghost predicate SortedBy<T>(leq: (T, T) -> bool, s: seq<T>)
  {
    forall i, j :: 0 <= i < j < |s| ==> leq(s[i], s[j])
  }

  /** Insert `x` before the first element that is strictly greater, keeping ties in arrival order. */
  function Insert<T>(leq: (T, T) -> bool, s: seq<T>, x: T): (r: seq<T>)
    ensures |r| == |s| + 1
  {
    if s == [] || !leq(s[0], x) then [x] + s else [s[0]] + Insert(leq, s[1..], x)
  }

  /** Stable sort. */
  function Sort<T>(leq: (T, T) -> bool, s: seq<T>): (r: seq<T>)
    ensures |r| == |s|
  {
    if s == [] then [] else Insert(leq, Sort(leq, s[..|s| - 1]), s[|s| - 1])
  }

  lemma {:induction false} InsertKeeps<T(!new)>(leq: (T, T) -> bool, s: seq<T>, x: T)
    requires TotalPreorder(leq) && SortedBy(leq, s)
    ensures SortedBy(leq, Insert(leq, s, x))
    ensures multiset(Insert(leq, s, x)) == multiset(s) + multiset{x}
  {
    if s == [] {
    } else {
      assert s == [s[0]] + s[1..];
      if leq(s[0], x) {
        InsertKeeps(leq, s[1..], x);
        var rest := Insert(leq, s[1..], x);
        assert multiset(rest) == multiset(s[1..]) + multiset{x};
        forall j | 0 <= j < |rest| ensures leq(s[0], rest[j]) {
          assert rest[j] in multiset(rest);
          if rest[j] != x { assert rest[j] in s[1..]; }
        }
      } else {
        assert leq(x, s[0]);
      }
    }
  }

  /** Sorting yields a sorted permutation. */
  lemma {:induction false} SortSorts<T(!new)>(leq: (T, T) -> bool, s: seq<T>)
    requires TotalPreorder(leq)
    ensures SortedBy(leq, Sort(leq, s))
    ensures multiset(Sort(leq, s)) == multiset(s)
  {
    if s != [] {
      SortSorts(leq, s[..|s| - 1]);
      InsertKeeps(leq, Sort(leq, s[..|s| - 1]), s[|s| - 1]);
      assert s == s[..|s| - 1] + [s[|s| - 1]];
    }
  }

  // ---------------------------------------------------------------- stability

  function Filter<T(!new)>(p: T -> bool, s: seq<T>): (r: seq<T>)
    ensures forall x :: x in r <==> x in s && p(x)
  {
    if s == [] then [] else (if p(s[0]) then [s[0]] else []) + Filter(p, s[1..])
  }

  lemma {:induction false} FilterConcat<T(!new)>(p: T -> bool, a: seq<T>, b: seq<T>)
    ensures Filter(p, a + b) == Filter(p, a) + Filter(p, b)
  {
    if a == [] {
      assert a + b == b;
    } else {
      assert (a + b)[1..] == a[1..] + b;
      FilterConcat(p, a[1..], b);
    }
  }

  lemma {:induction false} FilterNone<T(!new)>(p: T -> bool, s: seq<T>)
    requires forall i :: 0 <= i < |s| ==> !p(s[i])
    ensures Filter(p, s) == []
  {
    if s != [] { FilterNone(p, s[1..]); }
  }

  /** `p` picks out values that tie with one another. */
  ghost predicate Ties<T(!new)>(leq: (T, T) -> bool, p: T -> bool)
  {
    forall a, b :: p(a) && p(b) ==> leq(a, b)
  }

  /** Nothing at or after a strictly greater element ties with `x`. */
  lemma NoTieAfter<T(!new)>(leq: (T, T) -> bool, p: T -> bool, s: seq<T>, x: T, i: nat)
    requires TotalPreorder(leq) && SortedBy(leq, s) && Ties(leq, p) && s != [] && !leq(s[0], x) && p(x) && i < |s|
    ensures !p(s[i])
  {
    assert i > 0 ==> leq(s[0], s[i]);
    assert leq(s[0], s[0]);
  }

  lemma InsertHere<T(!new)>(leq: (T, T) -> bool, p: T -> bool, s: seq<T>, x: T)
    requires TotalPreorder(leq) && SortedBy(leq, s) && Ties(leq, p) && s != [] && !leq(s[0], x)
    ensures Filter(p, [x] + s) == Filter(p, s) + Filter(p, [x])
  {
    FilterConcat(p, [x], s);
    if p(x) {
      forall i | 0 <= i < |s| ensures !p(s[i]) { NoTieAfter(leq, p, s, x, i); }
      FilterNone(p, s);
    }
  }

  lemma StableStep<T(!new)>(p: T -> bool, head: T, inserted: seq<T>, tail: seq<T>, x: T)
    requires Filter(p, inserted) == Filter(p, tail) + Filter(p, [x])
    ensures Filter(p, [head] + inserted) == Filter(p, [head] + tail) + Filter(p, [x])
  {
    FilterConcat(p, [head], inserted);
    FilterConcat(p, [head], tail);
  }

  lemma {:induction false} InsertStable<T(!new)>(leq: (T, T) -> bool, p: T -> bool, s: seq<T>, x: T)
    requires TotalPreorder(leq) && SortedBy(leq, s) && Ties(leq, p)
    ensures Filter(p, Insert(leq, s, x)) == Filter(p, s) + Filter(p, [x])
  {
    if s == [] {
      assert [x] + s == [x];
    } else if leq(s[0], x) {
      InsertStable(leq, p, s[1..], x);
      StableStep(p, s[0], Insert(leq, s[1..], x), s[1..], x);
      assert s == [s[0]] + s[1..];
    } else {
      InsertHere(leq, p, s, x);
    }
  }

  /** Values that tie keep the order they arrived in. */
  lemma {:induction false} SortStable<T(!new)>(leq: (T, T) -> bool, p: T -> bool, s: seq<T>)
    requires TotalPreorder(leq) && Ties(leq, p)
    ensures Filter(p, Sort(leq, s)) == Filter(p, s)
  {
    if s != [] {
      var init, x := s[..|s| - 1], s[|s| - 1];
      SortStable(leq, p, init);
      SortSorts(leq, init);
      InsertStable(leq, p, Sort(leq, init), x);
      FilterConcat(p, init, [x]);
      assert s == init + [x];
    }
  }

  // ---------------------------------------------------------------- keyed values

  /** Keys strictly increase. */
  ghost predicate Ascending<T>(key: T -> string, s: seq<T>)
  {
    forall i, j :: 0 <= i < j < |s| ==> LexLeq(key(s[i]), key(s[j])) && key(s[i]) != key(s[j])
  }

  ghost predicate SameElements<T(!new)>(a: seq<T>, b: seq<T>)
  {
    forall x :: x in a <==> x in b
  }

  lemma SameMembers<T(!new)>(a: seq<T>, b: seq<T>)
    requires multiset(a) == multiset(b)
    ensures SameElements(a, b)
  {
    forall x ensures x in a <==> x in b {
      assert x in a <==> x in multiset(a);
      assert x in b <==> x in multiset(b);
    }
  }

  lemma PrependAscends<T>(key: T -> string, x: T, s: seq<T>)
    requires Ascending(key, s) && forall i :: 0 <= i < |s| ==> LexLeq(key(x), key(s[i])) && key(x) != key(s[i])
    ensures Ascending(key, [x] + s)
  {
  }

  lemma AscendingHead<T>(key: T -> string, s: seq<T>, x: T)
    requires Ascending(key, s) && s != [] && x in s
    ensures x == s[0] || (LexLeq(key(s[0]), key(x)) && key(s[0]) != key(x))
  {
    var i :| 0 <= i < |s| && s[i] == x;
  }

  lemma SameTails<T(!new)>(key: T -> string, a: seq<T>, b: seq<T>)
    requires Ascending(key, a) && Ascending(key, b) && SameElements(a, b) && a != [] && b != []
    ensures a[0] == b[0] && SameElements(a[1..], b[1..])
  {
    AscendingHead(key, a, b[0]);
    AscendingHead(key, b, a[0]);
    LexTotal(key(a[0]), key(b[0]));
    forall x ensures x in a[1..] <==> x in a && x != a[0] { InTail(key, a, x); }
    forall x ensures x in b[1..] <==> x in b && x != b[0] { InTail(key, b, x); }
  }

  lemma InTail<T(!new)>(key: T -> string, s: seq<T>, x: T)
    requires Ascending(key, s) && s != []
    ensures x in s[1..] <==> x in s && x != s[0]
  {
    if x in s[1..] { var i :| 0 <= i < |s[1..]| && s[1..][i] == x; assert key(s[0]) != key(s[i + 1]); }
    if x in s && x != s[0] { var i :| 0 <= i < |s| && s[i] == x; assert s[1..][i - 1] == x; }
  }

  lemma FirstOf<T>(s: seq<T>) returns (x: T)
    requires s != []
    ensures x in s
  {
    x := s[0];
  }

  /** A strictly ascending sequence is determined by its elements. */
  lemma {:induction false} AscendingUnique<T(!new)>(key: T -> string, a: seq<T>, b: seq<T>)
    requires Ascending(key, a) && Ascending(key, b) && SameElements(a, b)
    ensures a == b
    decreases |a|
  {
    if a == [] {
      if b != [] { var x := FirstOf(b); }
    } else {
      assert a[0] in b;
      SameTails(key, a, b);
      AscendingUnique(key, a[1..], b[1..]);
      assert a == [a[0]] + a[1..] && b == [b[0]] + b[1..];
    }
  }
}
