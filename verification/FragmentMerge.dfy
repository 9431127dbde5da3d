/** Merging extracted fragments into one output, and why the order they arrive in does not matter. */
module FragmentMerge {
  import opened Prelude
  import opened Ordering
  import opened Diagnostics
  import opened JsonSort
  import opened KeyedMap

  datatype WorkerError = OutputLimitExceeded | FactConflict | ExtractionFailed

  /** A node, edge, entity or relationship: its id, the facts it refers to, and everything else about it. */
  datatype Entry = Entry(id: string, refs: seq<string>, body: string)

  datatype Fragment = Fragment(primary: seq<Entry>, relationships: seq<Entry>, diagnostics: seq<Diagnostic>)

  function EntryId(e: Entry): string { e.id }
  predicate EntryLeq(a: Entry, b: Entry) { LexLeq(a.id, b.id) }

  function Primaries(fs: seq<Fragment>): seq<Entry>
  {
    if fs == [] then [] else Primaries(fs[..|fs| - 1]) + fs[|fs| - 1].primary
  }

  function Relationships(fs: seq<Fragment>): seq<Entry>
  {
    if fs == [] then [] else Relationships(fs[..|fs| - 1]) + fs[|fs| - 1].relationships
  }

  function AllDiagnostics(fs: seq<Fragment>): seq<Diagnostic>
  {
    if fs == [] then [] else AllDiagnostics(fs[..|fs| - 1]) + fs[|fs| - 1].diagnostics
  }

  // ---------------------------------------------------------------- merging

  /** No two facts of the fragments share an id and differ. */
  ghost predicate Mergeable(fs: seq<Fragment>)
  {
    Consistent(EntryId, Primaries(fs)) && Consistent(EntryId, Relationships(fs))
  }

  ghost predicate Holds(primary: map<string, Entry>, relationships: map<string, Entry>, fs: seq<Fragment>)
  {
    Indexes(EntryId, primary, Primaries(fs)) && Indexes(EntryId, relationships, Relationships(fs))
  }

  method MergeMemoryFragment(entities: map<string, Entry>, relationships: map<string, Entry>, fragment: Fragment,
                             ghost merged: seq<Fragment>)
    returns (ok: bool, entities': map<string, Entry>, relationships': map<string, Entry>)
    requires Holds(entities, relationships, merged)
    ensures ok <==> Mergeable(merged + [fragment])
    ensures ok ==> Holds(entities', relationships', merged + [fragment])
  {
    assert (merged + [fragment])[..|merged|] == merged;
    relationships' := relationships;
    ok, entities' := Absorb(EntryId, entities, fragment.primary, Primaries(merged));
    if ok {
      ok, relationships' := Absorb(EntryId, relationships, fragment.relationships, Relationships(merged));
    }
  }

  class GraphMerger {
    var primary: map<string, Entry>
    var relationships: map<string, Entry>
    var diagnostics: seq<Diagnostic>
    ghost var merged: seq<Fragment>

    /** The maps and the list hold exactly what was merged so far. */
    ghost predicate Valid()
      reads this
    {
      Holds(primary, relationships, merged) && diagnostics == AllDiagnostics(merged)
    }

    constructor ()
      ensures Valid() && merged == []
    {
      primary, relationships, diagnostics, merged := map[], map[], [], [];
    }

    /** Succeeds exactly when no two facts merged so far share an id and differ. */
    method Merge(fragment: Fragment) returns (ok: bool)
      requires Valid()
      modifies this
      ensures ok <==> Mergeable(old(merged) + [fragment])
      ensures ok ==> Valid() && merged == old(merged) + [fragment]
    {
      var nodes, edges;
      ok, nodes, edges := MergeMemoryFragment(primary, relationships, fragment, merged);
      primary, relationships := nodes, edges;
      if ok {
        assert (merged + [fragment])[..|merged|] == merged;
        diagnostics, merged := diagnostics + fragment.diagnostics, merged + [fragment];
      }
    }

    /** Serializing diagnostics is the only step that could fail, and it never does. */
    method Finish(maxDiagnostics: nat) returns (r: Result<Fragment, WorkerError>)
      requires Valid()
      ensures r.Ok? && Finished(merged, maxDiagnostics, r.value)
    {
      var sorted := SortByJsonKey(diagnostics, DiagnosticKey);
      if sorted.None? { return Err(ExtractionFailed); }
      var nodes := ValuesInOrder(EntryId, primary, Primaries(merged));
      var edges := ValuesInOrder(EntryId, relationships, Relationships(merged));
      r := Ok(Fragment(nodes, edges, Truncate(Dedup(sorted.value), maxDiagnostics)));
    }
  }

  // ---------------------------------------------------------------- the finished fragment

  /** Drop repetitions of the value just before. */
  function Dedup(s: seq<Diagnostic>): seq<Diagnostic>
  {
    if |s| < 2 then s else if s[0] == s[1] then Dedup(s[1..]) else [s[0]] + Dedup(s[1..])
  }

  function Truncate(s: seq<Diagnostic>, max: nat): seq<Diagnostic> { if |s| <= max then s else s[..max] }

  predicate DiagnosticLeq(a: Diagnostic, b: Diagnostic) { LexLeq(Encoding(a), Encoding(b)) }

  /** Sorted by encoding, deduplicated, truncated. */
  function Canonical(ds: seq<Diagnostic>, max: nat): seq<Diagnostic>
  {
    Truncate(Dedup(SortedByKey(DiagnosticKey, ds)), max)
  }

  ghost predicate Finished(fs: seq<Fragment>, max: nat, r: Fragment)
  {
    && Ascending(EntryId, r.primary) && SameElements(r.primary, Primaries(fs))
    && Ascending(EntryId, r.relationships) && SameElements(r.relationships, Relationships(fs))
    && r.diagnostics == Canonical(AllDiagnostics(fs), max)
  }

  lemma SortedDiagnostics(ds: seq<Diagnostic>)
    ensures SortedBy(DiagnosticLeq, SortedByKey(DiagnosticKey, ds)) && SameElements(SortedByKey(DiagnosticKey, ds), ds)
  {
    JsonOrderIsStable(DiagnosticKey, ds, "");
    var r := SortedByKey(DiagnosticKey, ds);
    forall i, j | 0 <= i < j < |r| ensures DiagnosticLeq(r[i], r[j]) {
      assert LexLeq(KeyOf(DiagnosticKey, r[i]), KeyOf(DiagnosticKey, r[j]));
    }
    SameMembers(r, ds);
  }

  lemma HeadBelow(s: seq<Diagnostic>, x: Diagnostic)
    requires SortedBy(DiagnosticLeq, s) && |s| >= 2 && s[0] != s[1] && x in s[1..]
    ensures LexLeq(Encoding(s[0]), Encoding(x)) && Encoding(s[0]) != Encoding(x)
  {
    var i :| 0 <= i < |s[1..]| && s[1..][i] == x;
    assert x == s[i + 1] && DiagnosticLeq(s[0], x) && (i > 0 ==> DiagnosticLeq(s[1], x));
    assert DiagnosticLeq(s[0], s[1]);
    LexTotal(Encoding(s[0]), Encoding(s[1]));
    if Encoding(s[0]) == Encoding(s[1]) { EncodingInjective(s[0], s[1]); }
  }

  /** Deduplicating a sorted list leaves each diagnostic once, in ascending order. */
  lemma {:induction false} DedupAscends(s: seq<Diagnostic>)
    requires SortedBy(DiagnosticLeq, s)
    ensures Ascending(Encoding, Dedup(s)) && SameElements(Dedup(s), s)
  {
    if |s| >= 2 {
      var rest := s[1..];
      DedupAscends(rest);
      assert s == [s[0]] + rest;
      if s[0] == s[1] {
        assert rest[0] == s[0];
      } else {
        DedupStep(s);
      }
    }
  }

  lemma DedupStep(s: seq<Diagnostic>)
    requires SortedBy(DiagnosticLeq, s) && |s| >= 2 && s[0] != s[1]
    requires Ascending(Encoding, Dedup(s[1..])) && SameElements(Dedup(s[1..]), s[1..])
    ensures Ascending(Encoding, [s[0]] + Dedup(s[1..]))
  {
    var rest := Dedup(s[1..]);
    forall i | 0 <= i < |rest|
      ensures LexLeq(Encoding(s[0]), Encoding(rest[i])) && Encoding(s[0]) != Encoding(rest[i])
    {
      assert rest[i] in rest;
      HeadBelow(s, rest[i]);
    }
    PrependAscends(Encoding, s[0], rest);
  }

  /** The finished diagnostics are the first ones by encoding, each once: all of them when there are few enough,
      and otherwise as many as allowed, none of which comes after one left out. */
  lemma CanonicalMeaning(ds: seq<Diagnostic>, max: nat)
    ensures var r := Canonical(ds, max);
            && |r| <= max && Ascending(Encoding, r) && (forall d :: d in r ==> d in ds)
            && forall d :: d in ds && d !in r ==>
                 |r| == max && forall e :: e in r ==> LexLeq(Encoding(e), Encoding(d))
  {
    var sorted := SortedByKey(DiagnosticKey, ds);
    SortedDiagnostics(ds);
    DedupAscends(sorted);
    var all := Dedup(sorted);
    TruncateKeepsFirst(all, max);
    assert forall d :: d in ds <==> d in all;
  }

  /** Of an ascending list truncation keeps the first, so what is left out comes after what is kept. */
  lemma TruncateKeepsFirst(all: seq<Diagnostic>, max: nat)
    requires Ascending(Encoding, all)
    ensures var r := Truncate(all, max);
            && |r| <= max && Ascending(Encoding, r) && (forall d :: d in r ==> d in all)
            && forall d :: d in all && d !in r ==>
                 |r| == max && forall e :: e in r ==> LexLeq(Encoding(e), Encoding(d))
  {
    var r := Truncate(all, max);
    forall i | 0 <= i < |r| ensures r[i] == all[i] {}
    forall d, e | d in all && d !in r && e in r ensures LexLeq(Encoding(e), Encoding(d)) {
      var i, j :| 0 <= i < |r| && r[i] == e && |r| <= j < |all| && all[j] == d;
    }
  }

  lemma CanonicalDependsOnSet(a: seq<Diagnostic>, b: seq<Diagnostic>, max: nat)
    requires SameElements(a, b)
    ensures Canonical(a, max) == Canonical(b, max)
  {
    var x, y := SortedByKey(DiagnosticKey, a), SortedByKey(DiagnosticKey, b);
    SortedDiagnostics(a);
    SortedDiagnostics(b);
    DedupAscends(x);
    DedupAscends(y);
    AscendingUnique(Encoding, Dedup(x), Dedup(y));
  }

  /** The finished output depends only on which facts were merged: any order, any grouping into fragments
      and any repetition gives the same nodes, edges and diagnostics. */
  lemma MergeIsOrderIndependent(a: seq<Fragment>, b: seq<Fragment>, max: nat, x: Fragment, y: Fragment)
    requires SameElements(Primaries(a), Primaries(b)) && SameElements(Relationships(a), Relationships(b))
    requires SameElements(AllDiagnostics(a), AllDiagnostics(b))
    requires Finished(a, max, x) && Finished(b, max, y)
    ensures x == y
  {
    AscendingUnique(EntryId, x.primary, y.primary);
    AscendingUnique(EntryId, x.relationships, y.relationships);
    CanonicalDependsOnSet(AllDiagnostics(a), AllDiagnostics(b), max);
  }

  lemma {:induction false} FactsOf(fs: seq<Fragment>)
    ensures forall e :: e in Primaries(fs) <==> exists f :: f in fs && e in f.primary
    ensures forall e :: e in Relationships(fs) <==> exists f :: f in fs && e in f.relationships
    ensures forall d :: d in AllDiagnostics(fs) <==> exists f :: f in fs && d in f.diagnostics
  {
    if fs != [] {
      FactsOf(fs[..|fs| - 1]);
      assert fs == fs[..|fs| - 1] + [fs[|fs| - 1]];
    }
  }

  /** Permuting the fragments changes neither whether merging succeeds nor what it yields. */
  lemma PermutationsMergeAlike(a: seq<Fragment>, b: seq<Fragment>)
    requires multiset(a) == multiset(b)
    ensures SameElements(Primaries(a), Primaries(b)) && SameElements(Relationships(a), Relationships(b))
    ensures SameElements(AllDiagnostics(a), AllDiagnostics(b))
    ensures Mergeable(a) <==> Mergeable(b)
  {
    FactsOf(a);
    FactsOf(b);
    SameMembers(a, b);
  }
}
