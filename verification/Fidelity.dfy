/** From extraction to preparation: what the publisher reads, validates and merges is what was extracted. */
module Fidelity {
  import opened Protocol
  import opened Ordering
  import opened Diagnostics
  import opened JsonSort
  import opened KeyedMap
  import opened FragmentMerge
  import opened Chunking
  import opened FactStore
  import opened FactInvariant
  import opened Convergence
  import opened Emission
  import opened Preparation

  // ---------------------------------------------------------------- the facts of a stream

  predicate IsPrimary(i: Item) { i.PrimaryItem? }
  predicate IsRelationship(i: Item) { i.RelationshipItem? }
  predicate IsDiagnostic(i: Item) { i.DiagnosticItem? }

  lemma {:induction false} FilterAll(p: Item -> bool, s: seq<Item>)
    requires forall i :: 0 <= i < |s| ==> p(s[i])
    ensures Filter(p, s) == s
  {
    if s != [] { FilterAll(p, s[1..]); }
  }

  lemma PrimaryPart(f: Fragment)
    ensures Filter(IsPrimary, Flat(f)) == PrimaryItems(f.primary)
  {
    var p, r, d := PrimaryItems(f.primary), RelationshipItems(f.relationships), DiagnosticItems(f.diagnostics);
    PartsOf(IsPrimary, p, r, d);
    FilterAll(IsPrimary, p);
    FilterNone(IsPrimary, r);
    FilterNone(IsPrimary, d);
  }

  lemma RelationshipPart(f: Fragment)
    ensures Filter(IsRelationship, Flat(f)) == RelationshipItems(f.relationships)
  {
    var p, r, d := PrimaryItems(f.primary), RelationshipItems(f.relationships), DiagnosticItems(f.diagnostics);
    PartsOf(IsRelationship, p, r, d);
    FilterNone(IsRelationship, p);
    FilterAll(IsRelationship, r);
    FilterNone(IsRelationship, d);
  }

  lemma DiagnosticPart(f: Fragment)
    ensures Filter(IsDiagnostic, Flat(f)) == DiagnosticItems(f.diagnostics)
  {
    var p, r, d := PrimaryItems(f.primary), RelationshipItems(f.relationships), DiagnosticItems(f.diagnostics);
    PartsOf(IsDiagnostic, p, r, d);
    FilterNone(IsDiagnostic, p);
    FilterNone(IsDiagnostic, r);
    FilterAll(IsDiagnostic, d);
  }

  /** The three kinds of fact of one payload, taken apart again. */
  lemma FlatParts(f: Fragment)
    ensures Filter(IsPrimary, Flat(f)) == PrimaryItems(f.primary)
    ensures Filter(IsRelationship, Flat(f)) == RelationshipItems(f.relationships)
    ensures Filter(IsDiagnostic, Flat(f)) == DiagnosticItems(f.diagnostics)
  {
    PrimaryPart(f);
    RelationshipPart(f);
    DiagnosticPart(f);
  }

  lemma PartsOf(p: Item -> bool, x: seq<Item>, y: seq<Item>, z: seq<Item>)
    ensures Filter(p, x + y + z) == Filter(p, x) + Filter(p, y) + Filter(p, z)
  {
    FilterConcat(p, x + y, z);
    FilterConcat(p, x, y);
  }

  lemma ItemsConcat(a: seq<Entry>, b: seq<Entry>, c: seq<Diagnostic>, d: seq<Diagnostic>)
    ensures PrimaryItems(a + b) == PrimaryItems(a) + PrimaryItems(b)
    ensures RelationshipItems(a + b) == RelationshipItems(a) + RelationshipItems(b)
    ensures DiagnosticItems(c + d) == DiagnosticItems(c) + DiagnosticItems(d)
  {
  }

  lemma {:induction false} StreamParts(fs: seq<Fragment>)
    ensures Filter(IsPrimary, Stream(fs)) == PrimaryItems(Primaries(fs))
    ensures Filter(IsRelationship, Stream(fs)) == RelationshipItems(Relationships(fs))
    ensures Filter(IsDiagnostic, Stream(fs)) == DiagnosticItems(AllDiagnostics(fs))
  {
    if fs != [] {
      var init, f := fs[..|fs| - 1], fs[|fs| - 1];
      StreamParts(init);
      FlatParts(f);
      StreamLast(fs);
      FilterConcat(IsPrimary, Stream(init), Flat(f));
      FilterConcat(IsRelationship, Stream(init), Flat(f));
      FilterConcat(IsDiagnostic, Stream(init), Flat(f));
      ItemsConcat(Primaries(init), f.primary, AllDiagnostics(init), f.diagnostics);
      ItemsConcat(Relationships(init), f.relationships, [], []);
    }
  }

  lemma StreamLast(fs: seq<Fragment>)
    requires fs != []
    ensures Stream(fs) == Stream(fs[..|fs| - 1]) + Flat(fs[|fs| - 1])
  {
    var init, f := fs[..|fs| - 1], fs[|fs| - 1];
    StreamAppend(init, f, []);
    assert fs == init + [f];
    assert Stream(fs) + [] == Stream(fs) && Flat(f) + [] == Flat(f);
  }

  lemma PrimariesInjective(a: seq<Entry>, b: seq<Entry>)
    requires PrimaryItems(a) == PrimaryItems(b)
    ensures a == b
  {
    assert |PrimaryItems(a)| == |PrimaryItems(b)|;
    forall i | 0 <= i < |a| ensures a[i] == b[i] { assert PrimaryItems(a)[i] == PrimaryItems(b)[i]; }
  }

  lemma RelationshipsInjective(a: seq<Entry>, b: seq<Entry>)
    requires RelationshipItems(a) == RelationshipItems(b)
    ensures a == b
  {
    assert |RelationshipItems(a)| == |RelationshipItems(b)|;
    forall i | 0 <= i < |a| ensures a[i] == b[i] { assert RelationshipItems(a)[i] == RelationshipItems(b)[i]; }
  }

  lemma DiagnosticsInjective(a: seq<Diagnostic>, b: seq<Diagnostic>)
    requires DiagnosticItems(a) == DiagnosticItems(b)
    ensures a == b
  {
    assert |DiagnosticItems(a)| == |DiagnosticItems(b)|;
    forall i | 0 <= i < |a| ensures a[i] == b[i] { assert DiagnosticItems(a)[i] == DiagnosticItems(b)[i]; }
  }

  /** Payloads that carry the stream of one fragment carry exactly its facts. */
  lemma StreamFacts(fs: seq<Fragment>, g: Fragment)
    requires Stream(fs) == Flat(g)
    ensures Primaries(fs) == g.primary && Relationships(fs) == g.relationships && AllDiagnostics(fs) == g.diagnostics
  {
    StreamParts(fs);
    FlatParts(g);
    PrimariesInjective(Primaries(fs), g.primary);
    RelationshipsInjective(Relationships(fs), g.relationships);
    DiagnosticsInjective(AllDiagnostics(fs), g.diagnostics);
  }

  // ---------------------------------------------------------------- prepared is extracted

  /** A fragment as the merger finishes it: every fact once, in order. */
  ghost predicate InOrder(f: Fragment)
  {
    Ascending(EntryId, f.primary) && Ascending(EntryId, f.relationships) && Ascending(Encoding, f.diagnostics)
  }

  lemma FinishedInOrder(fs: seq<Fragment>, max: nat, r: Fragment)
    requires Finished(fs, max, r)
    ensures InOrder(r)
  {
    SortedDiagnostics(AllDiagnostics(fs));
    DedupAscends(SortedByKey(DiagnosticKey, AllDiagnostics(fs)));
  }

  /** Sorting for emission neither adds nor drops a fact. */
  lemma OrderedFacts(f: Fragment)
    ensures SameElements(Ordered(f).primary, f.primary) && SameElements(Ordered(f).relationships, f.relationships)
    ensures SameElements(Ordered(f).diagnostics, f.diagnostics)
  {
    OrderedMeaning(f);
    SameMembers(Ordered(f).primary, f.primary);
    SameMembers(Ordered(f).relationships, f.relationships);
    SameMembers(Ordered(f).diagnostics, f.diagnostics);
  }

  /** Whatever payloads a finished fragment was cut and split into, preparing their batches gives it back. */
  lemma PreparedIsExtracted(f: Fragment, batches: seq<Batch>, p: PreparedGraph)
    requires InOrder(f) && Stream(FragmentsOf(batches)) == Flat(Ordered(f)) && IsPrepared(batches, p)
    ensures p.facts == f
  {
    StreamFacts(FragmentsOf(batches), Ordered(f));
    OrderedFacts(f);
    AscendingUnique(EntryId, p.facts.primary, f.primary);
    AscendingUnique(EntryId, p.facts.relationships, f.relationships);
    AscendingUnique(Encoding, p.facts.diagnostics, f.diagnostics);
  }

  lemma AscendingIsConsistent<T(!new)>(key: T -> string, s: seq<T>, t: seq<T>)
    requires Ascending(key, s) && SameElements(s, t)
    ensures Consistent(key, t)
  {
    forall x, y | x in t && y in t && key(x) == key(y) ensures x == y {
      var i, j :| 0 <= i < |s| && s[i] == x && 0 <= j < |s| && s[j] == y;
    }
  }

  /** The preparation of an emitted output succeeds exactly when it is closed and within the limit. */
  lemma PreparableIff(f: Fragment, req: PublishRequest, batches: seq<Batch>, maxFacts: nat)
    requires InOrder(f) && Stream(FragmentsOf(batches)) == Flat(Ordered(f))
    requires ValidBatchStream(req.job, batches) && TargetsMatch(req, batches)
    ensures Preparable(req, batches, maxFacts) <==> Closed(f.primary, f.relationships) && Count(f) <= maxFacts
  {
    var fs := FragmentsOf(batches);
    StreamFacts(fs, Ordered(f));
    OrderedFacts(f);
    AscendingIsConsistent(EntryId, f.primary, Primaries(fs));
    AscendingIsConsistent(EntryId, f.relationships, Relationships(fs));
    ClosedSame(Primaries(fs), f.primary, Relationships(fs), f.relationships);
    AscendingCount(EntryId, f.primary, Primaries(fs));
    AscendingCount(EntryId, f.relationships, Relationships(fs));
    AscendingCount(Encoding, f.diagnostics, AllDiagnostics(fs));
  }

  // ---------------------------------------------------------------- through the store

  /** A whole stored stream is listed as the very batches that were emitted. */
  lemma ListedIsEmitted(rows: Rows, stream: seq<Batch>, job: JobRef, shard: string, quota: FactQuota, out: seq<Batch>)
    requires RowsOk(rows) && IsOutput(stream, job, shard, quota)
    requires HoldsPrefix(rows, stream, job, shard, |stream|) && IsListing(rows, job, out)
    ensures out == stream
  {
    assert WholeStream(rows, job, shard, |stream|);
    WholeListing(rows, job, out, shard, |stream|);
    forall i | 0 <= i < |stream| ensures out[i] == stream[i] {
      assert out[i].Key() in rows && rows[out[i].Key()] == out[i];
    }
  }

  lemma EmittedFragments(source: Source, payloads: seq<Fragment>)
    ensures FragmentsOf(source.Emitted(payloads)) == payloads
  {
  }

  lemma EmittedTargets(source: Source, payloads: seq<Fragment>, req: PublishRequest)
    requires source.target.kind == RepositoryGraph && source.target.project == req.project
    requires source.target.repositoryId == req.RepositoryId() && source.target.id == req.targetId
    ensures TargetsMatch(req, source.Emitted(payloads))
  {
  }

  /** The payloads carry a finished fragment and fit into batches. */
  ghost predicate Emits(f: Fragment, source: Source, payloads: seq<Fragment>, maxBytes: nat, quota: FactQuota)
  {
    && InOrder(f) && payloads != [] && Stream(payloads) == Flat(Ordered(f)) && maxBytes <= quota.maxBatchBytes
    && Sized(payloads, [], source.MeasureBatch, maxBytes).Ok?
  }

  /** The batches every attempt at the job emits. */
  ghost function Output(source: Source, payloads: seq<Fragment>, maxBytes: nat): seq<Batch>
    requires Sized(payloads, [], source.MeasureBatch, maxBytes).Ok?
  {
    source.Emitted(Sized(payloads, [], source.MeasureBatch, maxBytes).value)
  }

  /** The job extracted the snapshot that is to be published. */
  predicate ExtractedFor(source: Source, req: PublishRequest)
  {
    && req.job == source.job && source.target.kind == RepositoryGraph && source.target.project == req.project
    && source.target.repositoryId == req.RepositoryId() && source.target.id == req.targetId
  }

  /** Once an attempt has every batch of a finished fragment acknowledged, what the publisher lists, validates
      and merges is that fragment, fact for fact. */
  lemma PublisherReadsTheExtraction(f: Fragment, source: Source, payloads: seq<Fragment>, maxBytes: nat,
                                    quota: FactQuota, rows: Rows, out: seq<Batch>, req: PublishRequest,
                                    maxFacts: nat, p: PreparedGraph)
    requires Emits(f, source, payloads, maxBytes, quota) && ExtractedFor(source, req)
    requires var stream := Output(source, payloads, maxBytes);
             HoldsPrefix(rows, stream, source.job, source.shard, |stream|)
    requires RowsOk(rows) && IsListing(rows, source.job, out)
    ensures Preparable(req, out, maxFacts) <==> Closed(f.primary, f.relationships) && Count(f) <= maxFacts
    ensures IsPrepared(out, p) ==> p.facts == f && p.target == source.target && p.extractorSet == source.extractorSet
  {
    var sized := Sized(payloads, [], source.MeasureBatch, maxBytes).value;
    var stream := source.Emitted(sized);
    SizedPayloadsAreOneOutput(source, payloads, maxBytes, quota);
    SizedPreservesStream(payloads, [], source.MeasureBatch, maxBytes);
    ListedIsEmitted(rows, stream, source.job, source.shard, quota, out);
    EmittedFragments(source, sized);
    EmittedTargets(source, sized, req);
    assert Stream(FragmentsOf(out)) == Flat(Ordered(f)) by { assert Stream([]) + Stream(payloads) == Stream(payloads); }
    PreparableIff(f, req, out, maxFacts);
    if IsPrepared(out, p) { PreparedIsExtracted(f, out, p); }
  }
}
