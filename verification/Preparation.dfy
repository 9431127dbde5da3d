/** Preparing a graph publication from the stored batches, and why it publishes what was extracted. */
module Preparation {
  import opened Prelude
  import opened Protocol
  import opened Ordering
  import opened Diagnostics
  import opened KeyedMap
  import opened FragmentMerge
  import opened FactStore
  import Publication

  type PublishRequest = Publication.PublishRequest
  type StoreError = Publication.StoreError

  /** The merged facts of a batch stream, in id order; diagnostics in the order of their encodings. */
  datatype PreparedGraph = PreparedGraph(target: FactTarget, extractorSet: string, facts: Fragment)

  function FragmentsOf(batches: seq<Batch>): (r: seq<Fragment>)
    ensures |r| == |batches|
  {
    seq(|batches|, i requires 0 <= i < |batches| => batches[i].payload.facts)
  }

  /** The batch was extracted for the requested snapshot, like the first one. */
  predicate TargetMatches(req: PublishRequest, first: Batch, b: Batch)
  {
    && b.target.kind == RepositoryGraph && b.target.project == req.project
    && b.target.repositoryId == req.RepositoryId() && b.target.id == req.targetId
    && b.target == first.target && b.extractorSet == first.extractorSet
  }

  ghost predicate TargetsMatch(req: PublishRequest, batches: seq<Batch>)
  {
    forall i :: 0 <= i < |batches| ==> TargetMatches(req, batches[0], batches[i])
  }

  /** Every relationship finds the facts it refers to. */
  predicate Closed(primary: seq<Entry>, relationships: seq<Entry>)
  {
    forall e :: e in relationships ==> forall r :: r in e.refs ==> exists n :: n in primary && n.id == r
  }

  ghost function FactTotal(fs: seq<Fragment>): nat
  {
    |(set e | e in Primaries(fs))| + |(set e | e in Relationships(fs))| + |(set d | d in AllDiagnostics(fs))|
  }

  /** What a stream must be for its preparation to succeed. */
  ghost predicate Preparable(req: PublishRequest, batches: seq<Batch>, maxFacts: nat)
  {
    var fs := FragmentsOf(batches);
    && ValidBatchStream(req.job, batches) && TargetsMatch(req, batches)
    && Mergeable(fs) && Closed(Primaries(fs), Relationships(fs)) && FactTotal(fs) <= maxFacts
  }

  /** The prepared facts are exactly those of the batches, each once and in order. */
  ghost predicate IsPrepared(batches: seq<Batch>, p: PreparedGraph)
  {
    var fs := FragmentsOf(batches);
    && batches != [] && p.target == batches[0].target && p.extractorSet == batches[0].extractorSet
    && Ascending(EntryId, p.facts.primary) && SameElements(p.facts.primary, Primaries(fs))
    && Ascending(EntryId, p.facts.relationships) && SameElements(p.facts.relationships, Relationships(fs))
    && Ascending(Encoding, p.facts.diagnostics) && SameElements(p.facts.diagnostics, AllDiagnostics(fs))
  }

  /** The batch stands in its place in a whole stream of the job. */
  predicate StandsAt(req: PublishRequest, batches: seq<Batch>, i: nat)
    requires i < |batches|
  {
    var b := batches[i];
    && b.Valid() && b.job == req.job && b.shard == batches[0].shard && b.sequence == i
    && (b.finalBatch <==> i == |batches| - 1)
  }

  /** The batch was made for the requested snapshot, by the same build and extractors as the first. */
  predicate MadeFor(req: PublishRequest, batches: seq<Batch>, i: nat)
    requires i < |batches|
  {
    var t := batches[i].target;
    && t == FactTarget(RepositoryGraph, req.project, req.RepositoryId(), req.targetId, t.identity, t.buildId)
    && t.identity == batches[0].target.identity && t.buildId == batches[0].target.buildId
    && batches[i].extractorSet == batches[0].extractorSet
  }

  /** Everything a preparation checks: the batches are one whole stream of the job, all made for the requested
      snapshot, they agree on every fact they share, no relationship refers to a fact that is not there, and
      there are not too many facts. */
  lemma PreparableMeaning(req: PublishRequest, batches: seq<Batch>, maxFacts: nat)
    ensures var fs := FragmentsOf(batches);
            Preparable(req, batches, maxFacts) <==>
              && batches != [] && (forall i :: 0 <= i < |batches| ==> StandsAt(req, batches, i))
              && (forall i :: 0 <= i < |batches| ==> MadeFor(req, batches, i))
              && (forall a, b :: a in Primaries(fs) && b in Primaries(fs) && a.id == b.id ==> a == b)
              && (forall a, b :: a in Relationships(fs) && b in Relationships(fs) && a.id == b.id ==> a == b)
              && (forall e, r :: e in Relationships(fs) && r in e.refs ==> exists n :: n in Primaries(fs) && n.id == r)
              && FactTotal(fs) <= maxFacts
  {
    var fs := FragmentsOf(batches);
    StreamMeaning(req, batches);
    TargetsMeaning(req, batches);
    assert Consistent(EntryId, Primaries(fs)) <==>
           forall a, b :: a in Primaries(fs) && b in Primaries(fs) && a.id == b.id ==> a == b;
    assert Consistent(EntryId, Relationships(fs)) <==>
           forall a, b :: a in Relationships(fs) && b in Relationships(fs) && a.id == b.id ==> a == b;
  }

  lemma StreamMeaning(req: PublishRequest, batches: seq<Batch>)
    ensures ValidBatchStream(req.job, batches) <==>
            batches != [] && forall i :: 0 <= i < |batches| ==> StandsAt(req, batches, i)
  {
    if batches != [] && (forall i :: 0 <= i < |batches| ==> StandsAt(req, batches, i)) {
      forall i | 0 <= i < |batches|
        ensures && batches[i].Valid() && batches[i].job == req.job && batches[i].shard == batches[0].shard
                && batches[i].sequence == i && (batches[i].finalBatch <==> i + 1 == |batches|)
      {
        assert StandsAt(req, batches, i);
      }
    }
  }

  lemma TargetsMeaning(req: PublishRequest, batches: seq<Batch>)
    ensures TargetsMatch(req, batches) <==> forall i :: 0 <= i < |batches| ==> MadeFor(req, batches, i)
  {
    if forall i :: 0 <= i < |batches| ==> MadeFor(req, batches, i) {
      forall i | 0 <= i < |batches| ensures TargetMatches(req, batches[0], batches[i]) {
        assert MadeFor(req, batches, 0) && MadeFor(req, batches, i);
      }
    }
    if TargetsMatch(req, batches) {
      forall i | 0 <= i < |batches| ensures MadeFor(req, batches, i) {
        assert TargetMatches(req, batches[0], batches[i]);
      }
    }
  }

  // ---------------------------------------------------------------- preparing

  lemma DiagnosticsConsistent(s: seq<Diagnostic>)
    ensures Consistent(Encoding, s)
  {
    forall x, y | x in s && y in s && Encoding(x) == Encoding(y) ensures x == y { EncodingInjective(x, y); }
  }

  lemma {:induction false} PrefixFacts(fs: seq<Fragment>, n: nat)
    requires n <= |fs|
    ensures forall e :: e in Primaries(fs[..n]) ==> e in Primaries(fs)
    ensures forall e :: e in Relationships(fs[..n]) ==> e in Relationships(fs)
    decreases |fs|
  {
    if n == |fs| {
      assert fs[..n] == fs;
    } else {
      assert fs[..|fs| - 1][..n] == fs[..n];
      PrefixFacts(fs[..|fs| - 1], n);
    }
  }

  /** A stream that already contradicts itself stays contradictory. */
  lemma MergeablePrefix(fs: seq<Fragment>, n: nat)
    requires n <= |fs| && Mergeable(fs)
    ensures Mergeable(fs[..n])
  {
    PrefixFacts(fs, n);
  }

  lemma NextFragment(fs: seq<Fragment>, i: nat)
    requires i < |fs|
    ensures fs[..i] + [fs[i]] == fs[..i + 1]
    ensures AllDiagnostics(fs[..i + 1]) == AllDiagnostics(fs[..i]) + fs[i].diagnostics
  {
    assert fs[..i + 1][..i] == fs[..i];
  }

  /** Merge the payloads of the batches, or report the first contradiction. */
  method MergeBatches(req: PublishRequest, batches: seq<Batch>)
    returns (r: Result<(map<string, Entry>, map<string, Entry>, map<string, Diagnostic>), StoreError>)
    ensures r.Ok? <==> TargetsMatch(req, batches) && Mergeable(FragmentsOf(batches))
    ensures r.Ok? ==>
              && FragmentMerge.Holds(r.value.0, r.value.1, FragmentsOf(batches))
              && Indexes(Encoding, r.value.2, AllDiagnostics(FragmentsOf(batches)))
  {
    var fs := FragmentsOf(batches);
    var nodes: map<string, Entry>, edges: map<string, Entry>, diagnostics: map<string, Diagnostic> :=
        map[], map[], map[];
    for i := 0 to |batches|
      invariant forall j :: 0 <= j < i ==> TargetMatches(req, batches[0], batches[j])
      invariant FragmentMerge.Holds(nodes, edges, fs[..i]) && Mergeable(fs[..i])
      invariant Indexes(Encoding, diagnostics, AllDiagnostics(fs[..i]))
    {
      if !TargetMatches(req, batches[0], batches[i]) { return Err(Publication.InvalidInput); }
      NextFragment(fs, i);
      var ok;
      ok, nodes, edges := MergeMemoryFragment(nodes, edges, fs[i], fs[..i]);
      if !ok {
        if Mergeable(fs) { MergeablePrefix(fs, i + 1); }
        return Err(Publication.FactConflict);
      }
      DiagnosticsConsistent(AllDiagnostics(fs[..i]) + fs[i].diagnostics);
      ok, diagnostics := Absorb(Encoding, diagnostics, fs[i].diagnostics, AllDiagnostics(fs[..i]));
      if !ok { return Err(Publication.FactConflict); }
    }
    assert fs[..|fs|] == fs;
    r := Ok((nodes, edges, diagnostics));
  }

  lemma ClosedSame(a: seq<Entry>, b: seq<Entry>, x: seq<Entry>, y: seq<Entry>)
    requires SameElements(a, b) && SameElements(x, y)
    ensures Closed(a, x) <==> Closed(b, y)
  {
  }

  /** Succeeds exactly on a whole, consistent, closed stream of the requested snapshot within the limit, and
      then yields exactly its facts. */
  method PrepareGraph(req: PublishRequest, batches: seq<Batch>, maxFacts: nat)
    returns (r: Result<PreparedGraph, StoreError>)
    ensures r.Ok? <==> Preparable(req, batches, maxFacts)
    ensures r.Ok? ==> IsPrepared(batches, r.value)
  {
    if !ValidBatchStream(req.job, batches) { return Err(Publication.InvalidInput); }
    var maps :- MergeBatches(req, batches);
    ghost var fs := FragmentsOf(batches);
    var nodes := ValuesInOrder(EntryId, maps.0, Primaries(fs));
    var edges := ValuesInOrder(EntryId, maps.1, Relationships(fs));
    var diagnostics := ValuesInOrder(Encoding, maps.2, AllDiagnostics(fs));
    ClosedSame(nodes, Primaries(fs), edges, Relationships(fs));
    AscendingCount(EntryId, nodes, Primaries(fs));
    AscendingCount(EntryId, edges, Relationships(fs));
    AscendingCount(Encoding, diagnostics, AllDiagnostics(fs));
    if !Closed(nodes, edges) { return Err(Publication.FactConflict); }
    if |nodes| + |edges| + |diagnostics| > maxFacts { return Err(Publication.QuotaExceeded); }
    r := Ok(PreparedGraph(batches[0].target, batches[0].extractorSet, Fragment(nodes, edges, diagnostics)));
  }
}
