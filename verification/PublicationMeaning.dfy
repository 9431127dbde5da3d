/** What a publication checks and stores, stated on the request, the prepared output and the tables. */
module PublicationMeaning {
  import opened Prelude
  import opened Protocol
  import opened Coordinator
  import opened JobInvariant
  import opened Publication
  import opened PublicationInvariant
  import opened DataPlane
  import opened Tables

  // ---------------------------------------------------------------- what is added

  /** At most the given revision and revisions of links were added. */
  ghost predicate AddsOnly(before: map<Target, Revision>, after: map<Target, Revision>, t: Target, r: Revision)
  {
    forall u :: u in after && u.domain != LinkDomain ==>
      (u in before && after[u] == before[u]) || (u == t && after[u] == r)
  }

  lemma MoveAddsNothing(pubs: Publications, req: PublishRequest, reused: bool)
    requires MovePointer(pubs, req, reused).Ok?
    ensures MovePointer(pubs, req, reused).value.0.revisions == pubs.revisions
  {
  }

  ghost predicate AddsOnlyLinks(before: map<Target, Revision>, after: map<Target, Revision>)
  {
    forall u :: u in after && u.domain != LinkDomain ==> u in before && after[u] == before[u]
  }

  lemma LinksAddLinks(pubs: Publications, limits: StoreLimits, req: PublishRequest, p: Prepared, now: int)
    requires InsertLinks(pubs, limits, req, p, now).Ok?
    ensures AddsOnlyLinks(pubs.revisions, InsertLinks(pubs, limits, req, p, now).value.revisions)
  {
    if p.links.Some? {
      var l, t := p.links.value, LinkRevision(req.project, p.links.value.target);
      var r := Revision(req.job.jobId, p.buildId, p.extractorSet, l.factDigest, l.counts, l.facts, None,
                                    now);
      var (inserted, _) := InsertRevision(pubs, limits, t, r).value;
      assert AddsOnlyLinks(pubs.revisions, inserted.revisions);
    }
  }

  lemma RevealAddsLinks(pubs: Publications, limits: StoreLimits, req: PublishRequest, p: Prepared,
                        outcome: Outcome, now: int)
    requires Reveal(pubs, limits, req, p, outcome, now).Ok?
    ensures AddsOnlyLinks(pubs.revisions, Reveal(pubs, limits, req, p, outcome, now).value.revisions)
  {
    if outcome.Published? { LinksAddLinks(pubs, limits, req, p, now); }
  }

  lemma IngestAdds(pubs: Publications, limits: StoreLimits, req: PublishRequest, p: Prepared, now: int)
    requires Ingest(pubs, limits, req, p, now).Ok?
    ensures AddsOnly(pubs.revisions, Ingest(pubs, limits, req, p, now).value.0.revisions, req.TargetOf(),
                     RevisionOf(req, p, now))
  {
    var r := RevisionOf(req, p, now);
    var (inserted, reused) := InsertRevision(pubs, limits, req.TargetOf(), r).value;
    MoveAddsNothing(inserted, req, reused);
    var (moved, outcome) := MovePointer(inserted, req, reused).value;
    RevealAddsLinks(moved, limits, req, p, outcome, now);
  }

  // ---------------------------------------------------------------- the stored revision

  /** The key a publication is stored under. */
  function PublishedKey(req: PublishRequest): Target
  {
    if req.PublishGraph? then Target(req.project, GraphDomain, req.repository, req.targetId)
    else Target(req.project, MemoryDomain, "", req.targetId)
  }

  /** The identity stored beside it. */
  function StoredIdentity(req: PublishRequest, p: Prepared): Option<string>
  {
    if req.PublishGraph? then Some(p.identity) else None
  }

  /** A stored revision that the prepared output may reuse. */
  predicate SameRecord(r: Revision, req: PublishRequest, p: Prepared)
  {
    && r.factDigest == p.factDigest && r.extractorSet == p.extractorSet && r.counts == p.counts
    && r.identity == StoredIdentity(req, p)
  }

  /** A publication of either kind stores exactly the facts, digest, counts and build it was prepared with,
      under its own target; a target stored before stays as it is and has the same record. */
  lemma StoresThePrepared(db: Control, pubs: Publications, limits: StoreLimits, req: PublishRequest, p: Prepared,
                          now: int)
    requires QuotasOk(pubs.revisions, limits) && req.Valid() && PublishFresh(db, pubs, limits, req, p, now).Ok?
    ensures var after, t := PublishFresh(db, pubs, limits, req, p, now).value.pubs.revisions, PublishedKey(req);
            && t in after
            && (t !in pubs.revisions ==>
                after[t] == Revision(req.job.jobId, p.buildId, p.extractorSet, p.factDigest, p.counts, p.facts,
                                     StoredIdentity(req, p), now))
            && (t in pubs.revisions ==> after[t] == pubs.revisions[t] && SameRecord(after[t], req, p))
  {
    IngestAdds(pubs, limits, req, p, now);
    FreshEffect(db, pubs, limits, req, p, now);
    if req.TargetOf() in pubs.revisions { SameIdentity(pubs, limits, req, p, now); }
  }

  lemma SameIdentity(pubs: Publications, limits: StoreLimits, req: PublishRequest, p: Prepared, now: int)
    requires Ingest(pubs, limits, req, p, now).Ok? && req.TargetOf() in pubs.revisions
    ensures pubs.revisions[req.TargetOf()].identity == StoredIdentity(req, p)
  {
  }

  /** The job completes, the outcome is recorded under the request, and no other job or receipt changes. */
  lemma CompletesTheJob(db: Control, pubs: Publications, limits: StoreLimits, req: PublishRequest, p: Prepared,
                        now: int)
    requires QuotasOk(pubs.revisions, limits) && req.Valid() && PublishFresh(db, pubs, limits, req, p, now).Ok?
    ensures var c, k := PublishFresh(db, pubs, limits, req, p, now).value, req.job.Key();
            && k in db.jobs
            && c.control == db.(jobs := db.jobs[k := db.jobs[k].(state := Complete, worker := None, leaseUntil := None,
                                                                 failureCode := None, updatedAt := now)])
            && k in c.pubs.receipts && c.pubs.receipts[k].outcome == c.outcome && c.pubs.receipts[k].completedAt == now
            && c.pubs.receipts[k].request == req.(requestId := "")
            && forall other :: other in pubs.receipts && other != k ==>
                 other in c.pubs.receipts && c.pubs.receipts[other] == pubs.receipts[other]
  {
    FreshEffect(db, pubs, limits, req, p, now);
  }

  // ---------------------------------------------------------------- the links of a memory revision

  /** The stored links: a row that joins the revision to the snapshot, and a revision that holds the prepared
      link facts, or one stored before with the same record. */
  ghost predicate LinksStored(before: Publications, after: Publications, req: PublishRequest, p: Prepared, now: int)
    requires p.links.Some?
  {
    var l, t := p.links.value, p.links.value.target;
    var k := LinkKey(req.project, t.repositoryId, req.targetId, t.snapshotId);
    var s := Target(req.project, LinkDomain, t.repositoryId, t.linkSetId);
    && k in after.links && after.links[k].target == t && s in after.revisions
    && after.links[k] == (if k in before.links then before.links[k] else LinkRow(after.revisions[s].jobId, t))
    && (if s in before.revisions
        then && after.revisions[s] == before.revisions[s] && after.revisions[s].factDigest == l.factDigest
             && after.revisions[s].extractorSet == p.extractorSet && after.revisions[s].counts == l.counts
        else after.revisions[s] == Revision(req.job.jobId, p.buildId, p.extractorSet, l.factDigest, l.counts, l.facts,
                                            None, now))
  }

  lemma InsertLinksStores(pubs: Publications, limits: StoreLimits, req: PublishRequest, p: Prepared, now: int)
    requires InsertLinks(pubs, limits, req, p, now).Ok? && p.links.Some?
    ensures LinksStored(pubs, InsertLinks(pubs, limits, req, p, now).value, req, p, now)
  {
  }

  /** The revision inserted before the links is in another domain and does not meet theirs. */
  lemma LinksMeetOthers(pubs: Publications, limits: StoreLimits, req: PublishRequest, p: Prepared, now: int)
    requires Ingest(pubs, limits, req, p, now).Ok? && p.links.Some?
    requires Ingest(pubs, limits, req, p, now).value.1.Published?
    ensures LinksStored(pubs, Ingest(pubs, limits, req, p, now).value.0, req, p, now)
  {
    var (inserted, reused) := InsertRevision(pubs, limits, req.TargetOf(), RevisionOf(req, p, now)).value;
    var (moved, outcome) := MovePointer(inserted, req, reused).value;
    InsertLinksStores(moved, limits, req, p, now);
    MoveAddsNothing(inserted, req, reused);
    MoveKeepsLinks(inserted, req, reused);
    InsertAddsOne(pubs, limits, req.TargetOf(), RevisionOf(req, p, now));
    SameLinksStored(pubs, moved, InsertLinks(moved, limits, req, p, now).value, req, p, now, RevisionOf(req, p, now));
  }

  lemma MoveKeepsLinks(pubs: Publications, req: PublishRequest, reused: bool)
    requires MovePointer(pubs, req, reused).Ok?
    ensures MovePointer(pubs, req, reused).value.0.links == pubs.links
  {
  }

  lemma InsertAddsOne(pubs: Publications, limits: StoreLimits, t: Target, r: Revision)
    requires InsertRevision(pubs, limits, t, r).Ok?
    ensures var after := InsertRevision(pubs, limits, t, r).value.0;
            after.links == pubs.links
                && (after.revisions == pubs.revisions || after.revisions == pubs.revisions[t := r])
  {
  }

  lemma SameLinksStored(before: Publications, between: Publications, after: Publications, req: PublishRequest,
                        p: Prepared, now: int, r: Revision)
    requires p.links.Some? && LinksStored(between, after, req, p, now) && between.links == before.links
    requires between.revisions == before.revisions
          || between.revisions == before.revisions[req.TargetOf() := r]
    ensures LinksStored(before, after, req, p, now)
  {
  }

  /** A memory publication that wins has its links and their facts stored; one that loses stores none. */
  lemma WinnerStoresItsLinks(db: Control, pubs: Publications, limits: StoreLimits, req: PublishRequest, p: Prepared,
                             now: int)
    requires QuotasOk(pubs.revisions, limits) && PublishFresh(db, pubs, limits, req, p, now).Ok?
    ensures var c := PublishFresh(db, pubs, limits, req, p, now).value;
            && (c.outcome.Published? && p.links.Some? ==> LinksStored(pubs, c.pubs, req, p, now))
            && (c.outcome.Superseded? || p.links.None? ==> c.pubs.links == pubs.links)
  {
    var (after, outcome) := Ingest(pubs, limits, req, p, now).value;
    IngestEffect(pubs, limits, req, p, now);
    if p.links.Some? && outcome.Published? {
      LinksMeetOthers(pubs, limits, req, p, now);
    } else {
      NoNewLinks(pubs, limits, req, p, after, outcome);
    }
  }

  lemma NoNewLinks(pubs: Publications, limits: StoreLimits, req: PublishRequest, p: Prepared, after: Publications,
                   outcome: Outcome)
    requires Ingested(pubs, limits, req, p, after, outcome) && (outcome.Superseded? || p.links.None?)
    ensures after.links == pubs.links
  {
    assert after.links.Keys == pubs.links.Keys;
  }

  // ---------------------------------------------------------------- the input it was made from

  /** The job input that the request and the prepared output speak for. */
  function InputFor(req: PublishRequest, p: Prepared): IndexInput
  {
    if req.PublishGraph? then RepositoryInput(GraphRef(req.project, req.repository, req.targetId), p.identity)
    else if p.links.None? then MemoryInput(req.project, req.targetId, p.identity, None, [])
    else
      var t := p.links.value.target;
      MemoryInput(req.project, req.targetId, p.identity, Some(GraphRef(req.project, t.repositoryId, t.snapshotId)),
                  seq(|t.origins|, i requires 0 <= i < |t.origins| =>
                    GraphRef(req.project, t.repositoryId, t.origins[i])))
  }

  /** The output was made from the job's own input by its own extractors, and only memory carries links. */
  predicate Answers(spec: JobSpec, req: PublishRequest, p: Prepared)
  {
    spec.extractorSet == p.extractorSet && spec.input == InputFor(req, p) && (req.PublishGraph? ==> p.links.None?)
  }

  lemma MatchesIffAnswers(spec: JobSpec, req: PublishRequest, p: Prepared)
    requires spec.Valid()
    ensures InputMatches(spec, req, p) <==> Answers(spec, req, p)
  {
    if p.links.Some? && spec.input.MemoryInput? {
      var t := p.links.value.target;
      assert t.Origins(req.project) == seq(|t.origins|, i requires 0 <= i < |t.origins| =>
                                         GraphRef(req.project, t.repositoryId, t.origins[i]));
    }
  }

  /** The request comes from the live holder of a job that is publishing. */
  predicate Publishes(jobs: Jobs, req: PublishRequest, now: int)
  {
    var k := req.job.Key();
    && k in jobs && jobs[k].kind == req.job.kind && jobs[k].state == Publishing && jobs[k].worker == Some(req.worker)
    && jobs[k].generation == req.generation && jobs[k].leaseUntil.Some? && now < jobs[k].leaseUntil.value
  }

  /** The job's row, if there is one, is well formed, as it is in every reachable state. */
  predicate JobSound(db: Control, k: JobKey) { k in db.jobs ==> RowOk(k, db.jobs[k]) }

  lemma AuthorityIff(db: Control, req: PublishRequest, now: int)
    requires JobSound(db, req.job.Key())
    ensures Authority(db, req, now).Ok? <==> req.job.project !in db.tombstones && Publishes(db.jobs, req, now)
    ensures Authority(db, req, now).Ok? ==> Authority(db, req, now).value == db.jobs[req.job.Key()].spec
  {
  }

  /** Output made from another input, identity or extractor set than the job's is refused, whoever sends it. */
  lemma MismatchIsRefused(db: Control, pubs: Publications, limits: StoreLimits, req: PublishRequest, p: Prepared,
                          now: int)
    requires JobSound(db, req.job.Key()) && req.job.Key() !in pubs.receipts
    requires req.job.Key() in db.jobs && !Answers(db.jobs[req.job.Key()].spec, req, p)
    ensures TryPublish(db, pubs, limits, req, Ok(p), now).Err?
    ensures req.Valid() && req.project !in db.tombstones && Publishes(db.jobs, req, now) && Fits(p, limits) ==>
            TryPublish(db, pubs, limits, req, Ok(p), now) == Err(InvalidInput)
  {
    AuthorityIff(db, req, now);
    MatchesIffAnswers(db.jobs[req.job.Key()].spec, req, p);
  }

  /** The graph is published under the repository identity the links were resolved for. */
  predicate GraphServes(pubs: Publications, project: Project, t: LinkTarget, snapshotId: string)
  {
    var g := Target(project, GraphDomain, t.repositoryId, snapshotId);
    g in pubs.published && g in pubs.revisions && pubs.revisions[g].identity == Some(t.repositoryIdentity)
  }

  /** Links are accepted exactly when every graph they were resolved against, the current one and the earlier
      ones, is published with the same identity, and every link names something in them. */
  lemma LinksResolveIff(pubs: Publications, req: PublishRequest, p: Prepared)
    requires p.links.Some?
    ensures var t := p.links.value.target;
            LinksResolve(pubs, req, p) <==>
              && GraphServes(pubs, req.project, t, t.snapshotId) && p.links.value.consistent
              && forall i :: 0 <= i < |t.origins| ==> GraphServes(pubs, req.project, t, t.origins[i])
  {
    var t := p.links.value.target;
    forall i | 0 <= i < |t.origins|
      ensures PublishedGraph(pubs, t.Origins(req.project)[i], t.repositoryIdentity)
              <==> GraphServes(pubs, req.project, t, t.origins[i])
    {
      assert t.Origins(req.project)[i] == GraphRef(req.project, t.repositoryId, t.origins[i]);
    }
  }

  /** A memory publication whose links need an unpublished graph is refused. */
  lemma UnpublishedGraphIsRefused(db: Control, pubs: Publications, limits: StoreLimits, req: PublishRequest,
                                  p: Prepared, now: int)
    requires req.job.Key() !in pubs.receipts && p.links.Some?
    requires !GraphServes(pubs, req.project, p.links.value.target, p.links.value.target.snapshotId)
    ensures TryPublish(db, pubs, limits, req, Ok(p), now).Err?
  {
    LinksResolveIff(pubs, req, p);
  }

  // ---------------------------------------------------------------- quotas

  function Snapshots(revisions: map<Target, Revision>, p: Project): set<Target>
  {
    set t | t in revisions && t.project == p
  }

  function StoredFacts(revisions: map<Target, Revision>, p: Project): set<(Target, nat)>
  {
    set t, i: nat | t in revisions && t.project == p && i < |revisions[t].facts| :: (t, i)
  }

  function StoredBytes(revisions: map<Target, Revision>, p: Project): set<(Target, nat)>
  {
    set t, i: nat | t in revisions && t.project == p && i < CipherBytes(revisions[t].facts) :: (t, i)
  }

  /** What the three quotas count. */
  lemma QuotasCount(revisions: map<Target, Revision>, p: Project)
    ensures Sum(revisions, SnapshotWeight(p)) == |Snapshots(revisions, p)|
    ensures Sum(revisions, FactWeight(p)) == |StoredFacts(revisions, p)|
    ensures Sum(revisions, ByteWeight(p)) == |StoredBytes(revisions, p)|
  {
    SumOfOnes(revisions, SnapshotWeight(p));
    assert Ones(revisions, SnapshotWeight(p)) == Snapshots(revisions, p);
    SumCounts(revisions, FactWeight(p));
    assert Units(revisions, FactWeight(p)) == StoredFacts(revisions, p);
    SumCounts(revisions, ByteWeight(p));
    assert Units(revisions, ByteWeight(p)) == StoredBytes(revisions, p);
  }

  function AllText(facts: seq<Fact>): string { if facts == [] then "" else facts[0].encoded + AllText(facts[1..]) }

  lemma {:induction false} BytesOfConcat(a: string, b: string)
    ensures ByteLength(a + b) == ByteLength(a) + ByteLength(b)
  {
    if a == "" {
      assert a + b == b;
    } else {
      assert (a + b)[1..] == a[1..] + b;
      BytesOfConcat(a[1..], b);
    }
  }

  predicate Ascii(s: string) { forall i :: 0 <= i < |s| ==> s[i] as int < 0x80 }

  lemma AsciiRest(s: string)
    requires s != ""
    ensures Ascii(s) <==> s[0] as int < 0x80 && Ascii(s[1..])
  {
    if s[0] as int < 0x80 && Ascii(s[1..]) {
      forall i | 0 <= i < |s| ensures s[i] as int < 0x80 { if i > 0 { assert s[1..][i - 1] == s[i]; } }
    }
  }

  /** A character takes one to four bytes, and exactly the ASCII ones take one. */
  lemma {:induction false} ByteLengthMeaning(s: string)
    ensures |s| <= ByteLength(s) <= 4 * |s| && (ByteLength(s) == |s| <==> Ascii(s))
  {
    if s != "" {
      ByteLengthMeaning(s[1..]);
      AsciiRest(s);
    }
  }

  /** Stored bytes are the text of the facts and one authentication tag for each. */
  lemma {:induction false} CipherBytesCount(facts: seq<Fact>)
    ensures CipherBytes(facts) == ByteLength(AllText(facts)) + 16 * |facts|
  {
    if facts != [] {
      CipherBytesCount(facts[1..]);
      BytesOfConcat(facts[0].encoded, AllText(facts[1..]));
    }
  }

  /** In every reachable state a project's revisions, facts and bytes are within its quotas. */
  lemma ReachableRevisionsFit(cfg: Config, actions: seq<Action>, p: Project)
    ensures var revisions := Exec(cfg, EMPTY, actions).pubs.revisions;
            && |Snapshots(revisions, p)| <= cfg.store.maxSnapshots && |StoredFacts(revisions, p)| <= cfg.store.maxFacts
            && |StoredBytes(revisions, p)| <= cfg.store.maxBytes
  {
    ReachableInv(cfg, actions);
    QuotasCount(Exec(cfg, EMPTY, actions).pubs.revisions, p);
  }

  // ---------------------------------------------------------------- exactly when

  /** The snapshot is stored already with the same record, or is new and there is room for it. */
  predicate Storable(pubs: Publications, limits: StoreLimits, req: PublishRequest, p: Prepared)
  {
    var t := PublishedKey(req);
    if t in pubs.revisions then SameRecord(pubs.revisions[t], req, p)
    else && |Snapshots(pubs.revisions, req.project)| < limits.maxSnapshots
         && |StoredFacts(pubs.revisions, req.project)| + |p.facts| <= limits.maxFacts
         && |StoredBytes(pubs.revisions, req.project)| + CipherBytes(p.facts) <= limits.maxBytes
  }

  /** The view is at its last generation and would have to move. */
  predicate Exhausted(pubs: Publications, req: PublishRequest)
  {
    var v := ViewKey(req.project, GraphDomain, req.RepositoryId(), req.viewName);
    && v in pubs.views && req.expected == Some(Version(pubs.views[v].targetId, pubs.views[v].generation))
    && pubs.views[v].targetId != req.targetId && pubs.views[v].generation >= I64_MAX
  }

  predicate EachFits(facts: seq<Fact>, limits: StoreLimits)
  {
    forall i :: 0 <= i < |facts| ==> ByteLength(facts[i].encoded) <= limits.maxFactBytes
  }

  lemma InsertSucceedsIff(pubs: Publications, limits: StoreLimits, req: PublishRequest, p: Prepared, now: int)
    ensures InsertRevision(pubs, limits, req.TargetOf(), RevisionOf(req, p, now)).Ok? <==>
        Storable(pubs, limits, req, p)
  {
    QuotasCount(pubs.revisions, req.project);
  }

  /** A first graph publication of a job succeeds exactly when it is well formed, the project lives, the sender
      holds the publishing job, the output answers the job's input, every fact fits, and the snapshot can be
      stored. */
  lemma GraphPublishesIff(db: Control, pubs: Publications, limits: StoreLimits, req: PublishRequest, p: Prepared,
                          now: int)
    requires JobSound(db, req.job.Key()) && req.PublishGraph? && req.job.Key() !in pubs.receipts
    ensures TryPublish(db, pubs, limits, req, Ok(p), now).Ok? <==>
              && req.protocolVersion == 3 && req.job.kind == RepositoryGraph && req.job.project == req.project
              && req.project !in db.tombstones && Publishes(db.jobs, req, now)
              && Answers(db.jobs[req.job.Key()].spec, req, p) && EachFits(p.facts, limits)
              && Storable(pubs, limits, req, p) && !Exhausted(pubs, req)
  {
    AuthorityIff(db, req, now);
    if req.job.Key() in db.jobs { MatchesIffAnswers(db.jobs[req.job.Key()].spec, req, p); }
    if p.links.None? { GraphIngestRefusals(pubs, limits, req, p, now); }
  }

  /** Why a first graph publication of a job is refused. */
  lemma GraphRefusals(db: Control, pubs: Publications, limits: StoreLimits, req: PublishRequest, p: Prepared, now: int)
    requires JobSound(db, req.job.Key()) && req.PublishGraph? && req.job.Key() !in pubs.receipts
    ensures var reply := TryPublish(db, pubs, limits, req, Ok(p), now);
            var formed := req.protocolVersion == 3 && req.job.kind == RepositoryGraph && req.job.project == req.project;
            var served := formed && req.project !in db.tombstones;
            var held := served && EachFits(p.facts, limits) && Publishes(db.jobs, req, now) && p.links.None?;
            var answers := held && Answers(db.jobs[req.job.Key()].spec, req, p);
            var stored := PublishedKey(req) in pubs.revisions;
            && (reply == Err(StoreProjectDeleted) <==> formed && req.project in db.tombstones)
            && (p.links.None? ==>
                  && (reply == Err(AuthorityLost) <==>
                      served && EachFits(p.facts, limits) && !Publishes(db.jobs, req, now))
                  && (reply == Err(InvalidInput) <==> !formed || (held && !answers))
                  && (reply == Err(ImmutableConflict) <==> answers && stored && !Storable(pubs, limits, req, p))
                  && (reply == Err(QuotaExceeded) <==>
                        || (served && !EachFits(p.facts, limits))
                        || (answers && !stored && !Storable(pubs, limits, req, p))
                        || (answers && Storable(pubs, limits, req, p) && Exhausted(pubs, req))))
  {
    AuthorityIff(db, req, now);
    if req.job.Key() in db.jobs { MatchesIffAnswers(db.jobs[req.job.Key()].spec, req, p); }
    if p.links.None? { GraphIngestRefusals(pubs, limits, req, p, now); }
  }

  lemma GraphIngestRefusals(pubs: Publications, limits: StoreLimits, req: PublishRequest, p: Prepared, now: int)
    requires req.PublishGraph? && p.links.None?
    ensures var reply, stored := Ingest(pubs, limits, req, p, now), PublishedKey(req) in pubs.revisions;
            && (reply == Err(ImmutableConflict) <==> stored && !Storable(pubs, limits, req, p))
            && (reply == Err(QuotaExceeded) <==>
                  (!stored && !Storable(pubs, limits, req, p))
                      || (Storable(pubs, limits, req, p) && Exhausted(pubs, req)))
            && (reply.Ok? <==> Storable(pubs, limits, req, p) && !Exhausted(pubs, req))
            && (reply.Err? ==> reply.error == ImmutableConflict || reply.error == QuotaExceeded)
  {
    InsertSucceedsIff(pubs, limits, req, p, now);
  }

  /** One fact, or one link fact, beyond the size limit refuses a publication of either kind. */
  lemma OversizedIsRefused(db: Control, pubs: Publications, limits: StoreLimits, req: PublishRequest, p: Prepared,
                           now: int)
    requires req.Valid() && req.project !in db.tombstones && req.job.Key() !in pubs.receipts
    requires !EachFits(p.facts, limits) || (p.links.Some? && !EachFits(p.links.value.facts, limits))
    ensures TryPublish(db, pubs, limits, req, Ok(p), now) == Err(QuotaExceeded)
  {
  }

  /** The answer says whether the revision had been stored before; a winner is visible from now on, unless it
      already was, and a loser makes nothing visible. */
  lemma OutcomeTells(db: Control, pubs: Publications, limits: StoreLimits, req: PublishRequest, p: Prepared, now: int)
    requires PubsOk(db.jobs, pubs, limits) && req.Valid() && PublishFresh(db, pubs, limits, req, p, now).Ok?
    ensures var c, t := PublishFresh(db, pubs, limits, req, p, now).value, PublishedKey(req);
            && (c.outcome.Published? ==>
                  && (c.outcome.reused <==> t in pubs.revisions) && t in c.pubs.published
                  && c.outcome.view.targetId == req.targetId
                  && c.pubs.published == if t in pubs.published then pubs.published else pubs.published[t := now])
            && (c.outcome.Superseded? ==> c.pubs.published == pubs.published)
  {
    FreshEffect(db, pubs, limits, req, p, now);
    VisibleFromNow(pubs, limits, req, p, now);
    ReusedIffStored(pubs, req);
  }

  /** A view that already has the target points at a stored revision. */
  lemma ReusedIffStored(pubs: Publications, req: PublishRequest)
    requires ViewsOk(pubs)
    ensures var outcome :=
        PublicationInvariant.Verdict(CurrentView(pubs, req.ViewOf()), req, req.TargetOf() in pubs.revisions);
            outcome.Published? ==>
              (outcome.reused <==> req.TargetOf() in pubs.revisions) && outcome.view.targetId == req.targetId
  {
    var v := req.ViewOf();
    if v in pubs.views { assert ViewTarget(v, pubs.views[v]) in pubs.revisions; }
  }

  lemma VisibleFromNow(pubs: Publications, limits: StoreLimits, req: PublishRequest, p: Prepared, now: int)
    requires Ingest(pubs, limits, req, p, now).Ok?
    ensures var (after, outcome), t := Ingest(pubs, limits, req, p, now).value, req.TargetOf();
            after.published == if outcome.Superseded? || t in pubs.published then pubs.published
                               else pubs.published[t := now]
  {
    var (inserted, reused) := InsertRevision(pubs, limits, req.TargetOf(), RevisionOf(req, p, now)).value;
    var (moved, outcome) := MovePointer(inserted, req, reused).value;
    InsertKeepsPublished(pubs, limits, req.TargetOf(), RevisionOf(req, p, now));
    MoveKeepsPublished(inserted, req, reused);
    if outcome.Published? { LinksKeepPublished(moved, limits, req, p, now); }
  }

  lemma InsertKeepsPublished(pubs: Publications, limits: StoreLimits, t: Target, r: Revision)
    requires InsertRevision(pubs, limits, t, r).Ok?
    ensures InsertRevision(pubs, limits, t, r).value.0.published == pubs.published
  {
  }

  lemma MoveKeepsPublished(pubs: Publications, req: PublishRequest, reused: bool)
    requires MovePointer(pubs, req, reused).Ok?
    ensures MovePointer(pubs, req, reused).value.0.published == pubs.published
  {
  }

  lemma LinksKeepPublished(pubs: Publications, limits: StoreLimits, req: PublishRequest, p: Prepared, now: int)
    requires InsertLinks(pubs, limits, req, p, now).Ok?
    ensures InsertLinks(pubs, limits, req, p, now).value.published == pubs.published
  {
  }

  // ---------------------------------------------------------------- only the same request is replayed

  /** After a publication committed, any later publication of the job is answered exactly when it is the same
      request, under whatever request id, and its project lives; and then it changes nothing. */
  lemma OnlyTheSameRequestReplays(cfg: Config, w: World, req: PublishRequest, prepared: Result<Prepared, StoreError>,
                                  now: int, between: seq<Action>, other: PublishRequest,
                                  supplied: Result<Prepared, StoreError>, later: int)
    requires Inv(cfg, w) && req.job.Key() !in w.pubs.receipts && other.job.Key() == req.job.Key()
    requires TryPublish(w.control, w.pubs, cfg.store, req, prepared, now).Ok?
    ensures var end := Exec(cfg, Apply(cfg, w, DoPublish(req, prepared, now)), between);
            var reply := TryPublish(end.control, end.pubs, cfg.store, other, supplied, later);
            && (reply.Ok? <==> req.project !in end.control.tombstones && other == req.(requestId := other.requestId))
            && (reply.Ok? ==> reply.value.control == end.control && reply.value.pubs == end.pubs)
  {
    var a, k := DoPublish(req, prepared, now), req.job.Key();
    assert Replay(w.control, w.pubs, req) == Ok(None);
    CompletesTheJob(w.control, w.pubs, cfg.store, req, prepared.value, now);
    ApplyKeeps(cfg, w, a);
    var next := Apply(cfg, w, a);
    ExecKeeps(cfg, next, between);
    ReplayIff(Exec(cfg, next, between), cfg, req, other, supplied, later);
  }

  lemma ReplayIff(w: World, cfg: Config, req: PublishRequest, other: PublishRequest,
                  supplied: Result<Prepared, StoreError>, later: int)
    requires PubsOk(w.control.jobs, w.pubs, cfg.store) && other.job.Key() == req.job.Key() && req.Valid()
    requires req.job.Key() in w.pubs.receipts && w.pubs.receipts[req.job.Key()].request == req.(requestId := "")
    ensures var reply := TryPublish(w.control, w.pubs, cfg.store, other, supplied, later);
            && (reply.Ok? <==> req.project !in w.control.tombstones && other == req.(requestId := other.requestId))
            && (reply.Ok? ==> reply.value.control == w.control && reply.value.pubs == w.pubs)
  {
    SameUpToId(req, other);
  }

  lemma SameUpToId(a: PublishRequest, b: PublishRequest)
    ensures a.(requestId := "") == b.(requestId := "") <==> b == a.(requestId := b.requestId)
    ensures a.Canonical() == a.(requestId := "") && b.Canonical() == b.(requestId := "")
  {
  }
}
