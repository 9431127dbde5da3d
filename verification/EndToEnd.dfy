/** The whole way from an extraction to the published reads: whatever crashes, retries and other traffic lie
    between, readers get exactly the extracted facts. */
module EndToEnd {
  import opened Prelude
  import opened Protocol
  import opened Coordinator
  import opened FragmentMerge
  import opened FactStore
  import opened FactInvariant
  import opened DataPlane
  import opened Convergence
  import opened Emission
  import opened Preparation
  import opened FactEncoding
  import opened Fidelity
  import opened GraphReader
  import opened Publishing
  import opened PublicationMeaning
  import Publication
  import PublicationInvariant

  type Publications = Publication.Publications
  type Revision = Publication.Revision
  type Target = Publication.Target
  type StoreLimits = Publication.StoreLimits

  // ---------------------------------------------------------------- what a publication stores

  /** The record and facts a prepared graph is committed with. */
  function ToPublish(p: PreparedGraph): Publication.Prepared
  {
    Publication.Prepared(p.target.buildId, p.extractorSet, p.target.identity, FactSetDigest(p.facts),
                         CountsOf(p.facts), PlainFacts(p.facts), None)
  }

  /** The revision holds the graph: its digest, its counts and every one of its facts. */
  predicate Holds(r: Revision, f: Fragment)
  {
    r.factDigest == FactSetDigest(f) && r.counts == CountsOf(f) && r.facts == PlainFacts(f)
  }

  /** Every stored snapshot holds the graph its digest belongs to. */
  ghost predicate GraphsHonest(pubs: Publications)
  {
    forall t :: t in pubs.revisions && t.domain == Publication.GraphDomain ==> HoldsSome(pubs.revisions[t])
  }

  ghost predicate HoldsSome(r: Revision) { exists f :: Holds(r, f) }

  /** A graph publication commits what a preparation returned, as every caller does. */
  ghost predicate Prepares(a: Action)
  {
    a.DoPublish? && a.publish.PublishGraph? && a.prepared.Ok? ==> exists p :: a.prepared.value == ToPublish(p)
  }

  ghost predicate AllPrepare(actions: seq<Action>)
  {
    forall a :: a in actions ==> Prepares(a)
  }

  // ---------------------------------------------------------------- honest snapshots, in every run

  lemma PublishStaysHonest(cfg: Config, w: World, req: PublishRequest, p: Publication.Prepared, now: int)
    requires GraphsHonest(w.pubs) && (req.PublishGraph? ==> exists g :: p == ToPublish(g))
    requires Publication.PublishFresh(w.control, w.pubs, cfg.store, req, p, now).Ok?
    ensures GraphsHonest(Publication.PublishFresh(w.control, w.pubs, cfg.store, req, p, now).value.pubs)
  {
    IngestAdds(w.pubs, cfg.store, req, p, now);
    if req.PublishGraph? {
      var g :| p == ToPublish(g);
      assert Holds(Publication.RevisionOf(req, p, now), g.facts);
    }
  }

  lemma ApplyStaysHonest(cfg: Config, w: World, a: Action)
    requires GraphsHonest(w.pubs) && Prepares(a)
    ensures GraphsHonest(Apply(cfg, w, a).pubs)
  {
    if a.DoPublish? {
      var reply := Publication.TryPublish(w.control, w.pubs, cfg.store, a.publish, a.prepared, a.now);
      if reply.Ok? && Publication.Replay(w.control, w.pubs, a.publish) == Ok(None) {
        PublishStaysHonest(cfg, w, a.publish, a.prepared.value, a.now);
      }
    }
  }

  /** In every run whose graph publications come from preparations, every stored snapshot stays honest. */
  lemma {:induction false} SnapshotsStayHonest(cfg: Config, w: World, actions: seq<Action>)
    requires GraphsHonest(w.pubs) && AllPrepare(actions)
    ensures GraphsHonest(Exec(cfg, w, actions).pubs)
    decreases |actions|
  {
    if actions != [] {
      ApplyStaysHonest(cfg, w, actions[0]);
      SnapshotsStayHonest(cfg, Apply(cfg, w, actions[0]), actions[1..]);
    }
  }

  ghost predicate AllEventsPrepare(events: seq<Event>)
  {
    forall e :: e in events && e.Other? ==> Prepares(e.action)
  }

  lemma HappenStaysHonest(cfg: Config, w: World, stream: seq<Batch>, acks: Acks, e: Event)
    requires GraphsHonest(w.pubs) && (e.Other? ==> Prepares(e.action))
    ensures GraphsHonest(Happen(cfg, w, stream, acks, e).0.pubs)
  {
    if e.Other? { ApplyStaysHonest(cfg, w, e.action); }
  }

  lemma {:induction false} AttemptsStayHonest(cfg: Config, w: World, stream: seq<Batch>, acks: Acks,
                                              events: seq<Event>)
    requires GraphsHonest(w.pubs) && AllEventsPrepare(events)
    ensures GraphsHonest(Run(cfg, w, stream, acks, events).0.pubs)
    decreases |events|
  {
    if events != [] {
      HappenStaysHonest(cfg, w, stream, acks, events[0]);
      var next := Happen(cfg, w, stream, acks, events[0]);
      AttemptsStayHonest(cfg, next.0, stream, next.1, events[1..]);
    }
  }

  // ---------------------------------------------------------------- a winning publication

  /** The committed revision holds the prepared graph, whether it was inserted or an earlier revision with the
      same digest was reused. */
  lemma CommittedHolds(db: Control, pubs: Publications, limits: StoreLimits, req: PublishRequest, p: PreparedGraph,
                       now: int)
    requires GraphsHonest(pubs) && PublicationInvariant.QuotasOk(pubs.revisions, limits)
    requires req.Valid() && req.PublishGraph?
    requires Publication.PublishFresh(db, pubs, limits, req, ToPublish(p), now).Ok?
    ensures var after := Publication.PublishFresh(db, pubs, limits, req, ToPublish(p), now).value.pubs.revisions;
            req.TargetOf() in after && Holds(after[req.TargetOf()], p.facts)
  {
    PublicationInvariant.FreshEffect(db, pubs, limits, req, ToPublish(p), now);
    IngestAdds(pubs, limits, req, ToPublish(p), now);
    var after := Publication.PublishFresh(db, pubs, limits, req, ToPublish(p), now).value.pubs.revisions;
    if req.TargetOf() in pubs.revisions {
      var f :| Holds(pubs.revisions[req.TargetOf()], f);
      assert after[req.TargetOf()].factDigest == FactSetDigest(p.facts);
      FactSetDigestInjective(f, p.facts);
    }
  }

  /** Published reads of the target load exactly the graph, and no other graph is stored as those facts. */
  ghost predicate ReadsBack(pubs: Publications, t: Target, f: Fragment)
  {
    var read := Publication.ReadPublished(pubs, t);
    && read.Some? && Holds(read.value, f)
    && (forall entry, diagnostic :: Decodes(entry, diagnostic) ==> Loaded(read.value, entry, diagnostic) == Ok(f))
    && (forall g :: PlainFacts(g) == read.value.facts ==> g == f)
  }

  lemma HeldReadsBack(pubs: Publications, t: Target, f: Fragment)
    requires t in pubs.published && t in pubs.revisions && Holds(pubs.revisions[t], f) && InOrder(f)
    ensures ReadsBack(pubs, t, f)
  {
    forall entry, diagnostic | Decodes(entry, diagnostic)
      ensures Loaded(pubs.revisions[t], entry, diagnostic) == Ok(f)
    {
      LoadedIsStored(pubs.revisions[t], f, entry, diagnostic);
    }
    forall g | PlainFacts(g) == pubs.revisions[t].facts ensures g == f { PlainFactsInjective(g, f); }
  }

  lemma WinnerIsLive(cfg: Config, w: World, req: PublishRequest, prepared: Result<Publication.Prepared, StoreError>,
                     now: int)
    requires req.job.Key() !in w.pubs.receipts && Wins(cfg, w, DoPublish(req, prepared, now), req.TargetOf())
    ensures !TerminalJob(w.control.jobs, req.job)
  {
    assert Publication.Replay(w.control, w.pubs, req) == Ok(None);
  }

  lemma WinnerCommits(cfg: Config, w: World, req: PublishRequest, p: Publication.Prepared, now: int)
    requires Inv(cfg, w) && req.job.Key() !in w.pubs.receipts
    requires Wins(cfg, w, DoPublish(req, Ok(p), now), req.TargetOf())
    ensures req.Valid() && Publication.PublishFresh(w.control, w.pubs, cfg.store, req, p, now).Ok?
    ensures var after := Apply(cfg, w, DoPublish(req, Ok(p), now)).pubs;
            && after == Publication.PublishFresh(w.control, w.pubs, cfg.store, req, p, now).value.pubs
            && req.TargetOf() in after.published
  {
    PublicationInvariant.PublishEffect(w.control, w.pubs, cfg.store, req, Ok(p), now);
  }

  /** The first publication of a job that answers `Published` is read back as it was prepared. */
  lemma WinnerReadsBack(cfg: Config, w: World, req: PublishRequest, p: PreparedGraph, now: int)
    requires Inv(cfg, w) && GraphsHonest(w.pubs) && req.PublishGraph? && req.job.Key() !in w.pubs.receipts
    requires InOrder(p.facts)
    requires Wins(cfg, w, DoPublish(req, Ok(ToPublish(p)), now), req.TargetOf())
    ensures ReadsBack(Apply(cfg, w, DoPublish(req, Ok(ToPublish(p)), now)).pubs, req.TargetOf(), p.facts)
  {
    WinnerCommits(cfg, w, req, ToPublish(p), now);
    CommittedHolds(w.control, w.pubs, cfg.store, req, p, now);
    HeldReadsBack(Apply(cfg, w, DoPublish(req, Ok(ToPublish(p)), now)).pubs, req.TargetOf(), p.facts);
  }

  /** The request names the version the view has, and the view can still move if it has to. */
  predicate Expects(pubs: Publications, req: PublishRequest)
  {
    var current := Publication.CurrentView(pubs, req.ViewOf());
    && req.expected == Publication.VersionOf(current)
    && (current.Some? && current.value.targetId != req.targetId ==> current.value.generation < I64_MAX)
  }

  lemma StorableIngests(pubs: Publications, limits: StoreLimits, req: PublishRequest, p: Publication.Prepared,
                        now: int)
    requires Storable(pubs, limits, req, p) && Expects(pubs, req) && p.links.None?
    ensures Publication.Ingest(pubs, limits, req, p, now).Ok?
    ensures Publication.Ingest(pubs, limits, req, p, now).value.1.Published?
  {
    InsertSucceedsIff(pubs, limits, req, p, now);
  }

  lemma HolderWins(db: Control, pubs: Publications, limits: StoreLimits, req: PublishRequest, p: Publication.Prepared,
                   now: int)
    requires req.Valid() && req.PublishGraph? && Publication.Authority(db, req, now).Ok?
    requires Publication.InputMatches(Publication.Authority(db, req, now).value, req, p)
    requires Publication.Fits(p, limits) && Storable(pubs, limits, req, p) && Expects(pubs, req)
    ensures var reply := Publication.TryPublish(db, pubs, limits, req, Ok(p), now);
            && reply.Ok? && reply.value.outcome.Published?
            && reply == Publication.PublishFresh(db, pubs, limits, req, p, now)
  {
    assert Publication.Replay(db, pubs, req) == Ok(None);
    StorableIngests(pubs, limits, req, p, now);
  }

  /** Once the extraction is stored whole, the lease holder's publication of what it lists and prepares wins,
      for a new snapshot and for one stored before, and reads then find exactly the extracted facts. */
  lemma PublishedIsExtracted(f: Fragment, source: Source, payloads: seq<Fragment>, maxBytes: nat, quota: FactQuota,
                             rows: Rows, out: seq<Batch>, p: PreparedGraph, db: Control, pubs: Publications,
                             limits: StoreLimits, req: PublishRequest, now: int)
    requires Emits(f, source, payloads, maxBytes, quota) && ExtractedFor(source, req)
    requires StoredWhole(rows, Output(source, payloads, maxBytes), source.job, source.shard)
    requires RowsOk(rows) && IsListing(rows, source.job, out) && IsPrepared(out, p)
    requires PublicationInvariant.PubsOk(db.jobs, pubs, limits) && GraphsHonest(pubs)
    requires req.PublishGraph? && req.Valid() && Publication.Authority(db, req, now).Ok?
    requires Publication.InputMatches(Publication.Authority(db, req, now).value, req, ToPublish(p))
    requires Publication.Fits(ToPublish(p), limits) && Storable(pubs, limits, req, ToPublish(p))
    requires Expects(pubs, req)
    ensures var reply := Publication.TryPublish(db, pubs, limits, req, Ok(ToPublish(p)), now);
            && reply.Ok? && reply.value.outcome.Published?
            && ReadsBack(reply.value.pubs, req.TargetOf(), f)
  {
    PublisherReadsTheExtraction(f, source, payloads, maxBytes, quota, rows, out, req, 0, p);
    HolderWins(db, pubs, limits, req, ToPublish(p), now);
    PublicationInvariant.FreshEffect(db, pubs, limits, req, ToPublish(p), now);
    CommittedHolds(db, pubs, limits, req, p, now);
    HeldReadsBack(Publication.PublishFresh(db, pubs, limits, req, ToPublish(p), now).value.pubs, req.TargetOf(), f);
  }

  // ---------------------------------------------------------------- from the first attempt to the last reader

  lemma ReadsBackForever(cfg: Config, w: World, actions: seq<Action>, t: Target, f: Fragment)
    requires Inv(cfg, w) && ReadsBack(w.pubs, t, f)
    ensures ReadsBack(Exec(cfg, w, actions).pubs, t, f)
  {
    ExecKeeps(cfg, w, actions);
  }

  lemma WholeIsFinal(rows: Rows, job: JobRef, shard: string, n: nat)
    requires WholeStream(rows, job, shard, n)
    ensures HasFinal(rows, job)
  {
    assert rows[BatchKey(job, shard, n - 1)].finalBatch;
  }

  /** A whole output of a job that is still live later is still listed as it was emitted. */
  lemma StaysWhole(cfg: Config, w: World, actions: seq<Action>, stream: seq<Batch>, job: JobRef, shard: string)
    requires Inv(cfg, w) && StoredWhole(w.facts.rows, stream, job, shard)
    requires !TerminalJob(Exec(cfg, w, actions).control.jobs, job)
    ensures StoredWhole(Exec(cfg, w, actions).facts.rows, stream, job, shard)
  {
    LiveRowsAccumulate(cfg, w, actions, job);
    WholeIsFinal(w.facts.rows, job, shard, |stream|);
    SamePrefix(w.facts.rows, Exec(cfg, w, actions).facts.rows, stream, job, shard, |stream|);
  }

  /** The publisher's listing, taken while the job lives, prepares the extracted fragment. */
  lemma ListingIsExtraction(cfg: Config, w: World, actions: seq<Action>, f: Fragment, source: Source,
                            payloads: seq<Fragment>, maxBytes: nat, req: PublishRequest, out: seq<Batch>,
                            p: PreparedGraph)
    requires Inv(cfg, w) && Emits(f, source, payloads, maxBytes, cfg.quota) && ExtractedFor(source, req)
    requires StoredWhole(w.facts.rows, Output(source, payloads, maxBytes), source.job, source.shard)
    requires !TerminalJob(Exec(cfg, w, actions).control.jobs, source.job)
    requires IsListing(Exec(cfg, w, actions).facts.rows, source.job, out) && IsPrepared(out, p)
    ensures p.facts == f
  {
    StaysWhole(cfg, w, actions, Output(source, payloads, maxBytes), source.job, source.shard);
    ExecKeeps(cfg, w, actions);
    PublisherReadsTheExtraction(f, source, payloads, maxBytes, cfg.quota, Exec(cfg, w, actions).facts.rows, out, req,
                                0, p);
  }

  lemma {:induction false} RunKeeps(cfg: Config, w: World, stream: seq<Batch>, acks: Acks, events: seq<Event>,
                                    job: JobRef)
    requires Inv(cfg, w)
    ensures Inv(cfg, Run(cfg, w, stream, acks, events).0)
    decreases |events|
  {
    if events != [] {
      HappenKeeps(cfg, w, stream, acks, events[0], job);
      var next := Happen(cfg, w, stream, acks, events[0]);
      RunKeeps(cfg, next.0, stream, next.1, events[1..], job);
    }
  }

  lemma LiveBefore(cfg: Config, w: World, actions: seq<Action>, job: JobRef)
    requires Inv(cfg, w) && !TerminalJob(Exec(cfg, w, actions).control.jobs, job)
    ensures !TerminalJob(w.control.jobs, job)
  {
    if TerminalJob(w.control.jobs, job) { TerminalJobForever(cfg, w, actions, job); }
  }

  /** From a whole stored output on: anything happens, the publisher lists and prepares, anything happens, the
      job's first publication wins, anything happens. Every reader gets the extracted facts. */
  lemma StoredIsPublished(cfg: Config, w: World, f: Fragment, source: Source, payloads: seq<Fragment>, maxBytes: nat,
                          before: seq<Action>, out: seq<Batch>, p: PreparedGraph, between: seq<Action>,
                          req: PublishRequest, now: int, later: seq<Action>)
    requires Inv(cfg, w) && GraphsHonest(w.pubs) && AllPrepare(before) && AllPrepare(between)
    requires Emits(f, source, payloads, maxBytes, cfg.quota) && ExtractedFor(source, req) && req.PublishGraph?
    requires StoredWhole(w.facts.rows, Output(source, payloads, maxBytes), source.job, source.shard)
    requires IsListing(Exec(cfg, w, before).facts.rows, source.job, out) && IsPrepared(out, p)
    requires var at := Exec(cfg, Exec(cfg, w, before), between);
             && source.job.Key() !in at.pubs.receipts
             && Wins(cfg, at, DoPublish(req, Ok(ToPublish(p)), now), req.TargetOf())
    ensures var at := Exec(cfg, Exec(cfg, w, before), between);
            var published := Apply(cfg, at, DoPublish(req, Ok(ToPublish(p)), now));
            ReadsBack(Exec(cfg, published, later).pubs, req.TargetOf(), f)
  {
    var listed := Exec(cfg, w, before);
    var at := Exec(cfg, listed, between);
    var publish := DoPublish(req, Ok(ToPublish(p)), now);
    ExecKeeps(cfg, w, before);
    ExecKeeps(cfg, listed, between);
    SnapshotsStayHonest(cfg, w, before);
    SnapshotsStayHonest(cfg, listed, between);
    WinnerIsLive(cfg, at, req, Ok(ToPublish(p)), now);
    LiveBefore(cfg, listed, between, source.job);
    ListingIsExtraction(cfg, w, before, f, source, payloads, maxBytes, req, out, p);
    WinnerReadsBack(cfg, at, req, p, now);
    ApplyKeeps(cfg, at, publish);
    ReadsBackForever(cfg, Apply(cfg, at, publish), later, req.TargetOf(), f);
  }

  lemma LiveWhenListed(cfg: Config, w: World, before: seq<Action>, between: seq<Action>, req: PublishRequest,
                       p: PreparedGraph, now: int)
    requires Inv(cfg, w)
    requires var at := Exec(cfg, Exec(cfg, w, before), between);
             && req.job.Key() !in at.pubs.receipts
             && Wins(cfg, at, DoPublish(req, Ok(ToPublish(p)), now), req.TargetOf())
    ensures !TerminalJob(Exec(cfg, w, before).control.jobs, req.job)
  {
    var listed := Exec(cfg, w, before);
    var at := Exec(cfg, listed, between);
    ExecKeeps(cfg, w, before);
    WinnerIsLive(cfg, at, req, Ok(ToPublish(p)), now);
    LiveBefore(cfg, listed, between, req.job);
  }

  /** End to end. Attempts at the job crash, restart, lose replies and are taken over, amid any other traffic,
      until one of them has the whole output acknowledged. Then the publisher lists, prepares and wins. In every
      later state published reads give back the extracted fragment, and no other. */
  lemma ExtractionIsPublished(cfg: Config, w: World, f: Fragment, source: Source, payloads: seq<Fragment>,
                              maxBytes: nat, acks: Acks, events: seq<Event>, n: nat, auth: FactStore.Authority,
                              before: seq<Action>, out: seq<Batch>, p: PreparedGraph, between: seq<Action>,
                              req: PublishRequest, now: int, later: seq<Action>)
    requires Emits(f, source, payloads, maxBytes, cfg.quota) && ExtractedFor(source, req) && req.PublishGraph?
    requires Grounded(cfg, w, Output(source, payloads, maxBytes), acks, source.job, source.shard, n)
    requires OnlyAttemptsWrite(events, source.job)
    requires GraphsHonest(w.pubs) && AllEventsPrepare(events) && AllPrepare(before) && AllPrepare(between)
    requires var stream := Output(source, payloads, maxBytes);
             Acked(Run(cfg, w, stream, acks, events).1, auth) >= |stream|
    requires var end := Run(cfg, w, Output(source, payloads, maxBytes), acks, events).0;
             IsListing(Exec(cfg, end, before).facts.rows, source.job, out) && IsPrepared(out, p)
    requires var end := Run(cfg, w, Output(source, payloads, maxBytes), acks, events).0;
             var at := Exec(cfg, Exec(cfg, end, before), between);
             && source.job.Key() !in at.pubs.receipts
             && Wins(cfg, at, DoPublish(req, Ok(ToPublish(p)), now), req.TargetOf())
    ensures var end := Run(cfg, w, Output(source, payloads, maxBytes), acks, events).0;
            var at := Exec(cfg, Exec(cfg, end, before), between);
            var published := Apply(cfg, at, DoPublish(req, Ok(ToPublish(p)), now));
            ReadsBack(Exec(cfg, published, later).pubs, req.TargetOf(), f)
  {
    var stream := Output(source, payloads, maxBytes);
    var end := Run(cfg, w, stream, acks, events).0;
    RunKeeps(cfg, w, stream, acks, events, source.job);
    AttemptsStayHonest(cfg, w, stream, acks, events);
    LiveWhenListed(cfg, end, before, between, req, p, now);
    LiveBefore(cfg, end, before, source.job);
    AcknowledgedRunIsWhole(cfg, w, stream, acks, events, source.job, source.shard, n, auth);
    StoredIsPublished(cfg, end, f, source, payloads, maxBytes, before, out, p, between, req, now, later);
  }
}
