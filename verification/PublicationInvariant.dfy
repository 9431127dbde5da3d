/** What every publication keeps. */
module PublicationInvariant {
  import opened Prelude
  import opened Protocol
  import opened Coordinator
  import opened JobInvariant
  import opened Publication
  import opened Tables

  ghost predicate QuotasOk(revisions: map<Target, Revision>, limits: StoreLimits)
  {
    forall p: Project ::
      && Sum(revisions, SnapshotWeight(p)) <= limits.maxSnapshots
      && Sum(revisions, FactWeight(p)) <= limits.maxFacts
      && Sum(revisions, ByteWeight(p)) <= limits.maxBytes
  }

  function ViewTarget(v: ViewKey, view: View): Target { Target(v.project, v.domain, v.repositoryId, view.targetId) }

  /** Every pointer names a published target, and every published target is stored. */
  ghost predicate ViewsOk(pubs: Publications)
  {
    && (forall v :: v in pubs.views ==> ViewTarget(v, pubs.views[v]) in pubs.published && 1 <= pubs.views[v].generation)
    && (forall t :: t in pubs.published ==> t in pubs.revisions)
  }

  /** A recorded publication belongs to a completed job, and its winners are exactly the published targets. */
  ghost predicate ReceiptsRecorded(jobs: Jobs, pubs: Publications)
  {
    && (forall k :: k in pubs.receipts ==>
          && k in jobs && jobs[k].state == Complete && pubs.receipts[k].request.job.Key() == k
          && (pubs.receipts[k].outcome.Published? ==> pubs.receipts[k].request.TargetOf() in pubs.published))
    && (forall t :: t in pubs.published ==> exists k :: WonBy(pubs, t, k))
  }

  predicate WonBy(pubs: Publications, t: Target, k: JobKey)
  {
    k in pubs.receipts && pubs.receipts[k].outcome.Published? && pubs.receipts[k].request.TargetOf() == t
  }

  /** Links join a published memory revision to the published graph snapshot they were resolved against. */
  ghost predicate LinksOk(pubs: Publications)
  {
    forall l :: l in pubs.links ==>
      var t := pubs.links[l].target;
      && t.repositoryId == l.repositoryId && t.snapshotId == l.snapshotId
      && GraphTarget(t.Graph(l.project)) in pubs.published
      && Target(l.project, MemoryDomain, "", l.revisionId) in pubs.published
      && LinkRevision(l.project, t) in pubs.revisions
  }

  predicate SameLinkSet(links: map<LinkKey, LinkRow>, a: LinkKey, b: LinkKey)
    requires a in links && b in links
  {
    && a.project == b.project && a.repositoryId == b.repositoryId
    && links[a].target.linkSetId == links[b].target.linkSetId
  }

  /** One revision and snapshot per link set. */
  ghost predicate LinkSetsUnique(links: map<LinkKey, LinkRow>)
  {
    forall a, b :: a in links && b in links && SameLinkSet(links, a, b) ==> a == b
  }

  ghost predicate PubsOk(jobs: Jobs, pubs: Publications, limits: StoreLimits)
  {
    QuotasOk(pubs.revisions, limits) && ViewsOk(pubs) && ReceiptsRecorded(jobs, pubs)
    && LinksOk(pubs) && LinkSetsUnique(pubs.links)
  }

  /** A view only moves forward, and a generation number names one version of it. */
  predicate ViewEvolves(a: View, b: View)
  {
    a == b || a.generation < b.generation
  }

  ghost predicate PubsEvolve(a: Publications, b: Publications)
  {
    && Extends(a.revisions, b.revisions) && Extends(a.published, b.published)
    && Extends(a.receipts, b.receipts) && Extends(a.links, b.links)
    && (forall v :: v in a.views ==> v in b.views && ViewEvolves(a.views[v], b.views[v]))
  }

  lemma PubsEvolveTransitive(a: Publications, b: Publications, c: Publications)
    requires PubsEvolve(a, b) && PubsEvolve(b, c)
    ensures PubsEvolve(a, c)
  {
    forall v | v in a.views ensures v in c.views && ViewEvolves(a.views[v], c.views[v]) {
      assert ViewEvolves(a.views[v], b.views[v]) && ViewEvolves(b.views[v], c.views[v]);
    }
  }

  // ---------------------------------------------------------------- pieces of a publication

  /** The revision is stored or reused; nothing else is touched and the quotas still hold. */
  ghost predicate Inserted(pubs: Publications, limits: StoreLimits, t: Target, r: Revision, after: Publications,
                           reused: bool)
  {
    && after == pubs.(revisions := after.revisions)
    && Extends(pubs.revisions, after.revisions) && QuotasOk(after.revisions, limits)
    && (reused <==> t in pubs.revisions)
    && after.revisions.Keys == pubs.revisions.Keys + {t}
    && SameContent(after.revisions[t], r) && after.revisions[t].identity == r.identity
  }

  lemma InsertRevisionEffect(pubs: Publications, limits: StoreLimits, t: Target, r: Revision)
    requires QuotasOk(pubs.revisions, limits) && InsertRevision(pubs, limits, t, r).Ok?
    ensures var (after, reused) := InsertRevision(pubs, limits, t, r).value;
            Inserted(pubs, limits, t, r, after, reused)
  {
    if t !in pubs.revisions {
      var after := pubs.revisions[t := r];
      forall p: Project
        ensures Sum(after, SnapshotWeight(p)) <= limits.maxSnapshots
        ensures Sum(after, FactWeight(p)) <= limits.maxFacts
        ensures Sum(after, ByteWeight(p)) <= limits.maxBytes
      {
        SumInsert(pubs.revisions, SnapshotWeight(p), t, r);
        SumInsert(pubs.revisions, FactWeight(p), t, r);
        SumInsert(pubs.revisions, ByteWeight(p), t, r);
      }
    }
  }

  function LinkKeyOf(req: PublishRequest, t: LinkTarget): LinkKey
  {
    LinkKey(req.project, t.repositoryId, req.targetId, t.snapshotId)
  }

  /** Links and their revision are added, nothing else. */
  ghost predicate Linked(pubs: Publications, limits: StoreLimits, req: PublishRequest, p: Prepared,
                         after: Publications)
  {
    && after == pubs.(revisions := after.revisions, links := after.links)
    && Extends(pubs.revisions, after.revisions) && QuotasOk(after.revisions, limits)
    && Extends(pubs.links, after.links)
    && (forall l :: l in after.links && l !in pubs.links ==>
          && p.links.Some? && l == LinkKeyOf(req, p.links.value.target)
          && after.links[l].target == p.links.value.target
          && !LinkSetTaken(pubs.links, req.project, p.links.value.target)
          && LinkRevision(req.project, p.links.value.target) in after.revisions)
  }

  lemma InsertedIsLinked(pubs: Publications, limits: StoreLimits, req: PublishRequest, p: Prepared, r: Revision,
                         inserted: Publications, reused: bool, row: LinkRow)
    requires p.links.Some? && row.target == p.links.value.target
    requires Inserted(pubs, limits, LinkRevision(req.project, p.links.value.target), r, inserted, reused)
    ensures Linked(pubs, limits, req, p, inserted)
    ensures LinkKeyOf(req, row.target) !in inserted.links && !LinkSetTaken(inserted.links, req.project, row.target) ==>
            Linked(pubs, limits, req, p,
                   inserted.(links := inserted.links[LinkKeyOf(req, row.target) := row]))
  {
  }

  lemma InsertLinksEffect(pubs: Publications, limits: StoreLimits, req: PublishRequest, p: Prepared, now: int)
    requires QuotasOk(pubs.revisions, limits) && InsertLinks(pubs, limits, req, p, now).Ok?
    ensures Linked(pubs, limits, req, p, InsertLinks(pubs, limits, req, p, now).value)
  {
    if p.links.Some? {
      var l, t := p.links.value, p.links.value.target;
      var r := Revision(req.job.jobId, p.buildId, p.extractorSet, l.factDigest, l.counts, l.facts, None, now);
      InsertRevisionEffect(pubs, limits, LinkRevision(req.project, t), r);
      var (inserted, reused) := InsertRevision(pubs, limits, LinkRevision(req.project, t), r).value;
      InsertedIsLinked(pubs, limits, req, p, r, inserted, reused,
                       LinkRow(inserted.revisions[LinkRevision(req.project, t)].jobId, t));
    }
  }

  /** Everything the publication tables go through, apart from the recorded outcome. */
  ghost predicate Ingested(pubs: Publications, limits: StoreLimits, req: PublishRequest, p: Prepared,
                           after: Publications, outcome: Outcome)
  {
    var v := req.ViewOf();
    && after.receipts == pubs.receipts
    && Extends(pubs.revisions, after.revisions) && QuotasOk(after.revisions, limits)
    && req.TargetOf() in after.revisions
    && SameContent(after.revisions[req.TargetOf()], RevisionOf(req, p, 0))
    && outcome == Verdict(CurrentView(pubs, v), req, req.TargetOf() in pubs.revisions)
    && after.views == (if outcome.Published? then pubs.views[v := outcome.view] else pubs.views)
    && Extends(pubs.published, after.published)
    && after.published.Keys == pubs.published.Keys + (if outcome.Published? then {req.TargetOf()} else {})
    && Extends(pubs.links, after.links)
    && (forall l :: l in after.links && l !in pubs.links ==> RevealedLink(pubs.links, after, req, p, outcome, l))
  }

  lemma MovePointerEffect(pubs: Publications, req: PublishRequest, reused: bool)
    requires MovePointer(pubs, req, reused).Ok?
    ensures var (moved, outcome) := MovePointer(pubs, req, reused).value;
            && outcome == Verdict(CurrentView(pubs, req.ViewOf()), req, reused)
            && moved == pubs.(views :=
                              if outcome.Published? then pubs.views[req.ViewOf() := outcome.view] else pubs.views)
  {
    var (moved, outcome) := MovePointer(pubs, req, reused).value;
    if outcome.Published? && req.ViewOf() in pubs.views && pubs.views[req.ViewOf()] == outcome.view {
      assert pubs.views == pubs.views[req.ViewOf() := outcome.view];
    }
  }

  /** What a publication that wins adds after its pointer has moved. */
  ghost predicate Revealed(pubs: Publications, limits: StoreLimits, req: PublishRequest, p: Prepared,
                           outcome: Outcome, after: Publications)
  {
    && after.views == pubs.views && after.receipts == pubs.receipts
    && Extends(pubs.revisions, after.revisions) && QuotasOk(after.revisions, limits)
    && Extends(pubs.published, after.published)
    && after.published.Keys == pubs.published.Keys + (if outcome.Published? then {req.TargetOf()} else {})
    && Extends(pubs.links, after.links)
    && (forall l :: l in after.links && l !in pubs.links ==> RevealedLink(pubs.links, after, req, p, outcome, l))
  }

  lemma LinkedIsRevealed(pubs: Publications, limits: StoreLimits, req: PublishRequest, p: Prepared, outcome: Outcome,
                         linked: Publications, now: int)
    requires Linked(pubs, limits, req, p, linked) && outcome.Published?
    ensures Revealed(pubs, limits, req, p, outcome,
                     if req.TargetOf() in linked.published then linked
                     else linked.(published := linked.published[req.TargetOf() := now]))
  {
  }

  lemma RevealEffect(pubs: Publications, limits: StoreLimits, req: PublishRequest, p: Prepared, outcome: Outcome,
                     now: int)
    requires QuotasOk(pubs.revisions, limits) && Reveal(pubs, limits, req, p, outcome, now).Ok?
    ensures Revealed(pubs, limits, req, p, outcome, Reveal(pubs, limits, req, p, outcome, now).value)
  {
    if outcome.Published? {
      InsertLinksEffect(pubs, limits, req, p, now);
      LinkedIsRevealed(pubs, limits, req, p, outcome, InsertLinks(pubs, limits, req, p, now).value, now);
    }
  }

  predicate RevealedLink(before: map<LinkKey, LinkRow>, after: Publications, req: PublishRequest, p: Prepared,
                         outcome: Outcome, l: LinkKey)
    requires l in after.links
  {
    && outcome.Published? && p.links.Some?
    && l == LinkKeyOf(req, p.links.value.target) && after.links[l].target == p.links.value.target
    && !LinkSetTaken(before, req.project, p.links.value.target)
    && LinkRevision(req.project, p.links.value.target) in after.revisions
  }

  /** The three steps of an ingestion, put together. */
  lemma StepsIngest(pubs: Publications, limits: StoreLimits, req: PublishRequest, p: Prepared, now: int,
                    inserted: Publications, reused: bool, moved: Publications, outcome: Outcome, after: Publications)
    requires Inserted(pubs, limits, req.TargetOf(), RevisionOf(req, p, now), inserted, reused)
    requires outcome == Verdict(CurrentView(inserted, req.ViewOf()), req, reused)
    requires moved == inserted.(views :=
               if outcome.Published? then inserted.views[req.ViewOf() := outcome.view] else inserted.views)
    requires Revealed(moved, limits, req, p, outcome, after)
    ensures Ingested(pubs, limits, req, p, after, outcome)
  {
  }

  lemma IngestEffect(pubs: Publications, limits: StoreLimits, req: PublishRequest, p: Prepared, now: int)
    requires QuotasOk(pubs.revisions, limits) && Ingest(pubs, limits, req, p, now).Ok?
    ensures var (after, outcome) := Ingest(pubs, limits, req, p, now).value;
            Ingested(pubs, limits, req, p, after, outcome)
  {
    InsertRevisionEffect(pubs, limits, req.TargetOf(), RevisionOf(req, p, now));
    var (inserted, reused) := InsertRevision(pubs, limits, req.TargetOf(), RevisionOf(req, p, now)).value;
    var (moved, outcome) := MovePointer(inserted, req, reused).value;
    MovePointerEffect(inserted, req, reused);
    RevealEffect(moved, limits, req, p, outcome, now);
    StepsIngest(pubs, limits, req, p, now, inserted, reused, moved, outcome,
                Reveal(moved, limits, req, p, outcome, now).value);
  }

  /** The outcome a request deserves against the pointer it finds. */
  function Verdict(actual: Option<View>, req: PublishRequest, reused: bool): Outcome
  {
    if req.expected != VersionOf(actual) then Superseded(actual)
    else if actual.Some? && actual.value.targetId == req.targetId then Published(actual.value, true)
    else Published(View(req.targetId, req.job.jobId, (if actual.Some? then actual.value.generation else 0) + 1), reused)
  }

  /** Everything a publication that was not a replay did. */
  ghost predicate Fresh(db: Control, pubs: Publications, limits: StoreLimits, req: PublishRequest, c: Committed,
                        now: int)
  {
    var k, v := req.job.Key(), req.ViewOf();
    && req.Valid() && Authority(db, req, now).Ok?
    && c.control == db.(jobs := db.jobs[k := CompletedRow(db.jobs[k], now)])
    && c.pubs.receipts == pubs.receipts[k := Receipt(req.Canonical(), c.outcome, now)]
    && Extends(pubs.revisions, c.pubs.revisions) && QuotasOk(c.pubs.revisions, limits)
    && req.TargetOf() in c.pubs.revisions
    && c.outcome == Verdict(CurrentView(pubs, v), req, req.TargetOf() in pubs.revisions)
    && c.pubs.views == (if c.outcome.Published? then pubs.views[v := c.outcome.view] else pubs.views)
    && Extends(pubs.published, c.pubs.published)
    && c.pubs.published.Keys == pubs.published.Keys + (if c.outcome.Published? then {req.TargetOf()} else {})
    && Extends(pubs.links, c.pubs.links)
    && (forall l :: l in c.pubs.links && l !in pubs.links ==> NewLink(pubs, req, c, l))
    && OneNewLink(pubs.links, c.pubs.links)
  }

  ghost predicate OneNewLink(before: map<LinkKey, LinkRow>, after: map<LinkKey, LinkRow>)
  {
    forall a, b :: a in after && b in after && a !in before && b !in before ==> a == b
  }

  predicate NewLink(pubs: Publications, req: PublishRequest, c: Committed, l: LinkKey)
    requires l in c.pubs.links
  {
    var t := c.pubs.links[l].target;
    && c.outcome.Published? && req.PublishMemory?
    && l == LinkKeyOf(req, t) && GraphTarget(t.Graph(req.project)) in pubs.published
    && !LinkSetTaken(pubs.links, req.project, t)
    && LinkRevision(req.project, t) in c.pubs.revisions
  }

  lemma FreshEffect(db: Control, pubs: Publications, limits: StoreLimits, req: PublishRequest, p: Prepared, now: int)
    requires req.Valid() && QuotasOk(pubs.revisions, limits)
    requires PublishFresh(db, pubs, limits, req, p, now).Ok?
    ensures Fresh(db, pubs, limits, req, PublishFresh(db, pubs, limits, req, p, now).value, now)
    ensures SameContent(PublishFresh(db, pubs, limits, req, p, now).value.pubs.revisions[req.TargetOf()],
                        RevisionOf(req, p, now))
  {
    IngestEffect(pubs, limits, req, p, now);
    var c := PublishFresh(db, pubs, limits, req, p, now).value;
    var (after, outcome) := Ingest(pubs, limits, req, p, now).value;
    forall l | l in c.pubs.links && l !in pubs.links ensures NewLink(pubs, req, c, l) {
      assert RevealedLink(pubs.links, after, req, p, outcome, l);
    }
  }

  /** A successful publication is a replay that changes nothing, or a fresh publication under live authority. */
  lemma PublishEffect(db: Control, pubs: Publications, limits: StoreLimits, req: PublishRequest,
                      prepared: Result<Prepared, StoreError>, now: int)
    requires QuotasOk(pubs.revisions, limits)
    requires TryPublish(db, pubs, limits, req, prepared, now).Ok?
    ensures var c := TryPublish(db, pubs, limits, req, prepared, now).value;
            || (Replay(db, pubs, req) == Ok(Some(c.outcome)) && c.control == db && c.pubs == pubs)
            || (Replay(db, pubs, req) == Ok(None) && Fresh(db, pubs, limits, req, c, now))
  {
    if Replay(db, pubs, req).value.None? { FreshEffect(db, pubs, limits, req, prepared.value, now); }
  }

  // ---------------------------------------------------------------- preservation

  lemma FreshKeepsViews(db: Control, pubs: Publications, limits: StoreLimits, req: PublishRequest, c: Committed,
                        now: int)
    requires ViewsOk(pubs) && Fresh(db, pubs, limits, req, c, now) && req.job.Key() !in pubs.receipts
    ensures ViewsOk(c.pubs) && PubsEvolve(pubs, c.pubs)
  {
    assert forall v :: v in pubs.views ==> ViewEvolves(pubs.views[v], c.pubs.views[v]);
  }

  /** Every published target was won by some recorded publication. */
  lemma StillWon(db: Control, pubs: Publications, limits: StoreLimits, req: PublishRequest, c: Committed, now: int,
                 t: Target)
    requires ReceiptsRecorded(db.jobs, pubs) && Fresh(db, pubs, limits, req, c, now) && t in c.pubs.published
    ensures exists k :: WonBy(c.pubs, t, k)
  {
    if t in pubs.published {
      var k :| WonBy(pubs, t, k);
      assert WonBy(c.pubs, t, k);
    } else {
      assert WonBy(c.pubs, t, req.job.Key());
    }
  }

  lemma FreshKeepsReceipts(db: Control, pubs: Publications, limits: StoreLimits, req: PublishRequest, c: Committed,
                           now: int)
    requires ReceiptsRecorded(db.jobs, pubs) && Fresh(db, pubs, limits, req, c, now)
    ensures req.job.Key() !in pubs.receipts
    ensures ReceiptsRecorded(c.control.jobs, c.pubs)
  {
    forall t | t in c.pubs.published ensures exists k :: WonBy(c.pubs, t, k) {
      StillWon(db, pubs, limits, req, c, now, t);
    }
  }

  lemma FreshKeepsLinks(db: Control, pubs: Publications, limits: StoreLimits, req: PublishRequest, c: Committed,
                        now: int)
    requires LinksOk(pubs) && Fresh(db, pubs, limits, req, c, now)
    ensures LinksOk(c.pubs)
  {
    forall l | l in c.pubs.links
      ensures var t := c.pubs.links[l].target;
              && t.repositoryId == l.repositoryId && t.snapshotId == l.snapshotId
              && GraphTarget(t.Graph(l.project)) in c.pubs.published
              && Target(l.project, MemoryDomain, "", l.revisionId) in c.pubs.published
              && LinkRevision(l.project, t) in c.pubs.revisions
    {
      if l !in pubs.links { assert NewLink(pubs, req, c, l); }
    }
  }

  lemma FreshKeepsLinkSets(db: Control, pubs: Publications, limits: StoreLimits, req: PublishRequest, c: Committed,
                           now: int)
    requires LinkSetsUnique(pubs.links) && LinksOk(pubs) && Fresh(db, pubs, limits, req, c, now)
    ensures LinkSetsUnique(c.pubs.links)
  {
    forall a, b | a in c.pubs.links && b in c.pubs.links && SameLinkSet(c.pubs.links, a, b) ensures a == b {
      if a !in pubs.links { NewLinkSet(pubs, req, c, b, a); }
      if b !in pubs.links { NewLinkSet(pubs, req, c, a, b); }
    }
  }

  /** A new link shares its link set with no old one. */
  lemma NewLinkSet(pubs: Publications, req: PublishRequest, c: Committed, a: LinkKey, b: LinkKey)
    requires Extends(pubs.links, c.pubs.links) && a in c.pubs.links && b in c.pubs.links
    requires NewLink(pubs, req, c, b) && SameLinkSet(c.pubs.links, a, b)
    ensures a !in pubs.links
  {
  }

  /** Completing the job is a row update like any other the lease holder makes. */
  lemma CompletedKeeps(k: JobKey, r: JobRow, now: int)
    requires RowOk(k, r) && r.state == Publishing
    ensures RowOk(k, CompletedRow(r, now)) && Evolves(r, CompletedRow(r, now))
  {
  }

  /** A publication keeps both the control tables and the publication tables in order. */
  lemma PublishKeeps(db: Control, pubs: Publications, limits: StoreLimits, req: PublishRequest,
                     prepared: Result<Prepared, StoreError>, now: int)
    requires ControlOk(db) && PubsOk(db.jobs, pubs, limits)
    requires TryPublish(db, pubs, limits, req, prepared, now).Ok?
    ensures var c := TryPublish(db, pubs, limits, req, prepared, now).value;
            ControlOk(c.control) && ControlEvolves(db, c.control)
            && PubsOk(c.control.jobs, c.pubs, limits) && PubsEvolve(pubs, c.pubs)
  {
    var c := TryPublish(db, pubs, limits, req, prepared, now).value;
    PublishEffect(db, pubs, limits, req, prepared, now);
    if Replay(db, pubs, req) == Ok(None) {
      var k := req.job.Key();
      CompletedKeeps(k, db.jobs[k], now);
      PutRowKeeps(db, k, CompletedRow(db.jobs[k], now));
      FreshKeepsReceipts(db, pubs, limits, req, c, now);
      FreshKeepsViews(db, pubs, limits, req, c, now);
      FreshKeepsLinks(db, pubs, limits, req, c, now);
      FreshKeepsLinkSets(db, pubs, limits, req, c, now);
    }
  }

  /** Publications survive any evolution of the job table: completed jobs stay completed. */
  lemma PubsOkUnderControl(a: Control, b: Control, pubs: Publications, limits: StoreLimits)
    requires PubsOk(a.jobs, pubs, limits) && ControlEvolves(a, b)
    ensures PubsOk(b.jobs, pubs, limits)
  {
    forall k | k in pubs.receipts ensures k in b.jobs && b.jobs[k].state == Complete {
      assert Evolves(a.jobs[k], b.jobs[k]);
    }
  }
}
