/** Cancellation against publication, view pointers and visibility, over whole runs. */
module Publishing {
  import opened Prelude
  import opened Protocol
  import opened Coordinator
  import opened JobInvariant
  import opened Publication
  import opened PublicationInvariant
  import opened FactInvariant
  import opened DataPlane
  import opened Lifecycle
  import opened Fencing

  // ---------------------------------------------------------------- cancellation and publication

  /** Generation `g` of the job can no longer be acted under: the job is over, was requeued, or has
      been granted again. */
  predicate Revoked(row: JobRow, g: nat)
  {
    row.state.IsTerminal() || g < row.generation || (row.state == Queued && g == row.generation)
  }

  lemma RevokedForever(a: JobRow, b: JobRow, g: nat)
    requires Revoked(a, g) && Evolves(a, b)
    ensures Revoked(b, g)
  {
  }

  lemma PublishNeedsAuthority(cfg: Config, w: World, req: PublishRequest, prepared: Result<Prepared, StoreError>,
                              now: int)
    requires Publication.Authority(w.control, req, now).Err?
    ensures ApplyPublish(cfg, w, req, prepared, now) == w
  {
  }

  lemma PutNeedsAuthority(cfg: Config, w: World, b: Action)
    requires JobsOk(w.control.jobs) && b.DoPut? && b.batch.job.Key() in w.control.jobs
    requires Revoked(w.control.jobs[b.batch.job.Key()], b.auth.generation)
    ensures Apply(cfg, w, b) == w
  {
    PutOnlyStoresOnce(w.facts, w.control.jobs, cfg.quota, b.batch, b.auth, b.now, b.timing);
  }

  lemma RevokedRequestIsPowerless(cfg: Config, w: World, b: Action, k: JobKey)
    requires Inv(cfg, w) && k in w.control.jobs && BearerOf(b).Some? && BearerOf(b).value.k == k
    requires Revoked(w.control.jobs[k], BearerOf(b).value.generation)
    ensures Apply(cfg, w, b) == w
  {
    if b.DoLease? {
      LeaseEffect(w.control, b.op, b.req, b.now);
      Authorized(w.control.jobs, b.req, b.now);
    } else if b.DoPut? {
      PutNeedsAuthority(cfg, w, b);
    } else {
      PublishNeedsAuthority(cfg, w, b.publish, b.prepared, b.now);
    }
  }

  /** After a cancel, a failure, a sweep or a publication, no request of the revoked generation, be it a
      transition, a publication or a fact put, changes any table in any run. */
  lemma RevokedIsPowerlessForever(cfg: Config, w: World, between: seq<Action>, b: Action, k: JobKey)
    requires Inv(cfg, w) && k in w.control.jobs && BearerOf(b).Some? && BearerOf(b).value.k == k
    requires Revoked(w.control.jobs[k], BearerOf(b).value.generation)
    ensures Apply(cfg, Exec(cfg, w, between), b) == Exec(cfg, w, between)
  {
    ExecKeeps(cfg, w, between);
    var later := Exec(cfg, w, between);
    RevokedForever(w.control.jobs[k], later.control.jobs[k], BearerOf(b).value.generation);
    RevokedRequestIsPowerless(cfg, later, b, k);
  }

  /** However a lease ends (cancelled, failed, swept, completed or granted again), its generation is revoked. */
  lemma EndedLeaseIsRevoked(k: JobKey, before: JobRow, after: JobRow)
    requires RowOk(k, after) && Evolves(before, after)
    requires !(after.state.HoldsLease() && after.generation == before.generation)
    ensures Revoked(after, before.generation)
  {
  }

  /** Once any action ended the lease of a generation, nothing that bears it changes any table again: no
      transition, no publication and no fact put after a cancel, a failure, a sweep or a new grant. */
  lemma EndedLeaseNeverActs(cfg: Config, w: World, a: Action, between: seq<Action>, b: Action, k: JobKey)
    requires Inv(cfg, w) && k in w.control.jobs && BearerOf(b).Some? && BearerOf(b).value.k == k
    requires BearerOf(b).value.generation == w.control.jobs[k].generation
    requires var row := RowAfter(cfg, w, a, k);
             !(row.state.HoldsLease() && row.generation == w.control.jobs[k].generation)
    ensures var later := Exec(cfg, Apply(cfg, w, a), between); Apply(cfg, later, b) == later
  {
    ApplyKeeps(cfg, w, a);
    EndedLeaseIsRevoked(k, w.control.jobs[k], RowAfter(cfg, w, a, k));
    RevokedIsPowerlessForever(cfg, Apply(cfg, w, a), between, b, k);
  }

  lemma ReceiptLasts(cfg: Config, w: World, actions: seq<Action>, k: JobKey)
    requires Inv(cfg, w) && k in w.pubs.receipts
    ensures var later := Exec(cfg, w, actions).pubs.receipts; k in later && later[k] == w.pubs.receipts[k]
  {
    ExecKeeps(cfg, w, actions);
  }

  /** Each job records at most one publication: once one is recorded, nothing later replaces it and no
      publication of that job changes any table. */
  lemma OnePublicationPerJob(cfg: Config, w: World, between: seq<Action>, b: Action, k: JobKey)
    requires Inv(cfg, w) && k in w.pubs.receipts && b.DoPublish? && b.publish.job.Key() == k
    ensures var later := Exec(cfg, w, between);
            && k in later.pubs.receipts && later.pubs.receipts[k] == w.pubs.receipts[k]
            && Apply(cfg, later, b) == later
  {
    ReceiptLasts(cfg, w, between, k);
    RevokedIsPowerlessForever(cfg, w, between, b, k);
  }

  lemma CancelFindsComplete(db: Control, req: CancelRequest, now: int)
    requires JobsOk(db.jobs) && req.job.Key() in db.jobs && db.jobs[req.job.Key()].kind == req.job.kind
    requires db.jobs[req.job.Key()].state == Complete && req.protocolVersion == CONTROL_PROTOCOL_VERSION
    ensures Cancel(db, req, now) ==
            Step(db, if req.expectedState.Some? && req.expectedState.value != Complete then Err(Conflict)
                     else Ok(RecordOf(req.job.Key(), db.jobs[req.job.Key()])))
  {
    RowLoads(db.jobs, req.job);
  }

  /** A cancel that arrives after the publication committed finds the complete record and changes nothing. */
  lemma CancelAfterPublish(cfg: Config, w: World, between: seq<Action>, req: CancelRequest, now: int)
    requires Inv(cfg, w) && req.job.Key() in w.pubs.receipts && w.control.jobs[req.job.Key()].kind == req.job.kind
    requires req.protocolVersion == CONTROL_PROTOCOL_VERSION
    requires req.expectedState.Some? ==> req.expectedState.value == Complete
    ensures var later := Exec(cfg, w, between);
            Cancel(later.control, req, now) ==
                Step(later.control, Ok(RecordOf(req.job.Key(), w.control.jobs[req.job.Key()])))
  {
    TerminalForever(cfg, w, between, req.job.Key());
    ExecKeeps(cfg, w, between);
    CancelFindsComplete(Exec(cfg, w, between).control, req, now);
  }

  // ---------------------------------------------------------------- view pointers

  /** The view stayed, or one publication that expected exactly the version it replaces moved it on by
      one generation. */
  predicate ViewMoved(a: Action, v: ViewKey, before: Option<View>, after: Option<View>)
  {
    || after == before
    || (&& a.DoPublish? && a.publish.ViewOf() == v && a.publish.expected == VersionOf(before)
        && after == Some(View(a.publish.targetId, a.publish.job.jobId,
                              (if before.Some? then before.value.generation else 0) + 1)))
  }

  lemma FreshMovesView(db: Control, pubs: Publications, limits: StoreLimits, a: Action, c: Committed, v: ViewKey)
    requires a.DoPublish? && Fresh(db, pubs, limits, a.publish, c, a.now)
    ensures ViewMoved(a, v, CurrentView(pubs, v), CurrentView(c.pubs, v))
  {
  }

  lemma PublishMovesView(cfg: Config, w: World, a: Action, v: ViewKey)
    requires QuotasOk(w.pubs.revisions, cfg.store) && a.DoPublish?
    ensures ViewMoved(a, v, CurrentView(w.pubs, v),
                      CurrentView(ApplyPublish(cfg, w, a.publish, a.prepared, a.now).pubs, v))
  {
    var reply := TryPublish(w.control, w.pubs, cfg.store, a.publish, a.prepared, a.now);
    if reply.Ok? {
      PublishEffect(w.control, w.pubs, cfg.store, a.publish, a.prepared, a.now);
      if reply.value.pubs != w.pubs { FreshMovesView(w.control, w.pubs, cfg.store, a, reply.value, v); }
    }
  }

  /** Whatever the action, a view stays or is moved by its rightful successor. */
  lemma ViewStep(cfg: Config, w: World, a: Action, v: ViewKey)
    requires Inv(cfg, w)
    ensures ViewMoved(a, v, CurrentView(w.pubs, v), CurrentView(Apply(cfg, w, a).pubs, v))
  {
    if a.DoPublish? { PublishMovesView(cfg, w, a, v); }
  }

  /** Over any run a view never loses an update: its generation only grows, and one generation number
      always names the same target and job. */
  lemma ViewHistoryIsAChain(cfg: Config, w: World, actions: seq<Action>, v: ViewKey)
    requires Inv(cfg, w) && v in w.pubs.views
    ensures var later := Exec(cfg, w, actions).pubs.views;
            && v in later && w.pubs.views[v].generation <= later[v].generation
            && (w.pubs.views[v].generation == later[v].generation ==> later[v] == w.pubs.views[v])
  {
    ExecKeeps(cfg, w, actions);
  }

  /** A publisher whose expectation is stale is superseded and moves no view, even when its target is
      already the current one. */
  lemma StalePublisherLoses(db: Control, pubs: Publications, limits: StoreLimits, req: PublishRequest,
                            prepared: Result<Prepared, StoreError>, now: int)
    requires PubsOk(db.jobs, pubs, limits) && TryPublish(db, pubs, limits, req, prepared, now).Ok?
    requires req.job.Key() !in pubs.receipts && req.expected != VersionOf(CurrentView(pubs, req.ViewOf()))
    ensures var c := TryPublish(db, pubs, limits, req, prepared, now).value;
            && c.outcome == Superseded(CurrentView(pubs, req.ViewOf()))
            && c.pubs.views == pubs.views && c.pubs.published == pubs.published && c.pubs.links == pubs.links
  {
    PublishEffect(db, pubs, limits, req, prepared, now);
    FreshLoser(db, pubs, limits, req, TryPublish(db, pubs, limits, req, prepared, now).value, now);
  }

  lemma FreshLoser(db: Control, pubs: Publications, limits: StoreLimits, req: PublishRequest, c: Committed, now: int)
    requires Fresh(db, pubs, limits, req, c, now) && req.expected != VersionOf(CurrentView(pubs, req.ViewOf()))
    ensures c.outcome == Superseded(CurrentView(pubs, req.ViewOf()))
    ensures c.pubs.views == pubs.views && c.pubs.published == pubs.published && c.pubs.links == pubs.links
  {
    assert c.pubs.published.Keys == pubs.published.Keys;
    assert c.pubs.links.Keys == pubs.links.Keys;
  }

  // ---------------------------------------------------------------- visibility

  /** The action is a publication of `t` that answers `Published`. */
  ghost predicate Wins(cfg: Config, w: World, a: Action, t: Target)
  {
    a.DoPublish? && a.publish.TargetOf() == t &&
    var reply := TryPublish(w.control, w.pubs, cfg.store, a.publish, a.prepared, a.now);
    reply.Ok? && reply.value.outcome.Published?
  }

  ghost predicate SomeoneWins(cfg: Config, w: World, actions: seq<Action>, t: Target)
    decreases |actions|
  {
    actions != [] && (Wins(cfg, w, actions[0], t) || SomeoneWins(cfg, Apply(cfg, w, actions[0]), actions[1..], t))
  }

  lemma PublishReveals(cfg: Config, w: World, a: Action, t: Target)
    requires PubsOk(w.control.jobs, w.pubs, cfg.store) && a.DoPublish?
    requires TryPublish(w.control, w.pubs, cfg.store, a.publish, a.prepared, a.now).Ok?
    ensures var c := TryPublish(w.control, w.pubs, cfg.store, a.publish, a.prepared, a.now).value;
            ReadPublished(c.pubs, t).Some? <==>
            ReadPublished(w.pubs, t).Some? || (a.publish.TargetOf() == t && c.outcome.Published?)
  {
    PublishEffect(w.control, w.pubs, cfg.store, a.publish, a.prepared, a.now);
  }

  lemma VisibleStep(cfg: Config, w: World, a: Action, t: Target)
    requires Inv(cfg, w)
    ensures ReadPublished(Apply(cfg, w, a).pubs, t).Some? <==> ReadPublished(w.pubs, t).Some? || Wins(cfg, w, a, t)
  {
    if a.DoPublish? && TryPublish(w.control, w.pubs, cfg.store, a.publish, a.prepared, a.now).Ok? {
      PublishReveals(cfg, w, a, t);
    }
  }

  /** In every run, a published-only read finds a target exactly when some publication of it answered
      `Published`. */
  lemma {:induction false} VisibleIffPublished(cfg: Config, w: World, actions: seq<Action>, t: Target)
    requires Inv(cfg, w)
    ensures ReadPublished(Exec(cfg, w, actions).pubs, t).Some? <==>
            ReadPublished(w.pubs, t).Some? || SomeoneWins(cfg, w, actions, t)
    decreases |actions|
  {
    if actions != [] {
      VisibleStep(cfg, w, actions[0], t);
      ApplyKeeps(cfg, w, actions[0]);
      VisibleIffPublished(cfg, Apply(cfg, w, actions[0]), actions[1..], t);
    }
  }

  /** What a view points at can be read, and keeps reading the same immutable content for ever. */
  lemma ViewsAreReadable(cfg: Config, w: World, actions: seq<Action>, v: ViewKey)
    requires Inv(cfg, w) && v in w.pubs.views
    ensures var t := ViewTarget(v, w.pubs.views[v]);
            && ReadPublished(w.pubs, t).Some?
            && ReadPublished(Exec(cfg, w, actions).pubs, t) == ReadPublished(w.pubs, t)
  {
    ExecKeeps(cfg, w, actions);
  }

  /** A federated view exists exactly when both pointers do; its halves are what the graph view and the memory
      view point at, and both are published. */
  lemma FederatedViewIsPublished(cfg: Config, w: World, project: Project, repositoryId: string, graph: string,
                                 memory: string)
    requires Inv(cfg, w)
    ensures var f := FederatedView(w.pubs, project, repositoryId, graph, memory);
            var g, m := ViewKey(project, GraphDomain, repositoryId, graph), ViewKey(project, MemoryDomain, "", memory);
            && (f.Some? <==> g in w.pubs.views && m in w.pubs.views)
            && (f.Some? ==>
                  && f.value.0 == Target(project, GraphDomain, repositoryId, w.pubs.views[g].targetId)
                  && f.value.1 == Target(project, MemoryDomain, "", w.pubs.views[m].targetId)
                  && ReadPublished(w.pubs, f.value.0).Some? && ReadPublished(w.pubs, f.value.1).Some?)
  {
    var g, m := ViewKey(project, GraphDomain, repositoryId, graph), ViewKey(project, MemoryDomain, "", memory);
    if g in w.pubs.views && m in w.pubs.views {
      assert ViewTarget(g, w.pubs.views[g]) in w.pubs.published && ViewTarget(m, w.pubs.views[m]) in w.pubs.published;
    }
  }

  /** Stored links join a published memory revision to a published graph snapshot. */
  lemma LinksArePublished(cfg: Config, actions: seq<Action>, l: LinkKey)
    requires l in Exec(cfg, EMPTY, actions).pubs.links
    ensures var pubs := Exec(cfg, EMPTY, actions).pubs;
            && ReadPublished(pubs, Target(l.project, MemoryDomain, "", l.revisionId)).Some?
            && ReadPublished(pubs, Target(l.project, GraphDomain, l.repositoryId, l.snapshotId)).Some?
  {
    ReachableInv(cfg, actions);
    assert GraphTarget(Exec(cfg, EMPTY, actions).pubs.links[l].target.Graph(l.project))
      == Target(l.project, GraphDomain, l.repositoryId, l.snapshotId);
  }
}
