/** Receipts against the jobs they belong to: a receipt is always behind the row it was written for. */
module Receipts {
  import opened Prelude
  import opened Protocol
  import opened Coordinator
  import opened JobInvariant
  import opened Publication
  import opened PublicationInvariant
  import opened DataPlane

  /** Phases still ahead of a lease holder. */
  function Rank(s: JobState): nat
  {
    match s case Leased => 3 case Running => 2 case Publishing => 1 case _ => 0
  }

  /** The phase a receipt records, if it records one. */
  function PhaseOf(a: AdvanceKey): Option<Phase>
  {
    if a.expected == Leased && a.next == Running then Some(Start)
    else if a.expected == Running && a.next == Publishing then Some(BeginPublication)
    else if a.expected == Publishing && a.next == Complete then Some(Finish)
    else None
  }

  /** Generation `g` of the row has left the phase of the given rank behind. */
  predicate Passed(row: JobRow, g: nat, rank: nat)
  {
    g < row.generation || (g == row.generation && Rank(row.state) < rank)
  }

  predicate AdvanceSpent(jobs: Jobs, a: AdvanceKey)
  {
    a.job in jobs && PhaseOf(a).Some? && Passed(jobs[a.job], a.generation, Rank(a.expected))
  }

  /** After a failure report its generation holds nothing. */
  predicate FailureSpent(jobs: Jobs, f: FailureKey)
  {
    f.job in jobs && Passed(jobs[f.job], f.generation, 1)
  }

  ghost predicate ReceiptsSpent(db: Control)
  {
    && (forall a :: a in db.advances ==> AdvanceSpent(db.jobs, a))
    && (forall f :: f in db.failures ==> FailureSpent(db.jobs, f))
  }

  lemma PassedForever(x: JobRow, y: JobRow, g: nat, rank: nat)
    requires Evolves(x, y) && Passed(x, g, rank)
    ensures Passed(y, g, rank)
  {
  }

  /** Every receipt an action adds is spent at once. */
  ghost predicate Recorded(db: Control, after: Control)
  {
    && (forall a :: a in after.advances && a !in db.advances ==> AdvanceSpent(after.jobs, a))
    && (forall f :: f in after.failures && f !in db.failures ==> FailureSpent(after.jobs, f))
  }

  lemma AdvanceRecorded(db: Control, phase: Phase, req: LeaseRequest, now: int)
    requires JobsOk(db.jobs)
    ensures Recorded(db, AdvancePhase(db, phase, req, now).db)
  {
    Authorized(db.jobs, req, now);
    AdvanceEffect(db, phase, req, now);
  }

  lemma FailRecorded(db: Control, req: FailRequest, now: int)
    requires JobsOk(db.jobs)
    ensures Recorded(db, Fail(db, req, now).db)
  {
    Authorized(db.jobs, req.lease, now);
    FailEffect(db, req, now);
  }

  lemma LeaseRecorded(db: Control, op: LeaseOp, req: LeaseRequest, now: int)
    requires JobsOk(db.jobs)
    ensures Recorded(db, ApplyLease(db, op, req, now).db)
  {
    match op
    case Advancing(phase) => AdvanceRecorded(db, phase, req, now);
    case Renewing(limits) => HeartbeatEffect(db, limits, req, now);
    case Failing(code, retryable) => FailRecorded(db, FailRequest(req, code, retryable), now);
  }

  predicate SameReceipts(db: Control, after: Control)
  {
    after.advances == db.advances && after.failures == db.failures
  }

  lemma ClaimRecordsNothing(db: Control, limits: CoordinatorLimits, req: ClaimRequest, now: int)
    requires JobsOk(db.jobs)
    ensures SameReceipts(db, Claim(db, limits, req, now).db)
  {
    if req.protocolVersion == CONTROL_PROTOCOL_VERSION && After(now, limits.leaseTtl).Some? {
      var next := NextQueued(Reclaimed(db.jobs, req.project, now), req.project, req.kind);
      if next.Some? { ClaimGrants(db, limits, req, now, next.value); }
    }
  }

  lemma ControlRecorded(db: Control, a: Action)
    requires JobsOk(db.jobs)
    ensures Recorded(db, ApplyControl(db, a))
  {
    if a.DoLease? { LeaseRecorded(db, a.op, a.req, a.now); }
    else if a.DoClaim? { ClaimRecordsNothing(db, a.limits, a.claim, a.now); }
    else if a.DoSubmit? { SubmitEffect(db, a.limits, a.submit, a.now); }
    else if a.DoCancel? { CancelEffect(db, a.cancel, a.now); }
  }

  lemma PublishRecordsNothing(cfg: Config, w: World, req: PublishRequest, prepared: Result<Prepared, StoreError>,
                              now: int)
    requires QuotasOk(w.pubs.revisions, cfg.store)
    ensures SameReceipts(w.control, ApplyPublish(cfg, w, req, prepared, now).control)
  {
    if TryPublish(w.control, w.pubs, cfg.store, req, prepared, now).Ok? {
      PublishEffect(w.control, w.pubs, cfg.store, req, prepared, now);
    }
  }

  lemma StepRecorded(cfg: Config, w: World, a: Action)
    requires Inv(cfg, w)
    ensures Recorded(w.control, Apply(cfg, w, a).control)
  {
    if a.DoPublish? {
      PublishRecordsNothing(cfg, w, a.publish, a.prepared, a.now);
    } else {
      ControlRecorded(w.control, a);
    }
  }

  lemma SpentStays(db: Control, after: Control)
    requires ReceiptsSpent(db) && Recorded(db, after) && ControlEvolves(db, after)
    ensures ReceiptsSpent(after)
  {
    forall a | a in after.advances ensures AdvanceSpent(after.jobs, a) {
      if a in db.advances { PassedForever(db.jobs[a.job], after.jobs[a.job], a.generation, Rank(a.expected)); }
    }
    forall f | f in after.failures ensures FailureSpent(after.jobs, f) {
      if f in db.failures { PassedForever(db.jobs[f.job], after.jobs[f.job], f.generation, 1); }
    }
  }

  /** The invariant together with the receipts being spent. */
  ghost predicate Settled(cfg: Config, w: World) { Inv(cfg, w) && ReceiptsSpent(w.control) }

  lemma StepSettled(cfg: Config, w: World, a: Action)
    requires Settled(cfg, w)
    ensures Settled(cfg, Apply(cfg, w, a))
  {
    StepRecorded(cfg, w, a);
    ApplyKeeps(cfg, w, a);
    SpentStays(w.control, Apply(cfg, w, a).control);
  }

  lemma {:induction false} RunSettled(cfg: Config, w: World, actions: seq<Action>)
    requires Settled(cfg, w)
    ensures Settled(cfg, Exec(cfg, w, actions))
    decreases |actions|
  {
    if actions != [] {
      StepSettled(cfg, w, actions[0]);
      RunSettled(cfg, Apply(cfg, w, actions[0]), actions[1..]);
    }
  }

  /** In every reachable state each receipt's generation has left the recorded phase behind: no receipt is
      ahead of its job, and none can answer for a phase the holder has still to do. */
  lemma ReachableReceiptsSpent(cfg: Config, actions: seq<Action>)
    ensures Settled(cfg, Exec(cfg, EMPTY, actions))
  {
    ReachableInv(cfg, []);
    RunSettled(cfg, EMPTY, actions);
  }
}
