/** The life of one job row: which states it moves through, and how often. */
module Lifecycle {
  import opened Prelude
  import opened Protocol
  import opened Coordinator
  import opened JobInvariant
  import opened Publication
  import opened PublicationInvariant
  import opened DataPlane

  // ---------------------------------------------------------------- what an action does to a row

  /** The row a lease-bearing request writes when it is authorized. */
  function LeaseRow(op: LeaseOp, row: JobRow, req: LeaseRequest, now: int): JobRow
  {
    match op
    case Advancing(phase) => Moved(row, phase.Next(), phase.Finish?, now)
    case Renewing(limits) => Renewed(row, now + limits.leaseTtl, now)
    case Failing(code, retryable) => FailedRow(row, FailRequest(req, code, retryable), now)
  }

  predicate LeaseOpApplies(op: LeaseOp, row: JobRow)
  {
    row.state.HoldsLease() && (op.Advancing? ==> row.state == op.phase.Expected())
  }

  /** A lease-bearing request writes at most its own row, and only under a live matching lease. */
  lemma LeaseEffect(db: Control, op: LeaseOp, req: LeaseRequest, now: int)
    requires req.job.Key() in db.jobs ==> RowOk(req.job.Key(), db.jobs[req.job.Key()])
    ensures var after, k := ApplyLease(db, op, req, now).db, req.job.Key();
            || after == db
            || (&& Authorize(db.jobs, req, now).Ok? && k in db.jobs && LeaseOpApplies(op, db.jobs[k])
                && after.jobs == db.jobs[k := LeaseRow(op, db.jobs[k], req, now)])
  {
    match op
    case Advancing(phase) => AdvanceEffect(db, phase, req, now);
    case Renewing(limits) => HeartbeatEffect(db, limits, req, now);
    case Failing(code, retryable) => FailEffect(db, FailRequest(req, code, retryable), now);
  }

  /** A claim leaves a row swept, or swept and granted. */
  predicate ClaimWrites(k: JobKey, before: JobRow, limits: CoordinatorLimits, req: ClaimRequest, now: int, row: JobRow)
  {
    var swept := if k.project == req.project then ReclaimRow(before, now) else before;
    row == swept
        || (k.project == req.project && swept.state == Queued
            && row == Grant(swept, req.worker, now + limits.leaseTtl, now))
  }

  /** The rows each transaction leaves behind, one alternative per kind of request. */
  ghost predicate RowWritten(w: World, a: Action, k: JobKey, row: JobRow)
    requires k in w.control.jobs
  {
    var before := w.control.jobs[k];
    match a
    case DoClaim(limits, req, now) => ClaimWrites(k, before, limits, req, now, row)
    case DoReclaim(req, now) => k.project == req.project && row == ReclaimRow(before, now)
    case DoLease(op, req, now) =>
      k == req.job.Key() && Authorize(w.control.jobs, req, now).Ok? && LeaseOpApplies(op, before)
          && row == LeaseRow(op, before, req, now)
    case DoCancel(req, now) => k == req.job.Key() && !before.state.IsTerminal() && row == CancelledRow(before, now)
    case DoPublish(req, _, now) =>
      k == req.job.Key() && Publication.Authority(w.control, req, now).Ok? && row == CompletedRow(before, now)
    case _ => false
  }

  ghost function RowAfter(cfg: Config, w: World, a: Action, k: JobKey): JobRow
    requires k in w.control.jobs
  {
    var jobs := Apply(cfg, w, a).control.jobs;
    if k in jobs then jobs[k] else w.control.jobs[k]
  }

  lemma PublishedRow(cfg: Config, w: World, a: Action, k: JobKey)
    requires PubsOk(w.control.jobs, w.pubs, cfg.store) && k in w.control.jobs && a.DoPublish?
    ensures RowAfter(cfg, w, a, k) == w.control.jobs[k] || RowWritten(w, a, k, RowAfter(cfg, w, a, k))
  {
    if TryPublish(w.control, w.pubs, cfg.store, a.publish, a.prepared, a.now).Ok? {
      PublishEffect(w.control, w.pubs, cfg.store, a.publish, a.prepared, a.now);
    }
  }

  lemma ClaimedNext(db: Control, limits: CoordinatorLimits, req: ClaimRequest, now: int, k: JobKey, next: JobKey)
    requires JobsOk(db.jobs) && k in db.jobs && req.protocolVersion == CONTROL_PROTOCOL_VERSION
    requires After(now, limits.leaseTtl).Some?
    requires NextQueued(Reclaimed(db.jobs, req.project, now), req.project, req.kind) == Some(next)
    ensures var jobs := Claim(db, limits, req, now).db.jobs;
            k in jobs && ClaimWrites(k, db.jobs[k], limits, req, now, jobs[k])
  {
    ClaimGrants(db, limits, req, now, next);
    GrantWrites(db.jobs, limits, req, now, k, next);
  }

  lemma GrantWrites(jobs: Jobs, limits: CoordinatorLimits, req: ClaimRequest, now: int, k: JobKey, next: JobKey)
    requires k in jobs && next in jobs && next.project == req.project
    requires Reclaimed(jobs, req.project, now)[next].state == Queued
    ensures var swept := Reclaimed(jobs, req.project, now);
            var after := swept[next := Grant(swept[next], req.worker, now + limits.leaseTtl, now)];
            ClaimWrites(k, jobs[k], limits, req, now, after[k])
  {
  }

  lemma ClaimedRow(db: Control, limits: CoordinatorLimits, req: ClaimRequest, now: int, k: JobKey)
    requires JobsOk(db.jobs) && k in db.jobs
    ensures var jobs := Claim(db, limits, req, now).db.jobs;
            k in jobs && (jobs[k] == db.jobs[k] || ClaimWrites(k, db.jobs[k], limits, req, now, jobs[k]))
  {
    if req.protocolVersion == CONTROL_PROTOCOL_VERSION && After(now, limits.leaseTtl).Some? {
      var next := NextQueued(Reclaimed(db.jobs, req.project, now), req.project, req.kind);
      if next.Some? { ClaimedNext(db, limits, req, now, k, next.value); }
    }
  }

  /** One kind of request at a time. */
  ghost predicate RowAccounted(w: World, a: Action, k: JobKey)
    requires k in w.control.jobs
  {
    var jobs := ApplyControl(w.control, a).jobs;
    k in jobs && (jobs[k] == w.control.jobs[k] || RowWritten(w, a, k, jobs[k]))
  }

  lemma SubmittedRow(w: World, a: Action, k: JobKey)
    requires JobsOk(w.control.jobs) && k in w.control.jobs && a.DoSubmit?
    ensures RowAccounted(w, a, k)
  {
    SubmitEffect(w.control, a.limits, a.submit, a.now);
  }

  lemma GrantedRow(w: World, a: Action, k: JobKey)
    requires JobsOk(w.control.jobs) && k in w.control.jobs && a.DoClaim?
    ensures RowAccounted(w, a, k)
  {
    ClaimedRow(w.control, a.limits, a.claim, a.now, k);
  }

  lemma LeasedRow(w: World, a: Action, k: JobKey)
    requires JobsOk(w.control.jobs) && k in w.control.jobs && a.DoLease?
    ensures RowAccounted(w, a, k)
  {
    LeaseEffect(w.control, a.op, a.req, a.now);
  }

  lemma CancelledJobRow(w: World, a: Action, k: JobKey)
    requires JobsOk(w.control.jobs) && k in w.control.jobs && a.DoCancel?
    ensures RowAccounted(w, a, k)
  {
    CancelEffect(w.control, a.cancel, a.now);
  }

  lemma ControlRow(w: World, a: Action, k: JobKey)
    requires JobsOk(w.control.jobs) && k in w.control.jobs && !a.DoPublish?
    ensures RowAccounted(w, a, k)
  {
    if a.DoSubmit? { SubmittedRow(w, a, k); }
    else if a.DoClaim? { GrantedRow(w, a, k); }
    else if a.DoLease? { LeasedRow(w, a, k); }
    else if a.DoCancel? { CancelledJobRow(w, a, k); }
  }

  /** Every change of a row is one of the writes above. */
  lemma RowEffect(cfg: Config, w: World, a: Action, k: JobKey)
    requires JobsOk(w.control.jobs) && PubsOk(w.control.jobs, w.pubs, cfg.store) && k in w.control.jobs
    ensures RowAfter(cfg, w, a, k) == w.control.jobs[k] || RowWritten(w, a, k, RowAfter(cfg, w, a, k))
  {
    if a.DoPublish? { PublishedRow(cfg, w, a, k); } else { ControlRow(w, a, k); }
  }

  // ---------------------------------------------------------------- legal transitions

  /** The one state change maintenance makes that the protocol's own relation does not list. */
  predicate RequeueFromPublishing(a: JobState, b: JobState) { a == Publishing && b == Queued }

  /** One `UPDATE` of one row. */
  predicate LegalUpdate(action: Action, a: JobRow, b: JobRow)
  {
    || a.state == b.state
    || a.state.CanTransitionTo(b.state)
    || (RequeueFromPublishing(a.state, b.state) && (action.DoReclaim? || action.DoClaim?))
  }

  /** The successive values a transaction gives a row that ends as `after`: a claim sweeps the
      project before it leases. */
  function Updates(a: Action, k: JobKey, before: JobRow, after: JobRow): seq<JobRow>
  {
    var claimed := a.DoClaim? && k.project == a.claim.project && after != before;
    var mid := if claimed then ReclaimRow(before, a.now) else after;
    [before] + (if mid != before then [mid] else []) + (if after != mid then [after] else [])
  }

  ghost function RowTrace(cfg: Config, w: World, a: Action, k: JobKey): seq<JobRow>
    requires k in w.control.jobs
  {
    Updates(a, k, w.control.jobs[k], RowAfter(cfg, w, a, k))
  }

  lemma SweepLegal(k: JobKey, r: JobRow, now: int)
    requires RowOk(k, r)
    ensures var b := ReclaimRow(r, now);
            r.state == b.state || r.state.CanTransitionTo(b.state) || RequeueFromPublishing(r.state, b.state)
  {
  }

  lemma WrittenLegal(w: World, a: Action, k: JobKey, row: JobRow)
    requires k in w.control.jobs && RowOk(k, w.control.jobs[k]) && RowWritten(w, a, k, row) && !a.DoClaim?
    ensures LegalUpdate(a, w.control.jobs[k], row)
  {
    if a.DoReclaim? { SweepLegal(k, w.control.jobs[k], a.now); }
  }

  /** A chain of updates between two rows. */
  ghost predicate LegalChain(a: Action, chain: seq<JobRow>, first: JobRow, last: JobRow)
  {
    && chain != [] && chain[0] == first && chain[|chain| - 1] == last
    && forall i :: 0 <= i < |chain| - 1 ==> LegalUpdate(a, chain[i], chain[i + 1])
  }

  lemma UpdatesLegal(w: World, a: Action, k: JobKey, after: JobRow)
    requires k in w.control.jobs && RowOk(k, w.control.jobs[k])
    requires after == w.control.jobs[k] || RowWritten(w, a, k, after)
    ensures LegalChain(a, Updates(a, k, w.control.jobs[k], after), w.control.jobs[k], after)
  {
    if after != w.control.jobs[k] {
      if a.DoClaim? { SweepLegal(k, w.control.jobs[k], a.now); } else { WrittenLegal(w, a, k, after); }
    }
  }

  /** Every update of every reachable row is a listed transition, or maintenance requeueing a
      publishing job. */
  lemma TraceLegal(cfg: Config, w: World, a: Action, k: JobKey)
    requires Inv(cfg, w) && k in w.control.jobs
    ensures LegalChain(a, RowTrace(cfg, w, a, k), w.control.jobs[k], RowAfter(cfg, w, a, k))
  {
    RowEffect(cfg, w, a, k);
    UpdatesLegal(w, a, k, RowAfter(cfg, w, a, k));
  }

  // ---------------------------------------------------------------- bounded life

  /** Number of updates in a chain that change the state. */
  function Changes(chain: seq<JobRow>): nat
  {
    if |chain| < 2 then 0 else (if chain[0].state != chain[1].state then 1 else 0) + Changes(chain[1..])
  }

  lemma ThreeRows(a: JobRow, b: JobRow, c: JobRow)
    ensures Changes([a, b, c]) == (if a.state != b.state then 1 else 0) + (if b.state != c.state then 1 else 0)
  {
    assert [a, b, c][1..] == [b, c];
    assert Changes([b, c]) == if b.state != c.state then 1 else 0;
  }

  lemma UpdatesSpend(w: World, a: Action, k: JobKey, after: JobRow)
    requires k in w.control.jobs && RowOk(k, w.control.jobs[k]) && Evolves(w.control.jobs[k], after)
    requires after == w.control.jobs[k] || RowWritten(w, a, k, after)
    ensures Changes(Updates(a, k, w.control.jobs[k], after)) <= Potential(w.control.jobs[k]) - Potential(after)
  {
    var before := w.control.jobs[k];
    if a.DoClaim? && k.project == a.claim.project && after != before {
      ReclaimRowKeeps(k, before, a.now);
      if after != ReclaimRow(before, a.now) {
        assert Potential(after) < Potential(ReclaimRow(before, a.now));
        ThreeRows(before, ReclaimRow(before, a.now), after);
      }
    }
  }

  /** State changes of one job over a whole run, counted per update. */
  ghost function LifeChanges(cfg: Config, w: World, actions: seq<Action>, k: JobKey): nat
    decreases |actions|
  {
    if actions == [] || k !in w.control.jobs then 0
    else Changes(RowTrace(cfg, w, actions[0], k)) + LifeChanges(cfg, Apply(cfg, w, actions[0]), actions[1..], k)
  }

  lemma PotentialBounds(k: JobKey, r: JobRow)
    requires RowOk(k, r)
    ensures 0 <= Potential(r) <= 4 * r.maxAttempts
  {
  }

  lemma StepSpends(cfg: Config, w: World, a: Action, k: JobKey)
    requires Inv(cfg, w) && k in w.control.jobs
    ensures k in Apply(cfg, w, a).control.jobs
    ensures Changes(RowTrace(cfg, w, a, k))
            <= Potential(w.control.jobs[k]) - Potential(Apply(cfg, w, a).control.jobs[k])
  {
    ApplyKeeps(cfg, w, a);
    RowEffect(cfg, w, a, k);
    UpdatesSpend(w, a, k, RowAfter(cfg, w, a, k));
  }

  lemma {:induction false} RunSpends(cfg: Config, w: World, actions: seq<Action>, k: JobKey)
    requires Inv(cfg, w) && k in w.control.jobs
    ensures k in Exec(cfg, w, actions).control.jobs
    ensures LifeChanges(cfg, w, actions, k)
            <= Potential(w.control.jobs[k]) - Potential(Exec(cfg, w, actions).control.jobs[k])
    decreases |actions|
  {
    if actions != [] {
      StepSpends(cfg, w, actions[0], k);
      ApplyKeeps(cfg, w, actions[0]);
      RunSpends(cfg, Apply(cfg, w, actions[0]), actions[1..], k);
    }
  }

  /** A job changes state at most four times per allowed attempt, in any run whatsoever. */
  lemma LifetimeBound(cfg: Config, w: World, actions: seq<Action>, k: JobKey)
    requires Inv(cfg, w) && k in w.control.jobs
    ensures LifeChanges(cfg, w, actions, k) <= 4 * w.control.jobs[k].maxAttempts
  {
    RunSpends(cfg, w, actions, k);
    ExecKeeps(cfg, w, actions);
    PotentialBounds(k, w.control.jobs[k]);
    PotentialBounds(k, Exec(cfg, w, actions).control.jobs[k]);
  }

  // ---------------------------------------------------------------- reachable records

  /** Any stored row, however it came about, loads exactly when its columns decode and its record is consistent:
      anything else is reported instead of returned. */
  lemma LoadSucceedsIff(jobs: Jobs, job: JobRef)
    requires job.Key() in jobs
    ensures var row := jobs[job.Key()];
            LoadRecord(jobs, job).Ok? <==>
              && row.kind == job.kind && 1 <= row.attempt <= row.maxAttempts && row.createdAt <= row.deadlineAt
              && (row.worker.Some? <==> row.leaseUntil.Some?) && (row.worker.Some? ==> row.generation > 0)
              && (row.worker.Some? <==> row.state in {Leased, Running, Publishing})
              && row.spec.protocolVersion == 3 && row.spec.digestsMatch && row.spec.kind == row.spec.input.Kind()
              && row.kind == row.spec.kind && job.project == row.spec.input.ProjectOf()
              && !(row.cancellationRequested && row.state == Complete)
              && (row.state == Failed ==> row.failureCode.Some?)
              && (row.state in {Complete, Cancelled} ==> row.failureCode.None?)
    ensures LoadRecord(jobs, job).Err? ==> LoadRecord(jobs, job).error in {NotFound, Serialization}
  {
  }

  /** Everything the record check asks, and what it asks of the specification. */
  predicate Sound(r: JobRecord, job: JobRef)
  {
    && r.job == job && r.spec.protocolVersion == 3 && r.spec.digestsMatch && r.spec.kind == r.spec.input.Kind()
    && r.job.project == r.spec.input.ProjectOf() && r.job.kind == r.spec.kind && r.job.jobId == r.spec.idempotencyKey
    && 1 <= r.attempt <= r.maxAttempts && r.createdAt <= r.deadlineAt
    && (r.state in {Leased, Running, Publishing} <==> r.lease.Some?)
    && (r.lease.Some? ==> r.lease.value.expiresAt <= r.deadlineAt && r.lease.value.generation == r.attempt)
    && (r.cancellationRequested ==> r.state == Cancelled)
    && (r.state == Failed ==> r.failureCode.Some?) && (r.state in {Complete, Cancelled} ==> r.failureCode.None?)
  }

  /** Every row reachable from an empty database decodes, passes its record check and accounts for its
      attempts; a queued row always has an attempt left, so a claim never answers `Conflict`. */
  lemma ReachableRecordsValid(cfg: Config, actions: seq<Action>, job: JobRef)
    requires job.Key() in Exec(cfg, EMPTY, actions).control.jobs
    requires Exec(cfg, EMPTY, actions).control.jobs[job.Key()].kind == job.kind
    ensures var jobs := Exec(cfg, EMPTY, actions).control.jobs;
            var row := jobs[job.Key()];
            && LoadRecord(jobs, job).Ok? && LoadRecord(jobs, job).value == Some(RecordOf(job.Key(), row))
            && RecordOf(job.Key(), row).Valid()
            && Sound(RecordOf(job.Key(), row), job)
            && (row.cancellationRequested <==> row.state == Cancelled)
            && row.attempt == Max(1, row.generation) <= row.maxAttempts
            && (row.state == Queued ==> NextAttempt(row) == row.generation + 1 <= row.maxAttempts)
  {
    ReachableInv(cfg, actions);
    RowLoads(Exec(cfg, EMPTY, actions).control.jobs, job);
  }

  /** The only claim a coordinator refuses is a malformed one: the `Conflict` and `Serialization` branches
      are dead in every reachable state. */
  lemma ClaimNeverConflicts(cfg: Config, actions: seq<Action>, limits: CoordinatorLimits, req: ClaimRequest, now: int)
    ensures var reply := Claim(Exec(cfg, EMPTY, actions).control, limits, req, now).reply;
            reply.Err? <==> req.protocolVersion != CONTROL_PROTOCOL_VERSION || After(now, limits.leaseTtl).None?
  {
    ReachableInv(cfg, actions);
    ClaimAnswers(Exec(cfg, EMPTY, actions).control, limits, req, now);
  }

  lemma ClaimAnswers(db: Control, limits: CoordinatorLimits, req: ClaimRequest, now: int)
    requires JobsOk(db.jobs)
    ensures Claim(db, limits, req, now).reply.Err? <==>
        req.protocolVersion != CONTROL_PROTOCOL_VERSION || After(now, limits.leaseTtl).None?
  {
    if req.protocolVersion == CONTROL_PROTOCOL_VERSION && After(now, limits.leaseTtl).Some? {
      var next := NextQueued(Reclaimed(db.jobs, req.project, now), req.project, req.kind);
      if next.Some? { ClaimGrants(db, limits, req, now, next.value); }
    }
  }

  /** Submitting the same specification again, after any run, inserts nothing and finds the one job: the
      same identity, budget, creation time and deadline, in whatever state it has reached. */
  lemma SubmitFindsTheJob(cfg: Config, w: World, actions: seq<Action>, limits: CoordinatorLimits, req: SubmitRequest,
                          now: int)
    requires Inv(cfg, w) && req.Valid() && After(now, limits.maxDuration).Some?
    requires var k := JobKey(req.project, req.spec.idempotencyKey);
             k in w.control.jobs && w.control.jobs[k].spec == req.spec
    ensures var db, k := Exec(cfg, w, actions).control, JobKey(req.project, req.spec.idempotencyKey);
            && k in db.jobs && Evolves(w.control.jobs[k], db.jobs[k])
            && Submit(db, limits, req, now) ==
               Step(db, if req.project in db.tombstones then Err(ProjectDeleted) else Ok(RecordOf(k, db.jobs[k])))
  {
    ExecKeeps(cfg, w, actions);
    ResubmitFinds(Exec(cfg, w, actions).control, limits, req, now);
  }

  lemma ResubmitFinds(db: Control, limits: CoordinatorLimits, req: SubmitRequest, now: int)
    requires JobsOk(db.jobs) && req.Valid() && After(now, limits.maxDuration).Some?
    requires var k := JobKey(req.project, req.spec.idempotencyKey); k in db.jobs && db.jobs[k].spec == req.spec
    ensures Submit(db, limits, req, now) ==
            Step(db, if req.project in db.tombstones then Err(ProjectDeleted)
                     else Ok(RecordOf(JobKey(req.project, req.spec.idempotencyKey),
                                      db.jobs[JobKey(req.project, req.spec.idempotencyKey)])))
  {
    RowLoads(db.jobs, JobRef(req.project, req.spec.idempotencyKey, req.spec.kind));
  }

  /** A terminal row is never written again. */
  lemma TerminalForever(cfg: Config, w: World, actions: seq<Action>, k: JobKey)
    requires Inv(cfg, w) && k in w.control.jobs && w.control.jobs[k].state.IsTerminal()
    ensures k in Exec(cfg, w, actions).control.jobs && Exec(cfg, w, actions).control.jobs[k] == w.control.jobs[k]
  {
    ExecKeeps(cfg, w, actions);
  }
}
