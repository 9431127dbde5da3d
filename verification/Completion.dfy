/** When requests succeed, and that a claimed job can always be driven to completion. */
module Completion {
  import opened Prelude
  import opened Protocol
  import opened Coordinator
  import opened JobInvariant
  import opened Publication
  import opened PublicationInvariant
  import opened DataPlane
  import opened Receipts
  import opened ClaimOrder
  import Lifecycle
  import opened Tables

  // ---------------------------------------------------------------- exactly when

  /** The request names the job's current lease, and it is live. */
  predicate Holds(jobs: Jobs, req: LeaseRequest, now: int)
  {
    var k := req.job.Key();
    && k in jobs && jobs[k].kind == req.job.kind && jobs[k].state.HoldsLease()
    && jobs[k].worker == Some(req.worker) && jobs[k].generation == req.generation
    && jobs[k].leaseUntil.Some? && now < jobs[k].leaseUntil.value
  }

  /** The record says what the row says: no field is invented, dropped or moved. */
  predicate Shows(r: JobRecord, k: JobKey, row: JobRow)
  {
    && r.job.project == k.project && r.job.jobId == k.jobId && r.job.kind == row.kind && r.spec == row.spec
    && r.state == row.state && r.attempt == row.attempt && r.maxAttempts == row.maxAttempts
    && r.cancellationRequested == row.cancellationRequested && r.failureCode == row.failureCode
    && r.createdAt == row.createdAt && r.updatedAt == row.updatedAt && r.deadlineAt == row.deadlineAt
    && (r.lease.Some? <==> row.worker.Some?) && (r.lease.Some? <==> row.leaseUntil.Some?)
    && (r.lease.Some? ==> r.lease.value == Lease(row.worker.value, row.generation, row.leaseUntil.value))
  }

  lemma RecordShows(k: JobKey, row: JobRow)
    requires RowOk(k, row)
    ensures Shows(RecordOf(k, row), k, row)
  {
  }

  lemma HolderMoves(db: Control, phase: Phase, req: LeaseRequest, now: int)
    requires ControlOk(db) && Holds(db.jobs, req, now) && db.jobs[req.job.Key()].state == phase.Expected()
    requires req.protocolVersion == CONTROL_PROTOCOL_VERSION && req.generation <= I64_MAX
    requires AdvanceKey(req.job.Key(), phase.Expected(), phase.Next(), req.worker, req.generation) !in db.advances
    ensures var step, k := AdvancePhase(db, phase, req, now), req.job.Key();
            var a := AdvanceKey(k, phase.Expected(), phase.Next(), req.worker, req.generation);
            var row := db.jobs[k].(state := phase.Next(), updatedAt := now,
                                   worker := if phase.Finish? then None else Some(req.worker),
                                   leaseUntil := if phase.Finish? then None else db.jobs[k].leaseUntil);
            && step.reply.Ok? && Shows(step.reply.value, k, row)
            && step.db == db.(jobs := db.jobs[k := row], advances := db.advances[a := step.reply.value])
  {
    Authorized(db.jobs, req, now);
    var k := req.job.Key();
    MovedKeeps(k, db.jobs[k], phase, now);
    CommitCommits(db, req.job, Moved(db.jobs[k], phase.Next(), phase.Finish?, now));
  }

  lemma ReceiptAnswers(db: Control, phase: Phase, req: LeaseRequest, now: int)
    requires ControlOk(db) && req.protocolVersion == CONTROL_PROTOCOL_VERSION && req.generation <= I64_MAX
    requires AdvanceKey(req.job.Key(), phase.Expected(), phase.Next(), req.worker, req.generation) in db.advances
    ensures var a := AdvanceKey(req.job.Key(), phase.Expected(), phase.Next(), req.worker, req.generation);
            AdvancePhase(db, phase, req, now) ==
            Step(db, if db.advances[a].job == req.job then Ok(db.advances[a]) else Err(Serialization))
  {
  }

  lemma OthersAreRefused(db: Control, phase: Phase, req: LeaseRequest, now: int)
    requires ControlOk(db) && !(Holds(db.jobs, req, now) && db.jobs[req.job.Key()].state == phase.Expected())
    requires AdvanceKey(req.job.Key(), phase.Expected(), phase.Next(), req.worker, req.generation) !in db.advances
    ensures AdvancePhase(db, phase, req, now).reply.Err?
  {
    Authorized(db.jobs, req, now);
  }

  lemma AdvanceAnswers(db: Control, phase: Phase, req: LeaseRequest, now: int)
    requires ControlOk(db)
    ensures var step, k := AdvancePhase(db, phase, req, now), req.job.Key();
            var a := AdvanceKey(k, phase.Expected(), phase.Next(), req.worker, req.generation);
            var done := a in db.advances && db.advances[a].job == req.job;
            && (step.reply.Ok? <==>
                  && req.protocolVersion == CONTROL_PROTOCOL_VERSION && req.generation <= I64_MAX
                  && (done || (a !in db.advances && Holds(db.jobs, req, now) && db.jobs[k].state == phase.Expected())))
            && (step.reply.Ok? && done ==> step == Step(db, Ok(db.advances[a])))
  {
    if req.protocolVersion == CONTROL_PROTOCOL_VERSION && req.generation <= I64_MAX {
      if AdvanceKey(req.job.Key(), phase.Expected(), phase.Next(), req.worker, req.generation) in db.advances {
        ReceiptAnswers(db, phase, req, now);
      } else if Holds(db.jobs, req, now) && db.jobs[req.job.Key()].state == phase.Expected() {
        HolderMoves(db, phase, req, now);
      } else {
        OthersAreRefused(db, phase, req, now);
      }
    }
  }

  /** A forward transition succeeds exactly when it was done before or the caller holds the lease of a job
      in the expected state; doing it writes the moved row and its receipt. */
  lemma AdvanceSucceedsIff(db: Control, phase: Phase, req: LeaseRequest, now: int)
    requires ControlOk(db)
    ensures var step, k := AdvancePhase(db, phase, req, now), req.job.Key();
            var a := AdvanceKey(k, phase.Expected(), phase.Next(), req.worker, req.generation);
            var done := a in db.advances && db.advances[a].job == req.job;
            && (step.reply.Ok? <==>
                  && req.protocolVersion == CONTROL_PROTOCOL_VERSION && req.generation <= I64_MAX
                  && (done || (a !in db.advances && Holds(db.jobs, req, now) && db.jobs[k].state == phase.Expected())))
            && (step.reply.Ok? && !done ==>
                  var row := db.jobs[k].(state := phase.Next(), updatedAt := now,
                                         worker := if phase.Finish? then None else Some(req.worker),
                                         leaseUntil := if phase.Finish? then None else db.jobs[k].leaseUntil);
                  && step.db == db.(jobs := db.jobs[k := row], advances := db.advances[a := step.reply.value])
                  && Shows(step.reply.value, k, row))
            && (step.reply.Ok? && done ==> step == Step(db, Ok(db.advances[a])))
  {
    AdvanceAnswers(db, phase, req, now);
    var a := AdvanceKey(req.job.Key(), phase.Expected(), phase.Next(), req.worker, req.generation);
    if AdvancePhase(db, phase, req, now).reply.Ok? && a !in db.advances { HolderMoves(db, phase, req, now); }
  }

  lemma HolderRenews(db: Control, limits: CoordinatorLimits, req: LeaseRequest, now: int)
    requires ControlOk(db) && Holds(db.jobs, req, now) && After(now, limits.leaseTtl).Some?
    requires req.protocolVersion == CONTROL_PROTOCOL_VERSION
    ensures var step, k := Heartbeat(db, limits, req, now), req.job.Key();
            var row := db.jobs[k].(leaseUntil := Some(Min(now + limits.leaseTtl, db.jobs[k].deadlineAt)),
                                   updatedAt := now);
            && step.reply.Ok? && Shows(step.reply.value, k, row) && step.db == db.(jobs := db.jobs[k := row])
            && Holds(step.db.jobs, req, now)
  {
    Authorized(db.jobs, req, now);
    var k := req.job.Key();
    RenewedKeeps(k, db.jobs[k], now + limits.leaseTtl, now);
    CommitCommits(db, req.job, Renewed(db.jobs[k], now + limits.leaseTtl, now));
  }

  /** A heartbeat succeeds exactly for the lease holder, and moves only the expiry, never past the deadline. */
  lemma HeartbeatSucceedsIff(db: Control, limits: CoordinatorLimits, req: LeaseRequest, now: int)
    requires ControlOk(db)
    ensures var step, k := Heartbeat(db, limits, req, now), req.job.Key();
            && (step.reply.Ok? <==>
                  req.protocolVersion == CONTROL_PROTOCOL_VERSION && After(now, limits.leaseTtl).Some?
                      && Holds(db.jobs, req, now))
            && (step.reply.Ok? ==>
                  && k in step.db.jobs && Holds(step.db.jobs, req, now)
                  && step.db == db.(jobs := db.jobs[k := step.db.jobs[k]])
                      && Shows(step.reply.value, k, step.db.jobs[k])
                  && step.db.jobs[k] == db.jobs[k].(leaseUntil := step.db.jobs[k].leaseUntil, updatedAt := now)
                  && step.db.jobs[k].leaseUntil == Some(Min(now + limits.leaseTtl, db.jobs[k].deadlineAt)))
  {
    Authorized(db.jobs, req, now);
    var k := req.job.Key();
    if req.protocolVersion == CONTROL_PROTOCOL_VERSION && After(now, limits.leaseTtl).Some? {
      if Holds(db.jobs, req, now) { HolderRenews(db, limits, req, now); }
    }
  }

  /** A failure report succeeds exactly when it was made before or comes from the lease holder. */
  lemma FailSucceedsIff(db: Control, req: FailRequest, now: int)
    requires ControlOk(db)
    ensures var step, k := Fail(db, req, now), req.lease.job.Key();
            var f := FailureKey(k, req.lease.worker, req.lease.generation, req.failureCode, req.retryable);
            var done := f in db.failures && db.failures[f].job == req.lease.job;
            && (step.reply.Ok? <==>
                  && req.lease.protocolVersion == CONTROL_PROTOCOL_VERSION && req.lease.generation <= I64_MAX
                  && (done || (f !in db.failures && Holds(db.jobs, req.lease, now))))
            && (step.reply.Ok? && !done ==>
                  var retried := req.retryable && db.jobs[k].attempt < db.jobs[k].maxAttempts
                                 && db.jobs[k].state != Publishing;
                  var row := db.jobs[k].(state := if retried then Queued else Failed, worker := None,
                                         leaseUntil := None, failureCode := Some(req.failureCode), updatedAt := now);
                  && step.db == db.(jobs := db.jobs[k := row], failures := db.failures[f := step.reply.value])
                  && Shows(step.reply.value, k, row))
            && (step.reply.Ok? && done ==> step == Step(db, Ok(db.failures[f])))
  {
    Authorized(db.jobs, req.lease, now);
    var k := req.lease.job.Key();
    if Holds(db.jobs, req.lease, now) {
      FailedRowKeeps(k, db.jobs[k], req, now);
      CommitCommits(db, req.lease.job, FailedRow(db.jobs[k], req, now));
    }
  }

  /** A cancel succeeds exactly when the job exists and is cancelled already or in the state the caller
      expects; a live job ends cancelled, without lease or failure code. */
  lemma CancelSucceedsIff(db: Control, req: CancelRequest, now: int)
    requires ControlOk(db)
    ensures var step, k := Cancel(db, req, now), req.job.Key();
            && (step.reply.Ok? <==>
                  && req.protocolVersion == CONTROL_PROTOCOL_VERSION && k in db.jobs && db.jobs[k].kind == req.job.kind
                  && (db.jobs[k].state == Cancelled || req.expectedState.None?
                      || req.expectedState.value == db.jobs[k].state))
            && (step.reply.Ok? ==>
                  var row := if db.jobs[k].state in {Complete, Failed, Cancelled} then db.jobs[k]
                             else db.jobs[k].(state := Cancelled, cancellationRequested := true, worker := None,
                                              leaseUntil := None, failureCode := None, updatedAt := now);
                  step.db == db.(jobs := db.jobs[k := row]) && Shows(step.reply.value, k, row))
  {
    var k := req.job.Key();
    if k in db.jobs {
      RowLoads(db.jobs, req.job);
      if db.jobs[k].kind == req.job.kind && !db.jobs[k].state.IsTerminal() {
        CancelledRowKeeps(k, db.jobs[k], now);
        CommitCommits(db, req.job, CancelledRow(db.jobs[k], now));
      }
    }
  }

  /** A submission succeeds exactly when it is well formed, its project lives, and no different
      specification took its key. A free key gets the submitted specification, queued with a full budget, and
      nothing else changes; a taken one is answered with its record. */
  lemma SubmitSucceedsIff(db: Control, limits: CoordinatorLimits, req: SubmitRequest, now: int)
    requires ControlOk(db)
    ensures var step, k := Submit(db, limits, req, now), JobKey(req.project, req.spec.idempotencyKey);
            && (step.reply.Ok? <==>
                  && req.Valid() && After(now, limits.maxDuration).Some? && req.project !in db.tombstones
                  && (k in db.jobs ==> db.jobs[k].spec == req.spec))
            && (step.reply.Ok? ==> step.reply.value.spec == req.spec)
            && (step.reply.Ok? && k in db.jobs ==> step.db == db && Shows(step.reply.value, k, db.jobs[k]))
            && (step.reply.Ok? && k !in db.jobs ==>
                  var row := JobRow(req.spec.kind, req.spec, Queued, 1, limits.maxAttempts, None, 0, None, false, None,
                                    now, now, now + limits.maxDuration);
                  step.db == db.(jobs := db.jobs[k := row]) && Shows(step.reply.value, k, row))
  {
    SubmitEffect(db, limits, req, now);
    var job := JobRef(req.project, req.spec.idempotencyKey, req.spec.kind);
    if job.Key() in db.jobs {
      RowLoads(db.jobs, job);
    } else if req.Valid() && After(now, limits.maxDuration).Some? {
      NewRowOk(req.spec, limits.maxAttempts, now, now + limits.maxDuration);
      CommitCommits(db, job, NewRow(req.spec, limits.maxAttempts, now, now + limits.maxDuration));
    }
  }

  /** A submission that succeeded can be sent again, under any request id, at any later time and to an
      instance with other limits: it inserts nothing and finds the job it created or found the first time. */
  lemma ResubmissionFindsTheJob(cfg: Config, w: World, limits: CoordinatorLimits, req: SubmitRequest, now: int,
                                actions: seq<Action>, again: SubmitRequest, others: CoordinatorLimits, later: int)
    requires Inv(cfg, w) && Submit(w.control, limits, req, now).reply.Ok?
    requires again == req.(requestId := again.requestId) && After(later, others.maxDuration).Some?
    ensures var first := Submit(w.control, limits, req, now).reply.value;
            var db := Exec(cfg, Apply(cfg, w, DoSubmit(limits, req, now)), actions).control;
            var second := Submit(db, others, again, later);
            && second.db == db
            && (req.project in db.tombstones ==> second.reply == Err(ProjectDeleted))
            && (req.project !in db.tombstones ==>
                  && second.reply.Ok? && second.reply.value.job == first.job && second.reply.value.spec == req.spec
                  && second.reply.value.createdAt == first.createdAt
                  && second.reply.value.deadlineAt == first.deadlineAt
                  && second.reply.value.maxAttempts == first.maxAttempts)
  {
    var a, k := DoSubmit(limits, req, now), JobKey(req.project, req.spec.idempotencyKey);
    SubmittedJob(cfg, w, limits, req, now);
    ApplyKeeps(cfg, w, a);
    var next := Apply(cfg, w, a);
    Lifecycle.SubmitFindsTheJob(cfg, next, actions, others, again, later);
    ExecKeeps(cfg, next, actions);
    SameJob(k, next.control.jobs[k], Exec(cfg, next, actions).control.jobs[k],
            Submit(w.control, limits, req, now).reply.value);
  }

  lemma SubmittedJob(cfg: Config, w: World, limits: CoordinatorLimits, req: SubmitRequest, now: int)
    requires Inv(cfg, w) && Submit(w.control, limits, req, now).reply.Ok?
    ensures var jobs, k := Apply(cfg, w, DoSubmit(limits, req, now)).control.jobs,
                           JobKey(req.project, req.spec.idempotencyKey);
            req.Valid() && k in jobs && jobs[k].spec == req.spec
            && Shows(Submit(w.control, limits, req, now).reply.value, k, jobs[k])
  {
    SubmitSucceedsIff(w.control, limits, req, now);
  }

  /** What a record keeps for as long as its job lives. */
  lemma SameJob(k: JobKey, before: JobRow, after: JobRow, first: JobRecord)
    requires RowOk(k, after) && Evolves(before, after) && Shows(first, k, before)
    ensures var second := RecordOf(k, after);
            && second.job == first.job && second.spec == before.spec && second.createdAt == first.createdAt
            && second.deadlineAt == first.deadlineAt && second.maxAttempts == first.maxAttempts
  {
    RecordShows(k, after);
  }

  /** A claim sweeps its project, and grants at most one of the jobs left queued: the next generation, for the
      claimant, until the earlier of its term and the job's deadline. */
  lemma ClaimLeases(db: Control, limits: CoordinatorLimits, req: ClaimRequest, now: int)
    requires ControlOk(db) && req.protocolVersion == CONTROL_PROTOCOL_VERSION && After(now, limits.leaseTtl).Some?
    ensures var step, swept := Claim(db, limits, req, now), Reclaimed(db.jobs, req.project, now);
            && step.reply.Ok?
            && (step.reply.value.None? ==> step.db == db.(jobs := swept))
            && (step.reply.value.Some? ==>
                  var record := step.reply.value.value;
                  var k := record.job.Key();
                  && k in swept && swept[k].state == Queued && k.project == req.project && swept[k].kind == req.kind
                  && var row := swept[k].(state := Leased, worker := Some(req.worker),
                                          generation := swept[k].generation + 1, attempt := swept[k].generation + 1,
                                          leaseUntil := Some(Min(now + limits.leaseTtl, swept[k].deadlineAt)),
                                          updatedAt := now, failureCode := None);
                     step.db == db.(jobs := swept[k := row]) && Shows(record, k, row))
  {
    var next := NextQueued(Reclaimed(db.jobs, req.project, now), req.project, req.kind);
    if next.Some? { ClaimGrants(db, limits, req, now, next.value); }
  }

  // ---------------------------------------------------------------- driving a job

  /** The job is where the holder left it, and the lease is still live. */
  predicate InPlace(w: World, req: LeaseRequest, state: JobState, now: int)
  {
    Holds(w.control.jobs, req, now) && w.control.jobs[req.job.Key()].state == state
  }

  /** A holder whose lease is in place is never answered from an old receipt: its next phase goes through,
      and the lease stays unless the phase was the last. */
  lemma HolderAdvances(cfg: Config, w: World, phase: Phase, req: LeaseRequest, now: int)
    requires Settled(cfg, w) && req.protocolVersion == CONTROL_PROTOCOL_VERSION
        && InPlace(w, req, phase.Expected(), now)
    ensures var next, k := Apply(cfg, w, DoLease(Advancing(phase), req, now)), req.job.Key();
            && AdvancePhase(w.control, phase, req, now).reply.Ok? && Settled(cfg, next)
            && k in next.control.jobs && next.control.jobs[k].state == phase.Next()
            && (phase != Finish ==> InPlace(next, req, phase.Next(), now))
  {
    var k, a := req.job.Key(), AdvanceKeyOf(req, phase.Expected(), phase.Next());
    Unshadowed(w.control, a);
    AdvanceSucceedsIff(w.control, phase, req, now);
    StepSettled(cfg, w, DoLease(Advancing(phase), req, now));
  }

  lemma Unshadowed(db: Control, a: AdvanceKey)
    requires ReceiptsSpent(db) && a.job in db.jobs && a.generation == db.jobs[a.job].generation
    requires db.jobs[a.job].state == a.expected
    ensures a !in db.advances
  {
  }

  /** The requests the claimant makes under its lease. */
  function HolderOf(k: JobKey, req: ClaimRequest, g: nat): LeaseRequest
  {
    LeaseRequest(CONTROL_PROTOCOL_VERSION, "", JobRef(k.project, k.jobId, req.kind), req.worker, g)
  }

  lemma GrantIsInPlace(cfg: Config, w: World, limits: CoordinatorLimits, req: ClaimRequest, now: int, k: JobKey)
    requires Settled(cfg, w) && req.protocolVersion == CONTROL_PROTOCOL_VERSION && After(now, limits.leaseTtl).Some?
    requires IsNext(Reclaimed(w.control.jobs, req.project, now), req.project, req.kind, k)
    ensures var granted := Apply(cfg, w, DoClaim(limits, req, now));
            && Settled(cfg, granted) && k in granted.control.jobs
            && InPlace(granted, HolderOf(k, req, granted.control.jobs[k].generation), Leased, now)
  {
    NextIsUnique(Reclaimed(w.control.jobs, req.project, now), req.project, req.kind, k);
    ClaimGrants(w.control, limits, req, now, k);
    StepSettled(cfg, w, DoClaim(limits, req, now));
  }

  /** The world after some traffic and then one phase of the holder. */
  ghost function Advanced(cfg: Config, w: World, between: seq<Action>, phase: Phase, req: LeaseRequest, now: int): World
  {
    Apply(cfg, Exec(cfg, w, between), DoLease(Advancing(phase), req, now))
  }

  lemma AdvancedSettled(cfg: Config, w: World, between: seq<Action>, phase: Phase, req: LeaseRequest, now: int)
    requires Settled(cfg, w) && req.protocolVersion == CONTROL_PROTOCOL_VERSION
    requires InPlace(Exec(cfg, w, between), req, phase.Expected(), now)
    ensures var k, next := req.job.Key(), Advanced(cfg, w, between, phase, req, now);
            && AdvancePhase(Exec(cfg, w, between).control, phase, req, now).reply.Ok? && Settled(cfg, next)
            && k in next.control.jobs && next.control.jobs[k].state == phase.Next()
            && (phase != Finish ==> InPlace(next, req, phase.Next(), now))
  {
    RunSettled(cfg, w, between);
    HolderAdvances(cfg, Exec(cfg, w, between), phase, req, now);
  }

  /** Whatever happened to a job before, the claim that takes it can start it, begin its publication and
      complete it, at any later times and with any traffic in between that leaves its lease in place: no old
      receipt, lease or deadline stands in the way. */
  lemma ClaimedJobCanComplete(cfg: Config, before: seq<Action>, limits: CoordinatorLimits, req: ClaimRequest, now: int,
                              k: JobKey, holder: LeaseRequest, b1: seq<Action>, t1: int, b2: seq<Action>, t2: int,
                              b3: seq<Action>, t3: int)
    requires req.protocolVersion == CONTROL_PROTOCOL_VERSION && After(now, limits.leaseTtl).Some?
    requires IsNext(Reclaimed(Exec(cfg, EMPTY, before).control.jobs, req.project, now), req.project, req.kind, k)
    requires var granted := Apply(cfg, Exec(cfg, EMPTY, before), DoClaim(limits, req, now));
             && holder.protocolVersion == CONTROL_PROTOCOL_VERSION && holder.job.Key() == k
             && InPlace(Exec(cfg, granted, b1), holder, Leased, t1)
             && var started := Advanced(cfg, granted, b1, Start, holder, t1);
                && InPlace(Exec(cfg, started, b2), holder, Running, t2)
                && var begun := Advanced(cfg, started, b2, BeginPublication, holder, t2);
                   InPlace(Exec(cfg, begun, b3), holder, Publishing, t3)
    ensures var granted := Apply(cfg, Exec(cfg, EMPTY, before), DoClaim(limits, req, now));
            && k in granted.control.jobs
            && InPlace(granted, HolderOf(k, req, granted.control.jobs[k].generation), Leased, now)
            && var started := Advanced(cfg, granted, b1, Start, holder, t1);
               var begun := Advanced(cfg, started, b2, BeginPublication, holder, t2);
               var done := Advanced(cfg, begun, b3, Finish, holder, t3);
               && InPlace(started, holder, Running, t1) && InPlace(begun, holder, Publishing, t2)
               && k in done.control.jobs && done.control.jobs[k].state == Complete
  {
    var w := Exec(cfg, EMPTY, before);
    ReachableReceiptsSpent(cfg, before);
    GrantIsInPlace(cfg, w, limits, req, now, k);
    var granted := Apply(cfg, w, DoClaim(limits, req, now));
    AdvancedSettled(cfg, granted, b1, Start, holder, t1);
    var started := Advanced(cfg, granted, b1, Start, holder, t1);
    AdvancedSettled(cfg, started, b2, BeginPublication, holder, t2);
    var begun := Advanced(cfg, started, b2, BeginPublication, holder, t2);
    AdvancedSettled(cfg, begun, b3, Finish, holder, t3);
  }

  /** With nothing in between, the lease is in place throughout: a claim can be followed through at once. */
  lemma ClaimedJobCompletesAtOnce(cfg: Config, before: seq<Action>, limits: CoordinatorLimits, req: ClaimRequest,
                                  now: int, k: JobKey)
    requires req.protocolVersion == CONTROL_PROTOCOL_VERSION && After(now, limits.leaseTtl).Some?
    requires IsNext(Reclaimed(Exec(cfg, EMPTY, before).control.jobs, req.project, now), req.project, req.kind, k)
    ensures var granted := Apply(cfg, Exec(cfg, EMPTY, before), DoClaim(limits, req, now));
            && k in granted.control.jobs
            && var holder := HolderOf(k, req, granted.control.jobs[k].generation);
               var started := Advanced(cfg, granted, [], Start, holder, now);
               var begun := Advanced(cfg, started, [], BeginPublication, holder, now);
               var done := Advanced(cfg, begun, [], Finish, holder, now);
               k in done.control.jobs && done.control.jobs[k].state == Complete
  {
    var w := Exec(cfg, EMPTY, before);
    ReachableReceiptsSpent(cfg, before);
    GrantIsInPlace(cfg, w, limits, req, now, k);
    var granted := Apply(cfg, w, DoClaim(limits, req, now));
    var holder := HolderOf(k, req, granted.control.jobs[k].generation);
    AdvancedSettled(cfg, granted, [], Start, holder, now);
    var started := Advanced(cfg, granted, [], Start, holder, now);
    AdvancedSettled(cfg, started, [], BeginPublication, holder, now);
    AdvancedSettled(cfg, Advanced(cfg, started, [], BeginPublication, holder, now), [], Finish, holder, now);
  }

  // ---------------------------------------------------------------- publishing it

  /** The project has room for one more revision. */
  ghost predicate RoomFor(pubs: Publications, limits: StoreLimits, project: Project, facts: seq<Fact>)
  {
    && Sum(pubs.revisions, SnapshotWeight(project)) + 1 <= limits.maxSnapshots
    && Sum(pubs.revisions, FactWeight(project)) + |facts| <= limits.maxFacts
    && Sum(pubs.revisions, ByteWeight(project)) + CipherBytes(facts) <= limits.maxBytes
  }

  /** A lease holder that publishes a new graph snapshot against the current version wins: the view moves
      to it, published reads find it, and the job is complete. */
  lemma FreshGraphWins(db: Control, pubs: Publications, limits: StoreLimits, req: PublishRequest, p: Prepared, now: int)
    requires PubsOk(db.jobs, pubs, limits) && req.PublishGraph? && req.Valid() && Authority(db, req, now).Ok?
    requires InputMatches(Authority(db, req, now).value, req, p) && Fits(p, limits)
    requires req.TargetOf() !in pubs.revisions && RoomFor(pubs, limits, req.project, p.facts)
    requires var current := CurrentView(pubs, req.ViewOf());
             req.expected == VersionOf(current) && (current.Some? ==> current.value.generation < I64_MAX)
    ensures var reply, current := TryPublish(db, pubs, limits, req, Ok(p), now), CurrentView(pubs, req.ViewOf());
            var generation := (if current.Some? then current.value.generation else 0) + 1;
            && reply.Ok?
            && reply.value.outcome == Published(View(req.targetId, req.job.jobId, generation), false)
            && CurrentView(reply.value.pubs, req.ViewOf()) == Some(reply.value.outcome.view)
            && ReadPublished(reply.value.pubs, req.TargetOf()).Some?
            && req.job.Key() in reply.value.control.jobs && reply.value.control.jobs[req.job.Key()].state == Complete
  {
    assert Replay(db, pubs, req) == Ok(None);
    FreshIngests(pubs, limits, req, p, now);
    PublishEffect(db, pubs, limits, req, Ok(p), now);
    FreshViewMoves(pubs, req);
  }

  lemma FreshIngests(pubs: Publications, limits: StoreLimits, req: PublishRequest, p: Prepared, now: int)
    requires req.TargetOf() !in pubs.revisions && RoomFor(pubs, limits, req.project, p.facts) && p.links.None?
    requires var current := CurrentView(pubs, req.ViewOf()); current.Some? ==> current.value.generation < I64_MAX
    ensures Ingest(pubs, limits, req, p, now).Ok?
  {
  }

  /** A view never names a target that is not stored, so a new target always moves it. */
  lemma FreshViewMoves(pubs: Publications, req: PublishRequest)
    requires ViewsOk(pubs) && req.TargetOf() !in pubs.revisions
    ensures var current := CurrentView(pubs, req.ViewOf()); current.Some? ==> current.value.targetId != req.targetId
  {
    if req.ViewOf() in pubs.views {
      assert ViewTarget(req.ViewOf(), pubs.views[req.ViewOf()]) in pubs.published;
    }
  }
}
