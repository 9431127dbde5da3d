/** Why a coordinator request is refused: the cause of every error, and that no other error occurs. */
module Refusals {
  import opened Prelude
  import opened Protocol
  import opened Coordinator
  import opened JobInvariant
  import opened Completion

  /** The job exists and is of the kind the request names. */
  predicate Known(jobs: Jobs, job: JobRef) { job.Key() in jobs && jobs[job.Key()].kind == job.kind }

  lemma AuthorizeRefuses(db: Control, req: LeaseRequest, now: int)
    requires ControlOk(db)
    ensures var reply := Authorize(db.jobs, req, now);
            && (reply.Ok? <==> Holds(db.jobs, req, now))
            && (reply == Err(NotFound) <==> !Known(db.jobs, req.job))
            && (reply == Err(LeaseLost) <==> Known(db.jobs, req.job) && !Holds(db.jobs, req, now))
            && (reply.Ok? ==> reply.value.state == db.jobs[req.job.Key()].state)
  {
    Authorized(db.jobs, req, now);
    if req.job.Key() in db.jobs { RowLoads(db.jobs, req.job); }
  }

  /** A forward transition fails for one of these causes: another protocol version; a generation beyond the
      column, or a receipt of another kind of job; no such job; no live lease of the sender, which includes a
      cancelled job; a job in another phase. */
  lemma AdvanceRefuses(db: Control, phase: Phase, req: LeaseRequest, now: int)
    requires ControlOk(db)
    ensures var reply, k := AdvancePhase(db, phase, req, now).reply, req.job.Key();
            var a := AdvanceKey(k, phase.Expected(), phase.Next(), req.worker, req.generation);
            var first := req.protocolVersion == 3 && req.generation <= I64_MAX && a !in db.advances;
            && (reply == Err(InvalidRequest) <==> req.protocolVersion != 3)
            && (reply == Err(Serialization) <==>
                  && req.protocolVersion == 3
                  && (req.generation > I64_MAX || (a in db.advances && db.advances[a].job != req.job)))
            && (reply == Err(NotFound) <==> first && !Known(db.jobs, req.job))
            && (reply == Err(LeaseLost) <==> first && Known(db.jobs, req.job) && !Holds(db.jobs, req, now))
            && (reply == Err(Conflict) <==> first && Holds(db.jobs, req, now) && db.jobs[k].state != phase.Expected())
            && reply != Err(JobCancelled) && reply != Err(ProjectDeleted)
  {
    AuthorizeRefuses(db, req, now);
    AdvanceSucceedsIff(db, phase, req, now);
  }

  /** A heartbeat. */
  lemma HeartbeatRefuses(db: Control, limits: CoordinatorLimits, req: LeaseRequest, now: int)
    requires ControlOk(db)
    ensures var reply := Heartbeat(db, limits, req, now).reply;
            var formed := req.protocolVersion == 3 && After(now, limits.leaseTtl).Some?;
            && (reply == Err(InvalidRequest) <==> !formed)
            && (reply == Err(NotFound) <==> formed && !Known(db.jobs, req.job))
            && (reply == Err(LeaseLost) <==> formed && Known(db.jobs, req.job) && !Holds(db.jobs, req, now))
            && (reply.Err? ==> reply.error in {InvalidRequest, NotFound, LeaseLost})
  {
    AuthorizeRefuses(db, req, now);
    HeartbeatSucceedsIff(db, limits, req, now);
  }

  /** A failure report. */
  lemma FailRefuses(db: Control, req: FailRequest, now: int)
    requires ControlOk(db)
    ensures var reply, k := Fail(db, req, now).reply, req.lease.job.Key();
            var f := FailureKey(k, req.lease.worker, req.lease.generation, req.failureCode, req.retryable);
            var first := req.lease.protocolVersion == 3 && req.lease.generation <= I64_MAX && f !in db.failures;
            && (reply == Err(InvalidRequest) <==> req.lease.protocolVersion != 3)
            && (reply == Err(Serialization) <==>
                  && req.lease.protocolVersion == 3
                  && (req.lease.generation > I64_MAX || (f in db.failures && db.failures[f].job != req.lease.job)))
            && (reply == Err(NotFound) <==> first && !Known(db.jobs, req.lease.job))
            && (reply == Err(LeaseLost) <==>
                first && Known(db.jobs, req.lease.job) && !Holds(db.jobs, req.lease, now))
            && (reply.Err? ==> reply.error in {InvalidRequest, Serialization, NotFound, LeaseLost})
  {
    AuthorizeRefuses(db, req.lease, now);
    FailSucceedsIff(db, req, now);
  }

  /** A cancel. */
  lemma CancelRefuses(db: Control, req: CancelRequest, now: int)
    requires ControlOk(db)
    ensures var reply, k := Cancel(db, req, now).reply, req.job.Key();
            && (reply == Err(InvalidRequest) <==> req.protocolVersion != 3)
            && (reply == Err(NotFound) <==> req.protocolVersion == 3 && !Known(db.jobs, req.job))
            && (reply == Err(Conflict) <==>
                  && req.protocolVersion == 3 && Known(db.jobs, req.job) && db.jobs[k].state != Cancelled
                  && req.expectedState.Some? && req.expectedState.value != db.jobs[k].state)
            && (reply.Err? ==> reply.error in {InvalidRequest, NotFound, Conflict})
  {
    CancelSucceedsIff(db, req, now);
    if req.job.Key() in db.jobs { RowLoads(db.jobs, req.job); }
  }

  /** A submission. A key taken by a job of the other kind reads as no such job. */
  lemma SubmitRefuses(db: Control, limits: CoordinatorLimits, req: SubmitRequest, now: int)
    requires ControlOk(db)
    ensures var reply, k := Submit(db, limits, req, now).reply, JobKey(req.project, req.spec.idempotencyKey);
            var formed := && req.protocolVersion == 3 && req.spec.protocolVersion == 3
                          && req.spec.kind == req.spec.input.Kind() && req.spec.digestsMatch
                          && req.project == req.spec.input.ProjectOf() && After(now, limits.maxDuration).Some?;
            var served := formed && req.project !in db.tombstones;
            && (reply == Err(InvalidRequest) <==> !formed)
            && (reply == Err(ProjectDeleted) <==> formed && req.project in db.tombstones)
            && (reply == Err(NotFound) <==> served && k in db.jobs && db.jobs[k].kind != req.spec.kind)
            && (reply == Err(Conflict) <==>
                served && k in db.jobs && db.jobs[k].kind == req.spec.kind && db.jobs[k].spec != req.spec)
            && (reply.Err? ==> reply.error in {InvalidRequest, ProjectDeleted, NotFound, Conflict})
  {
    SubmitSucceedsIff(db, limits, req, now);
    var job := JobRef(req.project, req.spec.idempotencyKey, req.spec.kind);
    if job.Key() in db.jobs { RowLoads(db.jobs, job); }
  }
}
