/** The coordinator's transactions as they run: on the shared control database, in place. */
module CoordinatorStore {
  import opened Prelude
  import opened Protocol
  import opened Coordinator
  import opened Publication
  import opened Maintenance
  import opened ClaimOrder

  /** One SQLite file: the job table with its receipts, and the publication tables beside it. */
  class ControlDatabase {
    var jobs: Jobs
    var advances: map<AdvanceKey, JobRecord>
    var failures: map<FailureKey, JobRecord>
    var tombstones: set<Project>
    var revisions: map<Target, Revision>
    var published: map<Target, int>
    var views: map<ViewKey, View>
    var receipts: map<JobKey, Receipt>
    var links: map<LinkKey, LinkRow>

    function Tables(): Control
      reads this`jobs, this`advances, this`failures, this`tombstones
    {
      Control(jobs, advances, failures, tombstones)
    }

    function Publications(): Publications
      reads this`revisions, this`published, this`views, this`receipts, this`links
    {
      Publication.Publications(revisions, published, views, receipts, links)
    }

    constructor ()
      ensures Tables() == Control(map[], map[], map[], {})
      ensures Publications() == Publication.Publications(map[], map[], map[], map[], map[])
    {
      jobs, advances, failures, tombstones := map[], map[], map[], {};
      revisions, published, views, receipts, links := map[], map[], map[], map[], map[];
    }

    /** Write one row and load it back; a row that does not load rolls the write back. */
    method WriteRow(job: JobRef, row: JobRow) returns (reply: Result<JobRecord, CoordinatorError>)
      modifies this`jobs
      ensures Step(Tables(), reply) == Commit(old(Tables()), job, row)
    {
      var saved := jobs;
      jobs := jobs[job.Key() := row];
      reply := Require(jobs, job);
      if reply.Err? { jobs := saved; }
    }
  }

  // ---------------------------------------------------------------- selecting a job

  /** `ORDER BY created_at_ms, job_id LIMIT 1`: the oldest queued job, ties by id. */
  method SelectNext(jobs: Jobs, project: Project, kind: JobKind) returns (next: Option<JobKey>)
    ensures next == NextQueued(jobs, project, kind)
  {
    next := None;
    var seen: set<JobKey>, rest := {}, jobs.Keys;
    while rest != {}
      invariant seen + rest == jobs.Keys
      invariant BestOf(jobs, project, kind, seen, next)
      decreases |rest|
    {
      var k :| k in rest;
      if Claimable(jobs, project, kind, k) && (next.None? || !NotAfter(jobs, next.value, k)) {
        BetterStaysBest(jobs, project, kind, seen, next, k);
        next := Some(k);
      }
      seen, rest := seen + {k}, rest - {k};
    }
    if next.Some? { NextIsUnique(jobs, project, kind, next.value); }
  }

  // ---------------------------------------------------------------- the coordinator

  class JobCoordinator {
    const limits: CoordinatorLimits
    const database: ControlDatabase

    constructor (limits: CoordinatorLimits, database: ControlDatabase)
      ensures this.limits == limits && this.database == database
    {
      this.limits, this.database := limits, database;
    }

    method Submit(req: SubmitRequest, now: int) returns (reply: Result<JobRecord, CoordinatorError>)
      modifies database`jobs
      ensures Step(database.Tables(), reply) == Coordinator.Submit(old(database.Tables()), limits, req, now)
    {
      var deadline := After(now, limits.maxDuration);
      if !req.Valid() || deadline.None? { return Err(InvalidRequest); }
      if req.project in database.tombstones { return Err(ProjectDeleted); }
      var job := JobRef(req.project, req.spec.idempotencyKey, req.spec.kind);
      var existing :- LoadRecord(database.jobs, job);
      if existing.Some? { return if existing.value.spec != req.spec then Err(Conflict) else Ok(existing.value); }
      reply := database.WriteRow(job, NewRow(req.spec, limits.maxAttempts, now, deadline.value));
    }

    /** The sweep commits together with the lease, or on its own when nothing is queued. */
    method Claim(req: ClaimRequest, now: int) returns (reply: Result<Option<JobRecord>, CoordinatorError>)
      modifies database`jobs
      ensures Step(database.Tables(), reply) == Coordinator.Claim(old(database.Tables()), limits, req, now)
    {
      var expires := After(now, limits.leaseTtl);
      if req.protocolVersion != CONTROL_PROTOCOL_VERSION || expires.None? { return Err(InvalidRequest); }
      var saved := database.jobs;
      var swept, _ := ReclaimExpired(database.jobs, req.project, now);
      database.jobs := swept;
      var next := SelectNext(database.jobs, req.project, req.kind);
      if next.None? { return Ok(None); }
      var row := database.jobs[next.value];
      if NextAttempt(row) == 0 || NextAttempt(row) > row.maxAttempts {
        database.jobs := saved;
        return Err(Conflict);
      }
      if row.generation + 1 > I64_MAX {
        database.jobs := saved;
        return Err(Serialization);
      }
      var job := JobRef(next.value.project, next.value.jobId, req.kind);
      var granted := database.WriteRow(job, Grant(row, req.worker, expires.value, now));
      if granted.Err? {
        database.jobs := saved;
        return Err(granted.error);
      }
      reply := Ok(Some(granted.value));
    }

    method TransitionWithLease(req: LeaseRequest, expected: JobState, next: JobState, now: int, clearLease: bool)
      returns (reply: Result<JobRecord, CoordinatorError>)
      modifies database`jobs, database`advances
      ensures Step(database.Tables(), reply) == Advance(old(database.Tables()), req, expected, next, now, clearLease)
    {
      if req.protocolVersion != CONTROL_PROTOCOL_VERSION || !expected.CanTransitionTo(next) {
        return Err(InvalidRequest);
      }
      var key := AdvanceKeyOf(req, expected, next);
      if req.generation > I64_MAX { return Err(Serialization); }
      if key in database.advances {
        var replayed := database.advances[key];
        if replayed.job != req.job || replayed.state != next || !replayed.Valid() { return Err(Serialization); }
        return Ok(replayed);
      }
      var record :- Authorize(database.jobs, req, now);
      if record.state != expected { return Err(Conflict); }
      reply := database.WriteRow(req.job, Moved(database.jobs[req.job.Key()], next, clearLease, now));
      if reply.Ok? { database.advances := database.advances[key := reply.value]; }
    }

    method Heartbeat(req: LeaseRequest, now: int) returns (reply: Result<JobRecord, CoordinatorError>)
      modifies database`jobs
      ensures Step(database.Tables(), reply) == Coordinator.Heartbeat(old(database.Tables()), limits, req, now)
    {
      var expires := After(now, limits.leaseTtl);
      if req.protocolVersion != CONTROL_PROTOCOL_VERSION || expires.None? { return Err(InvalidRequest); }
      var _ :- Authorize(database.jobs, req, now);
      if req.generation > I64_MAX { return Err(Serialization); }
      reply := database.WriteRow(req.job, Renewed(database.jobs[req.job.Key()], expires.value, now));
    }

    method Fail(req: FailRequest, now: int) returns (reply: Result<JobRecord, CoordinatorError>)
      modifies database`jobs, database`failures
      ensures Step(database.Tables(), reply) == Coordinator.Fail(old(database.Tables()), req, now)
    {
      if req.lease.protocolVersion != CONTROL_PROTOCOL_VERSION { return Err(InvalidRequest); }
      var receipt :- LoadFailureReceipt(database.Tables(), req);
      if receipt.Some? { return Ok(receipt.value); }
      var record :- Authorize(database.jobs, req.lease, now);
      if !record.state.HoldsLease() { return Err(Conflict); }
      reply := database.WriteRow(req.lease.job, FailedRow(database.jobs[req.lease.job.Key()], req, now));
      if reply.Ok? { database.failures := database.failures[FailureKeyOf(req) := reply.value]; }
    }

    method Cancel(req: CancelRequest, now: int) returns (reply: Result<JobRecord, CoordinatorError>)
      modifies database`jobs
      ensures Step(database.Tables(), reply) == Coordinator.Cancel(old(database.Tables()), req, now)
    {
      if req.protocolVersion != CONTROL_PROTOCOL_VERSION { return Err(InvalidRequest); }
      var record :- Require(database.jobs, req.job);
      if record.state == Cancelled { return Ok(record); }
      if req.expectedState.Some? && req.expectedState.value != record.state { return Err(Conflict); }
      if record.state.IsTerminal() { return Ok(record); }
      reply := database.WriteRow(req.job, CancelledRow(database.jobs[req.job.Key()], now));
    }

    method Reclaim(req: ReclaimRequest, now: int) returns (reply: Result<ReclaimCounts, CoordinatorError>)
      modifies database`jobs
      ensures Step(database.Tables(), reply) == Coordinator.Reclaim(old(database.Tables()), req, now)
    {
      if req.protocolVersion != CONTROL_PROTOCOL_VERSION { return Err(InvalidRequest); }
      var swept, counts := ReclaimExpired(database.jobs, req.project, now);
      database.jobs := swept;
      reply := Ok(counts);
    }
  }
}
