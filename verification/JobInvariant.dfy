/** What every coordinator transaction keeps: the shape of job rows, the soundness of
    receipts, and the direction in which rows may evolve. */
module JobInvariant {
  import opened Prelude
  import opened Protocol
  import opened Coordinator

  predicate RowOk(k: JobKey, r: JobRow)
  {
    && r.spec.Valid() && k.project == r.spec.input.ProjectOf() && k.jobId == r.spec.idempotencyKey
        && r.kind == r.spec.kind
    && 1 <= r.maxAttempts <= U32_MAX
    && r.generation <= r.maxAttempts
    && r.attempt == Max(1, r.generation)
    && (r.state.HoldsLease() <==> r.worker.Some?)
    && (r.state.HoldsLease() <==> r.leaseUntil.Some?)
    && (r.state.HoldsLease() ==> 1 <= r.generation && r.leaseUntil.value <= r.deadlineAt && r.failureCode.None?)
    && (r.state == Queued ==> r.generation < r.maxAttempts)
    && (r.cancellationRequested <==> r.state == Cancelled)
    && (r.state == Failed ==> r.failureCode.Some?)
    && (r.state == Complete || r.state == Cancelled ==> r.failureCode.None?)
    && r.createdAt <= r.deadlineAt
  }

  ghost predicate JobsOk(jobs: Jobs)
  {
    forall k :: k in jobs ==> RowOk(k, jobs[k])
  }

  /** A stored receipt passes the check its own replay performs. */
  ghost predicate ReceiptsOk(db: Control)
  {
    && (forall a :: a in db.advances ==>
          a.job in db.jobs && SoundReceipt(db.advances[a], a.job) && db.advances[a].state == a.next)
    && (forall f :: f in db.failures ==>
          && f.job in db.jobs && SoundReceipt(db.failures[f], f.job)
          && (db.failures[f].state == Queued || db.failures[f].state == Failed)
          && db.failures[f].failureCode == Some(f.failureCode))
  }

  predicate SoundReceipt(r: JobRecord, k: JobKey)
  {
    r.Valid() && r.job.Key() == k
  }

  ghost predicate ControlOk(db: Control)
  {
    JobsOk(db.jobs) && ReceiptsOk(db)
  }

  /** Upper bound on the state changes a row can still make. */
  function Potential(r: JobRow): int
  {
    4 * (r.maxAttempts - r.generation) +
    match r.state
    case Leased => 3
    case Running => 2
    case Publishing => 1
    case Queued => 0
    case _ => -4 * (r.maxAttempts - r.generation)
  }

  /** One row never changes identity or budget, never goes back a generation, never changes hands within
      a generation, and never leaves a terminal state; whenever its state changes, its remaining
      potential strictly drops. */
  predicate Evolves(a: JobRow, b: JobRow)
  {
    && b.spec == a.spec && b.kind == a.kind && b.maxAttempts == a.maxAttempts
    && b.createdAt == a.createdAt && b.deadlineAt == a.deadlineAt
    && a.generation <= b.generation
    && (b.generation == a.generation && b.state.HoldsLease() ==> a.state.HoldsLease() && b.worker == a.worker)
    && (a.state.IsTerminal() ==> b == a)
    && Potential(b) <= Potential(a)
    && (b.state != a.state ==> Potential(b) < Potential(a))
  }

  ghost predicate Extends<K, V>(a: map<K, V>, b: map<K, V>)
  {
    forall k :: k in a ==> k in b && b[k] == a[k]
  }

  ghost predicate ControlEvolves(a: Control, b: Control)
  {
    && (forall k :: k in a.jobs ==> k in b.jobs && Evolves(a.jobs[k], b.jobs[k]))
    && Extends(a.advances, b.advances)
    && Extends(a.failures, b.failures)
  }

  lemma ControlEvolvesTransitive(a: Control, b: Control, c: Control)
    requires ControlEvolves(a, b) && ControlEvolves(b, c)
    ensures ControlEvolves(a, c)
  {
    forall k | k in a.jobs ensures k in c.jobs && Evolves(a.jobs[k], c.jobs[k]) {
      assert Evolves(b.jobs[k], c.jobs[k]);
    }
  }

  // ---------------------------------------------------------------- loading

  function RecordOf(k: JobKey, r: JobRow): JobRecord
  {
    JobRecord(JobRef(k.project, k.jobId, r.kind), r.spec, r.state, r.attempt, r.maxAttempts,
              if r.worker.Some? && r.leaseUntil.Some?
              then Some(Lease(r.worker.value, r.generation, r.leaseUntil.value)) else None,
              r.cancellationRequested, r.failureCode, r.createdAt, r.updatedAt, r.deadlineAt)
  }

  /** Every row within the invariant decodes to a record that passes its check. */
  lemma RowLoads(jobs: Jobs, job: JobRef)
    requires job.Key() in jobs && RowOk(job.Key(), jobs[job.Key()])
    ensures var record := RecordOf(job.Key(), jobs[job.Key()]);
            && record.Valid()
            && LoadRecord(jobs, job) == if jobs[job.Key()].kind == job.kind then Ok(Some(record)) else Err(NotFound)
  {
    assert RowToRecord(job.Key(), jobs[job.Key()]) == Ok(RecordOf(job.Key(), jobs[job.Key()]));
  }

  /** Writing a row within the invariant always commits. */
  lemma CommitCommits(db: Control, job: JobRef, row: JobRow)
    requires RowOk(job.Key(), row) && row.kind == job.kind
    ensures Commit(db, job, row) == Step(db.(jobs := db.jobs[job.Key() := row]), Ok(RecordOf(job.Key(), row)))
    ensures RecordOf(job.Key(), row).Valid()
  {
    RowLoads(db.jobs[job.Key() := row], job);
  }

  /** What a successful authorization tells about the row. */
  lemma Authorized(jobs: Jobs, req: LeaseRequest, now: int)
    requires req.job.Key() in jobs ==> RowOk(req.job.Key(), jobs[req.job.Key()])
    ensures var k := req.job.Key();
            Authorize(jobs, req, now).Ok? <==>
              && k in jobs && jobs[k].kind == req.job.kind && jobs[k].state.HoldsLease()
              && jobs[k].worker == Some(req.worker) && jobs[k].generation == req.generation
              && now < jobs[k].leaseUntil.value
    ensures Authorize(jobs, req, now).Ok? ==>
        Authorize(jobs, req, now).value == RecordOf(req.job.Key(), jobs[req.job.Key()])
  {
    if req.job.Key() in jobs { RowLoads(jobs, req.job); }
  }

  /** Replacing one row by one it may evolve into keeps everything. */
  lemma PutRowKeeps(db: Control, k: JobKey, row: JobRow)
    requires ControlOk(db) && RowOk(k, row)
    requires k in db.jobs ==> Evolves(db.jobs[k], row)
    ensures ControlOk(db.(jobs := db.jobs[k := row])) && ControlEvolves(db, db.(jobs := db.jobs[k := row]))
  {
  }

  /** Adding a receipt that passes its own load check keeps everything. */
  lemma PutAdvanceKeeps(db: Control, a: AdvanceKey, r: JobRecord)
    requires ControlOk(db) && a !in db.advances && a.job in db.jobs && SoundReceipt(r, a.job) && r.state == a.next
    ensures ControlOk(db.(advances := db.advances[a := r])) && ControlEvolves(db, db.(advances := db.advances[a := r]))
  {
  }

  lemma PutFailureKeeps(db: Control, f: FailureKey, r: JobRecord)
    requires ControlOk(db) && f !in db.failures && f.job in db.jobs && SoundReceipt(r, f.job)
    requires (r.state == Queued || r.state == Failed) && r.failureCode == Some(f.failureCode)
    ensures ControlOk(db.(failures := db.failures[f := r])) && ControlEvolves(db, db.(failures := db.failures[f := r]))
  {
  }

  // ---------------------------------------------------------------- each row update

  lemma NewRowOk(spec: JobSpec, maxAttempts: nat, now: int, deadline: int)
    requires spec.Valid() && 1 <= maxAttempts <= U32_MAX && now <= deadline
    ensures RowOk(JobKey(spec.input.ProjectOf(), spec.idempotencyKey), NewRow(spec, maxAttempts, now, deadline))
  {
  }

  lemma ReclaimRowKeeps(k: JobKey, r: JobRow, now: int)
    requires RowOk(k, r)
    ensures RowOk(k, ReclaimRow(r, now)) && Evolves(r, ReclaimRow(r, now))
  {
  }

  /** A queued row that survived the sweep at `now` can be leased, and the lease is live when granted. */
  lemma GrantKeeps(k: JobKey, r: JobRow, worker: string, expires: int, now: int)
    requires RowOk(k, r) && r.state == Queued && now < expires && now < r.deadlineAt
    ensures NextAttempt(r) == r.generation + 1 <= r.maxAttempts
    ensures RowOk(k, Grant(r, worker, expires, now)) && Evolves(r, Grant(r, worker, expires, now))
    ensures now < Grant(r, worker, expires, now).leaseUntil.value
  {
  }

  lemma MovedKeeps(k: JobKey, r: JobRow, phase: Phase, now: int)
    requires RowOk(k, r) && r.state == phase.Expected()
    ensures RowOk(k, Moved(r, phase.Next(), phase.Finish?, now))
        && Evolves(r, Moved(r, phase.Next(), phase.Finish?, now))
  {
  }

  lemma RenewedKeeps(k: JobKey, r: JobRow, expires: int, now: int)
    requires RowOk(k, r) && r.state.HoldsLease()
    ensures RowOk(k, Renewed(r, expires, now)) && Evolves(r, Renewed(r, expires, now))
  {
  }

  lemma FailedRowKeeps(k: JobKey, r: JobRow, req: FailRequest, now: int)
    requires RowOk(k, r) && r.state.HoldsLease()
    ensures RowOk(k, FailedRow(r, req, now)) && Evolves(r, FailedRow(r, req, now))
  {
  }

  lemma CancelledRowKeeps(k: JobKey, r: JobRow, now: int)
    requires RowOk(k, r) && !r.state.IsTerminal()
    ensures RowOk(k, CancelledRow(r, now)) && Evolves(r, CancelledRow(r, now))
  {
  }

  // ---------------------------------------------------------------- each transaction

  /** A transaction keeps the invariant, only evolves rows, and an error changes nothing. */
  ghost predicate Keeps<R>(db: Control, step: Step<R>)
  {
    ControlOk(step.db) && ControlEvolves(db, step.db) && (step.reply.Err? ==> step.db == db)
  }

  /** The whole effect of a submission. */
  lemma SubmitEffect(db: Control, limits: CoordinatorLimits, req: SubmitRequest, now: int)
    requires var k := JobKey(req.project, req.spec.idempotencyKey); k in db.jobs ==> RowOk(k, db.jobs[k])
    ensures var step, k := Submit(db, limits, req, now), JobKey(req.project, req.spec.idempotencyKey);
            || step.db == db
            || (&& step.reply.Ok? && k !in db.jobs
                && var row := NewRow(req.spec, limits.maxAttempts, now, now + limits.maxDuration);
                   RowOk(k, row) && step == Step(db.(jobs := db.jobs[k := row]), Ok(RecordOf(k, row))))
  {
    var job := JobRef(req.project, req.spec.idempotencyKey, req.spec.kind);
    if job.Key() in db.jobs {
      RowLoads(db.jobs, job);
    } else if req.Valid() && After(now, limits.maxDuration).Some? {
      NewRowOk(req.spec, limits.maxAttempts, now, now + limits.maxDuration);
      CommitCommits(db, job, NewRow(req.spec, limits.maxAttempts, now, now + limits.maxDuration));
    }
  }

  lemma SubmitKeeps(db: Control, limits: CoordinatorLimits, req: SubmitRequest, now: int)
    requires ControlOk(db)
    ensures Keeps(db, Submit(db, limits, req, now))
  {
    SubmitEffect(db, limits, req, now);
    if Submit(db, limits, req, now).db != db {
      PutRowKeeps(db, JobKey(req.project, req.spec.idempotencyKey),
                  NewRow(req.spec, limits.maxAttempts, now, now + limits.maxDuration));
    }
  }

  lemma ReclaimedKeeps(db: Control, project: Project, now: int)
    requires ControlOk(db)
    ensures ControlOk(db.(jobs := Reclaimed(db.jobs, project, now)))
    ensures ControlEvolves(db, db.(jobs := Reclaimed(db.jobs, project, now)))
  {
    forall k | k in db.jobs
      ensures RowOk(k, ReclaimRow(db.jobs[k], now)) && Evolves(db.jobs[k], ReclaimRow(db.jobs[k], now))
    {
      ReclaimRowKeeps(k, db.jobs[k], now);
    }
  }

  lemma SweptQueued(k: JobKey, r: JobRow, now: int)
    requires RowOk(k, r) && ReclaimRow(r, now).state == Queued
    ensures now < ReclaimRow(r, now).deadlineAt
  {
  }

  /** The effect of a claim that selects a row; its `Conflict` and `Serialization` branches are dead. */
  lemma ClaimGrants(db: Control, limits: CoordinatorLimits, req: ClaimRequest, now: int, k: JobKey)
    requires JobsOk(db.jobs) && req.protocolVersion == CONTROL_PROTOCOL_VERSION && After(now, limits.leaseTtl).Some?
    requires NextQueued(Reclaimed(db.jobs, req.project, now), req.project, req.kind) == Some(k)
    ensures var swept := Reclaimed(db.jobs, req.project, now);
            var row := Grant(swept[k], req.worker, now + limits.leaseTtl, now);
            && RowOk(k, swept[k]) && swept[k].state == Queued && now < swept[k].deadlineAt
            && Claim(db, limits, req, now) == Step(db.(jobs := swept[k := row]), Ok(Some(RecordOf(k, row))))
            && RowOk(k, row) && Evolves(swept[k], row) && now < row.leaseUntil.value
  {
    var swept := db.(jobs := Reclaimed(db.jobs, req.project, now));
    ReclaimRowKeeps(k, db.jobs[k], now);
    SweptQueued(k, db.jobs[k], now);
    GrantKeeps(k, swept.jobs[k], req.worker, now + limits.leaseTtl, now);
    CommitCommits(swept, JobRef(k.project, k.jobId, req.kind),
                  Grant(swept.jobs[k], req.worker, now + limits.leaseTtl, now));
  }

  lemma ClaimKeeps(db: Control, limits: CoordinatorLimits, req: ClaimRequest, now: int)
    requires ControlOk(db)
    ensures Keeps(db, Claim(db, limits, req, now))
  {
    if req.protocolVersion == CONTROL_PROTOCOL_VERSION && After(now, limits.leaseTtl).Some? {
      var swept := db.(jobs := Reclaimed(db.jobs, req.project, now));
      ReclaimedKeeps(db, req.project, now);
      var next := NextQueued(swept.jobs, req.project, req.kind);
      if next.Some? {
        var k := next.value;
        ClaimGrants(db, limits, req, now, k);
        PutRowKeeps(swept, k, Grant(swept.jobs[k], req.worker, now + limits.leaseTtl, now));
        ControlEvolvesTransitive(db, swept, Claim(db, limits, req, now).db);
      }
    }
  }

  /** The whole effect of a forward transition. */
  lemma AdvanceEffect(db: Control, phase: Phase, req: LeaseRequest, now: int)
    requires req.job.Key() in db.jobs ==> RowOk(req.job.Key(), db.jobs[req.job.Key()])
    ensures var step, k := AdvancePhase(db, phase, req, now), req.job.Key();
            var a := AdvanceKeyOf(req, phase.Expected(), phase.Next());
            || step.db == db
            || (&& step.reply.Ok? && a !in db.advances
                && Authorize(db.jobs, req, now).Ok? && k in db.jobs && db.jobs[k].state == phase.Expected()
                && var row := Moved(db.jobs[k], phase.Next(), phase.Finish?, now);
                   RowOk(k, row) && RecordOf(k, row).Valid()
                   && step.reply == Ok(RecordOf(k, row))
                   && step.db == db.(jobs := db.jobs[k := row], advances := db.advances[a := RecordOf(k, row)]))
  {
    Authorized(db.jobs, req, now);
    if Authorize(db.jobs, req, now).Ok? && db.jobs[req.job.Key()].state == phase.Expected() {
      MovedKeeps(req.job.Key(), db.jobs[req.job.Key()], phase, now);
      CommitCommits(db, req.job, Moved(db.jobs[req.job.Key()], phase.Next(), phase.Finish?, now));
    }
  }

  lemma AdvanceKeeps(db: Control, phase: Phase, req: LeaseRequest, now: int)
    requires ControlOk(db)
    ensures Keeps(db, AdvancePhase(db, phase, req, now))
  {
    AdvanceEffect(db, phase, req, now);
    if AdvancePhase(db, phase, req, now).db != db {
      var k := req.job.Key();
      MovedKeeps(k, db.jobs[k], phase, now);
      var row := Moved(db.jobs[k], phase.Next(), phase.Finish?, now);
      PutRowKeeps(db, k, row);
      var mid := db.(jobs := db.jobs[k := row]);
      PutAdvanceKeeps(mid, AdvanceKeyOf(req, phase.Expected(), phase.Next()), RecordOf(k, row));
      ControlEvolvesTransitive(db, mid, AdvancePhase(db, phase, req, now).db);
    }
  }

  /** The whole effect of a heartbeat. */
  lemma HeartbeatEffect(db: Control, limits: CoordinatorLimits, req: LeaseRequest, now: int)
    requires req.job.Key() in db.jobs ==> RowOk(req.job.Key(), db.jobs[req.job.Key()])
    ensures var step, k := Heartbeat(db, limits, req, now), req.job.Key();
            || step.db == db
            || (&& step.reply.Ok? && Authorize(db.jobs, req, now).Ok? && k in db.jobs && db.jobs[k].state.HoldsLease()
                && var row := Renewed(db.jobs[k], now + limits.leaseTtl, now);
                   RowOk(k, row) && step == Step(db.(jobs := db.jobs[k := row]), Ok(RecordOf(k, row))))
  {
    Authorized(db.jobs, req, now);
    if Authorize(db.jobs, req, now).Ok? && After(now, limits.leaseTtl).Some? {
      RenewedKeeps(req.job.Key(), db.jobs[req.job.Key()], now + limits.leaseTtl, now);
      CommitCommits(db, req.job, Renewed(db.jobs[req.job.Key()], now + limits.leaseTtl, now));
    }
  }

  lemma HeartbeatKeeps(db: Control, limits: CoordinatorLimits, req: LeaseRequest, now: int)
    requires ControlOk(db)
    ensures Keeps(db, Heartbeat(db, limits, req, now))
  {
    HeartbeatEffect(db, limits, req, now);
    if Heartbeat(db, limits, req, now).db != db {
      var k := req.job.Key();
      RenewedKeeps(k, db.jobs[k], now + limits.leaseTtl, now);
      PutRowKeeps(db, k, Renewed(db.jobs[k], now + limits.leaseTtl, now));
    }
  }

  /** The whole effect of a reported failure. */
  lemma FailEffect(db: Control, req: FailRequest, now: int)
    requires req.lease.job.Key() in db.jobs ==> RowOk(req.lease.job.Key(), db.jobs[req.lease.job.Key()])
    ensures var step, k := Fail(db, req, now), req.lease.job.Key();
            || step.db == db
            || (&& step.reply.Ok? && FailureKeyOf(req) !in db.failures
                && Authorize(db.jobs, req.lease, now).Ok? && k in db.jobs && db.jobs[k].state.HoldsLease()
                && var row := FailedRow(db.jobs[k], req, now);
                   RowOk(k, row) && RecordOf(k, row).Valid()
                   && step.reply == Ok(RecordOf(k, row))
                   && step.db == db.(jobs := db.jobs[k := row],
                                     failures := db.failures[FailureKeyOf(req) := RecordOf(k, row)]))
  {
    Authorized(db.jobs, req.lease, now);
    if Authorize(db.jobs, req.lease, now).Ok? {
      FailedRowKeeps(req.lease.job.Key(), db.jobs[req.lease.job.Key()], req, now);
      CommitCommits(db, req.lease.job, FailedRow(db.jobs[req.lease.job.Key()], req, now));
    }
  }

  lemma FailKeeps(db: Control, req: FailRequest, now: int)
    requires ControlOk(db)
    ensures Keeps(db, Fail(db, req, now))
  {
    FailEffect(db, req, now);
    if Fail(db, req, now).db != db {
      var k := req.lease.job.Key();
      FailedRowKeeps(k, db.jobs[k], req, now);
      var row := FailedRow(db.jobs[k], req, now);
      PutRowKeeps(db, k, row);
      var mid := db.(jobs := db.jobs[k := row]);
      PutFailureKeeps(mid, FailureKeyOf(req), RecordOf(k, row));
      ControlEvolvesTransitive(db, mid, Fail(db, req, now).db);
    }
  }

  /** The whole effect of a cancellation. */
  lemma CancelEffect(db: Control, req: CancelRequest, now: int)
    requires req.job.Key() in db.jobs ==> RowOk(req.job.Key(), db.jobs[req.job.Key()])
    ensures var step, k := Cancel(db, req, now), req.job.Key();
            || step.db == db
            || (&& step.reply.Ok? && k in db.jobs && !db.jobs[k].state.IsTerminal()
                && var row := CancelledRow(db.jobs[k], now);
                   RowOk(k, row) && step == Step(db.(jobs := db.jobs[k := row]), Ok(RecordOf(k, row))))
  {
    var k := req.job.Key();
    if k in db.jobs {
      RowLoads(db.jobs, req.job);
      if db.jobs[k].kind == req.job.kind && !db.jobs[k].state.IsTerminal() {
        CancelledRowKeeps(k, db.jobs[k], now);
        CommitCommits(db, req.job, CancelledRow(db.jobs[k], now));
      }
    }
  }

  lemma CancelKeeps(db: Control, req: CancelRequest, now: int)
    requires ControlOk(db)
    ensures Keeps(db, Cancel(db, req, now))
  {
    CancelEffect(db, req, now);
    if Cancel(db, req, now).db != db {
      var k := req.job.Key();
      CancelledRowKeeps(k, db.jobs[k], now);
      PutRowKeeps(db, k, CancelledRow(db.jobs[k], now));
    }
  }
}
