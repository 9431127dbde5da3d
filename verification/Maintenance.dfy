/** Bulk reclaim: four sequential updates of the job table against one judgement per row. */
module Maintenance {
  import opened Prelude
  import opened Protocol
  import opened Coordinator
  import opened JobInvariant
  import opened DataPlane

  /** The `WHERE` clauses of the four updates, in the order they run. */
  predicate Matches(update: Verdict, row: JobRow, now: int)
  {
    match update
    case CancelExpired => row.cancellationRequested && LeaseExpired(row, now) && row.state.HoldsLease()
    case TimedOut =>
      !row.cancellationRequested && row.deadlineAt <= now && (row.state == Queued || row.state.HoldsLease())
    case AttemptLimited =>
      !row.cancellationRequested && row.attempt >= row.maxAttempts && LeaseExpired(row, now) && row.state.HoldsLease()
    case Requeue =>
      !row.cancellationRequested && row.attempt < row.maxAttempts && LeaseExpired(row, now) && row.state.HoldsLease()
    case Keep => false
  }

  /** The `SET` clauses. */
  function Written(update: Verdict, row: JobRow, now: int): JobRow
  {
    match update
    case CancelExpired => Released(row, Cancelled, None, now)
    case TimedOut => Released(row, Failed, Some("job.timeout"), now)
    case AttemptLimited => Released(row, Failed, Some("job.attempt_limit"), now)
    case Requeue => Released(row, Queued, None, now)
    case Keep => row
  }

  function UpdateRow(update: Verdict, row: JobRow, now: int): JobRow
  {
    if Matches(update, row, now) then Written(update, row, now) else row
  }

  /** One `UPDATE` statement over the project's rows, and the number of rows it matched. */
  function UpdateWhere(jobs: Jobs, project: Project, update: Verdict, now: int): (r: Jobs)
    ensures r.Keys == jobs.Keys
  {
    map k | k in jobs :: if k.project == project then UpdateRow(update, jobs[k], now) else jobs[k]
  }

  function Matched(jobs: Jobs, project: Project, update: Verdict, now: int): set<JobKey>
  {
    set k | k in jobs && k.project == project && Matches(update, jobs[k], now)
  }

  /** A row that passes through the four updates is matched by at most one of them, and ends as if it
      had been judged once. */
  predicate SweptOnce(row: JobRow, now: int)
  {
    var r1 := UpdateRow(CancelExpired, row, now);
    var r2 := UpdateRow(TimedOut, r1, now);
    var r3 := UpdateRow(AttemptLimited, r2, now);
    && UpdateRow(Requeue, r3, now) == ReclaimRow(row, now)
    && (Matches(CancelExpired, row, now) <==> Judge(row, now) == CancelExpired)
    && (Matches(TimedOut, r1, now) <==> Judge(row, now) == TimedOut)
    && (Matches(AttemptLimited, r2, now) <==> Judge(row, now) == AttemptLimited)
    && (Matches(Requeue, r3, now) <==> Judge(row, now) == Requeue)
  }

  /** The four updates run one after another touch each row at most once and together do exactly what
      judging every row simultaneously does; each reports the rows it was judged for. */
  method ReclaimExpired(jobs: Jobs, project: Project, now: int) returns (swept: Jobs, counts: ReclaimCounts)
    ensures swept == Reclaimed(jobs, project, now)
    ensures counts == CountVerdicts(jobs, project, now)
  {
    swept := jobs;
    var cancelled := |Matched(swept, project, CancelExpired, now)|;
    swept := UpdateWhere(swept, project, CancelExpired, now);
    var timedOut := |Matched(swept, project, TimedOut, now)|;
    swept := UpdateWhere(swept, project, TimedOut, now);
    var attemptLimited := |Matched(swept, project, AttemptLimited, now)|;
    swept := UpdateWhere(swept, project, AttemptLimited, now);
    var requeued := |Matched(swept, project, Requeue, now)|;
    swept := UpdateWhere(swept, project, Requeue, now);
    counts := ReclaimCounts(requeued, timedOut + attemptLimited, cancelled);
    FourUpdates(jobs, project, now);
  }

  lemma FourUpdates(jobs: Jobs, project: Project, now: int)
    ensures var j1 := UpdateWhere(jobs, project, CancelExpired, now);
            var j2 := UpdateWhere(j1, project, TimedOut, now);
            var j3 := UpdateWhere(j2, project, AttemptLimited, now);
            && UpdateWhere(j3, project, Requeue, now) == Reclaimed(jobs, project, now)
            && Matched(jobs, project, CancelExpired, now) == Judged(jobs, project, now, CancelExpired)
            && Matched(j1, project, TimedOut, now) == Judged(jobs, project, now, TimedOut)
            && Matched(j2, project, AttemptLimited, now) == Judged(jobs, project, now, AttemptLimited)
            && Matched(j3, project, Requeue, now) == Judged(jobs, project, now, Requeue)
  {
    assert forall k :: k in jobs ==> SweptOnce(jobs[k], now);
  }

  // ---------------------------------------------------------------- what a sweep means

  function ChangedTo(jobs: Jobs, after: Jobs, state: JobState): set<JobKey>
  {
    set k | k in jobs && k in after && jobs[k] != after[k] && after[k].state == state
  }

  predicate Lands(row: JobRow, now: int, state: JobState)
  {
    match Judge(row, now)
    case Keep => false
    case CancelExpired => state == Cancelled
    case Requeue => state == Queued
    case _ => state == Failed
  }

  lemma JudgedChanges(row: JobRow, now: int, state: JobState)
    ensures Lands(row, now, state) <==> ReclaimRow(row, now) != row && ReclaimRow(row, now).state == state
  {
  }

  lemma ChangedAreJudged(jobs: Jobs, project: Project, now: int, state: JobState)
    ensures ChangedTo(jobs, Reclaimed(jobs, project, now), state) ==
            set k | k in jobs && k.project == project && Lands(jobs[k], now, state)
  {
    var after := Reclaimed(jobs, project, now);
    forall k | k in jobs
      ensures k in ChangedTo(jobs, after, state) <==> k.project == project && Lands(jobs[k], now, state)
    {
      JudgedChanges(jobs[k], now, state);
    }
  }

  lemma RequeuedChanges(jobs: Jobs, project: Project, now: int)
    ensures Judged(jobs, project, now, Requeue) == ChangedTo(jobs, Reclaimed(jobs, project, now), Queued)
  {
    ChangedAreJudged(jobs, project, now, Queued);
  }

  lemma CancelledChanges(jobs: Jobs, project: Project, now: int)
    ensures Judged(jobs, project, now, CancelExpired) == ChangedTo(jobs, Reclaimed(jobs, project, now), Cancelled)
  {
    ChangedAreJudged(jobs, project, now, Cancelled);
  }

  lemma FailedChanges(jobs: Jobs, project: Project, now: int)
    ensures Judged(jobs, project, now, TimedOut) + Judged(jobs, project, now, AttemptLimited)
            == ChangedTo(jobs, Reclaimed(jobs, project, now), Failed)
    ensures Judged(jobs, project, now, TimedOut) !! Judged(jobs, project, now, AttemptLimited)
  {
    ChangedAreJudged(jobs, project, now, Failed);
  }

  /** The reported counts are the numbers of rows the sweep changed, by the state it gave them. */
  lemma CountsAreChanges(jobs: Jobs, project: Project, now: int)
    ensures var after, counts := Reclaimed(jobs, project, now), CountVerdicts(jobs, project, now);
            && counts.requeued == |ChangedTo(jobs, after, Queued)|
            && counts.failed == |ChangedTo(jobs, after, Failed)|
            && counts.cancelled == |ChangedTo(jobs, after, Cancelled)|
  {
    RequeuedChanges(jobs, project, now);
    CancelledChanges(jobs, project, now);
    FailedChanges(jobs, project, now);
    Disjoint(Judged(jobs, project, now, TimedOut), Judged(jobs, project, now, AttemptLimited));
  }

  lemma Disjoint(a: set<JobKey>, b: set<JobKey>)
    requires a !! b
    ensures |a + b| == |a| + |b|
  {
  }

  /** After a sweep no lease and no deadline of a live job of the project has passed, and rows of other
      projects are untouched. */
  lemma SweepLeavesNothingExpired(jobs: Jobs, project: Project, now: int, k: JobKey)
    requires JobsOk(jobs) && k in jobs
    ensures var row := Reclaimed(jobs, project, now)[k];
            if k.project == project
            then (row.state.HoldsLease() ==> row.leaseUntil.Some? && now < row.leaseUntil.value)
                 && (!row.state.IsTerminal() ==> now < row.deadlineAt)
            else row == jobs[k]
  {
    if k.project == project { RowSettled(k, jobs[k], now); }
  }

  lemma RowSettled(k: JobKey, row: JobRow, now: int)
    requires RowOk(k, row)
    ensures var after := ReclaimRow(row, now);
            && (after.state.HoldsLease() ==> after.leaseUntil.Some? && now < after.leaseUntil.value)
            && (!after.state.IsTerminal() ==> now < after.deadlineAt)
            && Judge(after, now) == Keep
  {
  }

  /** A second sweep at the same time does nothing and counts nothing. */
  lemma SweepTwice(db: Control, req: ReclaimRequest, now: int)
    requires ControlOk(db) && req.protocolVersion == CONTROL_PROTOCOL_VERSION
    ensures var once := Reclaim(db, req, now).db;
            Reclaim(once, req, now) == Step(once, Ok(ReclaimCounts(0, 0, 0)))
  {
    var once := Reclaimed(db.jobs, req.project, now);
    forall k | k in once && k.project == req.project ensures Judge(once[k], now) == Keep {
      RowSettled(k, db.jobs[k], now);
    }
    NothingJudged(once, req.project, now);
  }

  lemma NothingJudged(jobs: Jobs, project: Project, now: int)
    requires forall k :: k in jobs && k.project == project ==> Judge(jobs[k], now) == Keep
    ensures Reclaimed(jobs, project, now) == jobs && CountVerdicts(jobs, project, now) == ReclaimCounts(0, 0, 0)
  {
    assert forall v: Verdict :: v != Keep ==> Judged(jobs, project, now, v) == {};
  }

  /** The cancelled count is always zero in a reachable state: a cancelled job never keeps its lease. */
  lemma NoCancellationsToReclaim(cfg: Config, actions: seq<Action>, project: Project, now: int)
    ensures CountVerdicts(Exec(cfg, EMPTY, actions).control.jobs, project, now).cancelled == 0
  {
    ReachableInv(cfg, actions);
    NeverCancelExpired(Exec(cfg, EMPTY, actions).control.jobs, project, now);
  }

  lemma NeverCancelExpired(jobs: Jobs, project: Project, now: int)
    requires JobsOk(jobs)
    ensures Judged(jobs, project, now, CancelExpired) == {}
  {
  }

  // ---------------------------------------------------------------- what becomes of a row

  /** The sweep ends the row's lease and leaves everything else but the state and the cause alone. */
  predicate Ended(before: JobRow, after: JobRow, state: JobState, cause: Option<string>, now: int)
  {
    after == before.(state := state, worker := None, leaseUntil := None, failureCode := cause, updatedAt := now)
  }

  /** A passed deadline fails a live job with a timeout. Before the deadline, an expired lease fails a job
      that has no attempt left with the attempt limit, and requeues any other. Nothing else changes. */
  lemma SweepDecides(jobs: Jobs, project: Project, now: int, k: JobKey)
    requires JobsOk(jobs) && k in jobs
    ensures var before, after := jobs[k], Reclaimed(jobs, project, now)[k];
            var held := before.state in {Leased, Running, Publishing};
            var late := (held || before.state == Queued) && before.deadlineAt <= now;
            var lapsed := held && now < before.deadlineAt && before.leaseUntil.value <= now;
            && (k.project == project && late ==> Ended(before, after, Failed, Some("job.timeout"), now))
            && (k.project == project && lapsed && before.attempt == before.maxAttempts ==>
                Ended(before, after, Failed, Some("job.attempt_limit"), now))
            && (k.project == project && lapsed && before.attempt < before.maxAttempts ==>
                Ended(before, after, Queued, None, now))
            && (k.project != project || (!late && !lapsed) ==> after == before)
  {
  }

  /** A reclaim request sweeps the project's jobs and writes no other table. */
  lemma ReclaimWrites(db: Control, req: ReclaimRequest, now: int)
    ensures var step := Reclaim(db, req, now);
            if req.protocolVersion == 3 then step.reply.Ok? && step.db == db.(jobs := step.db.jobs)
                                             && step.db.jobs.Keys == db.jobs.Keys
            else step == Step(db, Err(InvalidRequest))
  {
  }
}
