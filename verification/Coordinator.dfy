/** The durable job coordinator as atomic transitions on its tables. Each operation
    of the coordinator is one immediate transaction: it maps the tables before it to
    the tables after it and a reply, and an error reply leaves the tables as they were. */
module Coordinator {
  import opened Prelude
  import opened Protocol
  import opened Ordering

  /** Largest instant `chrono` can represent, in milliseconds. */
  const MAX_DATETIME_MS: int := 8_210_266_876_799_999

  datatype CoordinatorError =
    | InvalidRequest | NotFound | Conflict | LeaseLost | JobCancelled | ProjectDeleted | Serialization

  datatype Limits = Limits(maxAttempts: nat, leaseTtl: nat, maxDuration: nat)

  /** The limits are non-zero machine integers. */
  type CoordinatorLimits = l: Limits |
    && 1 <= l.maxAttempts <= U32_MAX
    && 1 <= l.leaseTtl <= U64_MAX
    && 1 <= l.maxDuration <= U64_MAX
    witness Limits(1, 1, 1)

  /** One row of the job table. */
  datatype JobRow = JobRow(kind: JobKind, spec: JobSpec, state: JobState, attempt: nat, maxAttempts: nat,
                           worker: Option<string>, generation: nat, leaseUntil: Option<int>,
                           cancellationRequested: bool, failureCode: Option<string>,
                           createdAt: int, updatedAt: int, deadlineAt: int)

  type Jobs = map<JobKey, JobRow>

  /** Receipts are keyed by the operation and the lease generation, never by the request id. */
  datatype AdvanceKey = AdvanceKey(job: JobKey, expected: JobState, next: JobState, worker: string, generation: nat)
  datatype FailureKey = FailureKey(job: JobKey, worker: string, generation: nat, failureCode: string, retryable: bool)

  datatype Control = Control(jobs: Jobs, advances: map<AdvanceKey, JobRecord>,
                             failures: map<FailureKey, JobRecord>, tombstones: set<Project>)

  datatype Step<R> = Step(db: Control, reply: Result<R, CoordinatorError>)

  // ---------------------------------------------------------------- loading

  function RowToRecord(k: JobKey, row: JobRow): Result<JobRecord, CoordinatorError>
  {
    if row.attempt == 0 || row.maxAttempts == 0 then Err(Serialization)
    else
      var lease: Result<Option<Lease>, CoordinatorError> :=
        if row.worker.Some? && row.generation > 0 && row.leaseUntil.Some?
        then Ok(Some(Lease(row.worker.value, row.generation, row.leaseUntil.value)))
        else if row.worker.None? && row.leaseUntil.None? then Ok(None)
        else Err(Serialization);
      match lease
      case Err(e) => Err(e)
      case Ok(l) =>
        Ok(JobRecord(JobRef(k.project, k.jobId, row.kind), row.spec, row.state, row.attempt, row.maxAttempts, l,
                     row.cancellationRequested, row.failureCode, row.createdAt, row.updatedAt, row.deadlineAt))
  }

  function LoadRecord(jobs: Jobs, job: JobRef): Result<Option<JobRecord>, CoordinatorError>
  {
    if job.Key() !in jobs then Ok(None)
    else
      match RowToRecord(job.Key(), jobs[job.Key()])
      case Err(e) => Err(e)
      case Ok(record) =>
        if record.job.kind != job.kind then Err(NotFound)
        else if !record.Valid() then Err(Serialization)
        else Ok(Some(record))
  }

  /** Load a record that must exist. */
  function Require(jobs: Jobs, job: JobRef): Result<JobRecord, CoordinatorError>
  {
    match LoadRecord(jobs, job)
    case Err(e) => Err(e)
    case Ok(None) => Err(NotFound)
    case Ok(Some(record)) => Ok(record)
  }

  predicate LiveLease(record: JobRecord, worker: string, generation: nat, now: int)
  {
    && record.lease.Some?
    && record.lease.value.worker == worker
    && record.lease.value.generation == generation
    && now < record.lease.value.expiresAt
    && now < record.deadlineAt
  }

  /** The guard shared by every lease-bearing request. */
  function Authorize(jobs: Jobs, req: LeaseRequest, now: int): Result<JobRecord, CoordinatorError>
  {
    match Require(jobs, req.job)
    case Err(e) => Err(e)
    case Ok(record) =>
      if !LiveLease(record, req.worker, req.generation, now) then Err(LeaseLost)
      else if record.cancellationRequested || record.state == Cancelled then Err(JobCancelled)
      else Ok(record)
  }

  /** `now` plus a duration, when both fit the representable range. */
  function After(now: int, millis: nat): (t: Option<int>)
    ensures t.Some? ==> t.value == now + millis
    ensures t.Some? <==> millis <= I64_MAX && now + millis <= 8_210_266_876_799_999
  {
    if millis > I64_MAX || now + millis > MAX_DATETIME_MS then None else Some(now + millis)
  }

  // ---------------------------------------------------------------- submit

  function Submit(db: Control, limits: CoordinatorLimits, req: SubmitRequest, now: int): Step<JobRecord>
  {
    if !req.Valid() then Step(db, Err(InvalidRequest))
    else
      var job := JobRef(req.project, req.spec.idempotencyKey, req.spec.kind);
      match After(now, limits.maxDuration)
      case None => Step(db, Err(InvalidRequest))
      case Some(deadline) =>
        if req.project in db.tombstones then Step(db, Err(ProjectDeleted))
        else
          match LoadRecord(db.jobs, job)
          case Err(e) => Step(db, Err(e))
          case Ok(Some(existing)) =>
            Step(db, if existing.spec != req.spec then Err(Conflict) else Ok(existing))
          case Ok(None) =>
            Commit(db, job, NewRow(req.spec, limits.maxAttempts, now, deadline))
  }

  function NewRow(spec: JobSpec, maxAttempts: nat, now: int, deadline: int): JobRow
  {
    JobRow(spec.kind, spec, Queued, 1, maxAttempts, None, 0, None, false, None, now, now, deadline)
  }

  /** Write one row and reply with the record loaded back; a failed load rolls back. */
  function Commit(db: Control, job: JobRef, row: JobRow): Step<JobRecord>
  {
    var jobs := db.jobs[job.Key() := row];
    match Require(jobs, job)
    case Err(e) => Step(db, Err(e))
    case Ok(record) => Step(db.(jobs := jobs), Ok(record))
  }

  // ---------------------------------------------------------------- reclaim

  predicate LeaseExpired(row: JobRow, now: int)
  {
    row.leaseUntil.Some? && row.leaseUntil.value <= now
  }

  /** What maintenance decides about one row at one instant. */
  datatype Verdict = Keep | CancelExpired | TimedOut | AttemptLimited | Requeue

  function Judge(row: JobRow, now: int): Verdict
  {
    var expired := LeaseExpired(row, now) && row.state.HoldsLease();
    if row.cancellationRequested then
      if expired then CancelExpired else Keep
    else if row.deadlineAt <= now && !row.state.IsTerminal() then TimedOut
    else if expired && row.maxAttempts <= row.attempt then AttemptLimited
    else if expired then Requeue
    else Keep
  }

  function Released(row: JobRow, state: JobState, code: Option<string>, now: int): JobRow
  {
    row.(state := state, worker := None, leaseUntil := None, failureCode := code, updatedAt := now)
  }

  function ReclaimRow(row: JobRow, now: int): JobRow
  {
    match Judge(row, now)
    case Keep => row
    case CancelExpired => Released(row, Cancelled, None, now)
    case TimedOut => Released(row, Failed, Some("job.timeout"), now)
    case AttemptLimited => Released(row, Failed, Some("job.attempt_limit"), now)
    case Requeue => Released(row, Queued, None, now)
  }

  /** Every row of the project judged once, all at the same time. */
  function Reclaimed(jobs: Jobs, project: Project, now: int): (r: Jobs)
    ensures r.Keys == jobs.Keys
  {
    map k | k in jobs :: if k.project == project then ReclaimRow(jobs[k], now) else jobs[k]
  }

  function Judged(jobs: Jobs, project: Project, now: int, verdict: Verdict): set<JobKey>
  {
    set k | k in jobs && k.project == project && Judge(jobs[k], now) == verdict
  }

  function CountVerdicts(jobs: Jobs, project: Project, now: int): ReclaimCounts
  {
    ReclaimCounts(|Judged(jobs, project, now, Requeue)|,
                  |Judged(jobs, project, now, TimedOut)| + |Judged(jobs, project, now, AttemptLimited)|,
                  |Judged(jobs, project, now, CancelExpired)|)
  }

  function Reclaim(db: Control, req: ReclaimRequest, now: int): Step<ReclaimCounts>
  {
    if req.protocolVersion != CONTROL_PROTOCOL_VERSION then Step(db, Err(InvalidRequest))
    else Step(db.(jobs := Reclaimed(db.jobs, req.project, now)), Ok(CountVerdicts(db.jobs, req.project, now)))
  }

  // ---------------------------------------------------------------- claim

  predicate Claimable(jobs: Jobs, project: Project, kind: JobKind, k: JobKey)
  {
    && k in jobs
    && k.project == project
    && jobs[k].kind == kind
    && jobs[k].state == Queued
    && !jobs[k].cancellationRequested
  }

  /** Claim order: oldest first, ties by job id. */
  predicate NotAfter(jobs: Jobs, a: JobKey, b: JobKey)
    requires a in jobs && b in jobs
  {
    jobs[a].createdAt < jobs[b].createdAt
    || (jobs[a].createdAt == jobs[b].createdAt && LexLeq(a.jobId, b.jobId))
  }

  ghost predicate IsNext(jobs: Jobs, project: Project, kind: JobKind, k: JobKey)
  {
    && Claimable(jobs, project, kind, k)
    && forall other :: Claimable(jobs, project, kind, other) ==> NotAfter(jobs, k, other)
  }

  ghost function NextQueued(jobs: Jobs, project: Project, kind: JobKind): (next: Option<JobKey>)
    ensures next.Some? ==> IsNext(jobs, project, kind, next.value)
  {
    if k :| IsNext(jobs, project, kind, k) then Some(k) else None
  }

  function NextAttempt(row: JobRow): nat
  {
    if row.generation == 0 then row.attempt else Min(row.attempt + 1, U32_MAX)
  }

  function Grant(row: JobRow, worker: string, expires: int, now: int): JobRow
  {
    row.(state := Leased, attempt := NextAttempt(row), worker := Some(worker), generation := row.generation + 1,
         leaseUntil := Some(Min(expires, row.deadlineAt)), updatedAt := now, failureCode := None)
  }

  ghost function Claim(db: Control, limits: CoordinatorLimits, req: ClaimRequest, now: int): Step<Option<JobRecord>>
  {
    if req.protocolVersion != CONTROL_PROTOCOL_VERSION then Step(db, Err(InvalidRequest))
    else
      match After(now, limits.leaseTtl)
      case None => Step(db, Err(InvalidRequest))
      case Some(expires) =>
        var swept := db.(jobs := Reclaimed(db.jobs, req.project, now));
        match NextQueued(swept.jobs, req.project, req.kind)
        case None => Step(swept, Ok(None))
        case Some(k) =>
          var row := swept.jobs[k];
          if NextAttempt(row) == 0 || NextAttempt(row) > row.maxAttempts then Step(db, Err(Conflict))
          else if row.generation + 1 > I64_MAX then Step(db, Err(Serialization))
          else
            var granted := Commit(swept, JobRef(k.project, k.jobId, req.kind), Grant(row, req.worker, expires, now));
            match granted.reply
            case Err(e) => Step(db, Err(e))
            case Ok(record) => Step(granted.db, Ok(Some(record)))
  }

  // ---------------------------------------------------------------- lease-bearing requests

  function AdvanceKeyOf(req: LeaseRequest, expected: JobState, next: JobState): AdvanceKey
  {
    AdvanceKey(req.job.Key(), expected, next, req.worker, req.generation)
  }

  function LoadAdvanceReceipt(db: Control, req: LeaseRequest, expected: JobState, next: JobState)
    : Result<Option<JobRecord>, CoordinatorError>
  {
    if req.generation > I64_MAX then Err(Serialization)
    else if AdvanceKeyOf(req, expected, next) !in db.advances then Ok(None)
    else
      var record := db.advances[AdvanceKeyOf(req, expected, next)];
      if record.job != req.job || record.state != next || !record.Valid() then Err(Serialization)
      else Ok(Some(record))
  }

  function Moved(row: JobRow, next: JobState, clearLease: bool, now: int): JobRow
  {
    row.(state := next, updatedAt := now,
         worker := if clearLease then None else row.worker,
         leaseUntil := if clearLease then None else row.leaseUntil)
  }

  function Advance(db: Control, req: LeaseRequest, expected: JobState, next: JobState, now: int, clearLease: bool)
    : Step<JobRecord>
  {
    if req.protocolVersion != CONTROL_PROTOCOL_VERSION || !expected.CanTransitionTo(next)
    then Step(db, Err(InvalidRequest))
    else
      match LoadAdvanceReceipt(db, req, expected, next)
      case Err(e) => Step(db, Err(e))
      case Ok(Some(replayed)) => Step(db, Ok(replayed))
      case Ok(None) =>
        match Authorize(db.jobs, req, now)
        case Err(e) => Step(db, Err(e))
        case Ok(record) =>
          if record.state != expected then Step(db, Err(Conflict))
          else
            var row := db.jobs[req.job.Key()];
            var committed := Commit(db, req.job, Moved(row, next, clearLease, now));
            match committed.reply
            case Err(e) => committed
            case Ok(updated) =>
              committed.(db := committed.db.(
                advances := db.advances[AdvanceKeyOf(req, expected, next) := updated]))
  }

  /** The three forward transitions a lease holder can request. */
  datatype Phase = Start | BeginPublication | Finish {
    function Expected(): JobState
    {
      match this case Start => Leased case BeginPublication => Running case Finish => Publishing
    }
    function Next(): JobState
    {
      match this case Start => Running case BeginPublication => Publishing case Finish => Complete
    }
  }

  function AdvancePhase(db: Control, phase: Phase, req: LeaseRequest, now: int): Step<JobRecord>
  {
    Advance(db, req, phase.Expected(), phase.Next(), now, phase.Finish?)
  }

  function Renewed(row: JobRow, expires: int, now: int): JobRow
  {
    row.(leaseUntil := Some(Min(expires, row.deadlineAt)), updatedAt := now)
  }

  function Heartbeat(db: Control, limits: CoordinatorLimits, req: LeaseRequest, now: int): Step<JobRecord>
  {
    if req.protocolVersion != CONTROL_PROTOCOL_VERSION then Step(db, Err(InvalidRequest))
    else
      match After(now, limits.leaseTtl)
      case None => Step(db, Err(InvalidRequest))
      case Some(expires) =>
        match Authorize(db.jobs, req, now)
        case Err(e) => Step(db, Err(e))
        case Ok(record) =>
          if req.generation > I64_MAX then Step(db, Err(Serialization))
          else
            Commit(db, req.job, Renewed(db.jobs[req.job.Key()], expires, now))
  }

  function FailureKeyOf(req: FailRequest): FailureKey
  {
    FailureKey(req.lease.job.Key(), req.lease.worker, req.lease.generation, req.failureCode, req.retryable)
  }

  function LoadFailureReceipt(db: Control, req: FailRequest): Result<Option<JobRecord>, CoordinatorError>
  {
    if req.lease.generation > I64_MAX then Err(Serialization)
    else if FailureKeyOf(req) !in db.failures then Ok(None)
    else
      var record := db.failures[FailureKeyOf(req)];
      if record.job != req.lease.job || (record.state != Queued && record.state != Failed)
         || record.failureCode != Some(req.failureCode) || !record.Valid()
      then Err(Serialization)
      else Ok(Some(record))
  }

  /** A retryable failure requeues an unpublished attempt while attempts remain; any other is terminal. */
  function FailedRow(row: JobRow, req: FailRequest, now: int): JobRow
  {
    var retry := req.retryable && row.attempt < row.maxAttempts && row.state != Publishing;
    Released(row, if retry then Queued else Failed, Some(req.failureCode), now)
  }

  function Fail(db: Control, req: FailRequest, now: int): Step<JobRecord>
  {
    if req.lease.protocolVersion != CONTROL_PROTOCOL_VERSION then Step(db, Err(InvalidRequest))
    else
      match LoadFailureReceipt(db, req)
      case Err(e) => Step(db, Err(e))
      case Ok(Some(replayed)) => Step(db, Ok(replayed))
      case Ok(None) =>
        match Authorize(db.jobs, req.lease, now)
        case Err(e) => Step(db, Err(e))
        case Ok(record) =>
          if !record.state.HoldsLease() then Step(db, Err(Conflict))
          else
            var committed := Commit(db, req.lease.job, FailedRow(db.jobs[req.lease.job.Key()], req, now));
            match committed.reply
            case Err(e) => committed
            case Ok(updated) =>
              committed.(db := committed.db.(failures := db.failures[FailureKeyOf(req) := updated]))
  }

  // ---------------------------------------------------------------- cancel

  function CancelledRow(row: JobRow, now: int): JobRow
  {
    Released(row, Cancelled, None, now).(cancellationRequested := true)
  }

  function Cancel(db: Control, req: CancelRequest, now: int): Step<JobRecord>
  {
    if req.protocolVersion != CONTROL_PROTOCOL_VERSION then Step(db, Err(InvalidRequest))
    else
      match Require(db.jobs, req.job)
      case Err(e) => Step(db, Err(e))
      case Ok(record) =>
        if record.state == Cancelled then Step(db, Ok(record))
        else if req.expectedState.Some? && req.expectedState.value != record.state then Step(db, Err(Conflict))
        else if record.state.IsTerminal() then Step(db, Ok(record))
        else
          Commit(db, req.job, CancelledRow(db.jobs[req.job.Key()], now))
  }
}
