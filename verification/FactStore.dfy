/** Unpublished fact batches: one put is one transaction over the batch table and the attached
    job table. */
module FactStore {
  import opened Prelude
  import opened Protocol
  import opened Coordinator
  import opened Ordering
  import opened FragmentMerge
  import opened Tables

  const FACT_PROTOCOL_VERSION: nat := 2

  datatype FactError =
    | InvalidBatch | SequenceConflict | BatchQuotaExceeded | ProjectBatchQuotaExceeded | ProjectByteQuotaExceeded
    | FactProjectDeleted | JobNotWritable

  datatype PutOutcome = Stored | Reused | DeadlineExceeded

  datatype FactQuota = FactQuota(maxBatches: nat, maxBytes: nat, maxBatchBytes: nat)

  /** The snapshot or revision a batch belongs to, with the identity and build it was extracted under. */
  datatype FactTarget = FactTarget(kind: JobKind, project: Project, repositoryId: string, id: string,
                                   identity: string, buildId: string)

  /** `factsMatch`: every fact names the batch's target and build. */
  datatype Payload = Payload(kind: JobKind, facts: Fragment, factsMatch: bool)

  /** Content identity of a batch: a digest over these values, taken as injective. It does not cover
      the final marker. */
  datatype BatchId = BatchId(job: JobRef, target: FactTarget, shard: string, sequence: nat, payload: Payload,
                             extractorSet: string)

  datatype Batch = Batch(protocolVersion: nat, job: JobRef, target: FactTarget, batchId: BatchId, shard: string,
                         sequence: nat, extractorSet: string, finalBatch: bool, payload: Payload, byteLen: nat)
  {
    predicate Valid()
    {
      && protocolVersion == FACT_PROTOCOL_VERSION
      && job.kind == target.kind == payload.kind && job.project == target.project
      && payload.factsMatch
      && batchId == BatchId(job, target, shard, sequence, payload, extractorSet)
    }
    function Key(): BatchKey { BatchKey(job, shard, sequence) }
  }

  /** Primary key of the batch table; the job reference carries project, job id and kind. */
  datatype BatchKey = BatchKey(job: JobRef, shard: string, sequence: nat)

  type Rows = map<BatchKey, Batch>

  datatype Facts = Facts(rows: Rows, tombstones: set<Project>)

  datatype Authority = Authority(worker: string, generation: nat)

  predicate TerminalJob(jobs: Jobs, job: JobRef)
  {
    job.Key() in jobs && jobs[job.Key()].kind == job.kind && jobs[job.Key()].state.IsTerminal()
  }

  /** Batches of terminal jobs of the project are dropped before a new batch is charged. */
  function Purged(rows: Rows, jobs: Jobs, project: Project): Rows
  {
    map k | k in rows && !(k.job.project == project && TerminalJob(jobs, k.job)) :: rows[k]
  }

  /** The store's own reading of the lease: it does not look at the job deadline, and clamps a
      generation that does not fit the column. */
  predicate Writable(jobs: Jobs, job: JobRef, auth: Authority, now: int)
  {
    job.Key() in jobs &&
    var row := jobs[job.Key()];
    && row.kind == job.kind && row.state == Running
    && row.worker == Some(auth.worker) && row.generation == Min(auth.generation, I64_MAX)
    && row.leaseUntil.Some? && now < row.leaseUntil.value
    && !row.cancellationRequested
  }

  predicate HasFinal(rows: Rows, job: JobRef)
  {
    exists k :: k in rows && k.job == job && rows[k].finalBatch
  }

  function CountWeight(p: Project): (BatchKey, Batch) -> nat
  {
    (k: BatchKey, b: Batch) => if k.job.project == p then 1 else 0
  }
  function ByteWeight(p: Project): (BatchKey, Batch) -> nat { (k: BatchKey, b: Batch) => BytesIn(p, k, b) }
  function BytesIn(p: Project, k: BatchKey, b: Batch): nat { if k.job.project == p then b.byteLen else 0 }

  ghost function TryPut(facts: Facts, jobs: Jobs, quota: FactQuota, batch: Batch, auth: Authority, now: int)
    : Result<(Facts, PutOutcome), FactError>
  {
    var rows, p := Purged(facts.rows, jobs, batch.job.project), batch.job.project;
    if !batch.Valid() then Err(InvalidBatch)
    else if batch.byteLen > quota.maxBatchBytes then Err(BatchQuotaExceeded)
    else if p in facts.tombstones then Err(FactProjectDeleted)
    else if !Writable(jobs, batch.job, auth, now) then Err(JobNotWritable)
    else if batch.Key() in rows then
      if rows[batch.Key()] == batch then Ok((facts, Reused)) else Err(SequenceConflict)
    else if HasFinal(rows, batch.job) then Err(SequenceConflict)
    else if Sum(rows, CountWeight(p)) >= quota.maxBatches then Err(ProjectBatchQuotaExceeded)
    else if Sum(rows, ByteWeight(p)) + batch.byteLen > quota.maxBytes then Err(ProjectByteQuotaExceeded)
    else Ok((facts.(rows := rows[batch.Key() := batch]), Stored))
  }

  /** When the deadline is noticed: never, before the transaction commits, or only after it. */
  datatype Timing = InTime | LateBeforeCommit | LateAfterCommit

  /** The public put. A deadline noticed after the commit hides the outcome, not the effect. */
  ghost function Put(facts: Facts, jobs: Jobs, quota: FactQuota, batch: Batch, auth: Authority, now: int,
                     timing: Timing)
    : (Facts, Result<PutOutcome, FactError>)
  {
    match timing
    case LateBeforeCommit => (facts, Ok(DeadlineExceeded))
    case _ =>
      match TryPut(facts, jobs, quota, batch, auth, now)
      case Err(e) => (facts, if timing.InTime? then Err(e) else Ok(DeadlineExceeded))
      case Ok((after, outcome)) => (after, Ok(if timing.InTime? then outcome else DeadlineExceeded))
  }

  // ---------------------------------------------------------------- ordered reads

  /** `ORDER BY shard_id, sequence`. */
  predicate KeyLeq(a: Batch, b: Batch)
  {
    if a.shard == b.shard then a.sequence <= b.sequence else LexLeq(a.shard, b.shard)
  }

  predicate KeyLess(a: Batch, b: Batch)
  {
    KeyLeq(a, b) && !(a.shard == b.shard && a.sequence == b.sequence)
  }

  /** `out` is the ordered list of the job's rows. */
  ghost predicate IsListing(rows: Rows, job: JobRef, out: seq<Batch>)
  {
    && (forall i :: 0 <= i < |out| ==> out[i].Key() in rows && rows[out[i].Key()] == out[i] && out[i].job == job)
    && (forall k :: k in rows && k.job == job ==> rows[k] in out)
    && (forall i, j :: 0 <= i < j < |out| ==> KeyLess(out[i], out[j]))
  }

  /** The worker's test that its output is durable and whole. */
  predicate ProgressIsComplete(batches: seq<Batch>)
  {
    && batches != []
    && forall i :: 0 <= i < |batches| ==>
         batches[i].sequence == i && (batches[i].finalBatch <==> i + 1 == |batches|)
             && batches[i].shard == batches[0].shard
  }

  /** The publisher's test that a batch stream is whole. */
  predicate ValidBatchStream(job: JobRef, batches: seq<Batch>)
  {
    && batches != []
    && forall i :: 0 <= i < |batches| ==>
         && batches[i].Valid() && batches[i].job == job && batches[i].shard == batches[0].shard
         && batches[i].sequence == i && (batches[i].finalBatch <==> i + 1 == |batches|)
  }

  /** The stored rows of the job are exactly sequences `0..n` of one shard, only the last one final. */
  ghost predicate WholeStream(rows: Rows, job: JobRef, shard: string, n: nat)
  {
    && 0 < n
    && (forall k :: k in rows && k.job == job ==> k.shard == shard && k.sequence < n)
    && (forall i :: 0 <= i < n ==> BatchKey(job, shard, i) in rows
                                   && (rows[BatchKey(job, shard, i)].finalBatch <==> i == n - 1))
  }
}
