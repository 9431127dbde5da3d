/** What a batch put answers and leaves behind, stated on the stored rows themselves. */
module PutMeaning {
  import opened Prelude
  import opened Protocol
  import opened Coordinator
  import opened FactStore
  import opened FactInvariant
  import opened DataPlane
  import opened Tables

  /** The job ended, so its batches are no longer wanted. */
  predicate Over(jobs: Jobs, job: JobRef)
  {
    job.Key() in jobs && jobs[job.Key()].kind == job.kind && jobs[job.Key()].state in {Complete, Failed, Cancelled}
  }

  /** Batches that count against the project: those of jobs that are not over. */
  predicate Charged(jobs: Jobs, project: Project, k: BatchKey) { k.job.project == project && !Over(jobs, k.job) }

  function ChargedBatches(rows: Rows, jobs: Jobs, project: Project): set<BatchKey>
  {
    set k | k in rows && Charged(jobs, project, k)
  }

  /** One element for every byte of every charged batch. */
  function ChargedBytes(rows: Rows, jobs: Jobs, project: Project): set<(BatchKey, nat)>
  {
    set k, i: nat | k in rows && Charged(jobs, project, k) && i < rows[k].byteLen :: (k, i)
  }

  lemma CountIsCharged(rows: Rows, jobs: Jobs, project: Project)
    ensures Sum(Purged(rows, jobs, project), CountWeight(project)) == |ChargedBatches(rows, jobs, project)|
  {
    var left := Purged(rows, jobs, project);
    SumOfOnes(left, CountWeight(project));
    assert Ones(left, CountWeight(project)) == ChargedBatches(rows, jobs, project);
  }

  lemma BytesAreCharged(rows: Rows, jobs: Jobs, project: Project)
    ensures Sum(Purged(rows, jobs, project), ByteWeight(project)) == |ChargedBytes(rows, jobs, project)|
  {
    var left := Purged(rows, jobs, project);
    SumCounts(left, ByteWeight(project));
    assert Units(left, ByteWeight(project)) == ChargedBytes(rows, jobs, project);
  }

  // ---------------------------------------------------------------- the answer

  /** The batch is well formed: it names one target of its job's project and kind, every fact of it belongs
      there, and its id is the digest of all that. */
  predicate WellFormed(b: Batch)
  {
    && b.protocolVersion == 2 && b.job.kind == b.target.kind && b.job.kind == b.payload.kind
    && b.job.project == b.target.project && b.payload.factsMatch
    && b.batchId == BatchId(b.job, b.target, b.shard, b.sequence, b.payload, b.extractorSet)
  }

  /** A well-formed batch of acceptable size for a living project, from the holder of its running job. */
  predicate Admitted(facts: Facts, jobs: Jobs, quota: FactQuota, b: Batch, auth: Authority, now: int)
  {
    && WellFormed(b) && b.byteLen <= quota.maxBatchBytes && b.job.project !in facts.tombstones
    && Writable(jobs, b.job, auth, now)
  }

  /** Nothing is stored under the batch's key, and its job's last batch is still to come. */
  predicate Open(facts: Facts, b: Batch)
  {
    && BatchKey(b.job, b.shard, b.sequence) !in facts.rows
    && forall k :: k in facts.rows && k.job == b.job ==> !facts.rows[k].finalBatch
  }

  lemma RunningIsNotOver(jobs: Jobs, job: JobRef, auth: Authority, now: int)
    requires Writable(jobs, job, auth, now)
    ensures !Over(jobs, job)
  {
  }

  /** Why a put is refused before the rows are looked at. */
  lemma RefusalCauses(facts: Facts, jobs: Jobs, quota: FactQuota, b: Batch, auth: Authority, now: int)
    ensures var reply := Put(facts, jobs, quota, b, auth, now, InTime).1;
            && (reply == Err(InvalidBatch) <==> !WellFormed(b))
            && (reply == Err(BatchQuotaExceeded) <==> WellFormed(b) && b.byteLen > quota.maxBatchBytes)
            && (reply == Err(FactProjectDeleted) <==>
                WellFormed(b) && b.byteLen <= quota.maxBatchBytes && b.job.project in facts.tombstones)
            && (reply == Err(JobNotWritable) <==>
                && WellFormed(b) && b.byteLen <= quota.maxBatchBytes && b.job.project !in facts.tombstones
                && !Writable(jobs, b.job, auth, now))
  {
  }

  lemma OpenIsFree(facts: Facts, jobs: Jobs, b: Batch)
    requires !Over(jobs, b.job)
    ensures var left := Purged(facts.rows, jobs, b.job.project);
            && (b.Key() in left <==> b.Key() in facts.rows)
            && (b.Key() in facts.rows ==> left[b.Key()] == facts.rows[b.Key()])
            && (HasFinal(left, b.job) <==> exists k :: k in facts.rows && k.job == b.job && facts.rows[k].finalBatch)
  {
    var left := Purged(facts.rows, jobs, b.job.project);
    forall k | k in facts.rows && k.job == b.job ensures k in left && left[k] == facts.rows[k] {}
  }

  /** Every answer to an admitted batch: the same batch again, another batch in its place or after the last
      one, no room left by the jobs that are not over, and otherwise stored. */
  lemma AdmittedAnswers(facts: Facts, jobs: Jobs, quota: FactQuota, b: Batch, auth: Authority, now: int)
    requires Admitted(facts, jobs, quota, b, auth, now)
    ensures var reply, k := Put(facts, jobs, quota, b, auth, now, InTime).1, BatchKey(b.job, b.shard, b.sequence);
            var same := k in facts.rows && facts.rows[k] == b;
            var count := |ChargedBatches(facts.rows, jobs, b.job.project)|;
            var bytes := |ChargedBytes(facts.rows, jobs, b.job.project)|;
            && (reply == Ok(Reused) <==> same)
            && (reply == Err(SequenceConflict) <==> !Open(facts, b) && !same)
            && (reply == Err(ProjectBatchQuotaExceeded) <==> Open(facts, b) && count >= quota.maxBatches)
            && (reply == Err(ProjectByteQuotaExceeded) <==>
                Open(facts, b) && count < quota.maxBatches && bytes + b.byteLen > quota.maxBytes)
            && (reply == Ok(Stored) <==>
                Open(facts, b) && count < quota.maxBatches && bytes + b.byteLen <= quota.maxBytes)
  {
    RunningIsNotOver(jobs, b.job, auth, now);
    OpenIsFree(facts, jobs, b);
    CountIsCharged(facts.rows, jobs, b.job.project);
    BytesAreCharged(facts.rows, jobs, b.job.project);
  }

  /** A put stores exactly when the batch is admitted, open, and fits beside the batches of jobs that are
      not over. */
  lemma PutStoresIff(facts: Facts, jobs: Jobs, quota: FactQuota, b: Batch, auth: Authority, now: int)
    ensures Put(facts, jobs, quota, b, auth, now, InTime).1 == Ok(Stored) <==>
              && Admitted(facts, jobs, quota, b, auth, now) && Open(facts, b)
              && |ChargedBatches(facts.rows, jobs, b.job.project)| < quota.maxBatches
              && |ChargedBytes(facts.rows, jobs, b.job.project)| + b.byteLen <= quota.maxBytes
  {
    RefusalCauses(facts, jobs, quota, b, auth, now);
    if Admitted(facts, jobs, quota, b, auth, now) { AdmittedAnswers(facts, jobs, quota, b, auth, now); }
  }

  // ---------------------------------------------------------------- the rows

  /** Everything a stored put leaves behind: the batch, and every earlier row except those of the project's
      jobs that are over. */
  lemma StoredPutLeaves(facts: Facts, jobs: Jobs, quota: FactQuota, b: Batch, auth: Authority, now: int)
    requires Put(facts, jobs, quota, b, auth, now, InTime).1 == Ok(Stored)
    ensures var after, key := Put(facts, jobs, quota, b, auth, now, InTime).0, BatchKey(b.job, b.shard, b.sequence);
            && after.tombstones == facts.tombstones && key in after.rows && after.rows[key] == b
            && (forall k :: k in after.rows <==>
                  k == key || (k in facts.rows && !(k.job.project == b.job.project && Over(jobs, k.job))))
            && (forall k :: k in after.rows && k != key ==> after.rows[k] == facts.rows[k])
  {
  }

  /** A project full of batches of jobs that are over still takes a batch, and drops all of theirs. */
  lemma CleanupMakesRoom(facts: Facts, jobs: Jobs, quota: FactQuota, b: Batch, auth: Authority, now: int)
    requires Admitted(facts, jobs, quota, b, auth, now) && 0 < quota.maxBatches && b.byteLen <= quota.maxBytes
    requires forall k :: k in facts.rows && k.job.project == b.job.project ==> Over(jobs, k.job)
    ensures var (after, reply) := Put(facts, jobs, quota, b, auth, now, InTime);
            && reply == Ok(Stored)
            && forall k :: k in after.rows && k.job.project == b.job.project ==> k == b.Key()
  {
    RunningIsNotOver(jobs, b.job, auth, now);
    assert ChargedBatches(facts.rows, jobs, b.job.project) == {};
    assert ChargedBytes(facts.rows, jobs, b.job.project) == {};
    PutStoresIff(facts, jobs, quota, b, auth, now);
    StoredPutLeaves(facts, jobs, quota, b, auth, now);
  }

  /** A deadline noticed before the commit undoes the put; one noticed after it hides the answer only. */
  lemma LateAnswers(facts: Facts, jobs: Jobs, quota: FactQuota, b: Batch, auth: Authority, now: int)
    ensures Put(facts, jobs, quota, b, auth, now, LateBeforeCommit) == (facts, Ok(DeadlineExceeded))
    ensures Put(facts, jobs, quota, b, auth, now, LateAfterCommit) ==
            (Put(facts, jobs, quota, b, auth, now, InTime).0, Ok(DeadlineExceeded))
    ensures Put(facts, jobs, quota, b, auth, now, InTime).1 != Ok(DeadlineExceeded)
  {
  }

  // ---------------------------------------------------------------- every reachable state

  function BatchesOf(rows: Rows, project: Project): set<BatchKey> { set k | k in rows && k.job.project == project }

  function BytesOf(rows: Rows, project: Project): set<(BatchKey, nat)>
  {
    set k, i: nat | k in rows && k.job.project == project && i < rows[k].byteLen :: (k, i)
  }

  lemma FittingRows(facts: Facts, quota: FactQuota, project: Project)
    requires FactsOk(facts, quota)
    ensures |BatchesOf(facts.rows, project)| <= quota.maxBatches && |BytesOf(facts.rows, project)| <= quota.maxBytes
    ensures forall k :: k in facts.rows ==> WellFormed(facts.rows[k]) && k == facts.rows[k].Key()
  {
    TotalsCount(facts.rows, project);
    assert Sum(facts.rows, CountWeight(project)) <= quota.maxBatches;
  }

  lemma TotalsCount(rows: Rows, project: Project)
    ensures Sum(rows, CountWeight(project)) == |BatchesOf(rows, project)|
    ensures Sum(rows, ByteWeight(project)) == |BytesOf(rows, project)|
  {
    SumOfOnes(rows, CountWeight(project));
    SumCounts(rows, ByteWeight(project));
    assert Ones(rows, CountWeight(project)) == BatchesOf(rows, project);
    assert Units(rows, ByteWeight(project)) == BytesOf(rows, project);
  }

  /** In every reachable state a project has no more batches and no more bytes than its quota, and every
      stored batch is well formed and stored under its own key. */
  lemma ReachableBatchesFit(cfg: Config, actions: seq<Action>, project: Project)
    ensures var rows := Exec(cfg, EMPTY, actions).facts.rows;
            && |BatchesOf(rows, project)| <= cfg.quota.maxBatches && |BytesOf(rows, project)| <= cfg.quota.maxBytes
            && forall k :: k in rows ==> WellFormed(rows[k]) && k == rows[k].Key()
  {
    ReachableInv(cfg, actions);
    FittingRows(Exec(cfg, EMPTY, actions).facts, cfg.quota, project);
  }
}
