/** What the fact store keeps, and what its progress report means. */
module FactInvariant {
  import opened Prelude
  import opened Protocol
  import opened Coordinator
  import opened FactStore
  import opened Tables

  ghost predicate RowsOk(rows: Rows)
  {
    forall k :: k in rows ==> rows[k].Key() == k && rows[k].Valid()
  }

  ghost predicate OneFinal(rows: Rows)
  {
    forall a, b :: a in rows && b in rows && a.job == b.job && rows[a].finalBatch && rows[b].finalBatch ==> a == b
  }

  /** The unique index on batch ids. */
  ghost predicate UniqueIds(rows: Rows)
  {
    forall a, b :: a in rows && b in rows && rows[a].batchId == rows[b].batchId ==> a == b
  }

  /** A valid batch under a free key has an id no stored row has, so its insert never trips the index. */
  lemma FreshBatchId(rows: Rows, batch: Batch, k: BatchKey)
    requires RowsOk(rows) && batch.Valid() && batch.Key() !in rows && k in rows
    ensures rows[k].batchId != batch.batchId
  {
    assert rows[k].Key() == k && rows[k].Valid();
  }

  ghost predicate WithinQuota(rows: Rows, quota: FactQuota)
  {
    forall p: Project :: Sum(rows, CountWeight(p)) <= quota.maxBatches && Sum(rows, ByteWeight(p)) <= quota.maxBytes
  }

  ghost predicate FactsOk(facts: Facts, quota: FactQuota)
  {
    RowsOk(facts.rows) && OneFinal(facts.rows) && UniqueIds(facts.rows) && WithinQuota(facts.rows, quota)
  }

  lemma PurgedWithinQuota(rows: Rows, jobs: Jobs, project: Project, quota: FactQuota)
    requires WithinQuota(rows, quota)
    ensures WithinQuota(Purged(rows, jobs, project), quota)
  {
    forall p: Project
      ensures Sum(Purged(rows, jobs, project), CountWeight(p)) <= quota.maxBatches
      ensures Sum(Purged(rows, jobs, project), ByteWeight(p)) <= quota.maxBytes
    {
      SumSubmap(Purged(rows, jobs, project), rows, CountWeight(p));
      SumSubmap(Purged(rows, jobs, project), rows, ByteWeight(p));
    }
  }

  /** Charging one admitted batch to its project stays within the quota. */
  lemma AddWithinQuota(rows: Rows, batch: Batch, quota: FactQuota)
    requires WithinQuota(rows, quota) && batch.Key() !in rows
    requires Sum(rows, CountWeight(batch.job.project)) < quota.maxBatches
    requires Sum(rows, ByteWeight(batch.job.project)) + batch.byteLen <= quota.maxBytes
    ensures WithinQuota(rows[batch.Key() := batch], quota)
  {
    forall p: Project
      ensures Sum(rows[batch.Key() := batch], CountWeight(p)) <= quota.maxBatches
      ensures Sum(rows[batch.Key() := batch], ByteWeight(p)) <= quota.maxBytes
    {
      SumInsert(rows, CountWeight(p), batch.Key(), batch);
      SumInsert(rows, ByteWeight(p), batch.Key(), batch);
    }
  }

  lemma AddRow(rows: Rows, batch: Batch)
    requires RowsOk(rows) && OneFinal(rows) && UniqueIds(rows) && batch.Valid()
    requires batch.Key() !in rows && !HasFinal(rows, batch.job)
    ensures RowsOk(rows[batch.Key() := batch]) && OneFinal(rows[batch.Key() := batch])
    ensures UniqueIds(rows[batch.Key() := batch])
  {
    forall k | k in rows ensures rows[k].batchId != batch.batchId { FreshBatchId(rows, batch, k); }
  }

  /** Quotas, single final marker, row identity and unique batch ids survive every put, whatever its outcome. */
  lemma PutKeeps(facts: Facts, jobs: Jobs, quota: FactQuota, batch: Batch, auth: Authority, now: int, timing: Timing)
    requires FactsOk(facts, quota)
    ensures FactsOk(Put(facts, jobs, quota, batch, auth, now, timing).0, quota)
  {
    var attempt := TryPut(facts, jobs, quota, batch, auth, now);
    if attempt.Ok? && attempt.value.1 == Stored {
      PurgedWithinQuota(facts.rows, jobs, batch.job.project, quota);
      AddWithinQuota(Purged(facts.rows, jobs, batch.job.project), batch, quota);
      AddRow(Purged(facts.rows, jobs, batch.job.project), batch);
    }
  }

  /** Anything but a commit of a new batch leaves every row as it was: an error and a reuse roll the
      terminal cleanup back too. */
  lemma PutOnlyStoresOnce(facts: Facts, jobs: Jobs, quota: FactQuota, batch: Batch, auth: Authority, now: int,
                          timing: Timing)
    ensures var (after, reply) := Put(facts, jobs, quota, batch, auth, now, timing);
            || after == facts
            || (&& Writable(jobs, batch.job, auth, now) && batch.Valid()
                && batch.Key() !in Purged(facts.rows, jobs, batch.job.project)
                && !HasFinal(Purged(facts.rows, jobs, batch.job.project), batch.job)
                && after == facts.(rows := Purged(facts.rows, jobs, batch.job.project)[batch.Key() := batch])
                && (reply == Ok(Stored) || reply == Ok(DeadlineExceeded)))
    ensures Put(facts, jobs, quota, batch, auth, now, timing).1.Err? ==>
        Put(facts, jobs, quota, batch, auth, now, timing).0 == facts
    ensures Put(facts, jobs, quota, batch, auth, now, timing).1 == Ok(Reused) ==>
              && Put(facts, jobs, quota, batch, auth, now, timing).0 == facts
              && batch.Key() in facts.rows && facts.rows[batch.Key()] == batch
  {
  }

  /** Rows of one job. */
  function JobRows(rows: Rows, job: JobRef): Rows
  {
    map k | k in rows && k.job == job :: rows[k]
  }

  /** A put leaves a live job's rows alone unless it adds a batch to that very job, and a job whose
      final batch is stored takes no more batches. */
  lemma PutFrame(facts: Facts, jobs: Jobs, quota: FactQuota, batch: Batch, auth: Authority, now: int, timing: Timing,
                 job: JobRef)
    requires !TerminalJob(jobs, job)
    ensures var after := Put(facts, jobs, quota, batch, auth, now, timing).0;
            || JobRows(after.rows, job) == JobRows(facts.rows, job)
            || (&& batch.job == job && batch.Key() !in facts.rows && !HasFinal(facts.rows, job)
                && JobRows(after.rows, job) == JobRows(facts.rows, job)[batch.Key() := batch])
  {
    PutOnlyStoresOnce(facts, jobs, quota, batch, auth, now, timing);
    var after := Put(facts, jobs, quota, batch, auth, now, timing).0;
    if after != facts {
      var purged := Purged(facts.rows, jobs, batch.job.project);
      assert JobRows(purged, job) == JobRows(facts.rows, job);
      if batch.job == job {
        assert forall k :: k in facts.rows && k.job == job ==> k in purged && purged[k] == facts.rows[k];
        assert JobRows(after.rows, job) == JobRows(facts.rows, job)[batch.Key() := batch];
      } else {
        assert JobRows(after.rows, job) == JobRows(facts.rows, job);
      }
    }
  }

  /** Re-putting a stored batch under live authority is a no-op that says so. */
  lemma PutAgainIsReused(facts: Facts, jobs: Jobs, quota: FactQuota, batch: Batch, auth: Authority, now: int)
    requires RowsOk(facts.rows)
    requires batch.Key() in facts.rows && facts.rows[batch.Key()] == batch && batch.byteLen <= quota.maxBatchBytes
    requires batch.job.project !in facts.tombstones && Writable(jobs, batch.job, auth, now)
    ensures Put(facts, jobs, quota, batch, auth, now, InTime) == (facts, Ok(Reused))
  {
  }

  // ---------------------------------------------------------------- progress

  /** Strictly increasing numbers that cover exactly `0..n` are `0, 1, .. n-1`. */
  lemma CoversPrefix(s: seq<nat>, n: nat, i: nat)
    requires forall a, b :: 0 <= a < b < |s| ==> s[a] < s[b]
    requires forall x :: x in s <==> 0 <= x < n
    requires i < |s|
    ensures s[i] == i
    decreases i
  {
    if i > 0 { CoversPrefix(s, n, i - 1); }
    assert s[i] in s;
    if s[i] != i {
      assert i in s;
      var j :| 0 <= j < |s| && s[j] == i;
      if j < i { CoversPrefix(s, n, j); }
    }
  }

  /** A listing is determined by the rows. */
  lemma ListingMember(rows: Rows, job: JobRef, out: seq<Batch>, k: BatchKey) returns (i: nat)
    requires RowsOk(rows) && IsListing(rows, job, out) && k in rows && k.job == job
    ensures i < |out| && out[i].Key() == k
  {
    i :| 0 <= i < |out| && out[i] == rows[k];
  }

  lemma WholeListing(rows: Rows, job: JobRef, out: seq<Batch>, shard: string, n: nat)
    requires RowsOk(rows) && IsListing(rows, job, out) && WholeStream(rows, job, shard, n)
    ensures |out| == n && forall i :: 0 <= i < n ==> out[i].Key() == BatchKey(job, shard, i)
  {
    var s := seq(|out|, i requires 0 <= i < |out| => out[i].sequence);
    forall i | 0 <= i < |out| ensures out[i].shard == shard && s[i] < n { assert out[i].Key() in rows; }
    forall x | 0 <= x < n ensures x in s {
      var i := ListingMember(rows, job, out, BatchKey(job, shard, x));
      assert s[i] == x;
    }
    forall i | 0 <= i < |out| ensures s[i] == i { CoversPrefix(s, n, i); }
    assert n - 1 in s && s[|out| - 1] == |out| - 1;
  }

  /** The progress check succeeds exactly when the rows are sequences `0..n` of one shard, only the last final. */
  lemma ProgressMeaning(rows: Rows, job: JobRef, out: seq<Batch>)
    requires RowsOk(rows) && IsListing(rows, job, out)
    ensures ProgressIsComplete(out) <==> exists shard, n: nat :: WholeStream(rows, job, shard, n)
  {
    if ProgressIsComplete(out) {
      var shard, n := out[0].shard, |out|;
      forall k | k in rows && k.job == job ensures k.shard == shard && k.sequence < n {
        var i := ListingMember(rows, job, out, k);
      }
      forall i | 0 <= i < n
        ensures BatchKey(job, shard, i) in rows && (rows[BatchKey(job, shard, i)].finalBatch <==> i == n - 1)
      {
        assert out[i].Key() == BatchKey(job, shard, i);
      }
      assert WholeStream(rows, job, shard, n);
    }
    if shard, n: nat :| WholeStream(rows, job, shard, n) {
      WholeListing(rows, job, out, shard, n);
      forall i | 0 <= i < n ensures rows[BatchKey(job, shard, i)] == out[i] { assert out[i].Key() in rows; }
    }
  }

  /** What the worker accepts as complete is exactly what the publisher accepts for ingestion. */
  lemma ProgressAgreesWithIngestion(rows: Rows, job: JobRef, out: seq<Batch>)
    requires RowsOk(rows) && IsListing(rows, job, out)
    ensures ProgressIsComplete(out) <==> ValidBatchStream(job, out)
  {
    forall i | 0 <= i < |out| ensures out[i].Valid() && out[i].job == job { assert out[i].Key() in rows; }
  }
}
