/** The fact-batch transaction as it runs, and the ordered reads over its table. */
module FactBatchStore {
  import opened Prelude
  import opened Protocol
  import opened Ordering
  import opened Tables
  import opened FactStore
  import opened FactInvariant
  import opened CoordinatorStore

  // ---------------------------------------------------------------- ordering rows

  lemma KeyLeqTotal(a: Batch, b: Batch)
    ensures KeyLeq(a, b) || KeyLeq(b, a)
    ensures KeyLeq(a, b) && KeyLeq(b, a) ==> a.shard == b.shard && a.sequence == b.sequence
  {
    LexTotal(a.shard, b.shard);
  }

  lemma KeyLeqTransitive(a: Batch, b: Batch, c: Batch)
    requires KeyLeq(a, b) && KeyLeq(b, c)
    ensures KeyLeq(a, c)
  {
    if LexLeq(a.shard, b.shard) && LexLeq(b.shard, c.shard) { LexTransitive(a.shard, b.shard, c.shard); }
    LexTotal(a.shard, b.shard);
  }

  lemma KeyLeqPreorder()
    ensures TotalPreorder(KeyLeq)
  {
    forall a, b ensures KeyLeq(a, b) || KeyLeq(b, a) { KeyLeqTotal(a, b); }
    forall a, b, c | KeyLeq(a, b) && KeyLeq(b, c) ensures KeyLeq(a, c) { KeyLeqTransitive(a, b, c); }
  }

  /** The rows listed so far, in order. */
  ghost predicate Listed(rows: Rows, job: JobRef, rest: set<BatchKey>, out: seq<Batch>)
  {
    && SortedBy(KeyLeq, out)
    && (forall k :: multiset(out)[k] <= 1)
    && (forall b :: b in multiset(out) <==> b.Key() in rows && b.Key() !in rest && rows[b.Key()] == b && b.job == job)
  }

  lemma ListOne(rows: Rows, job: JobRef, rest: set<BatchKey>, out: seq<Batch>, k: BatchKey)
    requires RowsOk(rows) && Listed(rows, job, rest, out) && k in rest && k in rows && k.job == job
    ensures Listed(rows, job, rest - {k}, Insert(KeyLeq, out, rows[k]))
  {
    KeyLeqPreorder();
    InsertKeeps(KeyLeq, out, rows[k]);
    assert rows[k] !in multiset(out);
  }

  lemma SkipOne(rows: Rows, job: JobRef, rest: set<BatchKey>, out: seq<Batch>, k: BatchKey)
    requires RowsOk(rows) && Listed(rows, job, rest, out) && k in rest && k in rows && k.job != job
    ensures Listed(rows, job, rest - {k}, out)
  {
  }

  /** No two listed rows tie. */
  lemma ListedIsListing(rows: Rows, job: JobRef, out: seq<Batch>)
    requires RowsOk(rows) && Listed(rows, job, {}, out)
    ensures IsListing(rows, job, out)
  {
    forall i | 0 <= i < |out| ensures out[i].Key() in rows && rows[out[i].Key()] == out[i] && out[i].job == job {
      assert out[i] in multiset(out);
    }
    forall k | k in rows && k.job == job ensures rows[k] in out { assert rows[k] in multiset(out); }
    forall i, j | 0 <= i < j < |out| ensures KeyLess(out[i], out[j]) { NoTies(out, i, j); }
  }

  lemma NoTies(out: seq<Batch>, i: nat, j: nat)
    requires i < j < |out| && (forall b :: multiset(out)[b] <= 1)
    ensures out[i] != out[j]
  {
    assert out == out[..j] + [out[j]] + out[j + 1..];
    assert out[i] in multiset(out[..j]) by { assert out[..j][i] == out[i]; }
    assert multiset(out)[out[j]] >= multiset(out[..j])[out[j]] + 1;
  }

  // ---------------------------------------------------------------- the store

  class FactBatchStore {
    const quota: FactQuota
    const coordinator: ControlDatabase
    var rows: Rows
    var tombstones: set<Project>

    function Tables(): Facts
      reads this`rows, this`tombstones
    {
      Facts(rows, tombstones)
    }

    constructor (quota: FactQuota, coordinator: ControlDatabase)
      ensures this.quota == quota && this.coordinator == coordinator && Tables() == Facts(map[], {})
    {
      this.quota, this.coordinator, rows, tombstones := quota, coordinator, map[], {};
    }

    /** One transaction: dropping a terminal job's batches is undone with everything else when the put
        does not store. */
    method PutInner(batch: Batch, auth: Authority, now: int) returns (reply: Result<PutOutcome, FactError>)
      modifies this`rows
      ensures match TryPut(old(Tables()), coordinator.jobs, quota, batch, auth, now)
              case Err(e) => reply == Err(e) && Tables() == old(Tables())
              case Ok((after, outcome)) => reply == Ok(outcome) && Tables() == after
    {
      if !batch.Valid() { return Err(InvalidBatch); }
      if batch.byteLen > quota.maxBatchBytes { return Err(BatchQuotaExceeded); }
      var project := batch.job.project;
      if project in tombstones { return Err(FactProjectDeleted); }
      var saved := rows;
      rows := Purged(rows, coordinator.jobs, project);
      if !Writable(coordinator.jobs, batch.job, auth, now) {
        rows := saved;
        return Err(JobNotWritable);
      }
      if batch.Key() in rows {
        var existing := rows[batch.Key()];
        rows := saved;
        return if existing == batch then Ok(Reused) else Err(SequenceConflict);
      }
      if HasFinal(rows, batch.job) {
        rows := saved;
        return Err(SequenceConflict);
      }
      var count := Total(rows, CountWeight(project));
      var bytes := Total(rows, ByteWeight(project));
      if count >= quota.maxBatches || bytes + batch.byteLen > quota.maxBytes {
        rows := saved;
        return Err(if count >= quota.maxBatches then ProjectBatchQuotaExceeded else ProjectByteQuotaExceeded);
      }
      rows := rows[batch.Key() := batch];
      reply := Ok(Stored);
    }

    /** The bounded put: a deadline noticed too late reports `DeadlineExceeded` over whatever happened. */
    method Put(batch: Batch, auth: Authority, now: int, timing: Timing) returns (reply: Result<PutOutcome, FactError>)
      modifies this`rows
      ensures (Tables(), reply) == FactStore.Put(old(Tables()), coordinator.jobs, quota, batch, auth, now, timing)
    {
      if timing == LateBeforeCommit { return Ok(DeadlineExceeded); }
      reply := PutInner(batch, auth, now);
      if timing == LateAfterCommit { reply := Ok(DeadlineExceeded); }
    }

    /** Every row of the job once, ordered by shard and sequence: what progress reports and ingestion reads. */
    method RowsForJob(job: JobRef) returns (out: seq<Batch>)
      requires RowsOk(rows)
      ensures IsListing(rows, job, out)
    {
      out := [];
      var rest := rows.Keys;
      while rest != {}
        invariant rest <= rows.Keys
        invariant Listed(rows, job, rest, out)
        decreases |rest|
      {
        var k :| k in rest;
        if k.job == job {
          ListOne(rows, job, rest, out, k);
          out := Insert(KeyLeq, out, rows[k]);
        } else {
          SkipOne(rows, job, rest, out, k);
        }
        rest := rest - {k};
      }
      ListedIsListing(rows, job, out);
    }

    /** The worker's completeness check over the reported rows. */
    method OutputIsComplete(job: JobRef) returns (complete: bool)
      requires RowsOk(rows)
      ensures complete <==> exists shard, n: nat :: WholeStream(rows, job, shard, n)
    {
      var out := RowsForJob(job);
      ProgressMeaning(rows, job, out);
      complete := ProgressIsComplete(out);
    }
  }
}
