/** From sized payloads to the batch sequence every attempt of a job emits. */
module Emission {
  import opened Prelude
  import opened Protocol
  import opened FactStore
  import opened FragmentMerge
  import opened Chunking
  import opened Convergence

  /** What stays the same across the batches of one job: its identity, target and extractor set, which
      fragments name that target, and the encoded size of a batch. */
  datatype Source = Source(job: JobRef, target: FactTarget, shard: string, extractorSet: string,
                           matches: Fragment -> bool, size: (BatchId, bool) -> nat)
  {
    function MakeBatch(i: nat, last: bool, f: Fragment): Batch
    {
      var payload := Payload(job.kind, f, matches(f));
      var id := BatchId(job, target, shard, i, payload, extractorSet);
      Batch(FACT_PROTOCOL_VERSION, job, target, id, shard, i, extractorSet, last, payload, size(id, last))
    }

    function MeasureBatch(i: nat, last: bool, f: Fragment): Option<nat>
    {
      var batch := MakeBatch(i, last, f);
      if batch.Valid() then Some(batch.byteLen) else None
    }

    /** The emission loop's batches: numbered from zero, the last one final. */
    function Emitted(payloads: seq<Fragment>): seq<Batch>
    {
      seq(|payloads|, i requires 0 <= i < |payloads| => MakeBatch(i, i + 1 == |payloads|, payloads[i]))
    }
  }

  /** Whatever a non-empty list of payloads is sized into, the batches emitted from it form one whole
      output within the byte limit, so the emission loop's own size check never fires. */
  lemma SizedPayloadsAreOneOutput(source: Source, payloads: seq<Fragment>, maxBytes: nat, quota: FactQuota)
    requires payloads != [] && maxBytes <= quota.maxBatchBytes
    requires Sized(payloads, [], source.MeasureBatch, maxBytes).Ok?
    ensures var stream := source.Emitted(Sized(payloads, [], source.MeasureBatch, maxBytes).value);
            && IsOutput(stream, source.job, source.shard, quota)
            && forall i :: 0 <= i < |stream| ==> stream[i].byteLen <= maxBytes
  {
    SizedPreservesStream(payloads, [], source.MeasureBatch, maxBytes);
    var sized := Sized(payloads, [], source.MeasureBatch, maxBytes).value;
    var stream := source.Emitted(sized);
    forall i | 0 <= i < |stream|
      ensures stream[i].Valid() && stream[i].byteLen <= maxBytes
    {
      assert source.MeasureBatch(i, true && i == |sized| - 1, sized[i]).Some?;
    }
  }
}
