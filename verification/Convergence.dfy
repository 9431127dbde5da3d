/** Stored batches over whole runs, and why crashed attempts converge on one copy of the output. */
module Convergence {
  import opened Prelude
  import opened Protocol
  import opened Coordinator
  import opened JobInvariant
  import opened FactStore
  import opened FactInvariant
  import opened DataPlane
  import opened Tables

  // ---------------------------------------------------------------- every run

  lemma TerminalJobForever(cfg: Config, w: World, actions: seq<Action>, job: JobRef)
    requires Inv(cfg, w) && TerminalJob(w.control.jobs, job)
    ensures TerminalJob(Exec(cfg, w, actions).control.jobs, job)
  {
    ExecKeeps(cfg, w, actions);
  }

  lemma StepRows(cfg: Config, w: World, a: Action, job: JobRef)
    requires !TerminalJob(w.control.jobs, job)
    ensures var before, after := JobRows(w.facts.rows, job), JobRows(Apply(cfg, w, a).facts.rows, job);
            after == before || (!HasFinal(w.facts.rows, job) && Extends(before, after))
  {
    if a.DoPut? {
      PutFrame(w.facts, w.control.jobs, cfg.quota, a.batch, a.auth, a.now, a.timing, job);
    }
  }

  lemma SameFinal(a: Rows, b: Rows, job: JobRef)
    requires JobRows(a, job) == JobRows(b, job)
    ensures HasFinal(a, job) <==> HasFinal(b, job)
  {
    if HasFinal(a, job) {
      var k :| k in a && k.job == job && a[k].finalBatch;
      assert k in JobRows(b, job) && JobRows(b, job)[k] == a[k];
    }
    if HasFinal(b, job) {
      var k :| k in b && k.job == job && b[k].finalBatch;
      assert k in JobRows(a, job) && JobRows(a, job)[k] == b[k];
    }
  }

  /** As long as a job is not terminal its batches only accumulate, and once its final batch is stored
      its batch set is frozen. */
  lemma {:induction false} LiveRowsAccumulate(cfg: Config, w: World, actions: seq<Action>, job: JobRef)
    requires Inv(cfg, w) && !TerminalJob(Exec(cfg, w, actions).control.jobs, job)
    ensures var before, after := JobRows(w.facts.rows, job), JobRows(Exec(cfg, w, actions).facts.rows, job);
            Extends(before, after) && (HasFinal(w.facts.rows, job) ==> after == before)
    decreases |actions|
  {
    if actions != [] {
      if TerminalJob(w.control.jobs, job) { TerminalJobForever(cfg, w, actions, job); }
      var next := Apply(cfg, w, actions[0]);
      ApplyKeeps(cfg, w, actions[0]);
      StepRows(cfg, w, actions[0], job);
      if HasFinal(w.facts.rows, job) { SameFinal(w.facts.rows, next.facts.rows, job); }
      LiveRowsAccumulate(cfg, next, actions[1..], job);
    }
  }

  /** Quotas and the single final marker hold in every reachable state. */
  lemma ReachableFactsWithinQuota(cfg: Config, actions: seq<Action>, project: Project, a: BatchKey, b: BatchKey)
    ensures var rows := Exec(cfg, EMPTY, actions).facts.rows;
            && Sum(rows, CountWeight(project)) <= cfg.quota.maxBatches
            && Sum(rows, ByteWeight(project)) <= cfg.quota.maxBytes
            && (a in rows && b in rows && a.job == b.job && rows[a].finalBatch && rows[b].finalBatch ==> a == b)
  {
    ReachableInv(cfg, actions);
  }

  // ---------------------------------------------------------------- one output, many attempts

  /** The output every attempt emits: one shard, numbered from zero, only the last batch final. */
  ghost predicate IsOutput(stream: seq<Batch>, job: JobRef, shard: string, quota: FactQuota)
  {
    && stream != []
    && forall i :: 0 <= i < |stream| ==>
         && stream[i].Valid() && stream[i].Key() == BatchKey(job, shard, i)
         && (stream[i].finalBatch <==> i == |stream| - 1) && stream[i].byteLen <= quota.maxBatchBytes
  }

  /** The job's rows are exactly the first `n` batches of the output. */
  ghost predicate HoldsPrefix(rows: Rows, stream: seq<Batch>, job: JobRef, shard: string, n: nat)
  {
    && n <= |stream|
    && (forall k :: k in rows && k.job == job ==> k.shard == shard && k.sequence < n)
    && (forall i :: 0 <= i < n ==> BatchKey(job, shard, i) in rows && rows[BatchKey(job, shard, i)] == stream[i])
  }

  /** An attempt is known by the authority it writes under; it emits the batch after the last one it saw
      acknowledged. It may stop for ever, start again from the beginning, or lose any reply. */
  datatype Event =
    | Other(action: Action)
    | Emit(auth: FactStore.Authority, now: int, timing: Timing)
    | Restart(restarted: FactStore.Authority)

  type Acks = map<FactStore.Authority, nat>

  function Acked(acks: Acks, auth: FactStore.Authority): nat { if auth in acks then acks[auth] else 0 }

  ghost function EmitReply(cfg: Config, w: World, stream: seq<Batch>, acks: Acks, e: Event)
    : Result<PutOutcome, FactError>
    requires e.Emit? && Acked(acks, e.auth) < |stream|
  {
    Put(w.facts, w.control.jobs, cfg.quota, stream[Acked(acks, e.auth)], e.auth, e.now, e.timing).1
  }

  ghost function Happen(cfg: Config, w: World, stream: seq<Batch>, acks: Acks, e: Event): (World, Acks)
  {
    match e
    case Other(a) => (Apply(cfg, w, a), acks)
    case Restart(auth) => (w, acks[auth := 0])
    case Emit(auth, now, timing) =>
      if Acked(acks, auth) >= |stream| then (w, acks)
      else
        var reply := EmitReply(cfg, w, stream, acks, e);
        (Apply(cfg, w, DoPut(stream[Acked(acks, auth)], auth, now, timing)),
         if reply == Ok(Stored) || reply == Ok(Reused) then acks[auth := Acked(acks, auth) + 1] else acks)
  }

  ghost function Run(cfg: Config, w: World, stream: seq<Batch>, acks: Acks, events: seq<Event>): (World, Acks)
    decreases |events|
  {
    if events == [] then (w, acks)
    else
      var next := Happen(cfg, w, stream, acks, events[0]);
      Run(cfg, next.0, stream, next.1, events[1..])
  }

  /** Nobody but these attempts writes batches of the job. */
  predicate OnlyAttemptsWrite(events: seq<Event>, job: JobRef)
  {
    forall e :: e in events && e.Other? && e.action.DoPut? ==> e.action.batch.job != job
  }

  ghost predicate Converging(w: World, stream: seq<Batch>, acks: Acks, job: JobRef, shard: string, n: nat)
  {
    HoldsPrefix(w.facts.rows, stream, job, shard, n) && forall auth :: auth in acks ==> acks[auth] <= n
  }

  predicate AcceptedOrFull(reply: Result<PutOutcome, FactError>)
  {
    || reply == Ok(Stored) || reply == Ok(Reused)
    || reply == Err(ProjectBatchQuotaExceeded) || reply == Err(ProjectByteQuotaExceeded)
  }

  /** One emission against a stored prefix: it is never refused for its content, an acknowledgement means
      the batch is stored, and the rows are again a prefix. */
  lemma EmitStep(facts: Facts, jobs: Jobs, quota: FactQuota, stream: seq<Batch>, job: JobRef, shard: string,
                 n: nat, pc: nat, auth: FactStore.Authority, now: int, timing: Timing)
    requires IsOutput(stream, job, shard, quota) && HoldsPrefix(facts.rows, stream, job, shard, n)
    requires pc <= n && pc < |stream| && !TerminalJob(jobs, job)
    ensures var (after, reply) := Put(facts, jobs, quota, stream[pc], auth, now, timing);
            && HoldsPrefix(after.rows, stream, job, shard, if after == facts then n else n + 1)
            && (after != facts ==> pc == n)
            && (reply == Ok(Stored) || reply == Ok(Reused) ==> pc < (if after == facts then n else n + 1))
            && (reply.Err? ==> reply.error !in {InvalidBatch, BatchQuotaExceeded, SequenceConflict})
            && (timing == InTime && Writable(jobs, job, auth, now) && job.project !in facts.tombstones ==>
                AcceptedOrFull(reply) && (pc < n ==> reply == Ok(Reused)))
  {
    var batch := stream[pc];
    var purged := Purged(facts.rows, jobs, job.project);
    LivePrefix(facts.rows, jobs, stream, job, shard, n);
    assert HasFinal(purged, job) ==> n == |stream|;
    assert pc < n <==> batch.Key() in purged;
    PutOnlyStoresOnce(facts, jobs, quota, batch, auth, now, timing);
    if pc == n { PrefixGrows(purged, stream, job, shard, n); }
  }

  /** Dropping terminal jobs' batches leaves the live job's prefix alone, and the final batch ends it. */
  lemma LivePrefix(rows: Rows, jobs: Jobs, stream: seq<Batch>, job: JobRef, shard: string, n: nat)
    requires HoldsPrefix(rows, stream, job, shard, n) && !TerminalJob(jobs, job)
    ensures HoldsPrefix(Purged(rows, jobs, job.project), stream, job, shard, n)
  {
  }

  lemma PrefixGrows(rows: Rows, stream: seq<Batch>, job: JobRef, shard: string, n: nat)
    requires HoldsPrefix(rows, stream, job, shard, n) && n < |stream| && stream[n].Key() == BatchKey(job, shard, n)
    ensures HoldsPrefix(rows[stream[n].Key() := stream[n]], stream, job, shard, n + 1)
  {
  }

  lemma OtherStep(cfg: Config, w: World, a: Action, stream: seq<Batch>, job: JobRef, shard: string, n: nat)
    requires HoldsPrefix(w.facts.rows, stream, job, shard, n) && !TerminalJob(w.control.jobs, job)
    requires a.DoPut? ==> a.batch.job != job
    ensures HoldsPrefix(Apply(cfg, w, a).facts.rows, stream, job, shard, n)
  {
    if a.DoPut? {
      PutFrame(w.facts, w.control.jobs, cfg.quota, a.batch, a.auth, a.now, a.timing, job);
      SamePrefix(w.facts.rows, Apply(cfg, w, a).facts.rows, stream, job, shard, n);
    }
  }

  lemma SamePrefix(a: Rows, b: Rows, stream: seq<Batch>, job: JobRef, shard: string, n: nat)
    requires HoldsPrefix(a, stream, job, shard, n) && JobRows(a, job) == JobRows(b, job)
    ensures HoldsPrefix(b, stream, job, shard, n)
  {
    forall k | k in b && k.job == job ensures k.shard == shard && k.sequence < n { assert k in JobRows(b, job); }
    forall i | 0 <= i < n ensures BatchKey(job, shard, i) in b && b[BatchKey(job, shard, i)] == stream[i] {
      assert BatchKey(job, shard, i) in JobRows(a, job);
      assert JobRows(b, job)[BatchKey(job, shard, i)] == stream[i];
    }
  }

  lemma HappenStep(cfg: Config, w: World, stream: seq<Batch>, acks: Acks, e: Event, job: JobRef, shard: string,
                   n: nat) returns (m: nat)
    requires IsOutput(stream, job, shard, cfg.quota) && Converging(w, stream, acks, job, shard, n)
    requires !TerminalJob(w.control.jobs, job) && OnlyAttemptsWrite([e], job)
    ensures n <= m
        && Converging(Happen(cfg, w, stream, acks, e).0, stream, Happen(cfg, w, stream, acks, e).1, job, shard, m)
  {
    m := n;
    if e.Other? {
      assert e in [e];
      OtherStep(cfg, w, e.action, stream, job, shard, n);
    } else if e.Emit? && Acked(acks, e.auth) < |stream| {
      var pc := Acked(acks, e.auth);
      EmitStep(w.facts, w.control.jobs, cfg.quota, stream, job, shard, n, pc, e.auth, e.now, e.timing);
      if Put(w.facts, w.control.jobs, cfg.quota, stream[pc], e.auth, e.now, e.timing).0 != w.facts { m := n + 1; }
    }
  }

  lemma HappenKeeps(cfg: Config, w: World, stream: seq<Batch>, acks: Acks, e: Event, job: JobRef)
    requires Inv(cfg, w)
    ensures Inv(cfg, Happen(cfg, w, stream, acks, e).0)
    ensures TerminalJob(w.control.jobs, job) ==> TerminalJob(Happen(cfg, w, stream, acks, e).0.control.jobs, job)
  {
    if e.Other? {
      ApplyKeeps(cfg, w, e.action);
    } else if e.Emit? && Acked(acks, e.auth) < |stream| {
      ApplyKeeps(cfg, w, DoPut(stream[Acked(acks, e.auth)], e.auth, e.now, e.timing));
    }
  }

  lemma {:induction false} TerminalThroughRun(cfg: Config, w: World, stream: seq<Batch>, acks: Acks,
                                              events: seq<Event>, job: JobRef)
    requires Inv(cfg, w) && TerminalJob(w.control.jobs, job)
    ensures TerminalJob(Run(cfg, w, stream, acks, events).0.control.jobs, job)
    decreases |events|
  {
    if events != [] {
      HappenKeeps(cfg, w, stream, acks, events[0], job);
      var next := Happen(cfg, w, stream, acks, events[0]);
      TerminalThroughRun(cfg, next.0, stream, next.1, events[1..], job);
    }
  }

  /** After any crashes, lost replies, late deadlines, sweeps and takeovers, the rows of a live job are a
      prefix of the one output, and every attempt has at most that prefix acknowledged. */
  lemma {:induction false} AttemptsConverge(cfg: Config, w: World, stream: seq<Batch>, acks: Acks, events: seq<Event>,
                                            job: JobRef, shard: string, n: nat) returns (m: nat)
    requires Inv(cfg, w) && IsOutput(stream, job, shard, cfg.quota) && Converging(w, stream, acks, job, shard, n)
    requires OnlyAttemptsWrite(events, job) && !TerminalJob(Run(cfg, w, stream, acks, events).0.control.jobs, job)
    ensures var end := Run(cfg, w, stream, acks, events);
            n <= m && Converging(end.0, stream, end.1, job, shard, m)
    decreases |events|
  {
    m := n;
    if events != [] {
      if TerminalJob(w.control.jobs, job) { TerminalThroughRun(cfg, w, stream, acks, events, job); }
      var next := Happen(cfg, w, stream, acks, events[0]);
      m := HappenStep(cfg, w, stream, acks, events[0], job, shard, n);
      HappenKeeps(cfg, w, stream, acks, events[0], job);
      m := AttemptsConverge(cfg, next.0, stream, next.1, events[1..], job, shard, m);
    }
  }

  /** Whatever earlier attempts did, an attempt that holds the lease and answers in time sees only
      `Stored` and `Reused`, quota permitting; a batch already stored is `Reused` whatever the quota. */
  lemma AttemptIsAccepted(cfg: Config, w: World, stream: seq<Batch>, events: seq<Event>, e: Event, job: JobRef,
                          shard: string)
    requires Inv(cfg, w) && IsOutput(stream, job, shard, cfg.quota) && Converging(w, stream, map[], job, shard, 0)
    requires OnlyAttemptsWrite(events, job) && e.Emit? && e.timing == InTime
    requires var (end, acks) := Run(cfg, w, stream, map[], events);
             && Acked(acks, e.auth) < |stream|
             && Writable(end.control.jobs, job, e.auth, e.now) && job.project !in end.facts.tombstones
    ensures var (end, acks) := Run(cfg, w, stream, map[], events);
            && AcceptedOrFull(EmitReply(cfg, end, stream, acks, e))
            && (stream[Acked(acks, e.auth)].Key() in end.facts.rows ==>
                EmitReply(cfg, end, stream, acks, e) == Ok(Reused))
  {
    var (end, acks) := Run(cfg, w, stream, map[], events);
    var n := AttemptsConverge(cfg, w, stream, map[], events, job, shard, 0);
    EmitStep(end.facts, end.control.jobs, cfg.quota, stream, job, shard, n, Acked(acks, e.auth), e.auth, e.now,
             e.timing);
  }

  /** An attempt that saw every batch acknowledged has the output stored exactly once and whole. */
  lemma AcknowledgedMeansWhole(w: World, stream: seq<Batch>, acks: Acks, job: JobRef, shard: string, n: nat,
                               quota: FactQuota, auth: FactStore.Authority)
    requires IsOutput(stream, job, shard, quota) && Converging(w, stream, acks, job, shard, n)
        && Acked(acks, auth) >= |stream|
    ensures HoldsPrefix(w.facts.rows, stream, job, shard, |stream|) && WholeStream(w.facts.rows, job, shard, |stream|)
  {
  }

  // ---------------------------------------------------------------- a retry amid other traffic

  /** The project can take one more batch once its terminal jobs' batches are dropped. */
  ghost predicate RoomForOne(facts: Facts, jobs: Jobs, quota: FactQuota, batch: Batch)
  {
    var project := batch.job.project;
    var purged := Purged(facts.rows, jobs, project);
    && Sum(purged, CountWeight(project)) < quota.maxBatches
    && Sum(purged, ByteWeight(project)) + batch.byteLen <= quota.maxBytes
  }

  /** The emission meets a live lease, a living project and an answer in time, and there is room for its
      batch unless that batch is already stored. */
  ghost predicate Unhindered(cfg: Config, w: World, stream: seq<Batch>, acks: Acks, e: Event, job: JobRef)
    requires e.Emit?
  {
    && e.timing == InTime && Writable(w.control.jobs, job, e.auth, e.now) && job.project !in w.facts.tombstones
    && (Acked(acks, e.auth) < |stream| ==>
        var batch := stream[Acked(acks, e.auth)];
        batch.Key() in w.facts.rows || RoomForOne(w.facts, w.control.jobs, cfg.quota, batch))
  }

  /** Throughout the run the attempt is never restarted and each of its emissions is unhindered, while
      heartbeats, other workers and other jobs act as they like. */
  ghost predicate KeepsGoing(cfg: Config, w: World, stream: seq<Batch>, acks: Acks, events: seq<Event>, job: JobRef,
                             auth: FactStore.Authority)
    decreases |events|
  {
    events != [] ==>
      var e, next := events[0], Happen(cfg, w, stream, acks, events[0]);
      && !(e.Restart? && e.restarted == auth)
      && (e.Emit? && e.auth == auth ==> Unhindered(cfg, w, stream, acks, e, job))
      && KeepsGoing(cfg, next.0, stream, next.1, events[1..], job, auth)
  }

  function Emissions(events: seq<Event>, auth: FactStore.Authority): nat
  {
    if events == [] then 0
    else (if events[0].Emit? && events[0].auth == auth then 1 else 0) + Emissions(events[1..], auth)
  }

  /** With room for the batch the emission is stored or reused. */
  lemma RoomAccepts(facts: Facts, jobs: Jobs, quota: FactQuota, batch: Batch, auth: FactStore.Authority, now: int)
    requires RoomForOne(facts, jobs, quota, batch)
    requires AcceptedOrFull(Put(facts, jobs, quota, batch, auth, now, InTime).1)
    ensures var reply := Put(facts, jobs, quota, batch, auth, now, InTime).1; reply == Ok(Stored) || reply == Ok(Reused)
  {
  }

  /** An unhindered emission is acknowledged. */
  lemma EmissionAcknowledged(cfg: Config, w: World, stream: seq<Batch>, acks: Acks, e: Event, job: JobRef,
                             shard: string, n: nat)
    requires IsOutput(stream, job, shard, cfg.quota) && Converging(w, stream, acks, job, shard, n)
    requires e.Emit? && Unhindered(cfg, w, stream, acks, e, job)
    ensures Acked(Happen(cfg, w, stream, acks, e).1, e.auth) == Min(|stream|, Acked(acks, e.auth) + 1)
  {
    var pc := Acked(acks, e.auth);
    if pc < |stream| {
      EmitStep(w.facts, w.control.jobs, cfg.quota, stream, job, shard, n, pc, e.auth, e.now, e.timing);
      if pc == n { RoomAccepts(w.facts, w.control.jobs, cfg.quota, stream[pc], e.auth, e.now); }
    } else {
      AcksBounded(w, stream, acks, e.auth, job, shard, n);
    }
  }

  lemma AcksBounded(w: World, stream: seq<Batch>, acks: Acks, auth: FactStore.Authority, job: JobRef, shard: string,
                    n: nat)
    requires Converging(w, stream, acks, job, shard, n)
    ensures Acked(acks, auth) <= n <= |stream|
  {
  }

  /** Other events leave the attempt's acknowledgements alone. */
  lemma OthersLeaveAcks(cfg: Config, w: World, stream: seq<Batch>, acks: Acks, e: Event, auth: FactStore.Authority)
    requires !(e.Restart? && e.restarted == auth) && !(e.Emit? && e.auth == auth)
    ensures Acked(Happen(cfg, w, stream, acks, e).1, auth) == Acked(acks, auth)
  {
  }

  predicate EmitsFor(e: Event, auth: FactStore.Authority) { e.Emit? && e.auth == auth }

  lemma AcksAfterOne(cfg: Config, w: World, stream: seq<Batch>, acks: Acks, e: Event, job: JobRef, shard: string,
                     n: nat, auth: FactStore.Authority)
    requires IsOutput(stream, job, shard, cfg.quota) && Converging(w, stream, acks, job, shard, n)
    requires !(e.Restart? && e.restarted == auth) && (EmitsFor(e, auth) ==> Unhindered(cfg, w, stream, acks, e, job))
    ensures Acked(Happen(cfg, w, stream, acks, e).1, auth) ==
            Min(|stream|, Acked(acks, auth) + if EmitsFor(e, auth) then 1 else 0)
  {
    if EmitsFor(e, auth) {
      EmissionAcknowledged(cfg, w, stream, acks, e, job, shard, n);
    } else {
      OthersLeaveAcks(cfg, w, stream, acks, e, auth);
      AcksBounded(w, stream, acks, auth, job, shard, n);
    }
  }

  lemma NotTerminalBefore(cfg: Config, w: World, stream: seq<Batch>, acks: Acks, events: seq<Event>, job: JobRef)
    requires Inv(cfg, w) && !TerminalJob(Run(cfg, w, stream, acks, events).0.control.jobs, job)
    ensures !TerminalJob(w.control.jobs, job)
  {
    if TerminalJob(w.control.jobs, job) { TerminalThroughRun(cfg, w, stream, acks, events, job); }
  }

  /** The attempt's run so far stands on firm ground. */
  ghost predicate Grounded(cfg: Config, w: World, stream: seq<Batch>, acks: Acks, job: JobRef, shard: string, n: nat)
  {
    Inv(cfg, w) && IsOutput(stream, job, shard, cfg.quota) && Converging(w, stream, acks, job, shard, n)
  }

  lemma GroundedStep(cfg: Config, w: World, stream: seq<Batch>, acks: Acks, e: Event, job: JobRef, shard: string,
                     n: nat)
    returns (m: nat)
    requires Grounded(cfg, w, stream, acks, job, shard, n) && !TerminalJob(w.control.jobs, job)
        && OnlyAttemptsWrite([e], job)
    ensures Grounded(cfg, Happen(cfg, w, stream, acks, e).0, stream, Happen(cfg, w, stream, acks, e).1, job, shard, m)
  {
    m := HappenStep(cfg, w, stream, acks, e, job, shard, n);
    HappenKeeps(cfg, w, stream, acks, e, job);
  }

  lemma GroundedAcks(cfg: Config, w: World, stream: seq<Batch>, acks: Acks, e: Event, job: JobRef, shard: string,
                     n: nat, auth: FactStore.Authority)
    requires Grounded(cfg, w, stream, acks, job, shard, n)
    requires !(e.Restart? && e.restarted == auth) && (EmitsFor(e, auth) ==> Unhindered(cfg, w, stream, acks, e, job))
    ensures Acked(Happen(cfg, w, stream, acks, e).1, auth) ==
            Min(|stream|, Acked(acks, auth) + if EmitsFor(e, auth) then 1 else 0)
  {
    AcksAfterOne(cfg, w, stream, acks, e, job, shard, n, auth);
  }

  /** The attempt keeps going on firm ground, and its job is not terminal in the end. */
  ghost predicate Going(cfg: Config, w: World, stream: seq<Batch>, acks: Acks, events: seq<Event>, job: JobRef,
                        shard: string, n: nat, auth: FactStore.Authority)
  {
    && Grounded(cfg, w, stream, acks, job, shard, n) && OnlyAttemptsWrite(events, job)
    && KeepsGoing(cfg, w, stream, acks, events, job, auth)
    && !TerminalJob(Run(cfg, w, stream, acks, events).0.control.jobs, job)
  }

  /** One event of such a run leads to another such run and acknowledges the emission, if it was one. */
  lemma GoingOn(cfg: Config, w: World, stream: seq<Batch>, acks: Acks, events: seq<Event>, job: JobRef, shard: string,
                n: nat, auth: FactStore.Authority)
    returns (w': World, acks': Acks, m: nat)
    requires Going(cfg, w, stream, acks, events, job, shard, n, auth) && events != []
    ensures Going(cfg, w', stream, acks', events[1..], job, shard, m, auth)
    ensures Run(cfg, w, stream, acks, events) == Run(cfg, w', stream, acks', events[1..])
    ensures Acked(acks', auth) == Min(|stream|, Acked(acks, auth) + if EmitsFor(events[0], auth) then 1 else 0)
  {
    var e := events[0];
    var next := Happen(cfg, w, stream, acks, e);
    w', acks' := next.0, next.1;
    NotTerminalBefore(cfg, w, stream, acks, events, job);
    GroundedAcks(cfg, w, stream, acks, e, job, shard, n, auth);
    m := GroundedStep(cfg, w, stream, acks, e, job, shard, n);
  }

  /** What an event does to a run, as far as its acknowledgements go. */
  ghost predicate Follows(going: (World, Acks, seq<Event>) -> bool, run: (World, Acks, seq<Event>) -> (World, Acks),
                          limit: nat, auth: FactStore.Authority, w: World, acks: Acks, events: seq<Event>,
                          w': World, acks': Acks)
    requires events != []
  {
    && going(w', acks', events[1..]) && run(w, acks, events) == run(w', acks', events[1..])
    && Acked(acks', auth) == Min(limit, Acked(acks, auth) + if EmitsFor(events[0], auth) then 1 else 0)
  }

  ghost predicate CanFollow(going: (World, Acks, seq<Event>) -> bool, run: (World, Acks, seq<Event>) -> (World, Acks),
                            limit: nat, auth: FactStore.Authority, w: World, acks: Acks, events: seq<Event>)
  {
    events != [] ==> exists w', acks' :: Follows(going, run, limit, auth, w, acks, events, w', acks')
  }

  /** Acknowledgements add up along any runs that follow on one another. */
  lemma {:induction false} AcksAddUp(going: (World, Acks, seq<Event>) -> bool,
                                     run: (World, Acks, seq<Event>) -> (World, Acks),
                                     limit: nat, auth: FactStore.Authority, w: World, acks: Acks, events: seq<Event>)
    requires going(w, acks, events) && Acked(acks, auth) <= limit
    requires forall v, a :: run(v, a, []) == (v, a)
    requires forall v, a, es {:trigger CanFollow(going, run, limit, auth, v, a, es)} ::
               going(v, a, es) ==> CanFollow(going, run, limit, auth, v, a, es)
    ensures Acked(run(w, acks, events).1, auth) == Min(limit, Acked(acks, auth) + Emissions(events, auth))
    decreases |events|
  {
    if events == [] {
      assert run(w, acks, []) == (w, acks);
    } else {
      assert CanFollow(going, run, limit, auth, w, acks, events);
      var w', acks' :| Follows(going, run, limit, auth, w, acks, events, w', acks');
      AcksAddUp(going, run, limit, auth, w', acks', events[1..]);
    }
  }

  /** Every emission of an attempt that keeps going is acknowledged, whatever else happens in between. */
  lemma EmissionsAreAcknowledged(cfg: Config, w: World, stream: seq<Batch>, acks: Acks, events: seq<Event>, job: JobRef,
                                 shard: string, n: nat, auth: FactStore.Authority)
    requires Going(cfg, w, stream, acks, events, job, shard, n, auth) && Acked(acks, auth) <= |stream|
    ensures Acked(Run(cfg, w, stream, acks, events).1, auth) ==
        Min(|stream|, Acked(acks, auth) + Emissions(events, auth))
  {
    var going := (v: World, a: Acks, es: seq<Event>) => exists m :: Going(cfg, v, stream, a, es, job, shard, m, auth);
    var run := (v: World, a: Acks, es: seq<Event>) => Run(cfg, v, stream, a, es);
    forall v, a, es | going(v, a, es) ensures CanFollow(going, run, |stream|, auth, v, a, es) {
      if es != [] {
        var m :| Going(cfg, v, stream, a, es, job, shard, m, auth);
        var v', a', m' := GoingOn(cfg, v, stream, a, es, job, shard, m, auth);
        assert Follows(going, run, |stream|, auth, v, a, es, v', a');
      }
    }
    AcksAddUp(going, run, |stream|, auth, w, acks, events);
  }

  /** A run at whose end the attempt has every batch acknowledged ends with the output stored whole. */
  ghost predicate StoredWhole(rows: Rows, stream: seq<Batch>, job: JobRef, shard: string)
  {
    HoldsPrefix(rows, stream, job, shard, |stream|) && WholeStream(rows, job, shard, |stream|)
  }

  lemma AcknowledgedRunIsWhole(cfg: Config, w: World, stream: seq<Batch>, acks: Acks, events: seq<Event>, job: JobRef,
                               shard: string, n: nat, auth: FactStore.Authority)
    requires Grounded(cfg, w, stream, acks, job, shard, n) && OnlyAttemptsWrite(events, job)
    requires !TerminalJob(Run(cfg, w, stream, acks, events).0.control.jobs, job)
    requires Acked(Run(cfg, w, stream, acks, events).1, auth) >= |stream|
    ensures StoredWhole(Run(cfg, w, stream, acks, events).0.facts.rows, stream, job, shard)
  {
    var m := AttemptsConverge(cfg, w, stream, acks, events, job, shard, n);
    var (end, after) := Run(cfg, w, stream, acks, events);
    AcknowledgedMeansWhole(end, stream, after, job, shard, m, cfg.quota, auth);
  }

  /** As many emissions as were missing acknowledge the whole output. */
  lemma EnoughEmissions(cfg: Config, w: World, stream: seq<Batch>, acks: Acks, events: seq<Event>, job: JobRef,
                        shard: string, n: nat, auth: FactStore.Authority)
    requires Going(cfg, w, stream, acks, events, job, shard, n, auth)
    requires Acked(acks, auth) <= |stream| <= Acked(acks, auth) + Emissions(events, auth)
    ensures Acked(Run(cfg, w, stream, acks, events).1, auth) == |stream|
  {
    EmissionsAreAcknowledged(cfg, w, stream, acks, events, job, shard, n, auth);
    AllAcked(Run(cfg, w, stream, acks, events).1, auth, |stream|, Acked(acks, auth) + Emissions(events, auth));
  }

  lemma AllAcked(acks: Acks, auth: FactStore.Authority, limit: nat, reached: nat)
    requires Acked(acks, auth) == Min(limit, reached) && limit <= reached
    ensures Acked(acks, auth) == limit
  {
  }

  lemma GoingRunIsWhole(cfg: Config, w: World, stream: seq<Batch>, acks: Acks, events: seq<Event>, job: JobRef,
                        shard: string, n: nat, auth: FactStore.Authority)
    requires Going(cfg, w, stream, acks, events, job, shard, n, auth)
    requires Acked(Run(cfg, w, stream, acks, events).1, auth) >= |stream|
    ensures StoredWhole(Run(cfg, w, stream, acks, events).0.facts.rows, stream, job, shard)
  {
    AcknowledgedRunIsWhole(cfg, w, stream, acks, events, job, shard, n, auth);
  }

  /** A retry that keeps its lease, and finds quota for what is not stored yet, from any prefix earlier attempts
      left behind and amid any other traffic, has the output stored exactly once and whole after as many
      emissions as were missing. */
  lemma RetryCompletes(cfg: Config, w: World, stream: seq<Batch>, acks: Acks, events: seq<Event>, job: JobRef,
                       shard: string, n: nat, auth: FactStore.Authority)
    requires Going(cfg, w, stream, acks, events, job, shard, n, auth)
    requires Acked(acks, auth) <= |stream| <= Acked(acks, auth) + Emissions(events, auth)
    ensures Acked(Run(cfg, w, stream, acks, events).1, auth) == |stream|
    ensures StoredWhole(Run(cfg, w, stream, acks, events).0.facts.rows, stream, job, shard)
  {
    EnoughEmissions(cfg, w, stream, acks, events, job, shard, n, auth);
    GoingRunIsWhole(cfg, w, stream, acks, events, job, shard, n, auth);
  }

  // ---------------------------------------------------------------- a retry on its own

  function Bytes(stream: seq<Batch>): nat
  {
    if stream == [] then 0 else stream[0].byteLen + Bytes(stream[1..])
  }

  /** Room for everything the retry may still have to store. */
  ghost predicate Room(rows: Rows, quota: FactQuota, project: Project, rest: seq<Batch>)
  {
    && Sum(rows, CountWeight(project)) + |rest| <= quota.maxBatches
    && Sum(rows, ByteWeight(project)) + Bytes(rest) <= quota.maxBytes
  }

  /** Put the rest of the output in order; the replies, and the tables at the end. */
  ghost function Retry(facts: Facts, jobs: Jobs, quota: FactQuota, rest: seq<Batch>, auth: FactStore.Authority,
                       times: seq<int>)
    : (Facts, seq<Result<PutOutcome, FactError>>)
    requires |times| == |rest|
    decreases |rest|
  {
    if rest == [] then (facts, [])
    else
      var (after, reply) := Put(facts, jobs, quota, rest[0], auth, times[0], InTime);
      var (end, replies) := Retry(after, jobs, quota, rest[1..], auth, times[1..]);
      (end, [reply] + replies)
  }

  /** Storing the next missing batch spends exactly its share of the room. */
  lemma StoredInRoom(facts: Facts, jobs: Jobs, quota: FactQuota, batch: Batch, rest: seq<Batch>,
                     auth: FactStore.Authority, now: int)
    requires Writable(jobs, batch.job, auth, now) && rest != [] && rest[0] == batch
    requires batch.Key() !in facts.rows
        && Room(Purged(facts.rows, jobs, batch.job.project), quota, batch.job.project, rest)
    requires AcceptedOrFull(Put(facts, jobs, quota, batch, auth, now, InTime).1)
    ensures var (after, reply) := Put(facts, jobs, quota, batch, auth, now, InTime);
            && reply == Ok(Stored) && after.tombstones == facts.tombstones
            && Room(Purged(after.rows, jobs, batch.job.project), quota, batch.job.project, rest[1..])
  {
    var p := batch.job.project;
    var purged := Purged(facts.rows, jobs, p);
    var (after, reply) := Put(facts, jobs, quota, batch, auth, now, InTime);
    assert RoomForOne(facts, jobs, quota, batch);
    assert Purged(after.rows, jobs, p) == after.rows == purged[batch.Key() := batch];
    SumInsert(purged, CountWeight(p), batch.Key(), batch);
    SumInsert(purged, ByteWeight(p), batch.Key(), batch);
  }

  ghost predicate AllAccepted(replies: seq<Result<PutOutcome, FactError>>)
  {
    forall i :: 0 <= i < |replies| ==> replies[i] == Ok(Stored) || replies[i] == Ok(Reused)
  }

  /** A retry nobody disturbs needs only room for what is not stored yet: from the first batch on it sees only
      `Stored` and `Reused`, and it ends with exactly the output stored. */
  lemma {:induction false} RetryAlone(facts: Facts, jobs: Jobs, quota: FactQuota, stream: seq<Batch>, job: JobRef,
                                      shard: string, n: nat, pc: nat, auth: FactStore.Authority, times: seq<int>)
    requires IsOutput(stream, job, shard, quota) && HoldsPrefix(facts.rows, stream, job, shard, n) && pc <= n
    requires |times| == |stream| - pc && forall i :: 0 <= i < |times| ==> Writable(jobs, job, auth, times[i])
    requires job.project !in facts.tombstones
    requires Room(Purged(facts.rows, jobs, job.project), quota, job.project, stream[n..])
    ensures var (end, replies) := Retry(facts, jobs, quota, stream[pc..], auth, times);
            && AllAccepted(replies) && |replies| == |stream| - pc
            && HoldsPrefix(end.rows, stream, job, shard, |stream|) && WholeStream(end.rows, job, shard, |stream|)
    decreases |stream| - pc
  {
    if pc < |stream| {
      var rest := stream[pc..];
      assert rest[0] == stream[pc] && rest[1..] == stream[pc + 1..];
      EmitStep(facts, jobs, quota, stream, job, shard, n, pc, auth, times[0], InTime);
      var (after, reply) := Put(facts, jobs, quota, stream[pc], auth, times[0], InTime);
      if pc == n { StoredInRoom(facts, jobs, quota, stream[pc], rest, auth, times[0]); }
      RetryAlone(after, jobs, quota, stream, job, shard, if after == facts then n else n + 1, pc + 1, auth, times[1..]);
    }
  }
}
