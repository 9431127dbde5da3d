/** Whole runs that take the two state changes the transition relation does not list. */
module WitnessRuns {
  import opened Prelude
  import opened Protocol
  import opened Ordering
  import opened Coordinator
  import opened JobInvariant
  import opened DataPlane
  import opened Receipts
  import opened ClaimOrder
  import opened Completion
  import opened Transitions

  /** Two attempts, leases of one millisecond, ten milliseconds in all. */
  const TERMS: CoordinatorLimits := Limits(2, 1, 10)

  function KeyOf(spec: JobSpec): JobKey { JobKey(spec.input.ProjectOf(), spec.idempotencyKey) }

  function SubmitAt0(spec: JobSpec): Action
  {
    DoSubmit(TERMS, SubmitRequest(CONTROL_PROTOCOL_VERSION, "", spec.input.ProjectOf(), spec), 0)
  }

  function ClaimAt(spec: JobSpec, worker: string, now: int): Action
  {
    DoClaim(TERMS, ClaimRequest(CONTROL_PROTOCOL_VERSION, "", spec.input.ProjectOf(), spec.kind, worker), now)
  }

  /** The first claimant's requests. */
  function Holder(spec: JobSpec): LeaseRequest
  {
    var job := JobRef(spec.input.ProjectOf(), spec.idempotencyKey, spec.kind);
    LeaseRequest(CONTROL_PROTOCOL_VERSION, "", job, "worker-a", 1)
  }

  function AdvanceAt0(spec: JobSpec, phase: Phase): Action { DoLease(Advancing(phase), Holder(spec), 0) }

  function SweepAt(spec: JobSpec, now: int): Action
  {
    DoReclaim(ReclaimRequest(CONTROL_PROTOCOL_VERSION, "", spec.input.ProjectOf()), now)
  }

  // ---------------------------------------------------------------- one job, step by step

  lemma {:induction false} ExecAppend(cfg: Config, w: World, actions: seq<Action>, a: Action)
    ensures Exec(cfg, w, actions + [a]) == Apply(cfg, Exec(cfg, w, actions), a)
    decreases |actions|
  {
    if actions == [] {
      assert actions + [a] == [a] && [a][1..] == [];
    } else {
      assert (actions + [a])[1..] == actions[1..] + [a];
      ExecAppend(cfg, Apply(cfg, w, actions[0]), actions[1..], a);
    }
  }

  /** The database holds one job. */
  ghost predicate Only(w: World, k: JobKey, row: JobRow) { w.control.jobs == map[k := row] }

  lemma SubmittedAlone(cfg: Config, spec: JobSpec)
    requires spec.Valid()
    ensures Only(Exec(cfg, EMPTY, [SubmitAt0(spec)]), KeyOf(spec), NewRow(spec, 2, 0, 10))
  {
    var a := SubmitAt0(spec);
    assert [a][1..] == [];
    SubmitEffect(EMPTY.control, TERMS, a.submit, 0);
    NewRowOk(spec, 2, 0, 10);
    CommitCommits(EMPTY.control, JobRef(a.submit.project, spec.idempotencyKey, spec.kind), NewRow(spec, 2, 0, 10));
  }

  /** A lone job that the sweep leaves queued is next. */
  lemma AloneIsNext(k: JobKey, row: JobRow, now: int)
    requires RowOk(k, row) && ReclaimRow(row, now).state == Queued
    ensures var swept := Reclaimed(map[k := row], k.project, now);
            swept == map[k := ReclaimRow(row, now)] && NextQueued(swept, k.project, row.kind) == Some(k)
  {
    var swept := Reclaimed(map[k := row], k.project, now);
    assert swept == map[k := ReclaimRow(row, now)];
    ReclaimRowKeeps(k, row, now);
    LexTotal(k.jobId, k.jobId);
    NextIsUnique(swept, k.project, row.kind, k);
  }

  lemma AloneIsClaimed(db: Control, spec: JobSpec, row: JobRow, worker: string, now: int)
    requires JobsOk(db.jobs) && db.jobs == map[KeyOf(spec) := row] && row.kind == spec.kind && 0 <= now < 10
    requires ReclaimRow(row, now).state == Queued
    ensures Claim(db, TERMS, ClaimAt(spec, worker, now).claim, now).db.jobs ==
            map[KeyOf(spec) := Grant(ReclaimRow(row, now), worker, now + 1, now)]
  {
    var k := KeyOf(spec);
    assert k in db.jobs && RowOk(k, db.jobs[k]);
    AloneIsNext(k, row, now);
    ClaimGrants(db, TERMS, ClaimAt(spec, worker, now).claim, now, k);
  }

  lemma ClaimedAlone(cfg: Config, w: World, spec: JobSpec, row: JobRow, worker: string, now: int)
    requires Inv(cfg, w) && Only(w, KeyOf(spec), row) && row.kind == spec.kind && 0 <= now < 10
    requires ReclaimRow(row, now).state == Queued
    ensures Only(Apply(cfg, w, ClaimAt(spec, worker, now)), KeyOf(spec),
                 Grant(ReclaimRow(row, now), worker, now + 1, now))
  {
    AloneIsClaimed(w.control, spec, row, worker, now);
  }

  lemma AdvancedAlone(cfg: Config, w: World, spec: JobSpec, row: JobRow, phase: Phase)
    requires Settled(cfg, w) && Only(w, KeyOf(spec), row) && InPlace(w, Holder(spec), phase.Expected(), 0)
    ensures Only(Apply(cfg, w, AdvanceAt0(spec, phase)), KeyOf(spec), Moved(row, phase.Next(), phase.Finish?, 0))
  {
    var req := Holder(spec);
    Unshadowed(w.control, AdvanceKeyOf(req, phase.Expected(), phase.Next()));
    AdvanceSucceedsIff(w.control, phase, req, 0);
  }

  function LeasedRow(spec: JobSpec): JobRow { Grant(NewRow(spec, 2, 0, 10), "worker-a", 1, 0) }
  function RunningRow(spec: JobSpec): JobRow { Moved(LeasedRow(spec), Running, false, 0) }
  function PublishingRow(spec: JobSpec): JobRow { Moved(RunningRow(spec), Publishing, false, 0) }

  lemma RunLeased(cfg: Config, spec: JobSpec)
    requires spec.Valid()
    ensures Only(Exec(cfg, EMPTY, [SubmitAt0(spec), ClaimAt(spec, "worker-a", 0)]), KeyOf(spec), LeasedRow(spec))
  {
    var submit, claim := SubmitAt0(spec), ClaimAt(spec, "worker-a", 0);
    SubmittedAlone(cfg, spec);
    ReachableInv(cfg, [submit]);
    ClaimedAlone(cfg, Exec(cfg, EMPTY, [submit]), spec, NewRow(spec, 2, 0, 10), "worker-a", 0);
    ExecAppend(cfg, EMPTY, [submit], claim);
    assert [submit] + [claim] == [submit, claim];
  }

  /** Submitted, claimed and started. */
  function ToRunning(spec: JobSpec): seq<Action>
  {
    [SubmitAt0(spec), ClaimAt(spec, "worker-a", 0), AdvanceAt0(spec, Start)]
  }

  lemma RunRunning(cfg: Config, spec: JobSpec)
    requires spec.Valid()
    ensures Only(Exec(cfg, EMPTY, ToRunning(spec)), KeyOf(spec), RunningRow(spec))
  {
    var before := [SubmitAt0(spec), ClaimAt(spec, "worker-a", 0)];
    RunLeased(cfg, spec);
    ReachableReceiptsSpent(cfg, before);
    AdvancedAlone(cfg, Exec(cfg, EMPTY, before), spec, LeasedRow(spec), Start);
    ExecAppend(cfg, EMPTY, before, AdvanceAt0(spec, Start));
    assert before + [AdvanceAt0(spec, Start)] == ToRunning(spec);
  }

  function ToPublishing(spec: JobSpec): seq<Action> { ToRunning(spec) + [AdvanceAt0(spec, BeginPublication)] }

  lemma RunPublishing(cfg: Config, spec: JobSpec)
    requires spec.Valid()
    ensures Only(Exec(cfg, EMPTY, ToPublishing(spec)), KeyOf(spec), PublishingRow(spec))
  {
    RunRunning(cfg, spec);
    ReachableReceiptsSpent(cfg, ToRunning(spec));
    AdvancedAlone(cfg, Exec(cfg, EMPTY, ToRunning(spec)), spec, RunningRow(spec), BeginPublication);
    ExecAppend(cfg, EMPTY, ToRunning(spec), AdvanceAt0(spec, BeginPublication));
  }

  // ---------------------------------------------------------------- the two changes

  /** The states of the job before and after one more action. */
  ghost predicate Changes(cfg: Config, before: seq<Action>, a: Action, k: JobKey, from: JobState, to: JobState)
  {
    var jobs, after := Exec(cfg, EMPTY, before).control.jobs, Exec(cfg, EMPTY, before + [a]).control.jobs;
    k in jobs && k in after && jobs[k].state == from && after[k].state == to
  }

  /** Submitted, claimed and started at once, a job whose lease ran out is taken over by the next claim: it
      goes from running to leased, and nobody ever sees it queued. */
  lemma ClaimSkipsQueued(cfg: Config, spec: JobSpec)
    requires spec.Valid()
    ensures Changes(cfg, ToRunning(spec), ClaimAt(spec, "worker-b", 1), KeyOf(spec), Running, Leased)
    ensures Unlisted(Running, Leased)
  {
    RunRunning(cfg, spec);
    ReachableInv(cfg, ToRunning(spec));
    ClaimedAlone(cfg, Exec(cfg, EMPTY, ToRunning(spec)), spec, RunningRow(spec), "worker-b", 1);
    ExecAppend(cfg, EMPTY, ToRunning(spec), ClaimAt(spec, "worker-b", 1));
  }

  /** A publishing job whose lease ran out is requeued by maintenance. */
  lemma PublishingIsRequeued(cfg: Config, spec: JobSpec)
    requires spec.Valid()
    ensures Changes(cfg, ToPublishing(spec), SweepAt(spec, 1), KeyOf(spec), Publishing, Queued)
    ensures Unlisted(Publishing, Queued)
  {
    RunPublishing(cfg, spec);
    ExecAppend(cfg, EMPTY, ToPublishing(spec), SweepAt(spec, 1));
  }
}
