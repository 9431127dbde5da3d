/** Lease fencing over whole runs. */
module Fencing {
  import opened Prelude
  import opened Protocol
  import opened Coordinator
  import opened JobInvariant
  import opened FactStore
  import opened DataPlane
  import opened Lifecycle

  /** The lease a worker request claims to hold. */
  datatype Bearer = Bearer(k: JobKey, worker: string, generation: nat, now: int)

  function BearerOf(a: Action): Option<Bearer>
  {
    match a
    case DoLease(_, req, now) => Some(Bearer(req.job.Key(), req.worker, req.generation, now))
    case DoPublish(req, _, now) => Some(Bearer(req.job.Key(), req.worker, req.generation, now))
    case DoPut(batch, auth, now, _) => Some(Bearer(batch.job.Key(), auth.worker, auth.generation, now))
    case _ => None
  }

  /** The row's current lease is the bearer's, and it is live. */
  predicate HeldBy(row: JobRow, b: Bearer)
  {
    && row.state.HoldsLease() && row.worker == Some(b.worker) && row.generation == b.generation
    && row.leaseUntil.Some? && b.now < row.leaseUntil.value <= row.deadlineAt
  }

  lemma WrittenByHolder(w: World, a: Action, k: JobKey, row: JobRow)
    requires JobsOk(w.control.jobs) && k in w.control.jobs && RowWritten(w, a, k, row) && BearerOf(a).Some?
    ensures BearerOf(a).value.k == k && HeldBy(w.control.jobs[k], BearerOf(a).value)
  {
    if a.DoLease? { Authorized(w.control.jobs, a.req, a.now); }
  }

  /** A worker request changes a row only if its worker and generation are that row's current live lease. */
  lemma OnlyTheHolderActs(cfg: Config, w: World, a: Action, k: JobKey)
    requires Inv(cfg, w) && k in w.control.jobs && BearerOf(a).Some?
    requires RowAfter(cfg, w, a, k) != w.control.jobs[k]
    ensures BearerOf(a).value.k == k && HeldBy(w.control.jobs[k], BearerOf(a).value)
  {
    RowEffect(cfg, w, a, k);
    WrittenByHolder(w, a, k, RowAfter(cfg, w, a, k));
  }

  /** Once generation `g` has acted on a job, no request bearing a smaller generation ever changes its
      row again, whatever happens in between. */
  lemma StaleGenerationNeverActs(cfg: Config, w: World, a: Action, between: seq<Action>, b: Action, k: JobKey)
    requires Inv(cfg, w) && k in w.control.jobs && BearerOf(a).Some? && BearerOf(b).Some?
    requires RowAfter(cfg, w, a, k) != w.control.jobs[k]
    requires BearerOf(b).value.generation < BearerOf(a).value.generation
    ensures var later := Exec(cfg, Apply(cfg, w, a), between);
            k in later.control.jobs && RowAfter(cfg, later, b, k) == later.control.jobs[k]
  {
    OnlyTheHolderActs(cfg, w, a, k);
    ApplyKeeps(cfg, w, a);
    ExecKeeps(cfg, Apply(cfg, w, a), between);
    StaleIsIgnored(cfg, Exec(cfg, Apply(cfg, w, a), between), b, k);
  }

  lemma StaleIsIgnored(cfg: Config, w: World, b: Action, k: JobKey)
    requires Inv(cfg, w) && k in w.control.jobs && BearerOf(b).Some?
    requires BearerOf(b).value.generation < w.control.jobs[k].generation
    ensures RowAfter(cfg, w, b, k) == w.control.jobs[k]
  {
    if RowAfter(cfg, w, b, k) != w.control.jobs[k] { OnlyTheHolderActs(cfg, w, b, k); }
  }

  // ---------------------------------------------------------------- grants

  /** The claim hands generation `g` of job `k` to `worker`. */
  ghost predicate Grants(w: World, a: Action, k: JobKey, worker: string, g: nat)
  {
    a.DoClaim? &&
    match Claim(w.control, a.limits, a.claim, a.now).reply
    case Ok(Some(record)) =>
      record.job.Key() == k && record.lease.Some? && record.lease.value.worker == worker
          && record.lease.value.generation == g
    case _ => false
  }

  /** A granted generation is one higher than any before it, belongs to the claimant, and is live when granted. */
  lemma GrantIsNew(w: World, a: Action, k: JobKey, worker: string, g: nat)
    requires JobsOk(w.control.jobs) && Grants(w, a, k, worker, g)
    ensures k in w.control.jobs && w.control.jobs[k].generation + 1 == g && worker == a.claim.worker
    ensures var jobs := Claim(w.control, a.limits, a.claim, a.now).db.jobs;
            && k in jobs && jobs[k].generation == g && HeldBy(jobs[k], Bearer(k, worker, g, a.now))
            && jobs[k].leaseUntil == Some(Min(a.now + a.limits.leaseTtl, jobs[k].deadlineAt))
  {
    var next := NextQueued(Reclaimed(w.control.jobs, a.claim.project, a.now), a.claim.project, a.claim.kind);
    if next.Some? { ClaimGrants(w.control, a.limits, a.claim, a.now, next.value); }
  }

  /** Generations of one job are granted in strictly increasing order over any run: none is granted
      twice, so each has exactly one worker. */
  lemma EachGenerationGrantedOnce(cfg: Config, w: World, a: Action, between: seq<Action>, b: Action,
                                  k: JobKey, first: string, g: nat, second: string, h: nat)
    requires Inv(cfg, w) && Grants(w, a, k, first, g)
    requires Grants(Exec(cfg, Apply(cfg, w, a), between), b, k, second, h)
    ensures g < h
  {
    GrantIsNew(w, a, k, first, g);
    ApplyKeeps(cfg, w, a);
    var later := Exec(cfg, Apply(cfg, w, a), between);
    ExecKeeps(cfg, Apply(cfg, w, a), between);
    GrantIsNew(later, b, k, second, h);
  }

  /** Within one generation the lease never changes hands. */
  lemma GenerationHasOneHolder(cfg: Config, w: World, actions: seq<Action>, k: JobKey, x: Bearer, y: Bearer)
    requires Inv(cfg, w) && k in w.control.jobs && HeldBy(w.control.jobs[k], x)
    requires k in Exec(cfg, w, actions).control.jobs && HeldBy(Exec(cfg, w, actions).control.jobs[k], y)
    requires x.generation == y.generation
    ensures x.worker == y.worker
  {
    ExecKeeps(cfg, w, actions);
  }

  // ---------------------------------------------------------------- across the two databases

  /** The fact store's weaker reading of a lease implies the coordinator's full check: it never looks at
      the deadline and clamps oversized generations, and neither can matter in a reachable state. */
  lemma WritableIsAuthorized(jobs: Jobs, job: JobRef, auth: FactStore.Authority, now: int)
    requires JobsOk(jobs)
    ensures var req := LeaseRequest(CONTROL_PROTOCOL_VERSION, "", job, auth.worker, auth.generation);
            Writable(jobs, job, auth, now) <==>
              Authorize(jobs, req, now).Ok? && Authorize(jobs, req, now).value.state == Running
  {
    Authorized(jobs, LeaseRequest(CONTROL_PROTOCOL_VERSION, "", job, auth.worker, auth.generation), now);
  }

  /** Every newly stored batch was written by the live holder of a running job. */
  lemma StoredByRunningHolder(cfg: Config, w: World, a: Action)
    requires Inv(cfg, w) && a.DoPut?
    requires Put(w.facts, w.control.jobs, cfg.quota, a.batch, a.auth, a.now, a.timing).0 != w.facts
    ensures var k := a.batch.job.Key();
            && k in w.control.jobs && w.control.jobs[k].state == Running
            && HeldBy(w.control.jobs[k], Bearer(k, a.auth.worker, a.auth.generation, a.now))
  {
    FactInvariant.PutOnlyStoresOnce(w.facts, w.control.jobs, cfg.quota, a.batch, a.auth, a.now, a.timing);
  }
}
