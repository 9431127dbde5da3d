/** The control database and the fact store as one system: any interleaving of coordinator
    requests, publications, batch puts and tombstone changes. */
module DataPlane {
  import opened Prelude
  import opened Protocol
  import opened Coordinator
  import opened JobInvariant
  import opened Publication
  import opened PublicationInvariant
  import opened FactStore
  import opened FactInvariant

  datatype World = World(control: Control, pubs: Publications, facts: Facts)

  datatype Config = Config(store: StoreLimits, quota: FactQuota)

  /** What a lease holder can ask of the coordinator. */
  datatype LeaseOp =
    | Advancing(phase: Phase)
    | Renewing(limits: CoordinatorLimits)
    | Failing(code: string, retryable: bool)

  /** One transaction of one client. Each carries its own clock reading and, for the coordinator, the
      limits of the instance that serves it. */
  datatype Action =
    | DoSubmit(limits: CoordinatorLimits, submit: SubmitRequest, now: int)
    | DoClaim(limits: CoordinatorLimits, claim: ClaimRequest, now: int)
    | DoLease(op: LeaseOp, req: LeaseRequest, now: int)
    | DoCancel(cancel: CancelRequest, now: int)
    | DoReclaim(reclaim: ReclaimRequest, now: int)
    | DoPublish(publish: PublishRequest, prepared: Result<Prepared, StoreError>, now: int)
    | DoPut(batch: Batch, auth: FactStore.Authority, now: int, timing: Timing)
    | SetTombstones(controlTombstones: set<Project>, factTombstones: set<Project>)

  function ApplyLease(db: Control, op: LeaseOp, req: LeaseRequest, now: int): Step<JobRecord>
  {
    match op
    case Advancing(phase) => AdvancePhase(db, phase, req, now)
    case Renewing(limits) => Heartbeat(db, limits, req, now)
    case Failing(code, retryable) => Fail(db, FailRequest(req, code, retryable), now)
  }

  ghost function ApplyControl(db: Control, a: Action): Control
  {
    match a
    case DoSubmit(limits, req, now) => Submit(db, limits, req, now).db
    case DoClaim(limits, req, now) => Claim(db, limits, req, now).db
    case DoLease(op, req, now) => ApplyLease(db, op, req, now).db
    case DoCancel(req, now) => Cancel(db, req, now).db
    case DoReclaim(req, now) => Reclaim(db, req, now).db
    case SetTombstones(control, _) => db.(tombstones := control)
    case _ => db
  }

  ghost function Apply(cfg: Config, w: World, a: Action): World
  {
    match a
    case DoPublish(req, prepared, now) => ApplyPublish(cfg, w, req, prepared, now)
    case DoPut(batch, auth, now, timing) =>
      w.(facts := Put(w.facts, w.control.jobs, cfg.quota, batch, auth, now, timing).0)
    case SetTombstones(_, facts) =>
      w.(control := ApplyControl(w.control, a), facts := w.facts.(tombstones := facts))
    case _ => w.(control := ApplyControl(w.control, a))
  }

  ghost function ApplyPublish(cfg: Config, w: World, req: PublishRequest, prepared: Result<Prepared, StoreError>,
                              now: int): World
  {
    match TryPublish(w.control, w.pubs, cfg.store, req, prepared, now)
    case Err(_) => w
    case Ok(c) => w.(control := c.control, pubs := c.pubs)
  }

  /** A run: any sequence of actions. */
  ghost function Exec(cfg: Config, w: World, actions: seq<Action>): World
    decreases |actions|
  {
    if actions == [] then w else Exec(cfg, Apply(cfg, w, actions[0]), actions[1..])
  }

  /** A run consists of the clients' own transactions: each action has exactly the effect of its request. */
  lemma ActionsAreRequests(cfg: Config, w: World, limits: CoordinatorLimits, submit: SubmitRequest, claim: ClaimRequest,
                           lease: LeaseRequest, phase: Phase, fail: FailRequest, cancel: CancelRequest,
                           reclaim: ReclaimRequest, now: int)
    ensures Apply(cfg, w, DoSubmit(limits, submit, now)) == w.(control := Submit(w.control, limits, submit, now).db)
    ensures Apply(cfg, w, DoClaim(limits, claim, now)) == w.(control := Claim(w.control, limits, claim, now).db)
    ensures Apply(cfg, w, DoLease(Advancing(phase), lease, now)) ==
            w.(control := AdvancePhase(w.control, phase, lease, now).db)
    ensures Apply(cfg, w, DoLease(Renewing(limits), lease, now)) ==
            w.(control := Heartbeat(w.control, limits, lease, now).db)
    ensures Apply(cfg, w, DoLease(Failing(fail.failureCode, fail.retryable), fail.lease, now)) ==
            w.(control := Fail(w.control, fail, now).db)
    ensures Apply(cfg, w, DoCancel(cancel, now)) == w.(control := Cancel(w.control, cancel, now).db)
    ensures Apply(cfg, w, DoReclaim(reclaim, now)) == w.(control := Reclaim(w.control, reclaim, now).db)
  {
  }

  const EMPTY: World :=
    World(Control(map[], map[], map[], {}), Publications(map[], map[], map[], map[], map[]), Facts(map[], {}))

  ghost predicate Inv(cfg: Config, w: World)
  {
    ControlOk(w.control) && PubsOk(w.control.jobs, w.pubs, cfg.store) && FactsOk(w.facts, cfg.quota)
  }

  ghost predicate WorldEvolves(a: World, b: World)
  {
    ControlEvolves(a.control, b.control) && PubsEvolve(a.pubs, b.pubs)
  }

  // ---------------------------------------------------------------- every step, every run

  lemma ApplyLeaseKeeps(db: Control, op: LeaseOp, req: LeaseRequest, now: int)
    requires ControlOk(db)
    ensures Keeps(db, ApplyLease(db, op, req, now))
  {
    match op
    case Advancing(phase) => AdvanceKeeps(db, phase, req, now);
    case Renewing(limits) => HeartbeatKeeps(db, limits, req, now);
    case Failing(code, retryable) => FailKeeps(db, FailRequest(req, code, retryable), now);
  }

  ghost predicate ControlKept(db: Control, a: Action)
  {
    ControlOk(ApplyControl(db, a)) && ControlEvolves(db, ApplyControl(db, a))
  }

  lemma ClaimKept(db: Control, a: Action)
    requires ControlOk(db) && a.DoClaim?
    ensures ControlKept(db, a)
  {
    ClaimKeeps(db, a.limits, a.claim, a.now);
  }

  lemma LeaseKept(db: Control, a: Action)
    requires ControlOk(db) && a.DoLease?
    ensures ControlKept(db, a)
  {
    ApplyLeaseKeeps(db, a.op, a.req, a.now);
  }

  lemma SweepKept(db: Control, a: Action)
    requires ControlOk(db) && a.DoReclaim?
    ensures ControlKept(db, a)
  {
    ReclaimedKeeps(db, a.reclaim.project, a.now);
  }

  lemma RequestKept(db: Control, a: Action)
    requires ControlOk(db) && (a.DoSubmit? || a.DoCancel?)
    ensures ControlKept(db, a)
  {
    if a.DoSubmit? { SubmitKeeps(db, a.limits, a.submit, a.now); } else { CancelKeeps(db, a.cancel, a.now); }
  }

  lemma ApplyControlKeeps(db: Control, a: Action)
    requires ControlOk(db)
    ensures ControlKept(db, a)
  {
    if a.DoClaim? { ClaimKept(db, a); }
    else if a.DoLease? { LeaseKept(db, a); }
    else if a.DoReclaim? { SweepKept(db, a); }
    else if a.DoSubmit? || a.DoCancel? { RequestKept(db, a); }
  }

  lemma ApplyPublishKeeps(cfg: Config, w: World, req: PublishRequest, prepared: Result<Prepared, StoreError>, now: int)
    requires Inv(cfg, w)
    ensures Inv(cfg, ApplyPublish(cfg, w, req, prepared, now))
        && WorldEvolves(w, ApplyPublish(cfg, w, req, prepared, now))
  {
    if TryPublish(w.control, w.pubs, cfg.store, req, prepared, now).Ok? {
      PublishKeeps(w.control, w.pubs, cfg.store, req, prepared, now);
    }
  }

  lemma ApplyKeeps(cfg: Config, w: World, a: Action)
    requires Inv(cfg, w)
    ensures Inv(cfg, Apply(cfg, w, a)) && WorldEvolves(w, Apply(cfg, w, a))
  {
    match a
    case DoPublish(req, prepared, now) => ApplyPublishKeeps(cfg, w, req, prepared, now);
    case DoPut(batch, auth, now, timing) =>
      PutKeeps(w.facts, w.control.jobs, cfg.quota, batch, auth, now, timing);
    case _ =>
      ApplyControlKeeps(w.control, a);
      PubsOkUnderControl(w.control, ApplyControl(w.control, a), w.pubs, cfg.store);
  }

  /** The invariant holds throughout every run, and every table only evolves. */
  lemma {:induction false} ExecKeeps(cfg: Config, w: World, actions: seq<Action>)
    requires Inv(cfg, w)
    ensures Inv(cfg, Exec(cfg, w, actions)) && WorldEvolves(w, Exec(cfg, w, actions))
    decreases |actions|
  {
    if actions != [] {
      var next := Apply(cfg, w, actions[0]);
      ApplyKeeps(cfg, w, actions[0]);
      ExecKeeps(cfg, next, actions[1..]);
      var last := Exec(cfg, w, actions);
      ControlEvolvesTransitive(w.control, next.control, last.control);
      PubsEvolveTransitive(w.pubs, next.pubs, last.pubs);
    }
  }

  /** The empty database satisfies the invariant, so every reachable state does. */
  lemma ReachableInv(cfg: Config, actions: seq<Action>)
    ensures Inv(cfg, Exec(cfg, EMPTY, actions))
  {
    ExecKeeps(cfg, EMPTY, actions);
  }
}
