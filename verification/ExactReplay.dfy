/** Exact replay: an answered request can be repeated at any later time and gets the same answer. */
module ExactReplay {
  import opened Prelude
  import opened Protocol
  import opened Coordinator
  import opened JobInvariant
  import opened Publication
  import opened PublicationInvariant
  import opened DataPlane
  import opened Receipts

  /** The same request under any request id. */
  predicate SameLeaseRequest(a: LeaseRequest, b: LeaseRequest) { b == a.(requestId := b.requestId) }

  // ---------------------------------------------------------------- forward transitions

  /** A successful transition leaves behind the receipt of its own answer. */
  lemma AdvanceRecords(db: Control, phase: Phase, req: LeaseRequest, now: int)
    requires ControlOk(db) && AdvancePhase(db, phase, req, now).reply.Ok?
    ensures var step, a := AdvancePhase(db, phase, req, now), AdvanceKeyOf(req, phase.Expected(), phase.Next());
            && a in step.db.advances && step.db.advances[a] == step.reply.value && step.reply.value.job == req.job
    ensures req.protocolVersion == CONTROL_PROTOCOL_VERSION && req.generation <= I64_MAX
  {
    AdvanceEffect(db, phase, req, now);
    Authorized(db.jobs, req, now);
  }

  lemma AdvanceFromReceipt(db: Control, phase: Phase, req: LeaseRequest, now: int, record: JobRecord)
    requires ControlOk(db) && req.protocolVersion == CONTROL_PROTOCOL_VERSION && req.generation <= I64_MAX
    requires var a := AdvanceKeyOf(req, phase.Expected(), phase.Next()); a in db.advances && db.advances[a] == record
    requires record.job == req.job
    ensures AdvancePhase(db, phase, req, now) == Step(db, Ok(record))
  {
  }

  lemma AdvanceReceiptLasts(cfg: Config, w: World, phase: Phase, req: LeaseRequest, record: JobRecord,
                            between: seq<Action>, later: int)
    requires Inv(cfg, w) && req.protocolVersion == CONTROL_PROTOCOL_VERSION && req.generation <= I64_MAX
        && record.job == req.job
    requires var a := AdvanceKeyOf(req, phase.Expected(), phase.Next());
             a in w.control.advances && w.control.advances[a] == record
    ensures var end := Exec(cfg, w, between).control; AdvancePhase(end, phase, req, later) == Step(end, Ok(record))
  {
    ExecKeeps(cfg, w, between);
    AdvanceFromReceipt(Exec(cfg, w, between).control, phase, req, later, record);
  }

  /** A start, begin-publication or complete that once succeeded answers identically forever after, under
      any request id and at any time, and changes nothing. */
  lemma AdvanceReplays(cfg: Config, w: World, phase: Phase, req: LeaseRequest, now: int,
                       between: seq<Action>, again: LeaseRequest, later: int)
    requires Inv(cfg, w) && AdvancePhase(w.control, phase, req, now).reply.Ok? && SameLeaseRequest(req, again)
    ensures var end := Exec(cfg, Apply(cfg, w, DoLease(Advancing(phase), req, now)), between).control;
            AdvancePhase(end, phase, again, later) == Step(end, AdvancePhase(w.control, phase, req, now).reply)
  {
    var a := DoLease(Advancing(phase), req, now);
    AdvanceRecords(w.control, phase, req, now);
    ApplyKeeps(cfg, w, a);
    AdvanceReceiptLasts(cfg, Apply(cfg, w, a), phase, again, AdvancePhase(w.control, phase, req, now).reply.value,
                        between, later);
  }

  // ---------------------------------------------------------------- failures

  lemma FailRecords(db: Control, req: FailRequest, now: int)
    requires ControlOk(db) && Fail(db, req, now).reply.Ok?
    ensures var step, f := Fail(db, req, now), FailureKeyOf(req);
            && f in step.db.failures && step.db.failures[f] == step.reply.value && step.reply.value.job == req.lease.job
    ensures req.lease.protocolVersion == CONTROL_PROTOCOL_VERSION && req.lease.generation <= I64_MAX
  {
    FailEffect(db, req, now);
    Authorized(db.jobs, req.lease, now);
  }

  lemma FailFromReceipt(db: Control, req: FailRequest, now: int, record: JobRecord)
    requires ControlOk(db) && req.lease.protocolVersion == CONTROL_PROTOCOL_VERSION && req.lease.generation <= I64_MAX
    requires FailureKeyOf(req) in db.failures && db.failures[FailureKeyOf(req)] == record && record.job == req.lease.job
    ensures Fail(db, req, now) == Step(db, Ok(record))
  {
  }

  lemma FailureReceiptLasts(cfg: Config, w: World, req: FailRequest, record: JobRecord, between: seq<Action>,
                            later: int)
    requires Inv(cfg, w) && req.lease.protocolVersion == CONTROL_PROTOCOL_VERSION && req.lease.generation <= I64_MAX
    requires FailureKeyOf(req) in w.control.failures && w.control.failures[FailureKeyOf(req)] == record
        && record.job == req.lease.job
    ensures var end := Exec(cfg, w, between).control; Fail(end, req, later) == Step(end, Ok(record))
  {
    ExecKeeps(cfg, w, between);
    FailFromReceipt(Exec(cfg, w, between).control, req, later, record);
  }

  lemma ApplyFail(cfg: Config, w: World, req: FailRequest, now: int)
    ensures Apply(cfg, w, DoLease(Failing(req.failureCode, req.retryable), req.lease, now)).control ==
        Fail(w.control, req, now).db
  {
    assert FailRequest(req.lease, req.failureCode, req.retryable) == req;
  }

  /** A reported failure answers identically forever after, even once a later worker owns the job. */
  lemma FailReplays(cfg: Config, w: World, req: FailRequest, now: int, between: seq<Action>, again: LeaseRequest,
                    later: int)
    requires Inv(cfg, w) && Fail(w.control, req, now).reply.Ok? && SameLeaseRequest(req.lease, again)
    ensures var a := DoLease(Failing(req.failureCode, req.retryable), req.lease, now);
            var end := Exec(cfg, Apply(cfg, w, a), between).control;
            Fail(end, req.(lease := again), later) == Step(end, Fail(w.control, req, now).reply)
  {
    var a := DoLease(Failing(req.failureCode, req.retryable), req.lease, now);
    FailRecords(w.control, req, now);
    ApplyFail(cfg, w, req, now);
    ApplyKeeps(cfg, w, a);
    FailureReceiptLasts(cfg, Apply(cfg, w, a), req.(lease := again), Fail(w.control, req, now).reply.value, between,
                        later);
  }

  // ---------------------------------------------------------------- every stored receipt

  /** The request a receipt answers, under any request id. */
  function AdvanceRequestOf(a: AdvanceKey, record: JobRecord, requestId: string): LeaseRequest
  {
    LeaseRequest(CONTROL_PROTOCOL_VERSION, requestId, record.job, a.worker, a.generation)
  }

  function FailRequestOf(f: FailureKey, record: JobRecord, requestId: string): FailRequest
  {
    FailRequest(LeaseRequest(CONTROL_PROTOCOL_VERSION, requestId, record.job, f.worker, f.generation), f.failureCode,
                f.retryable)
  }

  /** A receipt of a settled world names its own request: nothing about it can fail its load check. */
  lemma AdvanceReceiptFits(cfg: Config, w: World, a: AdvanceKey, requestId: string)
    requires Settled(cfg, w) && a in w.control.advances
    ensures PhaseOf(a).Some? && a.generation <= I64_MAX
    ensures var record, phase := w.control.advances[a], PhaseOf(a).value;
            AdvanceKeyOf(AdvanceRequestOf(a, record, requestId), phase.Expected(), phase.Next()) == a
  {
    assert AdvanceSpent(w.control.jobs, a) && RowOk(a.job, w.control.jobs[a.job]);
    assert SoundReceipt(w.control.advances[a], a.job);
  }

  lemma FailureReceiptFits(cfg: Config, w: World, f: FailureKey, requestId: string)
    requires Settled(cfg, w) && f in w.control.failures
    ensures f.generation <= I64_MAX && FailureKeyOf(FailRequestOf(f, w.control.failures[f], requestId)) == f
  {
    assert FailureSpent(w.control.jobs, f) && RowOk(f.job, w.control.jobs[f.job]);
    assert SoundReceipt(w.control.failures[f], f.job);
  }

  /** Every stored transition receipt answers its request from then on, after any run: no run overwrites it
      and it never fails the check its own replay performs. */
  lemma AdvanceReceiptsLoadForever(cfg: Config, before: seq<Action>, actions: seq<Action>, a: AdvanceKey,
                                   requestId: string, now: int)
    requires a in Exec(cfg, EMPTY, before).control.advances
    ensures PhaseOf(a).Some?
    ensures var w := Exec(cfg, EMPTY, before); var end := Exec(cfg, w, actions).control;
            var record := w.control.advances[a];
            AdvancePhase(end, PhaseOf(a).value, AdvanceRequestOf(a, record, requestId), now) == Step(end, Ok(record))
  {
    var w := Exec(cfg, EMPTY, before);
    ReachableReceiptsSpent(cfg, before);
    AdvanceReceiptFits(cfg, w, a, requestId);
    AdvanceReceiptLasts(cfg, w, PhaseOf(a).value, AdvanceRequestOf(a, w.control.advances[a], requestId),
                        w.control.advances[a], actions, now);
  }

  /** And every stored failure receipt answers its own. */
  lemma FailureReceiptsLoadForever(cfg: Config, before: seq<Action>, actions: seq<Action>, f: FailureKey,
                                   requestId: string, now: int)
    requires f in Exec(cfg, EMPTY, before).control.failures
    ensures var w := Exec(cfg, EMPTY, before); var end := Exec(cfg, w, actions).control;
            var record := w.control.failures[f];
            Fail(end, FailRequestOf(f, record, requestId), now) == Step(end, Ok(record))
  {
    var w := Exec(cfg, EMPTY, before);
    ReachableReceiptsSpent(cfg, before);
    FailureReceiptFits(cfg, w, f, requestId);
    FailureReceiptLasts(cfg, w, FailRequestOf(f, w.control.failures[f], requestId), w.control.failures[f], actions,
                        now);
  }

  // ---------------------------------------------------------------- publications

  lemma PublishRecords(db: Control, pubs: Publications, limits: StoreLimits, req: PublishRequest,
                       prepared: Result<Prepared, StoreError>, now: int)
    requires ControlOk(db) && PubsOk(db.jobs, pubs, limits) && TryPublish(db, pubs, limits, req, prepared, now).Ok?
    ensures var c, k := TryPublish(db, pubs, limits, req, prepared, now).value, req.job.Key();
            && req.Valid() && k in c.pubs.receipts
            && c.pubs.receipts[k].request == req.Canonical() && c.pubs.receipts[k].outcome == c.outcome
  {
    PublishEffect(db, pubs, limits, req, prepared, now);
  }

  lemma PublishFromReceipt(cfg: Config, w: World, req: PublishRequest, prepared: Result<Prepared, StoreError>, now: int)
    requires PubsOk(w.control.jobs, w.pubs, cfg.store) && req.Valid()
    requires req.job.Key() in w.pubs.receipts && w.pubs.receipts[req.job.Key()].request == req.Canonical()
    ensures TryPublish(w.control, w.pubs, cfg.store, req, prepared, now) ==
            if req.project in w.control.tombstones then Err(StoreProjectDeleted)
            else Ok(Committed(w.control, w.pubs, w.pubs.receipts[req.job.Key()].outcome))
  {
  }

  /** A finished publication replays its original outcome, even after the view has moved on and whatever
      batches the retry supplies, exactly while the project carries no tombstone. */
  lemma PublishReplays(cfg: Config, w: World, req: PublishRequest, prepared: Result<Prepared, StoreError>, now: int,
                       between: seq<Action>, again: PublishRequest, supplied: Result<Prepared, StoreError>, later: int)
    requires Inv(cfg, w) && TryPublish(w.control, w.pubs, cfg.store, req, prepared, now).Ok?
    requires again == req.(requestId := again.requestId)
    ensures var end := Exec(cfg, Apply(cfg, w, DoPublish(req, prepared, now)), between);
            TryPublish(end.control, end.pubs, cfg.store, again, supplied, later) ==
            if req.project in end.control.tombstones then Err(StoreProjectDeleted)
            else Ok(Committed(end.control, end.pubs,
                              TryPublish(w.control, w.pubs, cfg.store, req, prepared, now).value.outcome))
  {
    var a := DoPublish(req, prepared, now);
    PublishRecords(w.control, w.pubs, cfg.store, req, prepared, now);
    ApplyKeeps(cfg, w, a);
    ExecKeeps(cfg, Apply(cfg, w, a), between);
    PublishFromReceipt(cfg, Exec(cfg, Apply(cfg, w, a), between), again, supplied, later);
  }
}
