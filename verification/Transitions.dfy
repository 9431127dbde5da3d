/** Exactly when a state change leaves the protocol's transition relation. */
module Transitions {
  import opened Protocol
  import opened Coordinator
  import opened JobInvariant
  import opened DataPlane
  import opened Lifecycle
  import opened ClaimOrder

  /** The state a job that goes well is in next. */
  predicate Succeeds(a: JobState, b: JobState)
  {
    || (a == Queued && b == Leased) || (a == Leased && b == Running)
    || (a == Running && b == Publishing) || (a == Publishing && b == Complete)
  }

  /** The relation: a live job may go on to its next state, fail or be cancelled, and one that was leased or
      is running may go back to the queue; nothing leaves a terminal state. */
  lemma RelationMeaning(a: JobState, b: JobState)
    ensures a.CanTransitionTo(b) <==>
              && a !in {Complete, Failed, Cancelled}
              && (Succeeds(a, b) || b in {Failed, Cancelled} || (b == Queued && a in {Leased, Running}))
  {
  }

  /** A change of state the protocol's relation does not list. */
  predicate Unlisted(a: JobState, b: JobState) { a != b && !a.CanTransitionTo(b) }

  /** The sweep's own guard for requeueing: the lease has run out, but neither the deadline nor the attempts. */
  predicate Requeueable(row: JobRow, now: int)
  {
    && row.state.HoldsLease() && row.leaseUntil.Some? && row.leaseUntil.value <= now < row.deadlineAt
    && row.attempt < row.maxAttempts
  }

  /** A well-formed request that sweeps the project: maintenance, or a claim. */
  predicate Sweeps(a: Action, project: Project)
  {
    || (a.DoReclaim? && a.reclaim.protocolVersion == CONTROL_PROTOCOL_VERSION && a.reclaim.project == project)
    || (&& a.DoClaim? && a.claim.protocolVersion == CONTROL_PROTOCOL_VERSION && a.claim.project == project
        && After(a.now, a.limits.leaseTtl).Some?)
  }

  // ---------------------------------------------------------------- one row

  /** A sweep leaves the relation exactly on an expired, requeueable publishing row. */
  lemma SweepUnlistedIff(k: JobKey, r: JobRow, now: int)
    requires RowOk(k, r)
    ensures Unlisted(r.state, ReclaimRow(r, now).state) <==> r.state == Publishing && Requeueable(r, now)
    ensures r.state.HoldsLease() && ReclaimRow(r, now).state == Queued <==> Requeueable(r, now)
    ensures Requeueable(r, now) ==> ReclaimRow(r, now) != r
  {
  }

  /** The claim is well formed and, of the swept jobs, takes this one. */
  ghost predicate Takes(jobs: Jobs, a: Action, k: JobKey)
  {
    && a.DoClaim? && Sweeps(a, a.claim.project)
    && IsNext(Reclaimed(jobs, a.claim.project, a.now), a.claim.project, a.claim.kind, k)
  }

  lemma TakenRow(db: Control, a: Action, k: JobKey)
    requires JobsOk(db.jobs) && k in db.jobs && Takes(db.jobs, a, k)
    ensures var jobs, swept := Claim(db, a.limits, a.claim, a.now).db.jobs, Reclaimed(db.jobs, a.claim.project, a.now);
            && k in jobs && swept[k].state == Queued && k.project == a.claim.project
            && jobs[k] == Grant(swept[k], a.claim.worker, a.now + a.limits.leaseTtl, a.now)
  {
    NextIsUnique(Reclaimed(db.jobs, a.claim.project, a.now), a.claim.project, a.claim.kind, k);
    ClaimGrants(db, a.limits, a.claim, a.now, k);
  }

  lemma LeftRow(db: Control, a: Action, k: JobKey)
    requires JobsOk(db.jobs) && k in db.jobs && a.DoClaim? && Sweeps(a, a.claim.project) && !Takes(db.jobs, a, k)
    ensures var jobs := Claim(db, a.limits, a.claim, a.now).db.jobs;
            k in jobs && jobs[k] == Reclaimed(db.jobs, a.claim.project, a.now)[k]
  {
    var next := NextQueued(Reclaimed(db.jobs, a.claim.project, a.now), a.claim.project, a.claim.kind);
    if next.Some? { ClaimGrants(db, a.limits, a.claim, a.now, next.value); }
  }

  /** What a sweeping request leaves of a row, exactly. */
  lemma SweptRow(db: Control, a: Action, k: JobKey)
    requires JobsOk(db.jobs) && k in db.jobs && Sweeps(a, k.project)
    ensures var jobs, swept := ApplyControl(db, a).jobs, ReclaimRow(db.jobs[k], a.now);
            && k in jobs
            && (!Takes(db.jobs, a, k) ==> jobs[k] == swept)
            && (Takes(db.jobs, a, k) ==>
                  && swept.state == Queued
                  && jobs[k] == Grant(swept, a.claim.worker, a.now + a.limits.leaseTtl, a.now))
  {
    if a.DoClaim? {
      if Takes(db.jobs, a, k) { TakenRow(db, a, k); } else { LeftRow(db, a, k); }
    }
  }

  /** A request that does not sweep the row's project makes listed changes only. */
  lemma OtherRow(cfg: Config, w: World, a: Action, k: JobKey)
    requires Inv(cfg, w) && k in w.control.jobs && !Sweeps(a, k.project)
    ensures var row := RowAfter(cfg, w, a, k);
            row == w.control.jobs[k] || (!a.DoClaim? && !a.DoReclaim? && LegalUpdate(a, w.control.jobs[k], row))
  {
    RowEffect(cfg, w, a, k);
    var row := RowAfter(cfg, w, a, k);
    if a.DoClaim? || a.DoReclaim? {
      UnsweptRow(w.control, a, k);
    } else if row != w.control.jobs[k] {
      WrittenLegal(w, a, k, row);
    }
  }

  lemma UnsweptRow(db: Control, a: Action, k: JobKey)
    requires JobsOk(db.jobs) && k in db.jobs && !Sweeps(a, k.project) && (a.DoClaim? || a.DoReclaim?)
    ensures var jobs := ApplyControl(db, a).jobs; k in jobs && jobs[k] == db.jobs[k]
  {
    if a.DoClaim? { ClaimedRow(db, a.limits, a.claim, a.now, k); }
  }

  // ---------------------------------------------------------------- committed states

  /** The states before and after a transaction are outside the relation exactly when a sweep requeues an
      expired publishing job, or a claim sweeps an expired running job and takes it back at once. */
  lemma CommittedUnlistedIff(cfg: Config, w: World, a: Action, k: JobKey)
    requires Inv(cfg, w) && k in w.control.jobs
    ensures var row := w.control.jobs[k];
            Unlisted(row.state, RowAfter(cfg, w, a, k).state) <==>
              && Sweeps(a, k.project) && Requeueable(row, a.now)
              && (row.state == Publishing || (row.state == Running && Takes(w.control.jobs, a, k)))
  {
    if Sweeps(a, k.project) {
      SweepUnlistedIff(k, w.control.jobs[k], a.now);
      SweptRow(w.control, a, k);
    } else {
      OtherRow(cfg, w, a, k);
    }
  }

  // ---------------------------------------------------------------- single updates

  /** Some update of the chain leaves the relation. */
  ghost predicate LeavesRelation(chain: seq<JobRow>)
  {
    exists i :: 0 <= i < |chain| - 1 && Unlisted(chain[i].state, chain[i + 1].state)
  }

  lemma ChainUnlistedIff(a: Action, k: JobKey, before: JobRow, after: JobRow)
    ensures var claimed := a.DoClaim? && k.project == a.claim.project && after != before;
            var mid := if claimed then ReclaimRow(before, a.now) else after;
            LeavesRelation(Updates(a, k, before, after)) <==>
                Unlisted(before.state, mid.state) || Unlisted(mid.state, after.state)
  {
    var claimed := a.DoClaim? && k.project == a.claim.project && after != before;
    var mid := if claimed then ReclaimRow(before, a.now) else after;
    var chain := Updates(a, k, before, after);
    if Unlisted(before.state, mid.state) { assert Unlisted(chain[0].state, chain[1].state); }
    if Unlisted(mid.state, after.state) {
      var i := |chain| - 2;
      assert Unlisted(chain[i].state, chain[i + 1].state);
    }
  }

  /** An update of a reachable row leaves the relation exactly when maintenance, or a claim's sweep, requeues
      a publishing job whose lease ran out before its deadline with attempts left. */
  lemma UpdateUnlistedIff(cfg: Config, w: World, a: Action, k: JobKey)
    requires Inv(cfg, w) && k in w.control.jobs
    ensures var row := w.control.jobs[k];
            LeavesRelation(RowTrace(cfg, w, a, k)) <==>
                Sweeps(a, k.project) && row.state == Publishing && Requeueable(row, a.now)
  {
    var before, after := w.control.jobs[k], RowAfter(cfg, w, a, k);
    ChainUnlistedIff(a, k, before, after);
    if Sweeps(a, k.project) {
      SweepUnlistedIff(k, before, a.now);
      SweptRow(w.control, a, k);
    } else {
      OtherRow(cfg, w, a, k);
    }
  }
}
