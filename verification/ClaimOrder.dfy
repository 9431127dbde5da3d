/** The order in which queued jobs are claimed. */
module ClaimOrder {
  import opened Prelude
  import opened Protocol
  import opened Ordering
  import opened Coordinator
  import opened JobInvariant

  lemma NotAfterTotal(jobs: Jobs, a: JobKey, b: JobKey)
    requires a in jobs && b in jobs && a.project == b.project
    ensures NotAfter(jobs, a, b) || NotAfter(jobs, b, a)
    ensures NotAfter(jobs, a, b) && NotAfter(jobs, b, a) ==> a == b
  {
    LexTotal(a.jobId, b.jobId);
  }

  lemma NotAfterTransitive(jobs: Jobs, a: JobKey, b: JobKey, c: JobKey)
    requires a in jobs && b in jobs && c in jobs && NotAfter(jobs, a, b) && NotAfter(jobs, b, c)
    ensures NotAfter(jobs, a, c)
  {
    if LexLeq(a.jobId, b.jobId) && LexLeq(b.jobId, c.jobId) { LexTransitive(a.jobId, b.jobId, c.jobId); }
  }

  /** The next job is unique, so the query names it. */
  lemma NextIsUnique(jobs: Jobs, project: Project, kind: JobKind, k: JobKey)
    requires IsNext(jobs, project, kind, k)
    ensures NextQueued(jobs, project, kind) == Some(k)
  {
    NotAfterTotal(jobs, k, NextQueued(jobs, project, kind).value);
  }

  ghost predicate BestOf(jobs: Jobs, project: Project, kind: JobKind, seen: set<JobKey>, best: Option<JobKey>)
  {
    && (best.Some? ==> Claimable(jobs, project, kind, best.value))
    && (forall k :: k in seen && Claimable(jobs, project, kind, k) ==> best.Some? && NotAfter(jobs, best.value, k))
  }

  lemma BetterStaysBest(jobs: Jobs, project: Project, kind: JobKind, seen: set<JobKey>, best: Option<JobKey>, k: JobKey)
    requires BestOf(jobs, project, kind, seen, best) && Claimable(jobs, project, kind, k)
    requires best.Some? ==> !NotAfter(jobs, best.value, k)
    ensures BestOf(jobs, project, kind, seen + {k}, Some(k))
  {
    NotAfterTotal(jobs, k, k);
    forall o | o in seen && Claimable(jobs, project, kind, o) ensures NotAfter(jobs, k, o) {
      NotAfterTotal(jobs, best.value, k);
      NotAfterTransitive(jobs, k, best.value, o);
    }
  }

  lemma {:induction false} BestExists(jobs: Jobs, project: Project, kind: JobKind, seen: set<JobKey>)
    returns (best: Option<JobKey>)
    requires seen <= jobs.Keys
    ensures BestOf(jobs, project, kind, seen, best)
  {
    if seen == {} {
      best := None;
    } else {
      var k :| k in seen;
      best := BestExists(jobs, project, kind, seen - {k});
      assert seen - {k} + {k} == seen;
      if Claimable(jobs, project, kind, k) && (best.None? || !NotAfter(jobs, best.value, k)) {
        BetterStaysBest(jobs, project, kind, seen - {k}, best, k);
        best := Some(k);
      }
    }
  }

  /** A queued job of the kind and project the request asks for. */
  predicate Waits(row: JobRow, k: JobKey, req: ClaimRequest)
  {
    k.project == req.project && row.kind == req.kind && row.state == Queued && !row.cancellationRequested
  }

  /** Created earlier, or at the same time under an id that does not come later. */
  predicate NoLater(jobs: Jobs, a: JobKey, b: JobKey)
    requires a in jobs && b in jobs
  {
    if jobs[a].createdAt == jobs[b].createdAt then LexLeq(a.jobId, b.jobId) else jobs[a].createdAt < jobs[b].createdAt
  }

  /** A claim comes back empty exactly when nothing is left to claim after the sweep; otherwise it leases
      the oldest such job, ties broken by id. */
  lemma ClaimServesTheOldest(db: Control, limits: CoordinatorLimits, req: ClaimRequest, now: int)
    requires JobsOk(db.jobs) && req.protocolVersion == CONTROL_PROTOCOL_VERSION && After(now, limits.leaseTtl).Some?
    ensures var swept, reply := Reclaimed(db.jobs, req.project, now), Claim(db, limits, req, now).reply;
            && reply.Ok?
            && (reply.value.None? <==> forall k :: k in swept ==> !Waits(swept[k], k, req))
            && (reply.value.Some? ==>
                  var next := reply.value.value.job.Key();
                  && next in swept && Waits(swept[next], next, req)
                  && forall k :: k in swept && Waits(swept[k], k, req) ==> NoLater(swept, next, k))
  {
    var swept := Reclaimed(db.jobs, req.project, now);
    var best := BestExists(swept, req.project, req.kind, swept.Keys);
    assert forall k :: Claimable(swept, req.project, req.kind, k) ==> k in swept.Keys;
    if best.Some? {
      NextIsUnique(swept, req.project, req.kind, best.value);
      ClaimGrants(db, limits, req, now, best.value);
    }
  }
}
