/** The publication transaction as it runs on the shared control database. */
module PublicationStore {
  import opened Prelude
  import opened Tables
  import Publication
  import opened CoordinatorStore

  type Publications = Publication.Publications
  type Target = Publication.Target
  type Revision = Publication.Revision
  type StoreError = Publication.StoreError

  class PublicationStore {
    const limits: Publication.StoreLimits
    const database: ControlDatabase

    constructor (limits: Publication.StoreLimits, database: ControlDatabase)
      ensures this.limits == limits && this.database == database
    {
      this.limits, this.database := limits, database;
    }

    /** Undo every write of an aborted transaction. */
    method Rollback(saved: Publications)
      modifies database`revisions, database`published, database`views, database`links, database`receipts
      ensures database.Publications() == saved
    {
      database.revisions, database.published, database.views := saved.revisions, saved.published, saved.views;
      database.receipts, database.links := saved.receipts, saved.links;
    }

    method EnforceProjectQuota(t: Target, r: Revision) returns (fits: bool)
      ensures fits <==>
              && Sum(database.revisions, Publication.SnapshotWeight(t.project)) < limits.maxSnapshots
              && Sum(database.revisions, Publication.FactWeight(t.project)) + |r.facts| <= limits.maxFacts
              && Sum(database.revisions, Publication.ByteWeight(t.project))
                  + Publication.CipherBytes(r.facts) <= limits.maxBytes
    {
      var snapshots := Total(database.revisions, Publication.SnapshotWeight(t.project));
      var facts := Total(database.revisions, Publication.FactWeight(t.project));
      var bytes := Total(database.revisions, Publication.ByteWeight(t.project));
      fits := snapshots < limits.maxSnapshots && facts + |r.facts| <= limits.maxFacts
              && bytes + Publication.CipherBytes(r.facts) <= limits.maxBytes;
    }

    method InsertRevision(t: Target, r: Revision) returns (reply: Result<bool, StoreError>)
      modifies database`revisions
      ensures match Publication.InsertRevision(old(database.Publications()), limits, t, r)
              case Err(e) => reply == Err(e) && database.Publications() == old(database.Publications())
              case Ok((after, reused)) => reply == Ok(reused) && database.Publications() == after
    {
      if t in database.revisions {
        var stored := database.revisions[t];
        if !Publication.SameContent(stored, r) || stored.identity != r.identity {
          return Err(Publication.ImmutableConflict);
        }
        return Ok(true);
      }
      var fits := EnforceProjectQuota(t, r);
      if !fits { return Err(Publication.QuotaExceeded); }
      database.revisions := database.revisions[t := r];
      reply := Ok(false);
    }

    method InsertLinks(req: Publication.PublishRequest, p: Publication.Prepared, now: int)
      returns (reply: Result<(), StoreError>)
      modifies database`revisions, database`links
      ensures match Publication.InsertLinks(old(database.Publications()), limits, req, p, now)
              case Err(e) => reply == Err(e)
              case Ok(after) => reply == Ok(()) && database.Publications() == after
    {
      if p.links.None? { return Ok(()); }
      var l, t := p.links.value, p.links.value.target;
      var revision := Publication.LinkRevision(req.project, t);
      var _ :- InsertRevision(revision,
        Publication.Revision(req.job.jobId, p.buildId, p.extractorSet, l.factDigest, l.counts, l.facts, None, now));
      var k := Publication.LinkKey(req.project, t.repositoryId, req.targetId, t.snapshotId);
      if k in database.links {
        return if database.links[k].target == t then Ok(()) else Err(Publication.ImmutableConflict);
      }
      if Publication.LinkSetTaken(database.links, req.project, t) { return Err(Publication.ConstraintViolated); }
      database.links := database.links[k := Publication.LinkRow(database.revisions[revision].jobId, t)];
      reply := Ok(());
    }

    /** Compare and swap: an outdated expectation loses, the current target is kept, anything else moves on. */
    method MovePointer(req: Publication.PublishRequest, reused: bool)
      returns (reply: Result<Publication.Outcome, StoreError>)
      modifies database`views
      ensures match Publication.MovePointer(old(database.Publications()), req, reused)
              case Err(e) => reply == Err(e)
              case Ok((after, outcome)) => reply == Ok(outcome) && database.Publications() == after
    {
      var actual := Publication.CurrentView(database.Publications(), req.ViewOf());
      if req.expected != Publication.VersionOf(actual) { return Ok(Publication.Superseded(actual)); }
      if actual.Some? && actual.value.targetId == req.targetId { return Ok(Publication.Published(actual.value, true)); }
      var generation := (if actual.Some? then actual.value.generation else 0) + 1;
      if generation > I64_MAX { return Err(Publication.QuotaExceeded); }
      var view := Publication.View(req.targetId, req.job.jobId, generation);
      database.views := database.views[req.ViewOf() := view];
      reply := Ok(Publication.Published(view, reused));
    }

    /** A winner stores its links and becomes visible. */
    method Reveal(req: Publication.PublishRequest, p: Publication.Prepared, outcome: Publication.Outcome, now: int)
      returns (reply: Result<(), StoreError>)
      modifies database`revisions, database`published, database`links
      ensures match Publication.Reveal(old(database.Publications()), limits, req, p, outcome, now)
              case Err(e) => reply == Err(e)
              case Ok(after) => reply == Ok(()) && database.Publications() == after
    {
      if outcome.Superseded? { return Ok(()); }
      var _ :- InsertLinks(req, p, now);
      if req.TargetOf() !in database.published {
        database.published := database.published[req.TargetOf() := now];
      }
      reply := Ok(());
    }

    /** Revision, pointer, links and visibility, in that order; a failure part-way leaves a partial write
        for the caller to roll back. */
    method Ingest(req: Publication.PublishRequest, p: Publication.Prepared, now: int)
      returns (reply: Result<Publication.Outcome, StoreError>)
      modifies database`revisions, database`published, database`views, database`links
      ensures match Publication.Ingest(old(database.Publications()), limits, req, p, now)
              case Err(e) => reply == Err(e)
              case Ok((after, outcome)) => reply == Ok(outcome) && database.Publications() == after
    {
      var reused :- InsertRevision(req.TargetOf(), Publication.RevisionOf(req, p, now));
      var outcome :- MovePointer(req, reused);
      var _ :- Reveal(req, p, outcome, now);
      reply := Ok(outcome);
    }

    /** Publication and job completion commit together or not at all. */
    method Publish(req: Publication.PublishRequest, prepared: Result<Publication.Prepared, StoreError>, now: int)
      returns (reply: Result<Publication.Outcome, StoreError>)
      modifies database`jobs, database`revisions, database`published, database`views, database`links, database`receipts
      ensures match Publication.TryPublish(old(database.Tables()), old(database.Publications()), limits, req,
                                           prepared, now)
              case Err(e) =>
                && reply == Err(e) && database.Tables() == old(database.Tables())
                && database.Publications() == old(database.Publications())
              case Ok(c) =>
                reply == Ok(c.outcome) && database.Tables() == c.control && database.Publications() == c.pubs
    {
      if !req.Valid() { return Err(Publication.InvalidInput); }
      var replayed :- Publication.Replay(database.Tables(), database.Publications(), req);
      if replayed.Some? { return Ok(replayed.value); }
      var p :- prepared;
      if !Publication.Fits(p, limits) { return Err(Publication.QuotaExceeded); }
      var spec :- Publication.Authority(database.Tables(), req, now);
      if !Publication.InputMatches(spec, req, p) || !Publication.LinksResolve(database.Publications(), req, p) {
        return Err(Publication.InvalidInput);
      }
      var saved := database.Publications();
      reply := Ingest(req, p, now);
      if reply.Err? {
        Rollback(saved);
        return;
      }
      var k := req.job.Key();
      database.receipts := database.receipts[k := Publication.Receipt(req.Canonical(), reply.value, now)];
      database.jobs := database.jobs[k := Publication.CompletedRow(database.jobs[k], now)];
    }
  }
}
