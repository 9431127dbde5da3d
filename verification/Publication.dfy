/** Remote publication: immutable revisions, compare-and-swap view pointers and recorded
    outcomes, committed in one transaction with the completion of the job. Graph and memory
    publication share one flow; where they differ the request constructor decides. */
module Publication {
  import opened Prelude
  import opened Protocol
  import opened Coordinator
  import opened Tables

  /** Authentication tag appended to every encrypted fact. */
  const TAG_BYTES: nat := 16

  datatype StoreError =
    | InvalidInput | AuthorityLost | StoreProjectDeleted | ImmutableConflict | FactConflict | QuotaExceeded
    | ConstraintViolated | IntegrityFailure

  datatype StoreLimits = StoreLimits(maxSnapshots: nat, maxFacts: nat, maxBytes: nat, maxFactBytes: nat)

  datatype Domain = GraphDomain | MemoryDomain | LinkDomain

  /** Primary key of the immutable revisions. Memory revisions have an empty repository id. */
  datatype Target = Target(project: Project, domain: Domain, repositoryId: string, targetId: string)

  function GraphTarget(g: GraphRef): Target { Target(g.project, GraphDomain, g.repositoryId, g.snapshotId) }

  datatype FactCounts = FactCounts(primary: nat, relationships: nat, diagnostics: nat)

  /** One fact with its JSON text. What is encrypted and charged is the UTF-8 form of that text. */
  datatype Fact = Fact(kind: string, id: string, encoded: string)
  {
    function Size(): nat { ByteLength(encoded) }
  }

  function CharBytes(c: char): nat
  {
    var u := c as int;
    if u < 0x80 then 1 else if u < 0x800 then 2 else if u < 0x1_0000 then 3 else 4
  }

  function ByteLength(s: string): nat { if s == "" then 0 else CharBytes(s[0]) + ByteLength(s[1..]) }

  /** `identity` is the repository identity stored beside a graph snapshot. */
  datatype Revision = Revision(jobId: string, buildId: string, extractorSet: string, factDigest: string,
                               counts: FactCounts, facts: seq<Fact>, identity: Option<string>, completedAt: int)

  datatype ViewKey = ViewKey(project: Project, domain: Domain, repositoryId: string, name: string)
  datatype View = View(targetId: string, jobId: string, generation: nat)
  datatype Version = Version(targetId: string, generation: nat)

  datatype Outcome = Published(view: View, reused: bool) | Superseded(current: Option<View>)

  /** Repository links of one memory revision, resolved against one graph snapshot and, for stale
      evidence, earlier snapshots of the same repository. Batch validation pins project and revision. */
  datatype LinkTarget = LinkTarget(repositoryId: string, snapshotId: string, origins: seq<string>, linkSetId: string,
                                   repositoryIdentity: string)
  {
    function Graph(p: Project): GraphRef { GraphRef(p, repositoryId, snapshotId) }
    function Origins(p: Project): seq<GraphRef>
    {
      seq(|origins|, i requires 0 <= i < |origins| => GraphRef(p, repositoryId, origins[i]))
    }
  }
  datatype LinkKey = LinkKey(project: Project, repositoryId: string, revisionId: string, snapshotId: string)
  datatype LinkRow = LinkRow(jobId: string, target: LinkTarget)

  datatype PublishRequest =
    | PublishGraph(protocolVersion: nat, requestId: string, job: JobRef, worker: string, generation: nat,
                   project: Project, repository: string, viewName: string, targetId: string, expected: Option<Version>)
    | PublishMemory(protocolVersion: nat, requestId: string, job: JobRef, worker: string, generation: nat,
                    project: Project, viewName: string, targetId: string, expected: Option<Version>)
  {
    function Kind(): JobKind { if PublishGraph? then RepositoryGraph else ProjectMemory }
    function DomainOf(): Domain { if PublishGraph? then GraphDomain else MemoryDomain }
    function RepositoryId(): string { if PublishGraph? then repository else "" }
    function TargetOf(): Target { Target(project, DomainOf(), RepositoryId(), targetId) }
    function ViewOf(): ViewKey { ViewKey(project, DomainOf(), RepositoryId(), viewName) }
    predicate Valid()
    {
      protocolVersion == CONTROL_PROTOCOL_VERSION && job.kind == Kind() && job.project == project
    }
    /** The identity of the publication: everything but the transport's request id. */
    function Canonical(): PublishRequest { this.(requestId := "") }
  }

  /** What the batch stream was merged into. `consistent` says every link names a node or path
      of the graph it was resolved against. */
  datatype PreparedLinks = PreparedLinks(target: LinkTarget, factDigest: string, counts: FactCounts,
                                         facts: seq<Fact>, consistent: bool)
  datatype Prepared = Prepared(buildId: string, extractorSet: string, identity: string, factDigest: string,
                               counts: FactCounts, facts: seq<Fact>, links: Option<PreparedLinks>)

  datatype Receipt = Receipt(request: PublishRequest, outcome: Outcome, completedAt: int)

  datatype Publications = Publications(revisions: map<Target, Revision>, published: map<Target, int>,
                                       views: map<ViewKey, View>, receipts: map<JobKey, Receipt>,
                                       links: map<LinkKey, LinkRow>)

  datatype Committed = Committed(control: Control, pubs: Publications, outcome: Outcome)

  // ---------------------------------------------------------------- guards

  /** A finished publication replays its recorded outcome. */
  function Replay(db: Control, pubs: Publications, req: PublishRequest): Result<Option<Outcome>, StoreError>
  {
    var k := req.job.Key();
    if req.job.project in db.tombstones then Err(StoreProjectDeleted)
    else if k in pubs.receipts && k in db.jobs && db.jobs[k].state == Complete
            && pubs.receipts[k].request == req.Canonical()
    then Ok(Some(pubs.receipts[k].outcome))
    else Ok(None)
  }

  function Authority(db: Control, req: PublishRequest, now: int): Result<JobSpec, StoreError>
  {
    var k := req.job.Key();
    if req.job.project in db.tombstones then Err(StoreProjectDeleted)
    else if k !in db.jobs then Err(AuthorityLost)
    else
      var row := db.jobs[k];
      if && row.kind == req.job.kind && row.spec.input.ProjectOf() == req.job.project
         && row.state == Publishing && !row.cancellationRequested
         && row.worker == Some(req.worker) && row.generation == req.generation
         && row.leaseUntil.Some? && now < row.leaseUntil.value && now < row.deadlineAt
      then Ok(row.spec) else Err(AuthorityLost)
  }

  /** The prepared output is the one the job was submitted for. */
  predicate InputMatches(spec: JobSpec, req: PublishRequest, p: Prepared)
  {
    && spec.kind == req.Kind() && spec.extractorSet == p.extractorSet
    && match spec.input
       case RepositoryInput(graph, identity) =>
         req.PublishGraph? && GraphTarget(graph) == req.TargetOf() && identity == p.identity && p.links.None?
       case MemoryInput(project, revisionId, identity, snapshot, origins) =>
         && req.PublishMemory? && project == req.project && revisionId == req.targetId && identity == p.identity
         && snapshot == (if p.links.Some? then Some(p.links.value.target.Graph(project)) else None)
         && origins == (if p.links.Some? then p.links.value.target.Origins(project) else [])
  }

  predicate LinksResolve(pubs: Publications, req: PublishRequest, p: Prepared)
  {
    p.links.Some? ==>
      var t := p.links.value.target;
      && PublishedGraph(pubs, t.Graph(req.project), t.repositoryIdentity)
      && (forall i :: 0 <= i < |t.origins| ==> PublishedGraph(pubs, t.Origins(req.project)[i], t.repositoryIdentity))
      && p.links.value.consistent
  }

  predicate PublishedGraph(pubs: Publications, g: GraphRef, identity: string)
  {
    && GraphTarget(g) in pubs.published && GraphTarget(g) in pubs.revisions
    && pubs.revisions[GraphTarget(g)].identity == Some(identity)
  }

  predicate FactsFit(facts: seq<Fact>, limits: StoreLimits)
  {
    forall i :: 0 <= i < |facts| ==> facts[i].Size() <= limits.maxFactBytes
  }

  // ---------------------------------------------------------------- revisions and quotas

  function CipherBytes(facts: seq<Fact>): nat
  {
    if facts == [] then 0 else facts[0].Size() + TAG_BYTES + CipherBytes(facts[1..])
  }

  /** Per-row weights of the three project quotas. */
  function SnapshotWeight(p: Project): (Target, Revision) -> nat
  {
    (t: Target, r: Revision) => if t.project == p then 1 else 0
  }
  function FactWeight(p: Project): (Target, Revision) -> nat
  {
    (t: Target, r: Revision) => if t.project == p then |r.facts| else 0
  }
  function ByteWeight(p: Project): (Target, Revision) -> nat { (t: Target, r: Revision) => ProjectBytes(p, t, r) }
  function ProjectBytes(p: Project, t: Target, r: Revision): nat { if t.project == p then CipherBytes(r.facts) else 0 }

  predicate SameContent(a: Revision, b: Revision)
  {
    a.factDigest == b.factDigest && a.extractorSet == b.extractorSet && a.counts == b.counts
  }

  /** Insert an immutable revision, or reuse the one already stored under the same key. */
  ghost function InsertRevision(pubs: Publications, limits: StoreLimits, t: Target, r: Revision)
    : Result<(Publications, bool), StoreError>
  {
    if t in pubs.revisions then
      if SameContent(pubs.revisions[t], r) && pubs.revisions[t].identity == r.identity then Ok((pubs, true))
      else Err(ImmutableConflict)
    else if Sum(pubs.revisions, SnapshotWeight(t.project)) >= limits.maxSnapshots
         || Sum(pubs.revisions, FactWeight(t.project)) + |r.facts| > limits.maxFacts
         || Sum(pubs.revisions, ByteWeight(t.project)) + CipherBytes(r.facts) > limits.maxBytes
    then Err(QuotaExceeded)
    else Ok((pubs.(revisions := pubs.revisions[t := r]), false))
  }

  function LinkRevision(p: Project, t: LinkTarget): Target { Target(p, LinkDomain, t.repositoryId, t.linkSetId) }

  /** The unique index on link sets: another revision or snapshot already uses this link set id. */
  predicate LinkSetTaken(links: map<LinkKey, LinkRow>, p: Project, t: LinkTarget)
  {
    exists l :: l in links && l.project == p && l.repositoryId == t.repositoryId
                && links[l].target.linkSetId == t.linkSetId
  }

  ghost function InsertLinks(pubs: Publications, limits: StoreLimits, req: PublishRequest, p: Prepared, now: int)
    : Result<Publications, StoreError>
  {
    if p.links.None? then Ok(pubs)
    else
      var l, t := p.links.value, p.links.value.target;
      var (inserted, _) :- InsertRevision(pubs, limits, LinkRevision(req.project, t),
        Revision(req.job.jobId, p.buildId, p.extractorSet, l.factDigest, l.counts, l.facts, None, now));
      var k := LinkKey(req.project, t.repositoryId, req.targetId, t.snapshotId);
      if k in inserted.links then
        if inserted.links[k].target == t then Ok(inserted) else Err(ImmutableConflict)
      else if LinkSetTaken(inserted.links, req.project, t) then Err(ConstraintViolated)
      else
        var owner := inserted.revisions[LinkRevision(req.project, t)].jobId;
        Ok(inserted.(links := inserted.links[k := LinkRow(owner, t)]))
  }

  // ---------------------------------------------------------------- publication

  function CurrentView(pubs: Publications, v: ViewKey): Option<View>
  {
    if v in pubs.views then Some(pubs.views[v]) else None
  }

  function VersionOf(view: Option<View>): Option<Version>
  {
    if view.Some? then Some(Version(view.value.targetId, view.value.generation)) else None
  }

  /** Decide the pointer move. The expected version is compared before the same-target shortcut. */
  function MovePointer(pubs: Publications, req: PublishRequest, reused: bool)
    : Result<(Publications, Outcome), StoreError>
  {
    var actual := CurrentView(pubs, req.ViewOf());
    if req.expected != VersionOf(actual) then Ok((pubs, Superseded(actual)))
    else if actual.Some? && actual.value.targetId == req.targetId then Ok((pubs, Published(actual.value, true)))
    else
      var generation := (if actual.Some? then actual.value.generation else 0) + 1;
      if generation > I64_MAX then Err(QuotaExceeded)
      else
        var view := View(req.targetId, req.job.jobId, generation);
        Ok((pubs.(views := pubs.views[req.ViewOf() := view]), Published(view, reused)))
  }

  /** A winning publication stores its links and becomes visible to published-only reads. */
  ghost function Reveal(pubs: Publications, limits: StoreLimits, req: PublishRequest, p: Prepared, outcome: Outcome,
                        now: int)
    : Result<Publications, StoreError>
  {
    if outcome.Superseded? then Ok(pubs)
    else
      var linked :- InsertLinks(pubs, limits, req, p, now);
      Ok(if req.TargetOf() in linked.published then linked
         else linked.(published := linked.published[req.TargetOf() := now]))
  }

  function RevisionOf(req: PublishRequest, p: Prepared, now: int): Revision
  {
    Revision(req.job.jobId, p.buildId, p.extractorSet, p.factDigest, p.counts, p.facts,
             if req.PublishGraph? then Some(p.identity) else None, now)
  }

  /** The publication tables' share of the transaction. */
  ghost function Ingest(pubs: Publications, limits: StoreLimits, req: PublishRequest, p: Prepared, now: int)
    : Result<(Publications, Outcome), StoreError>
  {
    var (inserted, reused) :- InsertRevision(pubs, limits, req.TargetOf(), RevisionOf(req, p, now));
    var (moved, outcome) :- MovePointer(inserted, req, reused);
    var revealed :- Reveal(moved, limits, req, p, outcome, now);
    Ok((revealed, outcome))
  }

  function CompletedRow(row: JobRow, now: int): JobRow { Released(row, Complete, None, now) }

  predicate Fits(p: Prepared, limits: StoreLimits)
  {
    FactsFit(p.facts, limits) && (p.links.Some? ==> FactsFit(p.links.value.facts, limits))
  }

  /** A publication that is not a replay: authority, ingestion, recorded outcome and job completion together. */
  ghost function PublishFresh(db: Control, pubs: Publications, limits: StoreLimits, req: PublishRequest, p: Prepared,
                              now: int)
    : Result<Committed, StoreError>
  {
    if !Fits(p, limits) then Err(QuotaExceeded)
    else
      var spec :- Authority(db, req, now);
      if !InputMatches(spec, req, p) || !LinksResolve(pubs, req, p) then Err(InvalidInput)
      else
        var (ingested, outcome) :- Ingest(pubs, limits, req, p, now);
        var k := req.job.Key();
        Ok(Committed(db.(jobs := db.jobs[k := CompletedRow(db.jobs[k], now)]),
                     ingested.(receipts := ingested.receipts[k := Receipt(req.Canonical(), outcome, now)]),
                     outcome))
  }

  ghost function TryPublish(db: Control, pubs: Publications, limits: StoreLimits, req: PublishRequest,
                            prepared: Result<Prepared, StoreError>, now: int): Result<Committed, StoreError>
  {
    if !req.Valid() then Err(InvalidInput)
    else
      var replayed :- Replay(db, pubs, req);
      if replayed.Some? then Ok(Committed(db, pubs, replayed.value))
      else
        var p :- prepared;
        PublishFresh(db, pubs, limits, req, p, now)
  }

  // ---------------------------------------------------------------- reads

  /** `published_*` reads: a target is visible only once some publication of it won. */
  function ReadPublished(pubs: Publications, t: Target): Option<Revision>
  {
    if t in pubs.published && t in pubs.revisions then Some(pubs.revisions[t]) else None
  }

  /** Both current pointers, read together. */
  function FederatedView(pubs: Publications, project: Project, repositoryId: string, graphView: string,
                         memoryView: string)
    : Option<(Target, Target)>
  {
    var g, m := ViewKey(project, GraphDomain, repositoryId, graphView), ViewKey(project, MemoryDomain, "", memoryView);
    if g in pubs.views && m in pubs.views
    then Some((Target(project, GraphDomain, repositoryId, pubs.views[g].targetId),
               Target(project, MemoryDomain, "", pubs.views[m].targetId)))
    else None
  }
}
