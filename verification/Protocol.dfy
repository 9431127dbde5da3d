/** Job states, records and requests of the distributed control protocol. */
module Protocol {
  import opened Prelude

  const CONTROL_PROTOCOL_VERSION: nat := 3

  datatype JobKind = RepositoryGraph | ProjectMemory

  datatype JobState = Queued | Leased | Running | Publishing | Complete | Failed | Cancelled {

    predicate CanTransitionTo(next: JobState)
    {
      match this
      case Queued => next in {Leased, Cancelled, Failed}
      case Leased => next in {Running, Queued, Cancelled, Failed}
      case Running => next in {Publishing, Queued, Cancelled, Failed}
      case Publishing => next in {Complete, Cancelled, Failed}
      case _ => false
    }

    predicate IsTerminal() { Complete? || Failed? || Cancelled? }

    /** The states in which a worker owns the job. */
    predicate HoldsLease() { Leased? || Running? || Publishing? }
  }

  /** Every scope of the data plane is a tenant and a cloud project. */
  datatype Project = Project(tenant: string, id: string)

  /** Primary key of the job table. */
  datatype JobKey = JobKey(project: Project, jobId: string)

  datatype JobRef = JobRef(project: Project, jobId: string, kind: JobKind) {
    function Key(): JobKey { JobKey(project, jobId) }
  }

  /** An immutable graph snapshot in some repository of the project. */
  datatype GraphRef = GraphRef(project: Project, repositoryId: string, snapshotId: string)

  /** The immutable input a job indexes, with the identities its publication must carry. */
  datatype IndexInput =
    | RepositoryInput(graph: GraphRef, repositoryIdentity: string)
    | MemoryInput(memoryProject: Project, revisionId: string, projectIdentity: string,
                  snapshot: Option<GraphRef>, origins: seq<GraphRef>)
  {
    function ProjectOf(): Project { if RepositoryInput? then graph.project else memoryProject }
    function Kind(): JobKind { if RepositoryInput? then RepositoryGraph else ProjectMemory }
  }

  /** `digestsMatch` is the outcome of the digest comparisons of the specification
      check: manifest object against manifest digest, and idempotency key against
      the recomputed digest of the semantic inputs. */
  datatype JobSpec = JobSpec(protocolVersion: nat, kind: JobKind, input: IndexInput,
                             extractorSet: string, idempotencyKey: string, digestsMatch: bool)
  {
    predicate Valid()
    {
      protocolVersion == CONTROL_PROTOCOL_VERSION && kind == input.Kind() && digestsMatch
    }
  }

  datatype Lease = Lease(worker: string, generation: nat, expiresAt: int)

  datatype JobRecord = JobRecord(job: JobRef, spec: JobSpec, state: JobState, attempt: nat, maxAttempts: nat,
                                 lease: Option<Lease>, cancellationRequested: bool,
                                 failureCode: Option<string>, createdAt: int, updatedAt: int, deadlineAt: int)
  {
    /** The record check every load performs. */
    predicate Valid()
    {
      && spec.Valid()
      && job.project == spec.input.ProjectOf()
      && job.kind == spec.kind
      && attempt <= maxAttempts
      && (state.HoldsLease() <==> lease.Some?)
      && !(cancellationRequested && state == Complete)
      && (state == Failed ==> failureCode.Some?)
      && (state == Complete || state == Cancelled ==> failureCode.None?)
      && createdAt <= deadlineAt
    }
  }

  datatype SubmitRequest = SubmitRequest(protocolVersion: nat, requestId: string, project: Project, spec: JobSpec) {
    predicate Valid()
    {
      protocolVersion == CONTROL_PROTOCOL_VERSION && spec.Valid() && project == spec.input.ProjectOf()
    }
  }

  datatype ClaimRequest = ClaimRequest(protocolVersion: nat, requestId: string, project: Project,
                                       kind: JobKind, worker: string)

  /** Start, begin-publication, complete and heartbeat all name the job, the worker and its generation. */
  datatype LeaseRequest = LeaseRequest(protocolVersion: nat, requestId: string, job: JobRef,
                                       worker: string, generation: nat)

  datatype FailRequest = FailRequest(lease: LeaseRequest, failureCode: string, retryable: bool)

  datatype CancelRequest = CancelRequest(protocolVersion: nat, requestId: string, job: JobRef,
                                         expectedState: Option<JobState>)

  datatype ReclaimRequest = ReclaimRequest(protocolVersion: nat, requestId: string, project: Project)

  datatype ReclaimCounts = ReclaimCounts(requeued: nat, failed: nat, cancelled: nat)
}
