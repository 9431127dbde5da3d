# ferrus data plane: a verified model

This project models the distributed index-job data plane of ferrus in Dafny 4.11 and proves what its three
stores promise each other, together with the worker's output pipeline, the tenant object store and the
specification-milestone editor. `dafny verify dfyconfig.toml` checks everything.

## How the model is built

Every SQLite immediate transaction is one atomic step from the tables before it to the tables after it and a
reply; time is an integer number of milliseconds that each request carries. On top of the transactions stands
one system, `DataPlane`: a `World` holds the control database (jobs, receipts, tombstones, publications) and
the fact-batch database, an `Action` is any request of any client with any clock reading, and `Exec` runs any
sequence of actions. The central results are about every such run, in the form "this happened, then anything
whatsoever happened, and now that still holds".

| file | what it holds |
|---|---|
| `Protocol`, `Coordinator`, `JobInvariant`, `ClaimOrder` | job states and records, the coordinator's transactions, what each keeps, and the order of claims |
| `Publication`, `PublicationInvariant` | immutable revisions, view pointers and recorded outcomes |
| `FactStore`, `FactInvariant` | unpublished fact batches, quotas, progress |
| `DataPlane` | the combined system, its invariant over all runs |
| `Lifecycle`, `Transitions`, `WitnessRuns` | the life of a job: bounded, and exactly when it leaves the transition relation |
| `Fencing`, `Receipts`, `ExactReplay`, `Publishing`, `Convergence`, `Maintenance` | the other properties of whole runs |
| `Completion`, `Refusals` | exactly when each request succeeds, what it then writes and answers, why it is refused otherwise, and that a claimed job can be completed |
| `PutMeaning`, `PublicationMeaning` | the same for batch puts and publications: every answer, every row left behind, what the quotas count |
| `CoordinatorStore`, `PublicationStore`, `FactBatchStore` | the transactions as imperative methods on shared tables, proved equal to the functions above |
| `Json`, `Diagnostics`, `JsonSort`, `KeyedMap`, `FragmentMerge`, `Chunking`, `Emission`, `Extractors` | the worker's output pipeline |
| `Preparation`, `Fidelity` | preparing a publication from stored batches, and why it is what was extracted |
| `FactEncoding`, `GraphReader`, `EndToEnd` | stored facts, loading them again, and the whole way from the first attempt at an extraction to the last reader |
| `ObjectStore` | source objects, rows and sealed files |
| `SpecText`, `SpecMilestones`, `SpecEdit`, `SpecRoundTrip` | parsing, planning and completing specification milestones |
| `Prelude`, `Ordering`, `Tables` | results, stable sorting, sums over tables |

Digests are injective: a batch id, an object id or an extractor-set digest is a constructor applied to what it
hashes, and the digest of a graph's facts is the text it hashes. The JSON of diagnostics, which sorts and
deduplicates them, and of nodes, edges and whole fact sets is written out and proved injective; a node or an edge
is an id, the ids it refers to and a body. Encrypted values are their plaintexts, sealed for one object.

## Where the code and its documents differ

* `can_transition_to` (`src/distributed/protocol.rs:257-274`) and the state diagram in
  `docs/repository_graph/distributed-indexing-architecture.md` do not list publishing to queued, but
  `reclaim_expired` performs it. The model follows the code. `Transitions.UpdateUnlistedIff` says exactly when an
  update leaves the relation: a sweep finds a publishing job whose lease ran out before its deadline with attempts
  left. `WitnessRuns.PublishingIsRequeued` is a run from an empty database that does it.
* Between committed states one more pair is unlisted: a claim may sweep an expired running job and lease it again
  in the same transaction. `Transitions.CommittedUnlistedIff` gives the exact condition on the state before the
  request, and `WitnessRuns.ClaimSkipsQueued` a run from an empty database.
* A fact batch id does not cover the final marker (`src/distributed/protocol.rs:506-514`); the store's
  comparison of whole batches and its one-final-batch index do.
* The sweep's cancelled count is always zero in a reachable state (`Maintenance.NoCancellationsToReclaim`):
  cancellation clears the lease at once.
* A single object put and a batch of one differ in exactly one situation, a project that is already over a
  lowered quota (`ObjectStore.SingleVersusBatch`, `ObjectStore.LoweredQuotaSplitsThem`).

## Model

| member | source | states |
|---|---|---|
| `DataPlane.ExecKeeps` | src/distributed/coordinator_sqlite.rs:164-674 | whatever requests interleave, with whatever clocks and limits, rows stay well formed, receipts stay loadable, quotas hold, links and views point at published targets, and every table only evolves forward |
| `DataPlane.ReachableInv` | src/distributed/coordinator_sqlite.rs:254-309 | the invariant holds in every state reachable from an empty database |
| `Fencing.OnlyTheHolderActs` | src/distributed/coordinator_sqlite.rs:676-692 | a worker request or publication changes a job row only if its worker and generation are that row's current live lease |
| `Fencing.StaleGenerationNeverActs` | src/distributed/coordinator_sqlite.rs:164-231 | once generation g has acted on a job, no request bearing a smaller generation ever changes its row again, in any run |
| `Fencing.GrantIsNew` | src/distributed/coordinator_sqlite.rs:321-405 | a granted generation exceeds the job's previous one by one, belongs to the claimant, and is live when granted until the earlier of its term and the job deadline |
| `Fencing.EachGenerationGrantedOnce` | src/distributed/coordinator_sqlite.rs:321-405 | over any run the generations of a job are granted strictly increasing, so each has exactly one worker |
| `Fencing.GenerationHasOneHolder` | src/distributed/coordinator_sqlite.rs:421-463 | within one generation the lease never changes hands, however far apart two observations are |
| `Fencing.WritableIsAuthorized` | src/distributed/fact_store_sqlite.rs:384-418 | the fact store's weaker lease reading holds if and only if the coordinator would authorize the same worker on a running job |
| `Fencing.StoredByRunningHolder` | src/distributed/fact_store_sqlite.rs:384-418 | every put that changes the batch table was made by the live holder of a running job |
| `ExactReplay.AdvanceReplays` | src/distributed/coordinator_sqlite.rs:176-230 | a start, begin-publication or complete that once succeeded returns the same record and changes nothing, under any request id, after any run |
| `ExactReplay.AdvanceReceiptsLoadForever` | src/distributed/coordinator_sqlite.rs:696-759 | every transition receipt of every reachable state answers its own request after any run: never overwritten, never failing its load check |
| `ExactReplay.FailureReceiptsLoadForever` | src/distributed/coordinator_sqlite.rs:761-824 | the same for every failure receipt |
| `ExactReplay.FailReplays` | src/distributed/coordinator_sqlite.rs:493-546 | a reported failure answers identically after any run, even once a later worker owns the job |
| `ExactReplay.PublishReplays` | src/distributed/publication_sqlite/write.rs:141-183 | a finished publication returns its original outcome after the view has moved on and whatever batches the retry supplies, exactly while the project has no tombstone |
| `Publishing.EndedLeaseNeverActs` | src/distributed/publication_sqlite/write.rs:293-347 | after a cancel, failure, sweep, completion or new grant ended a lease, no transition, publication or fact put bearing its generation changes any table in any run |
| `Publishing.RevokedIsPowerlessForever` | src/distributed/fact_store_sqlite.rs:384-418 | a revoked generation stays powerless over every table, fact batches included, for ever |
| `Publishing.OnePublicationPerJob` | src/distributed/publication_sqlite.rs:491-565 | each job records at most one publication; a second one, for any target, changes nothing |
| `Publishing.CancelAfterPublish` | src/distributed/coordinator_sqlite.rs:548-592 | a cancel that arrives after the publication committed returns the complete record and changes nothing |
| `Publishing.ViewStep` | src/distributed/publication_sqlite.rs:519-565 | any action leaves a view alone or moves it on by exactly one generation, on a request that expected precisely the version it replaces |
| `Publishing.ViewHistoryIsAChain` | src/distributed/publication_sqlite.rs:666-736 | over any run a view's generation never drops and one generation number names one target and job |
| `Publishing.StalePublisherLoses` | src/distributed/publication_sqlite/write.rs:727-751 | a stale expectation is superseded and moves no view, reveals no target and stores no link, even when the target equals the current one |
| `Publishing.VisibleIffPublished` | src/distributed/publication_sqlite/read.rs:168-191 | in every run a published-only read finds a target if and only if some publication of it answered Published |
| `Publishing.ViewsAreReadable` | src/distributed/publication_sqlite.rs:302-384 | what a view points at is stored and published, and reads back the same immutable content after any run |
| `Publishing.FederatedViewIsPublished` | src/distributed/publication_sqlite.rs:820-860 | a federated view exists exactly when both pointers do; its first half is what the graph view points at, its second what the memory view points at, and both are readable |
| `Publishing.LinksArePublished` | src/distributed/publication_sqlite/write.rs:498-579 | every stored link set joins a published memory revision to a published graph snapshot |
| `PublicationInvariant.PublishEffect` | src/distributed/publication_sqlite.rs:470-566 | a successful publication is a replay that changes nothing, or a fresh one under live authority whose outcome is the one its expected version deserves |
| `PublicationMeaning.StoresThePrepared` | src/distributed/publication_sqlite.rs:593-736 | a publication of either kind to a new target stores exactly the prepared facts, digest, counts, build, extractor set and identity; a target stored before stays as it is and has the same record |
| `PublicationMeaning.CompletesTheJob` | src/distributed/publication_sqlite.rs:547-565 | the job completes and the outcome is recorded under the request, in the same transaction and touching no other job or receipt |
| `PublicationMeaning.WinnerStoresItsLinks` | src/distributed/publication_sqlite.rs:694-722 | a memory publication that wins has its link row and its link facts stored; one that loses, or has no links, stores none |
| `PublicationMeaning.MatchesIffAnswers` | src/distributed/publication_sqlite.rs:505-517 | the input check accepts exactly output made from the job's own input, identity and extractor set |
| `PublicationMeaning.MismatchIsRefused` | src/distributed/publication_sqlite.rs:620-638 | any other output is refused, whoever sends it, and the holder is told it is invalid |
| `PublicationMeaning.LinksResolveIff` | src/distributed/publication_sqlite/validation.rs:83-118 | links are accepted exactly when every graph they were resolved against is published under the same identity and each link names something in it |
| `PublicationMeaning.UnpublishedGraphIsRefused` | src/distributed/publication_sqlite.rs:640-664 | a memory publication whose links need an unpublished graph is refused |
| `PublicationMeaning.GraphPublishesIff` | src/distributed/publication_sqlite.rs:470-566 | a first graph publication succeeds if and only if it is well formed, the project lives, the sender holds the publishing job, the output answers the job's input, every fact fits and the snapshot is new with room or stored with the same record |
| `PublicationMeaning.GraphRefusals` | src/distributed/publication_sqlite.rs:470-566 | the cause of each error of a graph publication, both ways |
| `PublicationMeaning.OutcomeTells` | src/distributed/publication_sqlite.rs:519-545 | the answer says whether the revision was stored before; a winner is visible from now on unless it already was, and a loser reveals nothing |
| `PublicationMeaning.OnlyTheSameRequestReplays` | src/distributed/publication_sqlite/write.rs:141-183 | after a publication committed, a later publication of that job is answered if and only if it is the same request, apart from its request id, of a living project; and then nothing changes |
| `PublicationMeaning.QuotasCount` | src/distributed/publication_sqlite/write.rs:687-725 | the three quotas count the project's revisions, facts and bytes one by one |
| `PublicationMeaning.CipherBytesCount` | src/distributed/publication_sqlite/write.rs:687-725 | stored bytes are the text of the facts and sixteen for each authentication tag |
| `PublicationMeaning.ByteLengthMeaning` | src/distributed/publication_sqlite/write.rs:66-72 | a fact's size is that of its UTF-8 text: one to four bytes a character, one exactly for ASCII |
| `PublicationMeaning.OversizedIsRefused` | src/distributed/publication_sqlite/write.rs:66-72 | one fact or link fact beyond the size limit refuses a publication of either kind |
| `PublicationMeaning.ReachableRevisionsFit` | src/distributed/publication_sqlite/write.rs:687-725 | in every reachable state each project is within its three quotas |
| `PublicationInvariant.InsertRevisionEffect` | src/distributed/publication_sqlite/write.rs:581-725 | a revision is stored once, reused only with the same content, and never takes a project over its three quotas |
| `PublicationInvariant.PublishKeeps` | src/distributed/publication_sqlite.rs:568-737 | publication and job completion together keep every table's invariant, link sets unique included, and only extend the immutable tables |
| `Transitions.UpdateUnlistedIff` | src/distributed/coordinator_sqlite.rs:656-668 | an update of a reachable row leaves the relation if and only if a well-formed sweep of its project finds it publishing, its lease run out, its deadline ahead and attempts left |
| `Transitions.CommittedUnlistedIff` | src/distributed/protocol.rs:256-274 | a committed change leaves the relation if and only if such a sweep finds the job publishing, or running and then taken by the very claim that swept it |
| `Transitions.SweepUnlistedIff` | src/distributed/coordinator_sqlite.rs:656-668 | the row-level condition, both ways |
| `Transitions.RelationMeaning` | src/distributed/protocol.rs:257-274 | the relation in words: a live job goes on to its next state, fails or is cancelled, a leased or running one may be requeued, and nothing leaves a terminal state |
| `Lifecycle.TraceLegal` | src/distributed/protocol.rs:256-274 | every transaction takes a row from its old value to its new one by a chain of listed updates, or maintenance requeueing a publishing job |
| `WitnessRuns.PublishingIsRequeued` | src/distributed/coordinator_sqlite.rs:656-668 | a run from the empty database in which maintenance takes a publishing job back to queued |
| `WitnessRuns.ClaimSkipsQueued` | src/distributed/coordinator_sqlite.rs:321-405 | a run from the empty database (submit, claim, start, claim) whose last step goes from running to leased |
| `Lifecycle.LifetimeBound` | src/distributed/coordinator_sqlite.rs:357-395 | a job changes state at most four times per allowed attempt, in any run whatsoever |
| `Lifecycle.ReachableRecordsValid` | src/distributed/coordinator_sqlite.rs:826-916 | every reachable row decodes and passes each part of the record check, is cancelled exactly when cancellation was requested, and has attempt = max(1, generation) within its limit |
| `Lifecycle.LoadSucceedsIff` | src/distributed/protocol.rs:314-336 | any stored row loads if and only if its columns decode and its record is consistent; otherwise it is reported, never returned |
| `Lifecycle.ClaimNeverConflicts` | src/distributed/coordinator_sqlite.rs:370-385 | in reachable states a claim errs exactly when it is malformed; the conflict branches are dead |
| `Lifecycle.TerminalForever` | src/distributed/protocol.rs:276-284 | a terminal row is never written again |
| `Lifecycle.SubmitFindsTheJob` | src/distributed/coordinator_sqlite.rs:254-309 | resubmitting a specification after any run inserts nothing and finds the one job with its original budget and deadline |
| `Lifecycle.RowEffect` | src/distributed/coordinator_sqlite.rs:164-674 | every change any action makes to a row is one of the listed writes, guarded as listed |
| `Completion.AdvanceSucceedsIff` | src/distributed/coordinator_sqlite.rs:164-231 | a forward transition succeeds if and only if it was done before, by the same worker under the same generation, or the caller holds the live lease of a job in the expected state; doing it writes that row's state, time and lease, the receipt, and nothing else, and the reply shows the row |
| `Completion.HeartbeatSucceedsIff` | src/distributed/coordinator_sqlite.rs:421-463 | a heartbeat succeeds if and only if the caller holds the lease, and moves nothing but its expiry and update time, never past the deadline; the reply shows the row |
| `Completion.FailSucceedsIff` | src/distributed/coordinator_sqlite.rs:493-546 | a failure report succeeds if and only if it was made before or comes from the holder; it requeues exactly a retryable, unpublished attempt with attempts left, records the cause, and writes nothing but that row and its receipt |
| `Completion.CancelSucceedsIff` | src/distributed/coordinator_sqlite.rs:548-592 | a cancel succeeds if and only if the job exists and is cancelled or in the expected state; a live job ends cancelled without lease or cause, a terminal one is left alone, and no other row changes |
| `Completion.SubmitSucceedsIff` | src/distributed/coordinator_sqlite.rs:254-309 | a submission succeeds if and only if it is well formed, its project lives and its key is free or taken by the same specification; a free key gets exactly the submitted specification, queued with a full budget and deadline, no other row changes, and the reply carries it |
| `Completion.ResubmissionFindsTheJob` | src/distributed/coordinator_sqlite.rs:270-309 | a submission that succeeded, sent again under any request id after any run, inserts nothing and finds the same job with the same specification, budget and deadline |
| `Completion.ClaimLeases` | src/distributed/coordinator_sqlite.rs:321-405 | a claim sweeps its project and grants at most one queued job: the next generation, to the claimant, until the earlier of its term and the deadline; no other row changes and the reply shows the row |
| `Refusals.SubmitRefuses` | src/distributed/coordinator_sqlite.rs:254-309 | the cause of each error of a submission, both ways, and that no other error occurs |
| `Refusals.AdvanceRefuses` | src/distributed/coordinator_sqlite.rs:164-231 | the cause of each error of a forward transition, both ways; a cancelled job answers that the lease is lost |
| `Refusals.HeartbeatRefuses` | src/distributed/coordinator_sqlite.rs:421-463 | the cause of each error of a heartbeat, both ways |
| `Refusals.FailRefuses` | src/distributed/coordinator_sqlite.rs:493-546 | the cause of each error of a failure report, both ways |
| `Refusals.CancelRefuses` | src/distributed/coordinator_sqlite.rs:548-592 | the cause of each error of a cancel, both ways |
| `Receipts.ReachableReceiptsSpent` | src/distributed/coordinator_sqlite.rs:734-824 | in every reachable state the generation of each receipt has left the recorded phase behind, so no receipt can answer for a phase still to do |
| `Completion.ClaimedJobCanComplete` | src/distributed/coordinator_sqlite.rs:321-491 | in any reachable state the claim that takes a job can start, begin publishing and complete it, at any later times and amid any traffic that leaves its lease in place |
| `Completion.ClaimedJobCompletesAtOnce` | src/distributed/coordinator_sqlite.rs:321-491 | with nothing in between the lease is in place throughout |
| `Completion.HolderAdvances` | src/distributed/coordinator_sqlite.rs:176-185 | a live holder's next phase is never answered from an old receipt |
| `Completion.FreshGraphWins` | src/distributed/publication_sqlite.rs:470-566 | a holder publishing a new snapshot against the current version, within the quotas, wins: the view moves to it, reads find it, the job completes |
| `JobInvariant.ClaimKeeps` | src/distributed/coordinator_sqlite.rs:321-405 | sweeping and granting in one transaction keeps every row well formed and only moves rows forward |
| `JobInvariant.Authorized` | src/distributed/coordinator_sqlite.rs:676-692 | on well-formed rows authorization succeeds exactly for the row's worker and generation before lease expiry; the deadline adds nothing |
| `JobInvariant.RowLoads` | src/distributed/coordinator_sqlite.rs:826-916 | every well-formed row decodes to a valid record, and only a wrong kind is reported missing |
| `Maintenance.ReclaimExpired` | src/distributed/coordinator_sqlite.rs:612-674 | the four updates in sequence equal one simultaneous judgement of every row, and each count is the rows so judged |
| `Maintenance.FourUpdates` | src/distributed/coordinator_sqlite.rs:612-674 | each update, run after the ones before it, matches exactly the rows one judgement assigns to it, so no row is touched twice |
| `Maintenance.SweepDecides` | src/distributed/coordinator_sqlite.rs:612-674 | what becomes of each row, from its fields: past its deadline a live job fails with `job.timeout`; before it an expired lease fails a job without attempts left with `job.attempt_limit` and requeues any other without a cause; every other row and every other field stays |
| `Maintenance.ReclaimWrites` | src/distributed/coordinator_sqlite.rs:594-610 | a reclaim request of the right version answers, adds and removes no job, and writes no other table |
| `Maintenance.CountsAreChanges` | src/distributed/coordinator_sqlite.rs:669-673 | the reported counts are the numbers of rows whose contents changed, by the state they were given |
| `Maintenance.SweepLeavesNothingExpired` | src/distributed/coordinator_sqlite.rs:612-674 | afterwards no lease or deadline of a live job of the project has passed, and other projects are untouched |
| `Maintenance.SweepTwice` | src/distributed/coordinator_sqlite.rs:612-674 | a second sweep at the same time does nothing and counts nothing |
| `Maintenance.NoCancellationsToReclaim` | src/distributed/coordinator_sqlite.rs:622-630 | the cancelled count is zero in every reachable state |
| `Convergence.AttemptsConverge` | src/distributed/fact_store_sqlite.rs:303-549 | after any crashes, lost replies, late deadlines, sweeps and takeovers, a live job's rows are a prefix of the one output and no attempt has more than that prefix acknowledged |
| `Convergence.AttemptIsAccepted` | src/distributed/fact_store_sqlite.rs:420-512 | an attempt that holds the lease and answers in time sees only Stored or Reused, or a project quota error; for a batch that is already stored it sees Reused whatever the quota |
| `Convergence.AcknowledgedMeansWhole` | src/distributed/worker/execution.rs:165-203 | an attempt that saw every batch acknowledged has the output stored exactly once and whole |
| `Convergence.RetryCompletes` | src/distributed/worker/execution.rs:165-203 | amid heartbeats, other workers and other jobs, from any prefix, a retry whose emissions meet a live lease, and quota (after terminal jobs' batches are dropped) for the batches not stored yet, has the output stored exactly once and whole after as many emissions as were missing |
| `Convergence.EmissionsAreAcknowledged` | src/distributed/fact_store_sqlite.rs:420-512 | each of those emissions is acknowledged, whatever happens in between |
| `Convergence.RetryAlone` | src/distributed/worker/execution.rs:165-203 | an undisturbed retry needs room, after terminal jobs' batches are dropped, only for the batches not stored yet; it sees only Stored and Reused and ends with exactly the output stored |
| `Convergence.LiveRowsAccumulate` | src/distributed/fact_store_sqlite.rs:367-383 | while a job is not terminal its batches only accumulate, and once the final batch is stored the set is frozen |
| `Convergence.ReachableFactsWithinQuota` | src/distributed/fact_store_sqlite.rs:637-639 | count and byte quotas and the single final marker hold in every reachable state |
| `FactInvariant.PutKeeps` | src/distributed/fact_store_sqlite.rs:303-512 | quotas, row identity, unique batch ids and the single final marker survive every put, whatever its outcome or timing |
| `FactInvariant.FreshBatchId` | src/distributed/fact_store_sqlite.rs:634-635 | a valid batch under a free key has an id no stored row has, so its insert never trips the unique index |
| `FactInvariant.PutOnlyStoresOnce` | src/distributed/fact_store_sqlite.rs:522-549 | anything but a commit of a new batch leaves every row as it was, terminal cleanup included; DeadlineExceeded may hide either |
| `PutMeaning.StoredPutLeaves` | src/distributed/fact_store_sqlite.rs:367-383 | after a put that stores, the rows are exactly the batch and every earlier row that is not of a complete, failed or cancelled job of the project |
| `PutMeaning.CleanupMakesRoom` | src/distributed/fact_store_sqlite.rs:367-383 | a project full of batches of ended jobs still takes a batch and drops all of theirs |
| `PutMeaning.PutStoresIff` | src/distributed/fact_store_sqlite.rs:303-512 | a put stores if and only if the batch is well formed and small enough, the project lives, the sender holds the running job, the key is free, no final batch is stored, and it fits beside the batches and bytes of jobs that have not ended |
| `PutMeaning.RefusalCauses` | src/distributed/fact_store_sqlite.rs:303-418 | each refusal before the rows are looked at has its cause, both ways: malformed, too large, deleted project, no live lease |
| `PutMeaning.AdmittedAnswers` | src/distributed/fact_store_sqlite.rs:420-512 | each answer to an admitted batch has its cause, both ways: reuse, conflict, count quota, byte quota, stored |
| `PutMeaning.LateAnswers` | src/distributed/fact_store_sqlite.rs:522-549 | a deadline noticed before the commit undoes the put, one noticed after it hides only the answer |
| `PutMeaning.ReachableBatchesFit` | src/distributed/fact_store_sqlite.rs:475-511 | in every reachable state a project has no more batches and bytes than its quota, counted one by one, and every stored batch is well formed under its own key |
| `FactInvariant.PutAgainIsReused` | src/distributed/fact_store_sqlite.rs:420-451 | re-putting a stored batch under live authority is Reused and changes nothing |
| `FactInvariant.ProgressMeaning` | src/distributed/worker.rs:587-594 | the completeness check holds if and only if the stored rows are sequences 0..n of one shard with only the last final |
| `FactInvariant.ProgressAgreesWithIngestion` | src/distributed/publication_sqlite/write/prepare.rs:402-425 | the worker's completeness check and the publisher's stream check accept the same stored rows |
| `CoordinatorStore.JobCoordinator.Submit` | src/distributed/coordinator_sqlite.rs:254-309 | the insert, its load-back and its rollback are the submission transaction |
| `CoordinatorStore.JobCoordinator.Claim` | src/distributed/coordinator_sqlite.rs:321-405 | sweep, selection loop and lease commit together, roll back together, and equal the claim transaction |
| `CoordinatorStore.JobCoordinator.TransitionWithLease` | src/distributed/coordinator_sqlite.rs:164-231 | row update and receipt are written together or not at all, as the transition transaction says |
| `CoordinatorStore.JobCoordinator.Heartbeat` | src/distributed/coordinator_sqlite.rs:421-463 | renews exactly the authorized row, never past its deadline |
| `CoordinatorStore.JobCoordinator.Fail` | src/distributed/coordinator_sqlite.rs:493-546 | row update and failure receipt are written together or not at all |
| `CoordinatorStore.JobCoordinator.Cancel` | src/distributed/coordinator_sqlite.rs:548-592 | the cancellation transaction, including its idempotent and terminal answers |
| `CoordinatorStore.JobCoordinator.Reclaim` | src/distributed/coordinator_sqlite.rs:594-610 | the maintenance transaction over the four updates |
| `CoordinatorStore.SelectNext` | src/distributed/coordinator_sqlite.rs:335-358 | the scan returns the one queued job no other precedes by creation time and id |
| `ClaimOrder.ClaimServesTheOldest` | src/distributed/coordinator_sqlite.rs:335-362 | a claim comes back empty exactly when nothing is claimable after the sweep, and otherwise leases the oldest |
| `PublicationStore.PublicationStore.Publish` | src/distributed/publication_sqlite.rs:470-737 | the step-by-step transaction, with its quota sums, partial writes and rollback, equals the publication function in tables and outcome |
| `PublicationStore.PublicationStore.InsertRevision` | src/distributed/publication_sqlite/write.rs:581-685 | inserts, reuses or refuses a revision with the stored totals summed row by row |
| `FactBatchStore.FactBatchStore.PutInner` | src/distributed/fact_store_sqlite.rs:303-512 | the put with its cleanup, checks and rollback equals the put transaction |
| `FactBatchStore.FactBatchStore.Put` | src/distributed/fact_store_sqlite.rs:522-549 | a deadline noticed after the commit replaces the reply, not the effect |
| `FactBatchStore.FactBatchStore.RowsForJob` | src/distributed/fact_store_sqlite.rs:241-299 | lists each of the job's rows exactly once, strictly ordered by shard and sequence |
| `FactBatchStore.FactBatchStore.OutputIsComplete` | src/distributed/worker/execution.rs:205-219 | the worker's final check answers whether the stored rows are one whole stream |
| `JsonSort.SortByJsonKey` | src/json_size.rs:30-40 | fails exactly when some value has no encoding; otherwise the keyed vector sort is the stable sort of the values |
| `JsonSort.JsonOrderIsStable` | src/json_size.rs:30-40 | the result ascends by key, is a permutation, and keeps values with equal keys in arrival order |
| `Ordering.LexMeaning` | src/json_size.rs:30-40 | the order of keys: the first difference decides, and a prefix comes first |
| `FragmentMerge.GraphMerger.Merge` | src/distributed/worker.rs:365-390 | merging succeeds if and only if no two facts merged so far share an id and differ, and then holds exactly those facts |
| `FragmentMerge.MergeMemoryFragment` | src/distributed/worker.rs:408-436 | the same for entities and relationships |
| `FragmentMerge.GraphMerger.Finish` | src/distributed/worker.rs:394-405 | sorting by JSON key never fails; nodes and edges come out strictly ascending by id, diagnostics sorted, deduplicated and truncated |
| `FragmentMerge.CanonicalMeaning` | src/distributed/worker.rs:394-405 | the finished diagnostics are the least by encoding, each once: all when there are few enough, otherwise as many as allowed, none after one left out |
| `FragmentMerge.MergeIsOrderIndependent` | src/distributed/worker.rs:357-406 | the finished output depends only on which facts were merged: any order, grouping or repetition gives the same nodes, edges and diagnostics |
| `FragmentMerge.PermutationsMergeAlike` | src/distributed/worker.rs:357-406 | permuting fragments changes neither the facts nor whether merging succeeds |
| `Diagnostics.EncodingInjective` | src/repository_graph/domain.rs:515-525 | no two different diagnostics, graph or memory, serialize to the same JSON |
| `Json.EncodeInjective` | src/json_size.rs:30-40 | compact JSON text with its string escapes determines the value |
| `Json.DecimalMeaning` | src/json_size.rs:30-40 | numbers are written in decimal without leading zeros |
| `Json.EncodedText` | src/json_size.rs:30-40 | the punctuation of a list and of an object, character by character |
| `Json.EscapedText` | src/json_size.rs:30-40 | the short escapes, character by character |
| `KeyedMap.Absorb` | src/distributed/publication_sqlite/write/prepare.rs:427-446 | inserting by key succeeds if and only if no two values share a key and differ |
| `Chunking.Payloads` | src/distributed/worker.rs:438-508 | sorting never fails, and the payloads are exactly the limit-sized chunks of the sorted flat list, max(1, ceil(total/limit)) of them, whose concatenation is that list |
| `Chunking.OrderedMeaning` | src/distributed/worker.rs:438-508 | the emitted lists never descend by id or encoding and are permutations of the extracted ones |
| `Chunking.FlatInjective` | src/distributed/worker.rs:438-473 | a payload is determined by its flat list, so equal chunks mean equal payloads |
| `Chunking.TakePrefix` | src/distributed/worker.rs:510-514 | moves as many leading items as still fit and counts them off |
| `Chunking.SplitPayload` | src/distributed/worker.rs:516-563 | refused exactly below two facts; otherwise two non-empty pieces, the first with half the facts rounded down, whose flat lists concatenate to the original |
| `Chunking.SizePayloads` | src/distributed/worker/execution.rs:842-884 | the deque loop terminates and computes the sizing function |
| `Chunking.SizedPreservesStream` | src/distributed/worker/execution.rs:842-884 | repeated splitting keeps the stream of facts, and every payload fits at exactly the sequence number and final marker it is emitted with |
| `Chunking.FittingStays` | src/distributed/worker/execution.rs:842-884 | payloads that fit where they are emitted are not split |
| `Chunking.SizedSucceeds` | src/distributed/worker/execution.rs:842-884 | sizing succeeds whenever pieces of the pending payloads measure, single facts fit and sequence numbers cannot run out |
| `Emission.SizedPayloadsAreOneOutput` | src/distributed/worker/execution.rs:165-187 | the batches emitted from sized payloads form one whole output within the byte limit, so the emission loop's own size check never fires |
| `Preparation.PrepareGraph` | src/distributed/publication_sqlite/write/prepare.rs:5-128 | preparation succeeds if and only if the batches are one whole stream of the requested snapshot, consistent, closed under references and within the limit, and then yields exactly their facts in order |
| `Preparation.PreparableMeaning` | src/distributed/publication_sqlite/write/prepare.rs:5-88 | what a preparation checks, batch by batch and fact by fact: place in the stream, target, build, extractors, agreement on shared ids, resolved references, total |
| `Fidelity.PublisherReadsTheExtraction` | src/distributed/publication_sqlite/write/prepare.rs:5-128 | once every batch of a finished fragment is stored, what the publisher lists, validates and merges is that fragment, fact for fact, and preparing it succeeds exactly when it is closed and small enough |
| `EndToEnd.PublishedIsExtracted` | src/distributed/publication_sqlite.rs:470-566 | once the extraction is stored whole, the holder's publication of what it lists and prepares wins, for a new snapshot and for one stored before under the same digest, and published reads then load exactly the extracted lists of nodes, edges and diagnostics |
| `EndToEnd.ExtractionIsPublished` | src/distributed/publication_sqlite.rs:743-761 | end to end: attempts crash, restart and lose replies until one has its output acknowledged; then, with anything in between, the publisher lists, prepares and wins; in every later state readers load the extracted fragment and no other |
| `EndToEnd.StoredIsPublished` | src/distributed/publication_sqlite.rs:743-761 | the same from a whole stored output on |
| `EndToEnd.SnapshotsStayHonest` | src/distributed/publication_sqlite/write.rs:581-685 | in every run whose graph publications come from preparations, each stored snapshot holds exactly the graph its digest belongs to |
| `EndToEnd.CommittedHolds` | src/distributed/publication_sqlite/write.rs:581-685 | the committed revision holds the prepared graph, whether inserted or reused |
| `EndToEnd.HolderWins` | src/distributed/publication_sqlite.rs:470-566 | a live holder that expects the current version wins, with a new snapshot there is room for or a stored one with the same record |
| `FactEncoding.EncodeFacts` | src/distributed/publication_sqlite/write/prepare.rs:450-464 | appending the encoded nodes, edges and diagnostics gives the stored facts in that order |
| `FactEncoding.PlainFactsInjective` | src/distributed/publication_sqlite/write/prepare.rs:95-106 | stored facts determine the graph they were encoded from |
| `FactEncoding.FactSetDigestInjective` | src/distributed/publication_sqlite/write/prepare.rs:90-94 | graphs with the same fact-set digest are equal |
| `GraphReader.LoadGraph` | src/distributed/publication_sqlite/validation.rs:23-81 | the loading loop returns what reading the facts in order of kind and id, decoding each and checking the counts gives |
| `GraphReader.StoredOrder` | src/distributed/publication_sqlite/read.rs:263-324 | ordered by kind and id, the stored facts of a prepared graph are its diagnostics, edges and nodes, each list in its prepared order |
| `GraphReader.LoadedIsStored` | src/distributed/publication_sqlite/validation.rs:23-81 | round trip: a stored graph is loaded again, list for list, by any decoder that undoes the encoding |
| `Fidelity.FinishedInOrder` | src/distributed/worker.rs:394-405 | what the merger finishes is such a fragment |
| `Extractors.RepositoryExtractorSelection` | src/distributed/worker.rs:324-355 | the mask search answers exactly for non-empty subsets of the built-in extractors; an id is selected exactly when a requested extractor has it and it is not the resolver, and the flags say whether the generic extractor and the resolver were requested |
| `ObjectStore.BatchStoresAll` | src/distributed/object_store.rs:537-702 | a successful batch leaves, for every requested object, a row that reads back the bytes put, results in request order, quotas kept, and nothing else touched |
| `ObjectStore.BatchAnswers` | src/distributed/object_store.rs:555-648 | each answer to a batch has its policy cause; for admissible inputs the count and byte totals over the new objects decide it both ways, and on an intact store integrity and I/O errors cannot occur |
| `ObjectStore.QuotasCount` | src/distributed/object_store.rs:555-648 | the quotas count the project's objects and bytes one by one |
| `ObjectStore.ReadSucceedsIff` | src/distributed/object_store.rs:704-710 | a read returns bytes if and only if the object has a row under that identity and its file was sealed for this very object and holds the bytes its digest names |
| `ObjectStore.LookupMeaning` | src/distributed/object_store.rs:442-535 | a checked object counts as stored only with its row and its own sealed bytes; a row with a missing, damaged or foreign file is an error |
| `ObjectStore.SingleVersusBatch` | src/distributed/object_store.rs:442-535 | a single put equals a batch of one in rows, outcome and error if and only if the object is new, refused anyway, or the project is within its quota |
| `ObjectStore.SingleIsBatchOfOne` | src/distributed/object_store.rs:442-535 | within the store's own quota the two always agree |
| `ObjectStore.LoweredQuotaSplitsThem` | src/distributed/object_store.rs:625-648 | two objects stored under a quota of two: reopened with a quota of one, the store reuses singly what it refuses as a batch |
| `ObjectStore.EncryptedObjectStore.PutVerified` | src/distributed/object_store.rs:442-535 | one object with its quota sums; a failing seal or commit leaves the rows as they were; every row keeps its bytes and quotas hold |
| `ObjectStore.EncryptedObjectStore.PutVerifiedBatch` | src/distributed/object_store.rs:537-702 | the staging, lookup and writing loops equal the batch function, or a failing write leaves the rows as they were and removes the files it created |
| `ObjectStore.EncryptedObjectStore.StoreAll` | src/distributed/object_store.rs:650-702 | a fault at any step restores rows and file names exactly |
| `SpecMilestones.ParseSpec` | src/specs.rs:106-155 | the block-by-block scan finds exactly the milestones each line introduces on its own |
| `SpecMilestones.MilestoneMeaning` | src/specs.rs:106-155 | a header introduces a milestone exactly when the last id before the next header is there and not empty; its dependencies are the last ones there, or none |
| `SpecRoundTrip.RenderedFileParses` | src/specs.rs:106-155 | round trip: a file listing milestones with header, id and dependency lines is parsed as exactly those milestones |
| `SpecRoundTrip.HeaderReads` | src/specs.rs:372-394 | of a header line the box is read as completion, the next word as marker and the rest as title |
| `SpecRoundTrip.FieldReads` | src/specs.rs:396-401 | of a child line what follows the field's name and colon is its value |
| `SpecMilestones.MarkCompletes` | src/specs.rs:439-443 | marking an open header line gives the same marker and title, completed, because its box is the first on the line |
| `SpecText.LinesOfWritten` | src/specs.rs:446-453 | reading back written lines gives the same lines except one lost trailing blank line |
| `SpecText.LinesMeaning` | src/specs.rs:106-155 | the lines of a file, joined again, are the file without its last newline |
| `SpecEdit.EditThenReparse` | src/specs.rs:218-241 | completing a milestone and parsing the written file gives the same milestones with only the first matching one completed |
| `SpecEdit.EditTouchesOneLine` | src/specs.rs:218-241 | completing a milestone ticks the first open box on its header line and changes no other line, up to one lost trailing blank line; without an open match the file is unchanged |
| `SpecEdit.CompleteMilestone` | src/specs.rs:218-241 | the edit as it runs produces that file |
| `SpecEdit.PlanOnlyAdvances` | src/specs.rs:157-193 | in the plan read from the edited file no ready item becomes pending, done stays done, and every blocked-by list only shrinks |
| `SpecEdit.PlanMeaning` | src/specs.rs:157-193 | an item is done exactly when completed, ready exactly when every dependency names a completed milestone by id or marker, and blocked by exactly the dependencies that do not |
| `SpecEdit.DependenciesMeaning` | src/specs.rs:403-420 | the dependencies are the trimmed non-blank parts between commas, unless the list says there are none |
| `SpecText.SplitMeaning` | src/specs.rs:403-420 | splitting cuts at every separator and loses nothing |

## Left out

- AES-GCM, SHA-256 and the JSON of batches and requests: digests are injective, the size of an encoded batch is a parameter, and encrypted values are their plaintexts. Decoding JSON is a parameter that undoes the encoding.
- SQLite mechanics: busy timeouts, progress handlers, WAL, schema creation and row decoding failures from a corrupted file.
- Clocks and deadlines of the host process: a request carries its time, and a bounded call carries when its deadline is noticed.
- The fact store opened without an attached coordinator, which skips the lease check and the terminal cleanup.
- Machine-width saturation of quota sums above `u64::MAX`, which no stored total can reach.
- The purge and tombstone bodies of `src/distributed/maintenance_sqlite.rs`: a tombstone is a flag any step may set or clear.
- `src/distributed/api.rs`, `src/distributed/api_sqlite.rs`, `src/distributed/security.rs` and `src/distributed/identity.rs`: pagination, search, permission tables and token checks would only add easy members.
- Extraction, parsing and link resolution: fragments are arbitrary inputs, and whether facts match a target is an input flag.
- Preparing a memory publication, which also separates repository relationships: its prepared output is an arbitrary input of the publication. Graph preparation is modelled; a diagnostic's fact id, which orders diagnostics when they are prepared and when they are read back, is its encoding instead of the hash of it.
- Loading memory revisions and link sets, and the read budget; loading a graph snapshot is modelled.
- The worker's counters, deadlines and authorization polls between puts: an attempt may stop at any point instead.
- Interleaving of object-file cleanup with another process after a rollback: object calls run one at a time.
- The Outcome section editor, display names and spec listing of `src/specs.rs`.
- Command line, agents, HQ, configuration, update check, project registry, and the graph and memory runtimes.
- SpecMilestones.ParseSpec: reads every line before scanning, where the source reads lines as the scan reaches them; reading a line has no effect.
