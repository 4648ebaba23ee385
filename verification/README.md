# A verified model of the CodeJudge work protocol

CodeJudge evaluates submitted source code as durable *jobs* and benchmarks language models as durable
*samples*. PostgreSQL holds the rows, a transactional outbox feeds a Redis stream that delivers at least
once, and workers claim a row, keep a lease alive, write their evidence and finish or fail. A
maintenance loop republishes outbox events and takes rows back from workers whose lease ran out. This
project models that protocol as state machines and proves what the design promises over every run. It
also models the stateful oracles behind the coding tasks, and three pieces of derived data.

| file | subject |
|---|---|
| `Core.dfy`, `Retry.dfy`, `Lexical.dfy`, `Sorting.dfy` | options and time, the backoff policy, string order, sorting |
| `Delivery.dfy` | outbox, publisher batches, queue and acknowledgement, over abstract rows |
| `Publisher.dfy` | one pass of the outbox publisher |
| `JobRepository.dfy`, `JobProtocol.dfy` | the job store, and jobs end to end |
| `SampleRepository.dfy`, `SampleProtocol.dfy` | the sample store, and samples end to end with the lease heartbeat |
| `JobCompletion.dfy`, `SampleCompletion.dfy` | from every reachable state, jobs, samples and runs can still be finished |
| `RunFinalization.dfy` | the derived status of a run under concurrent transactions |
| `FrameDecoder.dfy`, `DependencyResolver.dfy`, `TtlCache.dfy`, `CacheEviction.dfy`, `RateLimiter.dfy`, `ConfigMerge.dfy` | the oracles of the coding exercises |
| `Pagination.dfy`, `Leaderboard.dfy`, `ScoreShares.dfy`, `Fingerprints.dfy` | the two-table listing, scores and winners, the fingerprint stream |

## How the protocol is modelled

A system state holds the rows, artifacts, snapshots, outbox, unacknowledged messages, publisher batches,
what each worker remembers, and the clock. `Enabled` and `Apply` give the steps; a run is any sequence of
enabled steps, so crashes (`Abandon`, `Drop`, `DropListing`), lost replies, duplicate publications and
duplicate deliveries may happen at any point. A transaction carries the clock reading its caller took,
which may be older than the clock when it commits.

Every outbox event, and the message made from it, is tagged with the attempt count its row had when the
event was written. No guard reads the tag. It lets the invariant say that a message which finds its row
not claimable stands for a wake-up that was already served. That is why acknowledging after a refused
claim is safe even while a job's backoff deadline lies ahead: the message that was written for the
current attempt cannot arrive before that deadline.

Each store has two forms. The `After...` functions give the effect of a committed transaction and are
what the protocol steps use. The class `Repository` performs the same transactions field by field, and
each of its methods is proved to have exactly the effect of its function.

Assumptions:

- One nondecreasing clock serves the database, the publishers and the workers.
- A worker id has at most one attempt in flight (app/benchmarks/worker_main.py:117-137).
- A cancelled renewal has either committed before the cancellation returns or never commits.
- Except in `RunFinalization`, a transaction is atomic.
- Identities are fresh, and lease and base delay are positive (app/core/config.py:172-178).

## Main results

- **No lost work.** `JobProtocol.NoJobIsLost`, `SampleProtocol.NoSampleIsLost`.
- **Nothing gets stuck.** `JobCompletion.EveryJobCanFinish`, `SampleCompletion.EverySampleCanFinish`,
  `SampleCompletion.EveryRunCanFinish`: from every reachable state some continuation finishes the work,
  using only a new worker, a new publisher pass and the passing of time.
- **Idempotent requests.** `JobProtocol.OneJobPerKey`.
- **Run status.** `SampleProtocol.RunSaysWhatItsSamplesSay`, `SampleProtocol.EndedRunsStay`, and
  `RunFinalization.RunStatusIsDerived`: for any interleaving of statements, a committed
  run is finished exactly when its samples are, partial exactly when one was skipped, and never changes
  afterwards.
- **Fencing.** `SampleProtocol.StaleWorkerChangesNothing`, `ExpiredLeaseChangesNothing`,
  `StatusTellsEvidence` and `SampleProgressIsBounded`.
- **Belief implies ownership.** `SampleProtocol.BeliefImpliesOwnership`.
- **Cumulative backoff.** `JobProtocol.BackoffAccumulates`.
- **Bounded progress.** `JobProtocol.JobProgressIsBounded`, `SampleProtocol.SampleProgressIsBounded`.
- **Decoder.** `ChunkInvariance`, `RoundTrip`, `OnlyEncodingsAreAccepted`, `RetainedBufferIsBounded`.
- **Resolver.** `Resolve` returns the lexicographically least topological order, or the cycle error
  exactly when there is a cycle.
- **Cache, limiter and merge.** `CacheInclusion`, `HitsAreFresh`, `CacheEviction.GetIsExact`,
  `AllowCountsHistory`, `CallsKeepLimit`, `LayerCompaction`, `MergeIsCharacterized`.
- **Derived data.** `CandidatesSuffice`, `PageShows`, `EligibleWinnerIsBest`, `MeanIsShared`,
  `AdjustedIsZeroFilledMean`, `BytesIdentifyTests`.

## Model

| member | source | states |
|---|---|---|
| `Retry.RetryDelay` | app/jobs/retry.py:23-26 | The delay after an attempt, never less than the base. |
| `Retry.TotalDelayClosedForm` | app/jobs/retry.py:23-26 | The delays before attempt n add up to base times (3^(n-1) - 1) / 2. |
| `Delivery.InvImpliesNoLostWork` | app/queue/outbox.py:30-50 | A row that waits for a claim has an unpublished event or an unacknowledged message for its current attempt. |
| `Delivery.MailKeepsInv` | app/queue/outbox.py:30-50 | Listing, enqueuing, marking, delivering, acknowledging, crashing and the passing of time keep the delivery invariant. |
| `Delivery.EnqueueKeepsInv` | app/benchmarks/queue.py:122-135 | Publishing an event, for the first time or again, never creates a message that is early for its row. |
| `Delivery.MarkKeepsInv` | app/benchmarks/repositories.py:680-702 | Marking an event published after enqueuing, or failed at any time, loses no wake-up. |
| `Delivery.AcknowledgeKeepsInv` | app/worker/service.py:147-148 | Removing a message whose wake-up was served loses nothing. |
| `Delivery.RefusedMeansPast` | app/worker/service.py:57-68 | If a row cannot be claimed with a message in hand, then that message belongs to an attempt already started, or the row is finished. |
| `Delivery.TransactionKeepsInv` | app/jobs/repositories.py:361-403 | A transaction that moves rows forward and writes an event for each row that starts to wait keeps the invariant. |
| `Delivery.RowStepKeepsInv` | app/benchmarks/repositories.py:509-550 | The same for one row and its one event. |
| `Publisher.OutboxPublisher.ReadyOutbox` | app/jobs/repositories.py:450-467 | The oldest ready, unpublished events, up to the limit and no others. |
| `Publisher.OutboxPublisher.HandleOne` | app/queue/outbox.py:33-49 | Enqueue then mark for one event: published exactly when the queue accepted it, else due again after base times three to the failed tries; the message added; the delivery invariant, whichever way the queue answers. |
| `Publisher.OutboxPublisher.DispatchOnce` | app/queue/outbox.py:30-50 | Every listed event is published with its message queued or put off by its backoff; the count returned is the accepted ones; other events are untouched; no wake-up is lost. |
| `JobRepository.Repository.constructor` | app/jobs/repositories.py:91-111 | An empty store is valid. |
| `JobRepository.Repository.Create` | app/jobs/repositories.py:91-111 | A request gets the answer its key calls for: a queued row with its key, fingerprint and limits and one event due now; the job that has the key; or a conflict. Only the first changes the store. |
| `JobRepository.Repository.Claim` | app/jobs/repositories.py:258-292 | Succeeds exactly for a queued row or a waiting row past its deadline, and writes attempt, worker, start and lease; otherwise changes nothing. |
| `JobRepository.Repository.RenewLease` | app/jobs/repositories.py:294-316 | Extends the lease exactly for the running row's own worker. |
| `JobRepository.Repository.Complete` | app/jobs/repositories.py:318-359 | True exactly when the job is completed afterwards; for the owner, and for no one else, it stores the snapshot and closes the row. |
| `JobRepository.Repository.RecordFailure` | app/jobs/repositories.py:361-403 | Only the owner's failure is recorded. The job fails for good exactly when the failure is not retryable or the attempts are used up; otherwise it waits for now plus base times 3^(attempts-1), with one new unpublished event due then. |
| `JobRepository.Repository.FailRow` | app/jobs/repositories.py:384-403 | The same for one row, leaving every other row alone and staying within the transition table. |
| `JobRepository.Repository.SelectStale` | app/jobs/repositories.py:412-424 | Expired leases only, without repetition, oldest first, skipping locked rows; what is left out is newer and the limit was reached. |
| `JobRepository.Repository.RecoverStale` | app/jobs/repositories.py:405-448 | Each selected row fails as retryable, all others are unchanged, and afterwards a row is stale only if it was locked elsewhere or the limit was reached. |
| `JobRepository.Repository.RecoverBatch` | app/jobs/repositories.py:425-446 | The loop over the selected rows equals recovering them one by one. |
| `JobRepository.KeyHasOneAnswer` | app/jobs/repositories.py:523-529 | A stored key has one answer: its own job for the same fingerprint, a conflict for another. |
| `JobRepository.FailureDecides` | app/jobs/repositories.py:388-399 | What a failure does to row and outbox, by retryable and attempts left. |
| `JobRepository.RecoveriesDecide` | app/jobs/repositories.py:405-448 | A batch fails each stale row in it and leaves the others alone. |
| `JobRepository.RecoveriesClear` | app/jobs/repositories.py:405-448 | What is stale after a batch was stale before, was not in it, and is unchanged. |
| `JobRepository.FailureKeepsValid` | app/db/models.py:180-188 | A failure keeps the table's constraints. |
| `JobProtocol.StepKeepsInv` | app/worker/service.py:45-148 | Every step of the job protocol keeps its invariant. |
| `JobProtocol.ClaimKeepsInv` | app/worker/service.py:57-68 | A claim, or the acknowledgement that follows a refused claim, keeps the invariant. |
| `JobProtocol.ClaimKeepsHistory` | app/jobs/repositories.py:272-284 | An attempt starts no earlier than the deadline set from the previous start. |
| `JobProtocol.RenewKeepsInv` | app/worker/service.py:187-208 | A heartbeat renewal keeps the invariant. |
| `JobProtocol.FailureKeepsInv` | app/jobs/repositories.py:388-399 | An attempt that ends without success, reported or recovered, leaves a row that will be woken or is finished. |
| `JobProtocol.CompletionKeepsInv` | app/jobs/repositories.py:318-359 | A completion keeps the invariant. |
| `JobProtocol.RecoveriesKeepInv` | app/jobs/repositories.py:405-448 | A whole recovery batch keeps the invariant. |
| `JobProtocol.RunKeepsInv` | app/worker/service.py:45-148 | Every run keeps the invariant. |
| `JobProtocol.NoJobIsLost` | README.md:57-59 | In every reachable state a claimable job has a wake-up for its current attempt, a running one a worker and a lease, and a snapshot exists exactly for completed jobs. |
| `JobProtocol.BackoffAccumulates` | app/jobs/repositories.py:272-284 | In every run attempt n starts at least base times (3^(n-1) - 1) / 2 after the first, whatever is duplicated. |
| `JobProtocol.DelaysAccumulate` | app/jobs/retry.py:23-26 | Spaced starts are apart by the sum of the delays between them. |
| `JobProtocol.StepAdvancesJob` | app/jobs/state.py:5-20 | Each step follows the transition table, lowers the progress measure unless status and attempts stay, never changes a terminal job and never rewrites a snapshot. |
| `JobProtocol.StaleWorkerChangesNothing` | app/jobs/repositories.py:294-403 | Renewal, completion and failure of a worker whose attempt is no longer the row's leave the store as it was. |
| `JobProtocol.JobProgressIsBounded` | app/jobs/state.py:5-20 | Over any run the lifecycle changes of a job are bounded by its measure, and terminal jobs and snapshots stay. |
| `JobProtocol.KeyIsOwned` | app/jobs/repositories.py:91-111 | Over any run a job keeps its key and fingerprint, so a repeated key gets that job, or a conflict exactly when the fingerprint differs. |
| `JobProtocol.OneJobPerKey` | app/jobs/repositories.py:91-111 | The first request with a key creates its job; no later one ever creates a second. |
| `JobProtocol.LeaseIsExact` | app/jobs/repositories.py:294-316 | In every reachable state a worker's row is leased for exactly one lease from that worker's last reading, and no lease reaches further than one lease from now. |
| `SampleRepository.Repository.constructor` | app/benchmarks/repositories.py:193-224 | An empty store is valid. |
| `SampleRepository.Repository.CreatePlan` | app/benchmarks/repositories.py:193-224 | Stores a queued run, its samples and one due event for each, and keeps the store valid. |
| `SampleRepository.PlanIsStored` | app/benchmarks/repositories.py:193-224 | What a plan adds, row by row and event by event, and that nothing stored is touched. |
| `SampleRepository.Repository.Claim` | app/benchmarks/repositories.py:378-415 | Succeeds exactly for a queued or generated sample, resuming at evaluation when an artifact exists, and starts exactly a queued run. |
| `SampleRepository.Repository.RenewLease` | app/benchmarks/repositories.py:417-446 | Extends the lease exactly for the owner of an active, unexpired lease, and answers with the stored expiry. |
| `SampleRepository.Repository.StoreArtifact` | app/benchmarks/repositories.py:448-469 | Writes an artifact once; true exactly when the owner's hash is the stored one. |
| `SampleRepository.Repository.Complete` | app/benchmarks/repositories.py:471-507 | Completes only for the owner and with a matching snapshot, reports a conflict exactly when the stored snapshot differs, and afterwards the run says what its samples say: finished when this was the last one. |
| `SampleRepository.Repository.RecordFailure` | app/benchmarks/repositories.py:509-550 | Only the owner of an active lease records a failure. The sample is tried again exactly when it is retryable and an attempt is left, with one event after the backoff; otherwise it ends as failed generation or failed evaluation, and the run says what its samples say. |
| `SampleRepository.Repository.Release` | app/benchmarks/repositories.py:528-547 | The requeue-or-end effect on one sample row, its event and its run. |
| `SampleRepository.Repository.RecoverStale` | app/benchmarks/repositories.py:552-623 | Each row of the batch is requeued, or skipped after its last attempt; all others are unchanged, and every run says what its samples say. |
| `SampleRepository.Repository.ReconcileTerminalRuns` | app/benchmarks/repositories.py:625-647 | Whatever they said before, the over runs of the batch come out derived from their samples; a valid store is left as it is. |
| `SampleRepository.Repository.FinishRunIfTerminal` | app/benchmarks/repositories.py:722-751 | Changes only this run, only when all its samples have ended: partial exactly when one was skipped, keeping an earlier completion time. |
| `SampleRepository.ReleaseDecides` | app/benchmarks/repositories.py:528-547 | What the end of an attempt does to row and outbox, by retryable, attempts left and artifact. |
| `SampleRepository.ClaimKeepsRuns` | app/benchmarks/repositories.py:378-415 | A claim makes its run running, and a run is queued exactly until the first claim. |
| `SampleRepository.EndKeepsRuns` | app/benchmarks/repositories.py:504-504 | Ending a sample finishes its run exactly when it was the last one. |
| `SampleRepository.FinishIsIdle` | app/benchmarks/repositories.py:625-647 | Deriving a run again in a valid store changes nothing. |
| `SampleRepository.CompleteKeepsValid` | app/benchmarks/repositories.py:471-507 | Completion keeps rows and runs valid. |
| `SampleRepository.ReleaseKeepsValid` | app/benchmarks/repositories.py:509-623 | Failure and recovery keep rows and runs valid. |
| `SampleProtocol.StepKeepsInv` | app/benchmarks/worker.py:77-258 | Every step of the sample protocol keeps its invariant. |
| `SampleProtocol.ClaimKeepsInv` | app/benchmarks/worker.py:77-112 | A claim, or acknowledging after a refused one, keeps the invariant. |
| `SampleProtocol.RefuseKeepsInv` | app/benchmarks/worker.py:77-112 | Acknowledging a message whose sample is not claimable keeps the invariant. |
| `SampleProtocol.HeartbeatKeepsInv` | app/benchmarks/worker.py:349-498 | Sending, committing, losing and confirming renewals keeps every worker's belief backed by its row. |
| `SampleProtocol.RenewedKeepsInv` | app/benchmarks/repositories.py:417-446 | A committed renewal only moves the owner's lease forward. |
| `SampleProtocol.StoreKeepsInv` | app/benchmarks/worker.py:184-215 | Storing an artifact keeps the invariant. |
| `SampleProtocol.CompleteKeepsInv` | app/benchmarks/worker.py:162-258 | Completing keeps the invariant. |
| `SampleProtocol.FailKeepsInv` | app/benchmarks/worker.py:162-258 | Recording a failure keeps the invariant. |
| `SampleProtocol.RecoverKeepsInv` | app/benchmarks/repositories.py:563-606 | Recovery takes a row only after every expiry its worker was told has passed. |
| `SampleProtocol.RecoveriesKeepInv` | app/benchmarks/repositories.py:552-623 | A whole recovery batch keeps the invariant. |
| `SampleProtocol.RunKeepsInv` | app/benchmarks/worker.py:77-258 | Every run keeps the invariant. |
| `SampleProtocol.ReachableInv` | app/benchmarks/worker.py:77-258 | Every reachable state satisfies the invariant. |
| `SampleProtocol.NoSampleIsLost` | README.md:57-59 | In every reachable state a claimable sample has a wake-up for its current attempt, worker and lease exist exactly for samples in progress, and attempts stay within their maximum. |
| `SampleProtocol.BeliefImpliesOwnership` | app/benchmarks/worker.py:313-498 | While the last confirmed expiry is not past, the row names this worker and attempt, is in progress, and is leased at least that long, whatever renewals were lost. |
| `SampleProtocol.StatusTellsEvidence` | app/benchmarks/repositories.py:448-507 | Queued and generating mean no artifact, generated and evaluating mean one, a snapshot exists exactly for completed samples, and its hash is the artifact's. |
| `SampleProtocol.StaleWorkerChangesNothing` | app/benchmarks/repositories.py:834-843 | No write of a worker whose attempt was recovered or reassigned changes the store. |
| `SampleProtocol.ExpiredLeaseChangesNothing` | app/benchmarks/repositories.py:834-843 | Nor does any write whose clock reading is not before the stored expiry, recovered or not. |
| `SampleProtocol.RunSaysWhatItsSamplesSay` | app/benchmarks/repositories.py:722-751 | In every reachable state a run is queued exactly until its first claim, finished exactly when all its samples have ended, partial exactly when one was skipped, with start and completion times to match. |
| `SampleProtocol.EndedRunsStay` | app/benchmarks/repositories.py:722-751 | Over any run of the protocol the record of a finished run never changes. |
| `SampleProtocol.ReconcileIsIdle` | app/benchmarks/repositories.py:625-647 | Reconciliation finds nothing to repair, because the transaction that ends the last sample finishes the run. |
| `SampleProtocol.PlanKeepsInv` | app/benchmarks/repositories.py:193-224 | Creating a plan keeps the invariant. |
| `SampleProtocol.StepAdvancesStore` | app/benchmarks/repositories.py:378-623 | No step moves a row back, removes one, or rewrites an artifact or a snapshot. |
| `SampleProtocol.SampleProgressIsBounded` | app/benchmarks/repositories.py:389-405 | Over any run lifecycle changes are bounded by the measure; terminal samples, artifacts and snapshots never change. |
| `JobCompletion.MessageLeadsToCompletion` | app/worker/service.py:45-148 | A message for a claimable job lets a new worker complete it. |
| `JobCompletion.WaitingJobCanComplete` | app/jobs/repositories.py:258-292 | Every waiting job can still be completed, once its deadline and its event are due. |
| `JobCompletion.RunningJobCanFinish` | app/jobs/repositories.py:405-448 | A running job whose worker is gone can still end, and be completed if an attempt is left. |
| `JobCompletion.EveryJobCanFinish` | README.md:57-59 | The same from every reachable state. |
| `JobCompletion.FirstJobCanComplete` | app/worker/service.py:45-148 | From an empty store any request can be created and completed, so the theorems are about runs that exist. |
| `SampleCompletion.FirstRunCanFinish` | app/benchmarks/worker.py:77-258 | From an empty store any plan can be created and its run finished. |
| `SampleCompletion.ClaimLeadsToCompletion` | app/benchmarks/worker.py:162-258 | A claimed attempt can reuse or store an artifact, evaluate it and complete. |
| `SampleCompletion.WaitingSampleCanComplete` | app/benchmarks/repositories.py:378-415 | Every claimable sample can still be completed. |
| `SampleCompletion.ActiveSampleCanFinish` | app/benchmarks/repositories.py:552-623 | A sample whose worker is gone can still be completed, or is skipped after its last attempt. |
| `SampleCompletion.EverySampleCanFinish` | README.md:57-59 | The same from every reachable state. |
| `SampleCompletion.EveryRunCanFinish` | app/benchmarks/repositories.py:625-647 | From every reachable state every run can still be finished by the work itself, with the status its samples imply. |
| `SampleRepository.CountsAgree` | app/benchmarks/repositories.py:722-751 | The two counts say whether all samples are terminal and whether one was skipped. |
| `RunFinalization.WriteKeepsTx` | app/benchmarks/repositories.py:471-507 | Writing a sample keeps what the open transaction knows about its runs. |
| `RunFinalization.CountKeepsTx` | app/benchmarks/repositories.py:722-751 | Counting under the run's lock records a result that the transaction's own view justifies. |
| `RunFinalization.CommitKeepsResults` | app/benchmarks/repositories.py:722-751 | A commit does not disturb the result another transaction holds for a run. |
| `RunFinalization.CommitKeepsCounted` | app/benchmarks/repositories.py:722-751 | A commit cannot end a run behind the back of the transaction that holds its lock. |
| `RunFinalization.CommitDerives` | app/benchmarks/repositories.py:601-606 | After a commit each run's status says what its committed samples say, and a finished run is unchanged. |
| `RunFinalization.StepKeepsInv` | app/benchmarks/repositories.py:625-647 | Every statement of every transaction keeps the invariant. |
| `RunFinalization.FreshPlanSatisfiesInv` | app/benchmarks/repositories.py:193-198 | A newly planned run, which has a sample, satisfies it. |
| `RunFinalization.RunStatusIsDerived` | app/benchmarks/repositories.py:722-751 | For any interleaving a run is finished exactly when its samples are, partial exactly when one was skipped, and fixed from then on. |
| `FrameDecoder.ScanRests` | app/tasks/definitions/frame_decoder/reference/solution.py:16-44 | A successful call leaves nothing behind that could be decoded or refused. |
| `FrameDecoder.EarlyRefusalIsFinal` | app/tasks/definitions/frame_decoder/reference/solution.py:51-59 | A partial prefix is refused only if every continuation would be. |
| `FrameDecoder.ChunkInvariance` | app/tasks/definitions/frame_decoder/reference/solution.py:16-44 | Feeding a then b gives the verdict, frames and state of feeding a + b, from any state. |
| `FrameDecoder.AnyChunking` | app/tasks/definitions/frame_decoder/reference/solution.py:16-44 | The same for any number of chunks. |
| `FrameDecoder.PrefixIsCanonical` | app/tasks/definitions/frame_decoder/reference/solution.py:66-72 | A valid prefix is the decimal numeral of its value. |
| `FrameDecoder.ScanConserves` | app/tasks/definitions/frame_decoder/reference/solution.py:16-44 | What was read is the encoding of the frames returned followed by what is retained. |
| `FrameDecoder.StreamDecodes` | app/tasks/definitions/frame_decoder/reference/solution.py:16-44 | The encoding of frames within the maximum decodes to them and leaves nothing. |
| `FrameDecoder.RoundTrip` | app/tasks/definitions/frame_decoder/reference/solution.py:16-49 | The same under any chunking, so finishing succeeds. |
| `FrameDecoder.OnlyEncodingsAreAccepted` | app/tasks/definitions/frame_decoder/reference/solution.py:16-49 | A stream accepted through finish is exactly the encoding of the frames returned. |
| `FrameDecoder.RefusalIsExplained` | app/tasks/definitions/frame_decoder/reference/solution.py:23-44 | A refused input is a stream of good frames followed by a length that is malformed, or canonical and beyond the maximum, as the error says. |
| `FrameDecoder.RetainedBufferIsBounded` | app/tasks/definitions/frame_decoder/reference/solution.py:36-59 | The retained buffer is shorter than the maximum frame, or has at most the digits of the maximum. |
| `FrameDecoder.LengthPrefixedDecoder.constructor` | app/tasks/definitions/frame_decoder/reference/solution.py:5-14 | A new decoder is idle. |
| `FrameDecoder.LengthPrefixedDecoder.Feed` | app/tasks/definitions/frame_decoder/reference/solution.py:16-44 | The loop returns the frames and state of the scan, or fails with the decoder reset. |
| `FrameDecoder.LengthPrefixedDecoder.Finish` | app/tasks/definitions/frame_decoder/reference/solution.py:46-49 | Succeeds exactly on an idle decoder and leaves it idle. |
| `FrameDecoder.LengthPrefixedDecoder.Reset` | app/tasks/definitions/frame_decoder/reference/solution.py:61-63 | Makes the decoder idle. |
| `DependencyResolver.GreedyIsTopological` | app/tasks/definitions/dependency_resolver/reference/solution.py:39-45 | Taking ready nodes until all are taken gives each node once, after its dependencies. |
| `DependencyResolver.GreedyIsLeast` | app/tasks/definitions/dependency_resolver/reference/solution.py:39-45 | Taking the least ready node each time gives the least of all topological orders. |
| `DependencyResolver.ResolutionIsUnique` | app/tasks/definitions/dependency_resolver/reference/solution.py:39-48 | There is only one least order. |
| `DependencyResolver.SpellingDoesNotMatter` | app/tasks/definitions/dependency_resolver/reference/solution.py:15-27 | Order and repetition within dependency lists do not matter. |
| `DependencyResolver.CyclesHaveNoOrder` | app/tasks/definitions/dependency_resolver/reference/solution.py:46-47 | A graph with a cycle has no topological order. |
| `DependencyResolver.StuckMeansCycle` | app/tasks/definitions/dependency_resolver/reference/solution.py:46-47 | If every remaining node waits for a remaining node, there is a cycle. |
| `DependencyResolver.TopologicalMeans` | app/tasks/definitions/dependency_resolver/reference/solution.py:13-27 | Topological orders of the normalized graph are the orders of the graph as written: every name once, declared or only mentioned, dependencies first. |
| `DependencyResolver.CycleMeans` | app/tasks/definitions/dependency_resolver/reference/solution.py:46-47 | Its cycles are walks along declared dependencies that return. |
| `DependencyResolver.PopLeast` | app/tasks/definitions/dependency_resolver/reference/solution.py:40-40 | The heap yields its least name. |
| `DependencyResolver.Collect` | app/tasks/definitions/dependency_resolver/reference/solution.py:13-27 | Dependency sets without duplicates, and all names mentioned anywhere. |
| `DependencyResolver.Invert` | app/tasks/definitions/dependency_resolver/reference/solution.py:29-34 | The inverse relation and the number of dependencies of each node, undeclared leaves included. |
| `DependencyResolver.Discount` | app/tasks/definitions/dependency_resolver/reference/solution.py:42-45 | Resolving a node lowers exactly its dependents' counts and makes exactly those ready that waited for it alone. |
| `DependencyResolver.Resolve` | app/tasks/definitions/dependency_resolver/reference/solution.py:10-48 | The least of all orders of the graph as written, or the cycle error exactly when declared dependencies go round. |
| `TtlCache.SubFilter` | app/tasks/definitions/ttl_cache/reference/solution.py:39-42 | Purging or removing a key keeps the smaller cache inside the larger and does not widen the gap. |
| `TtlCache.PutKeepsIncluded` | app/tasks/definitions/ttl_cache/reference/solution.py:13-21 | A put with its eviction keeps the inclusion. |
| `TtlCache.GetKeepsIncluded` | app/tasks/definitions/ttl_cache/reference/solution.py:23-29 | A hit in the smaller cache is the same hit in the larger, and recency updates keep the inclusion. |
| `TtlCache.StepKeepsIncluded` | app/tasks/definitions/ttl_cache/reference/solution.py:13-42 | Any operation keeps the inclusion and its two answers agree. |
| `TtlCache.CacheInclusion` | app/tasks/definitions/ttl_cache/reference/solution.py:13-42 | Over any trace the smaller cache is a recency-order subsequence of the larger with equal values and expiries, and all answers agree. |
| `TtlCache.EntriesAreWritten` | app/tasks/definitions/ttl_cache/reference/solution.py:13-42 | An entry is the last accepted put under its key, not deleted since. |
| `TtlCache.HitsAreFresh` | app/tasks/definitions/ttl_cache/reference/solution.py:23-29 | A hit returns the value last put under the key, not deleted and not expired. |
| `CacheEviction.TraceIsExact` | app/tasks/definitions/ttl_cache/reference/solution.py:13-42 | Over any trace with nondecreasing times the stored keys are, in recency order, the live ones that were never overtaken. |
| `CacheEviction.GetIsExact` | app/tasks/definitions/ttl_cache/reference/solution.py:23-29 | A get hits exactly on a live key that at no moment since its last use had as many live, more recently used rivals as the capacity; it returns what was last put. |
| `CacheEviction.DeleteIsExact` | app/tasks/definitions/ttl_cache/reference/solution.py:31-33 | A delete succeeds exactly on those keys. |
| `CacheEviction.SizeIsExact` | app/tasks/definitions/ttl_cache/reference/solution.py:35-37 | The size is the number of those keys. |
| `CacheEviction.RivalsMayExpire` | app/tasks/definitions/ttl_cache/reference/solution.py:20-21 | Counting rivals only when the key is asked for is not enough: one that has expired by then may have evicted it. |
| `TtlCache.TTLCache.constructor` | app/tasks/definitions/ttl_cache/reference/solution.py:7-11 | A new cache is empty. |
| `TtlCache.TTLCache.Purge` | app/tasks/definitions/ttl_cache/reference/solution.py:39-42 | Collecting the expired keys and then deleting them keeps exactly the live entries in order. |
| `TtlCache.TTLCache.Put` | app/tasks/definitions/ttl_cache/reference/solution.py:13-21 | The step of the trace semantics; refused exactly for a nonpositive ttl. |
| `TtlCache.TTLCache.Get` | app/tasks/definitions/ttl_cache/reference/solution.py:23-29 | The step of the trace semantics and its answer. |
| `TtlCache.TTLCache.Delete` | app/tasks/definitions/ttl_cache/reference/solution.py:31-33 | The step of the trace semantics; true exactly when a live entry was removed. |
| `TtlCache.TTLCache.Size` | app/tasks/definitions/ttl_cache/reference/solution.py:35-37 | The number of live entries. |
| `RateLimiter.PrunedCountsWindow` | app/tasks/definitions/rate_limiter/reference/solution.py:27-29 | The events left after pruning number the accepted calls of the full history inside the window. |
| `RateLimiter.AllowCountsHistory` | app/tasks/definitions/rate_limiter/reference/solution.py:21-33 | A call is allowed exactly when fewer than limit accepted calls lie in its window; it fails exactly for a decreasing time. |
| `RateLimiter.NoWindowOverflows` | app/tasks/definitions/rate_limiter/reference/solution.py:30-33 | No window, wherever it ends, holds more than limit calls that were so admitted. |
| `RateLimiter.CallsKeepLimit` | app/tasks/definitions/rate_limiter/reference/solution.py:21-33 | The same for the accepted calls of any sequence of calls. |
| `RateLimiter.SlidingWindowRateLimiter.constructor` | app/tasks/definitions/rate_limiter/reference/solution.py:7-19 | Every key starts untouched. |
| `RateLimiter.SlidingWindowRateLimiter.Allow` | app/tasks/definitions/rate_limiter/reference/solution.py:21-33 | The pruning loop decides by the full history of the key, and other keys are untouched. |
| `ConfigMerge.MergedIsNullFree` | app/tasks/definitions/config_layer_merge/reference/solution.py:30-40 | Merging into a null-free configuration leaves no null at any dictionary depth. |
| `ConfigMerge.MergedAlone` | app/tasks/definitions/config_layer_merge/reference/solution.py:30-40 | Merging a configuration into nothing returns it unchanged exactly when it holds no null. |
| `ConfigMerge.LayerCompaction` | app/tasks/definitions/config_layer_merge/reference/solution.py:13-16 | Any initial run of layers may be replaced by what it merges to. |
| `ConfigMerge.MergedLook` | app/tasks/definitions/config_layer_merge/reference/solution.py:30-40 | At each path the merge shows the layer if the layer speaks about the path, else the target. |
| `ConfigMerge.MergeIsLastWord` | app/tasks/definitions/config_layer_merge/reference/solution.py:13-16 | At each path the merge of all layers shows what the last layer that speaks about it says. |
| `ConfigMerge.LooksDetermine` | app/tasks/definitions/config_layer_merge/reference/solution.py:30-40 | Null-free configurations that agree at every path are equal. |
| `ConfigMerge.MergeIsCharacterized` | app/tasks/definitions/config_layer_merge/reference/solution.py:6-16 | The merge is the one null-free configuration in which every last word holds. |
| `ConfigMerge.Merge` | app/tasks/definitions/config_layer_merge/reference/solution.py:30-40 | The recursive loop, in whatever order it meets the keys, computes the merge. |
| `ConfigMerge.MergeConfigLayers` | app/tasks/definitions/config_layer_merge/reference/solution.py:6-16 | The loop over layers computes that one configuration. |
| `Sorting.TopOfBoth` | app/jobs/repositories.py:252-256 | The first n of two sequences sorted together are found among the first n of each. |
| `Pagination.BothQueriesMatch` | app/jobs/repositories.py:132-191 | Filtering each table in its query is filtering the history. |
| `Pagination.IdsAreDistinct` | app/jobs/repositories.py:158-182 | No identity is listed twice, although a finished job stands in both tables. |
| `Pagination.HistoryIsComplete` | app/jobs/repositories.py:132-182 | The history lists exactly the identities that either table knows. |
| `Pagination.HistoryShowsRows` | app/jobs/repositories.py:132-251 | The history is exactly the jobs with the score of the evaluation of the same identity, and the evaluations without a job as completed. |
| `Pagination.PageShows` | app/jobs/repositories.py:132-256 | A page in terms of the two tables, the criteria and the order, column by column. |
| `Pagination.CandidatesSuffice` | app/jobs/repositories.py:132-256 | Sorting the first limit + offset rows of both queries and slicing gives the page of the whole history sorted. |
| `Pagination.PageIsRankRange` | app/jobs/repositories.py:252-256 | A page is in strict order and holds exactly the matching evaluations with offset to offset + limit - 1 newer ones. |
| `Pagination.ConsecutivePages` | app/jobs/repositories.py:256-256 | Two consecutive pages are one longer page. |
| `Pagination.List` | app/jobs/repositories.py:122-256 | The two appending loops, the sort and the slice give the page: newest first, exactly the rows of both tables that meet the criteria and have the right number of newer ones. |
| `Leaderboard.GroupAdjusted` | app/benchmarks/statistics.py:278-297 | A task's adjusted score is its score total over its planned samples. |
| `Leaderboard.GroupParts` | app/benchmarks/statistics.py:96-123 | One task's adjusted part is at most its mean part, and equal when all its samples were evaluated. |
| `Leaderboard.TaskTotals` | app/benchmarks/statistics.py:96-123 | The same for the sums over all tasks. |
| `Leaderboard.ScoreOrder` | app/benchmarks/statistics.py:96-123 | 0 <= coverage-adjusted score <= primary weighted mean <= 100; without any evaluation the adjusted score is zero. |
| `Leaderboard.SharedWeightIsNeeded` | app/benchmarks/statistics.py:278-297 | With two weights in one task the adjusted score can exceed the mean. |
| `Leaderboard.AdjustedIsZeroFilledMean` | app/benchmarks/statistics.py:112-123 | The adjusted score is the weighted mean that the model would have if every missing score were zero. |
| `Leaderboard.EligibleMeansComplete` | app/benchmarks/winners.py:46-63 | A model is eligible exactly when it has samples and all were generated and evaluated. |
| `Leaderboard.EligibleScoresAgree` | app/benchmarks/winners.py:46-63 | An eligible model has a mean, and its adjusted score equals it. |
| `Leaderboard.ReasonsAreExact` | app/benchmarks/winners.py:46-63 | Each reason is given exactly when something is missing, generation first. |
| `Leaderboard.CoverageIsPart` | app/benchmarks/statistics.py:82-90 | Coverage times planned samples is the number of evaluated ones, and is 1 exactly when all were. |
| `Leaderboard.MedianIsMiddle` | app/benchmarks/statistics.py:34-46 | The median parts the scores into two halves, as the middle one or halfway between two. |
| `Leaderboard.FirstIsBest` | app/benchmarks/winners.py:77-95 | The first qualifying entry of a ranked board has the highest mean of all that qualify, for the observed and for the eligible winner. |
| `Leaderboard.EligibleWinnerIsBest` | app/benchmarks/winners.py:77-95 | There is an eligible winner exactly when some model is complete; it is complete, its scores agree, and no complete model has a higher mean. |
| `Leaderboard.ObservedWinnerIsBest` | app/benchmarks/winners.py:77-95 | There is an observed winner exactly when some model has a mean, and none has a higher one; there is no winner before the run is final. |
| `Leaderboard.BoardIsRanked` | app/benchmarks/statistics.py:424-434 | Rank order spelled out: mean, coverage and median descending, then fingerprint; a model without a mean never precedes one with a mean. |
| `ScoreShares.MeanIsShared` | app/benchmarks/statistics.py:96-111 | The primary mean is the quotient of two sums over evaluated samples, each carrying its task's weight divided by the task's evaluated samples. |
| `ScoreShares.MeanIgnoresMissing` | app/benchmarks/statistics.py:96-111 | Dropping samples without a score does not change the primary mean. |
| `Leaderboard.BoardScoresOrdered` | app/benchmarks/statistics.py:70-79 | Every entry of the board orders its two scores within 0..100. |
| `Leaderboard.AheadIsWeakOrder` | app/benchmarks/statistics.py:424-434 | The rank key orders entries consistently. |
| `Leaderboard.GroupByConfig` | app/benchmarks/statistics.py:73-75 | The grouping loop gives each model its samples in order. |
| `Leaderboard.GroupByTask` | app/benchmarks/statistics.py:94-98 | The grouping loop gives each task its samples, and the keys in order of first appearance. |
| `Leaderboard.BuildEntry` | app/benchmarks/statistics.py:82-123 | The loop over sorted tasks computes the entry. |
| `Leaderboard.BuildLeaderboard` | app/benchmarks/statistics.py:70-79 | The grouping, the entries and the sort give the ranked board. |
| `Fingerprints.NumberOfBigEndian` | app/snapshots/fingerprints.py:81-83 | Eight bytes hold a length below 2^64 without loss. |
| `Fingerprints.TakeFramed` | app/snapshots/fingerprints.py:81-83 | A frame can be cut off the front of any stream. |
| `Fingerprints.ParseRecovers` | app/snapshots/fingerprints.py:19-33 | The parser recovers the list of names and contents from its stream. |
| `Fingerprints.ParsedIsStream` | app/snapshots/fingerprints.py:19-33 | Whatever the parser accepts is the stream of what it returns. |
| `Fingerprints.FramingIsInjective` | app/snapshots/fingerprints.py:81-83 | Two lists have the same stream exactly when they are equal. |
| `Fingerprints.SplitRecovers` | app/snapshots/fingerprints.py:29-29 | The parts of a path can be recovered from its name. |
| `Fingerprints.CompiledMeans` | app/snapshots/fingerprints.py:21-27 | Left out are exactly the files below __pycache__ and those named by a stem and .pyc or .pyo. |
| `Fingerprints.FilesInOrder` | app/snapshots/fingerprints.py:21-27 | Files are fed in order of their first differing path part. |
| `Fingerprints.BytesIdentifyTests` | app/snapshots/fingerprints.py:19-33 | Two directory walks feed the digest the same bytes exactly when they met the same test files, in any order. |
| `Fingerprints.Digest.UpdateFramed` | app/snapshots/fingerprints.py:81-83 | Appends one frame, or fails exactly when the length does not fit into eight bytes. |
| `Fingerprints.TestsFingerprint` | app/snapshots/fingerprints.py:19-33 | The loop feeds exactly the bytes of the sorted files, or fails exactly when one is too long. |

## Left out

- Idempotency keys and model configurations of a benchmark plan; `RunFinalization` starts from a planned run.
- The lookup and the insert of `Create` are one step, so its race on the unique idempotency key does not arise.
- Columns that no guard reads: failure categories and codes, updated-at times, model and token accounting.
- `classify_failure` and the conversion of exceptions: a failure step is retryable or not, at the environment's choice.
- Deadlocks, lock timeouts and database errors inside a transaction: an aborted transaction has no effect.
- SampleRepository.Repository.RecoverStale: takes the selected rows as its argument, because the sample query has no order: any distinct stale rows may be chosen.
- Publisher.OutboxPublisher.DispatchOnce: runs without other processes in between; interleaving is covered by the steps of `Delivery`.
- The timing of the heartbeat (interval, timeouts, jitter): any schedule of its requests is allowed.
- The constructors of the oracles demand the arguments whose absence the source answers with ValueError; type errors are not modelled.
- The heap of the resolver is a set from which the least name is taken.
- `_validate_keys`, shared structure between dictionaries, and the order of dictionary entries.
- Pagination.List: both queries read one snapshot; score breakdowns and AI columns are not carried along.
- Floating-point and Decimal rounding: scores are real numbers. Standard deviation, intervals, latencies, costs, consistency labels and reliability counts are not modelled; a rank is the position in the board.
- SHA-256 and UTF-8: the digest is the bytes fed to it, and path parts are byte strings, whose order is that of their code points. `__pycache__` is looked for below the tests directory only.
- Runners, sandboxes, analyzers, language-model providers, judge scoring, HTTP routes, command line and reports.
