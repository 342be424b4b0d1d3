# Verified model of the asynchronous job platform

Clients submit jobs through an API; a job is stored as a row in PostgreSQL and as an entry in a
BullMQ queue on Redis; workers take entries from the queue, run them with retries, and write the
results back to PostgreSQL. The two stores share no transaction: between any two awaited calls of
one actor every other actor may act, and no write checks the value it overwrites. This project
models that protocol call by call and proves what holds in every interleaving, what still holds
when workers and API calls crash, and exactly which assumptions each guarantee needs. It also
models the worker heartbeat with the health check, the paginated job lists, the sanitising of
error messages and the metrics.

Verify everything with `dafny verify dfyconfig.toml` (Dafny 4.11).

## How the model is built

- `Records` holds the Job and JobAttempt rows and the update each repository method applies to a
  row; these functions are shared by everything below.
- `Lifecycle` is the transition system. A *lane* is everything kept under one job id: the row, the
  attempt rows, the queue entry, and the program counters of the createJob call, of any number of
  cancelJob calls and of the worker delivery. Every awaited database or queue call is one step; a
  step that is not possible changes nothing, so every sequence of actions is a run. There is one
  clock that only moves forward.
- `Writes` states the complete effect of every step on the columns of the two tables, on the queue
  entry and on the calls at work, in every state of every configuration.
- `Config` states what is assumed of the environment: which entry states the queue removes
  (never Active, which is locked), whether removing an entry that vanished after its lookup
  succeeds, whether there are faults (workers and API calls die at any await, database writes are
  rejected, entries of dead workers are requeued or failed as stalled), and whether an add that
  reports failure may have added the entry. *Crash-free* means no faults, atomic adds, and only
  Waiting and Delayed entries removable.
- `Faults` (any configuration), `Faultless` (no faults), `Orderly` and `Timing` (crash-free) are the
  inductive invariants; `Reach` lifts them to all reachable states. `FaultyRuns` (any configuration),
  `Progress` (mostly: no faults) and `CrashFreeRuns` state the guarantees.
- `Delivery` shows that interleaved deliveries are atomic; `Stores` and `Services` are the
  repositories and services as objects that update their tables in place, proved against the same
  functions.
- `Limits` gives the exact condition for some of the guarantees (the members named `...Iff`), with a
  run that breaks each of them when its condition fails; `Transitions` does so for every transition
  that the design calls invalid. `Scenarios` builds these runs.
- `Heartbeat`, `Listing`, `Metrics`, `ErrorText`, `Simulation` and `Schedule` are the other parts.

## What the code does not guarantee

- Terminal statuses are not absorbing in general (`Limits.AbsorbingIff`). A worker that dies after
  storing COMPLETED and before the queue hears of it lets the next attempt reopen the row; a
  cancellation that read QUEUED early overwrites a final status if the queue removes finished
  entries (they are retained, `queue.module.ts:46-47`, and `removeJob` does not look at the state);
  an add that fails on the way back lets a worker reopen a FAILED row.
  `Limits.CompletedStaysIff` says for which payloads and maxAttempts a job can be reopened so.
- A process that dies between the insert and the add, or between the removal and the mark of a
  cancellation, leaves a row QUEUED without an entry; after the former it stays so for ever:
  `Limits.CrashOrphans`, `Limits.NoOrphansIff`.
- A worker that dies after it stored the result of its attempt and before it stored that of the job
  is replaced by a delivery that `startAttempt` refuses. After the last attempt the queue gives up,
  and the row stays PROCESSING for ever, even if the work succeeded: `Limits.CrashLeavesProcessing`,
  `Limits.NeverStuckIff`. Before the last attempt, successful work is done again:
  `Limits.SucceedsOnceIff`. A worker that dies before it settles is replaced any number of times:
  `Limits.DeliveriesBoundedIff`.
- `docs/DESIGN.md:285-292` lists transitions as invalid that runs can make: `Transitions` has the exact
  condition of each. A queue that removes every entry that is not locked lets a cancellation that read
  QUEUED early overwrite COMPLETED and FAILED without any fault, and PROCESSING after a crash.
- A worker that dies after it stored its attempt and before it marked the job leaves a startedAt
  that is later than the start of attempt 1: `Limits.StartIsFirstAttemptIff`.
- `docs/DESIGN.md:271` describes CANCELLED as "before processing started". The code also cancels
  jobs that wait for a retry; `Limits.CancelledNeverStartedIff` says for which payloads and
  maxAttempts that can happen.
- `docs/DESIGN.md:275-283` has no transition from QUEUED to FAILED; a failure to enqueue makes one.
- Lists are sorted by one column, so rows that tie on it may be repeated or lost between pages:
  `Listing.PagesCompleteIff`.
- Sanitising is not idempotent on messages whose cut falls right after a space:
  `ErrorText.IdempotentIff`.

## Model

| member | source | states |
|---|---|---|
| Schedule.ResolveDelay | apps/api/src/jobs/jobs.service.ts:239-272 | accepted iff at most one schedule is given and it is not in the past, with the error of each refusal; the stored delay is positive and ends exactly at the requested time, and there is none when none was asked for |
| Writes.StepsTouchOneJob | apps/api/src/jobs/jobs.service.ts:47-163 | every step leaves all other jobs and, unless time passes, the clock alone; a new job begins with no attempt, entry, cancellation or worker |
| Writes.RowIsWrittenBy | apps/api/src/jobs/repositories/job.repository.ts:99-186 | in every state of every configuration, the exact columns and values that each step writes to the Job row, and that no other step writes any: failures to enqueue and cancellations carry the time of their write |
| Writes.AttemptsAreWrittenBy | apps/api/src/jobs/repositories/job-attempt.repository.ts:10-87 | in every state of every configuration, the exact columns and values that each step writes to the attempt rows, and that no other step writes any: an attempt that is opened again keeps its start |
| Writes.EntryIsWrittenBy | apps/api/src/queue/queue.service.ts:20-58 | in every state of every configuration, how the queue entry is added (payload, limit and delay of the row), removed, handed out, retried and given up, and that no other step touches it |
| Writes.CancelsMove | apps/api/src/jobs/jobs.service.ts:118-163 | the exact next call of each cancellation and where it is refused, and that no other step moves it |
| Writes.CreatorMoves | apps/api/src/jobs/jobs.service.ts:47-106 | the exact next call of createJob after its insert |
| Writes.WorkerMoves | apps/api/src/worker/job-processor.service.ts:25-134 | the exact next call of a delivery, what it has read and which clock readings it holds |
| Writes.BackoffDoubles | apps/api/src/queue/queue.module.ts:42-45 | the backoff starts at the configured delay and doubles with every failure |
| Faults.StructuralStep | apps/api/src/worker/job-processor.service.ts:25-60 | every step of every actor, with any faults, keeps entry, worker and attempt rows consistent: one exclusive worker per Active entry, attempt numbers within the limit, the attempt in work unfinished |
| Faults.AttemptsRecordedStep | apps/api/src/jobs/repositories/job-attempt.repository.ts:50-87 | every step, with any faults, keeps each finished attempt recorded with the outcome its payload and number determine, and each delivery about to write the row in agreement with its attempt |
| Faults.FailedIsFinalStep | apps/api/src/jobs/jobs.mapper.ts:82-86 | with atomic adds and any other faults, every step keeps each FAILED row either that of a failed enqueue, unseen by any cancellation, or that of its FAILED last attempt: retryCount = maxAttempts, same time, same message |
| Faults.CompletedIsStampedStep | apps/api/src/jobs/repositories/job.repository.ts:142-159 | every step, with any faults, keeps each COMPLETED row that of its COMPLETED attempt retryCount + 1: same completion time, same duration |
| Faults.GrantIsFinalStep | apps/api/src/jobs/jobs.service.ts:135-157 | every step, with any faults, removals and adds, keeps granted cancellations and CANCELLED rows with no entry, no worker and no add to come |
| Faults.OneGrantStep | apps/api/src/jobs/jobs.service.ts:138-157 | every step, with any faults and adds, keeps the granted cancellation of a job the only one, unless removing a vanished entry succeeds |
| Faults.ProcessingKeepsEntryStep | apps/api/src/worker/job-processor.service.ts:25-134 | every step keeps a PROCESSING row with an entry that is not completed, if the queue removes completed entries at most |
| Faults.FailedKeepsEntryStep | apps/api/src/worker/job-processor.service.ts:73-83 | every step keeps a FAILED row with an entry that has failed or is in its last delivery, under the condition of FailedNeverCancelledIff |
| Faultless.CompletedIsOverStep | apps/api/src/worker/job-processor.service.ts:110-124 | without faults every step keeps COMPLETED jobs from being delivered again, whatever the queue removes |
| Faultless.OnTrackStep | apps/api/src/worker/job-processor.service.ts:25-134 | without faults every step keeps each delivery the first of its attempt, PROCESSING rows in the hands of a worker, at most one COMPLETED attempt, and finished entries with final rows |
| Faultless.CompletedKeepsEntryStep | apps/api/src/queue/queue.service.ts:49-58 | without faults every step keeps COMPLETED rows with their entry, unless completed entries are removable |
| Faultless.StartTracksFirstStep | apps/api/src/jobs/repositories/job.repository.ts:114-124 | without faults every step keeps the start of a job the start of its first attempt, at every await of every delivery |
| Faultless.AccountedStep | apps/api/src/jobs/jobs.service.ts:71-157 | without faults every step keeps each QUEUED job in the queue, or in the hands of a call that is enqueuing or withdrawing it |
| Faults.PunctualStep | apps/api/src/jobs/jobs.service.ts:249-252 | every step keeps entries, deliveries and attempts no earlier than the requested schedule |
| Orderly.OrderlyStep | apps/api/src/worker/job-processor.service.ts:25-134 | the inductive invariant of crash-free runs: at each point of each delivery the row and the attempts are what the attempt number prescribes, and a granted cancellation is alone on the job |
| Timing.PacedStep | apps/api/src/queue/queue.module.ts:40-45 | every crash-free step keeps attempts disjoint and separated by the exponential backoff |
| Reach.ReachableIsGood | apps/api/src/jobs/jobs.service.ts:47-163 | all invariants hold in every lane of every reachable state of every configuration |
| FaultyRuns.FinishedAttemptsNeverChange | apps/api/src/jobs/repositories/job-attempt.repository.ts:10-48 | with any faults, over any continuation of any run, a COMPLETED or FAILED attempt row never changes |
| FaultyRuns.AttemptStartedAtWrittenOnce | apps/api/src/jobs/repositories/job-attempt.repository.ts:33-47 | in every run of every configuration, an attempt row never disappears and its startedAt never changes, however often the attempt is delivered again |
| FaultyRuns.WorkOnlyOnOpenAttempts | apps/api/src/jobs/repositories/job-attempt.repository.ts:15-31 | with any faults, no work runs for an attempt that is finished, and every attempt number is between 1 and maxAttempts |
| FaultyRuns.FinishedAttemptsRecordOutcomes | apps/api/src/jobs/repositories/job-attempt.repository.ts:50-87 | with any faults and however often it was delivered, each finished attempt records the outcome that the payload and its number determine |
| FaultyRuns.CompletedRowMatchesAttempt | apps/api/src/jobs/repositories/job.repository.ts:142-159 | with any faults, a COMPLETED row has the completion time and the duration of its COMPLETED attempt retryCount + 1, which is within maxAttempts and whose work succeeds |
| FaultyRuns.FailedRowMatchesAttempt | apps/api/src/jobs/repositories/job.repository.ts:161-176 | with atomic adds and any other faults, a FAILED row of an enqueued job has the time and the message of its FAILED last attempt, which is the failure the payload gives that attempt |
| FaultyRuns.EnqueueFailureIsRecorded | apps/api/src/jobs/jobs.service.ts:81-95 | with atomic adds and any other faults, the jobs whose createJob call reported a failed enqueue are exactly those FAILED with retryCount 0; they carry the reason, have no entry and are never attempted |
| FaultyRuns.CancelledStaysUntouched | apps/api/src/jobs/jobs.service.ts:138-157 | in every run of every configuration, after the queue granted a cancellation no attempt starts or changes and no entry or worker appears, in any continuation |
| FaultyRuns.AtomicAddsMakeDeadLettersExact | apps/api/src/jobs/jobs.mapper.ts:77-98 | with any faults and atomic adds, FAILED with retryCount > 0 is the same as FAILED with retryCount >= maxAttempts |
| FaultyRuns.FailedRowsOnlyCancelled | apps/api/src/worker/job-processor.service.ts:67-83 | with atomic adds and any other faults, over any continuation, no worker or queue step changes a FAILED row |
| FaultyRuns.ReopenedOnlyByLaterAttempt | apps/api/src/jobs/repositories/job.repository.ts:114-124 | with atomic adds and any other faults, a COMPLETED row changes only by the markProcessing of an attempt after the one that completed it (or a cancellation) |
| FaultyRuns.CompletedOnLastAttemptStays | apps/api/src/jobs/repositories/job.repository.ts:114-124 | with atomic adds and any other faults, a row completed by its last attempt is kept through all crashes and redeliveries |
| FaultyRuns.StartedAtWrittenOnce | apps/api/src/jobs/repositories/job.repository.ts:114-124 | in every run of every configuration startedAt never changes once set, although it is read and written in two calls |
| FaultyRuns.CreatedRowIsTheRequest | apps/api/src/jobs/jobs.service.ts:47-60 | a row is stored iff the schedule is acceptable and its delay fits, and then it holds the request field by field: type, priority, payload, runAt, delayMs, maxAttempts, and nothing else |
| FaultyRuns.RequestNeverChanges | apps/api/src/jobs/repositories/job.repository.ts:99-186 | type, priority, payload, maxAttempts, delayMs, runAt and createdAt never change in any run of any configuration |
| FaultyRuns.FieldsAlwaysFit | apps/api/src/jobs/repositories/job.repository.ts:99-186 | in every run of every configuration the optional fields of a row fit its status: queued and completed rows carry no failure time, completed rows no error, every final status its time |
| FaultyRuns.NoEarlyStart | apps/api/src/jobs/jobs.service.ts:239-272 | in every run of every configuration no attempt starts before runAt, nor before createdAt + delayMs |
| CrashFreeRuns.RowFoldsHistory | apps/api/src/worker/job-processor.service.ts:62-124 | in crash-free runs between deliveries the row equals a reference fold of the attempt rows: status, retryCount as the number of failed rows, lastError, startedAt, completedAt, processingTimeMs, failedAt |
| CrashFreeRuns.AttemptsAreNumbered | apps/api/src/worker/job-processor.service.ts:29-108 | in crash-free runs attempts are numbered 1..n with n <= maxAttempts, all before the last FAILED, at most one COMPLETED, retryCount <= failed rows <= retryCount + 1, even during a delivery |
| CrashFreeRuns.AttemptsRecordOutcomes | apps/api/src/jobs/repositories/job-attempt.repository.ts:50-87 | in crash-free runs each finished attempt row records the outcome, the sanitised message and the duration that the payload and its number determine; an unfinished one belongs to the current delivery |
| CrashFreeRuns.StatusMovesAlongTable | docs/DESIGN.md:275-292 | in crash-free runs every step of every interleaving moves a status along the documented table only (plus the enqueue failure); no step changes a terminal row, except that a second granted cancellation stamps cancelledAt of a CANCELLED row anew |
| CrashFreeRuns.GrantedCancelFindsQueued | apps/api/src/jobs/jobs.service.ts:138-157 | in crash-free runs a cancellation that reaches markCancelled finds no entry, no worker and the row QUEUED (or CANCELLED by another call, if removing a vanished entry succeeds), although the status read and the removal are not atomic |
| CrashFreeRuns.StoresAgree | apps/api/src/jobs/jobs.service.ts:47-106 | in crash-free runs with nothing in flight the rows of each status are exactly the jobs whose entries are in the matching states, the FAILED rows those and the jobs whose enqueue failed, with equal counts; no row is orphaned |
| CrashFreeRuns.AttemptsAreSpaced | apps/api/src/queue/queue.module.ts:42-45 | in crash-free runs attempts never overlap and attempt j starts at least base * (2^(j-1) - 1) ms plus the work before it after attempt 1 |
| Progress.ResultOfPayload | apps/api/src/worker/job-processing.utils.ts:18-41 | in crash-free runs, closed form of every job run to its end, for every maxAttempts and every N: FAILED after maxAttempts failures iff shouldFail or N >= maxAttempts, else max(N, 0) failures and then COMPLETED |
| Progress.RecordedOutcome | apps/api/src/worker/job-processor.service.ts:62-71 | the stored text of every failure, word for word and cut at 500, for every payload and attempt number |
| Progress.DecisionsAgree | apps/api/src/worker/job-processor.service.ts:67-98 | in crash-free runs, on every failing delivery the worker marks FAILED exactly when the queue gives up |
| Progress.RankFalls | apps/api/src/worker/job-processor.service.ts:25-134 | without faults, with any removals and adds, every effective step of creator, queue or worker lowers a measure, and no step of anybody raises it |
| Progress.WorkIsBounded | apps/api/src/queue/queue.module.ts:40-45 | in every run without faults, with any removals and adds, a job takes at most 11 * maxAttempts + 2 steps of work and is delivered at most maxAttempts times |
| Progress.NeverStuck | apps/api/src/worker/job-processor.service.ts:25-134 | from every reachable state without faults, with any removals and adds, time passing and the pending steps of the job alone bring its row to COMPLETED, FAILED or CANCELLED with no entry left to work on |
| Delivery.OthersDoNotDisturb | apps/api/src/jobs/jobs.service.ts:135-155 | with atomic adds and any other faults, while a worker holds a job no step but its own changes its row, attempts, entry or delivery, and dying or being rejected writes nothing |
| Delivery.DeliveriesAreAtomic | apps/api/src/worker/job-processor.service.ts:25-134 | with atomic adds and any faults of everybody but the worker itself, a delivery interleaved with any steps of all others leaves exactly what one uninterrupted call between two clock readings leaves |
| Stores.JobRepository.Create | apps/api/src/jobs/repositories/job.repository.ts:17-19 | the row is stored, or the insert is rejected with its reason and nothing changes when the id exists or the delay does not fit its 32-bit column |
| Stores.JobRepository.FindById | apps/api/src/jobs/repositories/job.repository.ts:21-30 | the stored Job row, or nothing (without the attempts, see below) |
| Stores.JobRepository.MarkEnqueueFailed | apps/api/src/jobs/repositories/job.repository.ts:99-112 | only that row changes, and only to FAILED with the given time and message; rejected without change if there is none |
| Stores.JobRepository.MarkProcessing | apps/api/src/jobs/repositories/job.repository.ts:114-124 | only that row changes: PROCESSING, with the first startedAt kept; rejected without change if there is none |
| Stores.JobRepository.MarkRetryQueued | apps/api/src/jobs/repositories/job.repository.ts:126-140 | only that row changes, and only to QUEUED with the given retryCount and error and no failure time; rejected without change if there is none |
| Stores.JobRepository.MarkCompleted | apps/api/src/jobs/repositories/job.repository.ts:142-159 | only that row changes, and only to COMPLETED with the given time, duration and retryCount, no error and no failure time; rejected without change if there is none |
| Stores.JobRepository.MarkFailed | apps/api/src/jobs/repositories/job.repository.ts:161-176 | only that row changes, and only to FAILED with the given time, error and retryCount; rejected without change if there is none |
| Stores.JobRepository.MarkCancelled | apps/api/src/jobs/repositories/job.repository.ts:178-186 | only that row changes, and only to CANCELLED with the given time; rejected without change if there is none |
| Stores.JobAttemptRepository.StartAttempt | apps/api/src/jobs/repositories/job-attempt.repository.ts:10-48 | a finished attempt is refused with its status and left alone; an unfinished one becomes PROCESSING and keeps the start it has; a new one starts at the given time; every attempt belongs to a stored job |
| Stores.JobAttemptRepository.MarkAttemptCompleted | apps/api/src/jobs/repositories/job-attempt.repository.ts:50-67 | only that attempt changes, to COMPLETED with the given time and duration and no message; rejected without change if there is none |
| Stores.JobAttemptRepository.MarkAttemptFailed | apps/api/src/jobs/repositories/job-attempt.repository.ts:69-87 | only that attempt changes, to FAILED with the given time, duration and message; rejected without change if there is none |
| Stores.QueueService.Enqueue | apps/api/src/queue/queue.service.ts:20-43 | adds one entry due after the delay, or fails and leaves no entry |
| Stores.QueueService.RemoveJob | apps/api/src/queue/queue.service.ts:49-58 | true exactly when a removable entry existed, which is then gone; otherwise nothing changes |
| Delivery.Deliver | apps/api/src/worker/job-processor.service.ts:25-134 | every column of the row and the attempt that a delivery leaves, in terms of those it found, the clock readings and the outcome |
| Services.JobProcessorService.StoreFailure | apps/api/src/worker/job-processor.service.ts:67-98 | a failed attempt is stored as such, and its job as FAILED or as QUEUED for a retry |
| Services.JobProcessorService.Process | apps/api/src/worker/job-processor.service.ts:25-134 | a delivery leaves in both tables exactly what the function Deliver says, rejects exactly when it says so, with the refusal or the message thrown, and a missing job is rejected without a write |
| Services.JobsService.CreateJob | apps/api/src/jobs/jobs.service.ts:47-106 | for every request, stated on the columns: no schedule, a delay, a time or both give the row and the entry with exactly that delay, the FAILED row without entry, or the refusal with no write |
| Services.JobsService.CancelJob | apps/api/src/jobs/jobs.service.ts:118-163 | cancelled iff QUEUED and removable; then the row is CANCELLED with the time of the call and the entry is gone, otherwise nothing changes; NotFound iff there is no row |
| Services.CreateJobIsARun | apps/api/src/jobs/jobs.service.ts:47-106 | the insert, the add and the mark of createJob, run without interruption, end with the row and the entry, the FAILED row alone, or nothing, stated on the columns as in the contract of CreateJob |
| Services.CancelJobIsARun | apps/api/src/jobs/jobs.service.ts:118-163 | the four awaited calls of a cancellation, run without interruption, change row and entry exactly when and as the contract of CancelJob states, on the columns |
| Services.ProcessIsARun | apps/api/src/worker/job-processor.service.ts:25-134 | the awaited calls of a delivery, run without interruption, end with the row, attempt and result of Deliver |
| Limits.RemovableResultIsOverwritten | apps/api/src/queue/queue.service.ts:49-58 | if finished entries are removable, a run lets a cancellation overwrite COMPLETED or FAILED |
| Limits.CrashResurrectsCompleted | apps/api/src/jobs/repositories/job.repository.ts:114-124 | with faults, a run reopens a COMPLETED row |
| Limits.CompletedStaysIff | apps/api/src/worker/job-processor.service.ts:25-134 | with any removals and adds, no COMPLETED job with a given payload and maxAttempts is ever reopened iff there are no faults, or shouldFail, or max(N, 0) + 1 >= maxAttempts: no attempt follows the first that succeeds |
| Limits.LostAddReopensFailed | apps/api/src/jobs/jobs.service.ts:71-95 | if a failed add may have added the entry, a run reopens a FAILED row |
| Limits.AbsorbingIff | docs/DESIGN.md:285-292 | terminal statuses are absorbing in all runs iff the configuration is crash-free |
| Limits.DeadLettersIff | apps/api/src/jobs/jobs.mapper.ts:77-98 | the dead-letter proxy is exact in all runs, with any faults, iff adds are atomic |
| Limits.OneCancelIff | apps/api/src/jobs/jobs.service.ts:138-157 | with any faults and adds, at most one cancellation of a job succeeds in all runs iff removing a vanished entry does not succeed (or nothing is removable) |
| Limits.CancelledNeverStartedIff | docs/DESIGN.md:271 | in crash-free runs the cancelled jobs with a given payload and maxAttempts never started, as documented, iff nothing can be cancelled, maxAttempts is 1, or the first attempt succeeds (not shouldFail and N < 1) |
| Limits.StartIsFirstAttemptIff | apps/api/src/jobs/repositories/job.repository.ts:114-124 | the start of every job is the start of its first attempt, in all runs, iff there are no faults |
| Limits.CrashOrphans | apps/api/src/jobs/jobs.service.ts:54-79 | with faults, a run leaves a row that stays QUEUED without an entry in every continuation |
| Limits.NoOrphansIff | apps/api/src/jobs/jobs.service.ts:47-163 | with nothing in flight every QUEUED job has an entry, in all runs, iff there are no faults |
| Limits.CrashLeavesProcessing | apps/api/src/jobs/repositories/job-attempt.repository.ts:21-31 | with faults, for every payload and every maxAttempts, a run leaves a row that stays PROCESSING in every continuation although its last attempt has its result |
| Limits.NeverStuckIff | apps/api/src/worker/job-processor.service.ts:25-134 | with any removals and adds, every job of every reachable state can be brought to its end iff there are no faults |
| Limits.DeliveriesBoundedIff | apps/api/src/queue/queue.module.ts:40-45 | with any removals and adds, a job is delivered at most maxAttempts times in all runs iff there are no faults, and with faults any number of times |
| Limits.SucceedsOnceIff | docs/DESIGN.md:711 | with any removals and adds, the work of a job with a given payload and maxAttempts succeeds at most once iff there are no faults, or shouldFail, or max(N, 0) + 1 >= maxAttempts |
| Limits.EarliestStartIsReached | apps/api/src/queue/queue.module.ts:40-45 | in every configuration the lower bounds on starts are attained: if the attempts before it fail, a run starts attempt 1 at createdAt + delayMs and attempt n exactly base * (2^(n-1) - 1) ms plus the work before it later |
| Transitions.ProcessingNeverCancelledIff | docs/DESIGN.md:289 | no run moves PROCESSING to CANCELLED iff there are no faults, or the queue removes completed entries at most |
| Transitions.CompletedNeverCancelledIff | docs/DESIGN.md:290 | no run moves COMPLETED to CANCELLED iff nothing is removable, or there are no faults and completed entries are not removable |
| Transitions.FailedNeverCancelledIff | docs/DESIGN.md:291 | no run moves FAILED to CANCELLED iff nothing is removable, or adds are atomic, failed entries are not removable, and with faults neither are waiting ones |
| Transitions.NoResurrectionIff | docs/DESIGN.md:292 | no run moves a terminal status to a non-terminal one iff there are no faults and adds are atomic |
| Simulation.FailsIff | apps/api/src/worker/job-processing.utils.ts:18-41 | an attempt fails iff shouldFail, or its number is at most the integer failUntilAttempt |
| Simulation.FailureMessage | apps/api/src/worker/job-processing.utils.ts:18-41 | which message is thrown for every JSON value: permanent before numbered failures, and none for values of another kind |
| Simulation.RecordedMessage | apps/api/src/worker/job-processing.utils.ts:34-40 | the stored message of a failure up to N names its attempt word for word |
| Simulation.DecimalRoundTrip | apps/api/src/worker/job-processing.utils.ts:39 | the attempt number can be read back from the message, which writes it without leading zeros |
| ErrorText.SanitizedIsJoinedWords | apps/api/src/worker/job-processing.utils.ts:11-16 | the sanitised message is the first 500 units of the words of the message joined by single spaces |
| ErrorText.SanitizedThrown | apps/api/src/worker/job-processing.utils.ts:11-16 | what is stored of an error, of no value and of any other value |
| ErrorText.WhitespaceUnits | apps/api/src/worker/job-processing.utils.ts:15 | whitespace is exactly the 25 code units of the ECMAScript classes WhiteSpace and LineTerminator |
| ErrorText.SanitizedShape | apps/api/src/worker/job-processing.utils.ts:11-16 | at most 500 units, no leading whitespace, only single plain spaces, and the visible characters are a prefix of the message's (all of them if it fits) |
| ErrorText.IdempotentIff | apps/api/src/worker/job-processing.utils.ts:11-16 | sanitising twice equals sanitising once iff the cut at 500 does not fall right after a space |
| ErrorText.TwiceIsFixed | apps/api/src/worker/job-processing.utils.ts:11-16 | two applications always reach a fixed point |
| ErrorText.FixedPointIff | apps/api/src/worker/job-processing.utils.ts:11-16 | the messages left unchanged are exactly the short, singly spaced, trimmed ones |
| Heartbeat.WorkerHeartbeatService.OnModuleInit | apps/api/src/worker/worker-heartbeat.service.ts:19-26 | sends one heartbeat and sets the timer |
| Heartbeat.WorkerHeartbeatService.OnInterval | apps/api/src/worker/worker-heartbeat.service.ts:23-25 | sends one heartbeat, or nothing once stopped |
| Heartbeat.WorkerHeartbeatService.OnModuleDestroy | apps/api/src/worker/worker-heartbeat.service.ts:28-37 | stops, clears the timer and sends the deletion after everything sent before |
| Heartbeat.WorkerHeartbeatService.RefreshHeartbeat | apps/api/src/worker/worker-heartbeat.service.ts:39-46 | sends the clock reading with its time to live, or nothing once stopped |
| Heartbeat.StepsAreCalls | apps/api/src/worker/worker-heartbeat.service.ts:19-46 | the steps Init, Fire and Shutdown of the timed system send the commands and set the timer as the calls of the service do |
| Heartbeat.CheckWorkerRunning | apps/api/src/health/health.service.ts:62-79 | running iff the key has not expired and its reading is younger than the time to live |
| Heartbeat.RunningIsSeenIff | apps/api/src/health/health.service.ts:62-79 | over unbounded runs a running worker is reported at every instant after its first heartbeat iff interval + timer lateness + delivery < TTL |
| Heartbeat.CrashNoticedIff | apps/api/src/health/health.service.ts:62-79 | every crash is noticed within a bound iff the bound is at least the TTL |
| Heartbeat.NeverSeenAfterShutdown | apps/api/src/worker/worker-heartbeat.service.ts:28-46 | after a clean shutdown has been executed the worker is never reported again, whatever refresh was still under way |
| Listing.BuildJobWhereInput | apps/api/src/jobs/jobs.mapper.ts:41-57 | the clause matches exactly the jobs the filters select |
| Listing.BuildDeadLetterJobWhereInput | apps/api/src/jobs/jobs.mapper.ts:77-98 | the clause matches exactly the dead letters the filters select |
| Listing.PagesPartition | apps/api/src/jobs/jobs.service.ts:224-237 | pages 1..totalPages joined are the list, all but the last are full, the last is not empty, later pages are empty |
| Listing.SeparateQueriesPartition | apps/api/src/jobs/repositories/job.repository.ts:32-62 | without ties, pages queried one by one and sorted anew are the pages of one list |
| Listing.PagesCompleteIff | apps/api/src/jobs/repositories/job.repository.ts:40-43 | paging never loses or repeats a row, for every page size and every order the database may choose, iff no two selected rows tie |
| Listing.JobTable.FindMany | apps/api/src/jobs/repositories/job.repository.ts:32-44 | the answer is a page of the filtered rows in sorted order, on the columns: by creation time or failure time, ascending or descending, with missing failure times last or first |
| Listing.JobTable.FindDeadLetterJobs | apps/api/src/jobs/repositories/job.repository.ts:46-62 | the answer is a page of exactly the selected dead letters in sorted order, on the columns |
| Listing.JobTable.CountCompletedJobs | apps/api/src/jobs/repositories/job.repository.ts:68-72 | the number of COMPLETED rows |
| Listing.JobTable.CountFailedJobs | apps/api/src/jobs/repositories/job.repository.ts:74-78 | the number of FAILED rows |
| Listing.JobTable.AverageProcessingTimeMs | apps/api/src/jobs/repositories/job.repository.ts:80-94 | the exact average duration of the completed rows that have one, if any |
| Listing.ListJobs | apps/api/src/jobs/jobs.service.ts:165-188 | a page of exactly the selected jobs, by default the first page of twenty with the newest first, with the number of all of them and of their pages, stated on the columns |
| Listing.ListDeadLetterJobs | apps/api/src/jobs/jobs.service.ts:190-222 | items and total agree although service and repository build the filter separately; by default the latest failure comes first |
| Metrics.RateIsRounded | apps/api/src/metrics/metrics.service.ts:26-30 | the rate is in 0..100 %, within half a hundredth of the exact ratio with halves up, 0 when nothing was processed, and shows 100 % or 0 % exactly below one exception in 20000 |
| Metrics.RateIsMonotone | apps/api/src/metrics/metrics.service.ts:26-30 | one more completed job never lowers the rate, one more failed job never raises it |
| Metrics.GetMetrics | apps/api/src/metrics/metrics.service.ts:13-42 | the counts are those of the stored rows, the rate is 0 when nothing was processed and else rounded, and the average lies between the shortest and the longest duration and is 0 without any |
| Metrics.FailedJobsSplit | apps/api/src/jobs/repositories/job.repository.ts:74-78 | in every reachable state, with atomic adds and any other faults, the counted failures are exactly the dead letters and the jobs whose createJob call reported a failed enqueue, none both, and the dead letters are the jobs out of attempts |

## Left out

- NestJS modules, controllers, DTO validation, Swagger, configuration loading, Docker and logging: no protocol behaviour. Of the validated configuration only maxAttempts >= 1 and a heartbeat interval >= 1 ms are used.
- BullMQ, ioredis and Prisma themselves: only the environment contract in `Lifecycle.Config` and `Heartbeat.Config` is used.
- Two workers on one entry at the same time (a stalled worker that still runs beside its replacement): a worker counts as dead before its entry is delivered again.
- Priority order, pause and resume: behaviour of the queue library behind one-line calls.
- Separate clocks of API, workers and Redis, and clock steps backwards: there is one clock that only moves forward.
- Consecutive clock readings without an await between them are one reading, so processingTimeMs is completedAt - startedAt of the delivery; its 32-bit column is not modelled (the delay column is).
- Invalid Date values in runAt: DTO validation excludes them.
- The fallback of a queue job without an attempts option appears in `Services` only: in `Lifecycle` every entry carries the limit it was added with, which the queue's default options set.
- Stores.JobRepository.FindById: does not return the attempts that the query includes in ascending order, because the tables are separate maps and no modelled caller reads them.
- Stores.QueueService.Enqueue: an ambiguous add is modelled in `Lifecycle` (EnqueueLost) and not in this class.
- Services.JobsService.CreateJob: requires a fresh id, which the database's UUID default provides; one clock reading stands for all of the call.
- Several workers sharing the heartbeat key, `getPayloadKeys`, response mapping, health statuses and the queue's own counts: direct computations or out of reach of one worker's history.
- The floating-point details of toFixed: rates are exact rationals rounded half up.
