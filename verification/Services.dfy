// The services that run the lifecycle, call by call (jobs/jobs.service.ts,
// worker/job-processor.service.ts): what one call does when nobody else acts meanwhile.
// Delivery.DeliveriesAreAtomic extends this to deliveries that are interleaved with others.
module Services {
  import opened Wrappers
  import opened ErrorText
  import opened Simulation
  import opened Records
  import opened Schedule
  import opened Lifecycle
  import opened Delivery
  import opened Stores

  // ---------- The worker ----------

  // The queue job as the worker receives it.
  datatype QueueJob = QueueJob(jobId: JobId, payload: Json, attemptsMade: nat, attempts: Option<nat>)

  datatype ProcessError = AttemptRefused(error: AttemptError) | WorkFailed(message: Text)

  class JobProcessorService {
    const jobRepository: JobRepository
    const jobAttemptRepository: JobAttemptRepository
    const configuredMaxAttempts: nat

    constructor (jobs: JobRepository, attempts: JobAttemptRepository, configuredMaxAttempts: nat)
      ensures jobRepository == jobs && jobAttemptRepository == attempts
      ensures this.configuredMaxAttempts == configuredMaxAttempts
    {
      jobRepository := jobs;
      jobAttemptRepository := attempts;
      this.configuredMaxAttempts := configuredMaxAttempts;
    }

    ghost predicate Valid()
      reads this, jobAttemptRepository, jobRepository
    {
      jobAttemptRepository.jobs == jobRepository && jobAttemptRepository.Valid()
    }

    function MaxAttempts(job: QueueJob): (r: nat)
      ensures job.attempts.Some? ==> r == job.attempts.value
      ensures job.attempts.None? ==> r == configuredMaxAttempts
    {
      match job.attempts
      case Some(attempts) => attempts
      case None => configuredMaxAttempts
    }

    // The writes of a failed attempt: its own result, and FAILED or a retry for the job.
    method StoreFailure(jobId: JobId, n: nat, isFinalAttempt: bool, completedAt: Time, processingTimeMs: int,
                        message: Text)
      requires Valid() && jobId in jobRepository.jobs && (jobId, n) in jobAttemptRepository.attempts
      modifies jobRepository, jobAttemptRepository
      ensures Valid()
      ensures var a := old(jobAttemptRepository.attempts)[(jobId, n)];
        jobAttemptRepository.attempts == old(jobAttemptRepository.attempts)[
          (jobId, n) := a.(
            status := AttemptStatus.Failed,
            errorMessage := Some(message),
            completedAt := Some(completedAt),
            processingTimeMs := Some(processingTimeMs))]
      ensures var row := old(jobRepository.jobs)[jobId];
        jobRepository.jobs == old(jobRepository.jobs)[
          jobId := row.(
            status := if isFinalAttempt then JobStatus.Failed else JobStatus.Queued,
            retryCount := n,
            lastError := Some(message),
            failedAt := if isFinalAttempt then Some(completedAt) else None)]
    {
      var failed := jobAttemptRepository.MarkAttemptFailed(jobId, n, completedAt, processingTimeMs, message);
      var marked;
      if isFinalAttempt {
        marked := jobRepository.MarkFailed(jobId, completedAt, message, n);
      } else {
        marked := jobRepository.MarkRetryQueued(jobId, n, message);
      }
    }

    // A delivery leaves exactly what the function Deliver says, in both tables and nowhere else,
    // and rejects exactly when Deliver says so; for a job that is not stored it only rejects.
    method Process(job: QueueJob, startedAt: Time, completedAt: Time) returns (r: Result<(), ProcessError>)
      requires Valid()
      modifies jobRepository, jobAttemptRepository
      ensures Valid()
      ensures job.jobId !in old(jobRepository.jobs) ==>
        && r == Failure(AttemptRefused(JobMissing))
        && jobRepository.jobs == old(jobRepository.jobs)
        && jobAttemptRepository.attempts == old(jobAttemptRepository.attempts)
      ensures job.jobId in old(jobRepository.jobs) ==>
        var n := job.attemptsMade + 1;
        var d := Deliver(old(jobRepository.jobs)[job.jobId], old(jobAttemptRepository.Find(job.jobId, n)), n,
                         MaxAttempts(job), job.payload, startedAt, completedAt);
        && jobRepository.jobs == old(jobRepository.jobs)[job.jobId := d.row]
        && jobAttemptRepository.attempts == old(jobAttemptRepository.attempts)[(job.jobId, n) := d.attempt]
        && (r.Failure? <==> d.rejected)
        && (r.Failure? ==>
              var existing := old(jobAttemptRepository.Find(job.jobId, n));
              var message := EvaluateSimulationFailure(job.payload, n);
              if existing.Some? && (existing.value.status.Completed? || existing.value.status.Failed?) then
                r.error == AttemptRefused(AlreadyFinished(n, existing.value.status))
              else message.Some? && r.error == WorkFailed(message.value))
    {
      hide EvaluateSimulationFailure;
      hide SanitizeProcessingError;
      hide Deliver;
      var jobId := job.jobId;
      var attemptNumber := job.attemptsMade + 1;
      var maxAttempts := MaxAttempts(job);

      var started := jobAttemptRepository.StartAttempt(jobId, attemptNumber, startedAt);
      if started.Failure? {
        return Failure(AttemptRefused(started.error));
      }
      var processing := jobRepository.MarkProcessing(jobId, startedAt);
      assert processing.Success?;

      var processingError := EvaluateSimulationFailure(job.payload, attemptNumber);
      var processingTimeMs := completedAt - startedAt;

      if processingError.Some? {
        var sanitizedError := SanitizeProcessingError(ErrorObject(processingError.value));
        var isFinalAttempt := attemptNumber >= maxAttempts;
        StoreFailure(jobId, attemptNumber, isFinalAttempt, completedAt, processingTimeMs, sanitizedError);
        return Failure(WorkFailed(processingError.value));
      }

      var completed := jobAttemptRepository.MarkAttemptCompleted(jobId, attemptNumber, completedAt, processingTimeMs);
      var done := jobRepository.MarkCompleted(jobId, completedAt, processingTimeMs, job.attemptsMade);
      r := Success(());
    }
  }

  // ---------- The API ----------

  datatype CreateError = Schedule(error: ScheduleError) | NotStored(dbError: DbError) | NotEnqueued

  datatype CancelOutcome = Cancelled | NotFound | Conflict

  class JobsService {
    const jobRepository: JobRepository
    const queueService: QueueService

    constructor (jobs: JobRepository, queue: QueueService)
      ensures jobRepository == jobs && queueService == queue
    {
      jobRepository := jobs;
      queueService := queue;
    }

    // A rejected schedule stores nothing. Otherwise the row is stored first, with what was asked
    // for; it is QUEUED with an entry in the queue, due when the client wants it, or FAILED without
    // one when the queue could not be reached.
    method CreateJob(id: JobId, request: JobRequest, now: Time, reachable: bool) returns (r: Result<JobId, CreateError>)
      requires id !in jobRepository.jobs && id !in queueService.entries
      modifies jobRepository, queueService
      ensures var input := request.schedule;
        var delay := if input.runAt.Some? then input.runAt.value - now
                     else if input.delayMs.Some? then input.delayMs.value else 0;
        var max := queueService.maxAttempts;
        var row := Job(
          request.jobType, request.priority, request.payload, JobStatus.Queued, 0, max,
          if delay > 0 then Some(delay) else None, input.runAt, now, None, None, None, None, None, None);
        if input.delayMs.Some? && input.runAt.Some? then
          && r == Failure(Schedule(BothGiven))
          && jobRepository.jobs == old(jobRepository.jobs) && queueService.entries == old(queueService.entries)
        else if input.runAt.Some? && delay <= 0 then
          && r == Failure(Schedule(NotInFuture))
          && jobRepository.jobs == old(jobRepository.jobs) && queueService.entries == old(queueService.entries)
        else if delay < 0 then
          && r == Failure(Schedule(NegativeDelay))
          && jobRepository.jobs == old(jobRepository.jobs) && queueService.entries == old(queueService.entries)
        else if delay > 2147483647 then
          && r == Failure(NotStored(ValueOutOfRange))
          && jobRepository.jobs == old(jobRepository.jobs) && queueService.entries == old(queueService.entries)
        else if reachable then
          && r == Success(id)
          && jobRepository.jobs == old(jobRepository.jobs)[id := row]
          && queueService.entries == old(queueService.entries)[
               id := Entry(if delay > 0 then EntryState.Delayed else EntryState.Waiting, 0, max, now + delay,
                           request.payload)]
        else
          && r == Failure(NotEnqueued)
          && jobRepository.jobs == old(jobRepository.jobs)[
               id := row.(status := JobStatus.Failed, failedAt := Some(now),
                          lastError := Some(Ascii("Failed to enqueue job")))]
          && queueService.entries == old(queueService.entries)
    {
      var schedule := ResolveDelay(request.schedule, now);
      if schedule.Failure? {
        return Failure(Schedule(schedule.error));
      }
      var row := NewRow(request, schedule.value, queueService.maxAttempts, now);
      var stored := jobRepository.Create(id, row);
      if stored.Failure? {
        return Failure(NotStored(stored.error));
      }
      var enqueued := queueService.Enqueue(id, row.payload, row.delayMs, now, reachable);
      if enqueued.Failure? {
        var _ := jobRepository.MarkEnqueueFailed(id, ENQUEUE_FAILURE_MESSAGE, now);
        return Failure(NotEnqueued);
      }
      r := Success(id);
    }

    // The queue decides: the row is only touched after the entry was removed, and both stores
    // change together or not at all.
    method CancelJob(id: JobId, now: Time, reachable: bool) returns (outcome: CancelOutcome)
      modifies jobRepository, queueService
      ensures outcome.NotFound? <==> id !in old(jobRepository.jobs)
      ensures outcome.Cancelled? <==>
        && id in old(jobRepository.jobs) && old(jobRepository.jobs)[id].status == JobStatus.Queued
        && reachable && id in old(queueService.entries)
        && old(queueService.entries)[id].state in queueService.removable
        && old(queueService.entries)[id].state != EntryState.Active
      ensures outcome.Cancelled? ==>
        && jobRepository.jobs == old(jobRepository.jobs)[
             id := old(jobRepository.jobs)[id].(status := JobStatus.Cancelled, cancelledAt := Some(now))]
        && queueService.entries == old(queueService.entries) - {id}
      ensures !outcome.Cancelled? ==>
        jobRepository.jobs == old(jobRepository.jobs) && queueService.entries == old(queueService.entries)
    {
      var job := jobRepository.FindById(id);
      if job.None? {
        return NotFound;
      }
      if job.value.status != JobStatus.Queued {
        return Conflict;
      }
      var removed := queueService.RemoveJob(id, reachable);
      if removed.Failure? || !removed.value {
        return Conflict;
      }
      var _ := jobRepository.MarkCancelled(id, now);
      outcome := CancelOutcome.Cancelled;
    }
  }

  // ---------- The calls are runs of the transition system ----------

  // An uninterrupted createJob is the run of its insert, its add and, if the queue cannot be
  // reached, its mark; it ends with the row and the entry that the contract of CreateJob states.
  lemma CreateJobIsARun(cfg: Config, s: State, a: Action, reachable: bool)
    requires a.Create? && a.id !in s.lanes && a.maxAttempts >= 1 && a.resolvedAt == s.clock
    ensures var inserted := Step(cfg, s, a);
      var done :=
        if reachable then Step(cfg, inserted, At(a.id, Enqueue))
        else Step(cfg, Step(cfg, inserted, At(a.id, EnqueueFails)), At(a.id, MarkEnqueueFailed));
      var input := a.request.schedule;
      var delay := if input.runAt.Some? then input.runAt.value - s.clock
                   else if input.delayMs.Some? then input.delayMs.value else 0;
      var row := Job(
        a.request.jobType, a.request.priority, a.request.payload, JobStatus.Queued, 0, a.maxAttempts,
        if delay > 0 then Some(delay) else None, input.runAt, s.clock, None, None, None, None, None, None);
      if || (input.delayMs.Some? && input.runAt.Some?)
         || (input.runAt.Some? && delay <= 0)
         || delay < 0 || delay > 2147483647
      then done == s
      else if reachable then
        done == s.(lanes := s.lanes[a.id := Lane(
          row, map[],
          Some(Entry(if delay > 0 then EntryState.Delayed else EntryState.Waiting, 0, a.maxAttempts,
                     s.clock + delay, a.request.payload)),
          Accepted, map[], None)])
      else
        done == s.(lanes := s.lanes[a.id := Lane(
          row.(status := JobStatus.Failed, failedAt := Some(s.clock),
               lastError := Some(Ascii("Failed to enqueue job"))),
          map[], None, Rejected, map[], None)])
  {
    hide ResolveDelay;
    var inserted := Step(cfg, s, a);
    if Creates(s, a) {
      var lane := NewLane(s, a);
      assert inserted.lanes == s.lanes[a.id := lane];
      var l1 := LaneStep(cfg, lane, s.clock, if reachable then Enqueue else EnqueueFails);
      var l2 := LaneStep(cfg, l1, s.clock, MarkEnqueueFailed);
      assert s.lanes[a.id := lane][a.id := l1] == s.lanes[a.id := l1];
      assert s.lanes[a.id := l1][a.id := l2] == s.lanes[a.id := l2];
    }
  }

  lemma RefusedStays(cfg: Config, lane: Lane, now: Time, c: nat)
    requires CancelAt(lane, c, Refused)
    ensures LaneStep(cfg, lane, now, CancelLookup(c)) == lane
    ensures LaneStep(cfg, lane, now, CancelRemove(c)) == lane
    ensures LaneStep(cfg, lane, now, CancelMark(c)) == lane
  {
  }

  lemma MoveTwice(lane: Lane, c: nat, first: CancelPc, second: CancelPc)
    ensures Move(Move(lane, c, first), c, second) == Move(lane, c, second)
  {
    assert lane.cancels[c := first][c := second] == lane.cancels[c := second];
  }

  // The call's first two awaited calls: the row and the entry are read.
  lemma CancelReads(cfg: Config, lane: Lane, now: Time, c: nat)
    requires c !in lane.cancels
    ensures LaneStep(cfg, LaneStep(cfg, lane, now, CancelRead(c)), now, CancelLookup(c)) ==
      Move(lane, c, if lane.row.status.Queued? && lane.entry.Some? then ToRemove else Refused)
  {
    var read := LaneStep(cfg, lane, now, CancelRead(c));
    if lane.row.status.Queued? {
      MoveTwice(lane, c, ToLookup, if lane.entry.Some? then ToRemove else Refused);
    } else {
      RefusedStays(cfg, read, now, c);
    }
  }

  // Its last two awaited calls: the entry is removed and the row is marked.
  lemma CancelRemoves(cfg: Config, lane: Lane, now: Time, c: nat)
    requires lane.entry.Some?
    ensures LaneStep(cfg, LaneStep(cfg, Move(lane, c, ToRemove), now, CancelRemove(c)), now, CancelMark(c)) ==
      if Removable(lane.entry.value, cfg.removable) then
        lane.(
          cancels := lane.cancels[c := CancelPc.Succeeded],
          row := lane.row.(status := JobStatus.Cancelled, cancelledAt := Some(now)),
          entry := None)
      else Move(lane, c, Refused)
  {
    MoveTwice(lane, c, ToRemove, ToMark);
    MoveTwice(lane, c, ToRemove, Refused);
    if Removable(lane.entry.value, cfg.removable) {
      MoveTwice(lane, c, ToMark, CancelPc.Succeeded);
    }
  }

  // An uninterrupted cancellation is the run of its four awaited calls: it changes the row and
  // the entry exactly when the contract of CancelJob grants it, and nothing else but its call.
  lemma CancelJobIsARun(cfg: Config, lane: Lane, now: Time, c: nat)
    requires c !in lane.cancels
    ensures var l2 := LaneStep(cfg, LaneStep(cfg, lane, now, CancelRead(c)), now, CancelLookup(c));
      LaneStep(cfg, LaneStep(cfg, l2, now, CancelRemove(c)), now, CancelMark(c)) ==
      if && lane.row.status == JobStatus.Queued && lane.entry.Some?
         && lane.entry.value.state in cfg.removable && lane.entry.value.state != EntryState.Active
      then
        lane.(
          cancels := lane.cancels[c := CancelPc.Succeeded],
          row := lane.row.(status := JobStatus.Cancelled, cancelledAt := Some(now)),
          entry := None)
      else lane.(cancels := lane.cancels[c := Refused])
  {
    hide LaneStep;
    CancelReads(cfg, lane, now, c);
    if lane.row.status.Queued? && lane.entry.Some? {
      CancelRemoves(cfg, lane, now, c);
    } else {
      RefusedStays(cfg, Move(lane, c, Refused), now, c);
    }
  }

  // The writes of Process are the writes of the worker's steps: from the moment the entry was
  // picked, the worker alone ends with the row, the attempt and the result of Deliver.
  lemma ProcessIsARun(cfg: Config, lane: Lane, startedAt: Time, completedAt: Time)
    requires lane.worker.Some? && lane.worker.value.pc.Picked?
    requires lane.worker.value.attemptNumber >= 1
    requires startedAt + cfg.processingDelayMs <= completedAt
    ensures var w := lane.worker.value; var n := w.attemptNumber;
      var existing := Lookup(lane.attempts, n);
      var d := Deliver(lane.row, existing, n, w.maxAttempts, w.payload, startedAt, completedAt);
      var l := UpdatedJob(cfg, lane, startedAt);
      if existing.Some? && existing.value.Terminal() then
        l == GoTo(lane, Settled(true)) && d.row == lane.row && d.attempt == existing.value && d.rejected
      else
        && l.worker.Some? && l.worker.value.pc.Working?
        && FinishedWork(cfg, l, completedAt) ==
             GoTo(lane, Settled(d.rejected)).(row := d.row, attempts := lane.attempts[n := d.attempt])
  {
    hide Outcome;
    hide AdvanceWorker;
    hide FinishedWork;
    hide UpdatedJob;
    var w := lane.worker.value;
    var n := w.attemptNumber;
    StartsWork(cfg, lane, startedAt);
    var existing := Lookup(lane.attempts, n);
    if !(existing.Some? && existing.value.Terminal()) {
      var running := Upsert(existing, StartOf(existing), startedAt);
      EndsWork(cfg, UpdatedJob(cfg, lane, startedAt), startedAt, completedAt);
      var finished := FinishAttempt(running, completedAt, completedAt - startedAt, Outcome(w.payload, n));
      assert lane.attempts[n := running][n := finished] == lane.attempts[n := finished];
    }
  }

  // The worker's calls up to the start of the work, all at clock `now`.
  function UpdatedJob(cfg: Config, lane: Lane, now: Time): (r: Lane)
    requires lane.worker.Some? && lane.worker.value.pc.Picked?
    ensures r.worker.Some?
  {
    var l2 := AdvanceWorker(cfg, AdvanceWorker(cfg, lane, now), now);
    if l2.worker.value.pc.Settled? then l2
    else AdvanceWorker(cfg, AdvanceWorker(cfg, AdvanceWorker(cfg, l2, now), now), now)
  }

  lemma StartsWork(cfg: Config, lane: Lane, now: Time)
    requires lane.worker.Some? && lane.worker.value.pc.Picked?
    ensures var n := lane.worker.value.attemptNumber;
      var existing := Lookup(lane.attempts, n);
      UpdatedJob(cfg, lane, now) ==
        if existing.Some? && existing.value.Terminal() then GoTo(lane, Settled(true))
        else
          GoTo(lane, Working(now, now)).(
            row := lane.row.MarkProcessing(lane.row.startedAt, now),
            attempts := lane.attempts[n := Upsert(existing, StartOf(existing), now)])
  {
    hide Outcome;
    hide Upsert;
  }

  // The worker's calls from the end of the work to its answer, all at clock `now`.
  function FinishedWork(cfg: Config, lane: Lane, now: Time): Lane
    requires lane.worker.Some? && lane.worker.value.pc.Working?
  {
    var l1 := AdvanceWorker(cfg, lane, now);
    var l2 := AdvanceWorker(cfg, l1, now);
    if l2.worker.None? then l2 else AdvanceWorker(cfg, l2, now)
  }

  lemma EndsWork(cfg: Config, lane: Lane, startedAt: Time, now: Time)
    requires lane.worker.Some? && lane.worker.value.pc == Working(startedAt, startedAt)
    requires startedAt + cfg.processingDelayMs <= now
    requires lane.worker.value.attemptNumber >= 1 && lane.worker.value.attemptNumber in lane.attempts
    ensures var w := lane.worker.value; var n := w.attemptNumber;
      var error := Outcome(w.payload, n);
      FinishedWork(cfg, lane, now) ==
        GoTo(lane, Settled(error.Some?)).(
          row := FinishJob(lane.row, n, w.maxAttempts, now, now - startedAt, error),
          attempts := lane.attempts[n := FinishAttempt(lane.attempts[n], now, now - startedAt, error)])
  {
    hide Outcome;
    hide FinishJob;
    hide FinishAttempt;
  }
}
