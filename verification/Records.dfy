// The Job and JobAttempt rows (prisma/schema.prisma) and the update each repository
// method applies to one row (jobs/repositories/*.ts).
module Records {
  import opened Wrappers
  import opened ErrorText
  import opened Simulation

  // Milliseconds since the epoch.
  type Time = int

  const INT4_MAX := 0x7FFF_FFFF
  const ENQUEUE_FAILURE_MESSAGE: Text := Ascii("Failed to enqueue job")

  datatype JobType = Email | Sms | Notification
  datatype JobPriority = High | Normal | Low
  datatype JobStatus = Queued | Processing | Completed | Failed | Cancelled
  datatype AttemptStatus = Processing | Completed | Failed | Stalled

  datatype Job = Job(
    jobType: JobType,
    priority: JobPriority,
    payload: Json,
    status: JobStatus,
    retryCount: nat,
    maxAttempts: nat,
    delayMs: Option<int>,
    runAt: Option<Time>,
    createdAt: Time,
    startedAt: Option<Time>,
    completedAt: Option<Time>,
    failedAt: Option<Time>,
    cancelledAt: Option<Time>,
    lastError: Option<Text>,
    processingTimeMs: Option<int>)
  {
    function MarkEnqueueFailed(errorMessage: Text, at: Time): Job {
      this.(status := JobStatus.Failed, failedAt := Some(at), lastError := Some(errorMessage))
    }

    // `existing` is the startedAt read before the update; the row keeps its own when that was set.
    function MarkProcessing(existing: Option<Time>, at: Time): Job {
      this.(status := JobStatus.Processing, startedAt := if existing.Some? then startedAt else Some(at))
    }

    function MarkRetryQueued(retries: nat, error: Text): Job {
      this.(status := JobStatus.Queued, retryCount := retries, lastError := Some(error), failedAt := None)
    }

    function MarkCompleted(at: Time, elapsedMs: int, retries: nat): Job {
      this.(
        status := JobStatus.Completed,
        completedAt := Some(at),
        processingTimeMs := Some(elapsedMs),
        retryCount := retries,
        lastError := None,
        failedAt := None)
    }

    function MarkFailed(at: Time, error: Text, retries: nat): Job {
      this.(status := JobStatus.Failed, failedAt := Some(at), lastError := Some(error), retryCount := retries)
    }

    function MarkCancelled(at: Time): Job {
      this.(status := JobStatus.Cancelled, cancelledAt := Some(at))
    }

    predicate Terminal() {
      status.Completed? || status.Failed? || status.Cancelled?
    }
  }

  datatype JobAttempt = JobAttempt(
    status: AttemptStatus,
    errorMessage: Option<Text>,
    startedAt: Time,
    completedAt: Option<Time>,
    processingTimeMs: Option<int>)
  {
    predicate Terminal() {
      status.Completed? || status.Failed?
    }

    function MarkCompleted(at: Time, elapsedMs: int): JobAttempt {
      JobAttempt(AttemptStatus.Completed, None, startedAt, Some(at), Some(elapsedMs))
    }

    function MarkFailed(at: Time, elapsedMs: int, error: Text): JobAttempt {
      JobAttempt(AttemptStatus.Failed, Some(error), startedAt, Some(at), Some(elapsedMs))
    }
  }

  // The upsert of startAttempt: `present` is the row the database holds when the upsert runs,
  // `existing` the startedAt of the row that was read before it.
  function Upsert(present: Option<JobAttempt>, existing: Option<Time>, startedAt: Time): JobAttempt {
    match present
    case None => JobAttempt(AttemptStatus.Processing, None, startedAt, None, None)
    case Some(a) =>
      a.(status := AttemptStatus.Processing, startedAt := if existing.Some? then a.startedAt else startedAt)
  }

  // `error` is None for a successful attempt.
  function FinishAttempt(a: JobAttempt, at: Time, elapsedMs: int, error: Option<Text>): JobAttempt {
    match error
    case None => a.MarkCompleted(at, elapsedMs)
    case Some(message) => a.MarkFailed(at, elapsedMs, message)
  }

  // The last write of a delivery of attempt `n` out of `maxAttempts`.
  function FinishJob(row: Job, n: nat, maxAttempts: nat, at: Time, elapsedMs: int, error: Option<Text>): Job
    requires n >= 1
  {
    match error
    case None => row.MarkCompleted(at, elapsedMs, n - 1)
    case Some(message) =>
      if n >= maxAttempts then row.MarkFailed(at, message, n) else row.MarkRetryQueued(n, message)
  }
}
