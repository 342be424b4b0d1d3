// The two tables and the queue as the objects that the services update
// (jobs/repositories/job.repository.ts, job-attempt.repository.ts, queue/queue.service.ts).
module Stores {
  import opened Wrappers
  import opened ErrorText
  import opened Simulation
  import opened Records
  import opened Schedule
  import opened Lifecycle

  datatype DbError = RecordNotFound | UniqueViolation | ValueOutOfRange

  datatype AttemptError = AlreadyFinished(attemptNumber: nat, status: AttemptStatus) | JobMissing

  datatype QueueError = Unreachable | NotRemovable

  class JobRepository {
    var jobs: map<JobId, Job>

    constructor ()
      ensures jobs == map[]
    {
      jobs := map[];
    }

    method Create(id: JobId, row: Job) returns (r: Result<Job, DbError>)
      modifies this
      ensures var fits := row.delayMs.None? || -2147483648 <= row.delayMs.value <= 2147483647;
        if id in old(jobs) then r == Failure(UniqueViolation) && jobs == old(jobs)
        else if !fits then r == Failure(ValueOutOfRange) && jobs == old(jobs)
        else r == Success(row) && jobs == old(jobs)[id := row]
    {
      if id in jobs {
        return Failure(UniqueViolation);
      }
      if !FitsColumn(row.delayMs) {
        return Failure(ValueOutOfRange);
      }
      jobs := jobs[id := row];
      r := Success(row);
    }

    method FindById(id: JobId) returns (row: Option<Job>)
      ensures row == if id in jobs then Some(jobs[id]) else None
    {
      if id in jobs {
        row := Some(jobs[id]);
      } else {
        row := None;
      }
    }

    // The update that all mark methods share: it rejects when there is no such row.
    method Update(id: JobId, row: Job) returns (r: Result<Job, DbError>)
      modifies this
      ensures id in old(jobs) ==> r == Success(row) && jobs == old(jobs)[id := row]
      ensures id !in old(jobs) ==> r == Failure(RecordNotFound) && jobs == old(jobs)
    {
      if id !in jobs {
        return Failure(RecordNotFound);
      }
      jobs := jobs[id := row];
      r := Success(row);
    }

    method MarkEnqueueFailed(id: JobId, message: Text, at: Time) returns (r: Result<Job, DbError>)
      modifies this
      ensures id in old(jobs) ==>
        && r == Success(old(jobs)[id].(status := JobStatus.Failed, failedAt := Some(at), lastError := Some(message)))
        && jobs == old(jobs)[id := r.value]
      ensures id !in old(jobs) ==> r == Failure(RecordNotFound) && jobs == old(jobs)
    {
      if id !in jobs {
        return Failure(RecordNotFound);
      }
      r := Update(id, jobs[id].MarkEnqueueFailed(message, at));
    }

    method MarkProcessing(id: JobId, startedAt: Time) returns (r: Result<Job, DbError>)
      modifies this
      ensures id in old(jobs) ==>
        && var first := old(jobs)[id].startedAt;
        && r == Success(old(jobs)[id].(
             status := JobStatus.Processing, startedAt := if first.Some? then first else Some(startedAt)))
        && jobs == old(jobs)[id := r.value]
      ensures id !in old(jobs) ==> r == Failure(RecordNotFound) && jobs == old(jobs)
    {
      var existing := FindById(id);
      if id !in jobs {
        return Failure(RecordNotFound);
      }
      var read := if existing.Some? then existing.value.startedAt else None;
      r := Update(id, jobs[id].MarkProcessing(read, startedAt));
    }

    method MarkRetryQueued(id: JobId, retryCount: nat, lastError: Text) returns (r: Result<Job, DbError>)
      modifies this
      ensures id in old(jobs) ==>
        && r == Success(old(jobs)[id].(
             status := JobStatus.Queued, retryCount := retryCount, lastError := Some(lastError), failedAt := None))
        && jobs == old(jobs)[id := r.value]
      ensures id !in old(jobs) ==> r == Failure(RecordNotFound) && jobs == old(jobs)
    {
      if id !in jobs {
        return Failure(RecordNotFound);
      }
      r := Update(id, jobs[id].MarkRetryQueued(retryCount, lastError));
    }

    method MarkCompleted(id: JobId, completedAt: Time, processingTimeMs: int, retryCount: nat)
      returns (r: Result<Job, DbError>)
      modifies this
      ensures id in old(jobs) ==>
        && r == Success(old(jobs)[id].(
             status := JobStatus.Completed,
             completedAt := Some(completedAt),
             processingTimeMs := Some(processingTimeMs),
             retryCount := retryCount,
             lastError := None,
             failedAt := None))
        && jobs == old(jobs)[id := r.value]
      ensures id !in old(jobs) ==> r == Failure(RecordNotFound) && jobs == old(jobs)
    {
      if id !in jobs {
        return Failure(RecordNotFound);
      }
      r := Update(id, jobs[id].MarkCompleted(completedAt, processingTimeMs, retryCount));
    }

    method MarkFailed(id: JobId, failedAt: Time, lastError: Text, retryCount: nat) returns (r: Result<Job, DbError>)
      modifies this
      ensures id in old(jobs) ==>
        && r == Success(old(jobs)[id].(
             status := JobStatus.Failed,
             failedAt := Some(failedAt),
             lastError := Some(lastError),
             retryCount := retryCount))
        && jobs == old(jobs)[id := r.value]
      ensures id !in old(jobs) ==> r == Failure(RecordNotFound) && jobs == old(jobs)
    {
      if id !in jobs {
        return Failure(RecordNotFound);
      }
      r := Update(id, jobs[id].MarkFailed(failedAt, lastError, retryCount));
    }

    method MarkCancelled(id: JobId, at: Time) returns (r: Result<Job, DbError>)
      modifies this
      ensures id in old(jobs) ==>
        && r == Success(old(jobs)[id].(status := JobStatus.Cancelled, cancelledAt := Some(at)))
        && jobs == old(jobs)[id := r.value]
      ensures id !in old(jobs) ==> r == Failure(RecordNotFound) && jobs == old(jobs)
    {
      if id !in jobs {
        return Failure(RecordNotFound);
      }
      r := Update(id, jobs[id].MarkCancelled(at));
    }
  }

  class JobAttemptRepository {
    var attempts: map<(JobId, nat), JobAttempt>
    const jobs: JobRepository

    constructor (jobs: JobRepository)
      ensures attempts == map[] && this.jobs == jobs
    {
      attempts := map[];
      this.jobs := jobs;
    }

    // Every attempt belongs to a stored job.
    ghost predicate Valid()
      reads this, jobs
    {
      forall key :: key in attempts ==> key.0 in jobs.jobs
    }

    function Find(jobId: JobId, n: nat): Option<JobAttempt>
      reads this
    {
      if (jobId, n) in attempts then Some(attempts[(jobId, n)]) else None
    }

    // A finished attempt is refused and left alone; any other is opened, keeping its first start.
    method StartAttempt(jobId: JobId, n: nat, startedAt: Time) returns (r: Result<JobAttempt, AttemptError>)
      requires Valid()
      modifies this
      ensures Valid()
      ensures (jobId, n) in old(attempts) ==>
        var a := old(attempts)[(jobId, n)];
        if a.status.Completed? || a.status.Failed? then
          r == Failure(AlreadyFinished(n, a.status)) && attempts == old(attempts)
        else
          && r == Success(a.(status := AttemptStatus.Processing))
          && r.value.startedAt == a.startedAt
          && attempts == old(attempts)[(jobId, n) := r.value]
      ensures (jobId, n) !in old(attempts) && jobId !in jobs.jobs ==>
        r == Failure(JobMissing) && attempts == old(attempts)
      ensures (jobId, n) !in old(attempts) && jobId in jobs.jobs ==>
        && r == Success(JobAttempt(AttemptStatus.Processing, None, startedAt, None, None))
        && attempts == old(attempts)[(jobId, n) := r.value]
    {
      var existing := Find(jobId, n);
      if existing.Some? && existing.value.status.Completed? {
        return Failure(AlreadyFinished(n, existing.value.status));
      }
      if existing.Some? && existing.value.status.Failed? {
        return Failure(AlreadyFinished(n, existing.value.status));
      }
      if jobId !in jobs.jobs {
        return Failure(JobMissing);
      }
      var row;
      if (jobId, n) in attempts {
        row := attempts[(jobId, n)];
        row := row.(status := AttemptStatus.Processing);
        if existing.None? {
          row := row.(startedAt := startedAt);
        }
      } else {
        row := JobAttempt(AttemptStatus.Processing, None, startedAt, None, None);
      }
      attempts := attempts[(jobId, n) := row];
      r := Success(row);
    }

    method MarkAttemptCompleted(jobId: JobId, n: nat, completedAt: Time, processingTimeMs: int)
      returns (r: Result<JobAttempt, DbError>)
      requires Valid()
      modifies this
      ensures Valid()
      ensures (jobId, n) in old(attempts) ==>
        && r == Success(old(attempts)[(jobId, n)].(
             status := AttemptStatus.Completed,
             errorMessage := None,
             completedAt := Some(completedAt),
             processingTimeMs := Some(processingTimeMs)))
        && attempts == old(attempts)[(jobId, n) := r.value]
      ensures (jobId, n) !in old(attempts) ==> r == Failure(RecordNotFound) && attempts == old(attempts)
    {
      if (jobId, n) !in attempts {
        return Failure(RecordNotFound);
      }
      var row := attempts[(jobId, n)].MarkCompleted(completedAt, processingTimeMs);
      attempts := attempts[(jobId, n) := row];
      r := Success(row);
    }

    method MarkAttemptFailed(jobId: JobId, n: nat, completedAt: Time, processingTimeMs: int, errorMessage: Text)
      returns (r: Result<JobAttempt, DbError>)
      requires Valid()
      modifies this
      ensures Valid()
      ensures (jobId, n) in old(attempts) ==>
        && r == Success(old(attempts)[(jobId, n)].(
             status := AttemptStatus.Failed,
             errorMessage := Some(errorMessage),
             completedAt := Some(completedAt),
             processingTimeMs := Some(processingTimeMs)))
        && attempts == old(attempts)[(jobId, n) := r.value]
      ensures (jobId, n) !in old(attempts) ==> r == Failure(RecordNotFound) && attempts == old(attempts)
    {
      if (jobId, n) !in attempts {
        return Failure(RecordNotFound);
      }
      var row := attempts[(jobId, n)].MarkFailed(completedAt, processingTimeMs, errorMessage);
      attempts := attempts[(jobId, n) := row];
      r := Success(row);
    }
  }

  // The queue with the service in front of it. `reachable` tells whether Redis answers a call.
  class QueueService {
    var entries: map<JobId, Entry>
    const maxAttempts: nat
    const removable: set<EntryState>

    constructor (maxAttempts: nat, removable: set<EntryState>)
      ensures entries == map[] && this.maxAttempts == maxAttempts && this.removable == removable
    {
      entries := map[];
      this.maxAttempts := maxAttempts;
      this.removable := removable;
    }

    function Find(jobId: JobId): Option<Entry>
      reads this
    {
      if jobId in entries then Some(entries[jobId]) else None
    }

    // Adding is atomic, and adding an id that is already there changes nothing.
    method Enqueue(jobId: JobId, payload: Json, delayMs: Option<int>, now: Time, reachable: bool)
      returns (r: Result<Entry, QueueError>)
      modifies this
      ensures !reachable ==> r == Failure(Unreachable) && entries == old(entries)
      ensures reachable && jobId in old(entries) ==> r == Success(old(entries)[jobId]) && entries == old(entries)
      ensures reachable && jobId !in old(entries) ==>
        && r == Success(
             if delayMs.Some? && delayMs.value > 0 then
               Entry(EntryState.Delayed, 0, maxAttempts, now + delayMs.value, payload)
             else Entry(EntryState.Waiting, 0, maxAttempts, now, payload))
        && entries == old(entries)[jobId := r.value]
    {
      var delay: nat := 0;
      if delayMs.Some? && delayMs.value > 0 {
        delay := delayMs.value;
      }
      if !reachable {
        return Failure(Unreachable);
      }
      if jobId !in entries {
        entries := entries[jobId := AddEntry(payload, maxAttempts, delay, now)];
      }
      r := Success(entries[jobId]);
    }

    // False when there is no such entry; an error when the entry cannot be removed.
    method RemoveJob(jobId: JobId, reachable: bool) returns (r: Result<bool, QueueError>)
      modifies this
      ensures !reachable ==> r.Failure?
      ensures reachable && jobId !in old(entries) ==> r == Success(false)
      ensures reachable && jobId in old(entries) ==>
        var state := old(entries)[jobId].state;
        r == if state in removable && state != EntryState.Active then Success(true) else Failure(NotRemovable)
      ensures entries == if r == Success(true) then old(entries) - {jobId} else old(entries)
      ensures r == Success(true) ==> jobId in old(entries)
    {
      if !reachable {
        return Failure(Unreachable);
      }
      if jobId !in entries {
        return Success(false);
      }
      if !Removable(entries[jobId], removable) {
        return Failure(NotRemovable);
      }
      entries := entries - {jobId};
      r := Success(true);
    }
  }

  predicate Removable(e: Entry, removable: set<EntryState>) {
    e.state in removable && !e.state.Active?
  }
}
