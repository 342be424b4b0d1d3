// What holds in every crash-free run: no worker or API call dies, no database write is
// rejected, adds are atomic, and only waiting entries can be removed. Steps of any number of
// API calls and workers still interleave freely.
module Orderly {
  import opened Wrappers
  import opened Simulation
  import opened Records
  import opened Lifecycle
  import opened Faults

  type Attempts = map<nat, JobAttempt>

  // The record of an attempt that ran from `startedAt` to its recorded completion.
  ghost predicate FinishedAttempt(payload: Json, n: nat, a: JobAttempt) {
    && a.completedAt.Some?
    && a.processingTimeMs == Some(a.completedAt.value - a.startedAt)
    && a.errorMessage == Outcome(payload, n)
    && a.status == (if Outcome(payload, n).Some? then AttemptStatus.Failed else AttemptStatus.Completed)
  }

  // Attempts 1..k have all failed.
  ghost predicate FailedUpTo(payload: Json, attempts: Attempts, k: nat) {
    forall i :: 1 <= i <= k ==> i in attempts && attempts[i].status.Failed? && FinishedAttempt(payload, i, attempts[i])
  }

  ghost predicate NumberedUpTo(attempts: Attempts, m: nat) {
    forall i :: i in attempts <==> 1 <= i <= m
  }

  // The counters of the row while `k` attempts have failed and none has succeeded.
  ghost predicate CountsFailures(row: Job, attempts: Attempts, k: nat) {
    && row.retryCount == k
    && row.lastError == (if k >= 1 && k in attempts then attempts[k].errorMessage else None)
    && row.completedAt.None? && row.processingTimeMs.None? && row.failedAt.None?
    && FailedUpTo(row.payload, attempts, k)
  }

  ghost predicate StartsWithFirst(row: Job, attempts: Attempts) {
    row.startedAt == (if 1 in attempts then Some(attempts[1].startedAt) else None)
  }

  // Between deliveries: exactly attempts 1..k are recorded and all of them failed.
  ghost predicate Resting(row: Job, attempts: Attempts, k: nat) {
    && NumberedUpTo(attempts, k)
    && CountsFailures(row, attempts, k)
    && StartsWithFirst(row, attempts)
  }

  ghost predicate Opened(attempts: Attempts, n: nat, startedAt: Time) {
    && NumberedUpTo(attempts, n)
    && n in attempts
    && attempts[n] == JobAttempt(AttemptStatus.Processing, None, startedAt, None, None)
  }

  // The row and the history of a job whose attempt k + 1 succeeded.
  ghost predicate SucceededAfter(row: Job, attempts: Attempts, k: nat) {
    && row.status.Completed?
    && NumberedUpTo(attempts, k + 1)
    && FailedUpTo(row.payload, attempts, k)
    && attempts[k + 1].status.Completed?
    && FinishedAttempt(row.payload, k + 1, attempts[k + 1])
    && StartsWithFirst(row, attempts)
    && row.retryCount == k
    && row.lastError.None? && row.failedAt.None?
    && row.completedAt == attempts[k + 1].completedAt
    && row.processingTimeMs == attempts[k + 1].processingTimeMs
  }

  // The row and the history of a job all of whose attempts failed.
  ghost predicate Exhausted(row: Job, attempts: Attempts) {
    var max := row.maxAttempts;
    && row.status.Failed?
    && max >= 1
    && NumberedUpTo(attempts, max)
    && FailedUpTo(row.payload, attempts, max)
    && StartsWithFirst(row, attempts)
    && row.retryCount == max
    && row.lastError == attempts[max].errorMessage
    && row.failedAt == attempts[max].completedAt
    && row.completedAt.None? && row.processingTimeMs.None?
  }

  // The row and the history at each point of the delivery of attempt k + 1.
  ghost predicate InDelivery(row: Job, attempts: Attempts, k: nat, pc: WorkerPc) {
    match pc
    case Picked => row.status.Queued? && Resting(row, attempts, k)
    case ToReadAttempt(_) => row.status.Queued? && Resting(row, attempts, k)
    case ToUpsertAttempt(_, existing) => row.status.Queued? && Resting(row, attempts, k) && existing.None?
    case ToReadJob(startedAt) =>
      row.status.Queued? && Opened(attempts, k + 1, startedAt) && CountsFailures(row, attempts, k)
      && row.startedAt == (if k >= 1 then Some(attempts[1].startedAt) else None)
    case ToUpdateJob(startedAt, existing) =>
      row.status.Queued? && Opened(attempts, k + 1, startedAt) && CountsFailures(row, attempts, k)
      && row.startedAt == existing == (if k >= 1 then Some(attempts[1].startedAt) else None)
    case Working(startedAt, _) =>
      row.status.Processing? && Opened(attempts, k + 1, startedAt) && CountsFailures(row, attempts, k)
      && StartsWithFirst(row, attempts)
    case ToFinishAttempt(startedAt, _, error) =>
      row.status.Processing? && Opened(attempts, k + 1, startedAt) && CountsFailures(row, attempts, k)
      && StartsWithFirst(row, attempts) && error == Outcome(row.payload, k + 1)
    case ToFinishJob(startedAt, completedAt, error) =>
      && row.status.Processing? && NumberedUpTo(attempts, k + 1) && CountsFailures(row, attempts, k)
      && StartsWithFirst(row, attempts)
      && error == Outcome(row.payload, k + 1)
      && FinishedAttempt(row.payload, k + 1, attempts[k + 1])
      && attempts[k + 1].startedAt == startedAt
      && attempts[k + 1].completedAt == Some(completedAt)
    case Settled(rejected) =>
      if !rejected then SucceededAfter(row, attempts, k)
      else if k + 1 < row.maxAttempts then row.status.Queued? && Resting(row, attempts, k + 1)
      else k + 1 == row.maxAttempts && Exhausted(row, attempts)
  }

  ghost predicate NoneGranted(lane: Lane) {
    forall c :: c in lane.cancels ==> !lane.cancels[c].Granted()
  }

  ghost predicate GrantedBy(lane: Lane, c: nat) {
    c in lane.cancels && (if lane.row.status.Queued? then lane.cancels[c].ToMark? else lane.cancels[c].Succeeded?)
  }

  ghost predicate EntryOrderly(lane: Lane, e: Entry) {
    var k := e.attemptsMade;
    && lane.creator.Accepted?
    && e.attempts == lane.row.maxAttempts
    && e.payload == lane.row.payload
    && lane.row.cancelledAt.None?
    && NoneGranted(lane)
    && match e.state
       case Waiting =>
         k < e.attempts && lane.worker.None? && lane.row.status.Queued? && Resting(lane.row, lane.attempts, k)
       case Delayed =>
         k < e.attempts && lane.worker.None? && lane.row.status.Queued? && Resting(lane.row, lane.attempts, k)
       case Active =>
         && k < e.attempts
         && lane.worker.Some?
         && var w := lane.worker.value;
         && w.attemptNumber == k + 1 && w.maxAttempts == e.attempts && w.payload == e.payload
         && InDelivery(lane.row, lane.attempts, k, w.pc)
       case Completed => k < e.attempts && lane.worker.None? && SucceededAfter(lane.row, lane.attempts, k)
       case Failed => k == e.attempts && lane.worker.None? && Exhausted(lane.row, lane.attempts)
  }

  ghost predicate BareOrderly(lane: Lane) {
    && lane.worker.None?
    && match lane.creator
       case ToEnqueue => NeverQueued(lane) && lane.row.status.Queued?
       case ToMarkEnqueueFailed => NeverQueued(lane) && lane.row.status.Queued?
       case Rejected =>
         && NoneLooked(lane)
         && lane.attempts == map[]
         && lane.row.status.Failed? && lane.row.retryCount == 0
         && lane.row.lastError == Some(ENQUEUE_FAILURE_MESSAGE) && lane.row.failedAt.Some?
         && lane.row.startedAt.None? && lane.row.completedAt.None? && lane.row.processingTimeMs.None?
         && lane.row.cancelledAt.None?
       case Accepted =>
         && lane.row.retryCount < lane.row.maxAttempts
         && Resting(lane.row, lane.attempts, lane.row.retryCount)
         && (exists c :: GrantedBy(lane, c))
         && (if lane.row.status.Queued? then lane.row.cancelledAt.None?
             else lane.row.status.Cancelled? && lane.row.cancelledAt.Some?)
       case Gone => false
  }

  ghost predicate NeverQueued(lane: Lane) {
    && NoneLooked(lane)
    && lane.row.cancelledAt.None?
    && Resting(lane.row, lane.attempts, 0)
  }

  // The invariant of a lane in crash-free runs.
  ghost predicate LaneOrderly(lane: Lane) {
    && lane.row.maxAttempts >= 1
    && match lane.entry
       case None => BareOrderly(lane)
       case Some(e) => EntryOrderly(lane, e)
  }

  // The worker's steps that only read, wait or answer the queue.
  lemma ReadingKeepsOrderly(cfg: Config, lane: Lane, now: Time)
    requires LaneOrderly(lane) && lane.worker.Some?
    requires var pc := lane.worker.value.pc;
      pc.Picked? || pc.ToReadAttempt? || pc.ToReadJob? || pc.Working? || pc.Settled?
    ensures LaneOrderly(AdvanceWorker(cfg, lane, now))
  {
    hide Outcome;
    hide FailedUpTo;
    hide FinishedAttempt;
  }

  lemma UpsertKeepsOrderly(cfg: Config, lane: Lane, now: Time)
    requires LaneOrderly(lane) && lane.worker.Some? && lane.worker.value.pc.ToUpsertAttempt?
    ensures LaneOrderly(AdvanceWorker(cfg, lane, now))
  {
    hide Outcome;
  }

  lemma UpdateJobKeepsOrderly(cfg: Config, lane: Lane, now: Time)
    requires LaneOrderly(lane) && lane.worker.Some? && lane.worker.value.pc.ToUpdateJob?
    ensures LaneOrderly(AdvanceWorker(cfg, lane, now))
  {
    hide Outcome;
  }

  lemma FinishAttemptKeepsOrderly(cfg: Config, lane: Lane, now: Time)
    requires LaneOrderly(lane) && lane.worker.Some? && lane.worker.value.pc.ToFinishAttempt?
    ensures LaneOrderly(AdvanceWorker(cfg, lane, now))
  {
    hide Outcome;
  }

  lemma FinishJobKeepsOrderly(cfg: Config, lane: Lane, now: Time)
    requires LaneOrderly(lane) && lane.worker.Some? && lane.worker.value.pc.ToFinishJob?
    ensures LaneOrderly(AdvanceWorker(cfg, lane, now))
  {
    hide Outcome;
  }

  lemma AdvanceKeepsOrderly(cfg: Config, lane: Lane, now: Time)
    requires LaneOrderly(lane) && lane.worker.Some?
    ensures LaneOrderly(AdvanceWorker(cfg, lane, now))
  {
    match lane.worker.value.pc
    case ToUpsertAttempt(_, _) => UpsertKeepsOrderly(cfg, lane, now);
    case ToUpdateJob(_, _) => UpdateJobKeepsOrderly(cfg, lane, now);
    case ToFinishAttempt(_, _, _) => FinishAttemptKeepsOrderly(cfg, lane, now);
    case ToFinishJob(_, _, _) => FinishJobKeepsOrderly(cfg, lane, now);
    case _ => ReadingKeepsOrderly(cfg, lane, now);
  }

  lemma CreatorKeepsOrderly(cfg: Config, lane: Lane, now: Time, op: Op)
    requires cfg.CrashFree()
    requires LaneOrderly(lane)
    ensures LaneOrderly(CreatorStep(cfg, lane, now, op))
  {
  }

  lemma CancelKeepsOrderly(cfg: Config, lane: Lane, now: Time, op: Op)
    requires cfg.CrashFree()
    requires LaneOrderly(lane)
    ensures LaneOrderly(CancelStep(cfg, lane, now, op))
  {
    hide Outcome;
    hide FailedUpTo;
    hide NumberedUpTo;
    hide SucceededAfter;
    hide Exhausted;
    hide InDelivery;
    var after := CancelStep(cfg, lane, now, op);
    if after.entry.None? && lane.creator.Accepted? {
      if lane.entry.None? {
        var c :| GrantedBy(lane, c);
        assert GrantedBy(after, c) || (op.CancelMark? && GrantedBy(after, op.call));
      } else {
        assert GrantedBy(after, op.call);
      }
    }
  }

  lemma QueueKeepsOrderly(cfg: Config, lane: Lane, now: Time, op: Op)
    requires cfg.CrashFree()
    requires LaneOrderly(lane)
    ensures LaneOrderly(QueueStep(cfg, lane, now, op))
  {
  }

  lemma OrderlyStep(cfg: Config, lane: Lane, now: Time, op: Op)
    requires cfg.CrashFree()
    requires LaneOrderly(lane)
    ensures LaneOrderly(LaneStep(cfg, lane, now, op))
  {
    CreatorKeepsOrderly(cfg, lane, now, op);
    CancelKeepsOrderly(cfg, lane, now, op);
    QueueKeepsOrderly(cfg, lane, now, op);
    if lane.worker.Some? {
      AdvanceKeepsOrderly(cfg, lane, now);
    }
  }
}
