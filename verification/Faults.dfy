// What holds in every run, whatever fails: workers and API calls may die at any await, any
// database write may be rejected, and finished entries may be removable.
module Faults {
  import opened Wrappers
  import opened Simulation
  import opened Records
  import opened Schedule
  import opened Lifecycle

  // The delivery of attempt `n` has read its attempt row and not yet settled it.
  predicate AttemptOpen(pc: WorkerPc) {
    pc.ToReadJob? || pc.ToUpdateJob? || pc.Working? || pc.ToFinishAttempt?
  }

  // The delivery has passed the check that its attempt is not finished yet.
  predicate PastCheck(pc: WorkerPc) {
    pc.ToUpsertAttempt? || AttemptOpen(pc) || pc.ToFinishJob?
  }

  ghost predicate WorkerMatches(lane: Lane, e: Entry, w: Worker) {
    var n := w.attemptNumber;
    && e.state.Active?
    && n == e.attemptsMade + 1
    && w.maxAttempts == e.attempts
    && w.payload == e.payload
    && (w.pc.ToUpsertAttempt? ==>
          && w.pc.existing == (if n in lane.attempts then Some(lane.attempts[n].startedAt) else None)
          && (n in lane.attempts ==> !lane.attempts[n].Terminal()))
    && (AttemptOpen(w.pc) ==> n in lane.attempts && !lane.attempts[n].Terminal())
    && (w.pc.ToFinishJob? ==> n in lane.attempts && lane.attempts[n].Terminal())
  }

  ghost predicate EntryMatches(lane: Lane, e: Entry) {
    && !lane.creator.ToEnqueue?
    && e.attempts == lane.row.maxAttempts
    && e.payload == lane.row.payload
    && e.attemptsMade <= e.attempts
    && (e.state.Waiting? || e.state.Delayed? || e.state.Active? ==> e.attemptsMade < e.attempts)
    && (forall i :: i in lane.attempts ==> i <= e.attemptsMade + 1)
  }

  // The queue entry, the worker and the attempt rows fit together.
  ghost predicate Structural(lane: Lane) {
    && lane.row.maxAttempts >= 1
    && (forall i :: i in lane.attempts ==> 1 <= i <= lane.row.maxAttempts)
    && (lane.creator.ToEnqueue? ==> lane.entry.None? && lane.attempts == map[])
    && (lane.entry.None? ==> lane.worker.None?)
    && (lane.entry.Some? ==> EntryMatches(lane, lane.entry.value))
    && (lane.entry.Some? && lane.worker.Some? ==> WorkerMatches(lane, lane.entry.value, lane.worker.value))
  }

  lemma AdvanceKeepsStructural(cfg: Config, lane: Lane, now: Time)
    requires Structural(lane) && lane.worker.Some?
    ensures Structural(AdvanceWorker(cfg, lane, now))
  {
    hide Outcome;
  }

  lemma QueueKeepsStructural(cfg: Config, lane: Lane, now: Time, op: Op)
    requires Structural(lane)
    ensures Structural(QueueStep(cfg, lane, now, op))
  {
  }

  lemma CallsKeepStructural(cfg: Config, lane: Lane, now: Time, op: Op)
    requires Structural(lane)
    ensures Structural(CreatorStep(cfg, lane, now, op)) && Structural(CancelStep(cfg, lane, now, op))
  {
  }

  lemma StructuralStep(cfg: Config, lane: Lane, now: Time, op: Op)
    requires Structural(lane)
    ensures Structural(LaneStep(cfg, lane, now, op))
  {
    hide AdvanceWorker;
    hide CreatorStep;
    hide CancelStep;
    hide QueueStep;
    hide Outcome;
    CallsKeepStructural(cfg, lane, now, op);
    QueueKeepsStructural(cfg, lane, now, op);
    match op
    case Advance => if lane.worker.Some? { AdvanceKeepsStructural(cfg, lane, now); }
    case _ =>
  }

  // ---------- Attempt records ----------

  // A finished attempt records the result of its work and when it ended.
  ghost predicate Recorded(payload: Json, n: nat, a: JobAttempt) {
    a.Terminal() ==>
      && a.completedAt.Some? && a.processingTimeMs.Some?
      && a.errorMessage == Outcome(payload, n)
      && (a.status.Failed? <==> Outcome(payload, n).Some?)
  }

  // Every finished attempt is recorded, and so is the one of a delivery that is about to write
  // the result to the row: finishing it with the same values once more would change nothing.
  ghost predicate AttemptsRecorded(lane: Lane) {
    && (forall i :: i in lane.attempts ==> Recorded(lane.row.payload, i, lane.attempts[i]))
    && (lane.worker.Some? ==>
          var n := lane.worker.value.attemptNumber;
          match lane.worker.value.pc
          case ToFinishAttempt(_, _, error) => error == Outcome(lane.row.payload, n)
          case ToFinishJob(startedAt, completedAt, error) =>
            && error == Outcome(lane.row.payload, n)
            && n in lane.attempts
            && lane.attempts[n] == FinishAttempt(lane.attempts[n], completedAt, completedAt - startedAt, error)
          case _ => true)
  }

  lemma AdvanceKeepsAttemptsRecorded(cfg: Config, lane: Lane, now: Time)
    requires Structural(lane) && AttemptsRecorded(lane) && lane.worker.Some?
    ensures AttemptsRecorded(AdvanceWorker(cfg, lane, now))
  {
    hide Outcome;
  }

  // Only the worker writes attempts; a delivery that others begin or cut short has nothing to write.
  lemma OthersLeaveAttempts(cfg: Config, lane: Lane, now: Time, op: Op)
    requires !op.Advance?
    ensures var after := LaneStep(cfg, lane, now, op);
      && after.attempts == lane.attempts && after.row.payload == lane.row.payload
      && (after.worker.Some? ==>
            after.worker == lane.worker || after.worker.value.pc.Picked? || after.worker.value.pc.Settled?)
  {
  }

  lemma AttemptsRecordedStep(cfg: Config, lane: Lane, now: Time, op: Op)
    requires Structural(lane) && AttemptsRecorded(lane)
    ensures AttemptsRecorded(LaneStep(cfg, lane, now, op))
  {
    hide AdvanceWorker;
    hide Outcome;
    match op
    case Advance => if lane.worker.Some? { AdvanceKeepsAttemptsRecorded(cfg, lane, now); }
    case _ =>
      OthersLeaveAttempts(cfg, lane, now, op);
      hide LaneStep;
  }

  // ---------- Dead letters ----------

  // No cancellation has seen an entry.
  ghost predicate NoneLooked(lane: Lane) {
    forall c :: c in lane.cancels ==> lane.cancels[c].ToLookup? || lane.cancels[c].Refused?
  }

  // The row of a job that could not be enqueued.
  predicate MarkedUnqueued(row: Job) {
    row.status.Failed? && row.retryCount == 0 && row.lastError == Some(ENQUEUE_FAILURE_MESSAGE) && row.failedAt.Some?
  }

  // The row of a job whose last attempt failed.
  ghost predicate FailedByLastAttempt(row: Job, attempts: map<nat, JobAttempt>) {
    var max := row.maxAttempts;
    && row.retryCount == max
    && max in attempts && attempts[max].status.Failed?
    && row.failedAt == attempts[max].completedAt
    && row.lastError == attempts[max].errorMessage
  }

  // A FAILED row is either that of a failed enqueue, or its last attempt failed.
  ghost predicate FailedIsFinal(lane: Lane) {
    && (!lane.creator.Accepted? ==>
          lane.entry.None? && lane.attempts == map[] && lane.row.retryCount == 0 && NoneLooked(lane))
    && (lane.creator.Rejected? ==> MarkedUnqueued(lane.row))
    && (lane.row.status.Failed? && !lane.creator.Rejected? ==>
          lane.creator.Accepted? && FailedByLastAttempt(lane.row, lane.attempts))
    && (lane.worker.Some? && PastCheck(lane.worker.value.pc) ==> !lane.row.status.Failed?)
  }

  lemma AdvanceKeepsFailedIsFinal(cfg: Config, lane: Lane, now: Time)
    requires Structural(lane) && AttemptsRecorded(lane) && FailedIsFinal(lane) && lane.worker.Some?
    ensures FailedIsFinal(AdvanceWorker(cfg, lane, now))
  {
    hide Outcome;
  }

  lemma FailedIsFinalStep(cfg: Config, lane: Lane, now: Time, op: Op)
    requires !cfg.lossyAdd
    requires Structural(lane) && AttemptsRecorded(lane) && FailedIsFinal(lane)
    ensures FailedIsFinal(LaneStep(cfg, lane, now, op))
  {
    hide AdvanceWorker;
    hide Outcome;
    match op
    case Advance => if lane.worker.Some? { AdvanceKeepsFailedIsFinal(cfg, lane, now); }
    case _ =>
  }

  // ---------- Completed rows ----------

  predicate AboutToFinish(pc: WorkerPc) {
    pc.Working? || pc.ToFinishAttempt? || pc.ToFinishJob?
  }

  // The row of a job that its attempt retryCount + 1 completed.
  ghost predicate CompletedByAttempt(row: Job, attempts: map<nat, JobAttempt>) {
    var n := row.retryCount + 1;
    && n in attempts && attempts[n].status.Completed?
    && row.completedAt == attempts[n].completedAt
    && row.processingTimeMs == attempts[n].processingTimeMs
  }

  // A COMPLETED row is that of its completed attempt, and no delivery that is past its work is
  // about to overwrite it.
  ghost predicate CompletedIsStamped(lane: Lane) {
    && (lane.row.status.Completed? ==>
          && CompletedByAttempt(lane.row, lane.attempts)
          && (lane.entry.Some? ==> lane.entry.value.attemptsMade >= lane.row.retryCount))
    && (lane.worker.Some? && AboutToFinish(lane.worker.value.pc) ==> !lane.row.status.Completed?)
  }

  lemma AdvanceKeepsStamps(cfg: Config, lane: Lane, now: Time)
    requires Structural(lane) && AttemptsRecorded(lane) && CompletedIsStamped(lane) && lane.worker.Some?
    ensures CompletedIsStamped(AdvanceWorker(cfg, lane, now))
  {
    hide Outcome;
  }

  lemma CompletedIsStampedStep(cfg: Config, lane: Lane, now: Time, op: Op)
    requires Structural(lane) && AttemptsRecorded(lane) && CompletedIsStamped(lane)
    ensures CompletedIsStamped(LaneStep(cfg, lane, now, op))
  {
    hide AdvanceWorker;
    hide Outcome;
    match op
    case Advance => if lane.worker.Some? { AdvanceKeepsStamps(cfg, lane, now); }
    case _ =>
  }

  // ---------- Fields and statuses ----------

  // The optional fields of a row fit its status: no failure time is left on a row that waits
  // again or has completed, and every final status comes with its time.
  predicate FieldsFitStatus(row: Job) {
    match row.status
    case Queued => row.failedAt.None?
    case Processing => row.startedAt.Some?
    case Completed => row.completedAt.Some? && row.processingTimeMs.Some? && row.failedAt.None? && row.lastError.None?
    case Failed => row.failedAt.Some? && row.lastError.Some?
    case Cancelled => row.cancelledAt.Some?
  }

  // The startedAt that markProcessing has read is still the one of the row when it writes.
  ghost predicate FieldsFit(lane: Lane) {
    && FieldsFitStatus(lane.row)
    && (lane.worker.Some? && lane.worker.value.pc.ToUpdateJob? ==> lane.worker.value.pc.existing == lane.row.startedAt)
  }

  lemma FieldsFitStep(cfg: Config, lane: Lane, now: Time, op: Op)
    requires FieldsFit(lane)
    ensures FieldsFit(LaneStep(cfg, lane, now, op))
  {
    hide Outcome;
  }

  // ---------- Cancellations ----------

  // The queue holds nothing for the job, no worker does, and nobody will add it.
  predicate Withdrawn(lane: Lane) {
    lane.entry.None? && lane.worker.None? && !lane.creator.ToEnqueue?
  }

  // No cancellation sees an entry before there was one, and a granted one is final.
  ghost predicate GrantIsFinal(lane: Lane) {
    && (lane.creator.ToEnqueue? ==> NoneLooked(lane) && lane.row.status.Queued?)
    && (forall c :: c in lane.cancels && lane.cancels[c].Granted() ==> Withdrawn(lane))
    && (lane.row.status.Cancelled? ==> Withdrawn(lane))
  }

  lemma AdvanceKeepsGrant(cfg: Config, lane: Lane, now: Time)
    requires Structural(lane) && GrantIsFinal(lane) && lane.worker.Some?
    ensures GrantIsFinal(AdvanceWorker(cfg, lane, now))
  {
    hide Outcome;
  }

  lemma GrantIsFinalStep(cfg: Config, lane: Lane, now: Time, op: Op)
    requires Structural(lane) && GrantIsFinal(lane)
    ensures GrantIsFinal(LaneStep(cfg, lane, now, op))
  {
    hide AdvanceWorker;
    match op
    case Advance => if lane.worker.Some? { AdvanceKeepsGrant(cfg, lane, now); }
    case _ =>
  }

  // At most one cancellation has been granted by the queue.
  ghost predicate OneGrant(lane: Lane) {
    forall c, d ::
      c in lane.cancels && d in lane.cancels && lane.cancels[c].Granted() && lane.cancels[d].Granted() ==> c == d
  }

  lemma OneGrantStep(cfg: Config, lane: Lane, now: Time, op: Op)
    requires !cfg.removeMissing
    requires Structural(lane) && GrantIsFinal(lane) && OneGrant(lane)
    ensures OneGrant(LaneStep(cfg, lane, now, op))
  {
    hide Outcome;
  }

  // Without removable entries nothing is ever withdrawn.
  ghost predicate NeverWithdrawn(lane: Lane) {
    && (forall c :: c in lane.cancels ==> !lane.cancels[c].Granted())
    && !lane.row.status.Cancelled?
    && (lane.entry.None? ==> NoneLooked(lane) && !lane.creator.Accepted?)
  }

  lemma NeverWithdrawnStep(cfg: Config, lane: Lane, now: Time, op: Op)
    requires cfg.removable == {}
    requires Structural(lane) && NeverWithdrawn(lane)
    ensures NeverWithdrawn(LaneStep(cfg, lane, now, op))
  {
    hide Outcome;
  }

  // ---------- Rows that keep their entry ----------

  // Only a completed entry can have no work left while its row is PROCESSING: if nothing else can
  // be removed, a row that is PROCESSING has its entry, and it is not completed.
  ghost predicate ProcessingKeepsEntry(cfg: Config, lane: Lane) {
    lane.row.status.Processing? ==>
      && (cfg.removable <= {EntryState.Completed} ==> lane.entry.Some?)
      && (lane.entry.Some? ==> !lane.entry.value.state.Completed?)
      && (lane.worker.Some? ==> lane.worker.value.pc != Settled(false))
  }

  lemma ProcessingKeepsEntryStep(cfg: Config, lane: Lane, now: Time, op: Op)
    requires Structural(lane) && ProcessingKeepsEntry(cfg, lane)
    ensures ProcessingKeepsEntry(cfg, LaneStep(cfg, lane, now, op))
  {
    hide Outcome;
  }

  // When the entry of a FAILED row is never removed.
  predicate RetainsFailed(cfg: Config) {
    !cfg.lossyAdd && EntryState.Failed !in cfg.removable && (cfg.faults ==> EntryState.Waiting !in cfg.removable)
  }

  // The entry of a FAILED row has failed too, or its last delivery is not over.
  ghost predicate FailedKeepsEntry(cfg: Config, lane: Lane) {
    lane.row.status.Failed? && !lane.creator.Rejected? ==>
      && lane.entry.Some?
      && var state := lane.entry.value.state;
      && (state.Failed? || state.Active? || (state.Waiting? && cfg.faults))
      && (state.Active? && !cfg.faults ==> lane.worker.Some?)
      && (lane.worker.Some? ==> lane.worker.value.pc != Settled(false))
  }

  lemma AdvanceKeepsFailedEntry(cfg: Config, lane: Lane, now: Time)
    requires Structural(lane) && FailedIsFinal(lane) && FailedKeepsEntry(cfg, lane) && lane.worker.Some?
    ensures FailedKeepsEntry(cfg, AdvanceWorker(cfg, lane, now))
  {
    hide Outcome;
  }

  lemma FailedKeepsEntryStep(cfg: Config, lane: Lane, now: Time, op: Op)
    requires RetainsFailed(cfg)
    requires Structural(lane) && FailedIsFinal(lane) && GrantIsFinal(lane) && FailedKeepsEntry(cfg, lane)
    ensures FailedKeepsEntry(cfg, LaneStep(cfg, lane, now, op))
  {
    hide AdvanceWorker;
    match op
    case Advance => if lane.worker.Some? { AdvanceKeepsFailedEntry(cfg, lane, now); }
    case _ =>
  }

  // ---------- Schedules ----------

  // The earliest instant at which the job may start.
  function Earliest(row: Job): Time {
    row.createdAt + EnqueueDelay(row.delayMs)
  }

  predicate StartsNoEarlier(pc: WorkerPc, t: Time) {
    match pc
    case Picked => true
    case ToReadAttempt(startedAt) => startedAt >= t
    case ToUpsertAttempt(startedAt, _) => startedAt >= t
    case ToReadJob(startedAt) => startedAt >= t
    case ToUpdateJob(startedAt, _) => startedAt >= t
    case Working(startedAt, _) => startedAt >= t
    case ToFinishAttempt(startedAt, _, _) => startedAt >= t
    case ToFinishJob(startedAt, _, _) => startedAt >= t
    case Settled(_) => true
  }

  ghost predicate Punctual(lane: Lane, now: Time) {
    var t := Earliest(lane.row);
    && lane.row.createdAt <= now
    && (lane.row.runAt.Some? ==> lane.row.runAt.value <= t)
    && (lane.row.startedAt.Some? ==> lane.row.startedAt.value >= t)
    && (lane.entry.Some? ==> (if lane.entry.value.state.Delayed? then lane.entry.value.due else now) >= t)
    && (lane.worker.Some? ==> StartsNoEarlier(lane.worker.value.pc, t))
    && (forall i :: i in lane.attempts ==> lane.attempts[i].startedAt >= t)
  }

  lemma AdvanceKeepsPunctual(cfg: Config, lane: Lane, now: Time)
    requires Structural(lane) && Punctual(lane, now) && lane.worker.Some?
    ensures Punctual(AdvanceWorker(cfg, lane, now), now)
  {
    hide Outcome;
  }

  lemma PunctualStep(cfg: Config, lane: Lane, now: Time, op: Op)
    requires Structural(lane) && Punctual(lane, now)
    ensures Punctual(LaneStep(cfg, lane, now, op), now)
  {
    hide AdvanceWorker;
    hide Outcome;
    match op
    case Advance => if lane.worker.Some? { AdvanceKeepsPunctual(cfg, lane, now); }
    case _ =>
  }
}
