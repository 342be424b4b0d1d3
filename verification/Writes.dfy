// Who writes what: the complete effect of every step on the row, the attempts and the queue entry
// of a job, field by field, and on the calls that are at work on it, in every state of every
// configuration.
module Writes {
  import opened Wrappers
  import opened ErrorText
  import opened Records
  import opened Lifecycle

  // Time passes for all; a new job joins the others; and any other step is one step of one job.
  lemma StepsTouchOneJob(cfg: Config, s: State, a: Action, id: JobId)
    ensures var after := Step(cfg, s, a);
      && after.clock == s.clock + (if a.Tick? then a.ms else 0)
      && (id in s.lanes ==>
            && id in after.lanes
            && after.lanes[id] ==
                 if a.At? && a.id == id then LaneStep(cfg, s.lanes[id], s.clock, a.op) else s.lanes[id])
      && (id !in s.lanes && id in after.lanes ==>
            && a.Create? && a.id == id
            && var lane := after.lanes[id];
              lane.attempts == map[] && lane.entry.None? && lane.creator == ToEnqueue && lane.cancels == map[]
              && lane.worker.None?)
  {
    hide LaneStep;
  }

  // The row is written by the mark of a failed enqueue, the mark of a granted cancellation, and
  // the worker's two writes, and by nothing else.
  lemma RowIsWrittenBy(cfg: Config, lane: Lane, now: Time, op: Op)
    ensures var row, after := lane.row, LaneStep(cfg, lane, now, op).row;
      if op.MarkEnqueueFailed? && lane.creator.ToMarkEnqueueFailed? then
        after == row.(
          status := JobStatus.Failed, failedAt := Some(now), lastError := Some(Ascii("Failed to enqueue job")))
      else if op.CancelMark? && op.call in lane.cancels && lane.cancels[op.call] == ToMark then
        after == row.(status := JobStatus.Cancelled, cancelledAt := Some(now))
      else if op.Advance? && lane.worker.Some? && lane.worker.value.pc.ToUpdateJob? then
        var pc := lane.worker.value.pc;
        after == row.(
          status := JobStatus.Processing,
          startedAt := if pc.existing.Some? then row.startedAt else Some(pc.startedAt))
      else if op.Advance? && lane.worker.Some? && lane.worker.value.pc.ToFinishJob?
              && lane.worker.value.attemptNumber >= 1 then
        var w := lane.worker.value; var n, pc := w.attemptNumber, w.pc;
        after == (
          if pc.error.None? then
            row.(
              status := JobStatus.Completed,
              completedAt := Some(pc.completedAt),
              processingTimeMs := Some(pc.completedAt - pc.startedAt),
              retryCount := n - 1,
              lastError := None,
              failedAt := None)
          else if n < w.maxAttempts then
            row.(status := JobStatus.Queued, retryCount := n, lastError := pc.error, failedAt := None)
          else
            row.(
              status := JobStatus.Failed, retryCount := n, lastError := pc.error,
              failedAt := Some(pc.completedAt)))
      else after == row
  {
    hide Outcome;
  }

  // The attempts are written by the worker alone: one row is opened, keeping the start it has, or
  // finished.
  lemma AttemptsAreWrittenBy(cfg: Config, lane: Lane, now: Time, op: Op)
    ensures var attempts, after := lane.attempts, LaneStep(cfg, lane, now, op).attempts;
      if op.Advance? && lane.worker.Some? && lane.worker.value.pc.ToUpsertAttempt? then
        var w := lane.worker.value; var n, pc := w.attemptNumber, w.pc;
        after == attempts[
          n := if n !in attempts then JobAttempt(AttemptStatus.Processing, None, pc.startedAt, None, None)
               else attempts[n].(
                 status := AttemptStatus.Processing,
                 startedAt := if pc.existing.Some? then attempts[n].startedAt else pc.startedAt)]
      else if op.Advance? && lane.worker.Some? && lane.worker.value.pc.ToFinishAttempt?
              && lane.worker.value.attemptNumber in attempts then
        var w := lane.worker.value; var n, pc := w.attemptNumber, w.pc;
        after == attempts[
          n := attempts[n].(
            status := if pc.error.Some? then AttemptStatus.Failed else AttemptStatus.Completed,
            errorMessage := pc.error,
            completedAt := Some(pc.completedAt),
            processingTimeMs := Some(pc.completedAt - pc.startedAt))]
      else after == attempts
  {
    hide Outcome;
  }

  // The entry is added by createJob with the payload, the limit and the delay of the row, removed by
  // a cancellation unless it is held, handed to a worker, and moved on by the worker's answer.
  lemma EntryIsWrittenBy(cfg: Config, lane: Lane, now: Time, op: Op)
    ensures var entry, after := lane.entry, LaneStep(cfg, lane, now, op).entry;
      if lane.creator.ToEnqueue? && (op.Enqueue? || (op.EnqueueLost? && cfg.lossyAdd)) then
        var delay := lane.row.delayMs;
        after == Some(
          if delay.Some? && delay.value > 0 then
            Entry(EntryState.Delayed, 0, lane.row.maxAttempts, now + delay.value, lane.row.payload)
          else Entry(EntryState.Waiting, 0, lane.row.maxAttempts, now, lane.row.payload))
      else if entry.None? then after.None?
      else if op.CancelRemove? && op.call in lane.cancels && lane.cancels[op.call] == ToRemove
              && entry.value.state in cfg.removable && entry.value.state != EntryState.Active then
        after.None?
      else if op.Promote? && entry.value.state.Delayed? && now >= entry.value.due then
        after == Some(entry.value.(state := EntryState.Waiting))
      else if op.Pick? && entry.value.state.Waiting? && lane.worker.None? then
        after == Some(entry.value.(state := EntryState.Active))
      else if op.StallRequeue? && entry.value.state.Active? && lane.worker.None? then
        after == Some(entry.value.(state := EntryState.Waiting))
      else if op.StallFail? && entry.value.state.Active? && lane.worker.None? then
        after == Some(entry.value.(state := EntryState.Failed))
      else if op.Advance? && lane.worker.Some? && lane.worker.value.pc == Settled(false) then
        after == Some(entry.value.(state := EntryState.Completed))
      else if op.Advance? && lane.worker.Some? && lane.worker.value.pc == Settled(true) then
        var failed := entry.value.attemptsMade + 1;
        after == Some(
          if failed >= entry.value.attempts then entry.value.(state := EntryState.Failed, attemptsMade := failed)
          else entry.value.(
            state := EntryState.Delayed, attemptsMade := failed, due := now + Backoff(cfg.backoffDelayMs, failed)))
      else after == entry
  {
    hide Outcome;
  }

  // A cancellation reads the status, looks the entry up, removes it and marks the row, in this
  // order, and is refused at the first of these that fails; no other step moves it.
  lemma CancelsMove(cfg: Config, lane: Lane, now: Time, op: Op, c: nat)
    ensures var before := if c in lane.cancels then Some(lane.cancels[c]) else None;
      var cancels := LaneStep(cfg, lane, now, op).cancels;
      var after := if c in cancels then Some(cancels[c]) else None;
      var state := if lane.entry.Some? then Some(lane.entry.value.state) else None;
      if op == CancelRead(c) && before.None? then
        after == Some(if lane.row.status == JobStatus.Queued then ToLookup else Refused)
      else if op == CancelLookup(c) && before == Some(ToLookup) then
        after == Some(if state.Some? then ToRemove else Refused)
      else if op == CancelRemove(c) && before == Some(ToRemove) then
        after == Some(
          if (if state.None? then cfg.removeMissing
              else state.value in cfg.removable && state.value != EntryState.Active) then ToMark
          else Refused)
      else if op == CancelErrs(c) && (before == Some(ToLookup) || before == Some(ToRemove)) then
        after == Some(Refused)
      else if op == CancelMark(c) && before == Some(ToMark) then after == Some(CancelPc.Succeeded)
      else if op == CancelDies(c) && cfg.faults && before.Some? && before != Some(CancelPc.Succeeded) then
        after == Some(Refused)
      else after == before
  {
    hide AdvanceWorker;
    match op
    case Advance => if lane.worker.Some? { WorkerKeepsCalls(cfg, lane, now); }
    case _ =>
  }

  lemma WorkerKeepsCalls(cfg: Config, lane: Lane, now: Time)
    requires lane.worker.Some?
    ensures var after := AdvanceWorker(cfg, lane, now);
      after.cancels == lane.cancels && after.creator == lane.creator
  {
    hide Outcome;
  }

  // createJob enqueues once; if it learns that this failed it marks the row, and then it is over.
  lemma CreatorMoves(cfg: Config, lane: Lane, now: Time, op: Op)
    ensures var before, after := lane.creator, LaneStep(cfg, lane, now, op).creator;
      if before == ToEnqueue && op == Enqueue then after == Accepted
      else if before == ToEnqueue && (op == EnqueueFails || (op == EnqueueLost && cfg.lossyAdd)) then
        after == ToMarkEnqueueFailed
      else if before == ToMarkEnqueueFailed && op == MarkEnqueueFailed then after == Rejected
      else if (before == ToEnqueue || before == ToMarkEnqueueFailed) && op == CreatorDies && cfg.faults then
        after == Gone
      else after == before
  {
    hide AdvanceWorker;
    match op
    case Advance => if lane.worker.Some? { WorkerKeepsCalls(cfg, lane, now); }
    case _ =>
  }

  // A delivery begins with the next attempt number and a copy of the entry's payload and limit. It
  // reads the clock, reads and opens its attempt unless that is finished, reads and opens the job,
  // works, reads the clock, finishes the attempt and then the job, and answers the queue.
  lemma WorkerMoves(cfg: Config, lane: Lane, now: Time, op: Op)
    ensures var before, after := lane.worker, LaneStep(cfg, lane, now, op).worker;
      if before.None? then
        var entry := lane.entry;
        after == if op == Pick && entry.Some? && entry.value.state.Waiting? then
                   Some(Worker(entry.value.attemptsMade + 1, entry.value.attempts, entry.value.payload, Picked))
                 else None
      else if op == WorkerDies && cfg.faults then after.None?
      else if op == WorkerRejects && cfg.faults then after == Some(before.value.(pc := Settled(true)))
      else if op != Advance then after == before
      else if before.value.pc.Settled? then after.None?
      else after == Some(before.value.(pc := NextPc(cfg, lane, now)))
  {
    hide Outcome;
  }

  // The awaited call that follows the one a worker has just made.
  function NextPc(cfg: Config, lane: Lane, now: Time): WorkerPc
    requires lane.worker.Some?
  {
    var w := lane.worker.value;
    var n := w.attemptNumber;
    match w.pc
    case Picked => ToReadAttempt(now)
    case ToReadAttempt(startedAt) =>
      if n !in lane.attempts then ToUpsertAttempt(startedAt, None)
      else if lane.attempts[n].status.Completed? || lane.attempts[n].status.Failed? then Settled(true)
      else ToUpsertAttempt(startedAt, Some(lane.attempts[n].startedAt))
    case ToUpsertAttempt(startedAt, _) => ToReadJob(startedAt)
    case ToReadJob(startedAt) => ToUpdateJob(startedAt, lane.row.startedAt)
    case ToUpdateJob(startedAt, _) => Working(startedAt, now)
    case Working(startedAt, since) =>
      if now - since >= cfg.processingDelayMs then ToFinishAttempt(startedAt, now, Outcome(w.payload, n)) else w.pc
    case ToFinishAttempt(startedAt, completedAt, error) =>
      if n in lane.attempts then ToFinishJob(startedAt, completedAt, error) else Settled(true)
    case ToFinishJob(_, _, error) => Settled(n == 0 || error.Some?)
    case Settled(_) => w.pc
  }

  // The backoff starts at the configured delay and doubles from one failure to the next.
  lemma BackoffDoubles(baseMs: nat, m: nat)
    requires m >= 1
    ensures Backoff(baseMs, 1) == baseMs
    ensures Backoff(baseMs, m + 1) == 2 * Backoff(baseMs, m)
  {
    var b: int, p: int := baseMs, Pow2(m - 1);
    assert Pow2(0) == 1;
    assert b * (2 * p) == 2 * (b * p);
  }
}
