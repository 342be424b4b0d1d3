// Guarantees that survive faults: they hold in every reachable state of every configuration,
// or of every one whose adds are atomic.
module FaultyRuns {
  import opened Wrappers
  import opened Records
  import opened Lifecycle
  import opened Faults
  import opened Orderly
  import opened Timing
  import opened Reach

  lemma FinishedAttemptKept(cfg: Config, lane: Lane, now: Time, op: Op, n: nat)
    requires Structural(lane)
    requires n in lane.attempts && lane.attempts[n].Terminal()
    ensures var after := LaneStep(cfg, lane, now, op).attempts; n in after && after[n] == lane.attempts[n]
  {
    hide Outcome;
  }

  // A finished attempt is never changed again, whatever fails and however often its entry is
  // delivered again.
  lemma {:induction false} FinishedAttemptsNeverChange(cfg: Config, s: State, actions: seq<Action>, id: JobId, n: nat)
    requires Reachable(cfg, s)
    requires id in s.lanes && n in s.lanes[id].attempts && s.lanes[id].attempts[n].Terminal()
    ensures var after := Run(cfg, s, actions);
      && id in after.lanes
      && n in after.lanes[id].attempts
      && after.lanes[id].attempts[n] == s.lanes[id].attempts[n]
    decreases |actions|
  {
    hide LaneStep;
    hide LaneOrderly;
    hide Paced;
    hide Punctual;
    hide AttemptsRecorded;
    if actions != [] {
      var a := actions[0];
      ReachableIsGood(cfg, s);
      StepReaches(cfg, s, a);
      if a.At? && a.id == id {
        FinishedAttemptKept(cfg, s.lanes[id], s.clock, a.op, n);
      }
      FinishedAttemptsNeverChange(cfg, Step(cfg, s, a), actions[1..], id, n);
    }
  }

  lemma AttemptStartKept(cfg: Config, lane: Lane, now: Time, op: Op, n: nat)
    requires Structural(lane) && n in lane.attempts
    ensures var after := LaneStep(cfg, lane, now, op).attempts;
      n in after && after[n].startedAt == lane.attempts[n].startedAt
  {
    hide Outcome;
  }

  // The start of an attempt is written once: no redelivery of an attempt whose worker died, and
  // nothing else, ever changes it, and no attempt row ever disappears.
  lemma {:induction false} AttemptStartedAtWrittenOnce(cfg: Config, s: State, actions: seq<Action>, id: JobId, n: nat)
    requires Reachable(cfg, s)
    requires id in s.lanes && n in s.lanes[id].attempts
    ensures var after := Run(cfg, s, actions);
      && id in after.lanes
      && n in after.lanes[id].attempts
      && after.lanes[id].attempts[n].startedAt == s.lanes[id].attempts[n].startedAt
    decreases |actions|
  {
    hide LaneStep;
    hide Structural;
    if actions != [] {
      var a := actions[0];
      LaneIsStructural(cfg, s, id);
      StepReaches(cfg, s, a);
      if a.At? && a.id == id {
        AttemptStartKept(cfg, s.lanes[id], s.clock, a.op, n);
      }
      AttemptStartedAtWrittenOnce(cfg, Step(cfg, s, a), actions[1..], id, n);
    }
  }

  // No work runs for an attempt that is finished: from the check of its row until its result is
  // recorded, the attempt that a delivery works on is unfinished, and it is one the queue may give.
  lemma WorkOnlyOnOpenAttempts(cfg: Config, s: State, id: JobId)
    requires Reachable(cfg, s)
    requires id in s.lanes && s.lanes[id].worker.Some?
    ensures var lane := s.lanes[id]; var w := lane.worker.value;
      && 1 <= w.attemptNumber <= lane.row.maxAttempts
      && (w.pc.ToUpsertAttempt? && w.attemptNumber in lane.attempts ==> !lane.attempts[w.attemptNumber].Terminal())
      && (AttemptOpen(w.pc) ==> w.attemptNumber in lane.attempts && !lane.attempts[w.attemptNumber].Terminal())
  {
    ReachableIsGood(cfg, s);
    assert Good(cfg, s.lanes[id], s.clock);
  }

  // Every finished attempt records the outcome the payload gives its number, by whichever of its
  // deliveries it was finished.
  lemma FinishedAttemptsRecordOutcomes(cfg: Config, s: State, id: JobId, n: nat)
    requires Reachable(cfg, s)
    requires id in s.lanes && n in s.lanes[id].attempts && s.lanes[id].attempts[n].Terminal()
    ensures var a := s.lanes[id].attempts[n]; var outcome := Outcome(s.lanes[id].row.payload, n);
      && a.errorMessage == outcome
      && (a.status.Failed? <==> outcome.Some?)
      && a.completedAt.Some? && a.processingTimeMs.Some?
  {
    hide Outcome;
    ReachableIsGood(cfg, s);
    assert Good(cfg, s.lanes[id], s.clock);
  }

  // ---------- Final rows and the attempts that decided them ----------

  // A COMPLETED row has the completion time and the duration of attempt retryCount + 1, and the
  // work of that attempt succeeds.
  lemma CompletedRowMatchesAttempt(cfg: Config, s: State, id: JobId)
    requires Reachable(cfg, s) && id in s.lanes && s.lanes[id].row.status.Completed?
    ensures var lane := s.lanes[id];
      && CompletedByAttempt(lane.row, lane.attempts)
      && lane.row.retryCount < lane.row.maxAttempts
      && Outcome(lane.row.payload, lane.row.retryCount + 1).None?
  {
    hide Outcome;
    hide LaneOrderly;
    ReachableIsGood(cfg, s);
    assert Good(cfg, s.lanes[id], s.clock);
  }

  // A FAILED row whose job was enqueued has the time and the message of the last attempt, which
  // is the failure the payload gives that attempt.
  lemma FailedRowMatchesAttempt(cfg: Config, s: State, id: JobId)
    requires !cfg.lossyAdd
    requires Reachable(cfg, s) && id in s.lanes && s.lanes[id].row.status.Failed?
    requires id !in EnqueueFailures(s)
    ensures var lane := s.lanes[id];
      && FailedByLastAttempt(lane.row, lane.attempts)
      && lane.row.lastError.Some? && lane.row.lastError == Outcome(lane.row.payload, lane.row.maxAttempts)
  {
    hide Outcome;
    hide LaneOrderly;
    ReachableIsGood(cfg, s);
    assert Good(cfg, s.lanes[id], s.clock);
  }

  // The jobs whose createJob call has reported that it could not enqueue them.
  function EnqueueFailures(s: State): set<JobId> {
    set id | id in s.lanes && s.lanes[id].creator.Rejected?
  }

  // Exactly the jobs that could not be enqueued are FAILED without a retry. Their rows carry the
  // reason, they have no entry, and they are never attempted.
  lemma EnqueueFailureIsRecorded(cfg: Config, s: State, id: JobId)
    requires !cfg.lossyAdd
    requires Reachable(cfg, s) && id in s.lanes
    ensures id in EnqueueFailures(s) <==> s.lanes[id].row.status.Failed? && s.lanes[id].row.retryCount == 0
    ensures var lane := s.lanes[id]; id in EnqueueFailures(s) ==>
      && lane.row.lastError == Some(ENQUEUE_FAILURE_MESSAGE) && lane.row.failedAt.Some?
      && lane.entry.None? && lane.worker.None? && lane.attempts == map[]
  {
    hide Outcome;
    hide LaneOrderly;
    ReachableIsGood(cfg, s);
    assert Good(cfg, s.lanes[id], s.clock);
  }

  // ---------- Dead letters ----------

  // The stored proxy for a dead letter and the condition it stands for.
  predicate IsDeadLetter(row: Job) {
    row.status.Failed? && row.retryCount > 0
  }

  predicate HasExhaustedAttempts(row: Job) {
    row.status.Failed? && row.retryCount >= row.maxAttempts
  }

  ghost predicate DeadLettersExact(cfg: Config) {
    forall s: State, id: JobId :: Reachable(cfg, s) && id in s.lanes ==>
      (IsDeadLetter(s.lanes[id].row) <==> HasExhaustedAttempts(s.lanes[id].row))
  }

  lemma AtomicAddsMakeDeadLettersExact(cfg: Config)
    requires !cfg.lossyAdd
    ensures DeadLettersExact(cfg)
  {
    forall s: State, id: JobId | Reachable(cfg, s) && id in s.lanes
      ensures IsDeadLetter(s.lanes[id].row) <==> HasExhaustedAttempts(s.lanes[id].row)
    {
      ReachableIsGood(cfg, s);
      assert Good(cfg, s.lanes[id], s.clock);
    }
  }

  lemma FailedRowKept(cfg: Config, lane: Lane, now: Time, op: Op)
    requires !cfg.lossyAdd && Structural(lane) && FailedIsFinal(lane)
    requires lane.row.status.Failed? && !lane.creator.ToMarkEnqueueFailed? && !op.CancelMark?
    ensures var after := LaneStep(cfg, lane, now, op);
      after.row == lane.row && !after.creator.ToMarkEnqueueFailed?
  {
    hide Outcome;
  }

  // Once a row is FAILED, nothing but a granted cancellation changes it: no delivery or
  // redelivery does, although no write of the worker checks the status.
  lemma {:induction false} FailedRowsOnlyCancelled(cfg: Config, s: State, actions: seq<Action>, id: JobId)
    requires !cfg.lossyAdd
    requires Reachable(cfg, s)
    requires id in s.lanes && s.lanes[id].row.status.Failed?
    requires forall i :: 0 <= i < |actions| ==> !(actions[i].At? && actions[i].id == id && actions[i].op.CancelMark?)
    ensures var after := Run(cfg, s, actions); id in after.lanes && after.lanes[id].row == s.lanes[id].row
    decreases |actions|
  {
    hide LaneStep;
    hide LaneOrderly;
    hide Paced;
    hide Punctual;
    hide AttemptsRecorded;
    if actions != [] {
      var a := actions[0];
      ReachableIsGood(cfg, s);
      assert Good(cfg, s.lanes[id], s.clock);
      StepReaches(cfg, s, a);
      if a.At? && a.id == id {
        FailedRowKept(cfg, s.lanes[id], s.clock, a.op);
      }
      FailedRowsOnlyCancelled(cfg, Step(cfg, s, a), actions[1..], id);
    }
  }

  lemma CompletedRowKept(cfg: Config, lane: Lane, now: Time, op: Op)
    requires Structural(lane) && CompletedIsStamped(lane) && lane.row.status.Completed?
    ensures var after := LaneStep(cfg, lane, now, op);
      || after.row == lane.row
      || (op.CancelMark? && after.row.status.Cancelled?)
      || (op.MarkEnqueueFailed? && lane.creator.ToMarkEnqueueFailed? && after.row.status.Failed?)
      || (op.Advance? && after.row.status.Processing? && lane.worker.Some? && lane.worker.value.pc.ToUpdateJob?
          && lane.row.retryCount + 1 < lane.worker.value.attemptNumber <= lane.row.maxAttempts)
  {
    hide Outcome;
  }

  // A COMPLETED row goes back to PROCESSING only when there are faults and attempts left.
  lemma ReopenedLane(cfg: Config, lane: Lane, now: Time, op: Op)
    requires Structural(lane) && CompletedIsStamped(lane) && lane.row.status.Completed?
    requires !cfg.faults ==> Faultless.CompletedIsOver(lane)
    requires LaneStep(cfg, lane, now, op).row.status.Processing?
    ensures cfg.faults && lane.row.retryCount + 1 < lane.row.maxAttempts
  {
    hide Structural;
    hide CompletedIsStamped;
    hide LaneStep;
    CompletedRowKept(cfg, lane, now, op);
  }

  // A COMPLETED row is reopened only by the markProcessing of a later attempt: the worker's other
  // writes never touch it.
  lemma ReopenedOnlyByLaterAttempt(cfg: Config, s: State, a: Action, id: JobId)
    requires !cfg.lossyAdd
    requires Reachable(cfg, s) && id in s.lanes && s.lanes[id].row.status.Completed?
    requires Step(cfg, s, a).lanes[id].row != s.lanes[id].row
    requires a.At? && !a.op.CancelMark?
    ensures var lane := s.lanes[id];
      && a == At(id, Advance)
      && lane.worker.Some? && lane.worker.value.pc.ToUpdateJob?
      && lane.row.retryCount + 1 < lane.worker.value.attemptNumber <= lane.row.maxAttempts
      && Step(cfg, s, a).lanes[id].row.status.Processing?
  {
    hide LaneStep;
    hide LaneOrderly;
    hide Paced;
    hide Punctual;
    hide AttemptsRecorded;
    ReachableIsGood(cfg, s);
    assert Good(cfg, s.lanes[id], s.clock);
    CompletedRowKept(cfg, s.lanes[id], s.clock, a.op);
  }

  // A job that completed on its last attempt keeps its row through all crashes and redeliveries.
  lemma {:induction false} CompletedOnLastAttemptStays(cfg: Config, s: State, actions: seq<Action>, id: JobId)
    requires !cfg.lossyAdd
    requires Reachable(cfg, s)
    requires id in s.lanes && s.lanes[id].row.status.Completed?
    requires s.lanes[id].row.retryCount + 1 == s.lanes[id].row.maxAttempts
    requires forall i :: 0 <= i < |actions| ==> !(actions[i].At? && actions[i].id == id && actions[i].op.CancelMark?)
    ensures var after := Run(cfg, s, actions); id in after.lanes && after.lanes[id].row == s.lanes[id].row
    decreases |actions|
  {
    hide LaneStep;
    hide LaneOrderly;
    hide Paced;
    hide Punctual;
    hide AttemptsRecorded;
    if actions != [] {
      var a := actions[0];
      ReachableIsGood(cfg, s);
      assert Good(cfg, s.lanes[id], s.clock);
      StepReaches(cfg, s, a);
      if a.At? && a.id == id {
        CompletedRowKept(cfg, s.lanes[id], s.clock, a.op);
      }
      CompletedOnLastAttemptStays(cfg, Step(cfg, s, a), actions[1..], id);
    }
  }

  // ---------- Cancellations ----------

  // A withdrawn job gets no entry, no worker and no attempt any more.
  lemma {:induction false} WithdrawnStays(cfg: Config, s: State, actions: seq<Action>, id: JobId)
    requires id in s.lanes && Withdrawn(s.lanes[id])
    ensures var after := Run(cfg, s, actions);
      && id in after.lanes
      && Withdrawn(after.lanes[id])
      && after.lanes[id].attempts == s.lanes[id].attempts
    decreases |actions|
  {
    if actions != [] {
      WithdrawnStays(cfg, Step(cfg, s, actions[0]), actions[1..], id);
    }
  }

  // Once the queue has granted a cancellation no attempt starts or changes any more, whatever
  // fails, whatever the queue removes and however unreliable its adds are.
  lemma CancelledStaysUntouched(cfg: Config, s: State, actions: seq<Action>, id: JobId, c: nat)
    requires Reachable(cfg, s)
    requires id in s.lanes && c in s.lanes[id].cancels && s.lanes[id].cancels[c].Granted()
    ensures var after := Run(cfg, s, actions);
      && id in after.lanes
      && after.lanes[id].entry.None? && after.lanes[id].worker.None?
      && after.lanes[id].attempts == s.lanes[id].attempts
  {
    ReachableIsGood(cfg, s);
    assert GrantIsFinal(s.lanes[id]) by {
      assert Good(cfg, s.lanes[id], s.clock);
    }
    WithdrawnStays(cfg, s, actions, id);
  }

  // ---------- The start of a job ----------

  lemma StartKept(cfg: Config, lane: Lane, now: Time, op: Op)
    requires FieldsFit(lane) && lane.row.startedAt.Some?
    ensures LaneStep(cfg, lane, now, op).row.startedAt == lane.row.startedAt
  {
    hide Outcome;
  }

  // The start of a job is written once, whatever fails: markProcessing reads it and writes it in
  // two calls, and yet no run ever changes it.
  lemma {:induction false} StartedAtWrittenOnce(cfg: Config, s: State, actions: seq<Action>, id: JobId)
    requires Reachable(cfg, s)
    requires id in s.lanes && s.lanes[id].row.startedAt.Some?
    ensures var after := Run(cfg, s, actions);
      id in after.lanes && after.lanes[id].row.startedAt == s.lanes[id].row.startedAt
    decreases |actions|
  {
    hide LaneStep;
    hide LaneOrderly;
    hide Paced;
    hide Punctual;
    hide AttemptsRecorded;
    if actions != [] {
      var a := actions[0];
      ReachableIsGood(cfg, s);
      assert Good(cfg, s.lanes[id], s.clock);
      StepReaches(cfg, s, a);
      if a.At? && a.id == id {
        StartKept(cfg, s.lanes[id], s.clock, a.op);
      }
      StartedAtWrittenOnce(cfg, Step(cfg, s, a), actions[1..], id);
    }
  }

  // The start of a job is the start of its first attempt.
  ghost predicate StartIsFirstAttempt(cfg: Config) {
    forall s: State, id: JobId :: Reachable(cfg, s) && id in s.lanes && s.lanes[id].row.startedAt.Some? ==>
      1 in s.lanes[id].attempts && s.lanes[id].row.startedAt == Some(s.lanes[id].attempts[1].startedAt)
  }

  lemma NoFaultsMakeStartExact(cfg: Config)
    requires !cfg.faults
    ensures StartIsFirstAttempt(cfg)
  {
    forall s: State, id: JobId | Reachable(cfg, s) && id in s.lanes && s.lanes[id].row.startedAt.Some?
      ensures 1 in s.lanes[id].attempts && s.lanes[id].row.startedAt == Some(s.lanes[id].attempts[1].startedAt)
    {
      LaneIsSound(cfg, s, id);
    }
  }

  // ---------- What was asked for ----------

  // A job is stored exactly for a fresh id, at least one attempt, a clock reading that is not ahead,
  // and at most one schedule that is not in the past and whose delay fits; and then its row is what
  // the request asked for, field by field.
  lemma CreatedRowIsTheRequest(cfg: Config, s: State, a: Action)
    requires a.Create? && a.id !in s.lanes
    ensures var input := a.request.schedule;
      var delay := if input.runAt.Some? then input.runAt.value - a.resolvedAt
                   else if input.delayMs.Some? then input.delayMs.value else 0;
      a.id in Step(cfg, s, a).lanes <==>
        && a.maxAttempts >= 1 && a.resolvedAt <= s.clock
        && !(input.delayMs.Some? && input.runAt.Some?)
        && (if input.runAt.Some? then delay > 0 else delay >= 0)
        && delay <= 2147483647
    ensures a.id in Step(cfg, s, a).lanes ==>
      var row := Step(cfg, s, a).lanes[a.id].row; var input := a.request.schedule;
      && row.jobType == a.request.jobType && row.priority == a.request.priority
      && row.payload == a.request.payload
      && row.runAt == input.runAt
      && row.delayMs == (
           if input.runAt.Some? then Some(input.runAt.value - a.resolvedAt)
           else if input.delayMs.Some? && input.delayMs.value > 0 then input.delayMs else None)
      && row.maxAttempts == a.maxAttempts && row.createdAt == s.clock
      && row.status.Queued? && row.retryCount == 0
      && row.startedAt.None? && row.completedAt.None? && row.failedAt.None? && row.cancelledAt.None?
      && row.lastError.None? && row.processingTimeMs.None?
  {
  }

  // The fields of a row that hold what was asked for.
  predicate SameRequest(row: Job, after: Job) {
    && after.jobType == row.jobType && after.priority == row.priority && after.payload == row.payload
    && after.maxAttempts == row.maxAttempts && after.delayMs == row.delayMs && after.runAt == row.runAt
    && after.createdAt == row.createdAt
  }

  lemma RequestKept(cfg: Config, lane: Lane, now: Time, op: Op)
    ensures SameRequest(lane.row, LaneStep(cfg, lane, now, op).row)
  {
    hide Outcome;
  }

  // What was asked for never changes, in any run of any configuration.
  lemma {:induction false} RequestNeverChanges(cfg: Config, s: State, actions: seq<Action>, id: JobId)
    requires id in s.lanes
    ensures id in Run(cfg, s, actions).lanes
    ensures var row, after := s.lanes[id].row, Run(cfg, s, actions).lanes[id].row;
      && after.jobType == row.jobType && after.priority == row.priority && after.payload == row.payload
      && after.maxAttempts == row.maxAttempts && after.delayMs == row.delayMs && after.runAt == row.runAt
      && after.createdAt == row.createdAt
    decreases |actions|
  {
    hide LaneStep;
    if actions != [] {
      var a := actions[0];
      if a.At? && a.id == id {
        RequestKept(cfg, s.lanes[id], s.clock, a.op);
      }
      RequestNeverChanges(cfg, Step(cfg, s, a), actions[1..], id);
    }
  }

  // ---------- Fields and schedules ----------

  // In every reachable state, whatever fails, the fields of every row fit its status.
  lemma FieldsAlwaysFit(cfg: Config, s: State, id: JobId)
    requires Reachable(cfg, s) && id in s.lanes
    ensures FieldsFitStatus(s.lanes[id].row)
  {
    ReachableIsGood(cfg, s);
    assert Good(cfg, s.lanes[id], s.clock);
  }

  // No attempt starts before the requested time, nor before the requested delay has passed
  // since the job was stored, in any run of any configuration.
  lemma NoEarlyStart(cfg: Config, s: State, id: JobId, n: nat)
    requires Reachable(cfg, s)
    requires id in s.lanes && n in s.lanes[id].attempts
    ensures var row := s.lanes[id].row; var startedAt := s.lanes[id].attempts[n].startedAt;
      && (row.runAt.Some? ==> startedAt >= row.runAt.value)
      && (row.delayMs.Some? ==> startedAt >= row.createdAt + row.delayMs.value)
      && (row.startedAt.Some? && row.runAt.Some? ==> row.startedAt.value >= row.runAt.value)
  {
    ReachableIsGood(cfg, s);
    assert Good(cfg, s.lanes[id], s.clock);
  }
}
