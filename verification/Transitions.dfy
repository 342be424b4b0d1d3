// The transitions that the design calls invalid, each with the exact condition under which no run
// makes it.
module Transitions {
  import opened Wrappers
  import opened Simulation
  import opened Records
  import opened Lifecycle
  import opened Faults
  import opened Faultless
  import opened Reach
  import opened FaultyRuns
  import opened Progress
  import opened Scenarios
  import opened Limits

  // No step of any run moves a row from one status to the other.
  ghost predicate Never(cfg: Config, from: JobStatus, to: JobStatus) {
    forall s: State, a: Action, id: JobId :: Reachable(cfg, s) && id in s.lanes && s.lanes[id].row.status == from ==>
      Step(cfg, s, a).lanes[id].row.status != to
  }

  // ---------- Runs ----------

  lemma Moves(cfg: Config, s: State, op: Op, from: JobStatus, to: JobStatus)
    requires Reachable(cfg, s) && JOB in s.lanes && s.lanes[JOB].row.status == from
    requires LaneStep(cfg, s.lanes[JOB], s.clock, op).row.status == to
    ensures !Never(cfg, from, to)
  {
    hide LaneStep;
    assert Step(cfg, s, At(JOB, op)).lanes[JOB].row.status == to;
  }

  // A cancellation that has seen the entry overwrites whatever the row has become meanwhile.
  lemma CancelOverwrites(cfg: Config, s: State, from: JobStatus)
    requires Reachable(cfg, s) && JOB in s.lanes && s.lanes[JOB].row.status == from
    requires CancelAt(s.lanes[JOB], 0, ToRemove) && Removes(cfg, s.lanes[JOB])
    ensures !Never(cfg, from, JobStatus.Cancelled)
  {
    var t := RemoveEntry(cfg, s, 0);
    Moves(cfg, t, CancelMark(0), from, JobStatus.Cancelled);
  }

  // A fresh job whose entry has been seen by a cancellation.
  lemma Asked(cfg: Config, payload: Json, maxAttempts: nat) returns (s: State)
    requires maxAttempts >= 1
    ensures Reachable(cfg, s) && JOB in s.lanes && CancelAt(s.lanes[JOB], 0, ToRemove)
    ensures var lane := s.lanes[JOB];
      && lane.worker.None? && lane.entry == Some(Entry(EntryState.Waiting, 0, maxAttempts, 0, payload))
      && lane.row.payload == payload && lane.row.maxAttempts == maxAttempts && lane.attempts == map[]
  {
    s := Enqueued(cfg, payload, maxAttempts);
    s := AskToCancel(cfg, s, 0);
  }

  lemma CancelsProcessing(cfg: Config, state: EntryState)
    requires cfg.faults && state in cfg.removable
    requires state.Waiting? || state.Delayed? || state.Failed?
    ensures !Never(cfg, JobStatus.Processing, JobStatus.Cancelled)
  {
    hide LaneStep;
    hide Outcome;
    var s := Asked(cfg, JNull, 2);
    s := FinishAttemptOnly(cfg, s);
    s := GiveUp(cfg, s, state);
    CancelOverwrites(cfg, s, JobStatus.Processing);
  }

  lemma CancelsCompleted(cfg: Config, state: EntryState)
    requires state in cfg.removable && !state.Active?
    requires cfg.faults || state.Completed?
    ensures !Never(cfg, JobStatus.Completed, JobStatus.Cancelled)
  {
    hide LaneStep;
    hide Outcome;
    OutcomeIff(JNull, 1);
    var s := Asked(cfg, JNull, 2);
    s := DeliverOnce(cfg, s);
    if state.Completed? {
      s := Answer(cfg, s);
    } else {
      s := GiveUp(cfg, s, state);
    }
    CancelOverwrites(cfg, s, JobStatus.Completed);
  }

  lemma CancelsFailed(cfg: Config)
    requires EntryState.Failed in cfg.removable || (cfg.faults && EntryState.Waiting in cfg.removable)
    ensures !Never(cfg, JobStatus.Failed, JobStatus.Cancelled)
  {
    hide LaneStep;
    hide Outcome;
    OutcomeIff(ALWAYS_FAILS, 1);
    var s := Asked(cfg, ALWAYS_FAILS, 1);
    s := DeliverOnce(cfg, s);
    if EntryState.Failed in cfg.removable {
      s := Answer(cfg, s);
    } else {
      s := DieAndRequeue(cfg, s);
    }
    CancelOverwrites(cfg, s, JobStatus.Failed);
  }

  // A lost add leaves an entry beside the row that is about to be FAILED.
  lemma CancelsLost(cfg: Config, state: EntryState)
    requires cfg.lossyAdd && state in cfg.removable
    requires state.Waiting? || state.Delayed? || state.Completed?
    ensures !Never(cfg, JobStatus.Failed, JobStatus.Cancelled)
  {
    hide LaneStep;
    hide Outcome;
    OutcomeIff(JNull, 1);
    var s := LostWithEntry(cfg, if state.Delayed? then Some(1) else None);
    s := AskToCancel(cfg, s, 0);
    if state.Completed? {
      s := DeliverOnce(cfg, s);
      s := Answer(cfg, s);
    }
    s := MarkLost(cfg, s);
    CancelOverwrites(cfg, s, JobStatus.Failed);
  }

  lemma LostWithEntry(cfg: Config, delayMs: Option<int>) returns (s: State)
    requires cfg.lossyAdd && (delayMs.Some? ==> 0 < delayMs.value <= INT4_MAX)
    ensures Reachable(cfg, s) && JOB in s.lanes
    ensures var lane := s.lanes[JOB];
      && lane.creator.ToMarkEnqueueFailed? && lane.row.status.Queued? && lane.row.payload == JNull
      && lane.attempts == map[] && lane.cancels == map[] && lane.worker.None?
      && lane.entry.Some? && lane.entry.value.attemptsMade == 0
      && lane.entry.value.state == (if delayMs.Some? then EntryState.Delayed else EntryState.Waiting)
  {
    CreatedReachable(cfg, JNull, 1, delayMs);
    s := Do(cfg, Created(JNull, 1, delayMs), EnqueueLost);
  }

  lemma MarkLost(cfg: Config, s: State) returns (t: State)
    requires Reachable(cfg, s) && JOB in s.lanes && s.lanes[JOB].creator.ToMarkEnqueueFailed?
    ensures Reachable(cfg, t) && JOB in t.lanes && t.lanes[JOB].row.status.Failed?
    ensures t.lanes[JOB] == s.lanes[JOB].(row := t.lanes[JOB].row, creator := Rejected)
  {
    t := Do(cfg, s, MarkEnqueueFailed);
  }

  // ---------- What a cancellation can find ----------

  // A row becomes CANCELLED by the mark of a granted cancellation only, when the job has no entry.
  lemma CancelledByMark(cfg: Config, s: State, a: Action, id: JobId)
    requires Reachable(cfg, s) && id in s.lanes && !s.lanes[id].row.status.Cancelled?
    requires Step(cfg, s, a).lanes[id].row.status.Cancelled?
    ensures a.At? && a.id == id && a.op.CancelMark? && CancelAt(s.lanes[id], a.op.call, ToMark)
    ensures Withdrawn(s.lanes[id]) && cfg.removable != {} && Retained(cfg, s.lanes[id])
    ensures !cfg.lossyAdd ==> FailedIsFinal(s.lanes[id])
  {
    hide Outcome;
    var lane := s.lanes[id];
    MarkedByCancel(cfg, lane, s.clock, a.op);
    hide LaneStep;
    hide Structural;
    hide FailedIsFinal;
    hide Retained;
    ReachableIsGood(cfg, s);
    assert Good(cfg, lane, s.clock);
  }

  lemma MarkedByCancel(cfg: Config, lane: Lane, now: Time, op: Op)
    requires !lane.row.status.Cancelled? && LaneStep(cfg, lane, now, op).row.status.Cancelled?
    ensures op.CancelMark? && CancelAt(lane, op.call, ToMark) && lane.cancels[op.call].Granted()
  {
    hide Outcome;
  }

  // ---------- The table ----------

  // PROCESSING to CANCELLED: with any adds, exactly when nothing fails, or the queue removes
  // completed entries at most.
  lemma ProcessingNeverCancelledIff(cfg: Config)
    requires cfg.Valid()
    ensures Never(cfg, JobStatus.Processing, JobStatus.Cancelled) <==>
      !cfg.faults || cfg.removable <= {EntryState.Completed}
  {
    if !cfg.faults || cfg.removable <= {EntryState.Completed} {
      forall s: State, a: Action, id: JobId | Reachable(cfg, s) && id in s.lanes && s.lanes[id].row.status.Processing?
        ensures !Step(cfg, s, a).lanes[id].row.status.Cancelled?
      {
        if Step(cfg, s, a).lanes[id].row.status.Cancelled? {
          CancelledByMark(cfg, s, a, id);
          if !cfg.faults {
            LaneIsSound(cfg, s, id);
          }
        }
      }
    } else {
      var state :| state in cfg.removable && !state.Completed?;
      CancelsProcessing(cfg, state);
    }
  }

  // COMPLETED to CANCELLED: with any adds, exactly when the queue removes nothing, or nothing
  // fails and it does not remove completed entries.
  lemma CompletedNeverCancelledIff(cfg: Config)
    requires cfg.Valid()
    ensures Never(cfg, JobStatus.Completed, JobStatus.Cancelled) <==>
      cfg.removable == {} || (!cfg.faults && EntryState.Completed !in cfg.removable)
  {
    if cfg.removable == {} || (!cfg.faults && EntryState.Completed !in cfg.removable) {
      forall s: State, a: Action, id: JobId | Reachable(cfg, s) && id in s.lanes && s.lanes[id].row.status.Completed?
        ensures !Step(cfg, s, a).lanes[id].row.status.Cancelled?
      {
        if Step(cfg, s, a).lanes[id].row.status.Cancelled? {
          CancelledByMark(cfg, s, a, id);
        }
      }
    } else if EntryState.Completed in cfg.removable {
      CancelsCompleted(cfg, EntryState.Completed);
    } else {
      var state :| state in cfg.removable;
      CancelsCompleted(cfg, state);
    }
  }

  // FAILED to CANCELLED: exactly when the queue removes nothing, or adds are atomic, it does not
  // remove failed entries, and nothing fails or it does not remove waiting entries either.
  lemma FailedNeverCancelledIff(cfg: Config)
    requires cfg.Valid()
    ensures Never(cfg, JobStatus.Failed, JobStatus.Cancelled) <==> cfg.removable == {} || RetainsFailed(cfg)
  {
    if cfg.removable == {} || RetainsFailed(cfg) {
      forall s: State, a: Action, id: JobId | Reachable(cfg, s) && id in s.lanes && s.lanes[id].row.status.Failed?
        ensures !Step(cfg, s, a).lanes[id].row.status.Cancelled?
      {
        if Step(cfg, s, a).lanes[id].row.status.Cancelled? {
          CancelledByMark(cfg, s, a, id);
        }
      }
    } else if EntryState.Failed in cfg.removable || (cfg.faults && EntryState.Waiting in cfg.removable) {
      CancelsFailed(cfg);
    } else {
      var state :| state in cfg.removable;
      CancelsLost(cfg, state);
    }
  }

  // No step of any run moves a COMPLETED, FAILED or CANCELLED row to QUEUED or PROCESSING.
  ghost predicate NoResurrection(cfg: Config) {
    forall s: State, a: Action, id: JobId :: Reachable(cfg, s) && id in s.lanes && s.lanes[id].row.Terminal() ==>
      Step(cfg, s, a).lanes[id].row.Terminal()
  }

  lemma Resurrects(cfg: Config, s: State, op: Op)
    requires Reachable(cfg, s) && JOB in s.lanes && s.lanes[JOB].row.Terminal()
    requires !LaneStep(cfg, s.lanes[JOB], s.clock, op).row.Terminal()
    ensures !NoResurrection(cfg)
  {
    hide LaneStep;
    assert !Step(cfg, s, At(JOB, op)).lanes[JOB].row.Terminal();
  }

  lemma CancelledRowStays(cfg: Config, lane: Lane, now: Time, op: Op)
    requires Withdrawn(lane) && lane.row.Terminal()
    ensures LaneStep(cfg, lane, now, op).row.Terminal()
  {
  }

  lemma TerminalRowStays(cfg: Config, lane: Lane, now: Time, op: Op)
    requires !cfg.faults && !cfg.lossyAdd
    requires Structural(lane) && CompletedIsStamped(lane) && CompletedIsOver(lane)
    requires FailedIsFinal(lane) && GrantIsFinal(lane) && lane.row.Terminal()
    ensures LaneStep(cfg, lane, now, op).row.Terminal()
  {
    if lane.row.status.Cancelled? || Withdrawn(lane) {
      CancelledRowStays(cfg, lane, now, op);
    } else if lane.row.status.Completed? {
      CompletedRowKept(cfg, lane, now, op);
      hide LaneStep;
      if LaneStep(cfg, lane, now, op).row.status.Processing? {
        ReopenedLane(cfg, lane, now, op);
      }
    } else if !op.CancelMark? {
      FailedRowKept(cfg, lane, now, op);
    }
  }

  // Terminal to non-terminal: with any removals, exactly when nothing fails and adds are atomic.
  lemma NoResurrectionIff(cfg: Config)
    ensures NoResurrection(cfg) <==> !cfg.faults && !cfg.lossyAdd
  {
    hide LaneStep;
    if cfg.faults {
      var s := CrashReopens(cfg, JNull, 2);
      Resurrects(cfg, s, Advance);
    } else if cfg.lossyAdd {
      var s := LostWithEntry(cfg, None);
      s := MarkLost(cfg, s);
      s := DeliveryReopens(cfg, s);
      Resurrects(cfg, s, Advance);
    } else {
      forall s: State, a: Action, id: JobId | Reachable(cfg, s) && id in s.lanes && s.lanes[id].row.Terminal()
        ensures Step(cfg, s, a).lanes[id].row.Terminal()
      {
        ReachableIsGood(cfg, s);
        assert Good(cfg, s.lanes[id], s.clock);
        if a.At? && a.id == id {
          TerminalRowStays(cfg, s.lanes[id], s.clock, a.op);
        }
      }
    }
  }
}
