// Building runs of one job, step by step.
module Scenarios {
  import opened Wrappers
  import opened Simulation
  import opened Records
  import opened Schedule
  import opened Lifecycle
  import opened Orderly
  import opened Timing
  import opened Reach
  import opened Progress
  import opened Delivery
  import opened Services

  const JOB: JobId := "job"

  const ALWAYS_FAILS: Json := JObject(map["shouldFail" := JBool(true)])

  // ---------- Single steps and deliveries ----------

  // The state right after the row of a new job was inserted into an empty platform.
  function Created(payload: Json, maxAttempts: nat, delayMs: Option<int>): State {
    var row := Job(Email, Normal, payload, JobStatus.Queued, 0, maxAttempts, delayMs, None, 0,
                   None, None, None, None, None, None);
    State(0, map[JOB := Lane(row, map[], None, ToEnqueue, map[], None)])
  }

  lemma CreatedReachable(cfg: Config, payload: Json, maxAttempts: nat, delayMs: Option<int>)
    requires maxAttempts >= 1
    requires delayMs.Some? ==> 0 < delayMs.value <= INT4_MAX
    ensures Reachable(cfg, Created(payload, maxAttempts, delayMs))
  {
    var a := Create(JOB, JobRequest(Email, Normal, payload, ScheduleRequest(delayMs, None)), maxAttempts, 0);
    assert Run(cfg, Start(0), []) == Start(0);
    StepReaches(cfg, Start(0), a);
    assert Step(cfg, Start(0), a).lanes == Created(payload, maxAttempts, delayMs).lanes;
  }

  // One step of the job; the rest of the state does not change.
  lemma Do(cfg: Config, s: State, op: Op) returns (t: State)
    requires Reachable(cfg, s) && JOB in s.lanes
    ensures Reachable(cfg, t) && JOB in t.lanes && t.clock == s.clock
    ensures t.lanes[JOB] == LaneStep(cfg, s.lanes[JOB], s.clock, op)
  {
    hide LaneStep;
    t := Step(cfg, s, At(JOB, op));
    StepReaches(cfg, s, At(JOB, op));
  }

  lemma WaitFor(cfg: Config, s: State, ms: nat) returns (t: State)
    requires Reachable(cfg, s) && JOB in s.lanes
    ensures Reachable(cfg, t) && JOB in t.lanes && t.clock == s.clock + ms
    ensures t.lanes[JOB] == s.lanes[JOB]
  {
    t := Step(cfg, s, Tick(ms));
    StepReaches(cfg, s, Tick(ms));
  }

  // Everything of a lane but its row, its attempts and its worker.
  ghost predicate SameOutside(lane: Lane, after: Lane) {
    after.entry == lane.entry && after.creator == lane.creator && after.cancels == lane.cancels
  }

  // Lets the worker alone proceed until `stop` steps are left, or its delivery was refused.
  lemma {:induction false} Proceed(cfg: Config, s: State, row: Job, attempts: Attempts, n: nat, began: Time, stop: nat)
    returns (t: State)
    requires Reachable(cfg, s) && JOB in s.lanes && began <= s.clock
    requires Underway(s.lanes[JOB], row, attempts, n, began, s.clock)
    requires 1 <= stop <= PcRank(s.lanes[JOB].worker.value.pc)
    ensures Reachable(cfg, t) && JOB in t.lanes && t.clock >= s.clock
    ensures Underway(t.lanes[JOB], row, attempts, n, began, t.clock)
    ensures SameOutside(s.lanes[JOB], t.lanes[JOB])
    ensures PcRank(t.lanes[JOB].worker.value.pc) == stop
      || (t.lanes[JOB].worker.value.pc.Settled? && n in attempts && attempts[n].Terminal())
    decreases PcRank(s.lanes[JOB].worker.value.pc)
  {
    if PcRank(s.lanes[JOB].worker.value.pc) == stop {
      t := s;
    } else {
      var later := WaitFor(cfg, s, cfg.processingDelayMs);
      TimeCarriesOn(s.lanes[JOB], row, attempts, n, began, s.clock, later.clock);
      var next := Do(cfg, later, Advance);
      AdvanceCarriesOn(cfg, later.lanes[JOB], row, attempts, n, began, later.clock);
      AdvanceLowersPc(cfg, later.lanes[JOB], row, attempts, n, began, later.clock);
      hide Underway;
      hide AdvanceWorker;
      if PcRank(next.lanes[JOB].worker.value.pc) < stop {
        t := next;
      } else {
        t := Proceed(cfg, next, row, attempts, n, began, stop);
      }
    }
  }

  lemma AdvanceLowersPc(cfg: Config, lane: Lane, row: Job, attempts: Attempts, n: nat, began: Time, now: Time)
    requires Underway(lane, row, attempts, n, began, now) && !lane.worker.value.pc.Settled?
    requires lane.worker.value.pc.Working? ==> now >= lane.worker.value.pc.since + cfg.processingDelayMs
    ensures var after := AdvanceWorker(cfg, lane, now);
      && SameOutside(lane, after)
      && after.worker.Some?
      && var rank := PcRank(after.worker.value.pc);
        || rank == PcRank(lane.worker.value.pc) - 1
        || (rank == 1 < PcRank(lane.worker.value.pc) && after.worker.value.pc.Settled?
            && n in attempts && attempts[n].Terminal())
  {
    hide Outcome;
  }

  // Picks the waiting entry and lets the worker proceed alone until `stop` steps are left.
  lemma PickAndProceed(cfg: Config, s: State, stop: nat) returns (t: State, began: Time)
    requires Reachable(cfg, s) && JOB in s.lanes && 1 <= stop <= 9
    requires s.lanes[JOB].entry.Some? && s.lanes[JOB].entry.value.state.Waiting? && s.lanes[JOB].worker.None?
    ensures Reachable(cfg, t) && JOB in t.lanes && t.clock >= s.clock == began
    ensures var lane := s.lanes[JOB]; var e := lane.entry.value; var n := e.attemptsMade + 1;
      && SameOutside(lane.(entry := Some(e.(state := EntryState.Active))), t.lanes[JOB])
      && Underway(t.lanes[JOB], lane.row, lane.attempts, n, began, t.clock)
      && (PcRank(t.lanes[JOB].worker.value.pc) == stop
          || (t.lanes[JOB].worker.value.pc.Settled? && n in lane.attempts && lane.attempts[n].Terminal()))
  {
    var lane := s.lanes[JOB];
    LaneIsStructural(cfg, s, JOB);
    var picked := Do(cfg, s, Pick);
    began := s.clock;
    t := Proceed(cfg, picked, lane.row, lane.attempts, lane.entry.value.attemptsMade + 1, began, stop);
  }

  // What a whole delivery leaves.
  lemma DeliverOnce(cfg: Config, s: State) returns (t: State)
    requires Reachable(cfg, s) && JOB in s.lanes
    requires s.lanes[JOB].entry.Some? && s.lanes[JOB].entry.value.state.Waiting? && s.lanes[JOB].worker.None?
    ensures Reachable(cfg, t) && JOB in t.lanes
    ensures var lane, after := s.lanes[JOB], t.lanes[JOB]; var e := lane.entry.value; var n := e.attemptsMade + 1;
      var failed := Outcome(lane.row.payload, n).Some?;
      var refused := n in lane.attempts && lane.attempts[n].Terminal();
      && SameOutside(lane.(entry := Some(e.(state := EntryState.Active))), after)
      && after.worker.Some? && after.worker.value.pc == Settled(refused || failed)
      && n in after.attempts && after.attempts[n].Terminal()
      && after.attempts == lane.attempts[n := after.attempts[n]]
      && (refused ==> after.row == lane.row)
      && (!refused ==>
            && after.row.status == (if !failed then JobStatus.Completed
                                    else if n >= lane.row.maxAttempts then JobStatus.Failed else JobStatus.Queued)
            && after.row.retryCount == (if failed then n else n - 1)
            && after.row.maxAttempts == lane.row.maxAttempts && after.row.payload == lane.row.payload)
  {
    hide Outcome;
    var began;
    t, began := PickAndProceed(cfg, s, 1);
    var lane, after := s.lanes[JOB], t.lanes[JOB];
    assert after.worker.value.pc.Settled?;
    var n := lane.entry.value.attemptsMade + 1;
    var startedAt, completedAt :|
      DoneBetween(after.row, after.attempts, lane.row, lane.attempts, n, startedAt, completedAt,
                  after.worker.value.pc.rejected, began, t.clock);
    DeliverShape(lane.row, Lookup(lane.attempts, n), n, startedAt, completedAt);
  }

  lemma DeliverShape(row: Job, existing: Option<JobAttempt>, n: nat, startedAt: Time, completedAt: Time)
    requires n >= 1
    ensures var d := Deliver(row, existing, n, row.maxAttempts, row.payload, startedAt, completedAt);
      var failed := Outcome(row.payload, n).Some?;
      var refused := existing.Some? && existing.value.Terminal();
      && d.rejected == (refused || failed)
      && d.attempt.Terminal()
      && (refused ==> d.row == row)
      && (!refused ==>
            && d.row.status == (if !failed then JobStatus.Completed
                                else if n >= row.maxAttempts then JobStatus.Failed else JobStatus.Queued)
            && d.row.retryCount == (if failed then n else n - 1)
            && d.row.maxAttempts == row.maxAttempts && d.row.payload == row.payload)
  {
    hide Outcome;
  }

  // A job that has been created and enqueued, without a delay.
  lemma Enqueued(cfg: Config, payload: Json, maxAttempts: nat) returns (s: State)
    requires maxAttempts >= 1
    ensures Reachable(cfg, s) && JOB in s.lanes && s.clock == 0
    ensures var lane := Created(payload, maxAttempts, None).lanes[JOB];
      s.lanes[JOB] == lane.(entry := Some(Entry(EntryState.Waiting, 0, maxAttempts, 0, payload)), creator := Accepted)
  {
    CreatedReachable(cfg, payload, maxAttempts, None);
    s := Do(cfg, Created(payload, maxAttempts, None), Enqueue);
  }

  // The answer of the worker to the queue.
  lemma Answer(cfg: Config, s: State) returns (t: State)
    requires Reachable(cfg, s) && JOB in s.lanes
    requires var lane := s.lanes[JOB]; lane.entry.Some? && lane.worker.Some? && lane.worker.value.pc.Settled?
    ensures Reachable(cfg, t) && JOB in t.lanes && t.clock == s.clock
    ensures var lane := s.lanes[JOB];
      t.lanes[JOB] == lane.(
        worker := None,
        entry := Some(Acknowledge(lane.entry.value, lane.worker.value.pc.rejected, cfg.backoffDelayMs, s.clock)))
  {
    t := Do(cfg, s, Advance);
  }

  // A cancellation up to the removal of the entry.
  lemma AskToCancel(cfg: Config, s: State, c: nat) returns (t: State)
    requires Reachable(cfg, s) && JOB in s.lanes
    requires var lane := s.lanes[JOB]; lane.row.status.Queued? && lane.entry.Some? && c !in lane.cancels
    ensures Reachable(cfg, t) && JOB in t.lanes && t.clock == s.clock
    ensures t.lanes[JOB] == Move(s.lanes[JOB], c, ToRemove)
  {
    t := Do(cfg, s, CancelRead(c));
    t := Do(cfg, t, CancelLookup(c));
    assert s.lanes[JOB].cancels[c := ToLookup][c := ToRemove] == s.lanes[JOB].cancels[c := ToRemove];
  }

  lemma RemoveEntry(cfg: Config, s: State, c: nat) returns (t: State)
    requires Reachable(cfg, s) && JOB in s.lanes
    requires CancelAt(s.lanes[JOB], c, ToRemove) && Removes(cfg, s.lanes[JOB])
    ensures Reachable(cfg, t) && JOB in t.lanes && t.clock == s.clock
    ensures t.lanes[JOB] == Move(s.lanes[JOB], c, ToMark).(entry := None)
  {
    t := Do(cfg, s, CancelRemove(c));
  }

  lemma MarkCancel(cfg: Config, s: State, c: nat) returns (t: State)
    requires Reachable(cfg, s) && JOB in s.lanes
    requires CancelAt(s.lanes[JOB], c, ToMark)
    ensures Reachable(cfg, t) && JOB in t.lanes && t.clock == s.clock
    ensures t.lanes[JOB] == Move(s.lanes[JOB], c, CancelPc.Succeeded).(row := s.lanes[JOB].row.MarkCancelled(s.clock))
  {
    t := Do(cfg, s, CancelMark(c));
  }

  // A due entry is handed to the workers.
  lemma PromoteWhenDue(cfg: Config, s: State) returns (t: State)
    requires Reachable(cfg, s) && JOB in s.lanes
    requires s.lanes[JOB].entry.Some? && s.lanes[JOB].entry.value.state.Delayed?
    ensures Reachable(cfg, t) && JOB in t.lanes && t.clock == Max(s.clock, s.lanes[JOB].entry.value.due)
    ensures var e := s.lanes[JOB].entry.value;
      t.lanes[JOB] == s.lanes[JOB].(entry := Some(e.(state := EntryState.Waiting)))
  {
    var e := s.lanes[JOB].entry.value;
    t := WaitFor(cfg, s, if e.due > s.clock then e.due - s.clock else 0);
    t := Do(cfg, t, Promote);
  }

  // ---------- Faults ----------

  lemma DieAndRequeue(cfg: Config, s: State) returns (t: State)
    requires cfg.faults && Reachable(cfg, s) && JOB in s.lanes
    requires var lane := s.lanes[JOB]; lane.worker.Some? && lane.entry.Some? && lane.entry.value.state.Active?
    ensures Reachable(cfg, t) && JOB in t.lanes && t.clock == s.clock
    ensures var lane := s.lanes[JOB];
      t.lanes[JOB] == lane.(worker := None, entry := Some(lane.entry.value.(state := EntryState.Waiting)))
  {
    t := Do(cfg, s, WorkerDies);
    t := Do(cfg, t, StallRequeue);
  }

  lemma DieAndFail(cfg: Config, s: State) returns (t: State)
    requires cfg.faults && Reachable(cfg, s) && JOB in s.lanes
    requires var lane := s.lanes[JOB]; lane.worker.Some? && lane.entry.Some? && lane.entry.value.state.Active?
    ensures Reachable(cfg, t) && JOB in t.lanes
    ensures var lane := s.lanes[JOB];
      t.lanes[JOB] == lane.(worker := None, entry := Some(lane.entry.value.(state := EntryState.Failed)))
  {
    t := Do(cfg, s, WorkerDies);
    t := Do(cfg, t, StallFail);
  }

  lemma Reject(cfg: Config, s: State) returns (t: State)
    requires cfg.faults && Reachable(cfg, s) && JOB in s.lanes && s.lanes[JOB].worker.Some?
    ensures Reachable(cfg, t) && JOB in t.lanes && t.lanes[JOB] == GoTo(s.lanes[JOB], Settled(true))
  {
    t := Do(cfg, s, WorkerRejects);
  }

  // A worker that fails in the midst of its delivery gives the entry back in one of three states.
  lemma GiveUp(cfg: Config, s: State, state: EntryState) returns (t: State)
    requires cfg.faults && Reachable(cfg, s) && JOB in s.lanes
    requires state.Waiting? || state.Delayed? || state.Failed?
    requires var lane := s.lanes[JOB];
      && lane.worker.Some? && lane.entry.Some? && lane.entry.value.state.Active?
      && lane.entry.value.attemptsMade + 1 < lane.entry.value.attempts
    ensures Reachable(cfg, t) && JOB in t.lanes
    ensures var lane, after := s.lanes[JOB], t.lanes[JOB];
      && after.row == lane.row && after.attempts == lane.attempts && after.cancels == lane.cancels
      && after.worker.None? && after.entry.Some? && after.entry.value.state == state
  {
    hide LaneStep;
    if state.Waiting? {
      t := DieAndRequeue(cfg, s);
    } else if state.Delayed? {
      t := Reject(cfg, s);
      t := Answer(cfg, t);
    } else {
      t := DieAndFail(cfg, s);
    }
  }

  // A delivery of an attempt that is not finished leads to a markProcessing, whatever the row says.
  lemma DeliveryReopens(cfg: Config, s: State) returns (t: State)
    requires Reachable(cfg, s) && JOB in s.lanes
    requires var lane := s.lanes[JOB];
      && lane.worker.None? && lane.entry.Some? && lane.entry.value.state.Waiting?
      && (lane.entry.value.attemptsMade + 1 in lane.attempts ==>
            !lane.attempts[lane.entry.value.attemptsMade + 1].Terminal())
    ensures Reachable(cfg, t) && JOB in t.lanes && t.lanes[JOB].row == s.lanes[JOB].row
    ensures LaneStep(cfg, t.lanes[JOB], t.clock, Advance).row.status.Processing?
  {
    hide Outcome;
    var began;
    t, began := PickAndProceed(cfg, s, 5);
    assert t.lanes[JOB].worker.value.pc.ToUpdateJob?;
  }

  // A worker that dies after it stored the result of its attempt, before it stored that of the job:
  // the next delivery is refused, so the row stays PROCESSING while the queue counts the attempt.
  lemma CrashAfterAttempt(cfg: Config, s: State) returns (t: State)
    requires cfg.faults && Reachable(cfg, s) && JOB in s.lanes
    requires var lane := s.lanes[JOB];
      && lane.worker.None? && lane.entry.Some? && lane.entry.value.state.Waiting?
      && lane.entry.value.attemptsMade + 1 !in lane.attempts
    ensures Reachable(cfg, t) && JOB in t.lanes
    ensures var lane, after := s.lanes[JOB], t.lanes[JOB]; var e := lane.entry.value; var n := e.attemptsMade + 1;
      && after.row.status.Processing?
      && after.row.payload == lane.row.payload && after.row.maxAttempts == lane.row.maxAttempts
      && n in after.attempts && after.attempts[n].Terminal()
      && after.attempts == lane.attempts[n := after.attempts[n]]
      && after.worker.None? && after.creator == lane.creator && after.cancels == lane.cancels
      && after.entry == Some(Acknowledge(e.(state := EntryState.Active), true, cfg.backoffDelayMs, t.clock))
  {
    hide Outcome;
    hide LaneStep;
    var n := s.lanes[JOB].entry.value.attemptsMade + 1;
    t := FinishAttemptOnly(cfg, s);
    t := DieAndRequeue(cfg, t);
    t := DeliverOnce(cfg, t);
    t := Answer(cfg, t);
  }

  lemma FinishAttemptOnly(cfg: Config, s: State) returns (t: State)
    requires Reachable(cfg, s) && JOB in s.lanes
    requires var lane := s.lanes[JOB];
      && lane.worker.None? && lane.entry.Some? && lane.entry.value.state.Waiting?
      && lane.entry.value.attemptsMade + 1 !in lane.attempts
    ensures Reachable(cfg, t) && JOB in t.lanes
    ensures var lane, after := s.lanes[JOB], t.lanes[JOB]; var e := lane.entry.value; var n := e.attemptsMade + 1;
      && SameOutside(lane.(entry := Some(e.(state := EntryState.Active))), after)
      && after.worker.Some?
      && after.row.status.Processing?
      && after.row.payload == lane.row.payload && after.row.maxAttempts == lane.row.maxAttempts
      && n in after.attempts && after.attempts[n].Terminal()
      && after.attempts == lane.attempts[n := after.attempts[n]]
  {
    hide Outcome;
    var began;
    t, began := PickAndProceed(cfg, s, 2);
    assert t.lanes[JOB].worker.value.pc.ToFinishJob?;
  }

  // ---------- Several attempts ----------

  // A job of which the first k attempts have failed, waiting for the next one.
  lemma {:induction false} AfterFailures(cfg: Config, payload: Json, maxAttempts: nat, k: nat) returns (s: State)
    requires k < maxAttempts
    requires forall i :: 1 <= i <= k ==> Outcome(payload, i).Some?
    ensures Reachable(cfg, s) && JOB in s.lanes
    ensures var lane := s.lanes[JOB];
      && lane.worker.None? && lane.entry.Some? && lane.entry.value.state.Waiting?
      && lane.entry.value.attemptsMade == k && lane.entry.value.attempts == maxAttempts
      && lane.row.payload == payload && lane.row.maxAttempts == maxAttempts
      && (forall i :: i in lane.attempts ==> i <= k)
  {
    hide Outcome;
    hide LaneStep;
    if k == 0 {
      s := Enqueued(cfg, payload, maxAttempts);
    } else {
      s := AfterFailures(cfg, payload, maxAttempts, k - 1);
      s := DeliverOnce(cfg, s);
      s := Answer(cfg, s);
      s := PromoteWhenDue(cfg, s);
    }
  }

  // A job whose first k attempts were all cut short after their results were stored.
  lemma {:induction false} AfterCrashes(cfg: Config, payload: Json, maxAttempts: nat, k: nat) returns (s: State)
    requires cfg.faults && k < maxAttempts
    ensures Reachable(cfg, s) && JOB in s.lanes
    ensures var lane := s.lanes[JOB];
      && lane.worker.None? && lane.entry.Some? && lane.entry.value.state.Waiting?
      && lane.entry.value.attemptsMade == k && lane.entry.value.attempts == maxAttempts
      && lane.row.payload == payload && lane.row.maxAttempts == maxAttempts
      && lane.creator.Accepted? && lane.cancels == map[]
      && (forall i :: i in lane.attempts ==> i <= k)
  {
    hide LaneStep;
    if k == 0 {
      s := Enqueued(cfg, payload, maxAttempts);
    } else {
      s := AfterCrashes(cfg, payload, maxAttempts, k - 1);
      s := CrashAfterAttempt(cfg, s);
      s := PromoteWhenDue(cfg, s);
    }
  }

  // ---------- Without any delay ----------

  // A first delivery of an attempt whose worker takes every step at once.
  lemma DeliverAtOnce(cfg: Config, s: State) returns (t: State)
    requires Reachable(cfg, s) && JOB in s.lanes
    requires var lane := s.lanes[JOB];
      && lane.entry.Some? && lane.entry.value.state.Waiting? && lane.worker.None?
      && lane.entry.value.attemptsMade + 1 !in lane.attempts
    ensures Reachable(cfg, t) && JOB in t.lanes && t.clock == s.clock + cfg.processingDelayMs
    ensures var lane, after := s.lanes[JOB], t.lanes[JOB]; var e := lane.entry.value; var n := e.attemptsMade + 1;
      && SameOutside(lane.(entry := Some(e.(state := EntryState.Active))), after)
      && after.worker.Some? && after.worker.value.pc == Settled(Outcome(lane.row.payload, n).Some?)
      && n in after.attempts && after.attempts[n].startedAt == s.clock
      && after.attempts == lane.attempts[n := after.attempts[n]]
      && after.row.maxAttempts == lane.row.maxAttempts && after.row.payload == lane.row.payload
      && after.row.createdAt == lane.row.createdAt && after.row.delayMs == lane.row.delayMs
  {
    hide Outcome;
    hide UpdatedJob;
    hide FinishedWork;
    LaneIsStructural(cfg, s, JOB);
    var picked := Do(cfg, s, Pick);
    hide LaneStep;
    hide AdvanceWorker;
    StartsWork(cfg, picked.lanes[JOB], s.clock);
    t := AdvanceToWork(cfg, picked);
    t := WaitFor(cfg, t, cfg.processingDelayMs);
    EndsWork(cfg, t.lanes[JOB], s.clock, t.clock);
    t := AdvanceToAnswer(cfg, t);
  }

  lemma AdvanceToWork(cfg: Config, s: State) returns (t: State)
    requires Reachable(cfg, s) && JOB in s.lanes
    requires var lane := s.lanes[JOB];
      lane.worker.Some? && lane.worker.value.pc.Picked? && lane.worker.value.attemptNumber !in lane.attempts
    ensures Reachable(cfg, t) && JOB in t.lanes && t.clock == s.clock
    ensures t.lanes[JOB] == UpdatedJob(cfg, s.lanes[JOB], s.clock)
  {
    t := Do(cfg, s, Advance);
    t := Do(cfg, t, Advance);
    t := Do(cfg, t, Advance);
    t := Do(cfg, t, Advance);
    t := Do(cfg, t, Advance);
  }

  lemma AdvanceToAnswer(cfg: Config, s: State) returns (t: State)
    requires Reachable(cfg, s) && JOB in s.lanes
    requires var lane := s.lanes[JOB];
      && lane.worker.Some? && lane.worker.value.pc.Working?
      && lane.worker.value.pc.since + cfg.processingDelayMs <= s.clock
    ensures Reachable(cfg, t) && JOB in t.lanes && t.clock == s.clock
    ensures t.lanes[JOB] == FinishedWork(cfg, s.lanes[JOB], s.clock)
  {
    hide Outcome;
    t := Do(cfg, s, Advance);
    t := Do(cfg, t, Advance);
    t := Do(cfg, t, Advance);
  }

  // A job of which the first k attempts have failed and whose steps were all taken at once.
  lemma {:induction false} AtOnce(cfg: Config, payload: Json, maxAttempts: nat, delayMs: Option<int>, k: nat)
    returns (s: State)
    requires k < maxAttempts
    requires delayMs.Some? ==> 0 < delayMs.value <= INT4_MAX
    requires forall i :: 1 <= i <= k ==> Outcome(payload, i).Some?
    ensures Reachable(cfg, s) && JOB in s.lanes
    ensures s.clock == EnqueueDelay(delayMs) + LeastGap(cfg, k + 1)
    ensures var lane := s.lanes[JOB];
      && lane.worker.None? && lane.entry.Some? && lane.entry.value.state.Waiting?
      && lane.entry.value.attemptsMade == k && lane.entry.value.attempts == maxAttempts
      && lane.row.payload == payload && lane.row.createdAt == 0 && lane.row.delayMs == delayMs
      && (forall i :: i in lane.attempts <==> 1 <= i <= k)
      && (k >= 1 ==> lane.attempts[1].startedAt == EnqueueDelay(delayMs))
  {
    hide Outcome;
    hide LaneStep;
    if k == 0 {
      s := EnqueuedWhenDue(cfg, payload, maxAttempts, delayMs);
    } else {
      s := AtOnce(cfg, payload, maxAttempts, delayMs, k - 1);
      s := DeliverAtOnce(cfg, s);
      s := Answer(cfg, s);
      s := PromoteWhenDue(cfg, s);
      LeastGapStep(cfg, k + 1);
    }
  }

  lemma EnqueuedWhenDue(cfg: Config, payload: Json, maxAttempts: nat, delayMs: Option<int>) returns (s: State)
    requires maxAttempts >= 1
    requires delayMs.Some? ==> 0 < delayMs.value <= INT4_MAX
    ensures Reachable(cfg, s) && JOB in s.lanes && s.clock == EnqueueDelay(delayMs) + LeastGap(cfg, 1)
    ensures var lane := s.lanes[JOB];
      && lane.worker.None? && lane.entry.Some? && lane.entry.value.state.Waiting?
      && lane.entry.value.attemptsMade == 0 && lane.entry.value.attempts == maxAttempts
      && lane.row.payload == payload && lane.row.createdAt == 0 && lane.row.delayMs == delayMs
      && lane.attempts == map[]
  {
    CreatedReachable(cfg, payload, maxAttempts, delayMs);
    s := Do(cfg, Created(payload, maxAttempts, delayMs), Enqueue);
    if delayMs.Some? {
      s := PromoteWhenDue(cfg, s);
    }
  }
}
