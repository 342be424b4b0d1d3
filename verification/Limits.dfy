// Exactly which assumptions on the environment some of the guarantees need: where they fail there
// is a run that breaks the guarantee.
module Limits {
  import opened Wrappers
  import opened Simulation
  import opened Records
  import opened Schedule
  import opened Lifecycle
  import opened Faults
  import opened Faultless
  import opened Orderly
  import opened Timing
  import opened Reach
  import opened FaultyRuns
  import opened CrashFreeRuns
  import opened Progress
  import opened Scenarios

  // ---------- Terminal statuses ----------

  // No step ever changes the status of a COMPLETED, FAILED or CANCELLED row.
  ghost predicate TerminalIsAbsorbing(cfg: Config) {
    forall s: State, a: Action, id: JobId :: Reachable(cfg, s) && id in s.lanes && s.lanes[id].row.Terminal() ==>
      Step(cfg, s, a).lanes[id].row.status == s.lanes[id].row.status
  }

  lemma BreaksAbsorption(cfg: Config, s: State, op: Op)
    requires Reachable(cfg, s) && JOB in s.lanes && s.lanes[JOB].row.Terminal()
    requires LaneStep(cfg, s.lanes[JOB], s.clock, op).row.status != s.lanes[JOB].row.status
    ensures !TerminalIsAbsorbing(cfg)
  {
    hide LaneStep;
    var t := Step(cfg, s, At(JOB, op));
    assert t.lanes[JOB].row.status != s.lanes[JOB].row.status;
  }

  // A cancellation that read QUEUED before the job ran overwrites its final status when the
  // queue still removes its finished entry.
  lemma RemovableResultIsOverwritten(cfg: Config, payload: Json)
    requires cfg.Valid()
    requires (if Outcome(payload, 1).Some? then EntryState.Failed else EntryState.Completed) in cfg.removable
    ensures !TerminalIsAbsorbing(cfg)
  {
    hide Outcome;
    hide LaneStep;
    var s := Enqueued(cfg, payload, 1);
    s := AskToCancel(cfg, s, 0);
    s := DeliverOnce(cfg, s);
    s := Answer(cfg, s);
    s := RemoveEntry(cfg, s, 0);
    MarkOverwrites(cfg, s);
  }

  lemma MarkOverwrites(cfg: Config, s: State)
    requires Reachable(cfg, s) && JOB in s.lanes && CancelAt(s.lanes[JOB], 0, ToMark)
    requires s.lanes[JOB].row.status.Completed? || s.lanes[JOB].row.status.Failed?
    ensures !TerminalIsAbsorbing(cfg)
  {
    BreaksAbsorption(cfg, s, CancelMark(0));
  }

  // A worker that dies after it stored COMPLETED, before the queue heard of it, lets the next
  // attempt move the row back to PROCESSING, if there is one.
  lemma CrashReopens(cfg: Config, payload: Json, maxAttempts: nat) returns (t: State)
    requires cfg.faults
    requires !ShouldFail(payload) && Max(FailUntil(payload), 0) + 1 < maxAttempts
    ensures Reachable(cfg, t) && JOB in t.lanes
    ensures var row := t.lanes[JOB].row;
      row.status.Completed? && row.payload == payload && row.maxAttempts == maxAttempts
    ensures LaneStep(cfg, t.lanes[JOB], t.clock, Advance).row.status.Processing?
  {
    hide Outcome;
    hide LaneStep;
    var k := Max(FailUntil(payload), 0);
    forall i | 1 <= i <= k ensures Outcome(payload, i).Some? {
      OutcomeIff(payload, i);
    }
    OutcomeIff(payload, k + 1);
    var s := AfterFailures(cfg, payload, maxAttempts, k);
    s := DeliverOnce(cfg, s);
    s := DieAndRequeue(cfg, s);
    s := DeliverOnce(cfg, s);
    s := Answer(cfg, s);
    s := PromoteWhenDue(cfg, s);
    t := DeliveryReopens(cfg, s);
  }

  lemma CrashResurrectsCompleted(cfg: Config)
    requires cfg.faults
    ensures !TerminalIsAbsorbing(cfg)
  {
    hide LaneStep;
    var t := CrashReopens(cfg, JNull, 2);
    BreaksAbsorption(cfg, t, Advance);
  }

  // No step moves a COMPLETED row of a job with this payload and limit back to PROCESSING.
  ghost predicate CompletedStays(cfg: Config, payload: Json, maxAttempts: nat) {
    forall s: State, a: Action, id: JobId ::
      (Reachable(cfg, s) && id in s.lanes && s.lanes[id].row.status.Completed?
       && s.lanes[id].row.payload == payload && s.lanes[id].row.maxAttempts == maxAttempts) ==>
        !Step(cfg, s, a).lanes[id].row.status.Processing?
  }

  lemma ReopenedBeforeLastAttempt(cfg: Config, s: State, a: Action, id: JobId)
    requires Reachable(cfg, s) && id in s.lanes && s.lanes[id].row.status.Completed?
    requires Step(cfg, s, a).lanes[id].row.status.Processing?
    ensures cfg.faults
    ensures var row := s.lanes[id].row;
      !ShouldFail(row.payload) && Max(FailUntil(row.payload), 0) + 1 < row.maxAttempts
  {
    hide Outcome;
    hide LaneStep;
    hide Structural;
    hide CompletedIsStamped;
    hide CompletedIsOver;
    var lane := s.lanes[id];
    CompletedRowMatchesAttempt(cfg, s, id);
    OutcomeIff(lane.row.payload, lane.row.retryCount + 1);
    ReachableIsGood(cfg, s);
    assert Structural(lane) && CompletedIsStamped(lane) && (!cfg.faults ==> CompletedIsOver(lane)) by {
      assert Good(cfg, lane, s.clock);
    }
    ReopenedLane(cfg, lane, s.clock, a.op);
  }

  // With any faults and any removals, a COMPLETED job is never reopened exactly when there are no
  // faults, or its payload lets it complete on its last attempt only, or never.
  lemma CompletedStaysIff(cfg: Config, payload: Json, maxAttempts: nat)
    requires maxAttempts >= 1
    ensures CompletedStays(cfg, payload, maxAttempts) <==>
      !cfg.faults || ShouldFail(payload) || Max(FailUntil(payload), 0) + 1 >= maxAttempts
  {
    if !cfg.faults || ShouldFail(payload) || Max(FailUntil(payload), 0) + 1 >= maxAttempts {
      forall s: State, a: Action, id: JobId |
        && Reachable(cfg, s) && id in s.lanes && s.lanes[id].row.status.Completed?
        && s.lanes[id].row.payload == payload && s.lanes[id].row.maxAttempts == maxAttempts
        ensures !Step(cfg, s, a).lanes[id].row.status.Processing?
      {
        if Step(cfg, s, a).lanes[id].row.status.Processing? {
          ReopenedBeforeLastAttempt(cfg, s, a, id);
        }
      }
    } else {
      hide LaneStep;
      var t := CrashReopens(cfg, payload, maxAttempts);
      assert Step(cfg, t, At(JOB, Advance)).lanes[JOB].row.status.Processing?;
    }
  }

  // An add that was reported as failed but did add the entry lets a worker reopen a FAILED row.
  lemma LostAddReopensFailed(cfg: Config)
    requires cfg.lossyAdd
    ensures !TerminalIsAbsorbing(cfg)
  {
    CreatedReachable(cfg, JNull, 1, None);
    var s := Do(cfg, Created(JNull, 1, None), EnqueueLost);
    s := Do(cfg, s, MarkEnqueueFailed);
    s := DeliveryReopens(cfg, s);
    BreaksAbsorption(cfg, s, Advance);
  }

  // Terminal statuses are absorbing in all runs exactly when nothing crashes, adds are atomic
  // and the queue removes only entries that still wait.
  lemma AbsorbingIff(cfg: Config)
    requires cfg.Valid()
    ensures TerminalIsAbsorbing(cfg) <==> cfg.CrashFree()
  {
    if cfg.CrashFree() {
      forall s: State, a: Action, id: JobId | Reachable(cfg, s) && id in s.lanes && s.lanes[id].row.Terminal()
        ensures Step(cfg, s, a).lanes[id].row.status == s.lanes[id].row.status
      {
        StatusMovesAlongTable(cfg, s, a, id);
      }
    } else if cfg.faults {
      CrashResurrectsCompleted(cfg);
    } else if cfg.lossyAdd {
      LostAddReopensFailed(cfg);
    } else if EntryState.Completed in cfg.removable {
      RemovableResultIsOverwritten(cfg, JNull);
    } else {
      var x :| x in cfg.removable && x !in {EntryState.Waiting, EntryState.Delayed};
      assert x == EntryState.Failed;
      RemovableResultIsOverwritten(cfg, ALWAYS_FAILS);
    }
  }

  // ---------- Dead letters ----------

  // Counting FAILED rows with retryCount > 0 as dead letters is exact in all runs, with any
  // faults and any removals, exactly when adds are atomic.
  lemma DeadLettersIff(cfg: Config)
    requires cfg.Valid()
    ensures DeadLettersExact(cfg) <==> !cfg.lossyAdd
  {
    if !cfg.lossyAdd {
      AtomicAddsMakeDeadLettersExact(cfg);
    } else {
      CreatedReachable(cfg, ALWAYS_FAILS, 2, None);
      var s := Do(cfg, Created(ALWAYS_FAILS, 2, None), EnqueueLost);
      s := DeliverOnce(cfg, s);
      s := Do(cfg, s, MarkEnqueueFailed);
      assert IsDeadLetter(s.lanes[JOB].row) && !HasExhaustedAttempts(s.lanes[JOB].row);
    }
  }

  // ---------- Cancellations ----------

  ghost predicate AtMostOneCancelSucceeds(cfg: Config) {
    forall s: State, id: JobId, c: nat, d: nat ::
      (Reachable(cfg, s) && id in s.lanes
       && CancelAt(s.lanes[id], c, CancelPc.Succeeded) && CancelAt(s.lanes[id], d, CancelPc.Succeeded)) ==> c == d
  }

  // The documentation's reading of CANCELLED, for the jobs with this payload and limit: their
  // processing never started.
  ghost predicate CancelledNeverStarted(cfg: Config, payload: Json, maxAttempts: nat) {
    forall s: State, id: JobId ::
      (Reachable(cfg, s) && id in s.lanes && s.lanes[id].row.status.Cancelled?
       && s.lanes[id].row.payload == payload && s.lanes[id].row.maxAttempts == maxAttempts) ==>
        s.lanes[id].attempts == map[]
  }

  // Two cancellations have seen the entry of a job, and now the queue would remove it.
  lemma TwoAsk(cfg: Config) returns (s: State)
    requires cfg.Valid() && cfg.removable != {}
    ensures Reachable(cfg, s) && JOB in s.lanes
    ensures CancelAt(s.lanes[JOB], 0, ToRemove) && CancelAt(s.lanes[JOB], 1, ToRemove)
    ensures s.lanes[JOB].entry.Some? && Removes(cfg, s.lanes[JOB])
  {
    hide LaneStep;
    hide Outcome;
    var delayMs := if EntryState.Delayed in cfg.removable then Some(1) else None;
    var payload := if EntryState.Completed in cfg.removable then JNull else ALWAYS_FAILS;
    OutcomeIff(payload, 1);
    s := Fresh(cfg, payload, delayMs);
    s := AskToCancel(cfg, s, 0);
    s := AskToCancel(cfg, s, 1);
    if EntryState.Delayed !in cfg.removable && EntryState.Waiting !in cfg.removable {
      var x :| x in cfg.removable;
      assert x == EntryState.Completed || x == EntryState.Failed;
      s := DeliverOnce(cfg, s);
      assert s.lanes[JOB].worker.value.pc == Settled(EntryState.Completed !in cfg.removable);
      s := Answer(cfg, s);
    }
  }

  lemma Fresh(cfg: Config, payload: Json, delayMs: Option<int>) returns (s: State)
    requires delayMs.Some? ==> 0 < delayMs.value <= INT4_MAX
    ensures Reachable(cfg, s) && JOB in s.lanes
    ensures var lane := s.lanes[JOB];
      && lane.row.status.Queued? && lane.row.payload == payload && lane.attempts == map[] && lane.cancels == map[]
      && lane.worker.None? && lane.entry.Some? && lane.entry.value.attemptsMade == 0 && lane.entry.value.attempts == 1
      && lane.entry.value.state == (if delayMs.Some? then EntryState.Delayed else EntryState.Waiting)
  {
    CreatedReachable(cfg, payload, 1, delayMs);
    s := Do(cfg, Created(payload, 1, delayMs), Enqueue);
  }

  lemma TwoCancelsSucceed(cfg: Config)
    requires cfg.Valid() && cfg.removable != {} && cfg.removeMissing
    ensures !AtMostOneCancelSucceeds(cfg)
  {
    hide LaneStep;
    var s := TwoAsk(cfg);
    s := RemoveEntry(cfg, s, 0);
    s := RemoveEntry(cfg, s, 1);
    s := MarkCancel(cfg, s, 0);
    s := MarkCancel(cfg, s, 1);
    assert CancelAt(s.lanes[JOB], 0, CancelPc.Succeeded) && CancelAt(s.lanes[JOB], 1, CancelPc.Succeeded);
  }

  // With any faults and any adds, at most one cancellation of a job succeeds exactly when the
  // queue does not report success for an entry that is already gone (or never removes any).
  lemma OneCancelIff(cfg: Config)
    requires cfg.Valid()
    ensures AtMostOneCancelSucceeds(cfg) <==> !cfg.removeMissing || cfg.removable == {}
  {
    if cfg.removeMissing && cfg.removable != {} {
      TwoCancelsSucceed(cfg);
    } else {
      forall s: State, id: JobId, c: nat, d: nat |
        && Reachable(cfg, s) && id in s.lanes
        && CancelAt(s.lanes[id], c, CancelPc.Succeeded) && CancelAt(s.lanes[id], d, CancelPc.Succeeded)
        ensures c == d
      {
        if cfg.removable == {} {
          NothingIsWithdrawn(cfg, s, id);
        } else {
          OneGrantOnly(cfg, s, id);
        }
      }
    }
  }

  lemma NothingIsWithdrawn(cfg: Config, s: State, id: JobId)
    requires cfg.removable == {} && Reachable(cfg, s) && id in s.lanes
    ensures NeverWithdrawn(s.lanes[id])
  {
    hide NeverWithdrawn;
    ReachableIsGood(cfg, s);
    assert Good(cfg, s.lanes[id], s.clock);
  }

  // A job that waits for its retry is QUEUED and can be cancelled although it was processed.
  lemma CancelledAfterAttempt(cfg: Config, payload: Json, maxAttempts: nat)
    requires cfg.CrashFree() && cfg.removable != {}
    requires maxAttempts > 1 && Outcome(payload, 1).Some?
    ensures !CancelledNeverStarted(cfg, payload, maxAttempts)
  {
    hide LaneStep;
    hide Outcome;
    var s := Enqueued(cfg, payload, maxAttempts);
    s := DeliverOnce(cfg, s);
    s := Answer(cfg, s);
    if EntryState.Delayed !in cfg.removable {
      s := PromoteWhenDue(cfg, s);
      var x :| x in cfg.removable;
    }
    s := CancelAll(cfg, s);
    assert 1 in s.lanes[JOB].attempts;
  }

  lemma CancelAll(cfg: Config, s: State) returns (t: State)
    requires Reachable(cfg, s) && JOB in s.lanes
    requires var lane := s.lanes[JOB];
      && lane.row.status.Queued? && lane.cancels == map[] && lane.entry.Some?
      && lane.entry.value.state in cfg.removable && !lane.entry.value.state.Active?
    ensures Reachable(cfg, t) && JOB in t.lanes
    ensures t.lanes[JOB].row == s.lanes[JOB].row.MarkCancelled(s.clock)
    ensures t.lanes[JOB].attempts == s.lanes[JOB].attempts
  {
    hide LaneStep;
    t := AskToCancel(cfg, s, 0);
    t := RemoveEntry(cfg, t, 0);
    t := MarkCancel(cfg, t, 0);
  }

  lemma CancelledThoughStarted(cfg: Config, s: State, id: JobId)
    requires cfg.CrashFree() && Reachable(cfg, s)
    requires id in s.lanes && s.lanes[id].row.status.Cancelled? && s.lanes[id].attempts != map[]
    ensures cfg.removable != {}
    ensures s.lanes[id].row.maxAttempts > 1 && Outcome(s.lanes[id].row.payload, 1).Some?
  {
    hide Outcome;
    var lane := s.lanes[id];
    LaneIsOrderly(cfg, s, id);
    assert Resting(lane.row, lane.attempts, lane.row.retryCount);
    var i :| i in lane.attempts;
    assert FinishedAttempt(lane.row.payload, 1, lane.attempts[1]);
    if cfg.removable == {} {
      NothingIsWithdrawn(cfg, s, id);
    }
  }

  // In crash-free runs the cancelled jobs with this payload and limit are jobs that never started,
  // as documented, exactly when nothing can be cancelled, there is one attempt only, or the first
  // attempt succeeds.
  lemma CancelledNeverStartedIff(cfg: Config, payload: Json, maxAttempts: nat)
    requires cfg.CrashFree() && maxAttempts >= 1
    ensures CancelledNeverStarted(cfg, payload, maxAttempts) <==>
      cfg.removable == {} || maxAttempts == 1 || !(ShouldFail(payload) || 1 <= FailUntil(payload))
  {
    hide Outcome;
    OutcomeIff(payload, 1);
    if cfg.removable == {} || maxAttempts == 1 || Outcome(payload, 1).None? {
      forall s: State, id: JobId |
        && Reachable(cfg, s) && id in s.lanes && s.lanes[id].row.status.Cancelled?
        && s.lanes[id].row.payload == payload && s.lanes[id].row.maxAttempts == maxAttempts
        ensures s.lanes[id].attempts == map[]
      {
        if s.lanes[id].attempts != map[] {
          CancelledThoughStarted(cfg, s, id);
        }
      }
    } else {
      CancelledAfterAttempt(cfg, payload, maxAttempts);
    }
  }

  // ---------- The start of a job ----------

  // A worker that dies after it stored its attempt and before it marked the job leaves the
  // attempt with its start, and the job to be started by a later delivery.
  lemma CrashDelaysStart(cfg: Config)
    requires cfg.faults
    ensures !StartIsFirstAttempt(cfg)
  {
    hide Outcome;
    hide LaneStep;
    var s := Enqueued(cfg, JNull, 1);
    var began;
    s, began := PickAndProceed(cfg, s, 6);
    assert s.lanes[JOB].worker.value.pc.ToReadJob?;
    assert s.lanes[JOB].attempts[1].startedAt <= s.clock;
    s := DieAndRequeue(cfg, s);
    s := WaitFor(cfg, s, 1);
    s, began := PickAndProceed(cfg, s, 4);
    assert s.lanes[JOB].worker.value.pc.Working?;
    assert s.lanes[JOB].attempts[1].startedAt < began <= s.lanes[JOB].row.startedAt.value;
  }

  // The start of every job is the start of its first attempt exactly when there are no faults.
  lemma StartIsFirstAttemptIff(cfg: Config)
    ensures StartIsFirstAttempt(cfg) <==> !cfg.faults
  {
    if cfg.faults {
      CrashDelaysStart(cfg);
    } else {
      NoFaultsMakeStartExact(cfg);
    }
  }

  // ---------- Orphans ----------

  // With nothing in flight, every QUEUED job has an entry in the queue.
  ghost predicate NoOrphans(cfg: Config) {
    forall s: State, id: JobId :: Reachable(cfg, s) && id in s.lanes && Quiet(s.lanes[id]) ==>
      s.lanes[id].row.status.Queued? ==> s.lanes[id].entry.Some?
  }

  // A job whose createJob call died before it was added to the queue.
  ghost predicate Orphan(lane: Lane) {
    && lane.creator.Gone? && lane.entry.None? && lane.worker.None?
    && lane.row.status.Queued? && NoneLooked(lane)
  }

  lemma {:induction false} OrphanStays(cfg: Config, s: State, actions: seq<Action>, id: JobId)
    requires id in s.lanes && Orphan(s.lanes[id])
    ensures var after := Run(cfg, s, actions);
      id in after.lanes && Orphan(after.lanes[id]) && after.lanes[id].row == s.lanes[id].row
    decreases |actions|
  {
    if actions != [] {
      OrphanStays(cfg, Step(cfg, s, actions[0]), actions[1..], id);
    }
  }

  // An API process that dies between the insert and the add leaves a row that is QUEUED for ever:
  // nothing adds its entry later, and no cancellation of it succeeds.
  lemma CrashOrphans(cfg: Config) returns (s: State)
    requires cfg.faults
    ensures Reachable(cfg, s) && JOB in s.lanes && Quiet(s.lanes[JOB])
    ensures forall actions: seq<Action> :: var after := Run(cfg, s, actions);
      JOB in after.lanes && after.lanes[JOB].row.status.Queued? && after.lanes[JOB].entry.None?
  {
    CreatedReachable(cfg, JNull, 1, None);
    s := Do(cfg, Created(JNull, 1, None), CreatorDies);
    forall actions: seq<Action>
      ensures var after := Run(cfg, s, actions);
        JOB in after.lanes && after.lanes[JOB].row.status.Queued? && after.lanes[JOB].entry.None?
    {
      OrphanStays(cfg, s, actions, JOB);
    }
  }

  // With any removals and lossy adds, no QUEUED job is ever left without an entry exactly when
  // there are no faults.
  lemma NoOrphansIff(cfg: Config)
    ensures NoOrphans(cfg) <==> !cfg.faults
  {
    if cfg.faults {
      var s := CrashOrphans(cfg);
      assert Run(cfg, s, []) == s;
    } else {
      forall s: State, id: JobId | Reachable(cfg, s) && id in s.lanes && Quiet(s.lanes[id])
        ensures s.lanes[id].row.status.Queued? ==> s.lanes[id].entry.Some?
      {
        LaneIsSound(cfg, s, id);
      }
    }
  }

  // ---------- Progress ----------

  // A job that nobody works on although its row says so: the queue has given up, and no
  // cancellation can begin.
  ghost predicate Stuck(lane: Lane) {
    && lane.row.status.Processing? && lane.worker.None?
    && lane.entry.Some? && lane.entry.value.state.Failed?
    && lane.creator.Accepted?
    && (forall c :: c in lane.cancels ==> lane.cancels[c].Refused?)
  }

  lemma {:induction false} StuckStays(cfg: Config, s: State, actions: seq<Action>, id: JobId)
    requires id in s.lanes && Stuck(s.lanes[id])
    ensures var after := Run(cfg, s, actions);
      id in after.lanes && Stuck(after.lanes[id]) && after.lanes[id].row == s.lanes[id].row
    decreases |actions|
  {
    if actions != [] {
      StuckStays(cfg, Step(cfg, s, actions[0]), actions[1..], id);
    }
  }

  // Whatever its payload and its limit, a job can be left PROCESSING for ever: its last attempt
  // has its result, and may have succeeded, but its row never gets one.
  lemma CrashLeavesProcessing(cfg: Config, payload: Json, maxAttempts: nat) returns (s: State)
    requires cfg.faults && maxAttempts >= 1
    ensures Reachable(cfg, s) && JOB in s.lanes
    ensures var lane := s.lanes[JOB];
      && lane.row.payload == payload && lane.row.maxAttempts == maxAttempts
      && maxAttempts in lane.attempts
      && lane.attempts[maxAttempts].status ==
           if Outcome(payload, maxAttempts).Some? then AttemptStatus.Failed else AttemptStatus.Completed
    ensures forall actions: seq<Action> :: var after := Run(cfg, s, actions);
      JOB in after.lanes && after.lanes[JOB].row.status.Processing? && after.lanes[JOB].row == s.lanes[JOB].row
  {
    hide Outcome;
    hide LaneStep;
    s := AfterCrashes(cfg, payload, maxAttempts, maxAttempts - 1);
    s := CrashAfterAttempt(cfg, s);
    FinishedAttemptsRecordOutcomes(cfg, s, JOB, maxAttempts);
    forall actions: seq<Action>
      ensures var after := Run(cfg, s, actions);
        JOB in after.lanes && after.lanes[JOB].row.status.Processing? && after.lanes[JOB].row == s.lanes[JOB].row
    {
      StuckStays(cfg, s, actions, JOB);
    }
  }

  // Every job of every reachable state can be brought to its end.
  ghost predicate NoneStuck(cfg: Config) {
    forall s: State, id: JobId :: Reachable(cfg, s) && id in s.lanes ==> CanEnd(cfg, s, id)
  }

  // With any removals and any adds, every job can always be brought to its end exactly when there
  // are no faults.
  lemma NeverStuckIff(cfg: Config)
    ensures NoneStuck(cfg) <==> !cfg.faults
  {
    if cfg.faults {
      var s := CrashLeavesProcessing(cfg, JNull, 1);
      assert !CanEnd(cfg, s, JOB);
    } else {
      forall s: State, id: JobId | Reachable(cfg, s) && id in s.lanes
        ensures CanEnd(cfg, s, id)
      {
        NeverStuck(cfg, s, id);
      }
    }
  }

  // No job is delivered more often than it has attempts.
  ghost predicate DeliveriesAreBounded(cfg: Config) {
    forall s: State, actions: seq<Action>, id: JobId :: Reachable(cfg, s) && id in s.lanes ==>
      Deliveries(cfg, s, actions, id) <= s.lanes[id].row.maxAttempts
  }

  lemma DeliveriesCons(cfg: Config, s: State, a: Action, rest: seq<Action>)
    requires JOB in s.lanes && JOB in Step(cfg, s, a).lanes
    ensures var next := Step(cfg, s, a);
      Deliveries(cfg, s, [a] + rest, JOB) ==
        (if a == At(JOB, Pick) && next.lanes[JOB] != s.lanes[JOB] then 1 else 0) + Deliveries(cfg, next, rest, JOB)
  {
    assert ([a] + rest)[1..] == rest;
  }

  // A worker that dies on every delivery before it settles it makes the queue deliver the same
  // attempt any number of times.
  lemma {:induction false} EndlessDeliveries(cfg: Config, s: State, k: nat) returns (actions: seq<Action>)
    requires cfg.faults && JOB in s.lanes
    requires s.lanes[JOB].entry.Some? && s.lanes[JOB].entry.value.state.Waiting? && s.lanes[JOB].worker.None?
    ensures Deliveries(cfg, s, actions, JOB) == k
    decreases k
  {
    if k == 0 {
      actions := [];
    } else {
      var pick, die, requeue := At(JOB, Pick), At(JOB, WorkerDies), At(JOB, StallRequeue);
      var s1 := Step(cfg, s, pick);
      var s2 := Step(cfg, s1, die);
      var s3 := Step(cfg, s2, requeue);
      var rest := EndlessDeliveries(cfg, s3, k - 1);
      DeliveriesCons(cfg, s2, requeue, rest);
      DeliveriesCons(cfg, s1, die, [requeue] + rest);
      DeliveriesCons(cfg, s, pick, [die] + ([requeue] + rest));
      actions := [pick] + ([die] + ([requeue] + rest));
    }
  }

  ghost predicate DeliveredMoreThan(cfg: Config, bound: nat) {
    exists s: State, actions: seq<Action> :: Reachable(cfg, s) && Deliveries(cfg, s, actions, JOB) > bound
  }

  // With any removals and any adds, a job is delivered at most maxAttempts times in all runs
  // exactly when there are no faults; with faults there is no bound.
  lemma DeliveriesBoundedIff(cfg: Config)
    ensures DeliveriesAreBounded(cfg) <==> !cfg.faults
    ensures cfg.faults ==> forall bound: nat :: DeliveredMoreThan(cfg, bound)
  {
    if cfg.faults {
      var s := Enqueued(cfg, JNull, 1);
      forall bound: nat
        ensures DeliveredMoreThan(cfg, bound)
      {
        var actions := EndlessDeliveries(cfg, s, bound + 1);
      }
      var actions := EndlessDeliveries(cfg, s, 2);
      assert Deliveries(cfg, s, actions, JOB) > s.lanes[JOB].row.maxAttempts;
    } else {
      forall s: State, actions: seq<Action>, id: JobId | Reachable(cfg, s) && id in s.lanes
        ensures Deliveries(cfg, s, actions, id) <= s.lanes[id].row.maxAttempts
      {
        WorkIsBounded(cfg, s, actions, id);
      }
    }
  }

  // ---------- How often the work takes effect ----------

  // The work of a job with this payload and limit succeeds at most once.
  ghost predicate SucceedsOnce(cfg: Config, payload: Json, maxAttempts: nat) {
    forall s: State, id: JobId ::
      (Reachable(cfg, s) && id in s.lanes
       && s.lanes[id].row.payload == payload && s.lanes[id].row.maxAttempts == maxAttempts) ==>
        OneSuccess(s.lanes[id].attempts)
  }

  lemma TwoSuccessesNeedAttempts(cfg: Config, s: State, id: JobId, i: nat, j: nat)
    requires Reachable(cfg, s) && id in s.lanes && i < j
    requires var attempts := s.lanes[id].attempts;
      && i in attempts && attempts[i].status.Completed?
      && j in attempts && attempts[j].status.Completed?
    ensures cfg.faults
    ensures var row := s.lanes[id].row; !ShouldFail(row.payload) && Max(FailUntil(row.payload), 0) + 1 < row.maxAttempts
  {
    hide Outcome;
    FinishedAttemptsRecordOutcomes(cfg, s, id, i);
    LaneIsStructural(cfg, s, id);
    OutcomeIff(s.lanes[id].row.payload, i);
    if !cfg.faults {
      LaneIsSound(cfg, s, id);
    }
  }

  // The first success of a job is forgotten by the queue, and the next attempt succeeds again.
  lemma CrashSucceedsTwice(cfg: Config, payload: Json, maxAttempts: nat)
    requires cfg.faults
    requires !ShouldFail(payload) && Max(FailUntil(payload), 0) + 1 < maxAttempts
    ensures !SucceedsOnce(cfg, payload, maxAttempts)
  {
    hide Outcome;
    hide LaneStep;
    var k := Max(FailUntil(payload), 0);
    forall i | 1 <= i <= k ensures Outcome(payload, i).Some? {
      OutcomeIff(payload, i);
    }
    OutcomeIff(payload, k + 1);
    OutcomeIff(payload, k + 2);
    var s := AfterFailures(cfg, payload, maxAttempts, k);
    s := CrashAfterAttempt(cfg, s);
    s := PromoteWhenDue(cfg, s);
    s := DeliverOnce(cfg, s);
    FinishedAttemptsRecordOutcomes(cfg, s, JOB, k + 1);
    FinishedAttemptsRecordOutcomes(cfg, s, JOB, k + 2);
    assert !OneSuccess(s.lanes[JOB].attempts);
  }

  // With any removals and any adds, the work of a job succeeds at most once exactly when there are
  // no faults, or no attempt follows the first one that succeeds.
  lemma SucceedsOnceIff(cfg: Config, payload: Json, maxAttempts: nat)
    requires maxAttempts >= 1
    ensures SucceedsOnce(cfg, payload, maxAttempts) <==>
      !cfg.faults || ShouldFail(payload) || Max(FailUntil(payload), 0) + 1 >= maxAttempts
  {
    if !cfg.faults || ShouldFail(payload) || Max(FailUntil(payload), 0) + 1 >= maxAttempts {
      forall s: State, id: JobId |
        && Reachable(cfg, s) && id in s.lanes
        && s.lanes[id].row.payload == payload && s.lanes[id].row.maxAttempts == maxAttempts
        ensures OneSuccess(s.lanes[id].attempts)
      {
        var attempts := s.lanes[id].attempts;
        forall i, j |
          i in attempts && j in attempts && attempts[i].status.Completed? && attempts[j].status.Completed? && i < j
          ensures false
        {
          TwoSuccessesNeedAttempts(cfg, s, id, i, j);
        }
      }
    } else {
      CrashSucceedsTwice(cfg, payload, maxAttempts);
    }
  }

  // ---------- The earliest starts ----------

  // The lower bounds on starts are reached, whatever the configuration: if the attempts before it
  // fail, attempt n starts at the end of the delay and the least gap when every step is taken at once.
  lemma EarliestStartIsReached(cfg: Config, payload: Json, maxAttempts: nat, delayMs: Option<int>, n: nat)
    returns (s: State)
    requires 1 <= n <= maxAttempts
    requires delayMs.Some? ==> 0 < delayMs.value <= INT4_MAX
    requires forall i :: 1 <= i < n ==> Outcome(payload, i).Some?
    ensures Reachable(cfg, s) && JOB in s.lanes
    ensures var lane := s.lanes[JOB];
      && lane.row.payload == payload && lane.row.delayMs == delayMs
      && 1 in lane.attempts && n in lane.attempts
      && lane.attempts[1].startedAt == lane.row.createdAt + EnqueueDelay(delayMs)
      && lane.attempts[n].startedAt == lane.attempts[1].startedAt + LeastGap(cfg, n)
  {
    hide Outcome;
    s := AtOnce(cfg, payload, maxAttempts, delayMs, n - 1);
    s := DeliverAtOnce(cfg, s);
    assert LeastGap(cfg, 1) == 0;
  }
}
