// How jobs end: without faults in bounded work and never stuck, and in crash-free runs with a
// result that the payload alone determines.
module Progress {
  import opened Wrappers
  import opened ErrorText
  import opened Simulation
  import opened Records
  import opened Lifecycle
  import opened Faults
  import opened Faultless
  import opened Orderly
  import opened Reach
  import opened CrashFreeRuns

  // ---------- The result ----------

  function Max(a: int, b: int): int {
    if a < b then b else a
  }

  ghost predicate RunToEnd(lane: Lane) {
    lane.entry.Some? && (lane.entry.value.state.Completed? || lane.entry.value.state.Failed?)
  }

  lemma OutcomeIff(payload: Json, n: nat)
    requires n >= 1
    ensures Outcome(payload, n).Some? <==> ShouldFail(payload) || n <= FailUntil(payload)
  {
    FailsIff(payload, n);
  }

  // What is stored of the failure of attempt n: the fixed message, or the message with its number.
  lemma RecordedOutcome(payload: Json, n: nat)
    requires n >= 1
    ensures ShouldFail(payload) ==>
      var t := Join(Words(Ascii("Simulated permanent processing failure")));
      Outcome(payload, n) == Some(if |t| <= 500 then t else t[..500])
    ensures !ShouldFail(payload) && n <= FailUntil(payload) ==>
      var t := Ascii("Simulated failure on attempt ") + Decimal(n);
      Outcome(payload, n) == Some(if |t| <= 500 then t else t[..500])
    ensures !ShouldFail(payload) && n > FailUntil(payload) ==> Outcome(payload, n).None?
  {
    FailsIff(payload, n);
    FailureMessage(payload, n);
    if ShouldFail(payload) {
      SanitizedThrown(ErrorObject(PERMANENT_FAILURE));
    } else if n <= FailUntil(payload) {
      RecordedMessage(payload, n);
    }
  }

  // A job run to its end is FAILED after maxAttempts failed attempts when the payload always
  // fails or fails up to an attempt N >= maxAttempts; otherwise max(N, 0) attempts failed and
  // the next one completed it. No interleaving changes this.
  lemma ResultOfPayload(cfg: Config, s: State, id: JobId)
    requires cfg.CrashFree() && Reachable(cfg, s)
    requires id in s.lanes && RunToEnd(s.lanes[id])
    ensures var row := s.lanes[id].row; var attempts := s.lanes[id].attempts;
      var n := FailUntil(row.payload);
      if ShouldFail(row.payload) || n >= row.maxAttempts then
        && row.status.Failed?
        && row.retryCount == |FailedNumbers(attempts)| == |attempts| == row.maxAttempts
      else
        && row.status.Completed?
        && row.retryCount == |FailedNumbers(attempts)| == Max(n, 0)
        && CompletedNumbers(attempts) == {Max(n, 0) + 1}
        && |attempts| == Max(n, 0) + 1
  {
    hide LaneOrderly;
    LaneIsOrderly(cfg, s, id);
    var lane := s.lanes[id];
    EndedLane(lane);
    if lane.row.status.Failed? {
      ResultOfExhausted(lane.row, lane.attempts);
    } else {
      ResultOfSuccess(lane.row, lane.attempts, lane.row.retryCount);
    }
  }

  lemma EndedLane(lane: Lane)
    requires LaneOrderly(lane) && RunToEnd(lane)
    ensures var k := lane.row.retryCount;
      || Exhausted(lane.row, lane.attempts)
      || (SucceededAfter(lane.row, lane.attempts, k) && k < lane.row.maxAttempts)
  {
    hide Outcome;
  }

  lemma ResultOfExhausted(row: Job, attempts: Attempts)
    requires Exhausted(row, attempts)
    ensures ShouldFail(row.payload) || FailUntil(row.payload) >= row.maxAttempts
    ensures row.retryCount == |FailedNumbers(attempts)| == |attempts| == row.maxAttempts
  {
    hide Outcome;
    HistoryOfFailures(row.payload, attempts, row.maxAttempts);
    OutcomeIff(row.payload, row.maxAttempts);
    assert FinishedAttempt(row.payload, row.maxAttempts, attempts[row.maxAttempts]);
  }

  lemma ResultOfSuccess(row: Job, attempts: Attempts, k: nat)
    requires SucceededAfter(row, attempts, k) && k < row.maxAttempts
    ensures !ShouldFail(row.payload) && Max(FailUntil(row.payload), 0) == k
    ensures row.retryCount == |FailedNumbers(attempts)| == k
    ensures CompletedNumbers(attempts) == {k + 1} && |attempts| == k + 1
  {
    hide Outcome;
    HistoryOfSuccess(row.payload, attempts, k);
    OutcomeIff(row.payload, k + 1);
    if k >= 1 {
      OutcomeIff(row.payload, k);
      assert FinishedAttempt(row.payload, k, attempts[k]);
    }
  }

  // On every failed delivery the worker's choice between FAILED and QUEUED agrees with what the
  // queue does when it is told: it gives up exactly when the row says FAILED.
  lemma DecisionsAgree(cfg: Config, s: State, id: JobId)
    requires cfg.CrashFree() && Reachable(cfg, s)
    requires id in s.lanes && s.lanes[id].worker.Some? && s.lanes[id].worker.value.pc == Settled(true)
    ensures var lane := s.lanes[id];
      && lane.entry.Some?
      && var after := Acknowledge(lane.entry.value, true, cfg.backoffDelayMs, s.clock);
        && (lane.row.status.Failed? <==> after.state.Failed?)
        && (lane.row.status.Queued? <==> after.state.Delayed?)
        && after.attemptsMade == lane.row.retryCount == lane.worker.value.attemptNumber
  {
    hide Outcome;
    LaneIsOrderly(cfg, s, id);
  }

  // ---------- Bounded work ----------

  // The steps that are left of a delivery, its answer included.
  function PcRank(pc: WorkerPc): nat {
    match pc
    case Picked => 9
    case ToReadAttempt(_) => 8
    case ToUpsertAttempt(_, _) => 7
    case ToReadJob(_) => 6
    case ToUpdateJob(_, _) => 5
    case Working(_, _) => 4
    case ToFinishAttempt(_, _, _) => 3
    case ToFinishJob(_, _, _) => 2
    case Settled(_) => 1
  }

  // A bound on the steps of the queue and the worker that are left: an attempt takes a
  // promotion, a pick and the nine steps of its delivery.
  function EntryRank(lane: Lane): nat {
    match lane.entry
    case None => if lane.creator.ToEnqueue? then 11 * lane.row.maxAttempts + 2 else if lane.row.Terminal() then 0 else 1
    case Some(e) =>
      var left := if e.attemptsMade < e.attempts then e.attempts - e.attemptsMade else 0;
      match e.state
      case Delayed => 11 * left
      case Waiting => if left > 0 then 11 * left - 1 else 0
      case Active =>
        if left > 0 then 11 * (left - 1) + (if lane.worker.Some? then PcRank(lane.worker.value.pc) else 0) else 0
      case Completed => 0
      case Failed => 0
  }

  // A bound on all steps that are left.
  function Rank(lane: Lane): nat {
    EntryRank(lane) + if lane.creator.ToMarkEnqueueFailed? then 1 else 0
  }

  predicate CancelOp(op: Op) {
    op.CancelRead? || op.CancelLookup? || op.CancelRemove? || op.CancelErrs? || op.CancelMark? || op.CancelDies?
  }

  lemma AdvanceLowersRank(cfg: Config, lane: Lane, now: Time)
    requires Structural(lane) && lane.worker.Some?
    ensures var after := AdvanceWorker(cfg, lane, now);
      Rank(after) < Rank(lane) || (after == lane && lane.worker.value.pc.Working?)
  {
    hide Outcome;
  }

  // Without faults no step of any actor adds work, and every step of the creator, the queue or
  // the worker that changes anything takes some away.
  lemma RankFalls(cfg: Config, lane: Lane, now: Time, op: Op)
    requires !cfg.faults && Structural(lane) && GrantIsFinal(lane) && OnTrack(lane)
    ensures Rank(LaneStep(cfg, lane, now, op)) <= Rank(lane)
    ensures !CancelOp(op) && LaneStep(cfg, lane, now, op) != lane ==> Rank(LaneStep(cfg, lane, now, op)) < Rank(lane)
  {
    hide AdvanceWorker;
    match op
    case Advance => if lane.worker.Some? { AdvanceLowersRank(cfg, lane, now); }
    case _ =>
  }

  // How many steps of the creator, the queue and the worker change job `id` in a run.
  function WorkSteps(cfg: Config, s: State, actions: seq<Action>, id: JobId): nat
    decreases |actions|
  {
    if actions == [] then 0
    else
      var a, next := actions[0], Step(cfg, s, actions[0]);
      var counts := a.At? && a.id == id && !CancelOp(a.op)
        && id in s.lanes && id in next.lanes && next.lanes[id] != s.lanes[id];
      (if counts then 1 else 0) + WorkSteps(cfg, next, actions[1..], id)
  }

  // Deliveries of job `id` in a run.
  function Deliveries(cfg: Config, s: State, actions: seq<Action>, id: JobId): nat
    decreases |actions|
  {
    if actions == [] then 0
    else
      var a, next := actions[0], Step(cfg, s, actions[0]);
      var counts := a == At(id, Pick) && id in s.lanes && id in next.lanes && next.lanes[id] != s.lanes[id];
      (if counts then 1 else 0) + Deliveries(cfg, next, actions[1..], id)
  }

  // Deliveries the queue can still make.
  function DeliveriesLeft(lane: Lane): nat {
    match lane.entry
    case None => if lane.creator.ToEnqueue? then lane.row.maxAttempts else 0
    case Some(e) =>
      var left := if e.attemptsMade <= e.attempts then e.attempts - e.attemptsMade else 0;
      match e.state
      case Delayed => left
      case Waiting => left
      case Active => if left > 0 then left - 1 else 0
      case Completed => 0
      case Failed => 0
  }

  lemma DeliveriesLeftFalls(cfg: Config, lane: Lane, now: Time, op: Op)
    requires !cfg.faults && Structural(lane) && OnTrack(lane)
    ensures DeliveriesLeft(LaneStep(cfg, lane, now, op)) <= DeliveriesLeft(lane) <= lane.row.maxAttempts
    ensures op.Pick? && LaneStep(cfg, lane, now, op) != lane ==>
      DeliveriesLeft(LaneStep(cfg, lane, now, op)) < DeliveriesLeft(lane)
  {
    hide Outcome;
  }

  lemma {:induction false} WorkWithinRank(cfg: Config, s: State, actions: seq<Action>, id: JobId)
    requires !cfg.faults && Reachable(cfg, s) && id in s.lanes
    ensures WorkSteps(cfg, s, actions, id) <= Rank(s.lanes[id])
    ensures Deliveries(cfg, s, actions, id) <= DeliveriesLeft(s.lanes[id])
    decreases |actions|
  {
    hide LaneStep;
    hide Structural;
    hide GrantIsFinal;
    hide OnTrack;
    hide Rank;
    hide DeliveriesLeft;
    if actions != [] {
      var a := actions[0];
      LaneIsSound(cfg, s, id);
      StepReaches(cfg, s, a);
      WorkWithinRank(cfg, Step(cfg, s, a), actions[1..], id);
      if a.At? && a.id == id {
        RankFalls(cfg, s.lanes[id], s.clock, a.op);
        DeliveriesLeftFalls(cfg, s.lanes[id], s.clock, a.op);
      }
    }
  }

  lemma RankAtMost(lane: Lane)
    requires Structural(lane)
    ensures Rank(lane) <= 11 * lane.row.maxAttempts + 2
  {
  }

  // Whatever the schedule and however often anybody acts, without faults a job takes at most
  // 11 * maxAttempts + 2 steps of work, and is delivered at most maxAttempts times.
  lemma WorkIsBounded(cfg: Config, s: State, actions: seq<Action>, id: JobId)
    requires !cfg.faults && Reachable(cfg, s) && id in s.lanes
    ensures WorkSteps(cfg, s, actions, id) <= 11 * s.lanes[id].row.maxAttempts + 2
    ensures Deliveries(cfg, s, actions, id) <= s.lanes[id].row.maxAttempts
  {
    hide Structural;
    hide OnTrack;
    hide LaneStep;
    hide Rank;
    hide DeliveriesLeft;
    LaneIsSound(cfg, s, id);
    WorkWithinRank(cfg, s, actions, id);
    RankAtMost(s.lanes[id]);
    DeliveriesLeftFalls(cfg, s.lanes[id], s.clock, Pick);
  }

  // ---------- Never stuck ----------

  // How long to wait before the next step, and which step that is.
  function Wait(cfg: Config, s: State, id: JobId): nat
    requires id in s.lanes
  {
    var lane := s.lanes[id];
    if lane.entry.Some? && lane.entry.value.state.Delayed? then Max(0, lane.entry.value.due - s.clock)
    else if lane.worker.Some? && lane.worker.value.pc.Working? then
      Max(0, lane.worker.value.pc.since + cfg.processingDelayMs - s.clock)
    else 0
  }

  function NextOp(lane: Lane): Op {
    if lane.creator.ToMarkEnqueueFailed? then MarkEnqueueFailed
    else
      match lane.entry
      case None => Enqueue
      case Some(e) => if e.state.Delayed? then Promote else if e.state.Waiting? then Pick else Advance
  }

  // Only a granted cancellation still has to act on the job.
  predicate ToBeMarked(lane: Lane) {
    lane.entry.None? && !lane.creator.ToEnqueue? && !lane.creator.ToMarkEnqueueFailed?
  }

  lemma NextOpWorks(cfg: Config, lane: Lane, now: Time)
    requires Structural(lane) && OnTrack(lane) && Rank(lane) > 0 && !ToBeMarked(lane)
    requires lane.entry.Some? && lane.entry.value.state.Delayed? ==> now >= lane.entry.value.due
    requires lane.worker.Some? && lane.worker.value.pc.Working? ==>
      now >= lane.worker.value.pc.since + cfg.processingDelayMs
    ensures LaneStep(cfg, lane, now, NextOp(lane)) != lane && !CancelOp(NextOp(lane))
  {
    hide Outcome;
  }

  // The job has its final status, and the queue has no more work with it.
  predicate Ended(lane: Lane) {
    && lane.row.Terminal()
    && (lane.entry.Some? ==> lane.entry.value.state.Completed? || lane.entry.value.state.Failed?)
  }

  // Time passing, and the steps that calls and workers already at work on the job still have to
  // take; nobody asks for anything new.
  predicate OwnMove(a: Action, id: JobId) {
    a.Tick? || (a.At? && a.id == id && (!CancelOp(a.op) || a.op.CancelMark?))
  }

  // The job can be brought to its end: there is a way to wait and to take its own next steps only.
  ghost predicate CanEnd(cfg: Config, s: State, id: JobId) {
    exists actions: seq<Action> ::
      && (forall i :: 0 <= i < |actions| ==> OwnMove(actions[i], id))
      && var after := Run(cfg, s, actions); id in after.lanes && Ended(after.lanes[id])
  }

  // Without faults every job of every reachable state can be brought to its end.
  lemma NeverStuck(cfg: Config, s: State, id: JobId)
    requires !cfg.faults && Reachable(cfg, s) && id in s.lanes
    ensures CanEnd(cfg, s, id)
  {
    hide Structural;
    hide OnTrack;
    hide Rank;
    hide Run;
    var actions := WorkOff(cfg, s, id);
    RunReaches(cfg, s, actions);
    var after := Run(cfg, s, actions);
    LaneIsSound(cfg, after, id);
    NoWorkLeft(after.lanes[id]);
  }

  lemma NoWorkLeft(lane: Lane)
    requires Structural(lane) && OnTrack(lane) && Rank(lane) == 0
    ensures Ended(lane)
  {
  }

  lemma {:induction false} WorkOff(cfg: Config, s: State, id: JobId) returns (actions: seq<Action>)
    requires !cfg.faults && Reachable(cfg, s) && id in s.lanes
    ensures forall i :: 0 <= i < |actions| ==> OwnMove(actions[i], id)
    ensures var after := Run(cfg, s, actions); id in after.lanes && Rank(after.lanes[id]) == 0
    decreases Rank(s.lanes[id])
  {
    hide LaneStep;
    hide Rank;
    if Rank(s.lanes[id]) == 0 {
      actions := [];
    } else {
      var first := FirstMove(cfg, s, id);
      var next := Run(cfg, s, first);
      RunReaches(cfg, s, first);
      var rest := WorkOff(cfg, next, id);
      RunAppend(cfg, s, first, rest);
      actions := first + rest;
    }
  }

  lemma FirstMove(cfg: Config, s: State, id: JobId) returns (first: seq<Action>)
    requires !cfg.faults && Reachable(cfg, s) && id in s.lanes && Rank(s.lanes[id]) > 0
    ensures forall i :: 0 <= i < |first| ==> OwnMove(first[i], id)
    ensures var next := Run(cfg, s, first); id in next.lanes && Rank(next.lanes[id]) < Rank(s.lanes[id])
  {
    hide LaneStep;
    hide Rank;
    hide Structural;
    hide GrantIsFinal;
    hide OnTrack;
    hide Accounted;
    var lane := s.lanes[id];
    LaneIsSound(cfg, s, id);
    if ToBeMarked(lane) {
      var c := PendingMark(cfg, lane, s.clock);
      first := [At(id, CancelMark(c))];
      assert Run(cfg, s, first) == Step(cfg, s, first[0]);
    } else {
      var tick, move := Tick(Wait(cfg, s, id)), At(id, NextOp(lane));
      first := [tick, move];
      var later := Step(cfg, s, tick);
      assert Run(cfg, s, first) == Step(cfg, later, move) by {
        assert first[1..] == [move];
        assert [move][1..] == [];
        assert Run(cfg, later, [move]) == Run(cfg, Step(cfg, later, move), []);
      }
      NextOpWorks(cfg, lane, later.clock);
      RankFalls(cfg, lane, later.clock, NextOp(lane));
    }
  }

  lemma PendingMark(cfg: Config, lane: Lane, now: Time) returns (c: nat)
    requires Structural(lane) && OnTrack(lane) && Accounted(lane) && ToBeMarked(lane) && Rank(lane) > 0
    ensures Rank(LaneStep(cfg, lane, now, CancelMark(c))) < Rank(lane)
  {
    c :| CancelAt(lane, c, ToMark);
  }
}
