// A delivery as one atomic function, and the theorem that interleaved deliveries behave like it.
module Delivery {
  import opened Wrappers
  import opened Simulation
  import opened Records
  import opened Lifecycle
  import opened Faults
  import opened Orderly
  import opened Reach

  // What one delivery leaves in the database, and whether its promise is rejected.
  datatype Delivered = Delivered(row: Job, attempt: JobAttempt, rejected: bool)

  function StartOf(existing: Option<JobAttempt>): Option<Time> {
    match existing
    case None => None
    case Some(a) => Some(a.startedAt)
  }

  function Lookup(attempts: map<nat, JobAttempt>, n: nat): Option<JobAttempt> {
    if n in attempts then Some(attempts[n]) else None
  }

  // A delivery of attempt `n` that starts at `startedAt` and ends its work at `completedAt`,
  // with nobody else acting in between.
  function Deliver(row: Job, existing: Option<JobAttempt>, n: nat, maxAttempts: nat, payload: Json,
                   startedAt: Time, completedAt: Time): (d: Delivered)
    requires n >= 1
    ensures existing.Some? && (existing.value.status.Completed? || existing.value.status.Failed?) ==>
      d == Delivered(row, existing.value, true)
    ensures !(existing.Some? && (existing.value.status.Completed? || existing.value.status.Failed?)) ==>
      var error := Outcome(payload, n);
      var status := if error.None? then JobStatus.Completed
                    else if n >= maxAttempts then JobStatus.Failed else JobStatus.Queued;
      && d.rejected == error.Some?
      && d.attempt == JobAttempt(
           if error.Some? then AttemptStatus.Failed else AttemptStatus.Completed,
           error,
           if existing.Some? then existing.value.startedAt else startedAt,
           Some(completedAt),
           Some(completedAt - startedAt))
      && d.row == row.(
           status := status,
           startedAt := if row.startedAt.Some? then row.startedAt else Some(startedAt),
           retryCount := if error.Some? then n else n - 1,
           lastError := error,
           failedAt := if status.Failed? then Some(completedAt) else None,
           completedAt := if status.Completed? then Some(completedAt) else row.completedAt,
           processingTimeMs := if status.Completed? then Some(completedAt - startedAt) else row.processingTimeMs)
  {
    if existing.Some? && existing.value.Terminal() then Delivered(row, existing.value, true)
    else
      var running := Upsert(existing, StartOf(existing), startedAt);
      var processing := row.MarkProcessing(row.startedAt, startedAt);
      var error := Outcome(payload, n);
      var elapsedMs := completedAt - startedAt;
      Delivered(
        FinishJob(processing, n, maxAttempts, completedAt, elapsedMs, error),
        FinishAttempt(running, completedAt, elapsedMs, error),
        error.Some?)
  }

  // How far the delivery of attempt `n` has got, in terms of the row and the attempts it found.
  ghost predicate Underway(lane: Lane, row: Job, attempts: Attempts, n: nat, began: Time, now: Time) {
    var existing := Lookup(attempts, n);
    && n >= 1
    && lane.worker.Some?
    && var w := lane.worker.value;
    && w.attemptNumber == n && w.maxAttempts == row.maxAttempts && w.payload == row.payload
    && match w.pc
       case Picked => lane.row == row && lane.attempts == attempts
       case ToReadAttempt(startedAt) => lane.row == row && lane.attempts == attempts && began <= startedAt <= now
       case ToUpsertAttempt(startedAt, read) =>
         lane.row == row && lane.attempts == attempts && began <= startedAt <= now
         && read == StartOf(existing) && (existing.Some? ==> !existing.value.Terminal())
       case ToReadJob(startedAt) =>
         lane.row == row && Open(lane.attempts, attempts, n, startedAt) && began <= startedAt <= now
       case ToUpdateJob(startedAt, read) =>
         lane.row == row && Open(lane.attempts, attempts, n, startedAt) && began <= startedAt <= now
         && read == row.startedAt
       case Working(startedAt, since) =>
         lane.row == row.MarkProcessing(row.startedAt, startedAt) && Open(lane.attempts, attempts, n, startedAt)
         && began <= startedAt <= since <= now
       case ToFinishAttempt(startedAt, completedAt, error) =>
         lane.row == row.MarkProcessing(row.startedAt, startedAt) && Open(lane.attempts, attempts, n, startedAt)
         && began <= startedAt <= completedAt <= now && error == Outcome(row.payload, n)
       case ToFinishJob(startedAt, completedAt, error) =>
         && lane.row == row.MarkProcessing(row.startedAt, startedAt)
         && (existing.Some? ==> !existing.value.Terminal())
         && began <= startedAt <= completedAt <= now && error == Outcome(row.payload, n)
         && lane.attempts == attempts[
              n := Deliver(row, existing, n, row.maxAttempts, row.payload, startedAt, completedAt).attempt]
       case Settled(rejected) =>
         exists startedAt, completedAt ::
           DoneBetween(lane.row, lane.attempts, row, attempts, n, startedAt, completedAt, rejected, began, now)
  }

  ghost predicate Open(current: Attempts, attempts: Attempts, n: nat, startedAt: Time) {
    var existing := Lookup(attempts, n);
    && (existing.Some? ==> !existing.value.Terminal())
    && current == attempts[n := Upsert(existing, StartOf(existing), startedAt)]
  }

  ghost predicate DoneBetween(rowAfter: Job, attemptsAfter: Attempts, row: Job, attempts: Attempts, n: nat,
                              startedAt: Time, completedAt: Time, rejected: bool, began: Time, now: Time)
    requires n >= 1
  {
    var d := Deliver(row, Lookup(attempts, n), n, row.maxAttempts, row.payload, startedAt, completedAt);
    && began <= startedAt <= completedAt <= now
    && rowAfter == d.row
    && attemptsAfter == attempts[n := d.attempt]
    && rejected == d.rejected
  }

  // The next step of the worker, with nothing else happening, carries the delivery on.
  lemma AdvanceCarriesOn(cfg: Config, lane: Lane, row: Job, attempts: Attempts, n: nat, began: Time, now: Time)
    requires Underway(lane, row, attempts, n, began, now) && !lane.worker.value.pc.Settled? && began <= now
    ensures Underway(AdvanceWorker(cfg, lane, now), row, attempts, n, began, now)
  {
    hide Outcome;
    var after := AdvanceWorker(cfg, lane, now);
    match lane.worker.value.pc
    case ToReadAttempt(startedAt) =>
      if n in attempts && attempts[n].Terminal() {
        assert attempts[n := attempts[n]] == attempts;
        assert DoneBetween(after.row, after.attempts, row, attempts, n, startedAt, startedAt, true, began, now);
      }
    case ToFinishAttempt(startedAt, completedAt, error) => FinishingCarriesOn(cfg, lane, row, attempts, n, began, now);
    case ToFinishJob(startedAt, completedAt, error) =>
      assert DoneBetween(after.row, after.attempts, row, attempts, n, startedAt, completedAt, error.Some?, began, now);
    case _ =>
  }

  lemma FinishingCarriesOn(cfg: Config, lane: Lane, row: Job, attempts: Attempts, n: nat, began: Time, now: Time)
    requires Underway(lane, row, attempts, n, began, now) && lane.worker.value.pc.ToFinishAttempt?
    ensures Underway(AdvanceWorker(cfg, lane, now), row, attempts, n, began, now)
  {
    hide Outcome;
    hide FinishJob;
  }

  // The delivery of attempt `n` is over for good.
  ghost predicate Past(lane: Lane, n: nat) {
    && lane.creator.Accepted?
    && (lane.entry.Some? ==>
          var e := lane.entry.value;
          e.state.Completed? || e.state.Failed? || e.attemptsMade >= n)
  }

  // The worker's own faults: it dies, or one of its calls is rejected.
  predicate CutsShort(op: Op) {
    op.WorkerDies? || op.WorkerRejects?
  }

  // While a worker holds a job, everybody else's steps leave its row, its attempts, its entry and
  // the delivery alone; and the faults of the worker itself write nothing.
  lemma OthersDoNotDisturb(cfg: Config, lane: Lane, now: Time, op: Op)
    requires !cfg.lossyAdd && Structural(lane) && GrantIsFinal(lane) && FailedIsFinal(lane)
    requires lane.worker.Some? && !op.Advance?
    ensures var after := LaneStep(cfg, lane, now, op);
      && after.row == lane.row && after.attempts == lane.attempts && after.entry == lane.entry
      && (after.worker == lane.worker || (cfg.faults && CutsShort(op)))
  {
  }

  lemma StepCarriesOn(cfg: Config, lane: Lane, row: Job, attempts: Attempts, n: nat, began: Time, now: Time, op: Op)
    requires !cfg.lossyAdd && Structural(lane) && GrantIsFinal(lane) && FailedIsFinal(lane) && began <= now
    requires cfg.faults ==> !CutsShort(op)
    requires Underway(lane, row, attempts, n, began, now) || Past(lane, n)
    ensures var after := LaneStep(cfg, lane, now, op); Underway(after, row, attempts, n, began, now) || Past(after, n)
  {
    hide Outcome;
    hide AdvanceWorker;
    if Past(lane, n) {
      PastStays(cfg, lane, n, now, op);
    } else if !op.Advance? {
      OthersDoNotDisturb(cfg, lane, now, op);
      hide LaneStep;
    } else if lane.worker.value.pc.Settled? {
      AnswerIsPast(cfg, lane, now);
    } else {
      AdvanceCarriesOn(cfg, lane, row, attempts, n, began, now);
    }
  }

  lemma PastStays(cfg: Config, lane: Lane, n: nat, now: Time, op: Op)
    requires Structural(lane) && Past(lane, n)
    ensures Past(LaneStep(cfg, lane, now, op), n)
  {
    hide Outcome;
  }

  lemma AnswerIsPast(cfg: Config, lane: Lane, now: Time)
    requires Structural(lane) && FailedIsFinal(lane)
    requires lane.worker.Some? && lane.worker.value.pc.Settled?
    ensures Past(AdvanceWorker(cfg, lane, now), lane.worker.value.attemptNumber)
  {
  }

  lemma {:induction false} RunCarriesOn(cfg: Config, s: State, actions: seq<Action>, id: JobId, row: Job,
                                        attempts: Attempts, n: nat, began: Time)
    requires !cfg.lossyAdd && Reachable(cfg, s) && id in s.lanes && began <= s.clock
    requires cfg.faults ==> Uncut(actions, id)
    requires Underway(s.lanes[id], row, attempts, n, began, s.clock) || Past(s.lanes[id], n)
    ensures var after := Run(cfg, s, actions);
      && id in after.lanes
      && (Underway(after.lanes[id], row, attempts, n, began, after.clock) || Past(after.lanes[id], n))
    decreases |actions|
  {
    hide LaneStep;
    hide Structural;
    hide GrantIsFinal;
    hide FailedIsFinal;
    hide Past;
    if actions != [] {
      var a := actions[0];
      var next := Step(cfg, s, a);
      LaneUnderAtomicAdds(cfg, s, id);
      StepReaches(cfg, s, a);
      if a.At? && a.id == id {
        StepCarriesOn(cfg, s.lanes[id], row, attempts, n, began, s.clock, a.op);
      } else if a.Tick? && !Past(s.lanes[id], n) {
        TimeCarriesOn(s.lanes[id], row, attempts, n, began, s.clock, next.clock);
      }
      hide Underway;
      RunCarriesOn(cfg, next, actions[1..], id, row, attempts, n, began);
    }
  }

  lemma TimeCarriesOn(lane: Lane, row: Job, attempts: Attempts, n: nat, began: Time, now: Time, later: Time)
    requires Underway(lane, row, attempts, n, began, now) && now <= later
    ensures Underway(lane, row, attempts, n, began, later)
  {
    hide Outcome;
    hide Deliver;
    if lane.worker.value.pc.Settled? {
      var rejected := lane.worker.value.pc.rejected;
      var startedAt, completedAt :|
        DoneBetween(lane.row, lane.attempts, row, attempts, n, startedAt, completedAt, rejected, began, now);
      assert DoneBetween(lane.row, lane.attempts, row, attempts, n, startedAt, completedAt, rejected, began, later);
    }
  }

  // No worker of this job dies or has a call rejected.
  ghost predicate Uncut(actions: seq<Action>, id: JobId) {
    forall i :: 0 <= i < |actions| ==> !(actions[i].At? && actions[i].id == id && CutsShort(actions[i].op))
  }

  // Interleaved deliveries are atomic: from the moment a worker has picked a job until the
  // queue hears the result, any number of steps of all other actors leaves exactly what one
  // uninterrupted delivery between two clock readings would have left. Everybody may fail
  // meanwhile but the worker itself, and the job may have been through any faults before.
  lemma DeliveriesAreAtomic(cfg: Config, s: State, actions: seq<Action>, id: JobId)
    requires !cfg.lossyAdd && Reachable(cfg, s)
    requires id in s.lanes && s.lanes[id].worker.Some? && s.lanes[id].worker.value.pc.Picked?
    requires cfg.faults ==> Uncut(actions, id)
    ensures var before := s.lanes[id]; var w := before.worker.value; var t := Run(cfg, s, actions);
      && id in t.lanes
      && (t.lanes[id].worker.Some? && t.lanes[id].worker.value.pc.Settled?
          && t.lanes[id].worker.value.attemptNumber == w.attemptNumber ==>
            w.attemptNumber >= 1 &&
            exists startedAt, completedAt ::
              DoneBetween(t.lanes[id].row, t.lanes[id].attempts, before.row, before.attempts, w.attemptNumber,
                          startedAt, completedAt, t.lanes[id].worker.value.pc.rejected, s.clock, t.clock))
  {
    hide Structural;
    hide GrantIsFinal;
    hide FailedIsFinal;
    hide Past;
    var before := s.lanes[id];
    var n := before.worker.value.attemptNumber;
    LaneUnderAtomicAdds(cfg, s, id);
    BeginsUnderway(before, s.clock);
    RunCarriesOn(cfg, s, actions, id, before.row, before.attempts, n, s.clock);
    var t := Run(cfg, s, actions);
    RunReaches(cfg, s, actions);
    LaneUnderAtomicAdds(cfg, t, id);
    if t.lanes[id].worker.Some? {
      HeldIsNotPast(t.lanes[id]);
    }
  }

  lemma BeginsUnderway(lane: Lane, now: Time)
    requires Structural(lane) && lane.worker.Some? && lane.worker.value.pc.Picked?
    ensures Underway(lane, lane.row, lane.attempts, lane.worker.value.attemptNumber, now, now)
  {
  }

  lemma HeldIsNotPast(lane: Lane)
    requires Structural(lane) && lane.worker.Some?
    ensures !Past(lane, lane.worker.value.attemptNumber)
  {
  }
}
