// The instants of crash-free runs: attempts follow one another, each at least the backoff
// after the one before it.
module Timing {
  import opened Records
  import opened Lifecycle
  import opened Orderly

  // Attempt i is over by `t` and its backoff has passed.
  ghost predicate ReadyAfter(cfg: Config, attempts: Attempts, i: nat, t: Time) {
    i in attempts && attempts[i].completedAt.Some? ==>
      attempts[i].completedAt.value + Backoff(cfg.backoffDelayMs, i) <= t
  }

  ghost predicate RanFor(cfg: Config, a: JobAttempt, now: Time) {
    && a.startedAt <= now
    && (a.completedAt.Some? ==> a.startedAt + cfg.processingDelayMs <= a.completedAt.value <= now)
  }

  // Consecutive attempts are separated by the backoff of the earlier one.
  ghost predicate Separated(cfg: Config, attempts: Attempts) {
    forall i :: i in attempts && i + 1 in attempts ==>
      attempts[i].completedAt.Some? && ReadyAfter(cfg, attempts, i, attempts[i + 1].startedAt)
  }

  // The clock readings a delivery of attempt k + 1 holds.
  ghost predicate Clocked(cfg: Config, attempts: Attempts, k: nat, pc: WorkerPc, now: Time) {
    match pc
    case Picked => ReadyAfter(cfg, attempts, k, now)
    case ToReadAttempt(startedAt) => ReadyAfter(cfg, attempts, k, startedAt) && startedAt <= now
    case ToUpsertAttempt(startedAt, _) => ReadyAfter(cfg, attempts, k, startedAt) && startedAt <= now
    case ToReadJob(startedAt) => startedAt <= now
    case ToUpdateJob(startedAt, _) => startedAt <= now
    case Working(startedAt, since) => startedAt <= since <= now
    case ToFinishAttempt(startedAt, completedAt, _) => startedAt + cfg.processingDelayMs <= completedAt <= now
    case ToFinishJob(_, _, _) => true
    case Settled(_) => true
  }

  ghost predicate Paced(cfg: Config, lane: Lane, now: Time) {
    && (forall i :: i in lane.attempts ==> RanFor(cfg, lane.attempts[i], now))
    && Separated(cfg, lane.attempts)
    && match lane.entry
       case None => true
       case Some(e) =>
         match e.state
         case Delayed => ReadyAfter(cfg, lane.attempts, e.attemptsMade, e.due)
         case Waiting => ReadyAfter(cfg, lane.attempts, e.attemptsMade, now)
         case Active => lane.worker.Some? ==> Clocked(cfg, lane.attempts, e.attemptsMade, lane.worker.value.pc, now)
         case Completed => true
         case Failed => true
  }

  lemma UpsertKeepsPaced(cfg: Config, lane: Lane, now: Time)
    requires LaneOrderly(lane) && Paced(cfg, lane, now)
    requires lane.worker.Some? && lane.worker.value.pc.ToUpsertAttempt?
    ensures Paced(cfg, AdvanceWorker(cfg, lane, now), now)
  {
    hide Outcome;
    hide Backoff;
  }

  lemma FinishAttemptKeepsPaced(cfg: Config, lane: Lane, now: Time)
    requires LaneOrderly(lane) && Paced(cfg, lane, now)
    requires lane.worker.Some? && lane.worker.value.pc.ToFinishAttempt?
    ensures Paced(cfg, AdvanceWorker(cfg, lane, now), now)
  {
    hide FinishedAttempt;
    hide FailedUpTo;
    hide StartsWithFirst;
    hide Outcome;
    hide Backoff;
  }

  // The queue schedules the next delivery no earlier than the backoff after the failed attempt.
  lemma SettledKeepsPaced(cfg: Config, lane: Lane, now: Time)
    requires LaneOrderly(lane) && Paced(cfg, lane, now)
    requires lane.worker.Some? && lane.worker.value.pc.Settled?
    ensures Paced(cfg, AdvanceWorker(cfg, lane, now), now)
  {
    hide Outcome;
    hide Backoff;
  }

  lemma AdvanceKeepsPaced(cfg: Config, lane: Lane, now: Time)
    requires LaneOrderly(lane) && Paced(cfg, lane, now) && lane.worker.Some?
    ensures Paced(cfg, AdvanceWorker(cfg, lane, now), now)
  {
    hide Outcome;
    hide Backoff;
    match lane.worker.value.pc
    case ToUpsertAttempt(_, _) => UpsertKeepsPaced(cfg, lane, now);
    case ToFinishAttempt(_, _, _) => FinishAttemptKeepsPaced(cfg, lane, now);
    case Settled(_) => SettledKeepsPaced(cfg, lane, now);
    case _ =>
  }

  lemma PacedStep(cfg: Config, lane: Lane, now: Time, op: Op)
    requires cfg.CrashFree()
    requires LaneOrderly(lane) && Paced(cfg, lane, now)
    ensures Paced(cfg, LaneStep(cfg, lane, now, op), now)
  {
    hide Outcome;
    hide Backoff;
    match op
    case Advance => if lane.worker.Some? { AdvanceKeepsPaced(cfg, lane, now); }
    case _ =>
  }

  lemma PacedLater(cfg: Config, lane: Lane, now: Time, later: Time)
    requires Paced(cfg, lane, now) && now <= later
    ensures Paced(cfg, lane, later)
  {
    hide Backoff;
  }

  // ---------- Consequences over a whole history ----------

  // The least time between the starts of attempts 1 and n.
  function LeastGap(cfg: Config, n: nat): int
    requires n >= 1
  {
    cfg.backoffDelayMs * (Pow2(n - 1) - 1) + (n - 1) * cfg.processingDelayMs
  }

  lemma LeastGapStep(cfg: Config, n: nat)
    requires n >= 2
    ensures LeastGap(cfg, n) == LeastGap(cfg, n - 1) + cfg.processingDelayMs + Backoff(cfg.backoffDelayMs, n - 1)
  {
    var b: int, p: int, d: int := cfg.backoffDelayMs, Pow2(n - 2), cfg.processingDelayMs;
    assert Pow2(n - 1) == 2 * p;
    assert b * (2 * p - 1) == b * (p - 1) + b * p;
    assert (n - 1) * d == (n - 2) * d + d;
  }

  lemma {:induction false} StartsAfterBackoffs(cfg: Config, attempts: Attempts, now: Time, n: nat)
    requires n >= 1
    requires forall i :: 1 <= i <= n ==> i in attempts && RanFor(cfg, attempts[i], now)
    requires Separated(cfg, attempts)
    ensures attempts[n].startedAt >= attempts[1].startedAt + LeastGap(cfg, n)
  {
    if n > 1 {
      StartsAfterBackoffs(cfg, attempts, now, n - 1);
      LeastGapStep(cfg, n);
      var i := n - 1;
      assert i in attempts && i + 1 in attempts;
      assert ReadyAfter(cfg, attempts, i, attempts[i + 1].startedAt);
    }
  }

  // Every attempt is over before any later one starts.
  lemma {:induction false} EndsBeforeNext(cfg: Config, attempts: Attempts, now: Time, i: nat, j: nat)
    requires 1 <= i < j
    requires forall x :: i <= x <= j ==> x in attempts && RanFor(cfg, attempts[x], now)
    requires Separated(cfg, attempts)
    ensures attempts[i].completedAt.Some? && attempts[i].completedAt.value <= attempts[j].startedAt
    decreases j - i
  {
    assert i in attempts && i + 1 in attempts;
    assert ReadyAfter(cfg, attempts, i, attempts[i + 1].startedAt);
    assert Backoff(cfg.backoffDelayMs, i) >= 0;
    if i + 1 < j {
      EndsBeforeNext(cfg, attempts, now, i + 1, j);
    }
  }
}
