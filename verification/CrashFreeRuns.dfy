// Guarantees of crash-free runs: any number of API calls and workers interleave freely, adds
// are atomic, and the queue removes only entries that still wait.
module CrashFreeRuns {
  import opened Wrappers
  import opened Simulation
  import opened Records
  import opened Lifecycle
  import opened Orderly
  import opened Timing
  import opened Reach
  import opened FaultyRuns

  // ---------- The row is a fold of the attempt history ----------

  function FailedNumbers(attempts: Attempts): set<nat> {
    set i | i in attempts && attempts[i].status.Failed?
  }

  function CompletedNumbers(attempts: Attempts): set<nat> {
    set i | i in attempts && attempts[i].status.Completed?
  }

  // The row recomputed from the attempt rows alone; an undecided job keeps its status.
  function FromHistory(row: Job, attempts: Attempts): Job {
    var n := |attempts|;
    var failed := |FailedNumbers(attempts)|;
    var completed := CompletedNumbers(attempts) != {};
    var exhausted := failed == row.maxAttempts;
    var last := if n in attempts then Some(attempts[n]) else None;
    row.(
      status := if completed then JobStatus.Completed else if exhausted then JobStatus.Failed else row.status,
      retryCount := failed,
      startedAt := if 1 in attempts then Some(attempts[1].startedAt) else None,
      lastError := if completed || last.None? then None else last.value.errorMessage,
      completedAt := if completed && last.Some? then last.value.completedAt else None,
      processingTimeMs := if completed && last.Some? then last.value.processingTimeMs else None,
      failedAt := if exhausted && last.Some? then last.value.completedAt else None)
  }

  function Numbers(k: nat): (r: set<nat>)
    ensures forall i :: i in r <==> 1 <= i <= k
    ensures |r| == k
  {
    if k == 0 then {} else Numbers(k - 1) + {k}
  }

  lemma SizeOfNumbered(attempts: Attempts, m: nat)
    requires NumberedUpTo(attempts, m)
    ensures |attempts| == m
  {
    assert attempts.Keys == Numbers(m);
    assert |attempts| == |attempts.Keys|;
  }

  lemma HistoryOfFailures(payload: Json, attempts: Attempts, k: nat)
    requires NumberedUpTo(attempts, k) && FailedUpTo(payload, attempts, k)
    ensures |attempts| == k && |FailedNumbers(attempts)| == k && CompletedNumbers(attempts) == {}
  {
    hide FinishedAttempt;
    SizeOfNumbered(attempts, k);
    assert FailedNumbers(attempts) == Numbers(k);
  }

  lemma HistoryOfSuccess(payload: Json, attempts: Attempts, k: nat)
    requires NumberedUpTo(attempts, k + 1) && FailedUpTo(payload, attempts, k)
    requires !attempts[k + 1].status.Failed?
    ensures |attempts| == k + 1 && |FailedNumbers(attempts)| == k
    ensures CompletedNumbers(attempts) == if attempts[k + 1].status.Completed? then {k + 1} else {}
  {
    hide FinishedAttempt;
    SizeOfNumbered(attempts, k + 1);
    assert FailedNumbers(attempts) == Numbers(k);
  }

  lemma LaneAtRest(lane: Lane)
    requires LaneOrderly(lane) && lane.creator.Accepted? && lane.worker.None?
    ensures var row, attempts, k := lane.row, lane.attempts, lane.row.retryCount;
      match row.status
      case Completed => SucceededAfter(row, attempts, k) && k < row.maxAttempts
      case Failed => Exhausted(row, attempts)
      case Queued => Resting(row, attempts, k) && k < row.maxAttempts
      case Cancelled => Resting(row, attempts, k) && k < row.maxAttempts
      case Processing => false
    ensures lane.row.cancelledAt.Some? <==> lane.row.status.Cancelled?
  {
    hide FinishedAttempt;
  }

  lemma FoldOfSuccess(row: Job, attempts: Attempts)
    requires SucceededAfter(row, attempts, row.retryCount) && row.retryCount < row.maxAttempts
    ensures row == FromHistory(row, attempts) && CompletedNumbers(attempts) != {}
  {
    hide Outcome;
    HistoryOfSuccess(row.payload, attempts, row.retryCount);
  }

  lemma FoldOfExhaustion(row: Job, attempts: Attempts)
    requires Exhausted(row, attempts)
    ensures row == FromHistory(row, attempts) && |FailedNumbers(attempts)| == row.maxAttempts
  {
    hide Outcome;
    HistoryOfFailures(row.payload, attempts, row.maxAttempts);
  }

  lemma FoldOfResting(row: Job, attempts: Attempts)
    requires Resting(row, attempts, row.retryCount) && row.retryCount < row.maxAttempts
    ensures row == FromHistory(row, attempts)
  {
    hide Outcome;
    HistoryOfFailures(row.payload, attempts, row.retryCount);
  }

  // Whenever no delivery of the job is in progress, its row is exactly the fold of its attempts,
  // and a job that has neither succeeded nor exhausted its attempts is queued or cancelled.
  lemma RowFoldsHistory(cfg: Config, s: State, id: JobId)
    requires cfg.CrashFree() && Reachable(cfg, s)
    requires id in s.lanes && s.lanes[id].creator.Accepted? && s.lanes[id].worker.None?
    ensures var lane := s.lanes[id];
      && lane.row == FromHistory(lane.row, lane.attempts)
      && (CompletedNumbers(lane.attempts) == {} && |FailedNumbers(lane.attempts)| < lane.row.maxAttempts ==>
            lane.row.status.Queued? || lane.row.status.Cancelled?)
      && (lane.row.cancelledAt.Some? <==> lane.row.status.Cancelled?)
  {
    hide LaneOrderly;
    var lane := s.lanes[id];
    LaneIsOrderly(cfg, s, id);
    LaneAtRest(lane);
    if lane.row.status.Completed? {
      FoldOfSuccess(lane.row, lane.attempts);
    } else if lane.row.status.Failed? {
      FoldOfExhaustion(lane.row, lane.attempts);
    } else {
      FoldOfResting(lane.row, lane.attempts);
    }
  }

  ghost predicate LastAttemptOpen(row: Job, attempts: Attempts, k: nat) {
    && NumberedUpTo(attempts, k + 1) && FailedUpTo(row.payload, attempts, k)
    && k + 1 <= row.maxAttempts && !attempts[k + 1].status.Failed?
  }

  ghost predicate AllFailed(row: Job, attempts: Attempts, k: nat) {
    NumberedUpTo(attempts, k) && FailedUpTo(row.payload, attempts, k) && k <= row.maxAttempts
  }

  lemma ShapeOfHistory(lane: Lane)
    requires LaneOrderly(lane)
    ensures var k := lane.row.retryCount;
      || AllFailed(lane.row, lane.attempts, k)
      || AllFailed(lane.row, lane.attempts, k + 1)
      || LastAttemptOpen(lane.row, lane.attempts, k)
  {
    hide FinishedAttempt;
    var k := lane.row.retryCount;
    if lane.worker.Some? && lane.worker.value.pc.ToFinishJob? {
      assert NumberedUpTo(lane.attempts, k + 1);
      if lane.attempts[k + 1].status.Failed? {
        FailedOneMore(lane.row.payload, lane.attempts, k);
      }
    }
  }

  lemma FailedOneMore(payload: Json, attempts: Attempts, k: nat)
    requires k + 1 in attempts && FinishedAttempt(payload, k + 1, attempts[k + 1]) && attempts[k + 1].status.Failed?
    requires FailedUpTo(payload, attempts, k)
    ensures FailedUpTo(payload, attempts, k + 1)
  {
    hide FinishedAttempt;
  }

  // Attempt rows are numbered 1..n with n at most maxAttempts, all before the last have failed,
  // at most one has completed, and retryCount lags the failed rows by at most one, even while
  // a delivery is in progress.
  lemma AttemptsAreNumbered(cfg: Config, s: State, id: JobId)
    requires cfg.CrashFree() && Reachable(cfg, s) && id in s.lanes
    ensures var attempts := s.lanes[id].attempts; var row := s.lanes[id].row; var n := |attempts|;
      && NumberedUpTo(attempts, n)
      && n <= row.maxAttempts
      && (forall i :: 1 <= i < n ==> attempts[i].status.Failed?)
      && |CompletedNumbers(attempts)| <= 1
      && row.retryCount <= |FailedNumbers(attempts)| <= row.retryCount + 1
  {
    hide FinishedAttempt;
    hide LaneOrderly;
    var lane := s.lanes[id];
    LaneIsOrderly(cfg, s, id);
    var k := lane.row.retryCount;
    ShapeOfHistory(lane);
    if AllFailed(lane.row, lane.attempts, k) {
      HistoryOfFailures(lane.row.payload, lane.attempts, k);
    } else if AllFailed(lane.row, lane.attempts, k + 1) {
      HistoryOfFailures(lane.row.payload, lane.attempts, k + 1);
    } else {
      HistoryOfSuccess(lane.row.payload, lane.attempts, k);
    }
  }

  lemma LaneRecords(lane: Lane, n: nat)
    requires LaneOrderly(lane) && n in lane.attempts
    ensures lane.attempts[n].Terminal() ==> FinishedAttempt(lane.row.payload, n, lane.attempts[n])
    ensures !lane.attempts[n].Terminal() ==> lane.worker.Some? && lane.worker.value.attemptNumber == n
  {
    hide FinishedAttempt;
  }

  // Every finished attempt row records the outcome the payload gives that attempt, its message
  // and its duration; an unfinished one belongs to the delivery in progress.
  lemma AttemptsRecordOutcomes(cfg: Config, s: State, id: JobId, n: nat)
    requires cfg.CrashFree() && Reachable(cfg, s)
    requires id in s.lanes && n in s.lanes[id].attempts
    ensures var lane := s.lanes[id]; var a := lane.attempts[n]; var outcome := Outcome(lane.row.payload, n);
      if a.Terminal() then
        && a.completedAt.Some? && a.processingTimeMs == Some(a.completedAt.value - a.startedAt)
        && a.errorMessage == outcome
        && (a.status.Failed? <==> outcome.Some?)
      else
        lane.worker.Some? && lane.worker.value.attemptNumber == n
  {
    hide Outcome;
    hide LaneOrderly;
    LaneIsOrderly(cfg, s, id);
    LaneRecords(s.lanes[id], n);
  }

  // ---------- Statuses ----------

  // The documented transitions, and the failure to enqueue.
  predicate Documented(from: JobStatus, to: JobStatus) {
    || from == to
    || (from.Queued? && (to.Processing? || to.Cancelled?))
    || (from.Processing? && (to.Completed? || to.Queued? || to.Failed?))
  }

  predicate EnqueueFailure(lane: Lane, after: Lane) {
    lane.row.status.Queued? && after.row.status.Failed? && lane.entry.None? && lane.attempts == map[]
  }

  lemma AdvanceMovesStatus(cfg: Config, lane: Lane, now: Time)
    requires LaneOrderly(lane) && lane.worker.Some?
    ensures var after := AdvanceWorker(cfg, lane, now);
      Documented(lane.row.status, after.row.status) && (lane.row.Terminal() ==> after.row == lane.row)
  {
    hide Outcome;
    hide NumberedUpTo;
    hide CountsFailures;
    hide FailedUpTo;
    hide StartsWithFirst;
    hide FinishedAttempt;
  }

  lemma LaneStatusMoves(cfg: Config, lane: Lane, now: Time, op: Op)
    requires cfg.CrashFree() && LaneOrderly(lane)
    ensures var after := LaneStep(cfg, lane, now, op);
      && (Documented(lane.row.status, after.row.status) || EnqueueFailure(lane, after))
      && (lane.row.Terminal() && !op.CancelMark? ==> after.row == lane.row)
      && (lane.row.Terminal() ==>
            after.row == lane.row
            || (lane.row.status.Cancelled? && after.row == lane.row.(cancelledAt := Some(now))))
  {
    hide AdvanceWorker;
    hide InDelivery;
    hide CountsFailures;
    hide StartsWithFirst;
    match op
    case Advance => if lane.worker.Some? { AdvanceMovesStatus(cfg, lane, now); }
    case _ =>
  }

  // Every step of every interleaving moves a status along the documented table only, apart from
  // a job that could not be enqueued, although no write checks the status it overwrites. No step
  // changes a terminal row, except that a second cancellation that the queue has granted too
  // stamps a CANCELLED row anew.
  lemma StatusMovesAlongTable(cfg: Config, s: State, a: Action, id: JobId)
    requires cfg.CrashFree() && Reachable(cfg, s) && id in s.lanes
    ensures var lane := s.lanes[id]; var after := Step(cfg, s, a).lanes[id];
      && (Documented(lane.row.status, after.row.status) || EnqueueFailure(lane, after))
      && (lane.row.Terminal() && !(a.At? && a.id == id && a.op.CancelMark?) ==> after.row == lane.row)
      && (lane.row.Terminal() ==>
            after.row == lane.row
            || (lane.row.status.Cancelled? && after.row == lane.row.(cancelledAt := Some(s.clock))))
  {
    hide LaneStep;
    hide LaneOrderly;
    hide EnqueueFailure;
    LaneIsOrderly(cfg, s, id);
    if a.At? && a.id == id {
      LaneStatusMoves(cfg, s.lanes[id], s.clock, a.op);
    }
  }

  // ---------- Cancellation ----------

  // A cancellation that the queue has granted finds the row still QUEUED (or already CANCELLED
  // by another call that was granted too), with no entry left and no worker on the job.
  lemma GrantedCancelFindsQueued(cfg: Config, s: State, id: JobId, c: nat)
    requires cfg.CrashFree() && Reachable(cfg, s)
    requires id in s.lanes && CancelAt(s.lanes[id], c, ToMark)
    ensures var lane := s.lanes[id];
      && lane.entry.None? && lane.worker.None?
      && (lane.row.status.Queued? || lane.row.status.Cancelled?)
      && (!cfg.removeMissing ==> lane.row.status.Queued?)
  {
    hide Resting;
    var lane := s.lanes[id];
    LaneIsOrderly(cfg, s, id);
    assert lane.cancels[c].Granted();
    if !cfg.removeMissing {
      OneGrantOnly(cfg, s, id);
      var d :| GrantedBy(lane, d);
      assert lane.cancels[d].Granted();
    }
  }

  // ---------- The two stores agree when nothing is in flight ----------

  // No call and no worker is at work on the job.
  ghost predicate Quiet(lane: Lane) {
    && lane.worker.None?
    && !lane.creator.ToEnqueue? && !lane.creator.ToMarkEnqueueFailed?
    && (forall c :: c in lane.cancels ==> lane.cancels[c].Succeeded? || lane.cancels[c].Refused?)
  }

  function WithStatus(s: State, status: JobStatus): set<JobId> {
    set id | id in s.lanes && s.lanes[id].row.status == status
  }

  function WithEntry(s: State, state: EntryState): set<JobId> {
    set id | id in s.lanes && s.lanes[id].entry.Some? && s.lanes[id].entry.value.state == state
  }

  lemma QuietLaneAgrees(lane: Lane)
    requires LaneOrderly(lane) && Quiet(lane)
    ensures lane.row.status.Queued? <==>
      lane.entry.Some? && (lane.entry.value.state.Waiting? || lane.entry.value.state.Delayed?)
    ensures lane.row.status.Completed? <==> lane.entry.Some? && lane.entry.value.state.Completed?
    ensures lane.row.status.Failed? <==>
      (lane.entry.Some? && lane.entry.value.state.Failed?) || lane.creator.Rejected?
    ensures lane.entry.Some? ==> !lane.creator.Rejected?
    ensures lane.row.status.Cancelled? <==> lane.creator.Accepted? && lane.entry.None?
    ensures !lane.row.status.Processing? && (lane.entry.Some? ==> !lane.entry.value.state.Active?)
  {
    hide FailedUpTo;
    hide FinishedAttempt;
    hide NumberedUpTo;
    if lane.entry.None? && lane.creator.Accepted? {
      var c :| GrantedBy(lane, c);
    }
  }

  ghost predicate QuietAndOrderly(s: State) {
    forall id :: id in s.lanes ==> Quiet(s.lanes[id]) && LaneOrderly(s.lanes[id])
  }

  lemma QuietLaneInStores(s: State, id: JobId)
    requires QuietAndOrderly(s) && id in s.lanes
    ensures id in WithStatus(s, JobStatus.Queued) <==>
      id in WithEntry(s, EntryState.Waiting) || id in WithEntry(s, EntryState.Delayed)
    ensures id in WithStatus(s, JobStatus.Completed) <==> id in WithEntry(s, EntryState.Completed)
    ensures id in WithStatus(s, JobStatus.Failed) <==>
      id in WithEntry(s, EntryState.Failed) || id in EnqueueFailures(s)
    ensures !(id in WithEntry(s, EntryState.Failed) && id in EnqueueFailures(s))
    ensures id !in WithEntry(s, EntryState.Active) && id !in WithStatus(s, JobStatus.Processing)
  {
    QuietLaneAgrees(s.lanes[id]);
  }

  lemma QuietStores(s: State)
    requires QuietAndOrderly(s)
    ensures WithStatus(s, JobStatus.Queued) == WithEntry(s, EntryState.Waiting) + WithEntry(s, EntryState.Delayed)
    ensures WithStatus(s, JobStatus.Completed) == WithEntry(s, EntryState.Completed)
    ensures WithStatus(s, JobStatus.Failed) == WithEntry(s, EntryState.Failed) + EnqueueFailures(s)
    ensures WithEntry(s, EntryState.Failed) !! EnqueueFailures(s)
    ensures WithStatus(s, JobStatus.Processing) == WithEntry(s, EntryState.Active) == {}
  {
    hide QuietAndOrderly;
    forall id | id in s.lanes
      ensures id in WithStatus(s, JobStatus.Queued) <==>
        id in WithEntry(s, EntryState.Waiting) || id in WithEntry(s, EntryState.Delayed)
      ensures id in WithStatus(s, JobStatus.Completed) <==> id in WithEntry(s, EntryState.Completed)
      ensures id in WithStatus(s, JobStatus.Failed) <==>
        id in WithEntry(s, EntryState.Failed) || id in EnqueueFailures(s)
      ensures !(id in WithEntry(s, EntryState.Failed) && id in EnqueueFailures(s))
      ensures id !in WithEntry(s, EntryState.Active) && id !in WithStatus(s, JobStatus.Processing)
    {
      QuietLaneInStores(s, id);
    }
  }

  lemma DisjointSizes(a: set<JobId>, b: set<JobId>)
    requires a !! b
    ensures |a + b| == |a| + |b|
  {
  }

  // Every job is in exactly one of the five statuses.
  lemma StatusesPartition(s: State)
    ensures |s.lanes| == |WithStatus(s, JobStatus.Queued)| + |WithStatus(s, JobStatus.Processing)|
      + |WithStatus(s, JobStatus.Completed)| + |WithStatus(s, JobStatus.Failed)| + |WithStatus(s, JobStatus.Cancelled)|
  {
    var q, p := WithStatus(s, JobStatus.Queued), WithStatus(s, JobStatus.Processing);
    var c, f := WithStatus(s, JobStatus.Completed), WithStatus(s, JobStatus.Failed);
    var x := WithStatus(s, JobStatus.Cancelled);
    DisjointSizes(q, p);
    DisjointSizes(q + p, c);
    DisjointSizes(q + p + c, f);
    DisjointSizes(q + p + c + f, x);
    AllStatuses(s);
  }

  lemma AllStatuses(s: State)
    ensures s.lanes.Keys == WithStatus(s, JobStatus.Queued) + WithStatus(s, JobStatus.Processing)
      + WithStatus(s, JobStatus.Completed) + WithStatus(s, JobStatus.Failed) + WithStatus(s, JobStatus.Cancelled)
    ensures |s.lanes| == |s.lanes.Keys|
  {
    forall id | id in s.lanes
      ensures id in WithStatus(s, s.lanes[id].row.status)
    {
    }
  }

  // With nothing in flight, the rows of each status are exactly the jobs whose entry the queue
  // holds in the matching states; the failed rows are those and the jobs whose enqueue failed.
  // No queued row is orphaned, no entry is left without its row, nothing is still being
  // processed, and every remaining row is cancelled.
  lemma StoresAgree(cfg: Config, s: State)
    requires cfg.CrashFree() && Reachable(cfg, s)
    requires forall id :: id in s.lanes ==> Quiet(s.lanes[id])
    ensures WithStatus(s, JobStatus.Queued) == WithEntry(s, EntryState.Waiting) + WithEntry(s, EntryState.Delayed)
    ensures WithStatus(s, JobStatus.Completed) == WithEntry(s, EntryState.Completed)
    ensures WithStatus(s, JobStatus.Failed) == WithEntry(s, EntryState.Failed) + EnqueueFailures(s)
    ensures WithStatus(s, JobStatus.Processing) == WithEntry(s, EntryState.Active) == {}
    ensures |WithStatus(s, JobStatus.Queued)| == |WithEntry(s, EntryState.Waiting)| + |WithEntry(s, EntryState.Delayed)|
    ensures |WithStatus(s, JobStatus.Failed)| == |WithEntry(s, EntryState.Failed)| + |EnqueueFailures(s)|
    ensures |WithStatus(s, JobStatus.Cancelled)| == |s.lanes| - |WithStatus(s, JobStatus.Queued)|
      - |WithStatus(s, JobStatus.Completed)| - |WithStatus(s, JobStatus.Failed)|
  {
    hide Quiet;
    hide LaneOrderly;
    forall id | id in s.lanes
      ensures LaneOrderly(s.lanes[id])
    {
      LaneIsOrderly(cfg, s, id);
    }
    QuietStores(s);
    StatusesPartition(s);
    assert WithEntry(s, EntryState.Waiting) !! WithEntry(s, EntryState.Delayed);
  }

  // ---------- Time ----------

  // Attempts never overlap, run in the order of their numbers, and attempt j starts at least
  // base * (2^(j-1) - 1) milliseconds, plus the simulated work before it, after attempt 1.
  lemma AttemptsAreSpaced(cfg: Config, s: State, id: JobId, i: nat, j: nat)
    requires cfg.CrashFree() && Reachable(cfg, s)
    requires id in s.lanes && i < j && i in s.lanes[id].attempts && j in s.lanes[id].attempts
    ensures var attempts := s.lanes[id].attempts;
      && attempts[i].completedAt.Some?
      && attempts[i].startedAt <= attempts[i].completedAt.value <= attempts[j].startedAt <= s.clock
      && 1 in attempts
      && attempts[j].startedAt >= attempts[1].startedAt + LeastGap(cfg, j)
  {
    AttemptsAreNumbered(cfg, s, id);
    var lane := s.lanes[id];
    LaneIsPaced(cfg, s, id);
    EndsBeforeNext(cfg, lane.attempts, s.clock, i, j);
    StartsAfterBackoffs(cfg, lane.attempts, s.clock, j);
  }
}
