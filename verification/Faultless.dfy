// What holds in every run without faults: with any removals, and whether or not an add that
// reports failure may have added the entry.
module Faultless {
  import opened Wrappers
  import opened Records
  import opened Lifecycle
  import opened Faults

  // ---------- Completed rows ----------

  // A COMPLETED job is never delivered again.
  ghost predicate CompletedIsOver(lane: Lane) {
    lane.row.status.Completed? ==>
      && (lane.worker.Some? ==> lane.worker.value.pc == Settled(false))
      && (lane.entry.Some? ==>
            var state := lane.entry.value.state;
            state.Completed? || (state.Active? && lane.worker.Some?))
  }

  lemma AdvanceKeepsOver(cfg: Config, lane: Lane, now: Time)
    requires Structural(lane) && CompletedIsOver(lane) && lane.worker.Some?
    ensures CompletedIsOver(AdvanceWorker(cfg, lane, now))
  {
    hide Outcome;
  }

  lemma CompletedIsOverStep(cfg: Config, lane: Lane, now: Time, op: Op)
    requires !cfg.faults
    requires Structural(lane) && CompletedIsStamped(lane) && CompletedIsOver(lane)
    ensures CompletedIsOver(LaneStep(cfg, lane, now, op))
  {
    hide AdvanceWorker;
    match op
    case Advance => if lane.worker.Some? { AdvanceKeepsOver(cfg, lane, now); }
    case _ =>
  }

  // Without removable completed entries a COMPLETED job has its entry.
  ghost predicate CompletedKeepsEntry(lane: Lane) {
    lane.row.status.Completed? ==> lane.entry.Some?
  }

  lemma CompletedKeepsEntryStep(cfg: Config, lane: Lane, now: Time, op: Op)
    requires !cfg.faults && EntryState.Completed !in cfg.removable
    requires Structural(lane) && CompletedIsOver(lane) && CompletedKeepsEntry(lane)
    ensures CompletedKeepsEntry(LaneStep(cfg, lane, now, op))
  {
    hide Outcome;
  }

  // ---------- Deliveries ----------

  ghost predicate NoSuccess(attempts: map<nat, JobAttempt>) {
    forall i :: i in attempts ==> !attempts[i].status.Completed?
  }

  ghost predicate OneSuccess(attempts: map<nat, JobAttempt>) {
    forall i, j ::
      i in attempts && j in attempts && attempts[i].status.Completed? && attempts[j].status.Completed? ==> i == j
  }

  // No attempt beyond the first `m` has begun, and none has succeeded.
  ghost predicate FailedSoFar(attempts: map<nat, JobAttempt>, m: nat) {
    NoSuccess(attempts) && forall i :: i in attempts ==> i <= m
  }

  // A delivery is always the first of its attempt, and it leaves the row with a final status or
  // the job with attempts left.
  ghost predicate DeliveryOnTrack(lane: Lane, k: nat, pc: WorkerPc) {
    match pc
    case Picked => FailedSoFar(lane.attempts, k)
    case ToReadAttempt(_) => FailedSoFar(lane.attempts, k)
    case ToUpsertAttempt(_, _) => FailedSoFar(lane.attempts, k)
    case ToFinishJob(_, _, error) => if error.Some? then NoSuccess(lane.attempts) else OneSuccess(lane.attempts)
    case Settled(rejected) =>
      && (lane.row.Terminal() || (rejected && k + 1 < lane.row.maxAttempts))
      && (if rejected then NoSuccess(lane.attempts) else OneSuccess(lane.attempts))
    case _ => NoSuccess(lane.attempts)
  }

  ghost predicate EntryOnTrack(lane: Lane, e: Entry) {
    match e.state
    case Waiting => lane.worker.None? && FailedSoFar(lane.attempts, e.attemptsMade)
    case Delayed => lane.worker.None? && FailedSoFar(lane.attempts, e.attemptsMade)
    case Active => lane.worker.Some? && DeliveryOnTrack(lane, e.attemptsMade, lane.worker.value.pc)
    case Completed => lane.row.Terminal() && lane.worker.None? && OneSuccess(lane.attempts)
    case Failed => lane.row.Terminal() && lane.worker.None? && NoSuccess(lane.attempts)
  }

  ghost predicate OnTrack(lane: Lane) {
    && (lane.row.status.Processing? ==> lane.worker.Some? && AboutToFinish(lane.worker.value.pc))
    && match lane.entry
       case None => OneSuccess(lane.attempts)
       case Some(e) => EntryOnTrack(lane, e)
  }

  lemma AdvanceKeepsOnTrack(cfg: Config, lane: Lane, now: Time)
    requires Structural(lane) && OnTrack(lane) && lane.worker.Some?
    ensures OnTrack(AdvanceWorker(cfg, lane, now))
  {
    hide Outcome;
  }

  lemma OnTrackStep(cfg: Config, lane: Lane, now: Time, op: Op)
    requires !cfg.faults
    requires Structural(lane) && GrantIsFinal(lane) && OnTrack(lane)
    ensures OnTrack(LaneStep(cfg, lane, now, op))
  {
    hide AdvanceWorker;
    hide Outcome;
    match op
    case Advance => if lane.worker.Some? { AdvanceKeepsOnTrack(cfg, lane, now); }
    case _ =>
  }

  // ---------- The first start ----------

  // A job that has not been started.
  predicate Unstarted(lane: Lane) {
    lane.row.startedAt.None? && 1 !in lane.attempts
  }

  // The delivery of attempt `n` has yet to start the job, or the job was started before.
  ghost predicate StartedBefore(lane: Lane, n: nat) {
    if n <= 1 then Unstarted(lane) else lane.row.startedAt.Some?
  }

  // Without faults the job is started by its first attempt, and by no other.
  ghost predicate StartTracksFirst(lane: Lane) {
    && (lane.creator.ToEnqueue? ==> Unstarted(lane))
    && (lane.row.startedAt.Some? ==> 1 in lane.attempts && lane.row.startedAt == Some(lane.attempts[1].startedAt))
    && (lane.entry.Some? ==>
          var e := lane.entry.value;
          && (e.state.Waiting? || e.state.Delayed? ==> lane.worker.None? && StartedBefore(lane, e.attemptsMade + 1))
          && (e.state.Active? ==> lane.worker.Some?))
    && (lane.worker.Some? ==> StartsFirst(lane, lane.worker.value.attemptNumber, lane.worker.value.pc))
  }

  ghost predicate StartsFirst(lane: Lane, n: nat, pc: WorkerPc) {
    match pc
    case Picked => StartedBefore(lane, n)
    case ToReadAttempt(_) => StartedBefore(lane, n)
    case ToUpsertAttempt(_, existing) => StartedBefore(lane, n)
    case ToReadJob(startedAt) => StartsWith(lane, n, startedAt)
    case ToUpdateJob(startedAt, existing) => StartsWith(lane, n, startedAt)
    case _ => lane.row.startedAt.Some?
  }

  ghost predicate StartsWith(lane: Lane, n: nat, startedAt: Time) {
    if n <= 1 then lane.row.startedAt.None? && 1 in lane.attempts && lane.attempts[1].startedAt == startedAt
    else lane.row.startedAt.Some?
  }

  lemma AdvanceKeepsStart(cfg: Config, lane: Lane, now: Time)
    requires Structural(lane) && FieldsFit(lane) && StartTracksFirst(lane) && lane.worker.Some?
    ensures StartTracksFirst(AdvanceWorker(cfg, lane, now))
  {
    hide Outcome;
  }

  lemma StartTracksFirstStep(cfg: Config, lane: Lane, now: Time, op: Op)
    requires !cfg.faults
    requires Structural(lane) && FieldsFit(lane) && StartTracksFirst(lane)
    ensures StartTracksFirst(LaneStep(cfg, lane, now, op))
  {
    hide AdvanceWorker;
    hide Outcome;
    match op
    case Advance => if lane.worker.Some? { AdvanceKeepsStart(cfg, lane, now); }
    case _ =>
  }

  // ---------- Orphans ----------

  // A job without an entry is one that is being enqueued or withdrawn, or it waits no more.
  ghost predicate Accounted(lane: Lane) {
    && !lane.creator.Gone?
    && (lane.entry.None? && lane.row.status.Queued? ==>
          || lane.creator.ToEnqueue?
          || lane.creator.ToMarkEnqueueFailed?
          || exists c :: CancelAt(lane, c, ToMark))
  }

  lemma AccountedStep(cfg: Config, lane: Lane, now: Time, op: Op)
    requires !cfg.faults
    requires Structural(lane) && Accounted(lane)
    ensures Accounted(LaneStep(cfg, lane, now, op))
  {
    hide AdvanceWorker;
    var after := LaneStep(cfg, lane, now, op);
    match op
    case Advance => if lane.worker.Some? { AdvanceKeepsAccounted(cfg, lane, now); }
    case CancelMark(_) =>
    case CancelRemove(call) =>
      StillToMark(cfg, lane, now, op);
      assert lane.entry.Some? && after.entry.None? ==> CancelAt(after, call, ToMark);
    case _ => StillToMark(cfg, lane, now, op);
  }

  lemma StillToMark(cfg: Config, lane: Lane, now: Time, op: Op)
    requires !cfg.faults && !op.CancelMark? && !op.Advance?
    ensures (exists c :: CancelAt(lane, c, ToMark)) ==> exists c :: CancelAt(LaneStep(cfg, lane, now, op), c, ToMark)
  {
    if c :| CancelAt(lane, c, ToMark) {
      assert CancelAt(LaneStep(cfg, lane, now, op), c, ToMark);
    }
  }

  lemma AdvanceKeepsAccounted(cfg: Config, lane: Lane, now: Time)
    requires Structural(lane) && Accounted(lane) && lane.worker.Some?
    ensures Accounted(AdvanceWorker(cfg, lane, now))
  {
    hide Outcome;
  }

  // ---------- All of it ----------

  ghost predicate Sound(lane: Lane) {
    CompletedIsOver(lane) && OnTrack(lane) && StartTracksFirst(lane) && Accounted(lane)
  }

  lemma SoundStep(cfg: Config, lane: Lane, now: Time, op: Op)
    requires !cfg.faults
    requires Structural(lane) && CompletedIsStamped(lane) && FieldsFit(lane) && GrantIsFinal(lane)
    requires Sound(lane)
    ensures Sound(LaneStep(cfg, lane, now, op))
  {
    hide Structural;
    hide CompletedIsStamped;
    hide FieldsFit;
    hide GrantIsFinal;
    hide CompletedIsOver;
    hide OnTrack;
    hide StartTracksFirst;
    hide Accounted;
    hide LaneStep;
    CompletedIsOverStep(cfg, lane, now, op);
    OnTrackStep(cfg, lane, now, op);
    StartTracksFirstStep(cfg, lane, now, op);
    AccountedStep(cfg, lane, now, op);
  }
}
