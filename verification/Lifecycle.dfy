// The job lifecycle as a transition system over the database and the queue.
//
// The API, the workers, the database and the queue share no transaction: between any two
// awaited calls of one of them, any other may act. Each awaited call is one step here, steps
// of all actors interleave freely, and a step that is not possible leaves the state unchanged,
// so every sequence of actions is a run.
//
// Everything kept under one job id forms a lane: the Job row, its JobAttempt rows, its queue
// entry, and the program counters of the createJob call, the cancelJob calls and the worker
// delivery that are working on it.
module Lifecycle {
  import opened Wrappers
  import opened ErrorText
  import opened Simulation
  import opened Records
  import opened Schedule

  type JobId = string

  // ---------- The queue, as far as the platform relies on it ----------

  datatype EntryState = Waiting | Delayed | Active | Completed | Failed

  // A queue entry: `attemptsMade` counts rejected deliveries, `attempts` is the limit.
  datatype Entry = Entry(state: EntryState, attemptsMade: nat, attempts: nat, due: Time, payload: Json)

  // What the platform assumes of its environment.
  //   removable      - the entry states in which removing an entry succeeds (never Active:
  //                    an entry held by a worker is locked)
  //   removeMissing  - whether removing an entry that vanished after it was looked up succeeds
  //   faults         - whether workers and API calls may die, and database writes be rejected
  //   lossyAdd       - whether an add that reports failure may still have added the entry
  datatype Config = Config(
    removable: set<EntryState>,
    removeMissing: bool,
    faults: bool,
    lossyAdd: bool,
    backoffDelayMs: nat,
    processingDelayMs: nat)
  {
    predicate Valid() {
      EntryState.Active !in removable
    }

    // No faults, atomic adds, and only entries that still wait can be removed.
    predicate CrashFree() {
      !faults && !lossyAdd && removable <= {EntryState.Waiting, EntryState.Delayed}
    }
  }

  function Pow2(n: nat): nat {
    if n == 0 then 1 else 2 * Pow2(n - 1)
  }

  // The exponential backoff after the m-th rejected delivery.
  function Backoff(baseMs: nat, m: nat): nat {
    if m == 0 then 0 else baseMs * Pow2(m - 1)
  }

  function AddEntry(payload: Json, attempts: nat, delay: nat, now: Time): Entry {
    Entry(if delay > 0 then EntryState.Delayed else EntryState.Waiting, 0, attempts, now + delay, payload)
  }

  // The queue's answer to the promise of a delivery.
  function Acknowledge(e: Entry, rejected: bool, baseMs: nat, now: Time): Entry {
    if !rejected then e.(state := EntryState.Completed)
    else
      var m := e.attemptsMade + 1;
      if m < e.attempts then e.(state := EntryState.Delayed, attemptsMade := m, due := now + Backoff(baseMs, m))
      else e.(state := EntryState.Failed, attemptsMade := m)
  }

  // ---------- Program counters ----------

  datatype Creator = ToEnqueue | ToMarkEnqueueFailed | Accepted | Rejected | Gone

  datatype CancelPc = ToLookup | ToRemove | ToMark | Succeeded | Refused
  {
    // The queue has granted the cancellation.
    predicate Granted() {
      ToMark? || Succeeded?
    }
  }

  datatype WorkerPc =
    | Picked
    | ToReadAttempt(startedAt: Time)
    | ToUpsertAttempt(startedAt: Time, existing: Option<Time>)
    | ToReadJob(startedAt: Time)
    | ToUpdateJob(startedAt: Time, existing: Option<Time>)
    | Working(startedAt: Time, since: Time)
    | ToFinishAttempt(startedAt: Time, completedAt: Time, error: Option<Text>)
    | ToFinishJob(startedAt: Time, completedAt: Time, error: Option<Text>)
    | Settled(rejected: bool)

  // A delivery works on a snapshot of the queue entry taken when it was picked.
  datatype Worker = Worker(attemptNumber: nat, maxAttempts: nat, payload: Json, pc: WorkerPc)

  datatype Lane = Lane(
    row: Job,
    attempts: map<nat, JobAttempt>,
    entry: Option<Entry>,
    creator: Creator,
    cancels: map<nat, CancelPc>,
    worker: Option<Worker>)

  datatype State = State(clock: Time, lanes: map<JobId, Lane>)

  // ---------- Actions ----------

  datatype JobRequest = JobRequest(
    jobType: JobType, priority: JobPriority, payload: Json, schedule: ScheduleRequest)

  datatype Op =
    // createJob, after its row has been inserted
    | Enqueue
    | EnqueueFails
    | EnqueueLost
    | MarkEnqueueFailed
    // cancelJob, identified by the call
    | CancelRead(call: nat)
    | CancelLookup(call: nat)
    | CancelRemove(call: nat)
    | CancelErrs(call: nat)
    | CancelMark(call: nat)
    // the queue and the worker
    | Promote
    | Pick
    | Advance
    // faults
    | CreatorDies
    | CancelDies(call: nat)
    | WorkerDies
    | WorkerRejects
    | StallRequeue
    | StallFail

  datatype Action =
    | Tick(ms: nat)
    | Create(id: JobId, request: JobRequest, maxAttempts: nat, resolvedAt: Time)
    | At(id: JobId, op: Op)

  function NewRow(request: JobRequest, schedule: ResolvedSchedule, maxAttempts: nat, now: Time): Job {
    Job(request.jobType, request.priority, request.payload, JobStatus.Queued, 0, maxAttempts,
        schedule.delayMs, schedule.runAt, now, None, None, None, None, None, None)
  }

  // ---------- createJob ----------

  function EnqueueStep(lane: Lane, now: Time, reported: bool): Lane {
    var e := AddEntry(lane.row.payload, lane.row.maxAttempts, EnqueueDelay(lane.row.delayMs), now);
    lane.(entry := Some(e), creator := if reported then Accepted else ToMarkEnqueueFailed)
  }

  // ---------- cancelJob ----------

  predicate CancelAt(lane: Lane, call: nat, pc: CancelPc) {
    call in lane.cancels && lane.cancels[call] == pc
  }

  function Move(lane: Lane, call: nat, pc: CancelPc): Lane {
    lane.(cancels := lane.cancels[call := pc])
  }

  // Whether the queue removes the entry, and whether it reports success.
  predicate Removes(cfg: Config, lane: Lane) {
    match lane.entry
    case None => cfg.removeMissing
    case Some(e) => e.state in cfg.removable && !e.state.Active?
  }

  // ---------- The worker: one awaited call of process per step ----------

  function AdvanceWorker(cfg: Config, lane: Lane, now: Time): Lane
    requires lane.worker.Some?
  {
    var w := lane.worker.value;
    var n := w.attemptNumber;
    match w.pc
    case Picked => GoTo(lane, ToReadAttempt(now))
    case ToReadAttempt(startedAt) =>
      if n in lane.attempts && lane.attempts[n].Terminal() then GoTo(lane, Settled(true))
      else GoTo(lane, ToUpsertAttempt(startedAt, if n in lane.attempts then Some(lane.attempts[n].startedAt) else None))
    case ToUpsertAttempt(startedAt, existing) =>
      var present := if n in lane.attempts then Some(lane.attempts[n]) else None;
      GoTo(lane.(attempts := lane.attempts[n := Upsert(present, existing, startedAt)]), ToReadJob(startedAt))
    case ToReadJob(startedAt) => GoTo(lane, ToUpdateJob(startedAt, lane.row.startedAt))
    case ToUpdateJob(startedAt, existing) =>
      GoTo(lane.(row := lane.row.MarkProcessing(existing, startedAt)), Working(startedAt, now))
    case Working(startedAt, since) =>
      if now < since + cfg.processingDelayMs then lane
      else GoTo(lane, ToFinishAttempt(startedAt, now, Outcome(w.payload, n)))
    case ToFinishAttempt(startedAt, completedAt, error) =>
      if n !in lane.attempts then GoTo(lane, Settled(true))
      else
        var finished := FinishAttempt(lane.attempts[n], completedAt, completedAt - startedAt, error);
        GoTo(lane.(attempts := lane.attempts[n := finished]), ToFinishJob(startedAt, completedAt, error))
    case ToFinishJob(startedAt, completedAt, error) =>
      if n == 0 then GoTo(lane, Settled(true))
      else
        var row := FinishJob(lane.row, n, w.maxAttempts, completedAt, completedAt - startedAt, error);
        GoTo(lane.(row := row), Settled(error.Some?))
    case Settled(rejected) =>
      match lane.entry
      case None => lane.(worker := None)
      case Some(e) => lane.(worker := None, entry := Some(Acknowledge(e, rejected, cfg.backoffDelayMs, now)))
  }

  function GoTo(lane: Lane, pc: WorkerPc): Lane
    requires lane.worker.Some?
  {
    lane.(worker := Some(lane.worker.value.(pc := pc)))
  }

  // What attempt `n` of the simulated work ends with.
  function Outcome(payload: Json, n: nat): Option<Text> {
    match EvaluateSimulationFailure(payload, n)
    case None => None
    case Some(message) => Some(SanitizeProcessingError(ErrorObject(message)))
  }

  // ---------- Steps ----------

  function CreatorStep(cfg: Config, lane: Lane, now: Time, op: Op): Lane {
    match op
    case Enqueue => if lane.creator.ToEnqueue? then EnqueueStep(lane, now, true) else lane
    case EnqueueFails => if lane.creator.ToEnqueue? then lane.(creator := ToMarkEnqueueFailed) else lane
    case EnqueueLost => if lane.creator.ToEnqueue? && cfg.lossyAdd then EnqueueStep(lane, now, false) else lane
    case MarkEnqueueFailed =>
      if lane.creator.ToMarkEnqueueFailed? then
        lane.(row := lane.row.MarkEnqueueFailed(ENQUEUE_FAILURE_MESSAGE, now), creator := Rejected)
      else lane
    case CreatorDies =>
      if cfg.faults && (lane.creator.ToEnqueue? || lane.creator.ToMarkEnqueueFailed?) then lane.(creator := Gone)
      else lane
    case _ => lane
  }

  function CancelStep(cfg: Config, lane: Lane, now: Time, op: Op): Lane {
    match op
    case CancelRead(c) =>
      if c in lane.cancels then lane
      else Move(lane, c, if lane.row.status.Queued? then ToLookup else Refused)
    case CancelLookup(c) =>
      if CancelAt(lane, c, ToLookup) then Move(lane, c, if lane.entry.Some? then ToRemove else Refused) else lane
    case CancelRemove(c) =>
      if !CancelAt(lane, c, ToRemove) then lane
      else if Removes(cfg, lane) then Move(lane, c, ToMark).(entry := None)
      else Move(lane, c, Refused)
    case CancelErrs(c) =>
      if CancelAt(lane, c, ToLookup) || CancelAt(lane, c, ToRemove) then Move(lane, c, Refused) else lane
    case CancelMark(c) =>
      if CancelAt(lane, c, ToMark) then Move(lane, c, Succeeded).(row := lane.row.MarkCancelled(now)) else lane
    case CancelDies(c) =>
      if cfg.faults && c in lane.cancels && !lane.cancels[c].Succeeded? then Move(lane, c, Refused) else lane
    case _ => lane
  }

  function QueueStep(cfg: Config, lane: Lane, now: Time, op: Op): Lane {
    if lane.entry.None? then lane
    else
      var e := lane.entry.value;
      match op
      case Promote =>
        if e.state.Delayed? && now >= e.due then lane.(entry := Some(e.(state := EntryState.Waiting))) else lane
      case Pick =>
        if e.state.Waiting? && lane.worker.None? then
          lane.(
            entry := Some(e.(state := EntryState.Active)),
            worker := Some(Worker(e.attemptsMade + 1, e.attempts, e.payload, Picked)))
        else lane
      case StallRequeue =>
        if e.state.Active? && lane.worker.None? then lane.(entry := Some(e.(state := EntryState.Waiting))) else lane
      case StallFail =>
        if e.state.Active? && lane.worker.None? then lane.(entry := Some(e.(state := EntryState.Failed))) else lane
      case _ => lane
  }

  function WorkerStep(cfg: Config, lane: Lane, now: Time, op: Op): Lane {
    if lane.worker.None? then lane
    else
      match op
      case Advance => AdvanceWorker(cfg, lane, now)
      case WorkerDies => if cfg.faults then lane.(worker := None) else lane
      case WorkerRejects => if cfg.faults then GoTo(lane, Settled(true)) else lane
      case _ => lane
  }

  function LaneStep(cfg: Config, lane: Lane, now: Time, op: Op): Lane {
    match op
    case Enqueue | EnqueueFails | EnqueueLost | MarkEnqueueFailed | CreatorDies => CreatorStep(cfg, lane, now, op)
    case CancelRead(_) | CancelLookup(_) | CancelRemove(_) | CancelErrs(_) | CancelMark(_) | CancelDies(_) =>
      CancelStep(cfg, lane, now, op)
    case Promote | Pick | StallRequeue | StallFail => QueueStep(cfg, lane, now, op)
    case Advance | WorkerDies | WorkerRejects => WorkerStep(cfg, lane, now, op)
  }

  // The insert of createJob. The schedule was resolved at a clock reading that may lie in the
  // past; a rejected schedule or a delay that does not fit its column leaves no row.
  predicate Creates(s: State, a: Action) {
    && a.Create?
    && a.id !in s.lanes
    && a.maxAttempts >= 1
    && a.resolvedAt <= s.clock
    && ResolveDelay(a.request.schedule, a.resolvedAt).Success?
    && FitsColumn(ResolveDelay(a.request.schedule, a.resolvedAt).value.delayMs)
  }

  function NewLane(s: State, a: Action): Lane
    requires Creates(s, a)
  {
    var schedule := ResolveDelay(a.request.schedule, a.resolvedAt).value;
    Lane(NewRow(a.request, schedule, a.maxAttempts, s.clock), map[], None, ToEnqueue, map[], None)
  }

  function Step(cfg: Config, s: State, a: Action): State {
    match a
    case Tick(ms) => s.(clock := s.clock + ms)
    case Create(id, _, _, _) => if Creates(s, a) then s.(lanes := s.lanes[id := NewLane(s, a)]) else s
    case At(id, op) =>
      if id in s.lanes then s.(lanes := s.lanes[id := LaneStep(cfg, s.lanes[id], s.clock, op)]) else s
  }

  function Run(cfg: Config, s: State, actions: seq<Action>): State
    decreases |actions|
  {
    if actions == [] then s else Run(cfg, Step(cfg, s, actions[0]), actions[1..])
  }

  function Start(t: Time): State {
    State(t, map[])
  }

  // The states of all runs from an empty platform.
  ghost predicate Reachable(cfg: Config, s: State) {
    exists t: Time, actions: seq<Action> :: Run(cfg, Start(t), actions) == s
  }
}
