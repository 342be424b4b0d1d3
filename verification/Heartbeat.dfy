// The worker's heartbeat and the health check that reads it
// (worker/worker-heartbeat.service.ts, health/health.service.ts).
//
// The worker writes its clock reading under one Redis key with a time to live; commands travel
// to Redis in order on one connection. The API reports the worker as running when the key is
// still there and its reading is younger than the time to live.
module Heartbeat {
  import opened Wrappers
  import opened Records

  datatype Command = SetKey(stamp: Time, ttlMs: nat) | DelKey(at: Time)
  {
    function IssuedAt(): Time {
      match this
      case SetKey(stamp, _) => stamp
      case DelKey(at) => at
    }
  }

  // What one refresh sends: nothing once the service is stopped.
  function Refresh(stopped: bool, ttlMs: nat, now: Time): seq<Command> {
    if stopped then [] else [SetKey(now, ttlMs)]
  }

  datatype Key = Key(stamp: Time, expiresAt: Time)

  // ---------- The worker's side, as an object ----------

  // The service as its calls see it: when the interval timer fires next if it is set, whether
  // the service was stopped, and the commands on their way to Redis.
  datatype Service = Service(interval: Option<Time>, stopped: bool, pending: seq<Command>)
  {
    function Refreshed(ttlMs: nat, now: Time): Service {
      this.(pending := pending + Refresh(stopped, ttlMs, now))
    }

    function Initialised(intervalMs: nat, ttlMs: nat, now: Time): Service {
      Refreshed(ttlMs, now).(interval := Some(now + intervalMs))
    }

    // The timer is set anew unless it has been cleared.
    function Fired(intervalMs: nat, ttlMs: nat, now: Time): Service {
      Refreshed(ttlMs, now).(interval := if interval.Some? then Some(now + intervalMs) else None)
    }

    function Destroyed(now: Time): Service {
      Service(None, true, pending + [DelKey(now)])
    }
  }

  class RedisConnection {
    var pending: seq<Command>

    constructor ()
      ensures pending == []
    {
      pending := [];
    }

    method Send(command: Command)
      modifies this
      ensures pending == old(pending) + [command]
    {
      pending := pending + [command];
    }
  }

  class WorkerHeartbeatService {
    // When the interval timer fires next, if it is set.
    var interval: Option<Time>
    var stopped: bool
    const redis: RedisConnection

    constructor (redis: RedisConnection)
      ensures this.redis == redis && interval.None? && !stopped
    {
      this.redis := redis;
      interval, stopped := None, false;
    }

    function View(): Service
      reads this, redis
    {
      Service(interval, stopped, redis.pending)
    }

    method OnModuleInit(intervalMs: nat, ttlMs: nat, now: Time)
      modifies this, redis
      ensures View() == old(View()).Initialised(intervalMs, ttlMs, now)
      ensures interval == Some(now + intervalMs) && stopped == old(stopped)
      ensures redis.pending == old(redis.pending) + if old(stopped) then [] else [SetKey(now, ttlMs)]
    {
      RefreshHeartbeat(ttlMs, now);
      interval := Some(now + intervalMs);
    }

    // The timer callback; it may still run once after the service was stopped.
    method OnInterval(intervalMs: nat, ttlMs: nat, now: Time)
      modifies this, redis
      ensures View() == old(View()).Fired(intervalMs, ttlMs, now)
      ensures stopped == old(stopped)
      ensures interval == if old(interval).Some? then Some(now + intervalMs) else None
      ensures redis.pending == old(redis.pending) + if old(stopped) then [] else [SetKey(now, ttlMs)]
    {
      RefreshHeartbeat(ttlMs, now);
      if interval.Some? {
        interval := Some(now + intervalMs);
      }
    }

    method OnModuleDestroy(now: Time)
      modifies this, redis
      ensures View() == old(View()).Destroyed(now)
      ensures stopped && interval.None?
      ensures redis.pending == old(redis.pending) + [DelKey(now)]
    {
      stopped := true;
      if interval.Some? {
        interval := None;
      }
      redis.Send(DelKey(now));
    }

    method RefreshHeartbeat(ttlMs: nat, now: Time)
      modifies redis
      ensures View() == old(View()).Refreshed(ttlMs, now)
      ensures redis.pending == old(redis.pending) + if stopped then [] else [SetKey(now, ttlMs)]
    {
      if stopped {
        return;
      }
      redis.Send(SetKey(now, ttlMs));
    }
  }

  // ---------- The health check ----------

  predicate CheckWorkerRunning(key: Option<Key>, ttlMs: nat, now: Time): (r: bool)
    ensures r ==> key.Some? && now < key.value.expiresAt && now < key.value.stamp + ttlMs
    ensures key.Some? && now < key.value.expiresAt && now < key.value.stamp + ttlMs ==> r
  {
    match key
    case None => false
    case Some(k) => now < k.expiresAt && now - k.stamp < ttlMs
  }

  // ---------- The timed system ----------

  // Timers fire at most `timerLateMs` late, and Redis executes a command at most
  // `deliveryMs` after it was sent.
  datatype Config = Config(intervalMs: nat, ttlMs: nat, timerLateMs: nat, deliveryMs: nat)

  datatype Phase = Idle | Running(nextDue: Time) | Stopped(at: Time) | Crashed(at: Time)

  datatype State = State(clock: Time, phase: Phase, pending: seq<Command>, key: Option<Key>)

  datatype Action = Init | Fire | Shutdown | Crash | Execute | Lose | Tick(ms: nat)

  // Time may pass only as far as the promised bounds allow.
  ghost predicate MayReach(cfg: Config, s: State, t: Time) {
    && (s.phase.Running? ==> t <= s.phase.nextDue + cfg.timerLateMs)
    && (forall i :: 0 <= i < |s.pending| ==> t <= s.pending[i].IssuedAt() + cfg.deliveryMs)
  }

  function ExecuteOn(key: Option<Key>, command: Command, now: Time): Option<Key> {
    match command
    case SetKey(stamp, ttlMs) => Some(Key(stamp, now + ttlMs))
    case DelKey(_) => None
  }

  ghost function Step(cfg: Config, s: State, a: Action): State {
    match a
    case Init =>
      if s.phase.Idle? then
        s.(phase := Running(s.clock + cfg.intervalMs), pending := s.pending + Refresh(false, cfg.ttlMs, s.clock))
      else s
    case Fire =>
      if s.phase.Running? && s.clock >= s.phase.nextDue then
        s.(phase := Running(s.clock + cfg.intervalMs), pending := s.pending + Refresh(false, cfg.ttlMs, s.clock))
      else if s.phase.Stopped? then s.(pending := s.pending + Refresh(true, cfg.ttlMs, s.clock))
      else s
    case Shutdown =>
      if s.phase.Running? then s.(phase := Stopped(s.clock), pending := s.pending + [DelKey(s.clock)]) else s
    case Crash => if s.phase.Running? then s.(phase := Crashed(s.clock)) else s
    case Execute =>
      if s.pending != [] then
        s.(pending := s.pending[1..], key := ExecuteOn(s.key, s.pending[0], s.clock))
      else s
    case Lose => if s.phase.Crashed? then s.(pending := []) else s
    case Tick(ms) => if MayReach(cfg, s, s.clock + ms) then s.(clock := s.clock + ms) else s
  }

  // The service of a worker in a state of the timed system.
  function ServiceOf(s: State): Service {
    Service(if s.phase.Running? then Some(s.phase.nextDue) else None, s.phase.Stopped?, s.pending)
  }

  // The steps of the timed system are the calls of the service: the same commands are sent in the
  // same order and the timer is set alike; and while nobody calls, only Redis takes commands away.
  lemma StepsAreCalls(cfg: Config, s: State, a: Action)
    ensures var before, after := ServiceOf(s), ServiceOf(Step(cfg, s, a));
      match a
      case Init => s.phase.Idle? ==> after == before.Initialised(cfg.intervalMs, cfg.ttlMs, s.clock)
      case Fire =>
        s.phase.Stopped? || (s.phase.Running? && s.clock >= s.phase.nextDue) ==>
          after == before.Fired(cfg.intervalMs, cfg.ttlMs, s.clock)
      case Shutdown => s.phase.Running? ==> after == before.Destroyed(s.clock)
      case Crash => after.pending == before.pending && (after == before || after.interval.None?)
      case Execute => before.pending != [] ==> after == before.(pending := before.pending[1..])
      case Lose => after == before || (s.phase.Crashed? && after == before.(pending := []))
      case Tick(_) => after == before
  {
  }

  ghost function Run(cfg: Config, s: State, actions: seq<Action>): State
    decreases |actions|
  {
    if actions == [] then s else Run(cfg, Step(cfg, s, actions[0]), actions[1..])
  }

  ghost predicate Reachable(cfg: Config, s: State) {
    exists t: Time, actions: seq<Action> :: Run(cfg, State(t, Idle, [], None), actions) == s
  }

  // What the health check says in a state.
  predicate SeenRunning(cfg: Config, s: State) {
    CheckWorkerRunning(s.key, cfg.ttlMs, s.clock)
  }

  // ---------- The invariant ----------

  // The reading before command i, or before the next one when i is the number of commands.
  ghost predicate Follows(cfg: Config, s: State, i: nat, stamp: Time)
    requires i <= |s.pending|
  {
    if i > 0 then
      s.pending[i - 1].SetKey? && stamp <= s.pending[i - 1].stamp + cfg.intervalMs + cfg.timerLateMs
    else
      s.key.Some? ==> stamp <= s.key.value.stamp + cfg.intervalMs + cfg.timerLateMs
  }

  // While the worker runs, readings follow one another closely enough, and so does the next.
  ghost predicate Beating(cfg: Config, s: State)
    requires s.phase.Running?
  {
    && (forall i :: 0 <= i < |s.pending| ==> s.pending[i].SetKey? && Follows(cfg, s, i, s.pending[i].stamp))
    && Follows(cfg, s, |s.pending|, s.phase.nextDue + cfg.timerLateMs)
    && (s.pending == [] ==> s.key.Some?)
    && s.clock <= s.phase.nextDue + cfg.timerLateMs
  }

  ghost predicate Invariant(cfg: Config, s: State) {
    && (forall i :: 0 <= i < |s.pending| ==>
          s.pending[i].IssuedAt() <= s.clock <= s.pending[i].IssuedAt() + cfg.deliveryMs
          && (s.pending[i].SetKey? ==> s.pending[i].ttlMs == cfg.ttlMs))
    && (s.key.Some? ==> s.key.value.stamp <= s.clock && s.key.value.expiresAt >= s.key.value.stamp + cfg.ttlMs)
    && match s.phase
       case Idle => s.pending == [] && s.key.None?
       case Running(_) => Beating(cfg, s)
       case Stopped(at) =>
         at <= s.clock
         && (s.pending == [] ==> s.key.None?)
         && (s.pending != [] ==> s.pending[|s.pending| - 1] == DelKey(at))
       case Crashed(at) =>
         && at <= s.clock
         && (s.key.Some? ==> s.key.value.stamp <= at)
         && (forall i :: 0 <= i < |s.pending| ==> s.pending[i].IssuedAt() <= at)
  }

  lemma ExecuteKeepsInvariant(cfg: Config, s: State)
    requires Invariant(cfg, s)
    ensures Invariant(cfg, Step(cfg, s, Execute))
  {
    var t := Step(cfg, s, Execute);
    if s.pending != [] {
      forall i | 0 <= i < |t.pending|
        ensures t.pending[i] == s.pending[i + 1]
      {
      }
      if s.phase.Running? {
        assert Follows(cfg, s, 0, s.pending[0].stamp);
        forall i | 0 <= i < |t.pending|
          ensures t.pending[i].SetKey? && Follows(cfg, t, i, t.pending[i].stamp)
        {
          assert Follows(cfg, s, i + 1, s.pending[i + 1].stamp);
        }
      }
    }
  }

  lemma SendKeepsInvariant(cfg: Config, s: State, a: Action)
    requires Invariant(cfg, s)
    requires a.Init? || a.Fire? || a.Shutdown? || a.Crash? || a.Lose?
    ensures Invariant(cfg, Step(cfg, s, a))
  {
    var t := Step(cfg, s, a);
    if t != s && (a.Init? || a.Fire?) {
      forall i | 0 <= i < |t.pending|
        ensures t.pending[i].SetKey? && Follows(cfg, t, i, t.pending[i].stamp)
      {
        if i < |s.pending| {
          assert t.pending[i] == s.pending[i];
          assert i > 0 ==> t.pending[i - 1] == s.pending[i - 1];
        }
      }
    }
  }

  lemma StepKeepsInvariant(cfg: Config, s: State, a: Action)
    requires Invariant(cfg, s)
    ensures Invariant(cfg, Step(cfg, s, a))
  {
    match a
    case Execute => ExecuteKeepsInvariant(cfg, s);
    case Tick(_) =>
      assert forall i :: 0 <= i < |s.pending| && s.phase.Running? ==> Follows(cfg, s, i, s.pending[i].stamp) ==>
        Follows(cfg, Step(cfg, s, a), i, s.pending[i].stamp);
    case _ => SendKeepsInvariant(cfg, s, a);
  }

  lemma {:induction false} RunKeepsInvariant(cfg: Config, s: State, actions: seq<Action>)
    requires Invariant(cfg, s)
    ensures Invariant(cfg, Run(cfg, s, actions))
    decreases |actions|
  {
    hide Step;
    hide Invariant;
    if actions != [] {
      StepKeepsInvariant(cfg, s, actions[0]);
      RunKeepsInvariant(cfg, Step(cfg, s, actions[0]), actions[1..]);
    }
  }

  lemma ReachableInvariant(cfg: Config, s: State)
    requires Reachable(cfg, s)
    ensures Invariant(cfg, s)
  {
    var t: Time, actions: seq<Action> :| Run(cfg, State(t, Idle, [], None), actions) == s;
    RunKeepsInvariant(cfg, State(t, Idle, [], None), actions);
  }

  lemma {:induction false} RunAppend(cfg: Config, s: State, first: seq<Action>, second: seq<Action>)
    ensures Run(cfg, s, first + second) == Run(cfg, Run(cfg, s, first), second)
    decreases |first|
  {
    hide Step;
    if first == [] {
      assert first + second == second;
    } else {
      RunAppend(cfg, Step(cfg, s, first[0]), first[1..], second);
      assert (first + second)[1..] == first[1..] + second;
    }
  }

  lemma StepReaches(cfg: Config, s: State, a: Action)
    requires Reachable(cfg, s)
    ensures Reachable(cfg, Step(cfg, s, a))
  {
    hide Step;
    var t: Time, actions: seq<Action> :| Run(cfg, State(t, Idle, [], None), actions) == s;
    RunAppend(cfg, State(t, Idle, [], None), actions, [a]);
    assert Run(cfg, s, [a]) == Run(cfg, Step(cfg, s, a), []);
  }

  // ---------- A running worker is seen ----------

  // From its first heartbeat on, health reports a running worker as running at every instant.
  ghost predicate RunningIsSeen(cfg: Config) {
    forall s: State :: Reachable(cfg, s) && s.phase.Running? && s.key.Some? ==> SeenRunning(cfg, s)
  }

  lemma SeenWhileBeating(cfg: Config, s: State)
    requires Reachable(cfg, s) && s.phase.Running? && s.key.Some?
    requires cfg.intervalMs + cfg.timerLateMs + cfg.deliveryMs < cfg.ttlMs
    ensures SeenRunning(cfg, s)
  {
    ReachableInvariant(cfg, s);
    if s.pending != [] {
      assert Follows(cfg, s, 0, s.pending[0].stamp);
    }
  }

  // Lets time pass up to `target` while the worker keeps sending and Redis executes nothing.
  lemma {:induction false} KeepSending(cfg: Config, s: State, target: Time) returns (t: State)
    requires cfg.intervalMs >= 1 && Reachable(cfg, s)
    requires s.phase.Running? && s.clock <= s.phase.nextDue && s.clock <= target <= s.clock + cfg.deliveryMs
    requires forall i :: 0 <= i < |s.pending| ==> target <= s.pending[i].IssuedAt() + cfg.deliveryMs
    ensures Reachable(cfg, t) && t.phase.Running? && t.clock == target && t.key == s.key
    decreases target - s.phase.nextDue
  {
    var due := s.phase.nextDue;
    if target <= due {
      StepReaches(cfg, s, Tick(target - s.clock));
      t := Step(cfg, s, Tick(target - s.clock));
    } else {
      StepReaches(cfg, s, Tick(due - s.clock));
      var waited := Step(cfg, s, Tick(due - s.clock));
      assert waited.clock == due;
      StepReaches(cfg, waited, Fire);
      var sent := Step(cfg, waited, Fire);
      t := KeepSending(cfg, sent, target);
    }
  }

  // A worker whose second heartbeat is as late as the bounds allow.
  lemma LateHeartbeat(cfg: Config) returns (s: State)
    requires cfg.intervalMs >= 1
    ensures Reachable(cfg, s) && s.phase.Running?
    ensures s.key == Some(Key(0, cfg.ttlMs)) && s.clock == cfg.intervalMs + cfg.timerLateMs + cfg.deliveryMs
  {
    var s0 := State(0, Idle, [], None);
    assert Run(cfg, s0, []) == s0;
    StepReaches(cfg, s0, Init);
    var s1 := Step(cfg, s0, Init);
    StepReaches(cfg, s1, Execute);
    var s2 := Step(cfg, s1, Execute);
    assert s2.key == Some(Key(0, cfg.ttlMs)) && s2.pending == [];
    var late := cfg.intervalMs + cfg.timerLateMs;
    StepReaches(cfg, s2, Tick(late));
    var s3 := Step(cfg, s2, Tick(late));
    StepReaches(cfg, s3, Fire);
    var s4 := Step(cfg, s3, Fire);
    s := KeepSending(cfg, s4, late + cfg.deliveryMs);
  }

  // A running worker is always seen exactly when the interval, the lateness of its timer and
  // the delivery of its commands together stay below the time to live.
  lemma RunningIsSeenIff(cfg: Config)
    requires cfg.intervalMs >= 1
    ensures RunningIsSeen(cfg) <==> cfg.intervalMs + cfg.timerLateMs + cfg.deliveryMs < cfg.ttlMs
  {
    if cfg.intervalMs + cfg.timerLateMs + cfg.deliveryMs < cfg.ttlMs {
      forall s: State | Reachable(cfg, s) && s.phase.Running? && s.key.Some?
        ensures SeenRunning(cfg, s)
      {
        SeenWhileBeating(cfg, s);
      }
    } else {
      var s := LateHeartbeat(cfg);
      assert !SeenRunning(cfg, s);
    }
  }

  // ---------- A crashed worker is noticed ----------

  // Health stops reporting a crashed worker at the latest `bound` after the crash.
  ghost predicate CrashNoticedWithin(cfg: Config, bound: nat) {
    forall s: State :: Reachable(cfg, s) && s.phase.Crashed? && s.clock >= s.phase.at + bound ==> !SeenRunning(cfg, s)
  }

  // The time to live is exactly the delay within which every crash is noticed, however late
  // timers and commands are.
  lemma CrashNoticedIff(cfg: Config, bound: nat)
    requires cfg.ttlMs >= 1
    ensures CrashNoticedWithin(cfg, bound) <==> bound >= cfg.ttlMs
  {
    if bound >= cfg.ttlMs {
      forall s: State | Reachable(cfg, s) && s.phase.Crashed? && s.clock >= s.phase.at + bound
        ensures !SeenRunning(cfg, s)
      {
        ReachableInvariant(cfg, s);
      }
    } else {
      var s0 := State(0, Idle, [], None);
      assert Run(cfg, s0, []) == s0;
      StepReaches(cfg, s0, Init);
      var s1 := Step(cfg, s0, Init);
      StepReaches(cfg, s1, Execute);
      var s2 := Step(cfg, s1, Execute);
      StepReaches(cfg, s2, Crash);
      var s3 := Step(cfg, s2, Crash);
      StepReaches(cfg, s3, Tick(cfg.ttlMs - 1));
      var s4 := Step(cfg, s3, Tick(cfg.ttlMs - 1));
      assert s4.key == Some(Key(0, cfg.ttlMs)) && s4.clock == cfg.ttlMs - 1;
      assert SeenRunning(cfg, s4) && s4.phase == Crashed(0);
    }
  }

  // ---------- A stopped worker is gone ----------

  lemma DeletionIsOnItsWay(cfg: Config, s: State)
    requires Reachable(cfg, s) && s.phase.Stopped? && s.pending != []
    ensures s.clock <= s.phase.at + cfg.deliveryMs
  {
    ReachableInvariant(cfg, s);
    assert s.pending[|s.pending| - 1] == DelKey(s.phase.at);
  }

  lemma StoppedStays(cfg: Config, s: State, a: Action)
    requires s.phase.Stopped? && s.pending == [] && s.key.None?
    ensures var t := Step(cfg, s, a); t.phase.Stopped? && t.pending == [] && t.key.None?
  {
  }

  // Once Redis has executed the deletion of a clean shutdown, which it has at the latest
  // `deliveryMs` later, the worker is never reported as running again: no refresh that was
  // still under way can bring the key back.
  lemma {:induction false} NeverSeenAfterShutdown(cfg: Config, s: State, actions: seq<Action>)
    requires Reachable(cfg, s) && s.phase.Stopped?
    requires s.pending == [] || s.clock > s.phase.at + cfg.deliveryMs
    ensures !SeenRunning(cfg, Run(cfg, s, actions))
    decreases |actions|
  {
    ReachableInvariant(cfg, s);
    if s.pending != [] {
      DeletionIsOnItsWay(cfg, s);
    }
    if actions != [] {
      StoppedStays(cfg, s, actions[0]);
      StepReaches(cfg, s, actions[0]);
      NeverSeenAfterShutdown(cfg, Step(cfg, s, actions[0]), actions[1..]);
    }
  }
}
