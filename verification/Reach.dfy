// The invariants of the lifecycle lifted from single lanes to all reachable states.
module Reach {
  import opened Records
  import opened Lifecycle
  import opened Faults
  import Faultless
  import opened Orderly
  import opened Timing

  // Which rows still have their entry.
  ghost predicate Retained(cfg: Config, lane: Lane) {
    && ProcessingKeepsEntry(cfg, lane)
    && (RetainsFailed(cfg) ==> FailedKeepsEntry(cfg, lane))
    && (!cfg.faults && EntryState.Completed !in cfg.removable ==> Faultless.CompletedKeepsEntry(lane))
  }

  lemma RetainedStep(cfg: Config, lane: Lane, now: Time, op: Op)
    requires Structural(lane) && GrantIsFinal(lane) && Retained(cfg, lane)
    requires !cfg.lossyAdd ==> FailedIsFinal(lane)
    requires !cfg.faults ==> Faultless.CompletedIsOver(lane)
    ensures Retained(cfg, LaneStep(cfg, lane, now, op))
  {
    hide LaneStep;
    hide Structural;
    hide GrantIsFinal;
    hide FailedIsFinal;
    hide Faultless.CompletedIsOver;
    hide ProcessingKeepsEntry;
    hide FailedKeepsEntry;
    hide Faultless.CompletedKeepsEntry;
    ProcessingKeepsEntryStep(cfg, lane, now, op);
    if RetainsFailed(cfg) {
      FailedKeepsEntryStep(cfg, lane, now, op);
    }
    if !cfg.faults && EntryState.Completed !in cfg.removable {
      Faultless.CompletedKeepsEntryStep(cfg, lane, now, op);
    }
  }

  // All that holds of one lane at clock `now`, by what the configuration lets go wrong.
  ghost predicate Good(cfg: Config, lane: Lane, now: Time) {
    && Structural(lane)
    && AttemptsRecorded(lane)
    && Punctual(lane, now)
    && CompletedIsStamped(lane)
    && FieldsFit(lane)
    && GrantIsFinal(lane)
    && (!cfg.removeMissing ==> OneGrant(lane))
    && (cfg.removable == {} ==> NeverWithdrawn(lane))
    && (!cfg.faults ==> Faultless.Sound(lane))
    && Retained(cfg, lane)
    && (!cfg.lossyAdd ==> FailedIsFinal(lane))
    && (cfg.CrashFree() ==> LaneOrderly(lane) && Paced(cfg, lane, now))
  }

  ghost predicate AllGood(cfg: Config, s: State) {
    forall id :: id in s.lanes ==> Good(cfg, s.lanes[id], s.clock)
  }

  lemma GoodStep(cfg: Config, lane: Lane, now: Time, op: Op)
    requires Good(cfg, lane, now)
    ensures Good(cfg, LaneStep(cfg, lane, now, op), now)
  {
    hide Structural;
    hide AttemptsRecorded;
    hide Punctual;
    hide FailedIsFinal;
    hide CompletedIsStamped;
    hide FieldsFit;
    hide GrantIsFinal;
    hide NeverWithdrawn;
    hide Retained;
    hide Faultless.CompletedIsOver;
    hide Faultless.OnTrack;
    hide Faultless.StartTracksFirst;
    hide Faultless.Accounted;
    hide LaneOrderly;
    hide Paced;
    hide OneGrant;
    hide LaneStep;
    StructuralStep(cfg, lane, now, op);
    AttemptsRecordedStep(cfg, lane, now, op);
    PunctualStep(cfg, lane, now, op);
    CompletedIsStampedStep(cfg, lane, now, op);
    FieldsFitStep(cfg, lane, now, op);
    GrantIsFinalStep(cfg, lane, now, op);
    if !cfg.removeMissing {
      OneGrantStep(cfg, lane, now, op);
    }
    if cfg.removable == {} {
      NeverWithdrawnStep(cfg, lane, now, op);
    }
    RetainedStep(cfg, lane, now, op);
    if !cfg.faults {
      Faultless.SoundStep(cfg, lane, now, op);
    }
    if !cfg.lossyAdd {
      FailedIsFinalStep(cfg, lane, now, op);
    }
    if cfg.CrashFree() {
      OrderlyStep(cfg, lane, now, op);
      PacedStep(cfg, lane, now, op);
    }
  }

  lemma GoodLater(cfg: Config, lane: Lane, now: Time, later: Time)
    requires Good(cfg, lane, now) && now <= later
    ensures Good(cfg, lane, later)
  {
    hide Structural;
    hide AttemptsRecorded;
    hide FailedIsFinal;
    hide GrantIsFinal;
    hide Faultless.Sound;
    hide NeverWithdrawn;
    hide Retained;
    hide LaneOrderly;
    hide OneGrant;
    if cfg.CrashFree() {
      PacedLater(cfg, lane, now, later);
    }
  }

  lemma NewLaneGood(cfg: Config, s: State, a: Action)
    requires Creates(s, a)
    ensures Good(cfg, NewLane(s, a), s.clock)
  {
  }

  lemma StepKeepsAllGood(cfg: Config, s: State, a: Action)
    requires AllGood(cfg, s)
    ensures AllGood(cfg, Step(cfg, s, a))
  {
    hide Good;
    var t := Step(cfg, s, a);
    forall id | id in t.lanes
      ensures Good(cfg, t.lanes[id], t.clock)
    {
      if id in s.lanes {
        match a
        case Tick(ms) => GoodLater(cfg, s.lanes[id], s.clock, t.clock);
        case Create(_, _, _, _) =>
        case At(target, op) => if target == id { GoodStep(cfg, s.lanes[id], s.clock, op); }
      } else {
        NewLaneGood(cfg, s, a);
      }
    }
  }

  lemma {:induction false} RunKeepsAllGood(cfg: Config, s: State, actions: seq<Action>)
    requires AllGood(cfg, s)
    ensures AllGood(cfg, Run(cfg, s, actions))
    decreases |actions|
  {
    hide AllGood;
    hide Step;
    if actions != [] {
      StepKeepsAllGood(cfg, s, actions[0]);
      RunKeepsAllGood(cfg, Step(cfg, s, actions[0]), actions[1..]);
    }
  }

  // Every lane of every reachable state is good.
  lemma ReachableIsGood(cfg: Config, s: State)
    requires Reachable(cfg, s)
    ensures AllGood(cfg, s)
  {
    var t: Time, actions: seq<Action> :| Run(cfg, Start(t), actions) == s;
    RunKeepsAllGood(cfg, Start(t), actions);
  }

  lemma LaneIsStructural(cfg: Config, s: State, id: JobId)
    requires Reachable(cfg, s) && id in s.lanes
    ensures Structural(s.lanes[id])
  {
    hide Structural;
    ReachableIsGood(cfg, s);
    assert Good(cfg, s.lanes[id], s.clock);
  }

  lemma LaneIsSound(cfg: Config, s: State, id: JobId)
    requires !cfg.faults && Reachable(cfg, s) && id in s.lanes
    ensures Structural(s.lanes[id]) && GrantIsFinal(s.lanes[id]) && Faultless.Sound(s.lanes[id])
  {
    hide Structural;
    hide GrantIsFinal;
    hide Faultless.Sound;
    ReachableIsGood(cfg, s);
    assert Good(cfg, s.lanes[id], s.clock);
  }

  lemma LaneUnderAtomicAdds(cfg: Config, s: State, id: JobId)
    requires !cfg.lossyAdd && Reachable(cfg, s) && id in s.lanes
    ensures Structural(s.lanes[id]) && GrantIsFinal(s.lanes[id]) && FailedIsFinal(s.lanes[id])
  {
    hide Structural;
    hide GrantIsFinal;
    hide FailedIsFinal;
    ReachableIsGood(cfg, s);
    assert Good(cfg, s.lanes[id], s.clock);
  }

  lemma LaneIsOrderly(cfg: Config, s: State, id: JobId)
    requires cfg.CrashFree() && Reachable(cfg, s) && id in s.lanes
    ensures LaneOrderly(s.lanes[id])
  {
    hide LaneOrderly;
    ReachableIsGood(cfg, s);
    assert Good(cfg, s.lanes[id], s.clock);
  }

  lemma LaneIsPaced(cfg: Config, s: State, id: JobId)
    requires cfg.CrashFree() && Reachable(cfg, s) && id in s.lanes
    ensures Paced(cfg, s.lanes[id], s.clock)
  {
    hide Paced;
    ReachableIsGood(cfg, s);
    assert Good(cfg, s.lanes[id], s.clock);
  }

  lemma OneGrantOnly(cfg: Config, s: State, id: JobId)
    requires !cfg.removeMissing && Reachable(cfg, s) && id in s.lanes
    ensures OneGrant(s.lanes[id])
  {
    hide OneGrant;
    ReachableIsGood(cfg, s);
    assert Good(cfg, s.lanes[id], s.clock);
  }

  lemma {:induction false} RunAppend(cfg: Config, s: State, first: seq<Action>, second: seq<Action>)
    ensures Run(cfg, s, first + second) == Run(cfg, Run(cfg, s, first), second)
    decreases |first|
  {
    hide Step;
    if first == [] {
      assert first + second == second;
    } else {
      var next := Step(cfg, s, first[0]);
      RunAppend(cfg, next, first[1..], second);
      assert (first + second)[1..] == first[1..] + second;
    }
  }

  lemma RunReaches(cfg: Config, s: State, actions: seq<Action>)
    requires Reachable(cfg, s)
    ensures Reachable(cfg, Run(cfg, s, actions))
  {
    var t: Time, before: seq<Action> :| Run(cfg, Start(t), before) == s;
    RunAppend(cfg, Start(t), before, actions);
    assert Run(cfg, Start(t), before + actions) == Run(cfg, s, actions);
  }

  lemma StepReaches(cfg: Config, s: State, a: Action)
    requires Reachable(cfg, s)
    ensures Reachable(cfg, Step(cfg, s, a))
  {
    hide Step;
    RunReaches(cfg, s, [a]);
    assert Run(cfg, s, [a]) == Run(cfg, Step(cfg, s, a), []);
  }
}
