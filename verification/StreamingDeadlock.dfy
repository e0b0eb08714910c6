/** Exactly when the streaming protocol is free of deadlock. */
module StreamingDeadlock {
  import opened Options
  import opened Streaming
  import opened StreamingInvariant
  import opened StreamingRuns
  import opened StreamingRoom
  import opened StreamingProgress
  import opened StreamingTrap
  import opened StreamingTrapRuns

  /** From every state that a run with at most `d` disconnects reaches, all requests can be settled. */
  ghost predicate DeadlockFree(cfg: Config, d: nat) {
    forall requests: seq<Spec>, actions: seq<Action> ::
      Run(cfg, Initial(cfg, requests), actions).Some? && Disconnects(actions) <= d ==>
        CanComplete(cfg, Run(cfg, Initial(cfg, requests), actions).value)
  }

  /** The same of the runs that give every permit back before the next request is admitted. */
  ghost predicate DeadlockFreeInTime(cfg: Config, d: nat) {
    forall requests: seq<Spec>, actions: seq<Action> ::
      Run(cfg, Initial(cfg, requests), actions).Some? && Timely(cfg, requests, actions) && Disconnects(actions) <= d ==>
        CanComplete(cfg, Run(cfg, Initial(cfg, requests), actions).value)
  }

  /** The same without a bound on the clients that leave. */
  ghost predicate DeadlockFreeWhoeverLeaves(cfg: Config) {
    forall requests: seq<Spec>, actions: seq<Action> ::
      Run(cfg, Initial(cfg, requests), actions).Some? ==>
        CanComplete(cfg, Run(cfg, Initial(cfg, requests), actions).value)
  }

  lemma {:induction false} RunFromNext(cfg: Config, st: State, a: Action, more: seq<Action>)
    requires Step(cfg, st, a).Some?
    ensures Run(cfg, st, [a] + more) == Run(cfg, Step(cfg, st, a).value, more)
    decreases |more|
  {
    hide Step;
    var all := [a] + more;
    if more == [] {
      assert all == [a] && all[..0] == [];
      assert Run(cfg, st, []) == Some(st);
      assert Run(cfg, st, all) == Step(cfg, st, a);
    } else {
      assert all[..|all| - 1] == [a] + more[..|more| - 1];
      assert all[|all| - 1] == more[|more| - 1];
      RunFromNext(cfg, st, a, more[..|more| - 1]);
    }
  }

  lemma {:induction false} SumMember(f: Stream -> nat, ss: seq<Stream>, i: nat)
    requires i < |ss|
    ensures f(ss[i]) <= Sum(f, ss)
  {
    if i > 0 {
      SumMember(f, ss[1..], i - 1);
    }
  }

  /** Without admission slots nothing is ever in flight, and what is pending can be refused. */
  lemma RefusalProgresses(cfg: Config, st: State)
    requires Inv(cfg, st) && cfg.maxConcurrent == 0 && !AllSettled(st)
    ensures exists a :: Enabled(cfg, st, a)
  {
    var i :| 0 <= i < |st.streams| && (st.streams[i].phase.Pending? || st.streams[i].phase.Active?);
    if st.streams[i].phase.Active? {
      SumMember(Slots, st.streams, i);
    }
    assert Enabled(cfg, st, Refuse(i));
  }

  /** While no jam is in sight, some schedule settles all requests. */
  lemma {:induction false} Completes(cfg: Config, st: State)
    requires Inv(cfg, st) && cfg.threadLimit >= 1
    requires cfg.maxConcurrent == 0 || (NoJam(cfg, st) && Room(cfg, Sum(Left, st.streams)))
    ensures CanComplete(cfg, st)
    decreases Measure(st)
  {
    hide Inv, Step, Measure, AllSettled, Left, NoJam, Room;
    if AllSettled(st) {
      assert NoDisconnects([]) && Run(cfg, st, []) == Some(st);
    } else {
      if cfg.maxConcurrent == 0 { RefusalProgresses(cfg, st); } else { Progress(cfg, st); }
      var a :| Enabled(cfg, st, a);
      var next := Step(cfg, st, a).value;
      InvStep(cfg, st, a);
      StepShape(cfg, st, a);
      StepDecreases(cfg, st, a);
      if cfg.maxConcurrent != 0 { NoJamStep(cfg, st, a); }
      Completes(cfg, next);
      var more :| NoDisconnects(more) && Run(cfg, next, more).Some? && AllSettled(Run(cfg, next, more).value);
      RunFromNext(cfg, st, a, more);
      assert NoDisconnects([a] + more);
    }
  }

  // ---- the exact conditions ------------------------------------------------------------------

  lemma RoomMonotone(cfg: Config, left: nat, d: nat)
    requires Room(cfg, d) && left <= d
    ensures Room(cfg, left)
  {
  }

  /** With room for `d` clients to leave, or nothing ever admitted, everything can be settled. */
  lemma RoomSuffices(cfg: Config, requests: seq<Spec>, actions: seq<Action>, d: nat)
    requires cfg.threadLimit >= 1 && (Room(cfg, d) || cfg.maxConcurrent == 0)
    requires Run(cfg, Initial(cfg, requests), actions).Some? && Disconnects(actions) <= d
    ensures CanComplete(cfg, Run(cfg, Initial(cfg, requests), actions).value)
  {
    hide Run, Step, CanComplete, Inv, Disconnects, Initial, NoJam, Room;
    InvRun(cfg, requests, actions);
    RunShape(cfg, requests, actions);
    if cfg.maxConcurrent != 0 {
      RoomMonotone(cfg, Disconnects(actions), d);
      NoJamRun(cfg, requests, actions);
    }
    Completes(cfg, Run(cfg, Initial(cfg, requests), actions).value);
  }

  /** Without room, a run with at most `d` disconnects ends in a deadlock; its permits are given back in
      time if they are no more than the admission slots. */
  lemma DeadlockRun(cfg: Config, d: nat) returns (requests: seq<Spec>, actions: seq<Action>)
    requires cfg.poolSize >= 1 && cfg.maxConcurrent >= 1 && !Room(cfg, d)
    ensures Run(cfg, Initial(cfg, requests), actions).Some? && Disconnects(actions) <= d
    ensures cfg.threadLimit <= cfg.maxConcurrent || cfg.poolSize <= cfg.maxConcurrent ==> Timely(cfg, requests, actions)
    ensures !CanComplete(cfg, Run(cfg, Initial(cfg, requests), actions).value)
  {
    hide Run, CanComplete, Disconnects, Initial, Timely, Trapped;
    requests := seq(cfg.threadLimit + cfg.poolSize, i => Spec(true, [], true));
    var i;
    if cfg.poolSize <= cfg.maxConcurrent {
      actions := TrapAtOnce(cfg, requests);
      i := 0;
    } else {
      actions := TrapThroughPermits(cfg, requests);
      i := cfg.threadLimit + cfg.poolSize - 1;
    }
    TrapIsDeadlock(cfg, Run(cfg, Initial(cfg, requests), actions).value, i);
  }

  /** With at most `d` clients leaving, streaming is free of deadlock exactly if the pool has more threads
      than the admission cap, and threads and permits together are more than the cap and `d`; or if
      nothing is ever admitted. */
  lemma DeadlockFreeIff(cfg: Config, d: nat)
    requires cfg.poolSize >= 1 && cfg.threadLimit >= 1
    ensures DeadlockFree(cfg, d)
            <==> cfg.maxConcurrent == 0
                 || (cfg.poolSize > cfg.maxConcurrent && cfg.poolSize + cfg.threadLimit > cfg.maxConcurrent + d)
  {
    hide Run, CanComplete, Disconnects, Initial;
    if Room(cfg, d) || cfg.maxConcurrent == 0 {
      forall requests: seq<Spec>, actions: seq<Action> |
        Run(cfg, Initial(cfg, requests), actions).Some? && Disconnects(actions) <= d
        ensures CanComplete(cfg, Run(cfg, Initial(cfg, requests), actions).value)
      {
        RoomSuffices(cfg, requests, actions, d);
      }
    } else {
      var requests, actions := DeadlockRun(cfg, d);
    }
  }

  /** The same for runs that give permits back in time, if there are no more permits than slots. */
  lemma DeadlockFreeInTimeIff(cfg: Config, d: nat)
    requires cfg.poolSize >= 1 && 1 <= cfg.threadLimit <= cfg.maxConcurrent
    ensures DeadlockFreeInTime(cfg, d)
            <==> cfg.poolSize > cfg.maxConcurrent && cfg.poolSize + cfg.threadLimit > cfg.maxConcurrent + d
  {
    hide Run, CanComplete, Disconnects, Initial, Timely;
    if Room(cfg, d) {
      forall requests: seq<Spec>, actions: seq<Action> |
        Run(cfg, Initial(cfg, requests), actions).Some? && Timely(cfg, requests, actions) && Disconnects(actions) <= d
        ensures CanComplete(cfg, Run(cfg, Initial(cfg, requests), actions).value)
      {
        RoomSuffices(cfg, requests, actions, d);
      }
    } else {
      var requests, actions := DeadlockRun(cfg, d);
    }
  }

  /** Without disconnects: exactly if the pool has more threads than the cap lets requests in. */
  lemma DeadlockFreeIffPoolExceedsCap(cfg: Config)
    requires cfg.poolSize >= 1 && cfg.threadLimit >= 1
    ensures DeadlockFree(cfg, 0) <==> cfg.poolSize > cfg.maxConcurrent
  {
    DeadlockFreeIff(cfg, 0);
  }

  /** With clients that may always leave no pool is large enough, unless nothing is ever admitted. */
  lemma DeadlockFreeWhoeverLeavesIff(cfg: Config)
    requires cfg.poolSize >= 1 && cfg.threadLimit >= 1
    ensures DeadlockFreeWhoeverLeaves(cfg) <==> cfg.maxConcurrent == 0
  {
    hide Run, CanComplete, Initial;
    if cfg.maxConcurrent == 0 {
      forall requests: seq<Spec>, actions: seq<Action> | Run(cfg, Initial(cfg, requests), actions).Some?
        ensures CanComplete(cfg, Run(cfg, Initial(cfg, requests), actions).value)
      {
        RoomSuffices(cfg, requests, actions, Disconnects(actions));
      }
    } else {
      var requests, actions := DeadlockRun(cfg, cfg.poolSize + cfg.threadLimit);
    }
  }
}
