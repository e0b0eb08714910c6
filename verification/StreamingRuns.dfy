/** What holds in every state a run of the streaming protocol reaches. */
module StreamingRuns {
  import opened Streaming
  import opened StreamingInvariant

  ghost predicate NoDisconnects(actions: seq<Action>) {
    forall k :: 0 <= k < |actions| ==> !actions[k].Disconnect?
  }

  /** No request is waiting for admission or in flight. */
  ghost predicate AllSettled(st: State) {
    forall i :: 0 <= i < |st.streams| ==> !st.streams[i].phase.Pending? && !st.streams[i].phase.Active?
  }

  /** A request whose client went away. */
  function Left(s: Stream): nat { if s.phase.Disconnected? then 1 else 0 }

  function Disconnects(actions: seq<Action>): nat {
    if actions == [] then 0
    else Disconnects(actions[..|actions| - 1]) + if actions[|actions| - 1].Disconnect? then 1 else 0
  }

  /** The request a step is about. */
  function Target(st: State, a: Action): nat {
    if !a.StartJob? then a.i else if st.pool == [] then 0 else st.pool[0].i
  }

  ghost predicate Enabled(cfg: Config, st: State, a: Action) {
    Step(cfg, st, a).Some? && !a.Disconnect?
  }

  // ---- reachable states -------------------------------------------------------------------

  lemma {:induction false} SumZero(f: Stream -> nat, ss: seq<Stream>)
    requires forall i :: 0 <= i < |ss| ==> f(ss[i]) == 0
    ensures Sum(f, ss) == 0
  {
    if ss != [] {
      assert forall i :: 0 <= i < |ss[1..]| ==> ss[1..][i] == ss[i + 1];
      SumZero(f, ss[1..]);
    }
  }

  lemma InvInitial(cfg: Config, requests: seq<Spec>)
    ensures Inv(cfg, Initial(cfg, requests)) && Sum(Left, Initial(cfg, requests).streams) == 0
  {
    var ss := Initial(cfg, requests).streams;
    SumZero(Slots, ss);
    SumZero(Permits, ss);
    SumZero(Threads, ss);
    SumZero(Left, ss);
  }

  lemma {:induction false} InvRun(cfg: Config, requests: seq<Spec>, actions: seq<Action>)
    requires Run(cfg, Initial(cfg, requests), actions).Some?
    ensures Inv(cfg, Run(cfg, Initial(cfg, requests), actions).value)
    decreases |actions|
  {
    hide Inv, Step;
    InvInitial(cfg, requests);
    if actions != [] {
      InvRun(cfg, requests, actions[..|actions| - 1]);
      InvStep(cfg, Run(cfg, Initial(cfg, requests), actions[..|actions| - 1]).value, actions[|actions| - 1]);
    }
  }

  lemma StepIsLocal(cfg: Config, st: State, a: Action)
    requires Step(cfg, st, a).Some?
    ensures var st', i := Step(cfg, st, a).value, Target(st, a);
            i < |st.streams| == |st'.streams| && st'.streams == st.streams[i := st'.streams[i]]
  {
  }

  lemma StepSpec(cfg: Config, st: State, a: Action)
    requires Step(cfg, st, a).Some? && Target(st, a) < |st.streams| == |Step(cfg, st, a).value.streams|
    ensures var s, s' := st.streams[Target(st, a)], Step(cfg, st, a).value.streams[Target(st, a)];
            s'.spec == s.spec && Left(s') == Left(s) + if a.Disconnect? then 1 else 0
  {
  }

  lemma StepShape(cfg: Config, st: State, a: Action)
    requires Step(cfg, st, a).Some?
    ensures var st' := Step(cfg, st, a).value;
            && |st'.streams| == |st.streams|
            && (forall i :: 0 <= i < |st.streams| ==> st'.streams[i].spec == st.streams[i].spec)
            && Sum(Left, st'.streams) == Sum(Left, st.streams) + if a.Disconnect? then 1 else 0
  {
    StepIsLocal(cfg, st, a);
    StepSpec(cfg, st, a);
    hide Step, Left;
    SumUpdate(Left, st.streams, Target(st, a), Step(cfg, st, a).value.streams[Target(st, a)]);
  }

  lemma {:induction false} RunShape(cfg: Config, requests: seq<Spec>, actions: seq<Action>)
    requires Run(cfg, Initial(cfg, requests), actions).Some?
    ensures var st := Run(cfg, Initial(cfg, requests), actions).value;
            && |st.streams| == |requests|
            && (forall i :: 0 <= i < |requests| ==> st.streams[i].spec == requests[i])
            && Sum(Left, st.streams) == Disconnects(actions)
    decreases |actions|
  {
    hide Step, Left;
    if actions == [] {
      InvInitial(cfg, requests);
    } else {
      var before := actions[..|actions| - 1];
      RunShape(cfg, requests, before);
      StepShape(cfg, Run(cfg, Initial(cfg, requests), before).value, actions[|actions| - 1]);
    }
  }

  // ---- slot conservation ------------------------------------------------------------------

  /** A function called on a pool thread whose coroutine was cancelled. */
  function Orphans(s: Stream): nat { if s.worker.Orphan? || s.worker.OrphanEnding? then 1 else 0 }

  /** A permit holder without a pool thread: still queued, or back and about to release. */
  function OffThread(s: Stream): nat { if s.worker.Queued? || s.worker.Returned? then 1 else 0 }

  function WorkersAndOffThread(s: Stream): nat { WorkerThreads(s) + OffThread(s) }

  /** In every reachable state, disconnects included: the admission counter is the number of
      admitted unfinished requests and never exceeds its cap; worker threads are the permits in
      use and the orphans, less the holders that have no thread; threads never exceed the pool. */
  lemma SlotConservation(cfg: Config, requests: seq<Spec>, actions: seq<Action>)
    requires Run(cfg, Initial(cfg, requests), actions).Some?
    ensures var st := Run(cfg, Initial(cfg, requests), actions).value;
            && 0 <= st.active == Sum(Slots, st.streams) <= cfg.maxConcurrent
            && 0 <= st.permits && cfg.threadLimit - st.permits == Sum(Permits, st.streams)
            && Sum(WorkerThreads, st.streams)
               == cfg.threadLimit - st.permits + Sum(Orphans, st.streams) - Sum(OffThread, st.streams)
            && Sum(WorkerThreads, st.streams) + Sum(ReaderThreads, st.streams) == st.busy <= cfg.poolSize
  {
    InvRun(cfg, requests, actions);
    var ss := Run(cfg, Initial(cfg, requests), actions).value.streams;
    SumSplit(Threads, WorkerThreads, ReaderThreads, ss);
    SumSplit(WorkersAndOffThread, WorkerThreads, OffThread, ss);
    SumSplit(WorkersAndOffThread, Permits, Orphans, ss);
  }

  // ---- content ----------------------------------------------------------------------------

  /** What the client has seen when a run has settled: each served request got all its mapped
      stage events in the engine's order, then its turn or the failure; in between, a prefix. */
  lemma {:induction false} StreamContent(cfg: Config, requests: seq<Spec>, actions: seq<Action>, i: nat)
    requires Run(cfg, Initial(cfg, requests), actions).Some? && i < |requests|
    ensures var st := Run(cfg, Initial(cfg, requests), actions).value;
            && |st.streams| == |requests|
            && var s := st.streams[i];
               && (s.phase.Finished? ==> s.frames == CompleteOutput(requests[i]))
               && s.frames <= CompleteOutput(requests[i])
  {
    InvRun(cfg, requests, actions);
    RunShape(cfg, requests, actions);
    var s := Run(cfg, Initial(cfg, requests), actions).value.streams[i];
    assert WellFormed(s);
    if s.phase.Active? && s.spec.streaming {
      DeliveredIsPrefix(s);
    }
  }
}
