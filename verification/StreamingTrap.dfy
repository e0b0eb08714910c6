/** The trap in which readers hold every pool thread, and what no run leads out of it. */
module StreamingTrap {
  import opened Options
  import opened Streaming
  import opened StreamingInvariant
  import opened StreamingRuns

  /** Some schedule, without any further disconnect, settles every request. */
  ghost predicate CanComplete(cfg: Config, st: State) {
    exists more: seq<Action> :: NoDisconnects(more) && Run(cfg, st, more).Some? && AllSettled(Run(cfg, st, more).value)
  }

  // ---- the trap ---------------------------------------------------------------------------

  /** A thread is held by the request's `events.get` on an empty queue, and the worker that could fill
      the queue has had no thread. */
  predicate Stuck(s: Stream) {
    && s.spec.streaming && s.queue == []
    && (s.worker.Fresh? || s.worker.Waiting? || s.worker.Queued?)
    && ((s.phase.Active? && s.reader.Getting?) || (s.phase.Disconnected? && s.reader.OrphanGetting?))
  }

  /** The request holds no thread. */
  predicate OffPool(s: Stream) { Threads(s) == 0 }

  /** Every thread is held by a reader whose producer has had none. */
  ghost predicate Trapped(cfg: Config, st: State) {
    && 1 <= cfg.poolSize == st.busy
    && forall i :: 0 <= i < |st.streams| ==> Stuck(st.streams[i]) || OffPool(st.streams[i])
  }

  /** The request has not been served, and its worker has had no thread if its client is still there. */
  predicate Unserved(s: Stream) {
    && !s.phase.Finished?
    && (s.phase.Disconnected? || s.worker.NotStarted? || s.worker.Fresh? || s.worker.Waiting? || s.worker.Queued?)
  }

  lemma TrappedTarget(cfg: Config, st: State, a: Action)
    requires Trapped(cfg, st) && Step(cfg, st, a).Some?
    requires Target(st, a) < |st.streams| == |Step(cfg, st, a).value.streams|
    ensures var st', t := Step(cfg, st, a).value, Target(st, a);
            var s, s' := st.streams[t], st'.streams[t];
            && st'.busy == st.busy && (Stuck(s') || OffPool(s'))
            && (Unserved(s) ==> Unserved(s')) && (Unserved(s) && s.phase.Active? && !a.Disconnect? ==> s'.phase.Active?)
  {
    hide UiStep, OnStage;
    var t := Target(st, a);
    assert Stuck(st.streams[t]) || OffPool(st.streams[t]);
  }

  lemma TrappedStep(cfg: Config, st: State, a: Action)
    requires Trapped(cfg, st) && Step(cfg, st, a).Some?
    ensures var st' := Step(cfg, st, a).value;
            && Trapped(cfg, st') && |st'.streams| == |st.streams|
            && forall i :: 0 <= i < |st.streams| && Unserved(st.streams[i]) ==>
                 && Unserved(st'.streams[i])
                 && (st.streams[i].phase.Active? && !a.Disconnect? ==> st'.streams[i].phase.Active?)
  {
    StepIsLocal(cfg, st, a);
    TrappedTarget(cfg, st, a);
    hide Step, Stuck, OffPool, Unserved;
    var st', t := Step(cfg, st, a).value, Target(st, a);
    forall i | 0 <= i < |st'.streams| ensures Stuck(st'.streams[i]) || OffPool(st'.streams[i]) {
      assert i != t ==> st'.streams[i] == st.streams[i];
    }
  }

  /** The trap is final: no step, not even a client's disconnect, leads out of it, and a request that
      is not served by then never is. */
  lemma {:induction false} TrappedForever(cfg: Config, st: State, more: seq<Action>)
    requires Trapped(cfg, st) && Run(cfg, st, more).Some?
    ensures var after := Run(cfg, st, more).value;
            && Trapped(cfg, after) && |after.streams| == |st.streams|
            && forall i :: 0 <= i < |st.streams| && Unserved(st.streams[i]) ==>
                 && Unserved(after.streams[i])
                 && (st.streams[i].phase.Active? && NoDisconnects(more) ==> after.streams[i].phase.Active?)
    decreases |more|
  {
    hide Step, Trapped, Unserved;
    if more != [] {
      TrappedForever(cfg, st, more[..|more| - 1]);
      TrappedStep(cfg, Run(cfg, st, more[..|more| - 1]).value, more[|more| - 1]);
    }
  }

  /** A trap with an admitted request that is not served is a deadlock. */
  lemma TrapIsDeadlock(cfg: Config, st: State, i: nat)
    requires Trapped(cfg, st) && i < |st.streams| && st.streams[i].phase.Active? && Unserved(st.streams[i])
    ensures !CanComplete(cfg, st)
  {
    hide Trapped, Run;
    if CanComplete(cfg, st) {
      var more :| NoDisconnects(more) && Run(cfg, st, more).Some? && AllSettled(Run(cfg, st, more).value);
      TrappedForever(cfg, st, more);
    }
  }

  // ---- runs ---------------------------------------------------------------------------------

  /** Every permit whose function has returned is given back. */
  ghost predicate NoneReturned(st: State) {
    forall i :: 0 <= i < |st.streams| ==> !st.streams[i].worker.Returned?
  }

  /** No request is admitted between the return of a function and the release of its permit, which the
      event loop hears of first. */
  ghost predicate Timely(cfg: Config, requests: seq<Spec>, actions: seq<Action>)
    requires Run(cfg, Initial(cfg, requests), actions).Some?
  {
    forall k :: 0 <= k < |actions| && actions[k].Admit? ==>
      Run(cfg, Initial(cfg, requests), actions[..k]).Some?
      && NoneReturned(Run(cfg, Initial(cfg, requests), actions[..k]).value)
  }

  /** The actions lead to a state, timely if so asked. */
  ghost predicate Leads(cfg: Config, requests: seq<Spec>, timely: bool, actions: seq<Action>, st: State) {
    && Run(cfg, Initial(cfg, requests), actions) == Some(st)
    && (timely ==> Timely(cfg, requests, actions))
  }

  lemma LeadsOn(cfg: Config, requests: seq<Spec>, timely: bool, actions: seq<Action>, st: State, a: Action, st': State)
    requires Leads(cfg, requests, timely, actions, st) && Step(cfg, st, a) == Some(st')
    requires timely && a.Admit? ==> NoneReturned(st)
    ensures Leads(cfg, requests, timely, actions + [a], st')
  {
    hide Step, NoneReturned, Initial;
    var all := actions + [a];
    assert all[..|all| - 1] == actions;
    if timely {
      forall k | 0 <= k < |all| && all[k].Admit?
        ensures Run(cfg, Initial(cfg, requests), all[..k]).Some?
                && NoneReturned(Run(cfg, Initial(cfg, requests), all[..k]).value)
      {
        if k < |actions| {
          assert all[..k] == actions[..k];
        }
      }
    }
  }
}
