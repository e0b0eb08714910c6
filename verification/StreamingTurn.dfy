/** The same request handled alone, as the source writes it: the admission counter, the queue a
    turn's worker fills, and the loop that drains it. Module `Streaming` interleaves these pieces. */
module StreamingTurn {
  import opened Streaming
  import opened StreamingStages

  class ConcurrencyMiddleware {
    const max: nat
    var active: int

    constructor (max: nat)
      ensures this.max == max && active == 0
    {
      this.max, active := max, 0;
    }

    /** `_try_acquire`. */
    method TryAcquire() returns (ok: bool)
      modifies this`active
      ensures ok == (old(active) < max) && active == old(active) + if ok then 1 else 0
    {
      if active >= max { return false; }
      active := active + 1;
      return true;
    }

    /** `_release`. */
    method Release()
      modifies this`active
      ensures active == old(active) - 1
    {
      active := active - 1;
    }
  }

  class EventQueue {
    var items: seq<Message>

    constructor ()
      ensures items == []
    {
      items := [];
    }

    method Put(m: Message)
      modifies this
      ensures items == old(items) + [m]
    {
      items := items + [m];
    }

    method Get() returns (m: Message)
      requires items != []
      modifies this
      ensures m == old(items)[0] && items == old(items)[1..]
    {
      m, items := items[0], items[1..];
    }
  }

  lemma {:induction false} MappedIsStages(script: seq<Transition>)
    ensures Done !in Mapped(script)
  {
    if script != [] {
      MappedIsStages(script[1..]);
    }
  }

  /** `run`: the engine's transitions go through `on_stage`; the sentinel follows even when the turn raises. */
  method RunTurn(events: EventQueue, spec: Spec) returns (returned: bool)
    modifies events
    ensures events.items == old(events.items) + Mapped(spec.script) + [Done]
    ensures returned == spec.turnReturns
  {
    for i := 0 to |spec.script|
      invariant events.items == old(events.items) + Mapped(spec.script[..i])
    {
      var t := spec.script[i];
      MappedSnoc(spec.script[..i], t);
      assert spec.script[..i + 1] == spec.script[..i] + [t];
      var step := UiStep(t.stage);
      if step.Some? { events.Put(Stage(step.value, t.state)); }
    }
    assert spec.script[..|spec.script|] == spec.script;
    events.Put(Done);
    return spec.turnReturns;
  }

  /** The draining loop: it ends at the sentinel and yields everything before it. */
  method Drain(events: EventQueue, ghost stages: seq<Message>) returns (frames: seq<Message>)
    requires events.items == stages + [Done] && Done !in stages
    modifies events
    ensures frames == stages && events.items == []
  {
    frames := [];
    while true
      invariant |frames| <= |stages| && frames == stages[..|frames|]
      invariant events.items == stages[|frames|..] + [Done]
      decreases |events.items|
    {
      var item := events.Get();
      assert item == (if |frames| == |stages| then Done else stages[|frames|]);
      if item == Done { break; }
      frames := frames + [item];
    }
  }

  /** One request: refused without a slot, otherwise answered in full; either way the slot count is
      what it was, also when the turn raises. */
  method Handle(app: ConcurrencyMiddleware, spec: Spec) returns (accepted: bool, output: seq<Message>)
    modifies app`active
    ensures app.active == old(app.active) && accepted == (old(app.active) < app.max)
    ensures output == if accepted then CompleteOutput(spec) else []
  {
    output := [];
    accepted := app.TryAcquire();
    if !accepted { return; }
    var events := new EventQueue();
    var returned := RunTurn(events, spec);
    if spec.streaming {
      MappedIsStages(spec.script);
      output := Drain(events, Mapped(spec.script));
    }
    output := output + [if returned then Turn else Failed];
    app.Release();
  }
}
