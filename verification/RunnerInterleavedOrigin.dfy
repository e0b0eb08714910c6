/** The same of requests that run at the same time: in every schedule the rows of every reply are what
    the database gave to a request of the schedule that has run its statement by then. */
module RunnerInterleavedOrigin {
  import opened Options
  import opened QueryCacheSpec
  import opened QueryCacheRuns
  import opened Runner
  import opened RunnerAge
  import opened RunnerRuns
  import opened RunnerInterleaved
  import opened RunnerOrigin

  /** The execution a request has got its rows from itself. */
  function DoneBy(a: Agent): set<Execution> {
    match a.phase
    case Storing(ran) => if ran.table.reuses == 0 && ran.round >= 1 then {Execution(a.request, ran.round - 1)} else {}
    case Replied(reply) => Executed(a.request, reply)
    case _ => {}
  }

  ghost function Done(agents: seq<Agent>): set<Execution> {
    set i, x | 0 <= i < |agents| && x in DoneBy(agents[i]) :: x
  }

  ghost predicate AgentGiven(xs: set<Execution>, a: Agent) {
    match a.phase
    case Storing(ran) => Given(xs, ran.table)
    case Replied(reply) => ReplyGiven(xs, reply)
    case _ => true
  }

  ghost predicate SystemGiven(sys: System) {
    && AllGiven(Done(sys.agents), sys.ops)
    && forall i :: 0 <= i < |sys.agents| ==> AgentGiven(Done(sys.agents), sys.agents[i])
  }

  lemma AgentGivenMonotone(xs: set<Execution>, ys: set<Execution>, a: Agent)
    requires AgentGiven(xs, a) && xs <= ys
    ensures AgentGiven(ys, a)
  {
    hide Given;
    if a.phase.Storing? {
      GivenMonotone(xs, ys, a.phase.ran.table);
    } else if a.phase.Replied? && (a.phase.reply.Cached? || a.phase.reply.Answered?)
              && a.phase.reply.answer.result.Some? {
      GivenMonotone(xs, ys, a.phase.reply.answer.result.value);
    }
  }

  lemma LookingGives(h: History, s: Settings, w: real, xs: set<Execution>, a: Agent)
    requires h.Valid() && AllJustified(h, s, w) && AllGiven(xs, h.ops) && (a.phase.Asking? || a.phase.Trying?)
    ensures var (op, phase) := Next(End(h), s, a);
            && (op.Some? ==> AllGiven(xs, h.ops + [op.value]))
            && AgentGiven(xs, a.(phase := phase)) && DoneBy(a) == {}
  {
    hide After, Apply, Found, AllJustified, Given, AllGiven;
    var (op, phase) := Next(End(h), s, a);
    if op.Some? {
      OneMoreLookup(xs, h.ops, op.value);
      if Found(End(h), op.value).Some? && Found(End(h), op.value).value.result.Some? {
        var t := Found(End(h), op.value).value.result.value;
        LookupGives(h, s, w, xs, op.value);
        SameRows(xs, t, t.(reuses := t.reuses + 1));
      }
    }
  }

  lemma StoringGives(xs: set<Execution>, ops: seq<Op>, s: Settings, a: Agent, c: Cache)
    requires AllGiven(xs, ops) && a.phase.Storing? && AgentGiven(xs, a)
    ensures var (op, phase) := Next(c, s, a);
            && (op.Some? ==> AllGiven(xs, ops + [op.value]))
            && AgentGiven(xs, a.(phase := phase)) && DoneBy(a.(phase := phase)) == DoneBy(a)
  {
    hide Given, AllGiven;
    var op := Next(c, s, a).0;
    if op.Some? { OneMoreLookup(xs, ops, op.value); }
  }

  lemma ExecutingGives(xs: set<Execution>, s: Settings, a: Agent, c: Cache)
    requires a.phase.Executing? && DoneBy(a.(phase := Next(c, s, a).1)) <= xs
    ensures Next(c, s, a).0.None? && AgentGiven(xs, a.(phase := Next(c, s, a).1)) && DoneBy(a) == {}
  {
    var r, i := a.request, a.phase.round;
    if i < |r.attempts| && r.attempts[i].Statement? && r.attempts[i].outcome.Some? {
      var t := Table(r.attempts[i].outcome.value, r.SqlKey(r.attempts[i].sql), r.attempts[i].at, 0);
      assert Execution(r, i) in xs && Gave(Execution(r, i), t);
    }
  }

  lemma RepliedStays(c: Cache, s: Settings, a: Agent)
    requires a.phase.Replied?
    ensures Next(c, s, a) == (None, a.phase)
  {
  }

  /** One step of a request keeps everything given, itself included. */
  lemma NextGives(h: History, s: Settings, w: real, xs: set<Execution>, a: Agent)
    requires h.Valid() && AllJustified(h, s, w) && AllGiven(xs, h.ops) && AgentGiven(xs, a)
    ensures var (op, phase) := Next(End(h), s, a);
            var a' := a.(phase := phase);
            var xs' := xs + DoneBy(a');
            && (op.Some? ==> AllGiven(xs', h.ops + [op.value])) && AllGiven(xs', h.ops)
            && AgentGiven(xs', a') && DoneBy(a) <= DoneBy(a')
  {
    hide AllJustified, AllGiven, AgentGiven, Next, DoneBy, End, History.Valid;
    var a' := a.(phase := Next(End(h), s, a).1);
    var xs' := xs + DoneBy(a');
    AllGivenMonotone(xs, xs', h.ops);
    AgentGivenMonotone(xs, xs', a);
    match a.phase
    case Asking => LookingGives(h, s, w, xs', a);
    case Trying(_) => LookingGives(h, s, w, xs', a);
    case Executing(_) => ExecutingGives(xs', s, a, End(h));
    case Storing(_) => StoringGives(xs', h.ops, s, a, End(h));
    case Replied(_) => RepliedStays(End(h), s, a);
  }

  lemma DoneGrows(agents: seq<Agent>, i: nat, a': Agent)
    requires i < |agents| && DoneBy(agents[i]) <= DoneBy(a')
    ensures Done(agents[i := a']) == Done(agents) + DoneBy(a')
  {
    hide DoneBy;
    forall x | x in Done(agents) ensures x in Done(agents[i := a']) {
      var j :| 0 <= j < |agents| && x in DoneBy(agents[j]);
      assert x in DoneBy(agents[i := a'][j]);
    }
    forall x | x in DoneBy(a') ensures x in Done(agents[i := a']) {
      assert x in DoneBy(agents[i := a'][i]);
    }
  }

  lemma MovedGives(config: Config, s: Settings, ttl: real, w: real, sys: System, m: Move)
    requires Inv(config, s, ttl, w, sys) && SystemGiven(sys) && (m.Administer? ==> Admin(m.op))
    ensures SystemGiven(Moved(s, sys, m))
  {
    hide Apply, AllJustified, AllGiven, AgentGiven, Next, DoneBy, End, Done, Sound, TtlAtMost;
    var h, xs := History(config, sys.ops), Done(sys.agents);
    match m
    case Administer(op) => OneMoreLookup(xs, sys.ops, op);
    case Go(i) =>
      if i < |sys.agents| {
        var a := sys.agents[i];
        var a' := a.(phase := Next(sys.cache, s, a).1);
        NextGives(h, s, w, xs, a);
        DoneGrows(sys.agents, i, a');
        forall j | 0 <= j < |sys.agents| && j != i ensures AgentGiven(xs + DoneBy(a'), sys.agents[j]) {
          AgentGivenMonotone(xs, xs + DoneBy(a'), sys.agents[j]);
        }
      }
  }

  lemma StartIsGiven(config: Config, requests: seq<Request>)
    requires config.maxSize >= 1
    ensures SystemGiven(System([], New(config), Started(requests)))
  {
  }

  lemma {:induction false} EveryScheduleGives(config: Config, s: Settings, requests: seq<Request>, moves: seq<Move>,
                                              ttl: real, w: real)
    requires config.maxSize >= 1 && config.ttl as real <= ttl && RunnerInterleaved.Regular(requests, moves, ttl, w)
    ensures SystemGiven(Interleaved(config, s, requests, moves))
    decreases |moves|
  {
    hide Inv, Moved, Prompt, SystemGiven;
    if moves == [] {
      StartIsGiven(config, requests);
    } else {
      var before, m := moves[..|moves| - 1], moves[|moves| - 1];
      EveryScheduleSound(config, s, requests, before, ttl, w);
      EveryScheduleGives(config, s, requests, before, ttl, w);
      MovedGives(config, s, ttl, w, Interleaved(config, s, requests, before), m);
    }
  }

  /** However requests and administration interleave, the rows of every reply are what the database gave
      to a request that has run, by then, a statement with the words of the one the reply is for, in the
      same prompt version, mode and scope. */
  lemma EveryReplyIsTheDatabases(config: Config, s: Settings, requests: seq<Request>, moves: seq<Move>, i: nat,
                                 ttl: real, w: real)
    requires config.maxSize >= 1 && config.ttl as real <= ttl && RunnerInterleaved.Regular(requests, moves, ttl, w)
    requires i < |requests|
    ensures var agents := Interleaved(config, s, requests, moves).agents;
            && |agents| == |requests|
            && (agents[i].phase.Replied? ==> FromTheDatabase(Done(agents), requests[i], agents[i].phase.reply))
  {
    hide Interleaved, Served, AllJustified, AllGiven, ReplyGiven, FromTheDatabase, Done;
    EveryScheduleGives(config, s, requests, moves, ttl, w);
    EveryReplyIsServed(config, s, requests, moves, i, ttl, w);
    RequestsStay(config, s, requests, moves);
    var agents := Interleaved(config, s, requests, moves).agents;
    if agents[i].phase.Replied? {
      GivenIsFromTheDatabase(Done(agents), s, requests[i], agents[i].phase.reply, ttl, w);
    }
  }
}
