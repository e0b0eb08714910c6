/** Requests that run at the same time: each is a step machine whose steps make at most one cache
    operation, and any schedule of their steps and of administration is a run. */
module RunnerInterleaved {
  import opened Options
  import opened QueryCacheSpec
  import opened QueryCacheRuns
  import opened Runner
  import opened RunnerAge
  import opened RunnerRuns

  /** Where a request stands: before its lookup, before the lookup of round `round`, before the
      execution of that round's statement, with rows to store, or answered. */
  datatype Phase =
    | Asking
    | Trying(round: nat)
    | Executing(round: nat)
    | Storing(ran: Ran)
    | Replied(reply: Reply)

  datatype Agent = Agent(request: Request, phase: Phase)

  /** One step of a request: the cache operation it makes, if any, and where the request then stands. */
  function Next(c: Cache, s: Settings, a: Agent): (Option<Op>, Phase) {
    var r := a.request;
    match a.phase
    case Asking =>
      if r.mode.Sql? then
        var sql := FirstApproved(r, 0);
        (None, Replied(if sql.None? then Failed
                       else Generated(Answer(Scalars(r.question, sql, None, None, None, Some(s.model)), None))))
      else if !r.UsesCache() then (None, Trying(0))
      else
        var lookup := Get(r.QuestionKey(s), r.lookedAt);
        (Some(lookup), if Found(c, lookup).Some? then Replied(Cached(Found(c, lookup).value)) else Trying(0))
    case Trying(i) =>
      if i >= |r.attempts| || r.attempts[i].Refused? then (None, Replied(Failed))
      else if r.attempts[i].Rejected? then (None, Trying(i + 1))
      else if !r.UsesCache() then (None, Executing(i))
      else
        var op := GetBySql(r.SqlKey(r.attempts[i].sql), r.attempts[i].at);
        var reused := Reusable(Found(c, op));
        (Some(op), if reused.None? then Executing(i)
                   else Storing(Ran(r.attempts[i].sql, reused.value, i + 1, r.attempts[i].at)))
    case Executing(i) =>
      if i >= |r.attempts| || !r.attempts[i].Statement? then (None, Replied(Failed))
      else
        var Statement(sql, at, outcome) := r.attempts[i];
        (None, if outcome.None? then Trying(i + 1)
               else Storing(Ran(sql, Table(outcome.value, r.SqlKey(sql), at, 0), i + 1, at)))
    case Storing(ran) =>
      (if r.UsesCache() then Some(StoreOp(s, r, ran)) else None,
       Replied(Answered(ResponseOf(s, r, ran), ran.sql, ran.at)))
    case Replied(_) => (None, a.phase)
  }

  // ---- schedules -------------------------------------------------------------------------------------

  datatype Move = Go(agent: nat) | Administer(op: Op)

  /** The cache operations so far, the cache, and the requests. */
  datatype System = System(ops: seq<Op>, cache: Cache, agents: seq<Agent>)

  predicate Regular(requests: seq<Request>, moves: seq<Move>, ttl: real, w: real) {
    && (forall i :: 0 <= i < |requests| ==> Prompt(requests[i], w))
    && forall i :: 0 <= i < |moves| && moves[i].Administer? ==>
         Admin(moves[i].op) && (moves[i].op.Reconfigure? ==> moves[i].op.config.ttl as real <= ttl)
  }

  function Moved(s: Settings, sys: System, m: Move): (sys': System)
    requires sys.cache.Valid() && (m.Administer? ==> Admin(m.op))
    ensures sys'.cache.Valid()
  {
    match m
    case Administer(op) => sys.(ops := sys.ops + [op], cache := Apply(sys.cache, op))
    case Go(i) =>
      if i >= |sys.agents| then sys
      else
        var a := sys.agents[i];
        var (op, phase) := Next(sys.cache, s, a);
        var agents := sys.agents[i := a.(phase := phase)];
        if op.None? then sys.(agents := agents)
        else System(sys.ops + [op.value], Apply(sys.cache, op.value), agents)
  }

  function Started(requests: seq<Request>): seq<Agent> {
    seq(|requests|, i requires 0 <= i < |requests| => Agent(requests[i], Asking))
  }

  /** All requests have arrived; `moves` says who goes when. */
  function Interleaved(config: Config, s: Settings, requests: seq<Request>, moves: seq<Move>): (sys: System)
    requires config.maxSize >= 1 && forall i :: 0 <= i < |moves| && moves[i].Administer? ==> Admin(moves[i].op)
    ensures sys.cache.Valid()
    decreases |moves|
  {
    if moves == [] then System([], New(config), Started(requests))
    else Moved(s, Interleaved(config, s, requests, moves[..|moves| - 1]), moves[|moves| - 1])
  }

  // ---- what every schedule keeps -----------------------------------------------------------------------

  /** No round before `i` gave rows or was refused for good. */
  predicate NoneBefore(r: Request, i: nat) {
    && i <= |r.attempts|
    && forall e :: 0 <= e < i ==> !r.attempts[e].Refused? && (r.attempts[e].Statement? ==> r.attempts[e].outcome.None?)
  }

  /** Rows to store come from the first round that gives any, from an execution or a lookup at its time. */
  ghost predicate Obtained(h: History, r: Request, ran: Ran)
    requires h.Valid()
  {
    && ran.round >= 1 && FirstToGive(r, 0, ran.round - 1, ran)
    && Origin(h, ran) && ran.table.statement == r.SqlKey(ran.sql) && (!r.UsesCache() ==> ran.table.reuses == 0)
  }

  ghost predicate Sound(h: History, s: Settings, ttl: real, w: real, a: Agent)
    requires h.Valid()
  {
    match a.phase
    case Asking => true
    case Trying(i) => !a.request.mode.Sql? && NoneBefore(a.request, i)
    case Executing(i) =>
      !a.request.mode.Sql? && NoneBefore(a.request, i) && i < |a.request.attempts| && a.request.attempts[i].Statement?
    case Storing(ran) => !a.request.mode.Sql? && Obtained(h, a.request, ran)
    case Replied(reply) => Served(s, a.request, reply, ttl, w)
  }

  /** The invariant of every schedule. */
  ghost predicate Inv(config: Config, s: Settings, ttl: real, w: real, sys: System) {
    var h := History(config, sys.ops);
    && h.Valid() && AllJustified(h, s, w) && TtlAtMost(config, sys.ops, ttl) && sys.cache == End(h)
    && forall i :: 0 <= i < |sys.agents| ==>
         Prompt(sys.agents[i].request, w) && Sound(h, s, ttl, w, sys.agents[i])
  }

  lemma OriginStays(h: History, op: Op, ran: Ran)
    requires h.Valid() && More(h, [op]).Valid() && Origin(h, ran)
    ensures Origin(More(h, [op]), ran)
  {
    hide After;
    if !(ran.table.reuses == 0 && ran.table.executedAt == ran.at) {
      var j :| 0 <= j < |h.ops| && ReusedFrom(h, j, ran.table) && h.ops[j].now == ran.at;
      ReusedStays(h, op, j, ran.table);
      assert More(h, [op]).ops[j] == h.ops[j];
    }
  }

  /** What other requests and administration do leaves a request's standing sound. */
  lemma SoundStays(h: History, s: Settings, ttl: real, w: real, op: Op, a: Agent)
    requires h.Valid() && More(h, [op]).Valid() && Sound(h, s, ttl, w, a)
    ensures Sound(More(h, [op]), s, ttl, w, a)
  {
    hide Served, Origin, FirstToGive;
    if a.phase.Storing? {
      OriginStays(h, op, a.phase.ran);
    }
  }

  lemma AskingIsSound(h: History, s: Settings, ttl: real, w: real, r: Request)
    requires h.Valid() && AllJustified(h, s, w) && TtlAtMost(h.config, h.ops, ttl)
    ensures var (op, phase) := Next(End(h), s, Agent(r, Asking));
            var h' := More(h, if op.Some? then [op.value] else []);
            && h'.Valid() && AllJustified(h', s, w) && TtlAtMost(h'.config, h'.ops, ttl)
            && End(h') == (if op.Some? then Apply(End(h), op.value) else End(h))
            && Sound(h', s, ttl, w, Agent(r, phase))
  {
    hide After, Apply, Found, AllJustified, TtlAtMost, Span;
    MoreMore(h, [], []);
    FirstApprovedIs(r, 0);
    if r.UsesCache() {
      var lookup := Get(r.QuestionKey(s), r.lookedAt);
      Extend(h, s, w, lookup);
      PlainTtl(h.config, h.ops, [lookup], ttl);
      if Found(End(h), lookup).Some? { CachedIsServed(h, s, ttl, w, r); }
    }
  }

  lemma TryingIsSound(h: History, s: Settings, ttl: real, w: real, r: Request, i: nat)
    requires h.Valid() && AllJustified(h, s, w) && TtlAtMost(h.config, h.ops, ttl)
    requires !r.mode.Sql? && NoneBefore(r, i)
    ensures var (op, phase) := Next(End(h), s, Agent(r, Trying(i)));
            var h' := More(h, if op.Some? then [op.value] else []);
            && h'.Valid() && AllJustified(h', s, w) && TtlAtMost(h'.config, h'.ops, ttl)
            && End(h') == (if op.Some? then Apply(End(h), op.value) else End(h))
            && Sound(h', s, ttl, w, Agent(r, phase))
  {
    hide After, Apply, Found, AllJustified, TtlAtMost, Span, Origin;
    MoreMore(h, [], []);
    if i == |r.attempts| || r.attempts[i].Refused? {
      assert NoneGivesUntil(r, 0, i);
    } else if r.attempts[i].Statement? && r.UsesCache() {
      LookupExtends(h, s, w, r, i);
      PlainTtl(h.config, h.ops, [GetBySql(r.SqlKey(r.attempts[i].sql), r.attempts[i].at)], ttl);
    }
  }

  lemma StoringIsSound(h: History, s: Settings, ttl: real, w: real, r: Request, ran: Ran)
    requires h.Valid() && AllJustified(h, s, w) && TtlAtMost(h.config, h.ops, ttl)
    requires Prompt(r, w) && !r.mode.Sql? && Obtained(h, r, ran)
    ensures var h' := More(h, if r.UsesCache() then [StoreOp(s, r, ran)] else []);
            && h'.Valid() && AllJustified(h', s, w) && TtlAtMost(h'.config, h'.ops, ttl)
            && End(h') == (if r.UsesCache() then Apply(End(h), StoreOp(s, r, ran)) else End(h))
            && Served(s, r, Answered(ResponseOf(s, r, ran), ran.sql, ran.at), ttl, w)
  {
    hide After, Apply, AllJustified, TtlAtMost, Span, Origin;
    MoreMore(h, [], []);
    OriginAge(h, s, ttl, w, ran);
    if r.UsesCache() {
      StoreExtends(h, s, w, r, ran);
      PlainTtl(h.config, h.ops, [StoreOp(s, r, ran)], ttl);
    }
  }

  lemma ExecutingIsSound(h: History, r: Request, i: nat)
    requires h.Valid() && NoneBefore(r, i) && i < |r.attempts| && r.attempts[i].Statement?
    ensures var Statement(sql, at, outcome) := r.attempts[i];
            match outcome
            case None => NoneBefore(r, i + 1)
            case Some(rows) => Obtained(h, r, Ran(sql, Table(rows, r.SqlKey(sql), at, 0), i + 1, at))
  {
  }

  /** The operation of a step is justified, and the request stands soundly after it. */
  lemma NextIsSound(h: History, s: Settings, ttl: real, w: real, a: Agent)
    requires h.Valid() && AllJustified(h, s, w) && TtlAtMost(h.config, h.ops, ttl)
    requires Prompt(a.request, w) && Sound(h, s, ttl, w, a)
    ensures var (op, phase) := Next(End(h), s, a);
            var ops := if op.Some? then [op.value] else [];
            var h' := More(h, ops);
            && h'.Valid() && AllJustified(h', s, w) && TtlAtMost(h'.config, h'.ops, ttl)
            && End(h') == (if op.Some? then Apply(End(h), op.value) else End(h))
            && Sound(h', s, ttl, w, a.(phase := phase))
  {
    hide After, Apply, Found, AllJustified, TtlAtMost, Span;
    MoreMore(h, [], []);
    match a.phase
    case Asking => AskingIsSound(h, s, ttl, w, a.request);
    case Trying(i) => TryingIsSound(h, s, ttl, w, a.request, i);
    case Executing(i) => ExecutingIsSound(h, a.request, i);
    case Storing(ran) => StoringIsSound(h, s, ttl, w, a.request, ran);
    case Replied(_) =>
  }

  lemma MovedKeeps(config: Config, s: Settings, ttl: real, w: real, sys: System, m: Move)
    requires Inv(config, s, ttl, w, sys)
    requires m.Administer? ==> Admin(m.op) && (m.op.Reconfigure? ==> m.op.config.ttl as real <= ttl)
    ensures Inv(config, s, ttl, w, Moved(s, sys, m))
  {
    hide After, Apply, Found, AllJustified, Sound, Prompt, Next;
    var h := History(config, sys.ops);
    match m
    case Administer(op) =>
      Extend(h, s, w, op);
      forall i | 0 <= i < |sys.agents| ensures Sound(More(h, [op]), s, ttl, w, sys.agents[i]) {
        SoundStays(h, s, ttl, w, op, sys.agents[i]);
      }
    case Go(i) =>
      if i < |sys.agents| {
        var op := Next(End(h), s, sys.agents[i]).0;
        NextIsSound(h, s, ttl, w, sys.agents[i]);
        MoreMore(h, [], []);
        forall j | 0 <= j < |sys.agents| && j != i && op.Some?
          ensures Sound(More(h, [op.value]), s, ttl, w, sys.agents[j])
        {
          SoundStays(h, s, ttl, w, op.value, sys.agents[j]);
        }
      }
  }

  lemma StartIsSound(config: Config, s: Settings, requests: seq<Request>, ttl: real, w: real)
    requires config.maxSize >= 1 && config.ttl as real <= ttl
    requires forall i :: 0 <= i < |requests| ==> Prompt(requests[i], w)
    ensures Inv(config, s, ttl, w, System([], New(config), Started(requests)))
  {
  }

  lemma {:induction false} EveryScheduleSound(config: Config, s: Settings, requests: seq<Request>, moves: seq<Move>,
                                              ttl: real, w: real)
    requires config.maxSize >= 1 && config.ttl as real <= ttl && Regular(requests, moves, ttl, w)
    ensures Inv(config, s, ttl, w, Interleaved(config, s, requests, moves))
    decreases |moves|
  {
    hide Inv, Moved, Prompt;
    if moves == [] {
      StartIsSound(config, s, requests, ttl, w);
    } else {
      var before, m := moves[..|moves| - 1], moves[|moves| - 1];
      EveryScheduleSound(config, s, requests, before, ttl, w);
      MovedKeeps(config, s, ttl, w, Interleaved(config, s, requests, before), m);
    }
  }

  lemma {:induction false} RequestsStay(config: Config, s: Settings, requests: seq<Request>, moves: seq<Move>)
    requires config.maxSize >= 1 && forall i :: 0 <= i < |moves| && moves[i].Administer? ==> Admin(moves[i].op)
    ensures var agents := Interleaved(config, s, requests, moves).agents;
            |agents| == |requests| && forall i :: 0 <= i < |requests| ==> agents[i].request == requests[i]
    decreases |moves|
  {
    hide Apply, Next;
    if moves != [] {
      RequestsStay(config, s, requests, moves[..|moves| - 1]);
    }
  }

  /** However the requests and the administration interleave, every reply given is as promised: the
      age of its rows is bounded by their reuses, and they are the caller's own. */
  lemma EveryReplyIsServed(config: Config, s: Settings, requests: seq<Request>, moves: seq<Move>, i: nat,
                           ttl: real, w: real)
    requires config.maxSize >= 1 && config.ttl as real <= ttl && Regular(requests, moves, ttl, w) && i < |requests|
    ensures var agents := Interleaved(config, s, requests, moves).agents;
            && |agents| == |requests|
            && (agents[i].phase.Replied? ==> Served(s, requests[i], agents[i].phase.reply, ttl, w))
  {
    hide Interleaved, Served, AllJustified;
    RequestsStay(config, s, requests, moves);
    EveryScheduleSound(config, s, requests, moves, ttl, w);
  }

  /** And every lookup that finds rows finds some of that age, of the statement or the question asked for. */
  lemma EveryLookupFindsOwn(config: Config, s: Settings, requests: seq<Request>, moves: seq<Move>, i: nat,
                            ttl: real, w: real)
    requires config.maxSize >= 1 && config.ttl as real <= ttl && Regular(requests, moves, ttl, w)
    requires i < |Interleaved(config, s, requests, moves).ops|
    ensures var h := History(config, Interleaved(config, s, requests, moves).ops);
            && h.Valid()
            && ((h.ops[i].Get? || h.ops[i].GetBySql?) && Found(h.At(i), h.ops[i]).Some? ==>
                  var a := Found(h.At(i), h.ops[i]).value;
                  && a.result.Some? && Shows(a, a.result.value)
                  && h.ops[i].now <= a.result.value.executedAt + Span(a.result.value.reuses + 1, ttl, w)
                  && if h.ops[i].GetBySql? then a.result.value.statement == h.ops[i].key
                     else Filed(s, h.ops[i].key, None, a, a.result.value))
  {
    hide Interleaved, AllJustified, After, Found, Shows, Span;
    EveryScheduleSound(config, s, requests, moves, ttl, w);
    var h := History(config, Interleaved(config, s, requests, moves).ops);
    if (h.ops[i].Get? || h.ops[i].GetBySql?) && Found(h.At(i), h.ops[i]).Some? {
      FoundIsOwn(h, s, w, i);
      FoundAge(h, s, ttl, w, i);
    }
  }

  // ---- a request alone ---------------------------------------------------------------------------------

  /** A bound on the steps a request still has to make. */
  function StepsLeft(a: Agent): nat {
    var n := |a.request.attempts|;
    match a.phase
    case Asking => 2 * n + 4
    case Trying(i) => if i < n then 2 * (n - i) + 2 else 2
    case Executing(i) => if i < n then 2 * (n - i) + 1 else 2
    case Storing(_) => 1
    case Replied(_) => 0
  }

  /** A request that runs without others in between: the cache and the reply in the end. */
  function Alone(c: Cache, s: Settings, a: Agent): (Cache, Reply)
    requires c.Valid()
    decreases StepsLeft(a)
  {
    hide Apply, Found, ResponseOf;
    if a.phase.Replied? then (c, a.phase.reply)
    else
      var (op, phase) := Next(c, s, a);
      Alone(if op.Some? then Apply(c, op.value) else c, s, a.(phase := phase))
  }

  /** How a request ends from its rounds on. */
  function Ending(t: Trial, s: Settings, r: Request): (Cache, Reply)
    requires t.cache.Valid()
  {
    match t.ran
    case None => (t.cache, Failed)
    case Some(ran) =>
      (if r.UsesCache() then Apply(t.cache, StoreOp(s, r, ran)) else t.cache,
       Answered(ResponseOf(s, r, ran), ran.sql, ran.at))
  }

  lemma StoringAlone(c: Cache, s: Settings, r: Request, ran: Ran)
    requires c.Valid()
    ensures Alone(c, s, Agent(r, Storing(ran)))
            == (if r.UsesCache() then Apply(c, StoreOp(s, r, ran)) else c,
                Answered(ResponseOf(s, r, ran), ran.sql, ran.at))
  {
    hide Apply, StoreOp, ResponseOf;
  }

  lemma ExecutingAlone(c: Cache, s: Settings, r: Request, i: nat)
    requires c.Valid() && i < |r.attempts| && r.attempts[i].Statement?
    ensures var Statement(sql, at, outcome) := r.attempts[i];
            Alone(c, s, Agent(r, Executing(i)))
            == match outcome
               case None => Alone(c, s, Agent(r, Trying(i + 1)))
               case Some(rows) =>
                 Ending(Trial([], Some(Ran(sql, Table(rows, r.SqlKey(sql), at, 0), i + 1, at)), c), s, r)
  {
    hide Apply, Found, StoreOp, ResponseOf;
    if r.attempts[i].outcome.Some? {
      var Statement(sql, at, outcome) := r.attempts[i];
      StoringAlone(c, s, r, Ran(sql, Table(outcome.value, r.SqlKey(sql), at, 0), i + 1, at));
    }
  }

  lemma {:induction false} RoundsAlone(c: Cache, s: Settings, r: Request, i: nat)
    requires c.Valid() && i <= |r.attempts|
    ensures Alone(c, s, Agent(r, Trying(i))) == Ending(Tried(c, r, i), s, r)
    decreases |r.attempts| - i
  {
    hide Apply, Found, StoreOp, ResponseOf;
    if i < |r.attempts| && r.attempts[i].Rejected? {
      RoundsAlone(c, s, r, i + 1);
    } else if i < |r.attempts| && r.attempts[i].Statement? {
      var op := GetBySql(r.SqlKey(r.attempts[i].sql), r.attempts[i].at);
      var c' := if r.UsesCache() then Apply(c, op) else c;
      var reused := Reusable(Found(c, op));
      if r.UsesCache() && reused.Some? {
        StoringAlone(c', s, r, Ran(r.attempts[i].sql, reused.value, i + 1, r.attempts[i].at));
      } else {
        ExecutingAlone(c', s, r, i);
        if r.attempts[i].outcome.None? { RoundsAlone(c', s, r, i + 1); }
      }
    }
  }

  /** Alone, the steps of a request are the request as a whole. */
  lemma AloneIsAsk(c: Cache, s: Settings, r: Request)
    requires c.Valid()
    ensures Alone(c, s, Agent(r, Asking)) == (Ask(c, s, r).cache, Ask(c, s, r).reply)
  {
    hide Apply, Found, Tried, StoreOp, ResponseOf;
    RoundsAlone(c, s, r, 0);
    if r.UsesCache() { RoundsAlone(Apply(c, Get(r.QuestionKey(s), r.lookedAt)), s, r, 0); }
  }
}
