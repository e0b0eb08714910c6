/** Runs of requests and administration: every `set` they make is justified, so what they serve has
    a bounded age and is the caller's own. */
module RunnerRuns {
  import opened Options
  import opened QueryCacheSpec
  import opened QueryCacheRuns
  import opened Runner
  import opened RunnerAge

  function More(h: History, ops: seq<Op>): History { History(h.config, h.ops + ops) }

  ghost function End(h: History): (c: Cache)
    requires h.Valid()
    ensures c.Valid()
  {
    h.At(|h.ops|)
  }

  lemma {:induction false} PrefixStable(config: Config, a: seq<Op>, b: seq<Op>, n: nat)
    requires config.maxSize >= 1 && n <= |a| && Admissible(a) && Admissible(a + b)
    ensures After(config, a + b, n) == After(config, a, n)
  {
    if n > 0 {
      PrefixStable(config, a, b, n - 1);
    }
  }

  lemma ReusedStays(h: History, op: Op, j: nat, t: Table)
    requires h.Valid() && More(h, [op]).Valid() && j < |h.ops|
    ensures ReusedFrom(More(h, [op]), j, t) == ReusedFrom(h, j, t)
  {
    PrefixStable(h.config, h.ops, [op], j);
  }

  lemma RecentStays(h: History, op: Op, i: nat, t: Table, now: real, w: real)
    requires h.Valid() && More(h, [op]).Valid() && i <= |h.ops| && Recent(h, i, t, now, w)
    ensures Recent(More(h, [op]), i, t, now, w)
  {
    hide After;
    if !(t.reuses == 0 && now <= t.executedAt + w) {
      var j :| 0 <= j < i && ReusedFrom(h, j, t) && now <= h.ops[j].now + w;
      ReusedStays(h, op, j, t);
      assert More(h, [op]).ops[j] == h.ops[j];
    }
  }

  /** One more operation keeps every `set` justified when it is itself. */
  lemma Extend(h: History, s: Settings, w: real, op: Op)
    requires h.Valid() && AllJustified(h, s, w) && (op.Reconfigure? ==> op.config.maxSize >= 1)
    requires op.Set? ==>
               && op.answer.result.Some? && Filed(s, op.key, op.sqlKey, op.answer, op.answer.result.value)
               && Recent(h, |h.ops|, op.answer.result.value, op.now, w)
    ensures More(h, [op]).Valid() && AllJustified(More(h, [op]), s, w)
    ensures End(More(h, [op])) == Apply(End(h), op) && More(h, [op]).At(|h.ops|) == End(h)
  {
    hide Apply, Recent, Filed;
    var h' := More(h, [op]);
    assert h'.Valid();
    PrefixStable(h.config, h.ops, [op], |h.ops|);
    forall i | 0 <= i < |h'.ops| ensures Justified(h', s, w, i) {
      if i < |h.ops| {
        assert Justified(h, s, w, i) && h'.ops[i] == h.ops[i];
      }
      if h'.ops[i].Set? {
        RecentStays(h, op, i, h'.ops[i].answer.result.value, h'.ops[i].now, w);
      }
    }
  }

  /** Where a statement's rows come from: it was executed at `ran.at`, or an operation of that time
      found its rows in the SQL index. */
  ghost predicate Origin(h: History, ran: Ran)
    requires h.Valid()
  {
    || (ran.table.reuses == 0 && ran.table.executedAt == ran.at)
    || exists j :: 0 <= j < |h.ops| && ReusedFrom(h, j, ran.table) && h.ops[j].now == ran.at
  }

  /** The clock readings of one request: the store follows the lookup or the execution within `w`. */
  predicate Prompt(r: Request, w: real) {
    forall i :: 0 <= i < |r.attempts| && r.attempts[i].Statement? ==> r.storedAt <= r.attempts[i].at + w
  }

  lemma LookupExtends(h: History, s: Settings, w: real, r: Request, i: nat)
    requires h.Valid() && AllJustified(h, s, w) && i < |r.attempts| && r.attempts[i].Statement? && r.UsesCache()
    ensures var op := GetBySql(r.SqlKey(r.attempts[i].sql), r.attempts[i].at);
            var h' := More(h, [op]);
            && h'.Valid() && AllJustified(h', s, w) && End(h') == Apply(End(h), op)
            && (Reusable(Found(End(h), op)).Some? ==>
                  var ran := Ran(r.attempts[i].sql, Reusable(Found(End(h), op)).value, i + 1, r.attempts[i].at);
                  Origin(h', ran) && ran.table.statement == r.SqlKey(ran.sql))
  {
    hide After, Apply, Found, AllJustified;
    var op := GetBySql(r.SqlKey(r.attempts[i].sql), r.attempts[i].at);
    Extend(h, s, w, op);
    var h', n := More(h, [op]), |h.ops|;
    assert h'.ops[n] == op;
    if Reusable(Found(End(h), op)).Some? {
      FoundIsOwn(h', s, w, n);
      assert ReusedFrom(h', n, Reusable(Found(End(h), op)).value);
    }
  }

  lemma MoreMore(h: History, a: seq<Op>, b: seq<Op>)
    ensures More(More(h, a), b) == More(h, a + b) && More(h, []) == h
  {
    assert h.ops + (a + b) == h.ops + a + b && h.ops + [] == h.ops;
  }

  /** Which round gives the rows, and for which statement. */
  lemma {:induction false} TriedRound(c: Cache, r: Request, i: nat)
    requires c.Valid() && i <= |r.attempts|
    ensures var ran := Tried(c, r, i).ran;
            match ran
            case Some(ran) =>
              && (!r.UsesCache() ==> ran.table.reuses == 0)
              && ran.round >= 1 && FirstToGive(r, i, ran.round - 1, ran)
            case None => exists m :: NoneGivesUntil(r, i, m)
    decreases |r.attempts| - i
  {
    hide Apply, Found, Cache.Valid;
    var next := i + 1;
    if i == |r.attempts| || r.attempts[i].Refused? {
      assert NoneGivesUntil(r, i, i);
    } else if r.attempts[i].Rejected? || r.attempts[i].outcome.None? {
      var c' := if r.attempts[i].Statement? && r.UsesCache()
                then Apply(c, GetBySql(r.SqlKey(r.attempts[i].sql), r.attempts[i].at)) else c;
      TriedRound(c', r, next);
      if Tried(c', r, next).ran.None? {
        var m :| NoneGivesUntil(r, next, m);
        assert NoneGivesUntil(r, i, m);
      }
    }
  }

  lemma {:induction false} TriedRuns(h: History, s: Settings, w: real, r: Request, i: nat)
    requires h.Valid() && AllJustified(h, s, w) && i <= |r.attempts|
    ensures var t := Tried(End(h), r, i);
            var h' := More(h, t.ops);
            && h'.Valid() && AllJustified(h', s, w) && End(h') == t.cache
            && (t.ran.Some? ==>
                  && Origin(h', t.ran.value) && t.ran.value.table.statement == r.SqlKey(t.ran.value.sql))
    decreases |r.attempts| - i
  {
    hide After, Apply, Found, AllJustified;
    MoreMore(h, [], []);
    if i < |r.attempts| && r.attempts[i].Rejected? {
      TriedRuns(h, s, w, r, i + 1);
    } else if i < |r.attempts| && r.attempts[i].Statement? {
      if r.UsesCache() {
        var op := GetBySql(r.SqlKey(r.attempts[i].sql), r.attempts[i].at);
        LookupExtends(h, s, w, r, i);
        if Reusable(Found(End(h), op)).None? && r.attempts[i].outcome.None? {
          TriedRuns(More(h, [op]), s, w, r, i + 1);
          MoreMore(h, [op], Tried(Apply(End(h), op), r, i + 1).ops);
        }
      } else if r.attempts[i].outcome.None? {
        TriedRuns(h, s, w, r, i + 1);
        assert [] + Tried(End(h), r, i + 1).ops == Tried(End(h), r, i + 1).ops;
      }
    }
  }

  /** What a request is promised about its reply. */
  ghost predicate Served(s: Settings, r: Request, reply: Reply, ttl: real, w: real) {
    match reply
    case Cached(a) =>
      && !r.interpret && !r.mode.Sql? && a.scalars.model == Some(s.model)
      && a.result.Some? && Shows(a, a.result.value) && s.fold(a.scalars.question) == s.fold(r.question)
      && a.result.value.statement.0 == r.prefix && a.result.value.statement.2 == ModeName(r.mode)
      && a.result.value.statement.3 == r.scope
      && r.lookedAt <= a.result.value.executedAt + Span(a.result.value.reuses + 1, ttl, w)
    case Answered(a, sql, at) =>
      && !r.mode.Sql? && a.scalars.model == Some(s.model) && a.scalars.sql == (if r.mode.Full? then Some(sql) else None)
      && a.result.Some? && Shows(a, a.result.value) && a.scalars.question == r.question
      && a.result.value.statement == r.SqlKey(sql)
      && a.scalars.correctionAttempts.Some? && a.scalars.correctionAttempts.value >= 1
      && var round := a.scalars.correctionAttempts.value;
      && FirstToGive(r, 0, round - 1, Ran(sql, a.result.value, round, at))
      && at <= a.result.value.executedAt + Span(a.result.value.reuses, ttl, w)
      && (r.interpret ==> a.result.value.reuses == 0)
      && (a.result.value.reuses == 0 ==> at == a.result.value.executedAt)
    case Generated(a) =>
      && r.mode.Sql? && a.result.None? && a.scalars.question == r.question && a.scalars.model == Some(s.model)
      && a.scalars.rowCount.None? && a.scalars.sql.Some? && exists m :: ApprovedAt(r, 0, m, a.scalars.sql.value)
    case Failed =>
      if r.mode.Sql? then exists m :: UnapprovedUntil(r, 0, m) else exists m :: NoneGivesUntil(r, 0, m)
  }

  lemma CachedIsServed(h: History, s: Settings, ttl: real, w: real, r: Request)
    requires h.Valid() && AllJustified(h, s, w) && TtlAtMost(h.config, h.ops, ttl)
    requires !r.interpret && !r.mode.Sql?
    requires var lookup := Get(r.QuestionKey(s), r.lookedAt); Found(End(h), lookup).Some?
    ensures Served(s, r, Cached(Found(End(h), Get(r.QuestionKey(s), r.lookedAt)).value), ttl, w)
  {
    hide After, Apply, AllJustified, Found, Span;
    var lookup := Get(r.QuestionKey(s), r.lookedAt);
    Extend(h, s, w, lookup);
    var h', n := More(h, [lookup]), |h.ops|;
    assert h'.ops[n] == lookup;
    FoundIsOwn(h', s, w, n);
    FoundAge(h', s, ttl, w, n);
    var a := Found(End(h), lookup).value;
    SamePrefix(a.result.value.statement.0, r.prefix, s.namespace);
  }

  lemma OriginIsRecent(h: History, ran: Ran, w: real, now: real)
    requires h.Valid() && Origin(h, ran) && now <= ran.at + w
    ensures Recent(h, |h.ops|, ran.table, now, w)
  {
    hide After, Found;
    if !(ran.table.reuses == 0 && ran.table.executedAt == ran.at) {
      var j :| 0 <= j < |h.ops| && ReusedFrom(h, j, ran.table) && h.ops[j].now == ran.at;
      assert ReusedFrom(h, j, ran.table) && now <= h.ops[j].now + w;
    }
  }

  lemma OriginAge(h: History, s: Settings, ttl: real, w: real, ran: Ran)
    requires h.Valid() && AllJustified(h, s, w) && TtlAtMost(h.config, h.ops, ttl) && Origin(h, ran)
    ensures ran.at <= ran.table.executedAt + Span(ran.table.reuses, ttl, w)
    ensures ran.table.reuses == 0 ==> ran.at == ran.table.executedAt
  {
    hide After, Found, AllJustified, Span;
    SpanStep(0, ttl, w);
    if !(ran.table.reuses == 0 && ran.table.executedAt == ran.at) {
      var j :| 0 <= j < |h.ops| && ReusedFrom(h, j, ran.table) && h.ops[j].now == ran.at;
      FoundAge(h, s, ttl, w, j);
    }
  }

  lemma PlainTtl(config: Config, a: seq<Op>, b: seq<Op>, ttl: real)
    requires TtlAtMost(config, a, ttl) && forall i :: 0 <= i < |b| ==> !b[i].Reconfigure?
    ensures TtlAtMost(config, a + b, ttl)
  {
  }

  lemma StoreExtends(h: History, s: Settings, w: real, r: Request, ran: Ran)
    requires h.Valid() && AllJustified(h, s, w) && Origin(h, ran) && ran.table.statement == r.SqlKey(ran.sql)
    requires r.storedAt <= ran.at + w
    ensures var h' := More(h, [StoreOp(s, r, ran)]);
            h'.Valid() && AllJustified(h', s, w) && End(h') == Apply(End(h), StoreOp(s, r, ran))
  {
    hide After, Apply, Found, AllJustified, Origin, Recent;
    OriginIsRecent(h, ran, w, r.storedAt);
    Extend(h, s, w, StoreOp(s, r, ran));
  }

  /** One request extends a justified history to a justified history, and its reply is as promised. */
  lemma AskRuns(h: History, s: Settings, ttl: real, w: real, r: Request)
    requires h.Valid() && AllJustified(h, s, w) && TtlAtMost(h.config, h.ops, ttl) && Prompt(r, w)
    ensures var a := Ask(End(h), s, r);
            var h' := More(h, a.ops);
            && h'.Valid() && AllJustified(h', s, w) && End(h') == a.cache && TtlAtMost(h'.config, h'.ops, ttl)
            && Served(s, r, a.reply, ttl, w)
  {
    hide After, Apply, Found, Tried, AllJustified, Origin, Span, TtlAtMost, Reusable;
    var a := Ask(End(h), s, r);
    FirstApprovedIs(r, 0);
    var lookup := Get(r.QuestionKey(s), r.lookedAt);
    PlainTtl(h.config, h.ops, a.ops, ttl);
    MoreMore(h, [], []);
    if r.UsesCache() && Found(End(h), lookup).Some? {
      CachedIsServed(h, s, ttl, w, r);
      Extend(h, s, w, lookup);
    } else if !r.mode.Sql? {
      var first := if r.UsesCache() then [lookup] else [];
      if r.UsesCache() { Extend(h, s, w, lookup); }
      var h1 := More(h, first);
      var t := Tried(End(h1), r, 0);
      TriedRuns(h1, s, w, r, 0);
      TriedRound(End(h1), r, 0);
      MoreMore(h, first, t.ops);
      var h2 := More(h1, t.ops);
      if t.ran.Some? {
        PlainTtl(h.config, h.ops, first + t.ops, ttl);
        OriginAge(h2, s, ttl, w, t.ran.value);
        if r.UsesCache() {
          StoreExtends(h2, s, w, r, t.ran.value);
          MoreMore(h, first + t.ops, [StoreOp(s, r, t.ran.value)]);
        }
      }
    }
  }

  // ---- whole runs

  datatype Event = AskEvent(request: Request) | AdminEvent(op: Op)

  predicate Admin(op: Op) {
    op.Invalidate? || op.Clear? || (op.Reconfigure? && op.config.maxSize >= 1)
  }

  predicate Regular(events: seq<Event>, ttl: real, w: real) {
    forall i :: 0 <= i < |events| ==>
      match events[i]
      case AskEvent(r) => Prompt(r, w)
      case AdminEvent(op) => Admin(op) && (op.Reconfigure? ==> op.config.ttl as real <= ttl)
  }

  /** What the first `n` events did: the cache operations so far and the cache. */
  datatype World = World(ops: seq<Op>, cache: Cache)

  function Play(config: Config, s: Settings, events: seq<Event>, n: nat): (world: World)
    requires config.maxSize >= 1 && n <= |events|
    requires forall i :: 0 <= i < n && events[i].AdminEvent? ==> Admin(events[i].op)
    ensures world.cache.Valid()
  {
    if n == 0 then World([], New(config))
    else
      var before := Play(config, s, events, n - 1);
      match events[n - 1]
      case AskEvent(r) => var a := Ask(before.cache, s, r); World(before.ops + a.ops, a.cache)
      case AdminEvent(op) =>
        assert Admin(events[n - 1].op);
        World(before.ops + [op], Apply(before.cache, op))
  }

  lemma {:induction false} PlayIsJustified(config: Config, s: Settings, events: seq<Event>, n: nat, ttl: real, w: real)
    requires config.maxSize >= 1 && config.ttl as real <= ttl && Regular(events, ttl, w) && n <= |events|
    ensures var h := History(config, Play(config, s, events, n).ops);
            && h.Valid() && AllJustified(h, s, w) && TtlAtMost(config, h.ops, ttl)
            && End(h) == Play(config, s, events, n).cache
  {
    hide Apply, Found, Ask;
    if n > 0 {
      PlayIsJustified(config, s, events, n - 1, ttl, w);
      var h := History(config, Play(config, s, events, n - 1).ops);
      match events[n - 1]
      case AskEvent(r) => AskRuns(h, s, ttl, w, r);
      case AdminEvent(op) => Extend(h, s, w, op);
    }
  }

  /** In every run, rows served from the question index were executed at most `reuses + 1` lifetimes
      (and delays) before, rows reused through the SQL index at most `reuses`, and every reply is to
      the caller's own question, statement, mode, prompt version and scope. */
  lemma ServedRows(config: Config, s: Settings, events: seq<Event>, n: nat, ttl: real, w: real)
    requires config.maxSize >= 1 && config.ttl as real <= ttl && Regular(events, ttl, w)
    requires n < |events| && events[n].AskEvent?
    ensures var r := events[n].request;
            Served(s, r, Ask(Play(config, s, events, n).cache, s, r).reply, ttl, w)
  {
    hide Apply, Found, Ask, Served, AllJustified;
    PlayIsJustified(config, s, events, n, ttl, w);
    AskRuns(History(config, Play(config, s, events, n).ops), s, ttl, w, events[n].request);
  }
}
