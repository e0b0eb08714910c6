/** Where the rows of every reply come from: the database gave them to a request that ran a statement
    with the same words, in the same prompt version, mode and scope. */
module RunnerOrigin {
  import opened Options
  import opened QueryCacheSpec
  import opened QueryCacheRuns
  import opened Runner
  import opened RunnerAge
  import opened RunnerRuns
  import SqlText

  /** A request ran the statement of its round `round` in the database. */
  datatype Execution = Execution(request: Request, round: nat)

  /** The rows are what the database gave to that execution. */
  predicate Gave(x: Execution, t: Table) {
    && x.round < |x.request.attempts| && x.request.attempts[x.round].Statement?
    && x.request.attempts[x.round].outcome == Some(t.rows) && x.request.attempts[x.round].at == t.executedAt
    && t.statement == x.request.SqlKey(x.request.attempts[x.round].sql)
  }

  ghost predicate Given(xs: set<Execution>, t: Table) { exists x :: x in xs && Gave(x, t) }

  /** Every `set` stores rows that were given. */
  ghost predicate AllGiven(xs: set<Execution>, ops: seq<Op>) {
    forall i :: 0 <= i < |ops| && ops[i].Set? && ops[i].answer.result.Some? ==> Given(xs, ops[i].answer.result.value)
  }

  lemma NothingGiven()
    ensures AllGiven({}, [])
  {
  }

  lemma GivenMonotone(xs: set<Execution>, ys: set<Execution>, t: Table)
    requires Given(xs, t) && xs <= ys
    ensures Given(ys, t)
  {
  }

  lemma AllGivenMonotone(xs: set<Execution>, ys: set<Execution>, ops: seq<Op>)
    requires AllGiven(xs, ops) && xs <= ys
    ensures AllGiven(ys, ops)
  {
    hide Given;
    forall i | 0 <= i < |ops| && ops[i].Set? && ops[i].answer.result.Some?
      ensures Given(ys, ops[i].answer.result.value)
    {
      GivenMonotone(xs, ys, ops[i].answer.result.value);
    }
  }

  /** What a lookup finds was given. */
  lemma LookupGives(h: History, s: Settings, w: real, xs: set<Execution>, op: Op)
    requires h.Valid() && AllJustified(h, s, w) && AllGiven(xs, h.ops) && (op.Get? || op.GetBySql?)
    requires Found(End(h), op).Some? && Found(End(h), op).value.result.Some?
    ensures Given(xs, Found(End(h), op).value.result.value)
  {
    hide After, Apply, Found, AllJustified, Given;
    Extend(h, s, w, op);
    var h', n := More(h, [op]), |h.ops|;
    assert h'.ops[n] == op;
    HitReturnsLastSet(h', n);
    var j := LastWrite(h', IndexOf(op), op.key, n);
    assert h'.ops[j] == h.ops[j];
  }

  lemma SameRows(xs: set<Execution>, t: Table, again: Table)
    requires Given(xs, t) && again == t.(reuses := again.reuses)
    ensures Given(xs, again)
  {
    var x :| x in xs && Gave(x, t);
    assert Gave(x, again);
  }

  lemma OneMoreLookup(xs: set<Execution>, ops: seq<Op>, op: Op)
    requires AllGiven(xs, ops)
    requires op.Set? && op.answer.result.Some? ==> Given(xs, op.answer.result.value)
    ensures AllGiven(xs, ops + [op])
  {
    hide Given;
  }

  /** The rounds give rows that were given before, or that the database gives in that round. */
  lemma {:induction false} TriedGives(h: History, s: Settings, w: real, xs: set<Execution>, r: Request, i: nat)
    requires h.Valid() && AllJustified(h, s, w) && AllGiven(xs, h.ops) && i <= |r.attempts|
    ensures var ran := Tried(End(h), r, i).ran;
            ran.Some? ==>
              if ran.value.table.reuses == 0
              then ran.value.round >= 1 && Gave(Execution(r, ran.value.round - 1), ran.value.table)
              else Given(xs, ran.value.table)
    decreases |r.attempts| - i
  {
    hide After, Apply, Found, AllJustified, Given, AllGiven;
    if i < |r.attempts| && r.attempts[i].Rejected? {
      TriedGives(h, s, w, xs, r, i + 1);
    } else if i < |r.attempts| && r.attempts[i].Statement? {
      var op := GetBySql(r.SqlKey(r.attempts[i].sql), r.attempts[i].at);
      if r.UsesCache() && Reusable(Found(End(h), op)).Some? {
        LookupGives(h, s, w, xs, op);
        SameRows(xs, Found(End(h), op).value.result.value, Reusable(Found(End(h), op)).value);
      } else if r.attempts[i].outcome.None? {
        if r.UsesCache() {
          Extend(h, s, w, op);
          OneMoreLookup(xs, h.ops, op);
          TriedGives(More(h, [op]), s, w, xs, r, i + 1);
        } else {
          TriedGives(h, s, w, xs, r, i + 1);
        }
      }
    }
  }

  // ---- one request --------------------------------------------------------------------------------

  /** The execution a reply tells of: rows that were not reused are the database's answer to its round. */
  function Executed(r: Request, reply: Reply): set<Execution> {
    if reply.Answered? && reply.answer.result.Some? && reply.answer.result.value.reuses == 0
       && reply.answer.scalars.correctionAttempts.Some? && reply.answer.scalars.correctionAttempts.value >= 1
    then {Execution(r, reply.answer.scalars.correctionAttempts.value - 1)}
    else {}
  }

  ghost predicate ReplyGiven(xs: set<Execution>, reply: Reply) {
    (reply.Cached? || reply.Answered?) && reply.answer.result.Some? ==> Given(xs, reply.answer.result.value)
  }

  lemma AnsweredGives(xs: set<Execution>, s: Settings, r: Request, ran: Ran)
    requires if ran.table.reuses == 0 then ran.round >= 1 && Gave(Execution(r, ran.round - 1), ran.table)
             else Given(xs, ran.table)
    ensures Given(xs + Executed(r, Answered(ResponseOf(s, r, ran), ran.sql, ran.at)), ran.table)
  {
    var xs' := xs + Executed(r, Answered(ResponseOf(s, r, ran), ran.sql, ran.at));
    if ran.table.reuses == 0 {
      assert Execution(r, ran.round - 1) in xs';
    } else {
      GivenMonotone(xs, xs', ran.table);
    }
  }

  lemma LookupsGive(xs: set<Execution>, ops: seq<Op>, more: seq<Op>)
    requires AllGiven(xs, ops) && forall i :: 0 <= i < |more| ==> !more[i].Set?
    ensures AllGiven(xs, ops + more)
  {
    hide Given;
  }

  lemma AskGives(h: History, s: Settings, w: real, xs: set<Execution>, r: Request)
    requires h.Valid() && AllJustified(h, s, w) && AllGiven(xs, h.ops)
    ensures var a := Ask(End(h), s, r);
            var xs' := xs + Executed(r, a.reply);
            AllGiven(xs', h.ops + a.ops) && ReplyGiven(xs', a.reply)
  {
    hide After, Apply, Found, Tried, AllJustified, Given, AllGiven, Executed;
    var a, lookup := Ask(End(h), s, r), Get(r.QuestionKey(s), r.lookedAt);
    var xs' := xs + Executed(r, a.reply);
    AllGivenMonotone(xs, xs', h.ops);
    if r.UsesCache() && Found(End(h), lookup).Some? {
      OneMoreLookup(xs', h.ops, lookup);
      if a.reply.answer.result.Some? {
        LookupGives(h, s, w, xs, lookup);
        GivenMonotone(xs, xs', a.reply.answer.result.value);
      }
    } else if r.mode.Sql? {
      LookupsGive(xs', h.ops, a.ops);
    } else {
      var first := if r.UsesCache() then [lookup] else [];
      if r.UsesCache() { Extend(h, s, w, lookup); }
      MoreMore(h, [], []);
      LookupsGive(xs, h.ops, first);
      var t := Tried(End(More(h, first)), r, 0);
      TriedGives(More(h, first), s, w, xs, r, 0);
      LookupsGive(xs', h.ops, first + t.ops);
      if t.ran.Some? {
        AnsweredGives(xs, s, r, t.ran.value);
        if r.UsesCache() {
          OneMoreLookup(xs', h.ops + (first + t.ops), StoreOp(s, r, t.ran.value));
          assert h.ops + a.ops == h.ops + (first + t.ops) + [StoreOp(s, r, t.ran.value)];
        }
      }
    }
  }

  // ---- runs ---------------------------------------------------------------------------------------

  /** The executions of the first `n` events. */
  ghost function ExecutedBy(config: Config, s: Settings, events: seq<RunnerRuns.Event>, n: nat): set<Execution>
    requires config.maxSize >= 1 && n <= |events|
    requires forall i :: 0 <= i < n && events[i].AdminEvent? ==> Admin(events[i].op)
  {
    if n == 0 then {}
    else
      ExecutedBy(config, s, events, n - 1)
      + match events[n - 1]
        case AskEvent(r) => Executed(r, Ask(Play(config, s, events, n - 1).cache, s, r).reply)
        case AdminEvent(_) => {}
  }

  lemma {:induction false} PlayGives(config: Config, s: Settings, events: seq<RunnerRuns.Event>, n: nat,
                                     ttl: real, w: real)
    requires config.maxSize >= 1 && config.ttl as real <= ttl && Regular(events, ttl, w) && n <= |events|
    ensures AllGiven(ExecutedBy(config, s, events, n), Play(config, s, events, n).ops)
  {
    hide Apply, Found, Ask, AllJustified, AllGiven, Executed;
    if n == 0 {
      NothingGiven();
    } else {
      PlayGives(config, s, events, n - 1, ttl, w);
      PlayIsJustified(config, s, events, n - 1, ttl, w);
      var h, xs := History(config, Play(config, s, events, n - 1).ops), ExecutedBy(config, s, events, n - 1);
      match events[n - 1]
      case AskEvent(r) => AskGives(h, s, w, xs, r);
      case AdminEvent(op) =>
        assert xs + {} == xs;
        OneMoreLookup(xs, h.ops, op);
    }
  }

  /** The execution was of a request in the same prompt version, mode and scope as `r`, its outcome are
      these rows at that time, and its statement has the words of `sql`, if given. */
  predicate RanFor(x: Execution, r: Request, t: Table, sql: Option<string>) {
    && x.round < |x.request.attempts| && x.request.attempts[x.round].Statement?
    && x.request.attempts[x.round].outcome == Some(t.rows) && x.request.attempts[x.round].at == t.executedAt
    && x.request.prefix == r.prefix && x.request.mode == r.mode && x.request.scope == r.scope
    && (sql.Some? ==> SqlText.Words(x.request.attempts[x.round].sql) == SqlText.Words(sql.value))
  }

  /** The rows of a reply are the outcome of one of these executions, of the statement the reply is for;
      a cached reply shows it in mode "full" only. */
  ghost predicate FromTheDatabase(xs: set<Execution>, r: Request, reply: Reply) {
    match reply
    case Cached(a) =>
      && a.result.Some? && (r.mode.Full? ==> a.scalars.sql.Some?)
      && exists x :: x in xs && RanFor(x, r, a.result.value, a.scalars.sql)
    case Answered(a, sql, _) => a.result.Some? && exists x :: x in xs && RanFor(x, r, a.result.value, Some(sql))
    case _ => true
  }

  lemma GivenIsFromTheDatabase(xs: set<Execution>, s: Settings, r: Request, reply: Reply, ttl: real, w: real)
    requires Served(s, r, reply, ttl, w) && ReplyGiven(xs, reply)
    ensures FromTheDatabase(xs, r, reply)
  {
    hide Span, FirstToGive, SqlText.Words, SqlText.Collapsed;
    if reply.Cached? || reply.Answered? {
      var t := reply.answer.result.value;
      var x :| x in xs && Gave(x, t);
      var sql := x.request.attempts[x.round].sql;
      if reply.Answered? {
        SqlKeyIs(x.request, sql, r, reply.sql);
        assert RanFor(x, r, t, Some(reply.sql));
      } else {
        ModesHaveNames(x.request.mode, r.mode);
        if reply.answer.scalars.sql.Some? { SqlText.SameKeyIffSameWords(sql, reply.answer.scalars.sql.value); }
        assert RanFor(x, r, t, reply.answer.scalars.sql);
      }
    }
  }

  /** In every run: the rows of every reply are what the database gave to a statement of this request or
      of an earlier one, in the same prompt version, mode and scope, that has the words of the statement
      the reply is for. */
  lemma RowsAreTheDatabases(config: Config, s: Settings, events: seq<RunnerRuns.Event>, n: nat, ttl: real, w: real)
    requires config.maxSize >= 1 && config.ttl as real <= ttl && Regular(events, ttl, w)
    requires n < |events| && events[n].AskEvent?
    ensures var r := events[n].request;
            FromTheDatabase(ExecutedBy(config, s, events, n + 1), r, Ask(Play(config, s, events, n).cache, s, r).reply)
  {
    hide Apply, Found, Ask, Served, AllJustified, AllGiven, ReplyGiven, FromTheDatabase, Executed;
    var r, h := events[n].request, History(config, Play(config, s, events, n).ops);
    PlayGives(config, s, events, n, ttl, w);
    PlayIsJustified(config, s, events, n, ttl, w);
    AskGives(h, s, w, ExecutedBy(config, s, events, n), r);
    ServedRows(config, s, events, n, ttl, w);
    GivenIsFromTheDatabase(ExecutedBy(config, s, events, n + 1), s, r,
                           Ask(Play(config, s, events, n).cache, s, r).reply, ttl, w);
  }
}
