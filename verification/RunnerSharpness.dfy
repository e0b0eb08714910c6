/** The age bound of `RunnerRuns.ServedRows` is exact: for every number `d` of reuses the age of rows
    served from the question index is bounded by `b` in every run exactly if `b` is at least `d + 1`
    lifetimes; so one lifetime bounds it exactly for `d == 0`. */
module RunnerSharpness {
  import opened Options
  import opened Ordered
  import opened QueryCacheSpec
  import opened Runner
  import opened RunnerAge
  import opened RunnerRuns
  import SqlText

  /** One question asked once every lifetime, its entry invalidated before it is asked again; the SQL
      entry stays. */
  datatype Relay = Relay(question: string, sql: string, rows: seq<string>, s: Settings, config: Config) {
    predicate Valid() { config.ttl > 0 && config.maxSize >= 1 && sql != "" }

    function Time(i: nat): real { i as real * config.ttl as real }

    function Asked(i: nat): Request {
      Request(question, Full, false, "", "", Time(i), [Statement(sql, Time(i), Some(rows))], Time(i))
    }

    function QuestionKey(): Key { Asked(0).QuestionKey(s) }

    function SqlKey(): Key { ("", SqlText.Collapsed(sql), "full", "") }

    function Rows(reuses: nat): Table { Table(rows, SqlKey(), 0.0, reuses) }

    function Events(n: nat): seq<Event> {
      if n == 0 then [] else Events(n - 1) + [AdminEvent(Invalidate(QuestionKey())), AskEvent(Asked(n - 1))]
    }
  }

  ghost predicate Last(e: Relay, s: Store, key: Key, n: nat)
    requires n >= 1
  {
    key in s.entries && s.entries[key].answer.result == Some(e.Rows(n - 1)) && s.entries[key].expiresAt == e.Time(n)
  }

  /** After request `n - 1`: its answer is in both indexes and expires at the time of request `n`. */
  ghost predicate Relayed(e: Relay, c: Cache, n: nat) {
    && c.Valid() && c.config == e.config
    && if n == 0 then c == New(e.config)
       else
         && c.sqls.order == [e.SqlKey()] && Last(e, c.sqls, e.SqlKey(), n)
         && Last(e, c.questions, e.QuestionKey(), n)
  }

  lemma WrittenIsLast(e: Relay, s: Store, key: Key, entry: Entry, n: nat)
    requires s.Valid() && e.config.maxSize >= 1 && |s.order| <= e.config.maxSize
    requires entry.answer.result == Some(e.Rows(n)) && entry.expiresAt == e.Time(n + 1)
    ensures Last(e, Written(s, e.config.maxSize, key, entry), key, n + 1)
    ensures s.order == [] || s.order == [key] ==> Written(s, e.config.maxSize, key, entry).order == [key]
  {
    if s.order == [key] {
      assert Without([key], key) == [];
    }
  }

  /** What the question does once its entry is gone: it misses, finds or runs the statement, and stores
      the rows. */
  lemma AskMisses(e: Relay, c: Cache, n: nat, reused: Cache)
    requires e.Valid() && c.Valid() && c.config == e.config && e.QuestionKey() !in c.questions.entries
    requires reused == Apply(c.(misses := c.misses + 1), GetBySql(e.SqlKey(), e.Time(n)))
    requires Reusable(Found(c.(misses := c.misses + 1), GetBySql(e.SqlKey(), e.Time(n))))
             == if n == 0 then None else Some(e.Rows(n))
    ensures var ran := Ran(e.sql, e.Rows(n), 1, e.Time(n));
            Ask(c, e.s, e.Asked(n)).cache == Apply(reused, StoreOp(e.s, e.Asked(n), ran))
  {
    hide Written, Evicted, Shrunk;
    var r := e.Asked(n);
    var c1 := c.(misses := c.misses + 1);
    assert Apply(c, Get(r.QuestionKey(e.s), r.lookedAt)) == c1;
    assert e.Time(0) == 0.0;
    assert r.attempts[0] == Statement(e.sql, e.Time(n), Some(e.rows)) && r.SqlKey(e.sql) == e.SqlKey();
    assert Tried(c1, r, 0).ran == Some(Ran(e.sql, e.Rows(n), 1, e.Time(n)));
  }

  lemma NextTime(e: Relay, n: nat)
    ensures e.Time(n) + e.config.ttl as real == e.Time(n + 1)
  {
  }

  /** Both indexes are written, the SQL index holding no other statement. */
  lemma StoreRelays(e: Relay, c: Cache, n: nat)
    requires e.Valid() && c.Valid() && c.config == e.config
    requires c.sqls.order == [] || c.sqls.order == [e.SqlKey()]
    ensures var ran := Ran(e.sql, e.Rows(n), 1, e.Time(n));
            Relayed(e, Apply(c, StoreOp(e.s, e.Asked(n), ran)), n + 1)
  {
    hide Written, Evicted, Last, Relay.Time;
    var op := StoreOp(e.s, e.Asked(n), Ran(e.sql, e.Rows(n), 1, e.Time(n)));
    var entry := Entry(op.answer, op.now + c.config.ttl as real);
    NextTime(e, n);
    WrittenIsLast(e, c.questions, op.key, entry, n);
    WrittenIsLast(e, c.sqls, e.SqlKey(), entry, n);
    assert op.sqlKey == Some(e.SqlKey()) && op.key == e.QuestionKey();
  }

  lemma RelayStep(e: Relay, c: Cache, n: nat)
    requires e.Valid() && Relayed(e, c, n)
    ensures Relayed(e, Ask(Apply(c, Invalidate(e.QuestionKey())), e.s, e.Asked(n)).cache, n + 1)
  {
    hide Written, Ask, Relay.Time;
    var gone := Apply(c, Invalidate(e.QuestionKey()));
    var c1, op := gone.(misses := gone.misses + 1), GetBySql(e.SqlKey(), e.Time(n));
    assert Without([e.SqlKey()], e.SqlKey()) == [];
    var reused := Apply(c1, op);
    AskMisses(e, gone, n, reused);
    StoreRelays(e, reused, n);
  }

  lemma {:induction false} PlayPrefix(config: Config, s: Settings, a: seq<Event>, b: seq<Event>, n: nat)
    requires config.maxSize >= 1 && n <= |a|
    requires forall i :: 0 <= i < |a| && a[i].AdminEvent? ==> Admin(a[i].op)
    ensures (forall i :: 0 <= i < n && (a + b)[i].AdminEvent? ==> Admin((a + b)[i].op))
            && Play(config, s, a + b, n) == Play(config, s, a, n)
  {
    hide Ask, Apply, Admin;
    assert forall i :: 0 <= i < n ==> (a + b)[i] == a[i];
    if n > 0 {
      PlayPrefix(config, s, a, b, n - 1);
    }
  }

  lemma {:induction false} EventsAreRegular(e: Relay, n: nat)
    requires e.Valid()
    ensures |e.Events(n)| == 2 * n && Regular(e.Events(n), e.config.ttl as real, 0.0)
  {
    if n > 0 {
      EventsAreRegular(e, n - 1);
    }
  }

  lemma OnlyAdmin(e: Relay, n: nat)
    requires Regular(e.Events(n), e.config.ttl as real, 0.0)
    ensures forall i :: 0 <= i < |e.Events(n)| && e.Events(n)[i].AdminEvent? ==> Admin(e.Events(n)[i].op)
  {
  }

  lemma NothingRelayed(e: Relay)
    requires e.Valid()
    ensures Relayed(e, New(e.config), 0)
  {
  }

  lemma {:induction false} Relays(e: Relay, n: nat)
    requires e.Valid() && Regular(e.Events(n), e.config.ttl as real, 0.0)
    ensures |e.Events(n)| == 2 * n && Relayed(e, Play(e.config, e.s, e.Events(n), 2 * n).cache, n)
  {
    hide Relayed, Ask, New, Regular, Apply;
    EventsAreRegular(e, n);
    if n == 0 {
      NothingRelayed(e);
    } else {
      var before, all := e.Events(n - 1), e.Events(n);
      EventsAreRegular(e, n - 1);
      Relays(e, n - 1);
      OnlyAdmin(e, n - 1);
      OnlyAdmin(e, n);
      var more := [AdminEvent(Invalidate(e.QuestionKey())), AskEvent(e.Asked(n - 1))];
      PlayPrefix(e.config, e.s, before, more, 2 * (n - 1));
      assert all[2 * n - 2] == AdminEvent(Invalidate(e.QuestionKey())) && all[2 * n - 1] == AskEvent(e.Asked(n - 1));
      RelayStep(e, Play(e.config, e.s, before, 2 * (n - 1)).cache, n - 1);
    }
  }

  lemma LastIsCached(e: Relay, c: Cache, d: nat)
    requires e.Valid() && Relayed(e, c, d + 1)
    ensures var reply := Ask(c, e.s, e.Asked(d + 1)).reply;
            reply.Cached? && reply.answer.result == Some(e.Rows(d))
  {
    hide Apply;
  }

  /** After `d` reuses the rows are served when `d + 1` lifetimes old. */
  lemma AgeIsReached(e: Relay, d: nat)
    requires e.Valid()
    ensures var events := e.Events(d + 1) + [AskEvent(e.Asked(d + 1))];
            && Regular(events, e.config.ttl as real, 0.0) && |events| == 2 * d + 3
            && var reply := Ask(Play(e.config, e.s, events, 2 * d + 2).cache, e.s, e.Asked(d + 1)).reply;
               && reply.Cached? && reply.answer.result == Some(e.Rows(d))
               && e.Asked(d + 1).lookedAt == e.Rows(d).executedAt + Span(d + 1, e.config.ttl as real, 0.0)
  {
    hide Play, Ask, Relayed;
    EventsAreRegular(e, d + 1);
    OnlyAdmin(e, d + 1);
    Relays(e, d + 1);
    PlayPrefix(e.config, e.s, e.Events(d + 1), [AskEvent(e.Asked(d + 1))], 2 * d + 2);
    LastIsCached(e, Play(e.config, e.s, e.Events(d + 1), 2 * d + 2).cache, d);
  }

  // ---- the exact bound ---------------------------------------------------------------------------------

  predicate Younger(r: Request, reply: Reply, d: nat, b: real) {
    reply.Cached? && reply.answer.result.Some? && reply.answer.result.value.reuses == d ==>
      r.lookedAt <= reply.answer.result.value.executedAt + b
  }

  /** In every run, rows served from the question index after `d` reuses are at most `b` old. Requests
      take no time, and no configuration of the run has a longer lifetime than the first. */
  ghost predicate AgeAtMost(config: Config, s: Settings, d: nat, b: real)
    requires config.maxSize >= 1
  {
    forall events: seq<Event>, n: nat ::
      n < |events| && events[n].AskEvent? && Regular(events, config.ttl as real, 0.0) ==>
        Younger(events[n].request, Ask(Play(config, s, events, n).cache, s, events[n].request).reply, d, b)
  }

  lemma ServedIsYounger(s: Settings, r: Request, reply: Reply, d: nat, b: real, ttl: real)
    requires Served(s, r, reply, ttl, 0.0) && b >= Span(d + 1, ttl, 0.0)
    ensures Younger(r, reply, d, b)
  {
    hide Span;
  }

  lemma LongEnough(config: Config, s: Settings, d: nat, b: real)
    requires config.maxSize >= 1 && b >= Span(d + 1, config.ttl as real, 0.0)
    ensures AgeAtMost(config, s, d, b)
  {
    hide Play, Ask, Span, Served, Younger;
    var ttl := config.ttl as real;
    forall events: seq<Event>, n: nat | n < |events| && events[n].AskEvent? && Regular(events, ttl, 0.0)
      ensures Younger(events[n].request, Ask(Play(config, s, events, n).cache, s, events[n].request).reply, d, b)
    {
      ServedRows(config, s, events, n, ttl, 0.0);
      var r := events[n].request;
      ServedIsYounger(s, r, Ask(Play(config, s, events, n).cache, s, r).reply, d, b, ttl);
    }
  }

  lemma OnlyRegularAdmin(events: seq<Event>, n: nat, ttl: real)
    requires Regular(events, ttl, 0.0) && n <= |events|
    ensures forall i :: 0 <= i < n && events[i].AdminEvent? ==> Admin(events[i].op)
  {
  }

  lemma OlderThan(e: Relay, reply: Reply, d: nat, b: real)
    requires reply.Cached? && reply.answer.result == Some(e.Rows(d))
    requires e.Asked(d + 1).lookedAt > e.Rows(d).executedAt + b
    ensures !Younger(e.Asked(d + 1), reply, d, b)
  {
  }

  lemma OldServingRefutes(config: Config, s: Settings, d: nat, b: real, events: seq<Event>, n: nat)
    requires config.maxSize >= 1 && n < |events| && events[n].AskEvent?
    requires Regular(events, config.ttl as real, 0.0)
    requires forall i :: 0 <= i < n && events[i].AdminEvent? ==> Admin(events[i].op)
    requires !Younger(events[n].request, Ask(Play(config, s, events, n).cache, s, events[n].request).reply, d, b)
    ensures !AgeAtMost(config, s, d, b)
  {
    hide Play, Ask, Regular, Younger, Admin;
  }

  lemma TooShort(config: Config, s: Settings, d: nat, b: real)
    requires config.maxSize >= 1 && config.ttl > 0 && b < Span(d + 1, config.ttl as real, 0.0)
    ensures !AgeAtMost(config, s, d, b)
  {
    var e := Relay("q", "SELECT 1", [], s, config);
    assert e.Valid();
    hide Play, Ask, Span, Regular, Younger, Admin, AgeAtMost, Relay.Events, Relay.Asked, Relay.Rows, Relay.Valid;
    AgeIsReached(e, d);
    var events, n := e.Events(d + 1) + [AskEvent(e.Asked(d + 1))], 2 * d + 2;
    OnlyRegularAdmin(events, n, config.ttl as real);
    assert events[n] == AskEvent(e.Asked(d + 1));
    OlderThan(e, Ask(Play(config, s, events, n).cache, s, e.Asked(d + 1)).reply, d, b);
    OldServingRefutes(config, s, d, b, events, n);
  }

  /** `b` bounds the age after `d` reuses in every run exactly if it is at least `d + 1` lifetimes. */
  lemma AgeAtMostIff(config: Config, s: Settings, d: nat, b: real)
    requires config.maxSize >= 1 && config.ttl > 0
    ensures AgeAtMost(config, s, d, b) <==> b >= Span(d + 1, config.ttl as real, 0.0)
  {
    hide AgeAtMost, Span;
    if b >= Span(d + 1, config.ttl as real, 0.0) {
      LongEnough(config, s, d, b);
    } else {
      TooShort(config, s, d, b);
    }
  }

  lemma SpanPositive(d: nat, ttl: real)
    requires ttl > 0.0
    ensures d > 0 ==> Span(d, ttl, 0.0) > 0.0
  {
  }

  /** One lifetime bounds the age exactly for rows that were never reused. */
  lemma LifetimeBoundsAgeIffNotReused(config: Config, s: Settings, d: nat)
    requires config.maxSize >= 1 && config.ttl > 0
    ensures AgeAtMost(config, s, d, config.ttl as real) <==> d == 0
  {
    hide AgeAtMost;
    AgeAtMostIff(config, s, d, config.ttl as real);
    SpanStep(d, config.ttl as real, 0.0);
    SpanStep(0, config.ttl as real, 0.0);
    SpanPositive(d, config.ttl as real);
  }

}
