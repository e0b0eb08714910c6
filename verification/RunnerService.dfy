/** When the cache serves a request: what one request stored is served to the next, and requests that
    are to bypass the cache neither read nor write it. */
module RunnerService {
  import opened Options
  import opened QueryCacheSpec
  import opened QueryCacheRuns
  import opened Runner
  import opened RunnerRuns
  import SqlText

  lemma {:induction false} TriedBypassed(c: Cache, r: Request, i: nat)
    requires c.Valid() && (r.interpret || r.mode.Sql?) && i <= |r.attempts|
    ensures Tried(c, r, i).ops == [] && Tried(c, r, i).cache == c
    decreases |r.attempts| - i
  {
    if i < |r.attempts| && !r.attempts[i].Refused? {
      TriedBypassed(c, r, i + 1);
    }
  }

  /** Mode "sql" and interpreted answers bypass the cache. */
  lemma Bypassed(c: Cache, s: Settings, r: Request)
    requires c.Valid() && (r.interpret || r.mode.Sql?)
    ensures Ask(c, s, r).ops == [] && Ask(c, s, r).cache == c && !Ask(c, s, r).reply.Cached?
  {
    TriedBypassed(c, r, 0);
  }

  lemma WrittenIsFound(s: Store, max: nat, key: Key, e: QueryCacheSpec.Entry)
    requires s.Valid() && max >= 1 && |s.order| <= max
    ensures key in Written(s, max, key, e).entries && Written(s, max, key, e).entries[key] == e
  {
  }

  lemma {:induction false} ConfigStays(c: Cache, r: Request, i: nat)
    requires c.Valid() && i <= |r.attempts|
    ensures Tried(c, r, i).cache.config == c.config
    decreases |r.attempts| - i
  {
    hide Looked, Hits;
    if i < |r.attempts| && r.attempts[i].Rejected? {
      ConfigStays(c, r, i + 1);
    } else if i < |r.attempts| && r.attempts[i].Statement? && r.attempts[i].outcome.None? {
      var op := GetBySql(r.SqlKey(r.attempts[i].sql), r.attempts[i].at);
      ConfigStays(if r.UsesCache() then Apply(c, op) else c, r, i + 1);
    }
  }

  /** After an answer is stored, both indexes have it until it expires. */
  lemma StoredIsFound(c: Cache, s: Settings, r: Request)
    requires c.Valid() && !r.interpret && Ask(c, s, r).reply.Answered? && c.config.ttl > 0
    ensures var a := Ask(c, s, r);
            && a.cache.config == c.config
            && forall now :: now <= r.storedAt + c.config.ttl as real ==>
                 && Found(a.cache, Get(r.QuestionKey(s), now)) == Some(a.reply.answer)
                 && (a.reply.sql != "" ==>
                       Found(a.cache, GetBySql(r.SqlKey(a.reply.sql), now)) == Some(a.reply.answer))
  {
    hide Written, Evicted, Tried;
    var a, lookup := Ask(c, s, r), Get(r.QuestionKey(s), r.lookedAt);
    var c1 := Apply(c, lookup);
    ConfigStays(c1, r, 0);
    var t := Tried(c1, r, 0);
    var op := StoreOp(s, r, t.ran.value);
    var e := QueryCacheSpec.Entry(op.answer, op.now + c.config.ttl as real);
    WrittenIsFound(t.cache.questions, c.config.maxSize, op.key, e);
    if op.sqlKey.Some? { WrittenIsFound(t.cache.sqls, c.config.maxSize, op.sqlKey.value, e); }
  }

  /** An answer is stored once, and an empty statement is not indexed. */
  lemma StoredOnce(c: Cache, s: Settings, r: Request)
    requires c.Valid() && !r.interpret && Ask(c, s, r).reply.Answered?
    ensures var a := Ask(c, s, r);
            var n := |a.ops| - 1;
            && n >= 0 && a.ops[n].Set? && (a.ops[n].sqlKey.Some? <==> a.reply.sql != "")
            && a.ops[n].answer == a.reply.answer && a.ops[n].now == r.storedAt
            && forall i :: 0 <= i < n ==> !a.ops[i].Set?
  {
    hide Tried, Apply, Found;
  }

  lemma AnsweredIsRun(c: Cache, s: Settings, r: Request)
    requires c.Valid() && Ask(c, s, r).reply.Answered?
    ensures !r.mode.Sql?
  {
    hide Tried, Apply, Found;
  }

  /** The same question asked again, in the same prompt version, mode and scope, before a lifetime has
      passed since the answer was stored, is served that answer, and the database runs nothing. */
  lemma AskAgain(c: Cache, s: Settings, r: Request, again: Request)
    requires c.Valid() && !r.interpret && Ask(c, s, r).reply.Answered? && c.config.ttl > 0
    requires s.fold(again.question) == s.fold(r.question) && again.prefix == r.prefix && again.mode == r.mode
    requires again.scope == r.scope && !again.interpret && again.lookedAt <= r.storedAt + c.config.ttl as real
    ensures Ask(Ask(c, s, r).cache, s, again).reply == Cached(Ask(c, s, r).reply.answer)
  {
    hide Apply, Found, Tried;
    StoredIsFound(c, s, r);
    QuestionKeyIs(s, r, again);
    AnsweredIsRun(c, s, r);
  }

  lemma FirstReuses(c: Cache, r: Request)
    requires c.Valid() && r.UsesCache() && r.attempts != [] && r.attempts[0].Statement?
    requires Reusable(Found(c, GetBySql(r.SqlKey(r.attempts[0].sql), r.attempts[0].at))).Some?
    ensures Tried(c, r, 0).ran
            == Some(Ran(r.attempts[0].sql,
                        Reusable(Found(c, GetBySql(r.SqlKey(r.attempts[0].sql), r.attempts[0].at))).value, 1,
                        r.attempts[0].at))
  {
    hide Found, Apply;
  }

  lemma LookupKeepsSqls(c: Cache, lookup: Op, op: Op)
    requires c.Valid() && lookup.Get? && op.GetBySql?
    ensures Found(Apply(c, lookup), op) == Found(c, op)
  {
  }

  lemma AnswerHasRows(c: Cache, s: Settings, r: Request)
    requires c.Valid() && Ask(c, s, r).reply.Answered?
    ensures Ask(c, s, r).reply.answer.result.Some?
  {
    hide Tried, Apply, Found;
  }

  /** Another question whose first statement has the same words, in the same prompt version, mode and
      scope, is answered with the rows that were stored, not with what the database would give now. */
  lemma RunsOnce(c: Cache, s: Settings, r: Request, other: Request)
    requires c.Valid() && !r.interpret && Ask(c, s, r).reply.Answered? && c.config.ttl > 0
    requires other.prefix == r.prefix && other.mode == r.mode && other.scope == r.scope && !other.interpret
    requires Found(Ask(c, s, r).cache, Get(other.QuestionKey(s), other.lookedAt)).None?
    requires other.attempts != [] && other.attempts[0].Statement? && Ask(c, s, r).reply.sql != ""
    requires SqlText.Words(other.attempts[0].sql) == SqlText.Words(Ask(c, s, r).reply.sql)
    requires other.attempts[0].at <= r.storedAt + c.config.ttl as real
    ensures var stored, reply := Ask(c, s, r).reply.answer.result, Ask(Ask(c, s, r).cache, s, other).reply;
            && stored.Some? && reply.Answered? && reply.sql == other.attempts[0].sql
            && reply.answer.result == Some(stored.value.(reuses := stored.value.reuses + 1))
  {
    hide Tried, Apply, Found;
    var a := Ask(c, s, r);
    StoredIsFound(c, s, r);
    AnsweredIsRun(c, s, r);
    SqlKeyIs(r, a.reply.sql, other, other.attempts[0].sql);
    var c1 := Apply(a.cache, Get(other.QuestionKey(s), other.lookedAt));
    AnswerHasRows(c, s, r);
    LookupKeepsSqls(a.cache, Get(other.QuestionKey(s), other.lookedAt),
                    GetBySql(other.SqlKey(other.attempts[0].sql), other.attempts[0].at));
    FirstReuses(c1, other);
  }

  /** Over any history: the answer last stored for the question is served while a lifetime has not passed
      and its key is among the `maxSize` most recent, the clock being monotone. */
  lemma LiveAnswerIsServed(h: History, s: Settings, r: Request, t: nat)
    requires h.Valid() && !r.interpret && !r.mode.Sql? && End(h).config.ttl > 0
    requires var h', key, n := More(h, [Get(r.QuestionKey(s), r.lookedAt)]), r.QuestionKey(s), |h.ops|;
             && h'.Valid() && MonotoneClock(h'.ops) && t < n && Touched(h', Questions, t) == Some(key)
             && |KeysTouched(h', Questions, t, n)| <= End(h).config.maxSize
             && WrittenWithin(h', Questions, key, n)
    ensures var h' := More(h, [Get(r.QuestionKey(s), r.lookedAt)]);
            var j := LastWrite(h', Questions, r.QuestionKey(s), |h.ops|);
            Ask(End(h), s, r).reply == Cached(h'.ops[j].answer)
  {
    hide After, Apply, Found, LastWrite, Touched, KeysTouched, Tried;
    var lookup, n := Get(r.QuestionKey(s), r.lookedAt), |h.ops|;
    var h' := More(h, [lookup]);
    PrefixStable(h.config, h.ops, [lookup], n);
    assert h'.ops[n] == lookup && h'.At(n) == End(h);
    GuaranteedHitMonotone(h', n, t);
  }
}
