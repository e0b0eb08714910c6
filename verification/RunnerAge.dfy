/** How old the rows are that a request is served, and whose they are. */
module RunnerAge {
  import opened Options
  import opened QueryCacheSpec
  import opened QueryCacheRuns
  import opened Runner
  import SqlText

  // ---- histories of justified operations ----------------------------------------------------------

  /** Operation `j` finds in the SQL index the rows that `t` stores once more. */
  ghost predicate ReusedFrom(h: History, j: nat, t: Table)
    requires h.Valid() && j < |h.ops|
  {
    && h.ops[j].GetBySql? && t.reuses >= 1
    && Found(h.At(j), h.ops[j]).Some?
    && Found(h.At(j), h.ops[j]).value.result == Some(t.(reuses := t.reuses - 1))
  }

  /** The rows were executed, or found in the SQL index, at most `w` before `now`. */
  ghost predicate Recent(h: History, i: nat, t: Table, now: real, w: real)
    requires h.Valid() && i <= |h.ops|
  {
    || (t.reuses == 0 && now <= t.executedAt + w)
    || exists j :: 0 <= j < i && ReusedFrom(h, j, t) && now <= h.ops[j].now + w
  }

  /** What a response shows of the table it carries: the number of its rows, and in mode "full" the
      statement, up to white space. */
  predicate Shows(a: Answer, t: Table) {
    && a.result == Some(t) && a.scalars.rowCount == Some(|t.rows|)
    && (a.scalars.sql.Some? <==> t.statement.2 == "full")
    && (a.scalars.sql.Some? ==> SqlText.Collapsed(a.scalars.sql.value) == t.statement.1)
  }

  /** The response shows its table and is stored under the keys of the question and the statement it
      answers. */
  predicate Filed(s: Settings, key: Key, sqlKey: Option<Key>, a: Answer, t: Table) {
    && Shows(a, t) && a.scalars.model == Some(s.model)
    && key == (t.statement.0 + "|" + s.namespace, s.fold(a.scalars.question), t.statement.2, t.statement.3)
    && (sqlKey.Some? ==> sqlKey.value == t.statement)
  }

  /** A `set` of a request that looked its statement up, or ran it, at most `w` earlier. */
  ghost predicate Justified(h: History, s: Settings, w: real, i: nat)
    requires h.Valid() && i < |h.ops|
  {
    h.ops[i].Set? ==>
      && h.ops[i].answer.result.Some?
      && Filed(s, h.ops[i].key, h.ops[i].sqlKey, h.ops[i].answer, h.ops[i].answer.result.value)
      && Recent(h, i, h.ops[i].answer.result.value, h.ops[i].now, w)
  }

  ghost predicate AllJustified(h: History, s: Settings, w: real)
    requires h.Valid()
  {
    forall i :: 0 <= i < |h.ops| ==> Justified(h, s, w, i)
  }

  predicate TtlAtMost(config: Config, ops: seq<Op>, ttl: real) {
    && config.ttl as real <= ttl
    && forall i :: 0 <= i < |ops| && ops[i].Reconfigure? ==> ops[i].config.ttl as real <= ttl
  }

  /** `k` lifetimes and delays. */
  function Span(k: nat, ttl: real, w: real): real { k as real * (ttl + w) }

  lemma SpanStep(k: nat, ttl: real, w: real)
    ensures Span(k + 1, ttl, w) == Span(k, ttl, w) + ttl + w && Span(0, ttl, w) == 0.0
  {
  }

  lemma {:induction false} TtlAt(h: History, ttl: real, n: nat)
    requires h.Valid() && n <= |h.ops| && TtlAtMost(h.config, h.ops, ttl)
    ensures h.At(n).config.ttl as real <= ttl
  {
    if n > 0 {
      TtlAt(h, ttl, n - 1);
    }
  }

  /** In a history whose `set`s are justified (see `RunnerInterleaved` for every schedule of requests),
      rows found by either index were executed at most one more lifetime ago than they were reused. */
  lemma {:induction false} FoundAge(h: History, s: Settings, ttl: real, w: real, i: nat)
    requires h.Valid() && AllJustified(h, s, w) && TtlAtMost(h.config, h.ops, ttl)
    requires i < |h.ops| && (h.ops[i].Get? || h.ops[i].GetBySql?)
    requires Found(h.At(i), h.ops[i]).Some? && Found(h.At(i), h.ops[i]).value.result.Some?
    ensures var t := Found(h.At(i), h.ops[i]).value.result.value;
            h.ops[i].now <= t.executedAt + Span(t.reuses + 1, ttl, w)
    decreases i
  {
    hide After, Apply, Found, Span;
    var t := Found(h.At(i), h.ops[i]).value.result.value;
    HitReturnsLastSet(h, i);
    TtlAt(h, ttl, i);
    var j := LastWrite(h, IndexOf(h.ops[i]), h.ops[i].key, i);
    assert Justified(h, s, w, j);
    SpanStep(t.reuses, ttl, w);
    if !(t.reuses == 0 && h.ops[j].now <= t.executedAt + w) {
      var m :| 0 <= m < j && ReusedFrom(h, m, t) && h.ops[j].now <= h.ops[m].now + w;
      FoundAge(h, s, ttl, w, m);
    }
  }

  /** Rows found are those of a statement with the key asked for; found by question, they were run
      for a question that folds alike, in the same prompt version, mode and scope. */
  lemma FoundIsOwn(h: History, s: Settings, w: real, i: nat)
    requires h.Valid() && AllJustified(h, s, w)
    requires i < |h.ops| && (h.ops[i].Get? || h.ops[i].GetBySql?)
    requires Found(h.At(i), h.ops[i]).Some?
    ensures var a := Found(h.At(i), h.ops[i]).value;
            a.result.Some? && Shows(a, a.result.value) && a.scalars.model == Some(s.model)
    ensures var a := Found(h.At(i), h.ops[i]).value;
            var t := a.result.value;
            if h.ops[i].GetBySql? then t.statement == h.ops[i].key
            else h.ops[i].key == (t.statement.0 + "|" + s.namespace, s.fold(a.scalars.question), t.statement.2,
                                  t.statement.3)
  {
    hide After, Apply, Found;
    HitReturnsLastSet(h, i);
    assert Justified(h, s, w, LastWrite(h, IndexOf(h.ops[i]), h.ops[i].key, i));
  }
}
