/** `run_query` of `api/runner.py` as far as it uses the query cache: the lookup by question, the
    reuse of rows by generated SQL, the execution, and the store. */
module Runner {
  import opened Options
  import opened QueryCacheSpec
  import SqlText

  datatype Mode = Sql | Result | Full

  function ModeName(m: Mode): string {
    match m case Sql => "sql" case Result => "result" case Full => "full"
  }

  /** The question normaliser with its version, and the name of the model. */
  datatype Settings = Settings(fold: string -> string, namespace: string, model: string)

  /** One round of generation: SQL the guard sends back for correction, SQL it refuses for good, or
      an approved statement with the time it is looked up or executed and, should it be executed,
      the rows or the failure the database returns. */
  datatype Attempt =
    | Rejected
    | Refused
    | Statement(sql: string, at: real, outcome: Option<seq<string>>)

  /** A question with its prompt version and cache scope, the clock readings of the lookup and of
      the store, and what the model and the database answer. */
  datatype Request = Request(question: string, mode: Mode, interpret: bool, prefix: string, scope: string,
                             lookedAt: real, attempts: seq<Attempt>, storedAt: real) {
    predicate UsesCache() { mode != Sql && !interpret }

    function QuestionKey(s: Settings): Key {
      (prefix + "|" + s.namespace, s.fold(question), ModeName(mode), scope)
    }

    function SqlKey(sql: string): Key { (prefix, SqlText.Collapsed(sql), ModeName(mode), scope) }
  }

  lemma ModesHaveNames(a: Mode, b: Mode)
    ensures ModeName(a) == ModeName(b) <==> a == b
  {
    assert ModeName(a)[0] == ModeName(b)[0] <==> a == b;
  }

  /** A statement is found again exactly by requests in the same prompt version, mode and scope whose
      statement has the same words. */
  lemma SqlKeyIs(a: Request, x: string, b: Request, y: string)
    ensures a.SqlKey(x) == b.SqlKey(y)
            <==> && a.prefix == b.prefix && SqlText.Words(x) == SqlText.Words(y)
                 && a.mode == b.mode && a.scope == b.scope
  {
    SqlText.SameKeyIffSameWords(x, y);
    ModesHaveNames(a.mode, b.mode);
  }

  lemma SamePrefix(a: string, b: string, suffix: string)
    requires a + "|" + suffix == b + "|" + suffix
    ensures a == b
  {
    assert |a| == |b|;
    assert (a + "|" + suffix)[..|a|] == a && (b + "|" + suffix)[..|b|] == b;
  }

  /** And an answer by those whose question folds alike. */
  lemma QuestionKeyIs(s: Settings, a: Request, b: Request)
    ensures a.QuestionKey(s) == b.QuestionKey(s)
            <==> && a.prefix == b.prefix && s.fold(a.question) == s.fold(b.question)
                 && a.mode == b.mode && a.scope == b.scope
  {
    ModesHaveNames(a.mode, b.mode);
    if a.QuestionKey(s) == b.QuestionKey(s) { SamePrefix(a.prefix, b.prefix, s.namespace); }
  }

  /** How a request ends: from the question index, after running a statement at `at`, with SQL that
      is not run, or with an error. */
  datatype Reply =
    | Cached(answer: Answer)
    | Answered(answer: Answer, sql: string, at: real)
    | Generated(answer: Answer)
    | Failed

  // ---- the statement that is run ----------------------------------------------------------------

  /** A statement that gave rows, by reuse or by execution, in round `round`. */
  datatype Ran = Ran(sql: string, table: Table, round: nat, at: real)

  /** The rounds from one on: the cache operations they make, the statement that gave rows, and the
      cache afterwards. */
  datatype Trial = Trial(ops: seq<Op>, ran: Option<Ran>, cache: Cache)

  /** `_rows_from_sql_cache`: the rows of a live entry, as a new table. */
  function Reusable(found: Option<Answer>): Option<Table> {
    if found.Some? && found.value.result.Some?
    then Some(found.value.result.value.(reuses := found.value.result.value.reuses + 1))
    else None
  }

  function Tried(c: Cache, r: Request, i: nat): (t: Trial)
    requires c.Valid() && i <= |r.attempts|
    ensures t.cache.Valid()
    ensures forall j :: 0 <= j < |t.ops| ==> t.ops[j].GetBySql?
    decreases |r.attempts| - i
  {
    if i == |r.attempts| then Trial([], None, c)
    else
      match r.attempts[i]
      case Refused => Trial([], None, c)
      case Rejected => Tried(c, r, i + 1)
      case Statement(sql, at, outcome) =>
        var op := GetBySql(r.SqlKey(sql), at);
        var ops, c' := if r.UsesCache() then [op] else [], if r.UsesCache() then Apply(c, op) else c;
        var reused := if r.UsesCache() then Reusable(Found(c, op)) else None;
        if reused.Some? then Trial(ops, Some(Ran(sql, reused.value, i + 1, at)), c')
        else if outcome.Some? then
          Trial(ops, Some(Ran(sql, Table(outcome.value, r.SqlKey(sql), at, 0), i + 1, at)), c')
        else
          var rest := Tried(c', r, i + 1);
          Trial(ops + rest.ops, rest.ran, rest.cache)
  }

  /** Round `m` is the first from round `i` on to give rows, by reuse or execution; those before it
      were sent back or failed in the database. */
  predicate FirstToGive(r: Request, i: nat, m: nat, ran: Ran) {
    && i <= m < |r.attempts| && r.attempts[m].Statement?
    && r.attempts[m].sql == ran.sql && r.attempts[m].at == ran.at && ran.round == m + 1
    && (ran.table.reuses == 0 ==> r.attempts[m].outcome == Some(ran.table.rows))
    && forall e :: i <= e < m ==> !r.attempts[e].Refused? && (r.attempts[e].Statement? ==> r.attempts[e].outcome.None?)
  }

  /** From round `i` on no round gives rows, until round `m` is refused for good or is past the last. */
  predicate NoneGivesUntil(r: Request, i: nat, m: nat) {
    && i <= m <= |r.attempts| && (m < |r.attempts| ==> r.attempts[m].Refused?)
    && forall e :: i <= e < m ==> !r.attempts[e].Refused? && (r.attempts[e].Statement? ==> r.attempts[e].outcome.None?)
  }

  /** The first statement the guard approves; `mode` "sql" returns it without running it. */
  function FirstApproved(r: Request, i: nat): Option<string>
    requires i <= |r.attempts|
    decreases |r.attempts| - i
  {
    if i == |r.attempts| || r.attempts[i].Refused? then None
    else if r.attempts[i].Rejected? then FirstApproved(r, i + 1)
    else Some(r.attempts[i].sql)
  }

  /** Round `m` is the first from round `i` on that is approved, with `sql`. */
  predicate ApprovedAt(r: Request, i: nat, m: nat, sql: string) {
    && i <= m < |r.attempts| && r.attempts[m].Statement? && r.attempts[m].sql == sql
    && forall e :: i <= e < m ==> r.attempts[e].Rejected?
  }

  /** From round `i` on every round is sent back, until round `m` is refused for good or is past the last. */
  predicate UnapprovedUntil(r: Request, i: nat, m: nat) {
    && i <= m <= |r.attempts| && (m < |r.attempts| ==> r.attempts[m].Refused?)
    && forall e :: i <= e < m ==> r.attempts[e].Rejected?
  }

  /** The statement `mode` "sql" returns is that of the first approved round; there is none exactly if a
      refusal or the end comes before any. */
  lemma {:induction false} FirstApprovedIs(r: Request, i: nat)
    requires i <= |r.attempts|
    ensures FirstApproved(r, i).Some? <==> exists m, sql :: ApprovedAt(r, i, m, sql)
    ensures forall m, sql :: ApprovedAt(r, i, m, sql) ==> FirstApproved(r, i) == Some(sql)
    ensures FirstApproved(r, i).None? <==> exists m :: UnapprovedUntil(r, i, m)
    decreases |r.attempts| - i
  {
    if i < |r.attempts| && r.attempts[i].Rejected? {
      var next := i + 1;
      FirstApprovedIs(r, next);
      if m, sql :| ApprovedAt(r, next, m, sql) { assert ApprovedAt(r, i, m, sql); }
      if m :| UnapprovedUntil(r, next, m) { assert UnapprovedUntil(r, i, m); }
      forall m, sql | ApprovedAt(r, i, m, sql) ensures ApprovedAt(r, next, m, sql) {
      }
      forall m | UnapprovedUntil(r, i, m) ensures UnapprovedUntil(r, next, m) {
      }
    } else if i < |r.attempts| && r.attempts[i].Statement? {
      assert ApprovedAt(r, i, i, r.attempts[i].sql);
    } else {
      assert UnapprovedUntil(r, i, i);
    }
  }

  function ResponseOf(s: Settings, r: Request, ran: Ran): Answer {
    Answer(Scalars(r.question, if r.mode.Full? then Some(ran.sql) else None, Some(|ran.table.rows|),
                   Some(ran.round), None, Some(s.model)),
           Some(ran.table))
  }

  // ---- the whole request ------------------------------------------------------------------------

  datatype Asked = Asked(ops: seq<Op>, reply: Reply, cache: Cache)

  /** The `set` at the end of a request: an empty statement is not indexed. */
  function StoreOp(s: Settings, r: Request, ran: Ran): Op {
    Set(r.QuestionKey(s), if ran.sql == "" then None else Some(r.SqlKey(ran.sql)), ResponseOf(s, r, ran), r.storedAt)
  }

  /** The cache operations of one request, its reply, and the cache afterwards. */
  function Ask(c: Cache, s: Settings, r: Request): (a: Asked)
    requires c.Valid()
    ensures a.cache.Valid()
  {
    var lookup := Get(r.QuestionKey(s), r.lookedAt);
    var c' := if r.UsesCache() then Apply(c, lookup) else c;
    if r.UsesCache() && Found(c, lookup).Some? then Asked([lookup], Cached(Found(c, lookup).value), c')
    else if r.mode.Sql? then
      var sql := FirstApproved(r, 0);
      Asked([], if sql.None? then Failed
                else Generated(Answer(Scalars(r.question, sql, None, None, None, Some(s.model)), None)), c)
    else
      var trial := Tried(c', r, 0);
      var ops := (if r.UsesCache() then [lookup] else []) + trial.ops;
      if trial.ran.None? then Asked(ops, Failed, trial.cache)
      else
        var ran := trial.ran.value;
        var reply := Answered(ResponseOf(s, r, ran), ran.sql, ran.at);
        if !r.UsesCache() then Asked(ops, reply, trial.cache)
        else Asked(ops + [StoreOp(s, r, ran)], reply, Apply(trial.cache, StoreOp(s, r, ran)))
  }

}
