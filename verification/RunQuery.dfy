/** `run_query` as the source runs it, against the cache object. */
module RunQuery {
  import opened Options
  import opened QueryCacheSpec
  import opened QueryCacheStore
  import opened Runner

  /** `_rows_from_sql_cache`: a data frame built from the cached rows, or null. */
  method RowsFromSqlCache(cache: QueryCache, sql: string, r: Request, at: real) returns (rows: RowList?)
    requires cache.Valid()
    modifies cache
    ensures cache.Valid() && cache.held == old(cache.held)
    ensures cache.View() == Apply(old(cache.View()), GetBySql(r.SqlKey(sql), at))
    ensures var reused := Reusable(Found(old(cache.View()), GetBySql(r.SqlKey(sql), at)));
            if reused.None? then rows == null else rows != null && fresh(rows) && rows.table == reused.value
  {
    hide Apply, QueryCache.View, Found, Owned;
    var cached := cache.GetBySql(r.SqlKey(sql), at);
    if cached == null || cached.result == null { return null; }
    rows := new RowList(cached.result.table.(reuses := cached.result.table.reuses + 1));
  }

  /** `SQLAgent.run` with the lookup hook: round after round until a statement gives rows. */
  method Run(cache: QueryCache, r: Request) returns (sql: string, rows: RowList?, round: nat, ghost at: real)
    requires cache.Valid()
    modifies cache
    ensures cache.Valid() && cache.held == old(cache.held)
    ensures var t := Tried(old(cache.View()), r, 0);
            && cache.View() == t.cache
            && (if t.ran.None? then rows == null
                else rows != null && fresh(rows) && t.ran.value == Ran(sql, rows.table, round, at))
  {
    hide Apply, QueryCache.View, Found, Owned;
    ghost var c0 := cache.View();
    round, sql, rows, at := 0, "", null, 0.0;
    while round < |r.attempts|
      invariant round <= |r.attempts| && rows == null
      invariant cache.Valid() && cache.held == old(cache.held)
      invariant Tried(c0, r, 0).cache == Tried(cache.View(), r, round).cache
      invariant Tried(c0, r, 0).ran == Tried(cache.View(), r, round).ran
    {
      match r.attempts[round] {
        case Refused => return;
        case Rejected =>
        case Statement(s, t, outcome) =>
          if r.UsesCache() { rows := RowsFromSqlCache(cache, s, r, t); }
          if rows == null && outcome.Some? {
            rows := new RowList(Table(outcome.value, r.SqlKey(s), t, 0));
          }
          if rows != null { return s, rows, round + 1, t; }
      }
      round := round + 1;
    }
  }

  /** `mode` "sql": the first statement the guard approves, not run. */
  method GenerateSqlOnly(r: Request) returns (sql: Option<string>)
    ensures sql == FirstApproved(r, 0)
  {
    for i := 0 to |r.attempts|
      invariant FirstApproved(r, 0) == FirstApproved(r, i)
    {
      match r.attempts[i]
      case Refused => return None;
      case Rejected =>
      case Statement(s, _, _) => return Some(s);
    }
    return None;
  }

  /** The response of one request, null when it ends in an error. The object returned is the
      caller's own: the cache does not hold it. */
  method RunQuery(cache: QueryCache, s: Settings, r: Request) returns (response: Response?)
    requires cache.Valid()
    modifies cache
    ensures cache.Valid() && cache.View() == Ask(old(cache.View()), s, r).cache
    ensures var reply := Ask(old(cache.View()), s, r).reply;
            && (response == null <==> reply.Failed?)
            && (response != null ==> fresh(response) && response !in cache.held && response.Value() == reply.answer)
  {
    hide Apply, QueryCache.View, Found, Owned, Tried;
    response := null;
    if r.UsesCache() {
      response := cache.Get(r.QuestionKey(s), r.lookedAt);
      if response != null { return; }
    }
    if r.mode.Sql? {
      var sql := GenerateSqlOnly(r);
      if sql.Some? {
        response := new Response(Scalars(r.question, sql, None, None, None, Some(s.model)), null);
      }
      return;
    }
    var sql, rows, round, at := Run(cache, r);
    if rows == null { return null; }
    response := new Response(
      Scalars(r.question, if r.mode.Full? then Some(sql) else None, Some(|rows.table.rows|), Some(round), None,
              Some(s.model)),
      rows);
    assert response.Value() == ResponseOf(s, r, Ran(sql, rows.table, round, at));
    if r.UsesCache() {
      cache.Set(r.QuestionKey(s), if sql == "" then None else Some(r.SqlKey(sql)), response, r.storedAt);
    }
  }
}
