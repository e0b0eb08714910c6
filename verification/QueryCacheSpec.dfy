/** The query cache of `api/query_cache.py` as a value: two LRU+TTL stores, one keyed by question and
    one by generated SQL, under one configuration, with their counters. */
module QueryCacheSpec {
  import opened Options
  import opened Ordered

  /** `(prefix_version, normalised question or SQL, mode, scope_key)`. */
  type Key = (string, string, string, string)

  /** Result rows with their origin: the key of the statement the database ran, when it ran it, and
      how many times since the rows were stored again through the SQL index. */
  datatype Table = Table(rows: seq<string>, statement: Key, executedAt: real, reuses: nat)

  /** The scalar fields of a `QueryResponse`. */
  datatype Scalars = Scalars(question: string, sql: Option<string>, rowCount: Option<int>,
                             correctionAttempts: Option<int>, elapsedSeconds: Option<real>, model: Option<string>)

  datatype Answer = Answer(scalars: Scalars, result: Option<Table>)

  datatype Entry = Entry(answer: Answer, expiresAt: real)

  type Store = OrderedDict<Key, Entry>

  /** A `ttl` of zero or less switches the cache off. */
  datatype Config = Config(ttl: int, maxSize: nat)

  datatype Cache = Cache(config: Config, questions: Store, sqls: Store, hits: nat, misses: nat, evictions: nat) {
    predicate Enabled() { config.ttl > 0 }

    ghost predicate Valid() {
      && config.maxSize >= 1
      && questions.Valid() && |questions.order| <= config.maxSize
      && sqls.Valid() && |sqls.order| <= config.maxSize
    }
  }

  /** The public operations, with the clock reading each makes. */
  datatype Op =
    | Get(key: Key, now: real)
    | GetBySql(key: Key, now: real)
    | Set(key: Key, sqlKey: Option<Key>, answer: Answer, now: real)
    | Invalidate(key: Key)
    | Clear
    | Reconfigure(config: Config)

  // ---- one store ----------------------------------------------------------------------------

  /** `_get_from` finds a live entry. */
  predicate Hits(s: Store, key: Key, now: real) { key in s.entries && now <= s.entries[key].expiresAt }

  /** The store after `_get_from`: a hit becomes the most recent, an expired entry is dropped. */
  function Looked(s: Store, key: Key, now: real): (r: Store)
    requires s.Valid()
    ensures r.Valid() && |r.order| <= |s.order|
  {
    if key !in s.entries then s
    else if now > s.entries[key].expiresAt then s.Delete(key)
    else s.Refresh(key, s.entries[key])
  }

  /** The eviction loop of `_set_in`. */
  function Shrunk(s: Store, max: nat): (r: Store)
    requires s.Valid() && max >= 1
    ensures r.Valid() && |r.order| < max && |r.order| <= |s.order|
    decreases |s.order|
  {
    if |s.order| < max then s else Shrunk(s.PopFirst(), max)
  }

  lemma {:induction false} WrittenFits(s: Store, max: nat, key: Key)
    requires s.Valid() && max >= 1 && key !in s.entries
    ensures key !in Shrunk(s, max).entries
    decreases |s.order|
  {
    if |s.order| >= max {
      WrittenFits(s.PopFirst(), max, key);
    }
  }

  /** `_set_in`. */
  function Written(s: Store, max: nat, key: Key, e: Entry): (r: Store)
    requires s.Valid() && max >= 1 && |s.order| <= max
    ensures r.Valid() && |r.order| <= max
  {
    if key in s.entries then s.Refresh(key, e)
    else
      WrittenFits(s, max, key);
      Shrunk(s, max).Append(key, e)
  }

  function Removed(s: Store, key: Key): (r: Store)
    requires s.Valid()
    ensures r.Valid() && |r.order| <= |s.order|
  {
    if key in s.entries then s.Delete(key) else s
  }

  // ---- the cache ------------------------------------------------------------------------------

  /** The counters after a lookup in store `s`. */
  function Counted(c: Cache, s: Store, key: Key, now: real): Cache {
    if Hits(s, key, now) then c.(hits := c.hits + 1)
    else c.(misses := c.misses + 1, evictions := c.evictions + if key in s.entries then 1 else 0)
  }

  /** How many entries writing `key` evicts. */
  function Evicted(s: Store, max: nat, key: Key): nat
    requires s.Valid() && max >= 1
  {
    if key in s.entries then 0 else |s.order| - |Shrunk(s, max).order|
  }

  function Apply(c: Cache, op: Op): (r: Cache)
    requires c.Valid() && (op.Reconfigure? ==> op.config.maxSize >= 1)
    ensures r.Valid()
  {
    match op
    case Get(key, now) =>
      if !c.Enabled() then c
      else Counted(c, c.questions, key, now).(questions := Looked(c.questions, key, now))
    case GetBySql(key, now) =>
      if !c.Enabled() then c
      else Counted(c, c.sqls, key, now).(sqls := Looked(c.sqls, key, now))
    case Set(key, sqlKey, answer, now) =>
      if !c.Enabled() then c
      else
        var max, e := c.config.maxSize, Entry(answer, now + c.config.ttl as real);
        var q := c.(questions := Written(c.questions, max, key, e),
                    evictions := c.evictions + Evicted(c.questions, max, key));
        (match sqlKey
         case None => q
         case Some(k) => q.(sqls := Written(c.sqls, max, k, e), evictions := q.evictions + Evicted(c.sqls, max, k)))
    case Invalidate(key) => c.(questions := Removed(c.questions, key))
    case Clear => c.(questions := Empty(), sqls := Empty())
    case Reconfigure(config) => c.(config := config, questions := Empty(), sqls := Empty())
  }

  /** What a lookup returns. */
  function Found(c: Cache, op: Op): Option<Answer>
    requires op.Get? || op.GetBySql?
  {
    var s := if op.Get? then c.questions else c.sqls;
    if c.Enabled() && Hits(s, op.key, op.now) then Some(s.entries[op.key].answer) else None
  }

  /** Configurations the cache can run with: it needs room for one entry. */
  predicate Admissible(ops: seq<Op>) {
    forall i :: 0 <= i < |ops| && ops[i].Reconfigure? ==> ops[i].config.maxSize >= 1
  }

  function New(config: Config): (c: Cache)
    requires config.maxSize >= 1
    ensures c.Valid()
  {
    Cache(config, Empty(), Empty(), 0, 0, 0)
  }

  /** The cache after the first `n` operations of a run. */
  function After(config: Config, ops: seq<Op>, n: nat): (c: Cache)
    requires config.maxSize >= 1 && n <= |ops| && Admissible(ops)
    ensures c.Valid()
  {
    if n == 0 then New(config) else Apply(After(config, ops, n - 1), ops[n - 1])
  }
}
