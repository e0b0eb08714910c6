/** What callers who keep writing to the responses they handed in or were handed out can and cannot
    do to the query cache. */
module QueryCacheSharing {
  import opened Options
  import opened QueryCacheSpec
  import opened QueryCacheStore
  import opened Ordered

  /** None of the callers' response objects is one the cache holds. */
  ghost predicate Apart(cache: QueryCache, handles: seq<Response>)
    reads cache
  {
    forall h :: h in handles ==> h !in cache.held
  }

  /** Callers overwrite scalar fields of their responses; the cache does not change. */
  method WriteHandles(cache: QueryCache, handles: seq<Response>, writes: seq<(nat, Scalars)>)
    requires cache.Valid() && Apart(cache, handles)
    modifies set h | h in handles
    ensures cache.Valid() && cache.View() == old(cache.View())
  {
    for i := 0 to |writes|
      invariant cache.Valid() && cache.View() == old(cache.View())
    {
      if writes[i].0 < |handles| {
        handles[writes[i].0].scalars := writes[i].1;
      }
    }
  }

  /** One operation; the callers keep the response object that went in or came out. */
  method Perform(cache: QueryCache, op: Op, handles: seq<Response>)
    returns (found: Option<Answer>, handles': seq<Response>)
    requires cache.Valid() && Apart(cache, handles) && (op.Reconfigure? ==> op.config.maxSize >= 1)
    modifies cache
    ensures cache.Valid() && Apart(cache, handles')
    ensures cache.View() == Apply(old(cache.View()), op)
    ensures forall h :: h in handles' && h !in handles ==> fresh(h)
    ensures op.Get? || op.GetBySql? ==> found == Found(old(cache.View()), op)
  {
    hide Apply, QueryCache.View, Owned;
    found, handles' := None, handles;
    match op
    case Get(key, now) =>
      var r := cache.Get(key, now);
      if r != null { found, handles' := Some(r.Value()), handles + [r]; }
    case GetBySql(key, now) =>
      var r := cache.GetBySql(key, now);
      if r != null { found, handles' := Some(r.Value()), handles + [r]; }
    case Set(key, sqlKey, answer, now) =>
      var rows: RowList? := null;
      if answer.result.Some? { rows := new RowList(answer.result.value); }
      var response := new Response(answer.scalars, rows);
      cache.Set(key, sqlKey, response, now);
      handles' := handles + [response];
    case Invalidate(key) => var _ := cache.Invalidate(key);
    case Clear => cache.Clear();
    case Reconfigure(config) => cache.Reconfigure(config.ttl, config.maxSize);
  }

  /** Any run of operations, with any writes by callers to any of their responses before each one,
      finds exactly what the same operations find on values, where there is nothing to write to. */
  method Session(config: Config, ops: seq<Op>, writes: seq<seq<(nat, Scalars)>>) returns (found: seq<Option<Answer>>)
    requires config.maxSize >= 1 && Admissible(ops) && |writes| == |ops|
    ensures |found| == |ops|
    ensures forall i :: 0 <= i < |ops| && (ops[i].Get? || ops[i].GetBySql?) ==>
              found[i] == Found(After(config, ops, i), ops[i])
  {
    hide Apply, QueryCache.View, QueryCache.Valid, Owned, Found;
    var cache := new QueryCache(config.ttl, config.maxSize);
    var handles: seq<Response> := [];
    found := [];
    for i := 0 to |ops|
      invariant fresh(cache) && forall h :: h in handles ==> fresh(h)
      invariant cache.Valid() && Apart(cache, handles) && cache.View() == After(config, ops, i)
      invariant |found| == i
      invariant forall j :: 0 <= j < i && (ops[j].Get? || ops[j].GetBySql?) ==>
                  found[j] == Found(After(config, ops, j), ops[j])
    {
      WriteHandles(cache, handles, writes[i]);
      var f;
      f, handles := Perform(cache, ops[i], handles);
      found := found + [f];
    }
  }

  lemma LiveEntryIsFound(cache: QueryCache, key: Key, now: real)
    requires cache.Valid() && cache.ttl > 0 && key in cache.store.entries
    requires now <= cache.store.entries[key].expiresAt
    ensures Found(cache.View(), Op.Get(key, now)) == Some(cache.store.entries[key].response.Value())
  {
  }

  /** The keys of a store whose entries have `list` as their rows. */
  ghost function Showing(s: Dict, held: set<Response>, list: RowList): set<Key>
    requires forall k :: k in s.entries ==> s.entries[k].response in held
    reads held
  {
    set k | k in s.entries && s.entries[k].response.result == list
  }

  /** A store's value but for the rows of `list`, which it does not read. */
  ghost function Rest(s: Dict, held: set<Response>, lists: set<RowList>, list: RowList): Store
    requires Owned(s, held, lists)
    reads held, lists - {list}
  {
    OrderedDict(s.order,
                map k | k in s.entries ::
                  var e := s.entries[k];
                  if e.response.result == list then Entry(Answer(e.response.scalars, None), e.expiresAt)
                  else EntryValue(e))
  }

  ghost function WithRows(rest: Store, keys: set<Key>, rows: Table): Store {
    rest.(entries := map k | k in rest.entries ::
            if k in keys then rest.entries[k].(answer := rest.entries[k].answer.(result := Some(rows)))
            else rest.entries[k])
  }

  lemma ValueIsRestWithRows(s: Dict, held: set<Response>, lists: set<RowList>, list: RowList)
    requires Owned(s, held, lists)
    ensures StoreValue(s, held, lists) == WithRows(Rest(s, held, lists, list), Showing(s, held, list), list.table)
    ensures Showing(s, held, list) <= Rest(s, held, lists, list).entries.Keys
  {
  }

  lemma SameRowsOrNone(rest: Store, keys: set<Key>, was: Table, rows: Table)
    requires keys <= rest.entries.Keys
    ensures WithRows(rest, keys, was) == WithRows(rest, keys, rows) <==> rows == was || keys == {}
  {
    if k :| k in keys {
      assert WithRows(rest, keys, was).entries[k].answer.result == Some(was);
      assert WithRows(rest, keys, rows).entries[k].answer.result == Some(rows);
    } else {
      assert WithRows(rest, keys, was).entries == WithRows(rest, keys, rows).entries;
    }
  }

  /** A write to a row list, whoever holds it: the cache stays as it is exactly if the rows written
      are the rows that were there, or no entry of either index has that list. */
  method WriteRows(cache: QueryCache, list: RowList, rows: Table)
    requires cache.Valid()
    modifies list
    ensures cache.Valid()
    ensures cache.View() == old(cache.View())
            <==> rows == old(list.table)
                 || (Showing(cache.store, cache.held, list) == {} && Showing(cache.sqlStore, cache.held, list) == {})
  {
    hide StoreValue, Rest, WithRows, Showing, OrderedDict.Valid;
    ghost var held, lists, was := cache.held, cache.lists, list.table;
    ValueIsRestWithRows(cache.store, held, lists, list);
    ValueIsRestWithRows(cache.sqlStore, held, lists, list);
    ghost var rests := (Rest(cache.store, held, lists, list), Rest(cache.sqlStore, held, lists, list));
    ghost var keys := (Showing(cache.store, held, list), Showing(cache.sqlStore, held, list));
    list.table := rows;
    assert (Rest(cache.store, held, lists, list), Rest(cache.sqlStore, held, lists, list)) == rests;
    assert (Showing(cache.store, held, list), Showing(cache.sqlStore, held, list)) == keys;
    ValueIsRestWithRows(cache.store, held, lists, list);
    ValueIsRestWithRows(cache.sqlStore, held, lists, list);
    SameRowsOrNone(Rest(cache.store, held, lists, list), Showing(cache.store, held, list), was, rows);
    SameRowsOrNone(Rest(cache.sqlStore, held, lists, list), Showing(cache.sqlStore, held, list), was, rows);
  }

  /** A caller overwrites the rows of a response it was handed, with no operation on the cache: the
      next lookup of a live entry returns the rows written, so the entry is what it was exactly if
      they are the same rows. */
  method OverwriteHandedOutRows(cache: QueryCache, key: Key, rows: Table, now: real, later: real)
    returns (first: Answer, second: Answer)
    requires cache.Valid() && cache.ttl > 0 && key in cache.store.entries
    requires now <= cache.store.entries[key].expiresAt && later <= cache.store.entries[key].expiresAt
    requires cache.store.entries[key].response.result != null
    modifies cache, cache.store.entries[key].response.result
    ensures cache.Valid() && Some(first) == old(Found(cache.View(), Op.Get(key, now)))
    ensures second == first.(result := Some(rows))
    ensures second == first <==> Some(rows) == first.result
  {
    hide Apply, Found, QueryCache.View, Owned;
    LiveEntryIsFound(cache, key, now);
    var r := cache.Get(key, now);
    first := r.Value();
    r.result.table := rows;
    LiveEntryIsFound(cache, key, later);
    var again := cache.Get(key, later);
    second := again.Value();
  }

  /** One such run: a fresh cache, one `set`, two lookups. */
  method RowWriteReachesTheCache(key: Key, answer: Answer, rows: Table, ttl: int) returns (second: Answer)
    requires ttl > 0 && answer.result.Some?
    ensures second == answer.(result := Some(rows))
  {
    hide Apply, Found, QueryCache.View, Owned;
    var cache := new QueryCache(ttl, 1);
    var list := new RowList(answer.result.value);
    var response := new Response(answer.scalars, list);
    cache.Set(key, None, response, 0.0);
    LiveEntryIsFound(cache, key, 0.0);
    var first;
    first, second := OverwriteHandedOutRows(cache, key, rows, 0.0, 0.0);
  }
}
