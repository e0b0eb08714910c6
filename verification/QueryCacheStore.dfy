/** The query cache of `api/query_cache.py` as the object it is: response objects that callers keep
    and write to, copied shallowly on the way in and on the way out. Every method is proved against
    the operation of the same name on values in module `QueryCacheSpec`. */
module QueryCacheStore {
  import opened Options
  import opened Ordered
  import opened QueryCacheSpec

  /** A list of result rows; `model_copy()` shares it between a response and its copies. */
  class RowList {
    var table: Table

    constructor (table: Table)
      ensures this.table == table
    {
      this.table := table;
    }
  }

  class Response {
    var scalars: Scalars
    var result: RowList?

    constructor (scalars: Scalars, result: RowList?)
      ensures this.scalars == scalars && this.result == result
    {
      this.scalars, this.result := scalars, result;
    }

    /** The response as a value. */
    function Value(): Answer
      reads this, result
    {
      Answer(scalars, if result == null then None else Some(result.table))
    }

    /** `model_copy()`: the fields are copied, the rows they point to are not. */
    method ModelCopy() returns (copy: Response)
      ensures fresh(copy) && copy.scalars == scalars && copy.result == result
    {
      copy := new Response(scalars, result);
    }
  }

  datatype CacheEntry = CacheEntry(response: Response, expiresAt: real)

  type Dict = OrderedDict<Key, CacheEntry>

  ghost predicate EntryOwned(e: CacheEntry, held: set<Response>, lists: set<RowList>)
    reads held
  {
    e.response in held && (e.response.result == null || e.response.result in lists)
  }

  /** Every response of the store is one of `held`, every row list one of `lists`. */
  ghost predicate Owned(s: Dict, held: set<Response>, lists: set<RowList>)
    reads held
  {
    forall k :: k in s.entries ==> EntryOwned(s.entries[k], held, lists)
  }

  ghost function EntryValue(e: CacheEntry): Entry
    reads e.response, e.response.result
  {
    Entry(e.response.Value(), e.expiresAt)
  }

  ghost function StoreValue(s: Dict, held: set<Response>, lists: set<RowList>): (r: Store)
    requires Owned(s, held, lists)
    reads held, lists
    ensures s.Valid() ==> r.Valid()
    ensures r.order == s.order && r.entries.Keys == s.entries.Keys
  {
    OrderedDict(s.order, map k | k in s.entries :: EntryValue(s.entries[k]))
  }

  // ---- a store's operations and their values

  lemma LookedValue(s: Dict, key: Key, now: real, held: set<Response>, lists: set<RowList>)
    requires s.Valid() && Owned(s, held, lists)
    ensures key !in s.entries ==> Looked(StoreValue(s, held, lists), key, now) == StoreValue(s, held, lists)
    ensures key in s.entries ==>
              && StoreValue(s, held, lists).entries[key] == EntryValue(s.entries[key])
              && Owned(s.Delete(key), held, lists) && Owned(s.Refresh(key, s.entries[key]), held, lists)
              && Looked(StoreValue(s, held, lists), key, now)
                 == StoreValue(if now > s.entries[key].expiresAt then s.Delete(key) else s.Refresh(key, s.entries[key]),
                               held, lists)
  {
    hide NoDup, Without;
  }

  lemma DeletedValue(s: Dict, key: Key, held: set<Response>, lists: set<RowList>)
    requires s.Valid() && Owned(s, held, lists) && key in s.entries
    ensures Owned(s.Delete(key), held, lists)
    ensures StoreValue(s.Delete(key), held, lists) == StoreValue(s, held, lists).Delete(key)
  {
    hide NoDup, Without;
  }

  lemma RefreshedValue(s: Dict, max: nat, key: Key, e: CacheEntry, held: set<Response>, lists: set<RowList>)
    requires s.Valid() && Owned(s, held, lists) && key in s.entries && EntryOwned(e, held, lists)
    requires max >= 1 && |s.order| <= max
    ensures Owned(s.Refresh(key, e), held, lists)
    ensures Written(StoreValue(s, held, lists), max, key, EntryValue(e)) == StoreValue(s.Refresh(key, e), held, lists)
  {
    hide NoDup, Without, Shrunk;
  }

  lemma PoppedValue(s: Dict, held: set<Response>, lists: set<RowList>)
    requires s.Valid() && Owned(s, held, lists) && s.order != []
    ensures Owned(s.PopFirst(), held, lists)
    ensures StoreValue(s.PopFirst(), held, lists) == StoreValue(s, held, lists).PopFirst()
    ensures s.PopFirst().entries.Keys <= s.entries.Keys
  {
    hide NoDup;
  }

  lemma AppendedValue(s: Dict, key: Key, e: CacheEntry, held: set<Response>, lists: set<RowList>)
    requires s.Valid() && Owned(s, held, lists) && key !in s.entries && EntryOwned(e, held, lists)
    ensures Owned(s.Append(key, e), held, lists)
    ensures StoreValue(s.Append(key, e), held, lists) == StoreValue(s, held, lists).Append(key, EntryValue(e))
  {
    hide NoDup;
  }

  /** A `set`, field by field. */
  lemma SetFields(c: Cache, key: Key, sqlKey: Option<Key>, answer: Answer, now: real)
    requires c.Valid()
    ensures !c.Enabled() ==> Apply(c, Op.Set(key, sqlKey, answer, now)) == c
    ensures c.Enabled() ==>
            var e := Entry(answer, now + c.config.ttl as real);
            Apply(c, Op.Set(key, sqlKey, answer, now))
            == Cache(c.config, Written(c.questions, c.config.maxSize, key, e),
                     if sqlKey.Some? then Written(c.sqls, c.config.maxSize, sqlKey.value, e) else c.sqls,
                     c.hits, c.misses,
                     c.evictions + Evicted(c.questions, c.config.maxSize, key)
                     + if sqlKey.Some? then Evicted(c.sqls, c.config.maxSize, sqlKey.value) else 0)
  {
    hide Written, Evicted;
  }

  /** A store's value does not change when more responses are held. */
  lemma ValueMonotone(s: Dict, held: set<Response>, lists: set<RowList>, held': set<Response>, lists': set<RowList>)
    requires Owned(s, held, lists) && held <= held' && lists <= lists'
    ensures Owned(s, held', lists') && StoreValue(s, held', lists') == StoreValue(s, held, lists)
  {
  }

  class QueryCache {
    var ttl: int
    var maxSize: nat
    var store: Dict
    var sqlStore: Dict
    var hits: nat
    var misses: nat
    var evictions: nat
    ghost var held: set<Response>
    ghost var lists: set<RowList>

    ghost predicate Valid()
      reads this, held
    {
      && maxSize >= 1
      && store.Valid() && |store.order| <= maxSize && Owned(store, held, lists)
      && sqlStore.Valid() && |sqlStore.order| <= maxSize && Owned(sqlStore, held, lists)
    }

    /** The cache as a value. */
    ghost function View(): (c: Cache)
      requires Valid()
      reads this, held, lists
      ensures c.Valid()
    {
      Cache(Config(ttl, maxSize), StoreValue(store, held, lists), StoreValue(sqlStore, held, lists),
            hits, misses, evictions)
    }

    constructor (ttl: int, maxSize: nat)
      requires maxSize >= 1
      ensures Valid() && held == {} && this.ttl == ttl && View() == New(Config(ttl, maxSize))
    {
      this.ttl, this.maxSize := ttl, maxSize;
      store, sqlStore := Empty(), Empty();
      hits, misses, evictions := 0, 0, 0;
      held, lists := {}, {};
    }

    /** The lookup of `_get_from`, in the question index. */
    method Get(key: Key, now: real) returns (r: Response?)
      requires Valid()
      modifies this`store, this`hits, this`misses, this`evictions
      ensures Valid() && held == old(held) && lists == old(lists)
      ensures View() == Apply(old(View()), Op.Get(key, now))
      ensures r == null <==> Found(old(View()), Op.Get(key, now)) == None
      ensures r != null ==> fresh(r) && Some(r.Value()) == Found(old(View()), Op.Get(key, now))
      ensures r != null ==> key in old(store).entries && r.result == old(store.entries[key].response.result)
      ensures r != null ==> key in store.entries && store.entries[key] == old(store.entries[key])
    {
      hide Looked, Owned, StoreValue, NoDup, Without;
      if ttl <= 0 { return null; }
      store, r := GetFrom(store, key, now);
    }

    /** The same lookup in the SQL index. */
    method GetBySql(key: Key, now: real) returns (r: Response?)
      requires Valid()
      modifies this`sqlStore, this`hits, this`misses, this`evictions
      ensures Valid() && held == old(held) && lists == old(lists)
      ensures View() == Apply(old(View()), Op.GetBySql(key, now))
      ensures r == null <==> Found(old(View()), Op.GetBySql(key, now)) == None
      ensures r != null ==> fresh(r) && Some(r.Value()) == Found(old(View()), Op.GetBySql(key, now))
    {
      hide Looked, Owned, StoreValue, NoDup, Without;
      if ttl <= 0 { return null; }
      sqlStore, r := GetFrom(sqlStore, key, now);
    }

    /** `_get_from`: the lookup in one of the two stores, counted. */
    method GetFrom(s: Dict, key: Key, now: real) returns (s': Dict, r: Response?)
      requires s.Valid() && Owned(s, held, lists)
      modifies this`hits, this`misses, this`evictions
      ensures s'.Valid() && Owned(s', held, lists)
      ensures StoreValue(s', held, lists) == Looked(old(StoreValue(s, held, lists)), key, now)
      ensures (r != null) == Hits(old(StoreValue(s, held, lists)), key, now)
      ensures r != null ==> key in s.entries && key in s'.entries && s'.entries[key] == s.entries[key]
      ensures r != null ==> r.result == s.entries[key].response.result
      ensures r != null ==> fresh(r) && r.Value() == old(StoreValue(s, held, lists)).entries[key].answer
      ensures hits == old(hits) + (if r != null then 1 else 0)
      ensures misses == old(misses) + (if r == null then 1 else 0)
      ensures evictions == old(evictions) + (if r == null && key in s.entries then 1 else 0)
    {
      hide Looked, NoDup, Without, Owned, StoreValue, OrderedDict.Valid, OrderedDict.Delete;
      LookedValue(s, key, now, held, lists);
      s', r := s, null;
      if key !in s.entries {
        misses := misses + 1;
      } else if now > s.entries[key].expiresAt {
        s' := s.Delete(key);
        evictions, misses := evictions + 1, misses + 1;
      } else {
        s' := s.Refresh(key, s.entries[key]);
        hits := hits + 1;
        r := s.entries[key].response.ModelCopy();
      }
    }

    /** Stores one copy of `response` in both indexes. */
    method Set(key: Key, sqlKey: Option<Key>, response: Response, now: real)
      requires Valid()
      modifies this`store, this`sqlStore, this`evictions, this`held, this`lists
      ensures Valid() && fresh(held - old(held))
      ensures ttl > 0 ==>
                && key in store.entries && store.entries[key].expiresAt == now + ttl as real
                && store.entries[key].response.scalars == response.scalars
                && store.entries[key].response.result == response.result
      ensures View() == Apply(old(View()), Op.Set(key, sqlKey, response.Value(), now))
    {
      hide Apply, Written, Shrunk, Evicted, NoDup, Without, StoreValue, Owned, OrderedDict.Valid;
      SetFields(View(), key, sqlKey, response.Value(), now);
      if ttl <= 0 { return; }
      var stored := response.ModelCopy();
      Hold(stored);
      SetLocked(key, sqlKey, CacheEntry(stored, now + ttl as real));
    }

    /** The part of `set` under the lock: the entry goes into the question index and, when the SQL
        is known, into the SQL index. */
    method SetLocked(key: Key, sqlKey: Option<Key>, e: CacheEntry)
      requires Valid() && EntryOwned(e, held, lists)
      modifies this`store, this`sqlStore, this`evictions
      ensures Valid() && key in store.entries && store.entries[key] == e
      ensures var c, v := old(View()), EntryValue(e);
              View() == Cache(c.config, Written(c.questions, maxSize, key, v),
                              if sqlKey.Some? then Written(c.sqls, maxSize, sqlKey.value, v) else c.sqls,
                              c.hits, c.misses,
                              c.evictions + Evicted(c.questions, maxSize, key)
                              + if sqlKey.Some? then Evicted(c.sqls, maxSize, sqlKey.value) else 0)
    {
      hide Written, Shrunk, Evicted, NoDup, Without, StoreValue, Owned, EntryOwned, EntryValue, OrderedDict.Valid;
      ghost var c, sqls := View(), StoreValue(sqlStore, held, lists);
      store := SetIn(store, key, e);
      assert Valid() && StoreValue(sqlStore, held, lists) == sqls && c.sqls == sqls;
      ghost var written := StoreValue(store, held, lists);
      if sqlKey.Some? {
        sqlStore := SetIn(sqlStore, sqlKey.value, e);
        assert StoreValue(store, held, lists) == written;
      }
    }

    ghost method Hold(stored: Response)
      requires Valid()
      modifies this`held, this`lists
      ensures Valid() && held == old(held) + {stored} && View() == old(View())
      ensures stored.result != null ==> stored.result in lists
    {
      hide Owned, StoreValue, NoDup;
      ghost var held0, lists0 := held, lists;
      held := held + {stored};
      if stored.result != null { lists := lists + {stored.result}; }
      ValueMonotone(store, held0, lists0, held, lists);
      ValueMonotone(sqlStore, held0, lists0, held, lists);
    }

    /** `_set_in`: writes one entry, evicting from the front when a new key needs room. */
    method SetIn(s: Dict, key: Key, e: CacheEntry) returns (s': Dict)
      requires maxSize >= 1 && s.Valid() && |s.order| <= maxSize && Owned(s, held, lists)
      requires EntryOwned(e, held, lists)
      modifies this`evictions
      ensures key in s'.entries && s'.entries[key] == e
      ensures s'.Valid() && |s'.order| <= maxSize && Owned(s', held, lists)
      ensures StoreValue(s', held, lists) == Written(old(StoreValue(s, held, lists)), maxSize, key, EntryValue(e))
      ensures evictions == old(evictions) + Evicted(old(StoreValue(s, held, lists)), maxSize, key)
    {
      hide NoDup, Without, Owned, EntryOwned, StoreValue, EntryValue, OrderedDict.Valid, OrderedDict.PopFirst;
      if key in s.entries {
        RefreshedValue(s, maxSize, key, e, held, lists);
        return s.Refresh(key, e);
      }
      s' := s;
      while |s'.order| >= maxSize
        invariant s'.Valid() && Owned(s', held, lists) && |s'.order| <= maxSize && key !in s'.entries
        invariant |s'.order| == |s.order| - (evictions - old(evictions))
        invariant Shrunk(StoreValue(s', held, lists), maxSize) == Shrunk(StoreValue(s, held, lists), maxSize)
        decreases |s'.order|
      {
        PoppedValue(s', held, lists);
        s' := s'.PopFirst();
        evictions := evictions + 1;
      }
      AppendedValue(s', key, e, held, lists);
      s' := s'.Append(key, e);
    }

    /** Removes the question entry only. */
    method Invalidate(key: Key) returns (present: bool)
      requires Valid()
      modifies this
      ensures Valid() && held == old(held) && lists == old(lists)
      ensures View() == Apply(old(View()), Op.Invalidate(key))
      ensures present == (key in old(View()).questions.entries)
    {
      hide NoDup, Without, Owned, StoreValue;
      present := key in store.entries;
      if present {
        DeletedValue(store, key, held, lists);
        store := store.Delete(key);
      }
    }

    method Clear()
      requires Valid()
      modifies this
      ensures Valid() && held == old(held) && lists == old(lists)
      ensures View() == Apply(old(View()), Op.Clear)
    {
      store, sqlStore := Empty(), Empty();
    }

    method Reconfigure(ttl: int, maxSize: nat)
      requires Valid() && maxSize >= 1
      modifies this
      ensures Valid() && held == old(held) && lists == old(lists)
      ensures View() == Apply(old(View()), Op.Reconfigure(Config(ttl, maxSize)))
    {
      this.ttl, this.maxSize := ttl, maxSize;
      store, sqlStore := Empty(), Empty();
    }
  }
}
