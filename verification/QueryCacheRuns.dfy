/** What the query cache guarantees over whole runs: a hit is the last write, a recently used entry
    is always found, sizes stay bounded and the counters add up. */
module QueryCacheRuns {
  import opened Options
  import opened Ordered
  import opened QueryCacheSpec

  /** The two stores of a cache. */
  datatype Index = Questions | Sqls

  function StoreOf(c: Cache, which: Index): Store { if which.Questions? then c.questions else c.sqls }

  /** What one operation means to one store. */
  datatype Event = Lookup(key: Key, now: real) | Write(key: Key, entry: Entry) | Remove(key: Key) | Flush | Nothing

  function EventOf(config: Config, op: Op, which: Index): Event {
    match op
    case Get(key, now) => if config.ttl > 0 && which.Questions? then Lookup(key, now) else Nothing
    case GetBySql(key, now) => if config.ttl > 0 && which.Sqls? then Lookup(key, now) else Nothing
    case Set(key, sqlKey, answer, now) =>
      if config.ttl <= 0 then Nothing
      else if which.Questions? then Write(key, Entry(answer, now + config.ttl as real))
      else if sqlKey.Some? then Write(sqlKey.value, Entry(answer, now + config.ttl as real))
      else Nothing
    case Invalidate(key) => if which.Questions? then Remove(key) else Nothing
    case Clear => Flush
    case Reconfigure(_) => Flush
  }

  function StoreStep(s: Store, max: nat, e: Event): (r: Store)
    requires s.Valid() && |s.order| <= max && max >= 1
    ensures r.Valid() && |r.order| <= max
  {
    match e
    case Lookup(key, now) => Looked(s, key, now)
    case Write(key, entry) => Written(s, max, key, entry)
    case Remove(key) => Removed(s, key)
    case Flush => Empty()
    case Nothing => s
  }

  lemma StoreEffect(c: Cache, op: Op, which: Index)
    requires c.Valid() && (op.Reconfigure? ==> op.config.maxSize >= 1)
    ensures StoreOf(Apply(c, op), which)
            == StoreStep(StoreOf(c, which), c.config.maxSize, EventOf(c.config, op, which))
    ensures !op.Reconfigure? ==> Apply(c, op).config == c.config
  {
  }

  /** A run: the first configuration and the operations in order. */
  datatype History = History(config: Config, ops: seq<Op>) {
    ghost predicate Valid() { config.maxSize >= 1 && Admissible(ops) }

    ghost function At(n: nat): (c: Cache)
      requires Valid() && n <= |ops|
      ensures c.Valid()
    {
      After(config, ops, n)
    }

    ghost function StoreAt(which: Index, n: nat): (s: Store)
      requires Valid() && n <= |ops|
      ensures s.Valid() && |s.order| <= At(n).config.maxSize
    {
      StoreOf(At(n), which)
    }

    ghost function EventAt(which: Index, i: nat): Event
      requires Valid() && i < |ops|
    {
      EventOf(At(i).config, ops[i], which)
    }
  }

  lemma StepAt(h: History, which: Index, n: nat)
    requires h.Valid() && n < |h.ops|
    ensures h.StoreAt(which, n + 1) == StoreStep(h.StoreAt(which, n), h.At(n).config.maxSize, h.EventAt(which, n))
    ensures !h.ops[n].Reconfigure? ==> h.At(n + 1).config == h.At(n).config
  {
    StoreEffect(h.At(n), h.ops[n], which);
  }

  lemma StartAt(h: History, which: Index)
    requires h.Valid()
    ensures h.StoreAt(which, 0) == Empty()
  {
  }

  // ---- a hit is the last write -----------------------------------------------------------------

  /** The last write of `key` that no removal or flush has undone, or -1: the simple map the cache
      refines. It knows neither recency nor expiry. */
  ghost function LastWrite(h: History, which: Index, key: Key, n: nat): (j: int)
    requires h.Valid() && n <= |h.ops|
    ensures -1 <= j < n
    ensures j >= 0 ==> h.EventAt(which, j).Write? && h.EventAt(which, j).key == key
  {
    if n == 0 then -1
    else
      match h.EventAt(which, n - 1)
      case Write(k, _) => if k == key then n - 1 else LastWrite(h, which, key, n - 1)
      case Remove(k) => if k == key then -1 else LastWrite(h, which, key, n - 1)
      case Flush => -1
      case _ => LastWrite(h, which, key, n - 1)
  }

  ghost predicate HeldIsLast(h: History, which: Index, key: Key, n: nat)
    requires h.Valid() && n <= |h.ops|
  {
    key in h.StoreAt(which, n).entries ==>
      && LastWrite(h, which, key, n) >= 0
      && h.StoreAt(which, n).entries[key] == h.EventAt(which, LastWrite(h, which, key, n)).entry
  }

  lemma {:induction false} ShrunkEntries(s: Store, max: nat, key: Key)
    requires s.Valid() && max >= 1
    ensures key in Shrunk(s, max).entries ==> key in s.entries && Shrunk(s, max).entries[key] == s.entries[key]
    decreases |s.order|
  {
    if |s.order| >= max {
      ShrunkEntries(s.PopFirst(), max, key);
    }
  }

  /** No store step brings an entry in but a write of it. */
  lemma EntriesStep(s: Store, max: nat, e: Event, key: Key)
    requires s.Valid() && |s.order| <= max && max >= 1
    requires key in StoreStep(s, max, e).entries
    ensures if e.Write? && e.key == key then StoreStep(s, max, e).entries[key] == e.entry
            else !e.Flush? && !(e.Remove? && e.key == key)
                 && key in s.entries && StoreStep(s, max, e).entries[key] == s.entries[key]
  {
    if e.Write? && e.key !in s.entries {
      ShrunkEntries(s, max, key);
    }
  }

  lemma {:induction false} HeldIsLastWritten(h: History, which: Index, key: Key, n: nat)
    requires h.Valid() && n <= |h.ops|
    ensures HeldIsLast(h, which, key, n)
  {
    hide After, Apply, StoreStep, EventOf;
    if n == 0 {
      StartAt(h, which);
    } else {
      HeldIsLastWritten(h, which, key, n - 1);
      StepAt(h, which, n - 1);
      if key in h.StoreAt(which, n).entries {
        EntriesStep(h.StoreAt(which, n - 1), h.At(n - 1).config.maxSize, h.EventAt(which, n - 1), key);
      }
    }
  }

  /** Since a write that still counts there was no reconfiguration. */
  lemma {:induction false} ConfigSinceWrite(h: History, which: Index, key: Key, n: nat)
    requires h.Valid() && n <= |h.ops| && LastWrite(h, which, key, n) >= 0
    ensures h.At(LastWrite(h, which, key, n)).config == h.At(n).config
  {
    hide After, Apply, StoreStep;
    StepAt(h, which, n - 1);
    if LastWrite(h, which, key, n) != n - 1 {
      ConfigSinceWrite(h, which, key, n - 1);
    }
  }

  /** The store a lookup reads. */
  function IndexOf(op: Op): Index { if op.Get? then Questions else Sqls }

  /** A hit returns the response of the last `set` under its key that no invalidation, flush or
      reconfiguration undid, made at most the current `ttl` before. */
  lemma HitReturnsLastSet(h: History, i: nat)
    requires h.Valid() && i < |h.ops| && (h.ops[i].Get? || h.ops[i].GetBySql?)
    requires Found(h.At(i), h.ops[i]).Some?
    ensures var j := LastWrite(h, IndexOf(h.ops[i]), h.ops[i].key, i);
            && 0 <= j < i && h.ops[j].Set?
            && (if h.ops[i].Get? then h.ops[j].key == h.ops[i].key else h.ops[j].sqlKey == Some(h.ops[i].key))
            && Found(h.At(i), h.ops[i]) == Some(h.ops[j].answer)
            && h.ops[i].now <= h.ops[j].now + h.At(i).config.ttl as real
  {
    var which, key := IndexOf(h.ops[i]), h.ops[i].key;
    HeldIsLastWritten(h, which, key, i);
    ConfigSinceWrite(h, which, key, i);
  }

  // ---- a recently used entry is found ------------------------------------------------------------

  /** The key operation `i` sets or hits in the store. */
  ghost function Touched(h: History, which: Index, i: nat): Option<Key>
    requires h.Valid() && i < |h.ops|
  {
    match h.EventAt(which, i)
    case Write(k, _) => Some(k)
    case Lookup(k, now) => if Hits(h.StoreAt(which, i), k, now) then Some(k) else None
    case _ => None
  }

  ghost function LastTouch(h: History, which: Index, key: Key, n: nat): (i: int)
    requires h.Valid() && n <= |h.ops|
    ensures -1 <= i < n
    ensures i >= 0 ==> Touched(h, which, i) == Some(key)
    ensures forall m :: i < m < n ==> Touched(h, which, m) != Some(key)
  {
    if n == 0 then -1
    else if Touched(h, which, n - 1) == Some(key) then n - 1
    else LastTouch(h, which, key, n - 1)
  }

  /** The distinct keys set or hit from operation `i` on. */
  ghost function KeysTouched(h: History, which: Index, i: nat, n: nat): set<Key>
    requires h.Valid() && i <= n <= |h.ops|
  {
    set m | i <= m < n && Touched(h, which, m).Some? :: Touched(h, which, m).value
  }

  ghost function TouchSet(t: Option<Key>): set<Key> { if t.Some? then {t.value} else {} }

  lemma KeysTouchedStep(h: History, which: Index, i: nat, n: nat)
    requires h.Valid() && i <= n < |h.ops|
    ensures KeysTouched(h, which, i, n + 1) == KeysTouched(h, which, i, n) + TouchSet(Touched(h, which, n))
    ensures KeysTouched(h, which, n, n + 1) == TouchSet(Touched(h, which, n))
  {
  }

  // ---- how one step moves the order

  ghost predicate SuffixFrom(order: seq<Key>, order': seq<Key>, touched: Option<Key>, p: nat)
    requires p < |order'|
  {
    || (touched == Some(order'[p]) && order'[p..] == [order'[p]])
    || (touched != Some(order'[p])
        && exists q :: 0 <= q < |order| && order[q] == order'[p]
             && Members(order'[p..]) <= Members(order[q..]) + TouchSet(touched))
  }

  lemma {:induction false} WithoutSuffix(s: seq<Key>, k: Key, p: nat)
    requires p < |Without(s, k)|
    ensures exists q :: 0 <= q < |s| && s[q] == Without(s, k)[p]
              && Members(Without(s, k)[p..]) <= Members(s[q..])
  {
    WithoutMembers(s, k);
    var r := Without(s, k);
    if s[0] != k && p == 0 {
      assert s[0] == r[0] && r[0..] == r && s[0..] == s;
    } else {
      var p' := if s[0] == k then p else p - 1;
      WithoutSuffix(s[1..], k, p');
      var r' := Without(s[1..], k);
      var q :| 0 <= q < |s[1..]| && s[1..][q] == r'[p'] && Members(r'[p'..]) <= Members(s[1..][q..]);
      assert r[p..] == r'[p'..] && s[q + 1..] == s[1..][q..];
      assert s[q + 1] == r[p];
    }
  }

  lemma {:induction false} ShrunkOrder(s: Store, max: nat)
    requires s.Valid() && max >= 1
    ensures exists d :: 0 <= d <= |s.order| && Shrunk(s, max).order == s.order[d..]
              && (d > 0 ==> |s.order| >= max)
    decreases |s.order|
  {
    if |s.order| >= max {
      ShrunkOrder(s.PopFirst(), max);
      var d :| 0 <= d <= |s.order[1..]| && Shrunk(s, max).order == s.order[1..][d..];
      assert s.order[1..][d..] == s.order[d + 1..];
    } else {
      assert s.order == s.order[0..];
    }
  }

  lemma AppendedSuffix(order: seq<Key>, base: seq<Key>, k: Key, p: nat)
    requires k !in base && p < |base| + 1
    requires p < |base| ==> exists q :: 0 <= q < |order| && order[q] == base[p]
                              && Members(base[p..]) <= Members(order[q..])
    ensures SuffixFrom(order, base + [k], Some(k), p)
  {
    var order' := base + [k];
    if p < |base| {
      var q :| 0 <= q < |order| && order[q] == base[p] && Members(base[p..]) <= Members(order[q..]);
      assert order'[p..] == base[p..] + [k];
      assert order[q] == order'[p];
    }
  }

  lemma DroppedSuffix(order: seq<Key>, d: nat, p: nat)
    requires d <= |order| && p < |order[d..]|
    ensures exists q :: 0 <= q < |order| && order[q] == order[d..][p]
              && Members(order[d..][p..]) <= Members(order[q..])
  {
    assert order[d..][p..] == order[d + p..];
    assert order[d + p] == order[d..][p];
  }

  ghost function TouchedBy(s: Store, e: Event): Option<Key> {
    match e
    case Write(k, _) => Some(k)
    case Lookup(k, now) => if Hits(s, k, now) then Some(k) else None
    case _ => None
  }

  lemma RefreshedSuffix(order: seq<Key>, k: Key, p: nat)
    requires p < |Without(order, k)| + 1
    ensures SuffixFrom(order, Without(order, k) + [k], Some(k), p)
  {
    WithoutMembers(order, k);
    if p < |Without(order, k)| { WithoutSuffix(order, k, p); }
    AppendedSuffix(order, Without(order, k), k, p);
  }

  lemma InsertedSuffix(s: Store, max: nat, k: Key, p: nat)
    requires s.Valid() && max >= 1 && k !in s.entries && p < |Shrunk(s, max).order| + 1
    ensures SuffixFrom(s.order, Shrunk(s, max).order + [k], Some(k), p)
  {
    hide SuffixFrom;
    WrittenFits(s, max, k);
    ShrunkOrder(s, max);
    var d :| 0 <= d <= |s.order| && Shrunk(s, max).order == s.order[d..];
    if p < |s.order[d..]| { DroppedSuffix(s.order, d, p); }
    AppendedSuffix(s.order, s.order[d..], k, p);
  }

  lemma StepSuffix(s: Store, max: nat, e: Event, p: nat)
    requires s.Valid() && |s.order| <= max && max >= 1
    requires p < |StoreStep(s, max, e).order|
    ensures SuffixFrom(s.order, StoreStep(s, max, e).order, TouchedBy(s, e), p)
  {
    hide Without, Shrunk, Members, NoDup;
    var order' := StoreStep(s, max, e).order;
    if TouchedBy(s, e).Some? {
      var k := TouchedBy(s, e).value;
      if k in s.entries {
        RefreshedSuffix(s.order, k, p);
      } else {
        InsertedSuffix(s, max, k, p);
      }
    } else if order' == s.order {
      assert s.order[0..] == s.order;
      DroppedSuffix(s.order, 0, p);
    } else {
      WithoutSuffix(s.order, e.key, p);
    }
  }

  // ---- the invariant: who can have been evicted

  /** A held key stands in front only of keys touched since its own last touch. */
  ghost predicate PositionRecent(h: History, which: Index, n: nat, p: nat)
    requires h.Valid() && n <= |h.ops| && p < |h.StoreAt(which, n).order|
  {
    var order := h.StoreAt(which, n).order;
    var i := LastTouch(h, which, order[p], n);
    i >= 0 && Members(order[p..]) <= KeysTouched(h, which, i, n)
  }

  ghost predicate AllRecent(h: History, which: Index, n: nat)
    requires h.Valid() && n <= |h.ops|
  {
    forall p :: 0 <= p < |h.StoreAt(which, n).order| ==> PositionRecent(h, which, n, p)
  }

  lemma TouchedIs(h: History, which: Index, n: nat)
    requires h.Valid() && n < |h.ops|
    ensures Touched(h, which, n) == TouchedBy(h.StoreAt(which, n), h.EventAt(which, n))
  {
  }

  lemma RecentStep(h: History, which: Index, n: nat, p: nat)
    requires h.Valid() && n < |h.ops| && AllRecent(h, which, n)
    requires p < |h.StoreAt(which, n + 1).order|
    ensures PositionRecent(h, which, n + 1, p)
  {
    hide After, Apply, EventOf;
    StepAt(h, which, n);
    TouchedIs(h, which, n);
    var order, order', t := h.StoreAt(which, n).order, h.StoreAt(which, n + 1).order, Touched(h, which, n);
    StepSuffix(h.StoreAt(which, n), h.At(n).config.maxSize, h.EventAt(which, n), p);
    hide StoreStep, TouchedBy, Touched;
    if t == Some(order'[p]) {
      KeysTouchedStep(h, which, n, n);
    } else {
      var q :| 0 <= q < |order| && order[q] == order'[p]
                 && Members(order'[p..]) <= Members(order[q..]) + TouchSet(t);
      assert PositionRecent(h, which, n, q);
      KeysTouchedStep(h, which, LastTouch(h, which, order[q], n), n);
    }
  }

  lemma {:induction false} AlwaysRecent(h: History, which: Index, n: nat)
    requires h.Valid() && n <= |h.ops|
    ensures AllRecent(h, which, n)
  {
    hide After, Apply, EventOf, PositionRecent;
    StartAt(h, which);
    if n > 0 {
      AlwaysRecent(h, which, n - 1);
      forall p | 0 <= p < |h.StoreAt(which, n).order| ensures PositionRecent(h, which, n, p) {
        RecentStep(h, which, n - 1, p);
      }
    }
  }

  /** A full store gives up its front entry only. */
  lemma VictimIsFront(s: Store, max: nat, k: Key, e: Entry, victim: Key)
    requires s.Valid() && |s.order| <= max && max >= 1 && k !in s.entries
    requires victim in s.entries && victim !in Written(s, max, k, e).entries
    ensures |s.order| == max && s.order[0] == victim
  {
    assert |s.order| == max ==> Shrunk(s, max) == Shrunk(s.PopFirst(), max) == s.PopFirst();
  }

  /** When a write pushes `key` out, more distinct keys than the store holds were touched since
      `key` was. */
  lemma EvictedMeansCrowded(h: History, which: Index, key: Key, n: nat)
    requires h.Valid() && n < |h.ops| && AllRecent(h, which, n)
    requires key in h.StoreAt(which, n).entries && key !in h.StoreAt(which, n + 1).entries
    requires h.EventAt(which, n).Write?
    ensures var i := LastTouch(h, which, key, n);
            i >= 0 && |KeysTouched(h, which, i, n + 1)| > h.At(n).config.maxSize
  {
    hide After, Apply, EventOf;
    StepAt(h, which, n);
    TouchedIs(h, which, n);
    var s, max, e := h.StoreAt(which, n), h.At(n).config.maxSize, h.EventAt(which, n);
    assert e.key !in s.entries && Touched(h, which, n) == Some(e.key);
    VictimIsFront(s, max, e.key, e.entry, key);
    assert s.order[0] == key && |s.order| == max;
    assert PositionRecent(h, which, n, 0) && s.order[0..] == s.order;
    var i := LastTouch(h, which, key, n);
    KeysTouchedStep(h, which, i, n);
    MembersSize(s.order);
    assert e.key !in Members(s.order);
    assert |Members(s.order) + {e.key}| == max + 1;
    SubsetSize(Members(s.order) + {e.key}, KeysTouched(h, which, i, n + 1));
  }

  /** No lookup since the last write of `key` read a clock past the entry's expiry; see
      `UnexpiredNow` for a clock that never goes back. */
  ghost predicate NotSeenExpired(h: History, which: Index, key: Key, n: nat)
    requires h.Valid() && n <= |h.ops| && LastWrite(h, which, key, n) >= 0
  {
    var j := LastWrite(h, which, key, n);
    forall m :: j < m < n && h.EventAt(which, m).Lookup? && h.EventAt(which, m).key == key ==>
      h.EventAt(which, m).now <= h.EventAt(which, j).entry.expiresAt
  }

  /** A written key that is gone was crowded out. */
  ghost predicate GoneMeansCrowded(h: History, which: Index, key: Key, n: nat)
    requires h.Valid() && n <= |h.ops|
  {
    LastWrite(h, which, key, n) >= 0 && NotSeenExpired(h, which, key, n) && key !in h.StoreAt(which, n).entries ==>
      && LastTouch(h, which, key, n) >= 0
      && |KeysTouched(h, which, LastTouch(h, which, key, n), n)| > h.At(n).config.maxSize
  }

  /** What one store step can do to a held key. */
  lemma LeavingStep(s: Store, max: nat, e: Event, key: Key)
    requires s.Valid() && |s.order| <= max && max >= 1
    requires key in s.entries && key !in StoreStep(s, max, e).entries
    ensures e.Flush? || (e.Remove? && e.key == key) || (e.Write? && e.key != key)
            || (e.Lookup? && e.key == key && e.now > s.entries[key].expiresAt)
  {
  }

  lemma WrittenIsHeld(s: Store, max: nat, e: Event, key: Key)
    requires s.Valid() && |s.order| <= max && max >= 1
    requires key !in StoreStep(s, max, e).entries
    ensures TouchedBy(s, e) != Some(key)
  {
  }

  lemma LastTouchKept(h: History, which: Index, key: Key, n: nat)
    requires h.Valid() && n < |h.ops| && key !in h.StoreAt(which, n + 1).entries
    ensures LastTouch(h, which, key, n + 1) == LastTouch(h, which, key, n)
  {
    hide After, Apply, EventOf;
    StepAt(h, which, n);
    TouchedIs(h, which, n);
    WrittenIsHeld(h.StoreAt(which, n), h.At(n).config.maxSize, h.EventAt(which, n), key);
  }

  lemma CrowdedStep(h: History, which: Index, key: Key, n: nat)
    requires h.Valid() && n < |h.ops| && AllRecent(h, which, n)
    requires GoneMeansCrowded(h, which, key, n) && HeldIsLast(h, which, key, n)
    ensures GoneMeansCrowded(h, which, key, n + 1)
  {
    hide After, Apply;
    if LastWrite(h, which, key, n + 1) >= 0 && NotSeenExpired(h, which, key, n + 1)
       && key !in h.StoreAt(which, n + 1).entries
    {
      StepAt(h, which, n);
      var s, e := h.StoreAt(which, n), h.EventAt(which, n);
      var j := LastWrite(h, which, key, n);
      WrittenIsHeld(s, h.At(n).config.maxSize, e, key);
      assert LastWrite(h, which, key, n + 1) == j && h.At(n + 1).config == h.At(n).config;
      LastTouchKept(h, which, key, n);
      if key in s.entries {
        LeavingStep(s, h.At(n).config.maxSize, e, key);
        assert e.Write?;
        EvictedMeansCrowded(h, which, key, n);
      } else {
        var i := LastTouch(h, which, key, n);
        assert NotSeenExpired(h, which, key, n);
        KeysTouchedStep(h, which, i, n);
        SubsetSize(KeysTouched(h, which, i, n), KeysTouched(h, which, i, n + 1));
      }
    }
  }

  lemma {:induction false} GoneWasCrowdedOut(h: History, which: Index, key: Key, n: nat)
    requires h.Valid() && n <= |h.ops|
    ensures GoneMeansCrowded(h, which, key, n)
  {
    hide After, Apply, EventOf, NotSeenExpired, HeldIsLast, AllRecent;
    if n > 0 {
      GoneWasCrowdedOut(h, which, key, n - 1);
      AlwaysRecent(h, which, n - 1);
      HeldIsLastWritten(h, which, key, n - 1);
      hide GoneMeansCrowded, LastWrite;
      CrowdedStep(h, which, key, n - 1);
    }
  }

  /** The last write of the key is at most the current lifetime old when operation `i` reads the clock. */
  ghost predicate WrittenWithin(h: History, which: Index, key: Key, i: nat)
    requires h.Valid() && i < |h.ops| && (h.ops[i].Get? || h.ops[i].GetBySql?)
  {
    var j := LastWrite(h, which, key, i);
    j >= 0 && h.ops[j].Set? && h.ops[i].now <= h.ops[j].now + h.At(i).config.ttl as real
  }

  lemma WithinIsUnexpired(h: History, which: Index, key: Key, i: nat)
    requires h.Valid() && i < |h.ops| && (h.ops[i].Get? || h.ops[i].GetBySql?) && WrittenWithin(h, which, key, i)
    ensures h.ops[i].now <= h.EventAt(which, LastWrite(h, which, key, i)).entry.expiresAt
  {
    ConfigSinceWrite(h, which, key, i);
  }

  /** Guaranteed hit: a lookup finds the last written response if that is unexpired and, from some
      set or hit of the key on, at most `maxSize` distinct keys (itself included) of its store were
      set or hit. */
  lemma {:induction false} GuaranteedHit(h: History, i: nat, t: nat)
    requires h.Valid() && i < |h.ops| && (h.ops[i].Get? || h.ops[i].GetBySql?) && h.At(i).config.ttl > 0
    requires var which, key := IndexOf(h.ops[i]), h.ops[i].key;
             && LastWrite(h, which, key, i) >= 0 && NotSeenExpired(h, which, key, i)
             && WrittenWithin(h, which, key, i)
             && t < i && Touched(h, which, t) == Some(key)
             && |KeysTouched(h, which, t, i)| <= h.At(i).config.maxSize
    ensures Found(h.At(i), h.ops[i]) == Some(h.ops[LastWrite(h, IndexOf(h.ops[i]), h.ops[i].key, i)].answer)
  {
    hide After, Apply;
    var which, key := IndexOf(h.ops[i]), h.ops[i].key;
    WithinIsUnexpired(h, which, key, i);
    GoneWasCrowdedOut(h, which, key, i);
    HeldIsLastWritten(h, which, key, i);
    var last := LastTouch(h, which, key, i);
    assert t <= last;
    SubsetSize(KeysTouched(h, which, last, i), KeysTouched(h, which, t, i));
  }

  predicate ReadsClock(op: Op) { op.Get? || op.GetBySql? || op.Set? }

  predicate MonotoneClock(ops: seq<Op>) {
    forall i, j :: 0 <= i < j < |ops| && ReadsClock(ops[i]) && ReadsClock(ops[j]) ==> ops[i].now <= ops[j].now
  }

  /** With a clock that never goes back, an entry that is unexpired now was never seen expired. */
  lemma UnexpiredNow(h: History, i: nat)
    requires h.Valid() && i < |h.ops| && (h.ops[i].Get? || h.ops[i].GetBySql?) && MonotoneClock(h.ops)
    requires var which, key := IndexOf(h.ops[i]), h.ops[i].key;
             && LastWrite(h, which, key, i) >= 0
             && WrittenWithin(h, which, key, i)
    ensures NotSeenExpired(h, IndexOf(h.ops[i]), h.ops[i].key, i)
  {
    hide After, Apply, LastWrite;
    var which, key := IndexOf(h.ops[i]), h.ops[i].key;
    WithinIsUnexpired(h, which, key, i);
    forall m | LastWrite(h, which, key, i) < m < i && h.EventAt(which, m).Lookup?
      ensures h.EventAt(which, m).now <= h.ops[i].now
    {
      assert ReadsClock(h.ops[m]) && h.EventAt(which, m).now == h.ops[m].now;
    }
  }

  /** Guaranteed hit, with a clock that never goes back: an entry unexpired now is found if at most
      `maxSize` distinct keys of its store were set or hit since some set or hit of its own key. */
  lemma {:induction false} GuaranteedHitMonotone(h: History, i: nat, t: nat)
    requires h.Valid() && i < |h.ops| && (h.ops[i].Get? || h.ops[i].GetBySql?) && h.At(i).config.ttl > 0
    requires MonotoneClock(h.ops)
    requires var which, key := IndexOf(h.ops[i]), h.ops[i].key;
             && LastWrite(h, which, key, i) >= 0
             && WrittenWithin(h, which, key, i)
             && t < i && Touched(h, which, t) == Some(key)
             && |KeysTouched(h, which, t, i)| <= h.At(i).config.maxSize
    ensures Found(h.At(i), h.ops[i]) == Some(h.ops[LastWrite(h, IndexOf(h.ops[i]), h.ops[i].key, i)].answer)
  {
    hide After, Apply, Found, LastWrite, NotSeenExpired, Touched, KeysTouched, WrittenWithin;
    UnexpiredNow(h, i);
    GuaranteedHit(h, i, t);
  }

  // ---- the counters add up -----------------------------------------------------------------------

  /** New keys brought into the store by the first `n` operations. */
  ghost function Inserts(h: History, which: Index, n: nat): nat
    requires h.Valid() && n <= |h.ops|
  {
    if n == 0 then 0
    else
      var e := h.EventAt(which, n - 1);
      Inserts(h, which, n - 1) + if e.Write? && e.key !in h.StoreAt(which, n - 1).entries then 1 else 0
  }

  /** Entries `invalidate` removed. */
  ghost function Invalidated(h: History, which: Index, n: nat): nat
    requires h.Valid() && n <= |h.ops|
  {
    if n == 0 then 0
    else
      var e := h.EventAt(which, n - 1);
      Invalidated(h, which, n - 1) + if e.Remove? && e.key in h.StoreAt(which, n - 1).entries then 1 else 0
  }

  /** Entries `clear` and `reconfigure` flushed. */
  ghost function Flushed(h: History, which: Index, n: nat): nat
    requires h.Valid() && n <= |h.ops|
  {
    if n == 0 then 0
    else
      Flushed(h, which, n - 1) + if h.EventAt(which, n - 1).Flush? then |h.StoreAt(which, n - 1).order| else 0
  }

  /** Lookups made while the cache was enabled, in either index. */
  ghost function Lookups(h: History, n: nat): nat
    requires h.Valid() && n <= |h.ops|
  {
    if n == 0 then 0
    else
      Lookups(h, n - 1)
      + if (h.ops[n - 1].Get? || h.ops[n - 1].GetBySql?) && h.At(n - 1).config.ttl > 0 then 1 else 0
  }

  /** Lookups that found something. */
  ghost function FoundLookups(h: History, n: nat): nat
    requires h.Valid() && n <= |h.ops|
  {
    if n == 0 then 0
    else
      FoundLookups(h, n - 1)
      + if (h.ops[n - 1].Get? || h.ops[n - 1].GetBySql?) && Found(h.At(n - 1), h.ops[n - 1]).Some? then 1 else 0
  }

  /** The evictions one step of a store counts: an expired lookup, or the eviction loop. */
  function EvictedBy(s: Store, max: nat, e: Event): nat
    requires s.Valid() && max >= 1
  {
    match e
    case Lookup(k, now) => if k in s.entries && !Hits(s, k, now) then 1 else 0
    case Write(k, _) => Evicted(s, max, k)
    case _ => 0
  }

  /** How one store's size moves: in by new keys, out by eviction, expiry, removal and flush. */
  lemma SizeStep(s: Store, max: nat, e: Event)
    requires s.Valid() && |s.order| <= max && max >= 1
    ensures |StoreStep(s, max, e).order|
            == |s.order| + (if e.Write? && e.key !in s.entries then 1 else 0) - EvictedBy(s, max, e)
               - (if e.Remove? && e.key in s.entries then 1 else 0) - (if e.Flush? then |s.order| else 0)
  {
  }

  lemma CountersStep(c: Cache, op: Op)
    requires c.Valid() && (op.Reconfigure? ==> op.config.maxSize >= 1)
    ensures Apply(c, op).evictions
            == c.evictions + EvictedBy(c.questions, c.config.maxSize, EventOf(c.config, op, Questions))
               + EvictedBy(c.sqls, c.config.maxSize, EventOf(c.config, op, Sqls))
    ensures Apply(c, op).hits + Apply(c, op).misses
            == c.hits + c.misses + if (op.Get? || op.GetBySql?) && c.config.ttl > 0 then 1 else 0
    ensures Apply(c, op).hits == c.hits + if (op.Get? || op.GetBySql?) && Found(c, op).Some? then 1 else 0
  {
    hide Looked, Written, Removed, Evicted, Hits;
  }

  lemma CountersAt(h: History, n: nat)
    requires h.Valid() && n < |h.ops|
    ensures h.At(n + 1).evictions
            == h.At(n).evictions + EvictedBy(h.StoreAt(Questions, n), h.At(n).config.maxSize, h.EventAt(Questions, n))
               + EvictedBy(h.StoreAt(Sqls, n), h.At(n).config.maxSize, h.EventAt(Sqls, n))
    ensures h.At(n + 1).hits + h.At(n + 1).misses
            == h.At(n).hits + h.At(n).misses
               + if (h.ops[n].Get? || h.ops[n].GetBySql?) && h.At(n).config.ttl > 0 then 1 else 0
    ensures h.At(n + 1).hits
            == h.At(n).hits + if (h.ops[n].Get? || h.ops[n].GetBySql?) && Found(h.At(n), h.ops[n]).Some? then 1 else 0
  {
    hide EvictedBy, Apply, EventOf, Found;
    CountersStep(h.At(n), h.ops[n]);
  }

  /** The entries the first `n` operations evicted from one store. */
  ghost function EvictedTotal(h: History, which: Index, n: nat): nat
    requires h.Valid() && n <= |h.ops|
  {
    if n == 0 then 0
    else
      EvictedTotal(h, which, n - 1)
      + EvictedBy(h.StoreAt(which, n - 1), h.At(n - 1).config.maxSize, h.EventAt(which, n - 1))
  }

  lemma AccountingStart(h: History)
    requires h.Valid()
    ensures h.At(0) == New(h.config)
  {
  }

  lemma {:induction false} StoreAccounting(h: History, which: Index, n: nat)
    requires h.Valid() && n <= |h.ops|
    ensures Inserts(h, which, n)
            == |h.StoreAt(which, n).order| + EvictedTotal(h, which, n)
               + Invalidated(h, which, n) + Flushed(h, which, n)
  {
    hide After, StoreStep, EvictedBy, EventOf, Apply;
    if n == 0 {
      StartAt(h, which);
    } else {
      StoreAccounting(h, which, n - 1);
      StepAt(h, which, n - 1);
      SizeStep(h.StoreAt(which, n - 1), h.At(n - 1).config.maxSize, h.EventAt(which, n - 1));
    }
  }

  lemma {:induction false} CounterTotals(h: History, n: nat)
    requires h.Valid() && n <= |h.ops|
    ensures h.At(n).evictions == EvictedTotal(h, Questions, n) + EvictedTotal(h, Sqls, n)
    ensures h.At(n).hits == FoundLookups(h, n) && h.At(n).hits + h.At(n).misses == Lookups(h, n)
  {
    hide After, StoreStep, EvictedBy, EventOf, Apply, Found;
    if n == 0 {
      AccountingStart(h);
    } else {
      CounterTotals(h, n - 1);
      CountersAt(h, n - 1);
    }
  }

  /** Every entry brought in is still there, or was evicted, invalidated or flushed; and every
      lookup made while enabled is one hit, if it found something, or one miss. */
  lemma Accounting(h: History, n: nat)
    requires h.Valid() && n <= |h.ops|
    ensures Inserts(h, Questions, n) + Inserts(h, Sqls, n)
            == |h.StoreAt(Questions, n).order| + |h.StoreAt(Sqls, n).order| + h.At(n).evictions
               + Invalidated(h, Questions, n) + Invalidated(h, Sqls, n) + Flushed(h, Questions, n) + Flushed(h, Sqls, n)
    ensures h.At(n).hits == FoundLookups(h, n) && h.At(n).hits + h.At(n).misses == Lookups(h, n)
  {
    hide *;
    StoreAccounting(h, Questions, n);
    StoreAccounting(h, Sqls, n);
    CounterTotals(h, n);
  }
}
