/** The cache of the expensive admin cards, `api/admin_result_cache.py`. */
module AdminCache {
  import opened Options

  /** A cached value and when its computation completed. */
  datatype Slot = Slot(value: string, at: real)

  type Slots = map<string, Slot>

  /** `get_or_compute` with its two clock readings and what the computation gives (`None`: it
      raises), or `reset` of one key or of all. Calls are in the order in which they hold the lock. */
  datatype Call =
    | Compute(key: string, ttl: real, force: bool, start: real, outcome: Option<string>, finish: real)
    | Reset(which: Option<string>)

  datatype Reply = Cached(value: string, age: real) | Computed(value: string) | Raised | Nothing

  predicate Answers(slots: Slots, c: Call)
    requires c.Compute?
  {
    !c.force && c.key in slots && c.ttl > 0.0 && c.start - slots[c.key].at < c.ttl
  }

  function Step(slots: Slots, c: Call): (Slots, Reply) {
    match c
    case Compute(key, ttl, force, start, outcome, finish) =>
      if Answers(slots, c) then (slots, Cached(slots[key].value, start - slots[key].at))
      else if outcome.None? then (slots, Raised)
      else (slots[key := Slot(outcome.value, finish)], Computed(outcome.value))
    case Reset(None) => (map[], Nothing)
    case Reset(Some(key)) => (slots - {key}, Nothing)
  }

  function SlotsAfter(calls: seq<Call>, n: nat): Slots
    requires n <= |calls|
  {
    if n == 0 then map[] else Step(SlotsAfter(calls, n - 1), calls[n - 1]).0
  }

  function ReplyAt(calls: seq<Call>, i: nat): Reply
    requires i < |calls|
  {
    Step(SlotsAfter(calls, i), calls[i]).1
  }

  /** The clock of calls under one lock. */
  ghost predicate Clocked(calls: seq<Call>) {
    && (forall i :: 0 <= i < |calls| && calls[i].Compute? ==> calls[i].start <= calls[i].finish)
    && (forall i, j :: 0 <= i < j < |calls| && calls[i].Compute? && calls[j].Compute? ==>
          calls[i].finish <= calls[j].start)
  }

  // ---- a cached answer is the latest successful one ----------------------------------------------

  predicate Resets(c: Call, key: string) { c.Reset? && (c.which == None || c.which == Some(key)) }

  /** The last call that completed a computation of `key` and that no reset undid, or -1. */
  function LastSuccess(calls: seq<Call>, key: string, n: nat): (i: int)
    requires n <= |calls|
    ensures -1 <= i < n
    ensures i >= 0 ==> calls[i].Compute? && calls[i].key == key && ReplyAt(calls, i).Computed?
    ensures forall m :: 0 <= i < m < n && calls[m].Compute? && calls[m].key == key ==> !ReplyAt(calls, m).Computed?
    ensures forall m :: 0 <= i < m < n ==> !Resets(calls[m], key)
  {
    if n == 0 || Resets(calls[n - 1], key) then -1
    else if calls[n - 1].Compute? && calls[n - 1].key == key && ReplyAt(calls, n - 1).Computed? then n - 1
    else LastSuccess(calls, key, n - 1)
  }

  lemma {:induction false} SlotIsLastSuccess(calls: seq<Call>, key: string, n: nat)
    requires n <= |calls|
    ensures key in SlotsAfter(calls, n) <==> LastSuccess(calls, key, n) >= 0
    ensures var i := LastSuccess(calls, key, n);
            i >= 0 ==>
              calls[i].outcome.Some? && SlotsAfter(calls, n)[key] == Slot(calls[i].outcome.value, calls[i].finish)
  {
    if n > 0 {
      SlotIsLastSuccess(calls, key, n - 1);
    }
  }

  /** A cached answer is the latest successful result of its key, at its true age, younger than the
      lifetime the caller asked for; failures in between, forced or not, change nothing. */
  lemma CachedIsLatestSuccess(calls: seq<Call>, i: nat)
    requires Clocked(calls) && i < |calls| && ReplyAt(calls, i).Cached?
    ensures var j := LastSuccess(calls, calls[i].key, i);
            && 0 <= j < i && ReplyAt(calls, i) == Cached(calls[j].outcome.value, calls[i].start - calls[j].finish)
            && 0.0 <= ReplyAt(calls, i).age < calls[i].ttl
  {
    SlotIsLastSuccess(calls, calls[i].key, i);
  }

  /** What a call replies: the latest success of its key while that is younger than the lifetime asked
      for, unless the caller forces a fresh computation or the lifetime is not positive; otherwise what
      the computation gives. */
  lemma ReplyIs(calls: seq<Call>, i: nat)
    requires i < |calls| && calls[i].Compute?
    ensures var c, reply, j := calls[i], ReplyAt(calls, i), LastSuccess(calls, calls[i].key, i);
            if !c.force && c.ttl > 0.0 && j >= 0 && c.start - calls[j].finish < c.ttl then
              reply == Cached(calls[j].outcome.value, c.start - calls[j].finish)
            else if c.outcome.None? then reply == Raised
            else reply == Computed(c.outcome.value)
  {
    SlotIsLastSuccess(calls, calls[i].key, i);
  }

  // ---- how often the expensive thing runs ----------------------------------------------------------

  /** Call `i` ran the computation of `key` to its end without being forced to. */
  predicate RanUnforced(calls: seq<Call>, key: string, i: nat)
    requires i < |calls|
  {
    calls[i].Compute? && calls[i].key == key && !calls[i].force && ReplyAt(calls, i).Computed?
  }

  /** How many of the calls `i..n` did. */
  function Runs(calls: seq<Call>, key: string, i: nat, n: nat): nat
    requires i <= n <= |calls|
  {
    if n == i then 0 else Runs(calls, key, i, n - 1) + if RanUnforced(calls, key, n - 1) then 1 else 0
  }

  function Times(k: int, ttl: real): real { k as real * ttl }

  lemma TimesStep(k: int, ttl: real)
    ensures Times(k + 1, ttl) == Times(k, ttl) + ttl && Times(0, ttl) == 0.0
  {
  }

  /** How many of the calls `i..n` reset the key. */
  function ResetCount(calls: seq<Call>, key: string, i: nat, n: nat): nat
    requires i <= n <= |calls|
  {
    if n == i then 0 else ResetCount(calls, key, i, n - 1) + if Resets(calls[n - 1], key) then 1 else 0
  }

  /** From call `i` on every lifetime asked for the key is at least `ttl`. */
  predicate TtlAtLeast(calls: seq<Call>, key: string, i: nat, n: nat, ttl: real)
    requires i <= n <= |calls|
  {
    forall m :: i <= m < n && calls[m].Compute? && calls[m].key == key ==> calls[m].ttl >= ttl
  }

  /** No call from `n` on starts before `t`. */
  predicate DoneBy(calls: seq<Call>, n: nat, t: real)
    requires n <= |calls|
  {
    forall m :: n <= m < |calls| && calls[m].Compute? ==> t <= calls[m].start
  }

  /** The unforced runs but one and but one for each reset are a lifetime apart: a held slot is at
      least so many lifetimes younger than `from`, and after a reset so are all calls to come. */
  ghost predicate Spaced(calls: seq<Call>, key: string, i: nat, n: nat, ttl: real, from: real)
    requires i <= n <= |calls|
  {
    var runs, resets, slots := Runs(calls, key, i, n), ResetCount(calls, key, i, n), SlotsAfter(calls, n);
    runs > 0 ==>
      if key in slots then from + Times(runs - 1 - resets, ttl) <= slots[key].at
      else DoneBy(calls, n, from + Times(runs - resets, ttl))
  }

  lemma TimesNegative(k: int, ttl: real)
    requires ttl > 0.0 && k <= 0
    ensures Times(k, ttl) <= 0.0
  {
  }

  lemma SpacedStep(calls: seq<Call>, key: string, i: nat, n: nat, ttl: real, from: real)
    requires Clocked(calls) && i <= n < |calls| && ttl > 0.0 && TtlAtLeast(calls, key, i, n + 1, ttl)
    requires RanUnforced(calls, key, n) ==> from <= calls[n].finish
    requires Spaced(calls, key, i, n, ttl, from)
    ensures Spaced(calls, key, i, n + 1, ttl, from)
  {
    hide Times;
    var k := Runs(calls, key, i, n) - ResetCount(calls, key, i, n);
    TimesStep(k - 1, ttl);
    TimesStep(k, ttl);
    var resets: int := ResetCount(calls, key, i, n);
    TimesNegative(-resets, ttl);
    TimesNegative(-resets - 1, ttl);
    SlotIsLastSuccess(calls, key, n);
  }

  lemma NothingRan(calls: seq<Call>, key: string, i: nat, ttl: real, from: real)
    requires i <= |calls|
    ensures Spaced(calls, key, i, i, ttl, from)
  {
  }

  lemma {:induction false} AlwaysSpaced(calls: seq<Call>, key: string, i: nat, n: nat, ttl: real, from: real)
    requires Clocked(calls) && i <= n <= |calls| && ttl > 0.0 && TtlAtLeast(calls, key, i, n, ttl)
    requires forall m :: i <= m < n && RanUnforced(calls, key, m) ==> from <= calls[m].finish
    ensures Spaced(calls, key, i, n, ttl, from)
  {
    hide Spaced, Clocked;
    if n > i {
      AlwaysSpaced(calls, key, i, n - 1, ttl, from);
      SpacedStep(calls, key, i, n - 1, ttl, from);
    } else {
      NothingRan(calls, key, i, ttl, from);
    }
  }

  lemma SignOfProduct(x: real, y: real)
    requires y > 0.0
    ensures x > 0.0 ==> x * y > 0.0
  {
  }

  lemma FloorBound(k: int, ttl: real, t: real)
    requires ttl > 0.0 && t >= 0.0 && (k == 0 || Times(k, ttl) <= t)
    ensures k <= (t / ttl).Floor
  {
    var q := t / ttl;
    assert q * ttl == t;
    SignOfProduct(k as real - q, ttl);
    assert (k as real - q) * ttl == Times(k, ttl) - t;
  }

  /** Within a span `t` an expensive card is computed unforced at most `t / ttl + 1` times and once more
      for each reset, however often it is asked for. */
  lemma {:induction false} RunsWithinSpan(calls: seq<Call>, key: string, i: nat, n: nat, ttl: real, from: real, t: real)
    requires Clocked(calls) && i < n <= |calls| && ttl > 0.0 && t >= 0.0 && TtlAtLeast(calls, key, i, n, ttl)
    requires forall m :: i <= m < n && RanUnforced(calls, key, m) ==> from <= calls[m].finish <= from + t
    ensures Runs(calls, key, i, n) <= (t / ttl).Floor + 1 + ResetCount(calls, key, i, n)
    decreases n
  {
    hide Times;
    if RanUnforced(calls, key, n - 1) {
      AlwaysSpaced(calls, key, i, n, ttl, from);
      FloorBound(Runs(calls, key, i, n) - 1 - ResetCount(calls, key, i, n), ttl, t);
    } else if n - 1 > i {
      RunsWithinSpan(calls, key, i, n - 1, ttl, from, t);
    } else {
      FloorBound(0, ttl, t);
    }
  }

  // ---- the object ------------------------------------------------------------------------------------

  class TTLCache {
    var values: map<string, string>
    var computedAt: map<string, real>

    ghost predicate Valid()
      reads this
    {
      values.Keys == computedAt.Keys
    }

    ghost function View(): Slots
      requires Valid()
      reads this
    {
      map k | k in values :: Slot(values[k], computedAt[k])
    }

    constructor ()
      ensures Valid() && View() == map[]
    {
      values, computedAt := map[], map[];
    }

    /** `start` and `finish` are the clock before and after the computation, `outcome` what it gives. */
    method GetOrCompute(key: string, ttl: real, force: bool, start: real, outcome: Option<string>, finish: real)
      returns (reply: Reply)
      requires Valid()
      modifies this
      ensures Valid() && (View(), reply) == Step(old(View()), Compute(key, ttl, force, start, outcome, finish))
    {
      if !force && key in computedAt && ttl > 0.0 && start - computedAt[key] < ttl {
        return Cached(values[key], start - computedAt[key]);
      }
      if outcome.None? { return Raised; }
      values := values[key := outcome.value];
      computedAt := computedAt[key := finish];
      assert View() == old(View())[key := Slot(outcome.value, finish)];
      return Computed(outcome.value);
    }

    method ResetSlots(which: Option<string>)
      requires Valid()
      modifies this
      ensures Valid() && View() == Step(old(View()), Reset(which)).0
    {
      if which.None? {
        values, computedAt := map[], map[];
      } else {
        values, computedAt := values - {which.value}, computedAt - {which.value};
      }
    }
  }
}
