/** The rate bound across evictions: a caller whose bucket is forgotten starts again with a full one,
    so between two of its requests it has at most one more capacity for every eviction in between; and
    an eviction takes `max` requests of other callers. */
module RateLimiterBursts {
  import opened RateLimiter
  import opened RateLimiterLru

  /** How often the bucket of `k` was evicted by the requests from number `i` up to `n - 1`. */
  ghost function Evictions(max: nat, trace: seq<Request>, k: string, i: nat, n: nat): nat
    requires max >= 1 && i <= n <= |trace|
  {
    if n == i then 0
    else Evictions(max, trace, k, i, n - 1)
         + if k in StoreAfter(max, trace, n - 1).entries && k !in StoreAfter(max, trace, n).entries then 1 else 0
  }

  /** How many of the requests from number `i` up to `n - 1` are of other keys. */
  function Others(trace: seq<Request>, k: string, i: nat, n: nat): nat
    requires i <= n <= |trace|
  {
    if n == i then 0 else Others(trace, k, i, n - 1) + if trace[n - 1].key != k then 1 else 0
  }

  /** The clock readings of the requests of `k` never go back. */
  ghost predicate InOrder(trace: seq<Request>, k: string, i: nat, n: nat)
    requires i <= n <= |trace|
  {
    forall a, b :: i <= a <= b < n && trace[a].key == trace[b].key == k ==> trace[a].now <= trace[b].now
  }

  // ---- what an eviction takes ---------------------------------------------------------------

  lemma {:induction false} OthersSplit(trace: seq<Request>, k: string, i: nat, m: nat, n: nat)
    requires i <= m <= n <= |trace|
    ensures Others(trace, k, i, n) == Others(trace, k, i, m) + Others(trace, k, m, n)
  {
    if m < n { OthersSplit(trace, k, i, m, n - 1); }
  }

  lemma OneMoreKey(before: set<string>, x: string, k: string)
    ensures |(before + {x}) - {k}| <= |before - {k}| + if x != k then 1 else 0
  {
    assert (before + {x}) - {k} == (before - {k}) + ({x} - {k});
    assert {x} - {k} == if x != k then {x} else {};
  }

  lemma {:induction false} DistinctOthers(trace: seq<Request>, k: string, i: nat, n: nat)
    requires i <= n <= |trace|
    ensures |KeysSince(trace, i, n) - {k}| <= Others(trace, k, i, n)
  {
    if i < n {
      DistinctOthers(trace, k, i, n - 1);
      KeysSinceStep(trace, i, n - 1);
      hide KeysSince;
      OneMoreKey(KeysSince(trace, i, n - 1), trace[n - 1].key, k);
    }
  }

  /** A bucket evicted by request `n` was last used before `max` requests of others. */
  lemma EvictionTakesOthers(max: nat, trace: seq<Request>, k: string, n: nat)
    requires max >= 1 && n < |trace| && LastRequest(trace, k, n) >= 0
    requires k in StoreAfter(max, trace, n).entries && k !in StoreAfter(max, trace, n + 1).entries
    ensures LastRequest(trace, k, n + 1) == LastRequest(trace, k, n)
    ensures Others(trace, k, LastRequest(trace, k, n) + 1, n + 1) >= max
  {
    hide StoreAfter, Admitted, Explained;
    BucketStep(max, trace, k, n);
    StoreIsExplained(max, trace, n);
    ForgottenStep(max, trace, n, k);
    var last := LastRequest(trace, k, n);
    var keys := KeysSince(trace, last, n + 1);
    assert keys == (keys - {k}) + {k};
    DistinctOthers(trace, k, last, n + 1);
    OthersSplit(trace, k, last, last + 1, n + 1);
  }

  /** What that many evictions take. */
  function Price(max: nat, evictions: nat): nat { evictions * max }

  lemma PriceStep(max: nat, evictions: nat)
    ensures Price(max, evictions + 1) == Price(max, evictions) + max && Price(max, 0) == 0
  {
  }

  /** Each eviction so far is paid for by `max` requests of others, and while the bucket is held by
      requests before its last use. */
  ghost predicate Paid(max: nat, trace: seq<Request>, k: string, i: nat, n: nat)
    requires max >= 1 && i < n <= |trace| && trace[i].key == k
  {
    && LastRequest(trace, k, n) >= i
    && (Price(max, Evictions(max, trace, k, i, n))
        <= Others(trace, k, i, if k in StoreAfter(max, trace, n).entries then LastRequest(trace, k, n) + 1 else n))
  }

  lemma PaidStart(max: nat, trace: seq<Request>, k: string, i: nat)
    requires max >= 1 && i < |trace| && trace[i].key == k
    ensures k in StoreAfter(max, trace, i + 1).entries && Evictions(max, trace, k, i, i + 1) == 0
    ensures Paid(max, trace, k, i, i + 1)
  {
    hide StoreAfter, Admitted;
    BucketStep(max, trace, k, i);
    assert Evictions(max, trace, k, i, i) == 0;
    PriceStep(max, 0);
  }

  lemma PaidInAll(max: nat, trace: seq<Request>, k: string, i: nat, n: nat)
    requires max >= 1 && i < n <= |trace| && trace[i].key == k && Paid(max, trace, k, i, n)
    ensures Price(max, Evictions(max, trace, k, i, n)) <= Others(trace, k, i, n)
  {
    hide Price, StoreAfter, Evictions, Others;
    OthersSplit(trace, k, i, LastRequest(trace, k, n) + 1, n);
  }

  lemma OwnStep(max: nat, trace: seq<Request>, k: string, i: nat, n: nat)
    requires max >= 1 && i <= n < |trace| && trace[n].key == k
    ensures k in StoreAfter(max, trace, n + 1).entries && LastRequest(trace, k, n + 1) == n
    ensures Evictions(max, trace, k, i, n + 1) == Evictions(max, trace, k, i, n)
    ensures Others(trace, k, i, n + 1) == Others(trace, k, i, n)
  {
    hide StoreAfter, Admitted;
    BucketStep(max, trace, k, n);
  }

  lemma PaidOwn(max: nat, trace: seq<Request>, k: string, i: nat, n: nat)
    requires max >= 1 && i < n < |trace| && trace[i].key == k && Paid(max, trace, k, i, n)
    requires trace[n].key == k
    ensures Paid(max, trace, k, i, n + 1)
  {
    hide StoreAfter, Evictions, Others, LastRequest, Price;
    PaidInAll(max, trace, k, i, n);
    OwnStep(max, trace, k, i, n);
  }

  lemma EvictedStep(max: nat, trace: seq<Request>, k: string, i: nat, n: nat)
    requires max >= 1 && i <= n < |trace|
    requires k in StoreAfter(max, trace, n).entries && k !in StoreAfter(max, trace, n + 1).entries
    ensures Evictions(max, trace, k, i, n + 1) == Evictions(max, trace, k, i, n) + 1
  {
    hide StoreAfter;
  }

  lemma PaidEvicted(max: nat, trace: seq<Request>, k: string, i: nat, n: nat)
    requires max >= 1 && i < n < |trace| && trace[i].key == k && Paid(max, trace, k, i, n)
    requires k in StoreAfter(max, trace, n).entries && k !in StoreAfter(max, trace, n + 1).entries
    ensures Paid(max, trace, k, i, n + 1)
  {
    hide Price, StoreAfter, Evictions, Others, LastRequest;
    EvictedStep(max, trace, k, i, n);
    var last := LastRequest(trace, k, n);
    EvictionTakesOthers(max, trace, k, n);
    OthersSplit(trace, k, i, last + 1, n + 1);
    PriceStep(max, Evictions(max, trace, k, i, n));
  }

  lemma PaidOther(max: nat, trace: seq<Request>, k: string, i: nat, n: nat)
    requires max >= 1 && i < n < |trace| && trace[i].key == k && Paid(max, trace, k, i, n)
    requires trace[n].key != k
    requires k in StoreAfter(max, trace, n).entries <==> k in StoreAfter(max, trace, n + 1).entries
    ensures Paid(max, trace, k, i, n + 1)
  {
    hide Price, StoreAfter;
    assert Evictions(max, trace, k, i, n + 1) == Evictions(max, trace, k, i, n);
    assert Others(trace, k, i, n + 1) == Others(trace, k, i, n) + 1;
    assert LastRequest(trace, k, n + 1) == LastRequest(trace, k, n);
    hide Evictions, Others, LastRequest;
  }

  lemma PaidStep(max: nat, trace: seq<Request>, k: string, i: nat, n: nat)
    requires max >= 1 && i < n < |trace| && trace[i].key == k && Paid(max, trace, k, i, n)
    ensures Paid(max, trace, k, i, n + 1)
  {
    hide StoreAfter, Admitted, Paid, Served, Evictions, Others;
    BucketStep(max, trace, k, n);
    if trace[n].key == k {
      PaidOwn(max, trace, k, i, n);
    } else if k in StoreAfter(max, trace, n).entries && k !in StoreAfter(max, trace, n + 1).entries {
      PaidEvicted(max, trace, k, i, n);
    } else {
      PaidOther(max, trace, k, i, n);
    }
  }

  /** An eviction of `k` takes `max` requests of other keys, each of its own. */
  lemma {:induction false} EvictionsTakeOthers(max: nat, trace: seq<Request>, k: string, i: nat, n: nat)
    requires max >= 1 && i < n <= |trace| && trace[i].key == k
    ensures Paid(max, trace, k, i, n)
    ensures Evictions(max, trace, k, i, n) * max <= Others(trace, k, i, n)
  {
    hide Paid, StoreAfter, Evictions, Others;
    if n == i + 1 {
      PaidStart(max, trace, k, i);
    } else {
      EvictionsTakeOthers(max, trace, k, i, n - 1);
      PaidStep(max, trace, k, i, n - 1);
    }
    PaidInAll(max, trace, k, i, n);
  }

  // ---- the bound ------------------------------------------------------------------------------

  function Positive(x: real): real { if x >= 0.0 then x else 0.0 }

  /** What `evictions + 1` full buckets and a time of refilling allow. */
  function Allowance(lim: Limits, evictions: nat, time: real): real {
    lim.capacity * (1 + evictions) as real + lim.refillRate * time
  }

  lemma AllowanceSteps(lim: Limits, evictions: nat, time: real, more: real)
    ensures Allowance(lim, 0, 0.0) == lim.capacity
    ensures Allowance(lim, evictions + 1, time) == Allowance(lim, evictions, time) + lim.capacity
    ensures Allowance(lim, evictions, time + more) == Allowance(lim, evictions, time) + more * lim.refillRate
    ensures more >= 0.0 ==> more * lim.refillRate >= 0.0
  {
  }

  /** Admissions since request `i`, with the tokens that are left, or with those of the next bucket
      once this one is gone, are within the allowance. */
  ghost predicate Balanced(max: nat, trace: seq<Request>, k: string, lim: Limits, i: nat, n: nat)
    requires max >= 1 && i < n <= |trace| && trace[i].key == k
  {
    var s, last := StoreAfter(max, trace, n).entries, LastRequest(trace, k, n);
    && last >= i
    && (k in s ==> s[k].lastRefill == trace[last].now)
    && (Admitted(max, trace, k, n) - Admitted(max, trace, k, i)) as real
       + (if k in s then Positive(s[k].tokens) else lim.capacity)
       <= Allowance(lim, Evictions(max, trace, k, i, n), trace[last].now - trace[i].now)
  }

  lemma WithinPositive(x: real, y: real)
    requires x <= y && y >= 0.0
    ensures Positive(x) <= y
  {
  }

  /** One serving turns at most the tokens there were into admissions. */
  lemma ServedPositive(tokens: real, b: Bucket, a: int, a': int, req: Request)
    requires Served(tokens, b, a, a', req)
    ensures a' as real + Positive(b.tokens) == a as real + Positive(tokens)
  {
  }

  lemma RefilledPositive(b: Bucket, req: Request)
    requires req.now >= b.lastRefill && req.limits.capacity >= 0.0
    ensures Positive(Refilled(b, req)) <= Positive(b.tokens) + Gain(b.lastRefill, req)
  {
    hide Gain;
    GainNonNegative(b.lastRefill, req);
  }

  /** What a request of `k` itself adds: at most the refill since the last one, or no more than a full
      bucket. */
  lemma OwnTokens(max: nat, trace: seq<Request>, k: string, lim: Limits, n: nat)
    requires max >= 1 && n < |trace| && trace[n].key == k && trace[n].limits == lim && lim.capacity >= 0.0
    ensures var req, s, s' := trace[n], StoreAfter(max, trace, n).entries, StoreAfter(max, trace, n + 1).entries;
            var a, a' := Admitted(max, trace, k, n), Admitted(max, trace, k, n + 1);
            && k in s' && s'[k].lastRefill == req.now
            && a' as real + Positive(s'[k].tokens) <= a as real + lim.capacity
            && (k in s && s[k].lastRefill <= req.now ==>
                  a' as real + Positive(s'[k].tokens)
                  <= a as real + Positive(s[k].tokens) + Gain(s[k].lastRefill, req))
  {
    hide StoreAfter, Admitted, Refilled, Gain, Served, Positive, Serve;
    BucketStep(max, trace, k, n);
    var req, s, s' := trace[n], StoreAfter(max, trace, n).entries, StoreAfter(max, trace, n + 1).entries;
    var tokens := Refilled(Serving(s, req), req);
    FreshIsFull(Serving(s, req), req);
    assert tokens <= lim.capacity;
    WithinPositive(tokens, lim.capacity);
    ServedPositive(tokens, s'[k], Admitted(max, trace, k, n), Admitted(max, trace, k, n + 1), req);
    if k in s && s[k].lastRefill <= req.now { RefilledPositive(s[k], req); }
  }

  lemma BalancedStart(max: nat, trace: seq<Request>, k: string, lim: Limits, i: nat)
    requires max >= 1 && i < |trace| && trace[i].key == k && trace[i].limits == lim && lim.capacity >= 0.0
    ensures Balanced(max, trace, k, lim, i, i + 1)
  {
    hide StoreAfter, Admitted, Evictions, Others, Paid, Allowance, LastRequest, Positive;
    PaidStart(max, trace, k, i);
    OwnStep(max, trace, k, i, i);
    OwnTokens(max, trace, k, lim, i);
    AllowanceSteps(lim, 0, 0.0, 0.0);
  }

  lemma BalancedOwn(max: nat, trace: seq<Request>, k: string, lim: Limits, i: nat, n: nat)
    requires max >= 1 && i < n < |trace| && trace[i].key == k && Balanced(max, trace, k, lim, i, n)
    requires trace[n].key == k && trace[n].limits == lim && lim.capacity >= 0.0
    requires trace[LastRequest(trace, k, n)].now <= trace[n].now
    ensures Balanced(max, trace, k, lim, i, n + 1)
  {
    hide StoreAfter, Admitted, Evictions, Allowance, LastRequest, Positive;
    OwnStep(max, trace, k, i, n);
    OwnTokens(max, trace, k, lim, n);
    var last := trace[LastRequest(trace, k, n)].now;
    AllowanceSteps(lim, Evictions(max, trace, k, i, n), last - trace[i].now, trace[n].now - last);
  }

  lemma BalancedOther(max: nat, trace: seq<Request>, k: string, lim: Limits, i: nat, n: nat)
    requires max >= 1 && i < n < |trace| && trace[i].key == k && Balanced(max, trace, k, lim, i, n)
    requires trace[n].key != k
    ensures Balanced(max, trace, k, lim, i, n + 1)
  {
    hide StoreAfter, Admitted, Served, Refilled, Allowance;
    BucketStep(max, trace, k, n);
    var last := trace[LastRequest(trace, k, n)].now;
    AllowanceSteps(lim, Evictions(max, trace, k, i, n), last - trace[i].now, 0.0);
  }

  lemma {:induction false} AlwaysBalanced(max: nat, trace: seq<Request>, k: string, lim: Limits, i: nat, n: nat)
    requires max >= 1 && i < n <= |trace| && trace[i].key == k && lim.capacity >= 0.0
    requires SameLimits(trace, k, i, n, lim) && InOrder(trace, k, i, n)
    ensures Balanced(max, trace, k, lim, i, n)
  {
    hide StoreAfter, Evictions;
    if n == i + 1 {
      BalancedStart(max, trace, k, lim, i);
    } else {
      AlwaysBalanced(max, trace, k, lim, i, n - 1);
      if trace[n - 1].key == k {
        BalancedOwn(max, trace, k, lim, i, n - 1);
      } else {
        BalancedOther(max, trace, k, lim, i, n - 1);
      }
    }
  }

  /** Between two requests of a caller, at most one capacity for each of its buckets and the refill of
      the time between them is admitted; and each further bucket took `max` requests of others. */
  lemma RateBoundAcrossEvictions(max: nat, trace: seq<Request>, k: string, lim: Limits, i: nat, j: nat)
    requires max >= 1 && i <= j < |trace| && trace[i].key == trace[j].key == k && lim.capacity >= 0.0
    requires SameLimits(trace, k, i, j + 1, lim) && InOrder(trace, k, i, j + 1)
    ensures (Admitted(max, trace, k, j + 1) - Admitted(max, trace, k, i)) as real
            <= lim.capacity * (1 + Evictions(max, trace, k, i, j + 1)) as real
               + lim.refillRate * (trace[j].now - trace[i].now)
    ensures Evictions(max, trace, k, i, j + 1) * max <= Others(trace, k, i, j + 1)
  {
    hide StoreAfter, Admitted, Evictions;
    AlwaysBalanced(max, trace, k, lim, i, j + 1);
    assert LastRequest(trace, k, j + 1) == j;
    EvictionsTakeOthers(max, trace, k, i, j + 1);
  }
}
