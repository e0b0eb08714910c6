/** The token-bucket rate limiter of `api/middleware.py`: one bucket per caller key, kept in an
    LRU-bounded store. `StoreAfter` and `DecisionAt` are its behaviour over a whole trace of
    requests; `UnboundedAfter` and `UnboundedDecisionAt` are the reference, which never evicts. */
module RateLimiter {
  import opened Ordered

  datatype AnyLimits = Limits(capacity: real, refillRate: real)

  /** A refusal divides by the refill rate. */
  type Limits = l: AnyLimits | l.refillRate > 0.0 witness AnyLimits.Limits(1.0, 1.0)

  datatype Bucket = Bucket(tokens: real, lastRefill: real)

  datatype Request = Request(key: string, limits: Limits, now: real)

  datatype Decision = Decision(allowed: bool, retryAfter: real)

  type Buckets = OrderedDict<string, Bucket>

  function Min(a: real, b: real): real { if a <= b then a else b }

  function FreshBucket(req: Request): Bucket { Bucket(req.limits.capacity, req.now) }

  /** What the time since `last` refills, before clipping. */
  function Gain(last: real, req: Request): real { (req.now - last) * req.limits.refillRate }

  /** The tokens of `b` once it is refilled for `req`. `req.now` may lie before `b.lastRefill`:
      the clock is read before the lock is taken. */
  function Refilled(b: Bucket, req: Request): real {
    Min(req.limits.capacity, b.tokens + Gain(b.lastRefill, req))
  }

  function Serve(b: Bucket, req: Request): (Bucket, Decision) {
    var tokens := Refilled(b, req);
    if tokens >= 1.0 then (Bucket(tokens - 1.0, req.now), Decision(true, 0.0))
    else (Bucket(tokens, req.now), Decision(false, (1.0 - tokens) / req.limits.refillRate))
  }

  /** The bucket that serves `req`: the stored one, or a fresh full one. */
  function Serving(entries: map<string, Bucket>, req: Request): Bucket {
    if req.key in entries then entries[req.key] else FreshBucket(req)
  }

  /** One call of `_consume` on a store that may hold `max` buckets. */
  function Step(max: nat, s: Buckets, req: Request): (r: (Buckets, Decision))
    requires s.Valid() && |s.order| <= max && max >= 1
    ensures r.0.Valid() && |r.0.order| <= max
  {
    if req.key in s.entries then
      var (b, d) := Serve(s.entries[req.key], req);
      (s.Refresh(req.key, b), d)
    else
      var room := if |s.order| >= max then s.PopFirst() else s;
      var (b, d) := Serve(FreshBucket(req), req);
      (room.Append(req.key, b), d)
  }

  // ---- whole traces -------------------------------------------------------------------

  function StoreAfter(max: nat, trace: seq<Request>, n: nat): (s: Buckets)
    requires max >= 1 && n <= |trace|
    ensures s.Valid() && |s.order| <= max
  {
    if n == 0 then Empty() else Step(max, StoreAfter(max, trace, n - 1), trace[n - 1]).0
  }

  function DecisionAt(max: nat, trace: seq<Request>, i: nat): Decision
    requires max >= 1 && i < |trace|
  {
    Step(max, StoreAfter(max, trace, i), trace[i]).1
  }

  /** How many of the first `n` requests were admitted for key `k`. */
  function Admitted(max: nat, trace: seq<Request>, k: string, n: nat): nat
    requires max >= 1 && n <= |trace|
  {
    if n == 0 then 0
    else Admitted(max, trace, k, n - 1)
         + if trace[n - 1].key == k && DecisionAt(max, trace, n - 1).allowed then 1 else 0
  }

  // ---- the reference: a limiter that never forgets a key --------------------------------

  function UnboundedAfter(trace: seq<Request>, n: nat): map<string, Bucket>
    requires n <= |trace|
  {
    if n == 0 then map[]
    else
      var before, req := UnboundedAfter(trace, n - 1), trace[n - 1];
      before[req.key := Serve(Serving(before, req), req).0]
  }

  function UnboundedDecisionAt(trace: seq<Request>, i: nat): Decision
    requires i < |trace|
  {
    var before, req := UnboundedAfter(trace, i), trace[i];
    Serve(Serving(before, req), req).1
  }

  function UnboundedAdmitted(trace: seq<Request>, k: string, n: nat): nat
    requires n <= |trace|
  {
    if n == 0 then 0
    else UnboundedAdmitted(trace, k, n - 1)
         + if trace[n - 1].key == k && UnboundedDecisionAt(trace, n - 1).allowed then 1 else 0
  }

  // ---- one request, seen from one key -----------------------------------------------------

  /** What one serving did to a bucket and to the number admitted from it: tokens turn into
      admissions one for one. */
  ghost predicate Served(tokens: real, after: Bucket, admitted: int, admitted': int, req: Request) {
    && after.lastRefill == req.now
    && admitted' as real + after.tokens == admitted as real + tokens
    && admitted' == admitted + if tokens >= 1.0 then 1 else 0
  }

  lemma BucketStep(max: nat, trace: seq<Request>, k: string, n: nat)
    requires max >= 1 && n < |trace|
    ensures var s, s', req := StoreAfter(max, trace, n).entries, StoreAfter(max, trace, n + 1).entries, trace[n];
            var a, a' := Admitted(max, trace, k, n), Admitted(max, trace, k, n + 1);
            if req.key == k then
              && k in s' && Served(Refilled(Serving(s, req), req), s'[k], a, a', req)
              && DecisionAt(max, trace, n) == Serve(Serving(s, req), req).1
            else
              a' == a && (k in s' ==> k in s && s'[k] == s[k])
  {
  }

  lemma UnboundedBucketStep(trace: seq<Request>, k: string, n: nat)
    requires n < |trace|
    ensures var s, s', req := UnboundedAfter(trace, n), UnboundedAfter(trace, n + 1), trace[n];
            var a, a' := UnboundedAdmitted(trace, k, n), UnboundedAdmitted(trace, k, n + 1);
            if req.key == k then
              k in s' && Served(Refilled(Serving(s, req), req), s'[k], a, a', req)
            else
              a' == a && (k in s <==> k in s') && (k in s ==> s'[k] == s[k])
  {
  }

  lemma ClippingKeepsLead(capacity: real, b: real, u: real, gain: real, lead: real)
    requires lead >= 0.0 && lead + b >= u
    ensures lead + Min(capacity, b + gain) >= Min(capacity, u + gain)
  {
  }

  /** Refilling two buckets of the same age keeps a lead, and no bucket is ahead of a fresh one. */
  lemma RefillKeepsLead(b: Bucket, u: Bucket, lead: real, req: Request)
    requires b.lastRefill == u.lastRefill && lead >= 0.0 && lead + b.tokens >= u.tokens
    ensures lead + Refilled(b, req) >= Refilled(u, req)
  {
    hide Gain;
    ClippingKeepsLead(req.limits.capacity, b.tokens, u.tokens, Gain(b.lastRefill, req), lead);
  }

  /** A limiter that is ahead in admissions plus tokens stays ahead, in admissions as well. */
  lemma ServingKeepsLead(tokens: real, b: Bucket, a: int, a': int,
                         uTokens: real, u: Bucket, ua: int, ua': int, req: Request)
    requires Served(tokens, b, a, a', req) && Served(uTokens, u, ua, ua', req)
    requires a >= ua && a as real + tokens >= ua as real + uTokens
    ensures a' >= ua' && a' as real + b.tokens >= ua' as real + u.tokens
    ensures b.lastRefill == u.lastRefill
  {
  }

  lemma FreshIsFull(u: Bucket, req: Request)
    ensures Refilled(FreshBucket(req), req) == req.limits.capacity >= Refilled(u, req)
  {
    assert (req.now - req.now) * req.limits.refillRate == 0.0;
  }

  // ---- eviction never costs a caller requests in total ----------------------------------

  /** The bounded limiter has admitted at least as many requests of `k`, and while it holds the
      bucket of `k` it is also ahead in admissions plus tokens. */
  ghost predicate Ahead(max: nat, trace: seq<Request>, k: string, n: nat)
    requires max >= 1 && n <= |trace|
  {
    var s, u := StoreAfter(max, trace, n).entries, UnboundedAfter(trace, n);
    var a, ua := Admitted(max, trace, k, n), UnboundedAdmitted(trace, k, n);
    && a >= ua
    && (k in s ==>
          && k in u && s[k].lastRefill == u[k].lastRefill
          && a as real + s[k].tokens >= ua as real + u[k].tokens)
  }

  lemma AheadStep(max: nat, trace: seq<Request>, k: string, n: nat)
    requires max >= 1 && n < |trace| && Ahead(max, trace, k, n)
    ensures Ahead(max, trace, k, n + 1)
  {
    hide StoreAfter, UnboundedAfter, Admitted, UnboundedAdmitted, Refilled, Served;
    BucketStep(max, trace, k, n);
    UnboundedBucketStep(trace, k, n);
    var req, s, u := trace[n], StoreAfter(max, trace, n).entries, UnboundedAfter(trace, n);
    if req.key == k {
      var a, ua := Admitted(max, trace, k, n), UnboundedAdmitted(trace, k, n);
      if k in s {
        RefillKeepsLead(s[k], u[k], a as real - ua as real, req);
      } else {
        FreshIsFull(Serving(u, req), req);
      }
      ServingKeepsLead(
        Refilled(Serving(s, req), req), StoreAfter(max, trace, n + 1).entries[k], a, Admitted(max, trace, k, n + 1),
        Refilled(Serving(u, req), req), UnboundedAfter(trace, n + 1)[k], ua, UnboundedAdmitted(trace, k, n + 1), req);
    }
  }

  lemma AheadAtStart(max: nat, trace: seq<Request>, k: string)
    requires max >= 1
    ensures Ahead(max, trace, k, 0)
  {
  }

  lemma {:induction false} AlwaysAhead(max: nat, trace: seq<Request>, k: string, n: nat)
    requires max >= 1 && n <= |trace|
    ensures Ahead(max, trace, k, n)
  {
    hide Ahead;
    if n == 0 {
      AheadAtStart(max, trace, k);
    } else {
      AlwaysAhead(max, trace, k, n - 1);
      AheadStep(max, trace, k, n - 1);
    }
  }

  /** On every prefix and for every key the bounded limiter has admitted at least as many
      requests as the unbounded one, however the clock runs. */
  lemma {:induction false} EvictionNeverCostsRequests(max: nat, trace: seq<Request>, k: string, n: nat)
    requires max >= 1 && n <= |trace|
    ensures Admitted(max, trace, k, n) >= UnboundedAdmitted(trace, k, n)
  {
    AlwaysAhead(max, trace, k, n);
  }

  /** One tracked key, one token a second: "b" evicts "a", which then spends half a second early. */
  function WorseDecisionTrace(): (trace: seq<Request>)
    ensures |trace| == 4
  {
    var lim := AnyLimits.Limits(1.0, 1.0);
    [Request("a", lim, 0.0), Request("b", lim, 0.5), Request("a", lim, 0.5), Request("a", lim, 1.0)]
  }

  lemma WorseDecisionBoundedStart(trace: seq<Request>)
    requires trace == WorseDecisionTrace()
    ensures "a" !in StoreAfter(1, trace, 2).entries
  {
    hide StoreAfter, Step, DecisionAt, Admitted, Served;
    BucketStep(1, trace, "b", 1);
    var s := StoreAfter(1, trace, 2);
    assert "b" in s.order && |s.order| <= 1 && "a" !in s.order;
  }

  lemma WorseDecisionBounded(trace: seq<Request>)
    requires trace == WorseDecisionTrace()
    ensures !DecisionAt(1, trace, 3).allowed
  {
    hide StoreAfter, Step, DecisionAt, Admitted;
    WorseDecisionBoundedStart(trace);
    BucketStep(1, trace, "a", 2);
    assert StoreAfter(1, trace, 3).entries["a"] == Bucket(0.0, 0.5);
    BucketStep(1, trace, "a", 3);
  }

  lemma WorseDecisionUnboundedStart(trace: seq<Request>)
    requires trace == WorseDecisionTrace()
    ensures var u := UnboundedAfter(trace, 2); "a" in u && u["a"] == Bucket(0.0, 0.0)
  {
    assert "a" !in UnboundedAfter(trace, 0);
    hide UnboundedAfter, UnboundedAdmitted, UnboundedDecisionAt;
    UnboundedBucketStep(trace, "a", 0);
    UnboundedBucketStep(trace, "a", 1);
  }

  /** The unbounded limiter serves "a", half a token richer, half a second after its last request. */
  lemma HalfASecondLater(trace: seq<Request>, n: nat, b: Bucket)
    requires n < |trace| && trace[n] == Request("a", AnyLimits.Limits(1.0, 1.0), b.lastRefill + 0.5)
    requires var u := UnboundedAfter(trace, n); "a" in u && u["a"] == b
    requires b.tokens <= 0.5
    ensures b.tokens < 0.5 ==>
              var u := UnboundedAfter(trace, n + 1);
              "a" in u && u["a"] == Bucket(b.tokens + 0.5, b.lastRefill + 0.5)
    ensures b.tokens == 0.5 ==> UnboundedDecisionAt(trace, n).allowed
  {
    assert Refilled(b, trace[n]) == b.tokens + 0.5;
    hide Refilled;
  }

  lemma WorseDecisionUnbounded(trace: seq<Request>)
    requires trace == WorseDecisionTrace()
    ensures UnboundedDecisionAt(trace, 3).allowed
  {
    hide UnboundedAfter, UnboundedDecisionAt;
    WorseDecisionUnboundedStart(trace);
    HalfASecondLater(trace, 2, Bucket(0.0, 0.0));
    HalfASecondLater(trace, 3, Bucket(0.5, 0.5));
  }

  /** Single decisions may be worse: here the unbounded limiter admits what the bounded refuses. */
  lemma SingleDecisionsMayBeWorse(trace: seq<Request>)
    requires trace == WorseDecisionTrace()
    ensures !DecisionAt(1, trace, 3).allowed && UnboundedDecisionAt(trace, 3).allowed
  {
    WorseDecisionBounded(trace);
    WorseDecisionUnbounded(trace);
  }

  // ---- the rate bound -------------------------------------------------------------------

  /** The bucket of `k` is held after every request from number `i` up to number `j - 1`. */
  ghost predicate HeldThroughout(max: nat, trace: seq<Request>, k: string, i: nat, j: nat)
    requires max >= 1 && i <= j <= |trace|
  {
    forall m :: i < m <= j ==> k in StoreAfter(max, trace, m).entries
  }

  ghost predicate SameLimits(trace: seq<Request>, k: string, i: nat, j: nat, lim: Limits)
    requires i <= j <= |trace|
  {
    forall m :: i <= m < j && trace[m].key == k ==> trace[m].limits == lim
  }

  lemma Distribute(c: real, b: real, a: real, rate: real)
    ensures (c - b) * rate + (b - a) * rate == rate * (c - a) == (c - a) * rate
  {
  }

  lemma {:induction false} TokenBalance(max: nat, trace: seq<Request>, k: string, lim: Limits, i: nat, n: nat)
    requires max >= 1 && i < n <= |trace| && trace[i].key == k
    requires SameLimits(trace, k, i, n, lim) && HeldThroughout(max, trace, k, i, n)
    ensures var b := StoreAfter(max, trace, n).entries[k];
            b.tokens + (Admitted(max, trace, k, n) - Admitted(max, trace, k, i)) as real
            <= lim.capacity + (b.lastRefill - trace[i].now) * lim.refillRate
  {
    hide StoreAfter, Admitted;
    BucketStep(max, trace, k, n - 1);
    var req, s := trace[n - 1], StoreAfter(max, trace, n - 1).entries;
    if n == i + 1 {
      assert (req.now - trace[i].now) * lim.refillRate == 0.0;
    } else {
      TokenBalance(max, trace, k, lim, i, n - 1);
      assert k in s;
      Distribute(req.now, s[k].lastRefill, trace[i].now, lim.refillRate);
    }
  }

  /** Between two requests on a bucket that is not evicted in between, the second admitted, at
      most the capacity plus the refill of the time between them is admitted. */
  lemma RateBound(max: nat, trace: seq<Request>, k: string, lim: Limits, i: nat, j: nat)
    requires max >= 1 && i <= j < |trace|
    requires trace[i].key == trace[j].key == k && DecisionAt(max, trace, j).allowed
    requires SameLimits(trace, k, i, j + 1, lim) && HeldThroughout(max, trace, k, i, j)
    ensures (Admitted(max, trace, k, j + 1) - Admitted(max, trace, k, i)) as real
            <= lim.capacity + lim.refillRate * (trace[j].now - trace[i].now)
  {
    hide StoreAfter, Admitted;
    BucketStep(max, trace, k, j);
    var s := StoreAfter(max, trace, j).entries;
    if i < j {
      TokenBalance(max, trace, k, lim, i, j);
      assert k in s;
      Distribute(trace[j].now, s[k].lastRefill, trace[i].now, lim.refillRate);
    } else {
      assert lim.refillRate * (trace[j].now - trace[i].now) == 0.0;
    }
  }

  // ---- Retry-After ----------------------------------------------------------------------

  /** A bucket is untouched while its key is not requested, for as long as it is held. */
  lemma {:induction false} UntouchedBucket(max: nat, trace: seq<Request>, k: string, i: nat, n: nat)
    requires max >= 1 && i < n <= |trace| && trace[i].key == k
    requires forall m :: i < m < n ==> trace[m].key != k
    ensures k in StoreAfter(max, trace, i + 1).entries
    ensures k in StoreAfter(max, trace, n).entries
            ==> StoreAfter(max, trace, n).entries[k] == StoreAfter(max, trace, i + 1).entries[k]
  {
    hide StoreAfter, Admitted;
    BucketStep(max, trace, k, i);
    if n > i + 1 {
      UntouchedBucket(max, trace, k, i, n - 1);
      BucketStep(max, trace, k, n - 1);
    }
  }

  lemma ScaleMonotone(a: real, b: real, rate: real)
    requires a <= b && rate > 0.0
    ensures a * rate <= b * rate
  {
  }

  lemma ScaleStrict(a: real, b: real, rate: real)
    requires a < b && rate > 0.0
    ensures a * rate < b * rate
  {
  }

  /** When a bucket was left with `tokens` below one, `wait` seconds later it admits exactly if
      `wait` covers the missing part of a token. */
  lemma WaitCoversRefill(tokens: real, wait: real, limits: Limits)
    requires tokens < 1.0 <= limits.capacity
    ensures Min(limits.capacity, tokens + wait * limits.refillRate) >= 1.0
            <==> wait >= (1.0 - tokens) / limits.refillRate
  {
    var missing, rate := 1.0 - tokens, limits.refillRate;
    assert missing / rate * rate == missing;
    if wait >= missing / rate {
      ScaleMonotone(missing / rate, wait, rate);
    } else {
      ScaleStrict(wait, missing / rate, rate);
    }
  }

  /** The `Retry-After` header of a refusal (section 10.2.3 of RFC 9110): whole seconds. */
  function RetryAfterHeader(d: Decision): int { d.retryAfter.Floor + 1 }

  /** After a refusal the next request on the key is admitted exactly if `retryAfter` seconds
      have passed or the bucket was evicted meanwhile, so waiting the header's seconds always
      suffices; they are at most one too many. */
  lemma {:induction false} RetryAfterIsExact(max: nat, trace: seq<Request>, i: nat, j: nat)
    requires max >= 1 && i < j < |trace|
    requires trace[i].key == trace[j].key && trace[i].limits == trace[j].limits
    requires trace[i].limits.capacity >= 1.0
    requires forall m :: i < m < j ==> trace[m].key != trace[i].key
    requires !DecisionAt(max, trace, i).allowed
    ensures var refusal, waited := DecisionAt(max, trace, i), trace[j].now - trace[i].now;
            && (DecisionAt(max, trace, j).allowed
                <==> waited >= refusal.retryAfter || trace[j].key !in StoreAfter(max, trace, j).entries)
            && (waited >= RetryAfterHeader(refusal) as real ==> DecisionAt(max, trace, j).allowed)
            && RetryAfterHeader(refusal) as real <= refusal.retryAfter + 1.0
  {
    hide StoreAfter, Admitted, DecisionAt;
    var k, req := trace[i].key, trace[j];
    BucketStep(max, trace, k, i);
    BucketStep(max, trace, k, j);
    UntouchedBucket(max, trace, k, i, j);
    var left := StoreAfter(max, trace, i + 1).entries[k];
    var s := StoreAfter(max, trace, j).entries;
    FreshIsFull(left, req);
    WaitCoversRefill(left.tokens, req.now - left.lastRefill, req.limits);
    assert k in s ==>
             Refilled(Serving(s, req), req) == Min(req.limits.capacity, left.tokens + Gain(left.lastRefill, req));
  }
}
