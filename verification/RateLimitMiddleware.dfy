/** `RateLimitMiddleware` itself: the mutable store, the caller's bucket key, and `dispatch`. */
module RateLimitMiddleware {
  import opened Options
  import opened Ordered
  import opened RateLimiter

  /** What `AuthMiddleware` resolved about a request. */
  datatype Caller = Caller(principal: Option<string>, authFailed: bool, ip: string) {
    /** `auth_failed` is stamped only when no principal was resolved. */
    predicate Resolved() { authFailed ==> principal.None? }
  }

  /** `_bucket_key`. */
  function BucketKey(c: Caller): string {
    match c.principal
    case Some(id) => "principal:" + id + "|ip:" + c.ip
    case None => if c.authFailed then "authfail|ip:" + c.ip else "ip:" + c.ip
  }

  datatype Config = Config(shared: Limits, authFailure: Limits, exemptPaths: set<string>)

  /** A bucket is only ever used under one allowance: who share one failed authentication alike. */
  lemma KeyDeterminesLimits(a: Caller, b: Caller)
    requires a.Resolved() && b.Resolved() && BucketKey(a) == BucketKey(b)
    ensures a.authFailed == b.authFailed && a.principal.Some? == b.principal.Some?
  {
    assert BucketKey(a)[0] == BucketKey(b)[0];
  }

  lemma SplitAtFirstBar(a: string, b: string, x: string, y: string)
    requires '|' !in a && '|' !in b
    requires a + "|" + x == b + "|" + y
    ensures a == b && x == y
  {
    var s, t := a + "|" + x, b + "|" + y;
    assert s[|a|] == '|' && t[|b|] == '|';
    assert |a| == |b|;
    assert a == s[..|a|] && b == t[..|b|];
    assert x == s[|a| + 1..] && y == t[|b| + 1..];
  }

  /** Two authenticated callers share a bucket exactly when principal and address agree, for ids
      without the separator. */
  lemma PairSeparatesCallers(a: Caller, b: Caller)
    requires a.principal.Some? && b.principal.Some?
    requires '|' !in a.principal.value && '|' !in b.principal.value
    ensures BucketKey(a) == BucketKey(b) <==> a.principal == b.principal && a.ip == b.ip
  {
    var p, q := "principal:" + a.principal.value, "principal:" + b.principal.value;
    assert BucketKey(a) == p + "|" + ("ip:" + a.ip);
    assert BucketKey(b) == q + "|" + ("ip:" + b.ip);
    if BucketKey(a) == BucketKey(b) {
      SplitAtFirstBar(p, q, "ip:" + a.ip, "ip:" + b.ip);
      assert a.principal.value == p[10..] && b.principal.value == q[10..];
      assert a.ip == ("ip:" + a.ip)[3..] && b.ip == ("ip:" + b.ip)[3..];
    }
  }

  /** Callers without a principal share a bucket exactly when both or neither failed authentication and
      the address is the same. */
  lemma AddressSeparatesCallers(a: Caller, b: Caller)
    requires a.principal.None? && b.principal.None?
    ensures BucketKey(a) == BucketKey(b) <==> a.authFailed == b.authFailed && a.ip == b.ip
  {
    assert BucketKey(a)[0] == BucketKey(b)[0] <==> a.authFailed == b.authFailed;
    var n := if a.authFailed then 12 else 3;
    assert a.ip == BucketKey(a)[n..];
    assert a.authFailed == b.authFailed ==> b.ip == BucketKey(b)[n..];
  }

  /** Two callers share a bucket exactly when they are the same, for ids without the separator. */
  lemma BucketIsTheCallers(a: Caller, b: Caller)
    requires a.Resolved() && b.Resolved()
    requires a.principal.Some? ==> '|' !in a.principal.value
    requires b.principal.Some? ==> '|' !in b.principal.value
    ensures BucketKey(a) == BucketKey(b) <==> a == b
  {
    hide BucketKey;
    if BucketKey(a) == BucketKey(b) {
      KeyDeterminesLimits(a, b);
      if a.principal.Some? { PairSeparatesCallers(a, b); } else { AddressSeparatesCallers(a, b); }
    }
  }

  /** A longer trace does not change what its prefix left behind. */
  lemma {:induction false} PrefixStable(max: nat, trace: seq<Request>, more: seq<Request>, n: nat)
    requires max >= 1 && n <= |trace|
    ensures StoreAfter(max, trace + more, n) == StoreAfter(max, trace, n)
  {
    hide Step;
    if n > 0 {
      PrefixStable(max, trace, more, n - 1);
      assert (trace + more)[n - 1] == trace[n - 1];
    }
  }

  lemma Extended(max: nat, trace: seq<Request>, req: Request)
    requires max >= 1
    ensures var s := Step(max, StoreAfter(max, trace, |trace|), req);
            && StoreAfter(max, trace + [req], |trace| + 1) == s.0
            && DecisionAt(max, trace + [req], |trace|) == s.1
  {
    hide Step;
    PrefixStable(max, trace, [req], |trace|);
  }

  /** The store once the bucket of `req` has been found or made, still untouched. */
  function Located(max: nat, s: Buckets, req: Request): Buckets
    requires s.Valid() && |s.order| <= max && max >= 1
  {
    if req.key in s.entries then s.Refresh(req.key, s.entries[req.key])
    else (if |s.order| >= max then s.PopFirst() else s).Append(req.key, FreshBucket(req))
  }

  lemma LocateThenServe(max: nat, s: Buckets, req: Request)
    requires s.Valid() && |s.order| <= max && max >= 1
    ensures var located := Located(max, s, req);
            && located.Valid() && req.key in located.entries
            && located.entries[req.key] == Serving(s.entries, req)
            && var (b, d) := Serve(Serving(s.entries, req), req);
               Step(max, s, req) == (located.Put(req.key, b), d)
  {
    hide Serve, FreshBucket;
    var b := Serve(Serving(s.entries, req), req).0;
    if req.key in s.entries {
      assert s.entries[req.key := s.entries[req.key]][req.key := b] == s.entries[req.key := b];
    } else {
      var room := if |s.order| >= max then s.PopFirst() else s;
      assert room.entries[req.key := FreshBucket(req)][req.key := b] == room.entries[req.key := b];
    }
  }

  lemma GainOver(last: real, elapsed: real, req: Request)
    requires elapsed == req.now - last
    ensures elapsed * req.limits.refillRate == Gain(last, req)
  {
  }

  // ---- runs of dispatches -----------------------------------------------------------------

  /** One dispatch of a path that is not exempt. */
  datatype Visit = Visit(caller: Caller, now: real)

  /** The request a visit makes of the limiter: of its caller's bucket, under the strict allowance if
      authentication failed and under the shared one otherwise. */
  predicate Makes(config: Config, v: Visit, req: Request) {
    && req.key == BucketKey(v.caller) && req.now == v.now
    && (v.caller.authFailed ==> req.limits == config.authFailure)
    && (!v.caller.authFailed ==> req.limits == config.shared)
  }

  ghost predicate AllMade(config: Config, visits: seq<Visit>, log: seq<Request>) {
    && |visits| == |log|
    && forall i :: 0 <= i < |visits| ==> visits[i].caller.Resolved() && Makes(config, visits[i], log[i])
  }

  /** How many of the visits `i..n` are the caller's and were let through. */
  function LetThrough(max: nat, visits: seq<Visit>, log: seq<Request>, c: Caller, i: nat, n: nat): nat
    requires max >= 1 && i <= n <= |visits| == |log|
  {
    if n == i then 0
    else LetThrough(max, visits, log, c, i, n - 1)
         + if visits[n - 1].caller == c && DecisionAt(max, log, n - 1).allowed then 1 else 0
  }

  lemma {:induction false} LetThroughIsAdmitted(config: Config, max: nat, visits: seq<Visit>, log: seq<Request>,
                                                c: Caller, i: nat, n: nat)
    requires max >= 1 && AllMade(config, visits, log) && i <= n <= |visits|
    ensures LetThrough(max, visits, log, c, i, n)
            <= Admitted(max, log, BucketKey(c), n) - Admitted(max, log, BucketKey(c), i)
  {
    hide DecisionAt, BucketKey;
    if n > i {
      LetThroughIsAdmitted(config, max, visits, log, c, i, n - 1);
      assert Makes(config, visits[n - 1], log[n - 1]);
    }
  }

  lemma VisitLimits(config: Config, visits: seq<Visit>, log: seq<Request>, c: Caller, i: nat, n: nat, lim: Limits)
    requires AllMade(config, visits, log) && i <= n <= |visits| && c.Resolved()
    requires lim == if c.authFailed then config.authFailure else config.shared
    ensures SameLimits(log, BucketKey(c), i, n, lim)
  {
    hide BucketKey;
    forall m | i <= m < n && log[m].key == BucketKey(c) ensures log[m].limits == lim {
      assert Makes(config, visits[m], log[m]);
      KeyDeterminesLimits(visits[m].caller, c);
    }
  }

  /** What an allowance admits in a time. */
  function Quota(lim: Limits, t: real): real { lim.capacity + lim.refillRate * t }

  lemma WithinQuota(n: real, lim: Limits, t: real)
    requires n <= Quota(lim, t)
    ensures n <= lim.capacity + lim.refillRate * t
  {
  }

  lemma {:induction false} CallerRateUnder(config: Config, max: nat, visits: seq<Visit>, log: seq<Request>, c: Caller,
                                          i: nat, j: nat, lim: Limits)
    requires max >= 1 && AllMade(config, visits, log) && i <= j < |visits|
    requires visits[i].caller == visits[j].caller == c && DecisionAt(max, log, j).allowed
    requires HeldThroughout(max, log, BucketKey(c), i, j)
    requires lim == if c.authFailed then config.authFailure else config.shared
    ensures LetThrough(max, visits, log, c, i, j + 1) as real <= Quota(lim, visits[j].now - visits[i].now)
  {
    hide DecisionAt, BucketKey, Admitted, LetThrough, HeldThroughout;
    assert Makes(config, visits[i], log[i]) && Makes(config, visits[j], log[j]);
    VisitLimits(config, visits, log, c, i, j + 1, lim);
    RateBound(max, log, BucketKey(c), lim, i, j);
    assert Quota(lim, log[j].now - log[i].now) == lim.capacity + lim.refillRate * (log[j].now - log[i].now);
    hide Quota;
    LetThroughIsAdmitted(config, max, visits, log, c, i, j + 1);
    assert log[j].now - log[i].now == visits[j].now - visits[i].now;
  }

  /** Over any run of dispatches, between two visits of a caller whose bucket is held, the second let
      through: at most the capacity and the refill of the time between them, of the strict allowance for
      an address that failed authentication, of the shared one for anybody else. */
  lemma {:induction false} CallerRate(config: Config, max: nat, visits: seq<Visit>, log: seq<Request>, c: Caller,
                                     i: nat, j: nat)
    requires max >= 1 && AllMade(config, visits, log) && i <= j < |visits|
    requires visits[i].caller == visits[j].caller == c && DecisionAt(max, log, j).allowed
    requires HeldThroughout(max, log, BucketKey(c), i, j)
    ensures var n, t := LetThrough(max, visits, log, c, i, j + 1) as real, visits[j].now - visits[i].now;
            && (c.authFailed ==> n <= config.authFailure.capacity + config.authFailure.refillRate * t)
            && (!c.authFailed ==> n <= config.shared.capacity + config.shared.refillRate * t)
  {
    hide DecisionAt, BucketKey, LetThrough, HeldThroughout, Makes, Quota;
    var n, t := LetThrough(max, visits, log, c, i, j + 1) as real, visits[j].now - visits[i].now;
    if c.authFailed {
      CallerRateUnder(config, max, visits, log, c, i, j, config.authFailure);
      WithinQuota(n, config.authFailure, t);
    } else {
      CallerRateUnder(config, max, visits, log, c, i, j, config.shared);
      WithinQuota(n, config.shared, t);
    }
  }

  datatype Outcome = Forwarded | Limited(retryAfterHeader: int)

  class RateLimitMiddleware {
    const config: Config
    const maxTrackedIps: nat
    var buckets: Buckets
    ghost var visits: seq<Visit>
    ghost var log: seq<Request>

    /** The store is the one the visits so far leave behind. */
    ghost predicate Valid()
      reads this
    {
      && AllMade(config, visits, log)
      && Stored()
    }

    ghost predicate Stored()
      reads this
    {
      && maxTrackedIps >= 1
      && buckets == StoreAfter(maxTrackedIps, log, |log|)
    }

    constructor (config: Config, maxTrackedIps: nat)
      requires maxTrackedIps >= 1
      ensures Valid() && this.config == config && this.maxTrackedIps == maxTrackedIps && visits == []
    {
      this.config, this.maxTrackedIps := config, maxTrackedIps;
      buckets, visits, log := Empty(), [], [];
    }

    /** `_consume`: evict if a new key finds the store full, refill, then try to take a token. */
    method Consume(key: string, limits: Limits, now: real) returns (d: Decision)
      requires Stored()
      modifies this`buckets, this`log
      ensures Stored() && log == old(log) + [Request(key, limits, now)]
      ensures d == DecisionAt(maxTrackedIps, log, |old(log)|)
    {
      hide StoreAfter, Step, NoDup, Without, OrderedDict.Valid;
      ghost var before, req := buckets, Request(key, limits, now);
      var bucket;
      if key !in buckets.entries {
        if buckets.Size() >= maxTrackedIps {
          buckets := buckets.PopFirst();
        }
        bucket := Bucket(limits.capacity, now);
        buckets := buckets.Append(key, bucket);
      } else {
        bucket := buckets.entries[key];
        buckets := buckets.Refresh(key, bucket);
      }
      assert buckets == Located(maxTrackedIps, before, req);
      LocateThenServe(maxTrackedIps, before, req);

      var elapsed := now - bucket.lastRefill;
      GainOver(bucket.lastRefill, elapsed, req);
      hide Gain;
      ghost var found := bucket;
      bucket := Bucket(Min(limits.capacity, bucket.tokens + elapsed * limits.refillRate), now);
      assert bucket.tokens == Refilled(found, req);
      if bucket.tokens >= 1.0 {
        bucket := bucket.(tokens := bucket.tokens - 1.0);
        d := Decision(true, 0.0);
      } else {
        d := Decision(false, (1.0 - bucket.tokens) / limits.refillRate);
      }
      assert (bucket, d) == Serve(found, req);
      buckets := buckets.Put(key, bucket);

      Extended(maxTrackedIps, log, req);
      log := log + [req];
    }

    /** `dispatch`: an exempt path is forwarded untouched, any other takes a token of its caller. */
    method Dispatch(path: string, caller: Caller, now: real) returns (outcome: Outcome)
      requires Valid() && caller.Resolved()
      modifies this
      ensures Valid()
      ensures path in config.exemptPaths ==>
                outcome.Forwarded? && buckets == old(buckets) && visits == old(visits) && log == old(log)
      ensures path !in config.exemptPaths ==>
                && visits == old(visits) + [Visit(caller, now)] && |log| == |visits| && log[..|old(log)|] == old(log)
                && log[|old(log)|].key == BucketKey(caller) && log[|old(log)|].now == now
                && (caller.authFailed ==> log[|old(log)|].limits == config.authFailure)
                && (!caller.authFailed ==> log[|old(log)|].limits == config.shared)
                && var d := DecisionAt(maxTrackedIps, log, |old(log)|);
                   outcome == if d.allowed then Forwarded else Limited(RetryAfterHeader(d))
    {
      hide BucketKey, DecisionAt, StoreAfter;
      if path in config.exemptPaths {
        return Forwarded;
      }
      var limits := if caller.authFailed then config.authFailure else config.shared;
      ghost var before := log;
      visits := visits + [Visit(caller, now)];
      var d := Consume(BucketKey(caller), limits, now);
      assert forall i :: 0 <= i < |before| ==> log[i] == before[i];
      if d.allowed {
        return Forwarded;
      }
      return Limited(d.retryAfter.Floor + 1);
    }
  }
}
