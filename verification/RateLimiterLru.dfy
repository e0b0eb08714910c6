/** What the LRU bound of the rate limiter keeps, in terms of the requests alone, and when the
    limiter decides as if nothing had been evicted. */
module RateLimiterLru {
  import opened Ordered
  import opened RateLimiter

  /** The distinct keys requested from request number `i` on. */
  ghost function KeysSince(trace: seq<Request>, i: nat, n: nat): set<string>
    requires i <= n <= |trace|
  {
    set m | i <= m < n :: trace[m].key
  }

  /** The last request for `k` among the first `n`, or -1. */
  function LastRequest(trace: seq<Request>, k: string, n: nat): (i: int)
    requires n <= |trace|
    ensures -1 <= i < n
    ensures i >= 0 ==> trace[i].key == k
    ensures forall m :: i < m < n ==> trace[m].key != k
  {
    if n == 0 then -1
    else if trace[n - 1].key == k then n - 1
    else LastRequest(trace, k, n - 1)
  }

  /** Position `p` of the order is held by a key whose last request was followed by exactly the
      keys that stand behind it. */
  ghost predicate PositionExplained(max: nat, trace: seq<Request>, n: nat, p: nat)
    requires max >= 1 && n <= |trace| && p < |StoreAfter(max, trace, n).order|
  {
    var order := StoreAfter(max, trace, n).order;
    var i := LastRequest(trace, order[p], n);
    i >= 0 && KeysSince(trace, i, n) == Members(order[p..])
  }

  ghost predicate Explained(max: nat, trace: seq<Request>, n: nat)
    requires max >= 1 && n <= |trace|
  {
    var s := StoreAfter(max, trace, n);
    && (forall p :: 0 <= p < |s.order| ==> PositionExplained(max, trace, n, p))
    && (forall k :: LastRequest(trace, k, n) >= 0 && k !in s.entries ==>
          |KeysSince(trace, LastRequest(trace, k, n), n)| > max)
  }

  /** The order after one request: the key goes to the end; a new key pushes out the front when
      the store is full. */
  function OrderStep(max: nat, order: seq<string>, k: string): seq<string> {
    if k in order then Without(order, k) + [k]
    else (if |order| >= max && order != [] then order[1..] else order) + [k]
  }

  lemma StoreOrderStep(max: nat, trace: seq<Request>, n: nat)
    requires max >= 1 && n < |trace|
    ensures StoreAfter(max, trace, n + 1).order == OrderStep(max, StoreAfter(max, trace, n).order, trace[n].key)
  {
  }

  /** Position `p` of the new order is the requested key, at the end, or a key of the old order
      with the same keys behind it and the requested one. */
  ghost predicate SuffixExplained(order: seq<string>, order': seq<string>, k: string, p: nat)
    requires p < |order'|
  {
    if order'[p] == k then order'[p..] == [k]
    else exists q :: 0 <= q < |order| && order[q] == order'[p]
           && Members(order'[p..]) == Members(order[q..]) + {k}
  }

  lemma OnlyOnce(a: seq<string>, b: seq<string>, k: string)
    requires NoDup(a + [k] + b)
    ensures k !in a && k !in b
  {
    var s := a + [k] + b;
    assert s[|a|] == k;
    assert forall i :: 0 <= i < |a| ==> s[i] == a[i];
    assert forall i :: 0 <= i < |b| ==> s[|a| + 1 + i] == b[i];
  }

  lemma MoveToEnd(a: seq<string>, b: seq<string>, k: string)
    requires k !in a && k !in b
    ensures Without(a + [k] + b, k) == a + b
  {
    assert Without([k], k) == [];
    hide Without;
    WithoutConcat(a + [k], b, k);
    WithoutConcat(a, [k], k);
    WithoutMembers(a, k);
    WithoutMembers(b, k);
  }

  lemma MovedSuffix(a: seq<string>, b: seq<string>, k: string, p: nat)
    requires k !in a && k !in b && p < |a + b + [k]|
    ensures SuffixExplained(a + [k] + b, a + b + [k], k, p)
  {
    var order, order' := a + [k] + b, a + b + [k];
    if p < |a| {
      assert order'[p..] == a[p..] + b + [k];
      assert order[p..] == a[p..] + [k] + b;
      assert order[p] == order'[p] == a[p];
    } else if p < |a| + |b| {
      assert order'[p..] == b[p - |a|..] + [k];
      assert order[p + 1..] == b[p - |a|..];
      assert order[p + 1] == order'[p] == b[p - |a|];
    }
  }

  lemma OrderStepSuffixes(max: nat, order: seq<string>, k: string, p: nat)
    requires NoDup(order) && |order| <= max && max >= 1
    requires p < |OrderStep(max, order, k)|
    ensures SuffixExplained(order, OrderStep(max, order, k), k, p)
  {
    var order' := OrderStep(max, order, k);
    if k in order {
      var x :| 0 <= x < |order| && order[x] == k;
      var a, b := order[..x], order[x + 1..];
      assert order == a + [k] + b;
      OnlyOnce(a, b, k);
      MoveToEnd(a, b, k);
      MovedSuffix(a, b, k, p);
    } else {
      var shift := if |order| >= max && order != [] then 1 else 0;
      assert order' == order[shift..] + [k];
      if p < |order'| - 1 {
        var q := p + shift;
        assert order'[p..] == order[q..] + [k];
        assert order[q] == order'[p];
      }
    }
  }

  lemma KeysSinceStep(trace: seq<Request>, i: nat, n: nat)
    requires i <= n < |trace|
    ensures KeysSince(trace, i, n + 1) == KeysSince(trace, i, n) + {trace[n].key}
    ensures KeysSince(trace, n, n + 1) == {trace[n].key}
  {
  }

  lemma PositionStep(max: nat, trace: seq<Request>, n: nat, p: nat)
    requires max >= 1 && n < |trace| && Explained(max, trace, n)
    requires p < |StoreAfter(max, trace, n + 1).order|
    ensures PositionExplained(max, trace, n + 1, p)
  {
    hide StoreAfter, Step;
    StoreOrderStep(max, trace, n);
    var s, s', x := StoreAfter(max, trace, n), StoreAfter(max, trace, n + 1), trace[n].key;
    OrderStepSuffixes(max, s.order, x, p);
    hide OrderStep;
    if s'.order[p] == x {
      KeysSinceStep(trace, n, n);
    } else {
      var q :| 0 <= q < |s.order| && s.order[q] == s'.order[p]
                 && Members(s'.order[p..]) == Members(s.order[q..]) + {x};
      assert PositionExplained(max, trace, n, q);
      KeysSinceStep(trace, LastRequest(trace, s.order[q], n), n);
    }
  }

  lemma ForgottenStep(max: nat, trace: seq<Request>, n: nat, k: string)
    requires max >= 1 && n < |trace| && Explained(max, trace, n)
    requires LastRequest(trace, k, n + 1) >= 0 && k !in StoreAfter(max, trace, n + 1).entries
    ensures |KeysSince(trace, LastRequest(trace, k, n + 1), n + 1)| > max
  {
    hide StoreAfter, Step;
    StoreOrderStep(max, trace, n);
    var s, s', x := StoreAfter(max, trace, n), StoreAfter(max, trace, n + 1), trace[n].key;
    assert x in s'.order && k !in s'.order && k != x;
    var i := LastRequest(trace, k, n);
    KeysSinceStep(trace, i, n);
    var before := KeysSince(trace, i, n);
    if k in s.entries {
      // The victim: it stood in front of a full store, and the new key is one more.
      WithoutMembers(s.order, x);
      assert x !in s.order && |s.order| == max && s.order[0] == k;
      assert PositionExplained(max, trace, n, 0);
      assert s.order[0..] == s.order;
      MembersSize(s.order);
      assert |before + {x}| == |before| + 1;
    } else {
      assert |before| > max;
      if x !in before {
        assert |before + {x}| == |before| + 1;
      } else {
        assert before + {x} == before;
      }
    }
  }

  lemma ExplainedStep(max: nat, trace: seq<Request>, n: nat)
    requires max >= 1 && n < |trace| && Explained(max, trace, n)
    ensures Explained(max, trace, n + 1)
  {
    hide StoreAfter, Step, PositionExplained, LastRequest, KeysSince;
    var n', s' := n + 1, StoreAfter(max, trace, n + 1);
    forall p | 0 <= p < |s'.order| ensures PositionExplained(max, trace, n', p) {
      PositionStep(max, trace, n, p);
    }
    forall k | LastRequest(trace, k, n') >= 0 && k !in s'.entries
      ensures |KeysSince(trace, LastRequest(trace, k, n'), n')| > max
    {
      ForgottenStep(max, trace, n, k);
    }
  }

  lemma {:induction false} StoreIsExplained(max: nat, trace: seq<Request>, n: nat)
    requires max >= 1 && n <= |trace|
    ensures Explained(max, trace, n)
  {
    if n > 0 {
      hide StoreAfter;
      StoreIsExplained(max, trace, n - 1);
      ExplainedStep(max, trace, n - 1);
    }
  }

  /** LRU characterisation: a key is held exactly when it has a request from which on at most
      `max` distinct keys, itself included, were requested. */
  lemma HeldIffRecent(max: nat, trace: seq<Request>, n: nat, k: string)
    requires max >= 1 && n <= |trace|
    ensures k in StoreAfter(max, trace, n).entries
            <==> exists i :: 0 <= i < n && trace[i].key == k && |KeysSince(trace, i, n)| <= max
  {
    hide StoreAfter, Step;
    StoreIsExplained(max, trace, n);
    var s := StoreAfter(max, trace, n);
    var last := LastRequest(trace, k, n);
    if k in s.entries {
      var p :| 0 <= p < |s.order| && s.order[p] == k;
      assert PositionExplained(max, trace, n, p);
      assert NoDup(s.order[p..]);
      MembersSize(s.order[p..]);
      assert 0 <= last < n && trace[last].key == k && |KeysSince(trace, last, n)| <= max;
    }
    if i :| 0 <= i < n && trace[i].key == k && |KeysSince(trace, i, n)| <= max {
      assert i <= last;
      SubsetSize(KeysSince(trace, last, n), KeysSince(trace, i, n));
    }
  }

  /** The order of the store is the order of the last requests. */
  lemma OrderIsRecency(max: nat, trace: seq<Request>, n: nat, p: nat, q: nat)
    requires max >= 1 && n <= |trace|
    requires p < q < |StoreAfter(max, trace, n).order|
    ensures var order := StoreAfter(max, trace, n).order;
            0 <= LastRequest(trace, order[p], n) < LastRequest(trace, order[q], n)
  {
    hide StoreAfter, Step;
    StoreIsExplained(max, trace, n);
    var order := StoreAfter(max, trace, n).order;
    assert PositionExplained(max, trace, n, p) && PositionExplained(max, trace, n, q);
    var i, j := LastRequest(trace, order[p], n), LastRequest(trace, order[q], n);
    assert order[p] !in order[q..];
    assert trace[i].key !in KeysSince(trace, j, n);
  }

  // ---- when eviction is invisible ---------------------------------------------------------

  /** The clock readings never go back. */
  ghost predicate MonotoneClock(trace: seq<Request>) {
    forall i, j :: 0 <= i <= j < |trace| ==> trace[i].now <= trace[j].now
  }

  /** A returning key whose bucket was evicted had been idle for as long as an empty bucket takes
      to fill up. */
  ghost predicate ReturnsAfterFullRefill(max: nat, trace: seq<Request>, n: nat)
    requires max >= 1 && n < |trace|
  {
    var req := trace[n];
    var last := LastRequest(trace, req.key, n);
    req.key !in StoreAfter(max, trace, n).entries && last >= 0 ==>
      req.now - trace[last].now >= req.limits.capacity / req.limits.refillRate
  }

  lemma GainNonNegative(last: real, req: Request)
    requires last <= req.now
    ensures Gain(last, req) >= 0.0
  {
  }

  /** With a clock that never goes back no bucket is ever overdrawn. */
  lemma {:induction false} NeverOverdrawn(trace: seq<Request>, k: string, n: nat)
    requires n <= |trace| && MonotoneClock(trace)
    requires forall m :: 0 <= m < |trace| ==> trace[m].limits.capacity >= 0.0
    ensures k in UnboundedAfter(trace, n) <==> LastRequest(trace, k, n) >= 0
    ensures k in UnboundedAfter(trace, n) ==>
              && UnboundedAfter(trace, n)[k].tokens >= 0.0
              && UnboundedAfter(trace, n)[k].lastRefill == trace[LastRequest(trace, k, n)].now
  {
    if n > 0 {
      hide UnboundedAfter, UnboundedAdmitted, Gain;
      NeverOverdrawn(trace, k, n - 1);
      UnboundedBucketStep(trace, k, n - 1);
      var u, req := UnboundedAfter(trace, n - 1), trace[n - 1];
      if req.key == k {
        if k in u {
          GainNonNegative(u[k].lastRefill, req);
        } else {
          FreshIsFull(FreshBucket(req), req);
        }
        assert Refilled(Serving(u, req), req) >= 0.0;
      }
    }
  }

  /** A bucket with no debt that has been idle for `capacity / refillRate` is full. */
  lemma IdleBucketIsFull(u: Bucket, req: Request)
    requires u.tokens >= 0.0
    requires req.now - u.lastRefill >= req.limits.capacity / req.limits.refillRate
    ensures Refilled(u, req) == req.limits.capacity
  {
    var fill, rate := req.limits.capacity / req.limits.refillRate, req.limits.refillRate;
    assert fill * rate == req.limits.capacity;
    ScaleMonotone(fill, req.now - u.lastRefill, rate);
  }

  ghost predicate SameBuckets(s: map<string, Bucket>, u: map<string, Bucket>) {
    forall k :: k in s ==> k in u && s[k] == u[k]
  }

  lemma SameServing(max: nat, trace: seq<Request>, n: nat)
    requires max >= 1 && n < |trace| && MonotoneClock(trace)
    requires forall m :: 0 <= m < |trace| ==> trace[m].limits.capacity >= 0.0
    requires ReturnsAfterFullRefill(max, trace, n)
    requires SameBuckets(StoreAfter(max, trace, n).entries, UnboundedAfter(trace, n))
    ensures Refilled(Serving(StoreAfter(max, trace, n).entries, trace[n]), trace[n])
            == Refilled(Serving(UnboundedAfter(trace, n), trace[n]), trace[n])
  {
    hide StoreAfter, UnboundedAfter;
    var s, u, req := StoreAfter(max, trace, n).entries, UnboundedAfter(trace, n), trace[n];
    NeverOverdrawn(trace, req.key, n);
    if req.key !in s {
      FreshIsFull(Serving(u, req), req);
      if req.key in u {
        IdleBucketIsFull(u[req.key], req);
      }
    }
  }

  lemma StartAgrees(max: nat, trace: seq<Request>)
    requires max >= 1
    ensures SameBuckets(StoreAfter(max, trace, 0).entries, UnboundedAfter(trace, 0))
  {
  }

  lemma SameBucketsStep(max: nat, trace: seq<Request>, n: nat)
    requires max >= 1 && n < |trace|
    requires SameBuckets(StoreAfter(max, trace, n).entries, UnboundedAfter(trace, n))
    requires Refilled(Serving(StoreAfter(max, trace, n).entries, trace[n]), trace[n])
             == Refilled(Serving(UnboundedAfter(trace, n), trace[n]), trace[n])
    ensures SameBuckets(StoreAfter(max, trace, n + 1).entries, UnboundedAfter(trace, n + 1))
  {
    hide StoreAfter, UnboundedAfter, Refilled, Admitted, UnboundedAdmitted;
    var s', u' := StoreAfter(max, trace, n + 1).entries, UnboundedAfter(trace, n + 1);
    forall k | k in s' ensures k in u' && s'[k] == u'[k] {
      BucketStep(max, trace, k, n);
      UnboundedBucketStep(trace, k, n);
    }
  }

  lemma {:induction false} HeldBucketsAgree(max: nat, trace: seq<Request>, n: nat)
    requires max >= 1 && n <= |trace| && MonotoneClock(trace)
    requires forall m :: 0 <= m < |trace| ==> trace[m].limits.capacity >= 0.0
    requires forall m :: 0 <= m < n ==> ReturnsAfterFullRefill(max, trace, m)
    ensures SameBuckets(StoreAfter(max, trace, n).entries, UnboundedAfter(trace, n))
  {
    hide StoreAfter, UnboundedAfter, Refilled, ReturnsAfterFullRefill, SameBuckets, MonotoneClock;
    if n == 0 {
      StartAgrees(max, trace);
    } else {
      HeldBucketsAgree(max, trace, n - 1);
      SameServing(max, trace, n - 1);
      SameBucketsStep(max, trace, n - 1);
    }
  }

  lemma SameDecision(max: nat, trace: seq<Request>, n: nat)
    requires max >= 1 && n < |trace|
    requires Refilled(Serving(StoreAfter(max, trace, n).entries, trace[n]), trace[n])
             == Refilled(Serving(UnboundedAfter(trace, n), trace[n]), trace[n])
    ensures DecisionAt(max, trace, n) == UnboundedDecisionAt(trace, n)
  {
    hide StoreAfter, UnboundedAfter;
    BucketStep(max, trace, trace[n].key, n);
  }

  /** The bounded limiter decides a request as the unbounded one does when each evicted key so
      far returned only after a full refill, the clock being monotone. */
  lemma {:induction false} IdleEvictionIsInvisible(max: nat, trace: seq<Request>, n: nat)
    requires max >= 1 && n < |trace| && MonotoneClock(trace)
    requires forall m :: 0 <= m < |trace| ==> trace[m].limits.capacity >= 0.0
    requires forall m :: 0 <= m <= n ==> ReturnsAfterFullRefill(max, trace, m)
    ensures DecisionAt(max, trace, n) == UnboundedDecisionAt(trace, n)
  {
    hide StoreAfter, UnboundedAfter, Refilled, ReturnsAfterFullRefill, SameBuckets, MonotoneClock;
    HeldBucketsAgree(max, trace, n);
    SameServing(max, trace, n);
    SameDecision(max, trace, n);
  }

}
