/** Why enough pool threads and permits keep the readers from holding every thread: the readers that
    can come to hold threads before their producers are few at the moment the last of them is handed
    to the executor, and the executor serves its calls in order. */
module StreamingRoom {
  import opened Ordered
  import opened Streaming
  import opened StreamingInvariant
  import opened StreamingRuns

  /** An `events.get` is on a thread or in the executor's queue. */
  predicate HasGet(s: Stream) { s.reader.GetQueued? || s.reader.Getting? || s.reader.OrphanGetting? }

  /** Once the executor has served all its calls but those of `behind`, the reader of request `i` holds
      a thread while its producer has had none. */
  predicate Candidate(s: Stream, i: nat, behind: seq<Job>) {
    && HasGet(s) && Get(i) !in behind
    && (s.worker.Fresh? || s.worker.Waiting? || (s.worker.Queued? && Work(i) in behind))
  }

  ghost function Candidates(streams: seq<Stream>, behind: seq<Job>): set<nat> {
    set i: nat | i < |streams| && Candidate(streams[i], i, behind)
  }

  /** At no point of the executor's queue will readers without producers hold every thread. */
  ghost predicate NoJam(cfg: Config, st: State) {
    forall k :: 0 <= k <= |st.pool| ==> |Candidates(st.streams, st.pool[k..])| < cfg.poolSize
  }

  /** Room for `left` clients to leave. */
  predicate Room(cfg: Config, left: nat) {
    cfg.poolSize > cfg.maxConcurrent && cfg.poolSize + cfg.threadLimit > cfg.maxConcurrent + left
  }

  // ---- counting -----------------------------------------------------------------------------

  ghost function Those(f: Stream -> nat, ss: seq<Stream>): set<nat> { set i: nat | i < |ss| && f(ss[i]) > 0 }

  lemma {:induction false} SumSnoc(f: Stream -> nat, ss: seq<Stream>, s: Stream)
    ensures Sum(f, ss + [s]) == Sum(f, ss) + f(s)
  {
    if ss == [] {
      assert ss + [s] == [s];
    } else {
      assert (ss + [s])[1..] == ss[1..] + [s];
      SumSnoc(f, ss[1..], s);
    }
  }

  lemma {:induction false} ThoseAtMost(f: Stream -> nat, ss: seq<Stream>)
    ensures |Those(f, ss)| <= Sum(f, ss)
    ensures (forall i :: 0 <= i < |ss| ==> f(ss[i]) <= 1) ==> |Those(f, ss)| == Sum(f, ss)
    decreases |ss|
  {
    if ss != [] {
      var init, last := ss[..|ss| - 1], |ss| - 1;
      ThoseAtMost(f, init);
      SumSnoc(f, init, ss[last]);
      assert ss == init + [ss[last]];
      assert Those(f, ss) == Those(f, init) + if f(ss[last]) > 0 then {last} else {};
      assert last !in Those(f, init);
    }
  }

  /** A reader whose producer has not even been handed to the executor. */
  function Blocked(s: Stream): nat { if HasGet(s) && (s.worker.Fresh? || s.worker.Waiting?) then 1 else 0 }

  function BlockedOrHolding(s: Stream): nat { Blocked(s) + Permits(s) }

  function InFlight(s: Stream): nat { Slots(s) + Left(s) }

  /** When a get joins the executor's queue, few readers can be without their producers: with nobody
      in the semaphore's queue they are all admitted; otherwise all permits are with others in flight. */
  lemma FewBlocked(cfg: Config, st: State)
    requires Inv(cfg, st) && !HandOver(st) && Room(cfg, Sum(Left, st.streams))
    ensures |Candidates(st.streams, [])| < cfg.poolSize
  {
    var ss := st.streams;
    ThoseAtMost(Blocked, ss);
    assert Candidates(ss, []) == Those(Blocked, ss);
    if st.waiters == [] {
      forall i | 0 <= i < |ss| ensures Blocked(ss[i]) <= Slots(ss[i]) {
        assert WellFormed(ss[i]);
        assert i !in st.waiters;
      }
      SumAtMost(Blocked, Slots, ss);
    } else {
      forall i | 0 <= i < |ss| ensures BlockedOrHolding(ss[i]) <= InFlight(ss[i]) {
        assert WellFormed(ss[i]);
      }
      SumAtMost(BlockedOrHolding, InFlight, ss);
      SumSplit(BlockedOrHolding, Blocked, Permits, ss);
      SumSplit(InFlight, Slots, Left, ss);
    }
  }

  // ---- every step keeps the readers few --------------------------------------------------------

  /** No request becomes a candidate. */
  lemma NoMore(ss: seq<Stream>, behind: seq<Job>, ss': seq<Stream>, behind': seq<Job>, t: nat)
    requires t < |ss| && |ss'| == |ss| && ss' == ss[t := ss'[t]]
    requires Candidate(ss'[t], t, behind') ==> Candidate(ss[t], t, behind)
    requires forall i: nat :: i != t ==> (Get(i) in behind' <==> Get(i) in behind)
    requires forall i: nat :: i != t ==> (Work(i) in behind' ==> Work(i) in behind)
    ensures |Candidates(ss', behind')| <= |Candidates(ss, behind)|
  {
    forall i: nat | i < |ss| && Candidate(ss'[i], i, behind') ensures Candidate(ss[i], i, behind) {
    }
    SubsetSize(Candidates(ss', behind'), Candidates(ss, behind));
  }

  lemma SteadyCandidate(cfg: Config, st: State, a: Action, behind: seq<Job>)
    requires Inv(cfg, st) && Step(cfg, st, a).Some? && Step(cfg, st, a).value.pool == st.pool
    requires Target(st, a) < |st.streams| == |Step(cfg, st, a).value.streams|
    ensures var t := Target(st, a);
            Candidate(Step(cfg, st, a).value.streams[t], t, behind) ==> Candidate(st.streams[t], t, behind)
  {
    hide Content, Mapped, CompleteOutput, UiStep, OnStage;
    assert WellFormed(st.streams[Target(st, a)]);
  }

  /** Steps that leave the executor's queue alone. */
  lemma SteadyStep(cfg: Config, st: State, a: Action)
    requires Inv(cfg, st) && NoJam(cfg, st) && Step(cfg, st, a).Some? && Step(cfg, st, a).value.pool == st.pool
    ensures NoJam(cfg, Step(cfg, st, a).value)
  {
    var st', t := Step(cfg, st, a).value, Target(st, a);
    StepIsLocal(cfg, st, a);
    forall k | 0 <= k <= |st.pool| ensures |Candidates(st'.streams, st.pool[k..])| < cfg.poolSize {
      SteadyCandidate(cfg, st, a, st.pool[k..]);
      hide Step, Inv;
      NoMore(st.streams, st.pool[k..], st'.streams, st.pool[k..], t);
    }
  }

  /** A worker's call joins the executor's queue. */
  lemma WorkAppended(cfg: Config, st: State, i: nat, s': Stream, st': State)
    requires NoJam(cfg, st) && i < |st.streams| && st'.streams == st.streams[i := s'] && st'.pool == st.pool + [Work(i)]
    requires HasGet(s') ==> HasGet(st.streams[i]) && (st.streams[i].worker.Fresh? || st.streams[i].worker.Waiting?)
    requires s'.worker.Queued?
    ensures NoJam(cfg, st')
  {
    forall k | 0 <= k <= |st'.pool| ensures |Candidates(st'.streams, st'.pool[k..])| < cfg.poolSize {
      if k <= |st.pool| {
        assert st'.pool[k..] == st.pool[k..] + [Work(i)];
        NoMore(st.streams, st.pool[k..], st'.streams, st'.pool[k..], i);
      } else {
        assert st'.pool[k..] == [] == st.pool[|st.pool|..];
        NoMore(st.streams, [], st'.streams, [], i);
      }
    }
  }

  /** A get joins it. */
  lemma GetAppended(cfg: Config, st: State, i: nat, s': Stream, st': State)
    requires NoJam(cfg, st) && i < |st.streams| && st'.streams == st.streams[i := s'] && st'.pool == st.pool + [Get(i)]
    requires |Candidates(st'.streams, [])| < cfg.poolSize
    ensures NoJam(cfg, st')
  {
    forall k | 0 <= k <= |st'.pool| ensures |Candidates(st'.streams, st'.pool[k..])| < cfg.poolSize {
      if k <= |st.pool| {
        assert st'.pool[k..] == st.pool[k..] + [Get(i)];
        NoMore(st.streams, st.pool[k..], st'.streams, st'.pool[k..], i);
      } else {
        assert st'.pool[k..] == [];
      }
    }
  }

  /** The oldest call gets a thread. */
  lemma JobStarted(cfg: Config, st: State)
    requires Inv(cfg, st) && NoJam(cfg, st) && StartJobStep(cfg, st).Some?
    ensures NoJam(cfg, StartJobStep(cfg, st).value)
  {
    var st', i := StartJobStep(cfg, st).value, st.pool[0].i;
    assert JobWaits(st.streams, st.pool[0]);
    hide Inv, WellFormed, PoolMatches;
    forall k | 0 <= k <= |st'.pool| ensures |Candidates(st'.streams, st'.pool[k..])| < cfg.poolSize {
      assert st'.pool[k..] == st.pool[k + 1..];
      assert |Candidates(st.streams, st.pool[k + 1..])| < cfg.poolSize;
      NoMore(st.streams, st.pool[k + 1..], st'.streams, st'.pool[k..], i);
    }
  }

  lemma {:induction false} WithoutSuffix(pool: seq<Job>, job: Job, k: nat) returns (m: nat)
    requires k <= |Without(pool, job)|
    ensures m <= |pool| && Without(pool, job)[k..] == Without(pool[m..], job)
  {
    if pool == [] || k == 0 {
      m := 0;
      assert pool[0..] == pool && Without(pool, job)[0..] == Without(pool, job);
    } else if pool[0] == job {
      var n := WithoutSuffix(pool[1..], job, k);
      m := n + 1;
      assert pool[m..] == pool[1..][n..];
    } else {
      var n := WithoutSuffix(pool[1..], job, k - 1);
      m := n + 1;
      assert pool[m..] == pool[1..][n..];
      assert Without(pool, job)[k..] == Without(pool[1..], job)[k - 1..];
    }
  }

  /** A cancelled call leaves it. */
  lemma JobCancelled(cfg: Config, st: State, job: Job, s': Stream, st': State)
    requires NoJam(cfg, st) && job.i < |st.streams| && st'.streams == st.streams[job.i := s']
    requires st'.pool == Without(st.pool, job) && !HasGet(s')
    ensures NoJam(cfg, st')
  {
    forall k | 0 <= k <= |st'.pool| ensures |Candidates(st'.streams, st'.pool[k..])| < cfg.poolSize {
      var m := WithoutSuffix(st.pool, job, k);
      WithoutMembers(st.pool[m..], job);
      assert |Candidates(st.streams, st.pool[m..])| < cfg.poolSize;
      NoMore(st.streams, st.pool[m..], st'.streams, st'.pool[k..], job.i);
    }
  }

  /** The steps that hand a get to the executor. */
  predicate Reads(st: State, a: Action) {
    a.SubmitGet? || (a.Begin? && a.i < |st.streams| && st.streams[a.i].spec.streaming)
  }

  lemma ReadStep(cfg: Config, st: State, a: Action)
    requires Step(cfg, st, a).Some? && Reads(st, a)
    ensures var st' := Step(cfg, st, a).value;
            && a.i < |st.streams| == |st'.streams| && st'.streams == st.streams[a.i := st'.streams[a.i]]
            && st'.pool == st.pool + [Get(a.i)] && !HandOver(st')
  {
  }

  /** What any other step does to the executor's queue. */
  lemma OtherStep(cfg: Config, st: State, a: Action)
    requires Inv(cfg, st) && Step(cfg, st, a).Some? && !Reads(st, a) && !a.StartJob?
    requires Step(cfg, st, a).value.pool != st.pool
    ensures var st' := Step(cfg, st, a).value;
            && a.i < |st.streams| == |st'.streams| && st'.streams == st.streams[a.i := st'.streams[a.i]]
            && var s, s' := st.streams[a.i], st'.streams[a.i];
               if a.Disconnect? then
                 !HasGet(s') && exists job: Job :: job.i == a.i && st'.pool == Without(st.pool, job)
               else
                 && st'.pool == st.pool + [Work(a.i)] && s'.worker.Queued?
                 && (HasGet(s') ==> HasGet(s) && (s.worker.Fresh? || s.worker.Waiting?))
  {
    hide Content, Mapped, CompleteOutput, UiStep, OnStage, PoolMatches, QueueMatches;
    assert WellFormed(st.streams[a.i]);
    if a.Disconnect? {
      var job := if st.streams[a.i].spec.streaming then Get(a.i) else Work(a.i);
      assert job.i == a.i && Step(cfg, st, a).value.pool == Without(st.pool, job);
    }
  }

  /** With room for the clients that have left, no step makes a jam. */
  lemma NoJamStep(cfg: Config, st: State, a: Action)
    requires Inv(cfg, st) && NoJam(cfg, st) && Step(cfg, st, a).Some?
    requires Room(cfg, Sum(Left, Step(cfg, st, a).value.streams))
    ensures NoJam(cfg, Step(cfg, st, a).value)
  {
    var st' := Step(cfg, st, a).value;
    if a.StartJob? {
      JobStarted(cfg, st);
    } else {
      hide Step, Inv, NoJam, Room, HandOver, HasGet;
      if st'.pool == st.pool {
        SteadyStep(cfg, st, a);
      } else if Reads(st, a) {
        ReadStep(cfg, st, a);
        InvStep(cfg, st, a);
        FewBlocked(cfg, st');
        GetAppended(cfg, st, a.i, st'.streams[a.i], st');
      } else {
        OtherStep(cfg, st, a);
        if a.Disconnect? {
          var job: Job :| job.i == a.i && st'.pool == Without(st.pool, job);
          JobCancelled(cfg, st, job, st'.streams[a.i], st');
        } else {
          WorkAppended(cfg, st, a.i, st'.streams[a.i], st');
        }
      }
    }
  }

  lemma NoJamInitial(cfg: Config, requests: seq<Spec>)
    requires cfg.poolSize >= 1
    ensures NoJam(cfg, Initial(cfg, requests))
  {
    assert Candidates(Initial(cfg, requests).streams, []) == {};
  }

  lemma {:induction false} NoJamRun(cfg: Config, requests: seq<Spec>, actions: seq<Action>)
    requires Run(cfg, Initial(cfg, requests), actions).Some? && Room(cfg, Disconnects(actions))
    ensures NoJam(cfg, Run(cfg, Initial(cfg, requests), actions).value)
    decreases |actions|
  {
    hide Step, NoJam, Inv;
    if actions == [] {
      NoJamInitial(cfg, requests);
    } else {
      var before := actions[..|actions| - 1];
      NoJamRun(cfg, requests, before);
      InvRun(cfg, requests, before);
      RunShape(cfg, requests, actions);
      NoJamStep(cfg, Run(cfg, Initial(cfg, requests), before).value, actions[|actions| - 1]);
    }
  }
}
