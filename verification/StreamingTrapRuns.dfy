/** Two ways into the trap. With no more threads than admission slots the readers of requests admitted
    together take every thread before any of their workers makes its first step. Otherwise requests
    whose clients left hold every permit, and the readers of the others take the threads while their
    workers wait for one. */
module StreamingTrapRuns {
  import opened Ordered
  import opened Streaming
  import opened StreamingInvariant
  import opened StreamingRuns
  import opened StreamingTrap

  predicate Streamings(requests: seq<Spec>, n: nat) {
    n <= |requests| && forall i :: 0 <= i < n ==> requests[i].streaming
  }

  // ---- single stretches of a run ----------------------------------------------------------------

  /** A streaming request is admitted and begins; its reader is queued. */
  function Begun(st: State, i: nat): State
    requires i < |st.streams|
  {
    var spec := st.streams[i].spec;
    Update(st, i, Stream(spec, Active, Fresh, GetQueued, 0, [], [])).(
      active := st.active + 1, due := st.due + [i], pool := st.pool + [Get(i)])
  }

  lemma Begins(cfg: Config, requests: seq<Spec>, timely: bool, actions: seq<Action>, st: State, i: nat)
    requires Leads(cfg, requests, timely, actions, st) && (timely ==> NoneReturned(st))
    requires i < |st.streams| && st.streams[i] == NewStream(st.streams[i].spec) && st.streams[i].spec.streaming
    requires st.active < cfg.maxConcurrent && !HandOver(st)
    ensures Leads(cfg, requests, timely, actions + [Admit(i)] + [Begin(i)], Begun(st, i))
  {
    hide Leads, NoneReturned;
    var st1 := Update(st, i, st.streams[i].(phase := Active)).(active := st.active + 1);
    LeadsOn(cfg, requests, timely, actions, st, Admit(i), st1);
    assert st1.streams[i := Begun(st, i).streams[i]] == Begun(st, i).streams;
    LeadsOn(cfg, requests, timely, actions + [Admit(i)], st1, Begin(i), Begun(st, i));
  }

  /** The only fresh worker makes its first step. */
  lemma StepsFirst(cfg: Config, requests: seq<Spec>, timely: bool, actions: seq<Action>, st: State, i: nat)
    requires Leads(cfg, requests, timely, actions, st)
    requires i < |st.streams| && st.streams[i].worker.Fresh? && st.due == [i] && !HandOver(st)
    ensures Leads(cfg, requests, timely, actions + [First(i)], AcquireOrWait(st, i).(due := []))
  {
    hide Leads;
    assert st.due[1..] == [];
    LeadsOn(cfg, requests, timely, actions, st, First(i), AcquireOrWait(st, i).(due := []));
  }

  /** The oldest call gets a thread. */
  lemma Starts(cfg: Config, requests: seq<Spec>, timely: bool, actions: seq<Action>, st: State)
    requires Leads(cfg, requests, timely, actions, st) && StartJobStep(cfg, st).Some?
    ensures Leads(cfg, requests, timely, actions + [StartJob], StartJobStep(cfg, st).value)
  {
    hide Leads, StartJobStep;
    LeadsOn(cfg, requests, timely, actions, st, StartJob, StartJobStep(cfg, st).value);
  }

  /** A client leaves. */
  lemma Leaves(cfg: Config, requests: seq<Spec>, timely: bool, actions: seq<Action>, st: State, i: nat)
    requires Leads(cfg, requests, timely, actions, st) && i < |st.streams| && DisconnectStep(st, i).Some?
    ensures Leads(cfg, requests, timely, actions + [Disconnect(i)], DisconnectStep(st, i).value)
  {
    hide Leads, DisconnectStep;
    LeadsOn(cfg, requests, timely, actions, st, Disconnect(i), DisconnectStep(st, i).value);
  }

  /** A function without transitions left runs to its end. */
  lemma Returns(cfg: Config, requests: seq<Spec>, timely: bool, actions: seq<Action>, st: State, i: nat)
    requires Leads(cfg, requests, timely, actions, st)
    requires i < |st.streams| && st.streams[i].worker.Running? && st.streams[i].spec.streaming
    requires st.streams[i].emitted == |st.streams[i].spec.script|
    ensures var s := st.streams[i].(worker := Returned, queue := st.streams[i].queue + [Done]);
            Leads(cfg, requests, timely, actions + [PutDone(i)] + [Return(i)], Update(st, i, s).(busy := st.busy - 1))
  {
    hide Leads;
    var s0 := st.streams[i];
    var st1 := Update(st, i, s0.(worker := Ending, queue := s0.queue + [Done]));
    LeadsOn(cfg, requests, timely, actions, st, PutDone(i), st1);
    var st2 := Update(st1, i, s0.(worker := Returned, queue := s0.queue + [Done])).(busy := st.busy - 1);
    LeadsOn(cfg, requests, timely, actions + [PutDone(i)], st1, Return(i), st2);
    assert st2.streams == st.streams[i := st2.streams[i]];
  }

  // ---- all at once ----------------------------------------------------------------------------

  function Range(a: nat, b: nat): seq<nat>
    requires a <= b
  {
    seq(b - a, k requires 0 <= k < b - a => a + k)
  }

  function Gets(a: nat, b: nat): seq<Job>
    requires a <= b
  {
    seq(b - a, k requires 0 <= k < b - a => Get(a + k))
  }

  /** `n` requests are admitted, their readers on threads, their workers fresh. */
  function AtOnce(cfg: Config, requests: seq<Spec>, n: nat): State
    requires n <= |requests|
  {
    State(seq(|requests|, i requires 0 <= i < |requests| =>
            if i < n then Stream(requests[i], Active, Fresh, Getting, 0, [], []) else NewStream(requests[i])),
          n, cfg.threadLimit, [], Range(0, n), [], n)
  }

  lemma OneMoreAtOnce(cfg: Config, requests: seq<Spec>, n: nat, actions: seq<Action>) returns (all: seq<Action>)
    requires n < |requests| && requests[n].streaming && n < cfg.poolSize && n < cfg.maxConcurrent
    requires Leads(cfg, requests, true, actions, AtOnce(cfg, requests, n))
    ensures Leads(cfg, requests, true, all, AtOnce(cfg, requests, n + 1))
  {
    hide Leads;
    var st0 := AtOnce(cfg, requests, n);
    assert st0.streams[n] == NewStream(requests[n]);
    Begins(cfg, requests, true, actions, st0, n);
    var st2 := Begun(st0, n);
    assert st2.pool == [Get(n)] && st2.pool[1..] == [];
    Starts(cfg, requests, true, actions + [Admit(n)] + [Begin(n)], st2);
    all := actions + [Admit(n)] + [Begin(n)] + [StartJob];
    var st3 := StartJobStep(cfg, st2).value;
    assert st3.streams == AtOnce(cfg, requests, n + 1).streams;
    assert st3.due == Range(0, n + 1);
  }

  lemma AtOnceStarts(cfg: Config, requests: seq<Spec>)
    ensures Leads(cfg, requests, true, [], AtOnce(cfg, requests, 0))
  {
    assert Initial(cfg, requests).streams == AtOnce(cfg, requests, 0).streams && Range(0, 0) == [];
  }

  lemma {:induction false} ReadAtOnce(cfg: Config, requests: seq<Spec>, n: nat) returns (actions: seq<Action>)
    requires Streamings(requests, n) && n <= cfg.poolSize && n <= cfg.maxConcurrent
    ensures Leads(cfg, requests, true, actions, AtOnce(cfg, requests, n))
  {
    hide Leads, AtOnce, Step, NoneReturned;
    if n == 0 {
      actions := [];
      AtOnceStarts(cfg, requests);
    } else {
      actions := ReadAtOnce(cfg, requests, n - 1);
      actions := OneMoreAtOnce(cfg, requests, n - 1, actions);
    }
  }

  // ---- through exhausted permits ----------------------------------------------------------------

  /** A request whose client left and whose worker has a permit: its function runs, or has returned. */
  function Holder(spec: Spec, returned: bool): Stream {
    if returned then Stream(spec, Disconnected, Returned, Closed, 0, [Done], [])
    else Stream(spec, Disconnected, Running, Closed, 0, [], [])
  }

  /** A request whose worker waits for a permit. */
  function Starved(spec: Spec, gone: bool, onThread: bool): Stream {
    Stream(spec, if gone then Disconnected else Active, Waiting,
           if gone then OrphanGetting else if onThread then Getting else GetQueued, 0, [], [])
  }

  /** On the way: `h` permits are taken, the first `f` of their functions have returned; `j` requests
      wait for a permit, the readers of the first `g` of them are on threads. Of those that wait all
      clients but `cfg.maxConcurrent` leave. */
  datatype Way = Way(cfg: Config, requests: seq<Spec>) {
    ghost predicate Valid() {
      && 1 <= cfg.maxConcurrent < cfg.poolSize && Streamings(requests, cfg.threadLimit + cfg.poolSize)
      && forall i :: 0 <= i < cfg.threadLimit ==> requests[i].script == []
    }

    function Leaving(): nat
      requires cfg.maxConcurrent <= cfg.poolSize
    {
      cfg.poolSize - cfg.maxConcurrent
    }

    function StreamAt(h: nat, f: nat, j: nat, g: nat, i: nat): Stream
      requires i < |requests| && cfg.maxConcurrent <= cfg.poolSize
    {
      var l := cfg.threadLimit;
      if i < h then Holder(requests[i], i < f)
      else if l <= i < l + j then Starved(requests[i], i < l + Leaving(), i < l + g)
      else NewStream(requests[i])
    }

    function Spot(h: nat, f: nat, j: nat, g: nat): State
      requires f <= h <= cfg.threadLimit && g <= j && cfg.maxConcurrent <= cfg.poolSize
    {
      var l := cfg.threadLimit;
      State(seq(|requests|, i requires 0 <= i < |requests| => StreamAt(h, f, j, g, i)),
            if j <= Leaving() then 0 else j - Leaving(), l - h, Range(l, l + j), [], Gets(l + g, l + j), h - f + g)
    }
  }

  lemma WayStarts(w: Way, timely: bool)
    requires w.Valid()
    ensures Leads(w.cfg, w.requests, timely, [], w.Spot(0, 0, 0, 0))
  {
    var l := w.cfg.threadLimit;
    assert Initial(w.cfg, w.requests).streams == w.Spot(0, 0, 0, 0).streams && Range(l, l) == [] && Gets(l, l) == [];
  }

  /** Begun alone, a request has its permit at once; its client leaves, its function runs. */
  lemma HolderRuns(cfg: Config, requests: seq<Spec>, timely: bool, actions: seq<Action>, st: State, i: nat)
    returns (all: seq<Action>, next: State)
    requires i < |st.streams| && st.streams[i].spec.streaming
    requires st.permits > 0 && st.waiters == [] && st.pool == [] && st.due == [] && st.busy < cfg.poolSize
    requires Leads(cfg, requests, timely, actions, Begun(st, i))
    ensures next == Update(st, i, Holder(st.streams[i].spec, false)).(permits := st.permits - 1, busy := st.busy + 1)
    ensures Leads(cfg, requests, timely, all, next)
  {
    hide Leads;
    var st2 := Begun(st, i);
    assert st2.pool == [Get(i)] && st2.due == [i];
    StepsFirst(cfg, requests, timely, actions, st2, i);
    var st3 := AcquireOrWait(st2, i).(due := []);
    assert st3.pool == [Get(i), Work(i)] && [Get(i), Work(i)][1..] == [Work(i)];
    assert Without([Work(i)], Get(i)) == [Work(i)];
    Leaves(cfg, requests, timely, actions + [First(i)], st3, i);
    var st4 := DisconnectStep(st3, i).value;
    assert st4.pool == [Work(i)] && st4.pool[1..] == [];
    Starts(cfg, requests, timely, actions + [First(i)] + [Disconnect(i)], st4);
    all, next := actions + [First(i)] + [Disconnect(i)] + [StartJob], StartJobStep(cfg, st4).value;
    assert next.streams == st.streams[i := Holder(st.streams[i].spec, false)];
  }

  /** One more permit is taken by a request whose client leaves; its function runs. */
  lemma HolderComes(w: Way, timely: bool, h: nat, f: nat, actions: seq<Action>) returns (all: seq<Action>)
    requires w.Valid() && f <= h < w.cfg.threadLimit && h - f < w.cfg.poolSize && (timely ==> f == 0)
    requires Leads(w.cfg, w.requests, timely, actions, w.Spot(h, f, 0, 0))
    ensures Leads(w.cfg, w.requests, timely, all, w.Spot(h + 1, f, 0, 0))
  {
    hide Leads;
    var cfg, requests, st0 := w.cfg, w.requests, w.Spot(h, f, 0, 0);
    assert st0.streams[h] == NewStream(requests[h]) && (f == 0 ==> NoneReturned(st0));
    assert st0.waiters == [] && st0.pool == [] && st0.due == [];
    Begins(cfg, requests, timely, actions, st0, h);
    var st5;
    all, st5 := HolderRuns(cfg, requests, timely, actions + [Admit(h)] + [Begin(h)], st0, h);
    assert st5.streams == w.Spot(h + 1, f, 0, 0).streams && Gets(cfg.threadLimit, cfg.threadLimit) == [];
  }

  /** The first function still running returns; its permit is not given back yet. */
  lemma HolderReturns(w: Way, timely: bool, h: nat, f: nat, j: nat, g: nat, actions: seq<Action>)
    returns (all: seq<Action>)
    requires w.Valid() && f < h <= w.cfg.threadLimit && g <= j <= w.cfg.poolSize && (j > 0 ==> h == w.cfg.threadLimit)
    requires Leads(w.cfg, w.requests, timely, actions, w.Spot(h, f, j, g))
    ensures Leads(w.cfg, w.requests, timely, all, w.Spot(h, f + 1, j, g))
  {
    hide Leads;
    var st0 := w.Spot(h, f, j, g);
    assert st0.streams[f] == Holder(w.requests[f], false);
    Returns(w.cfg, w.requests, timely, actions, st0, f);
    all := actions + [PutDone(f)] + [Return(f)];
    assert st0.streams[f].queue + [Done] == [Done];
    assert st0.streams[f := Holder(w.requests[f], true)] == w.Spot(h, f + 1, j, g).streams;
  }

  /** A request whose worker finds no permit; its reader is queued. */
  function Waits(w: Way, f: nat, j: nat, g: nat): State
    requires w.Valid() && f <= w.cfg.threadLimit && g <= j < w.cfg.poolSize
  {
    var l, n := w.cfg.threadLimit, w.cfg.threadLimit + j;
    var st := w.Spot(l, f, j, g);
    Update(st, n, Stream(w.requests[n], Active, Waiting, GetQueued, 0, [], [])).(
      active := st.active + 1, waiters := Range(l, n + 1), pool := Gets(l + g, n + 1))
  }

  lemma StarvedAsks(w: Way, timely: bool, f: nat, j: nat, g: nat, actions: seq<Action>) returns (all: seq<Action>)
    requires w.Valid() && f <= w.cfg.threadLimit && g <= j < w.cfg.poolSize && (timely ==> f == 0)
    requires Leads(w.cfg, w.requests, timely, actions, w.Spot(w.cfg.threadLimit, f, j, g))
    ensures Leads(w.cfg, w.requests, timely, all, Waits(w, f, j, g))
  {
    hide Leads;
    var cfg, requests, l, n := w.cfg, w.requests, w.cfg.threadLimit, w.cfg.threadLimit + j;
    var st0 := w.Spot(l, f, j, g);
    assert st0.streams[n] == NewStream(requests[n]) && (f == 0 ==> NoneReturned(st0));
    Begins(cfg, requests, timely, actions, st0, n);
    var st2 := Begun(st0, n);
    StepsFirst(cfg, requests, timely, actions + [Admit(n)] + [Begin(n)], st2, n);
    all := actions + [Admit(n)] + [Begin(n)] + [First(n)];
    assert Gets(l + g, n) + [Get(n)] == Gets(l + g, n + 1) && Range(l, n) + [n] == Range(l, n + 1);
    assert AcquireOrWait(st2, n).streams == Waits(w, f, j, g).streams;
  }

  /** One more request waits for a permit, its reader on a free thread; its client may leave. */
  lemma StarvedOnThread(w: Way, timely: bool, f: nat, j: nat, actions: seq<Action>) returns (all: seq<Action>)
    requires w.Valid() && f <= w.cfg.threadLimit && j < w.cfg.poolSize && (timely ==> f == 0)
    requires w.cfg.threadLimit - f + j < w.cfg.poolSize
    requires Leads(w.cfg, w.requests, timely, actions, w.Spot(w.cfg.threadLimit, f, j, j))
    ensures Leads(w.cfg, w.requests, timely, all, w.Spot(w.cfg.threadLimit, f, j + 1, j + 1))
  {
    hide Leads;
    var l, n := w.cfg.threadLimit, w.cfg.threadLimit + j;
    var before := StarvedAsks(w, timely, f, j, j, actions);
    var st3 := Waits(w, f, j, j);
    assert st3.pool == [Get(n)] && st3.pool[1..] == [];
    Starts(w.cfg, w.requests, timely, before, st3);
    var st4 := StartJobStep(w.cfg, st3).value;
    assert Gets(n + 1, n + 1) == [];
    if j < w.Leaving() {
      Leaves(w.cfg, w.requests, timely, before + [StartJob], st4, n);
      all := before + [StartJob] + [Disconnect(n)];
      assert DisconnectStep(st4, n).value.streams == w.Spot(l, f, j + 1, j + 1).streams;
    } else {
      all := before + [StartJob];
      assert st4.streams == w.Spot(l, f, j + 1, j + 1).streams;
    }
  }

  /** One more request waits for a permit, its reader for a thread; its client stays. */
  lemma StarvedQueued(w: Way, timely: bool, f: nat, j: nat, g: nat, actions: seq<Action>) returns (all: seq<Action>)
    requires w.Valid() && f <= w.cfg.threadLimit && w.Leaving() <= g <= j < w.cfg.poolSize && (timely ==> f == 0)
    requires Leads(w.cfg, w.requests, timely, actions, w.Spot(w.cfg.threadLimit, f, j, g))
    ensures Leads(w.cfg, w.requests, timely, all, w.Spot(w.cfg.threadLimit, f, j + 1, g))
  {
    hide Leads;
    all := StarvedAsks(w, timely, f, j, g, actions);
    assert Waits(w, f, j, g).streams == w.Spot(w.cfg.threadLimit, f, j + 1, g).streams;
  }

  /** A function returns, and its thread goes to the next reader. */
  lemma ReaderTakesOver(w: Way, timely: bool, f: nat, g: nat, actions: seq<Action>) returns (all: seq<Action>)
    requires w.Valid() && f < w.cfg.threadLimit && w.Leaving() <= g < w.cfg.poolSize
    requires w.cfg.threadLimit - f + g == w.cfg.poolSize
    requires Leads(w.cfg, w.requests, timely, actions, w.Spot(w.cfg.threadLimit, f, w.cfg.poolSize, g))
    ensures Leads(w.cfg, w.requests, timely, all, w.Spot(w.cfg.threadLimit, f + 1, w.cfg.poolSize, g + 1))
  {
    hide Leads;
    var l, p, n := w.cfg.threadLimit, w.cfg.poolSize, w.cfg.threadLimit + g;
    var before := HolderReturns(w, timely, l, f, p, g, actions);
    var st1 := w.Spot(l, f + 1, p, g);
    assert st1.streams[n] == Starved(w.requests[n], false, false) && st1.pool[0] == Get(n);
    assert st1.pool[1..] == Gets(n + 1, l + p);
    Starts(w.cfg, w.requests, timely, before, st1);
    all := before + [StartJob];
    assert StartJobStep(w.cfg, st1).value.streams == w.Spot(l, f + 1, p, g + 1).streams;
  }

  // ---- the whole way --------------------------------------------------------------------------

  /** All permits are taken; only `late` of their functions have returned, if need be. */
  lemma {:induction false} HoldersCome(w: Way, late: nat, h: nat) returns (actions: seq<Action>)
    requires w.Valid() && late <= w.cfg.threadLimit <= late + w.cfg.maxConcurrent && h <= w.cfg.threadLimit
    ensures Leads(w.cfg, w.requests, late == 0, actions, w.Spot(h, if h <= late then h else late, 0, 0))
  {
    hide Leads, Way.Spot;
    if h == 0 {
      actions := [];
      WayStarts(w, late == 0);
    } else {
      var f := if h - 1 <= late then h - 1 else late;
      actions := HoldersCome(w, late, h - 1);
      actions := HolderComes(w, late == 0, h - 1, f, actions);
      if h <= late {
        actions := HolderReturns(w, late == 0, h, h - 1, 0, 0, actions);
      }
    }
  }

  /** `j` requests wait, as many of their readers on threads as there are free ones. */
  lemma {:induction false} StarvedCome(w: Way, late: nat, j: nat) returns (actions: seq<Action>)
    requires w.Valid() && late <= w.cfg.threadLimit <= late + w.cfg.maxConcurrent && j <= w.cfg.poolSize
    ensures var free := w.cfg.poolSize - (w.cfg.threadLimit - late);
            Leads(w.cfg, w.requests, late == 0, actions,
                  w.Spot(w.cfg.threadLimit, late, j, if j <= free then j else free))
  {
    hide Leads, Way.Spot;
    var free := w.cfg.poolSize - (w.cfg.threadLimit - late);
    if j == 0 {
      actions := HoldersCome(w, late, w.cfg.threadLimit);
    } else {
      actions := StarvedCome(w, late, j - 1);
      if j <= free {
        actions := StarvedOnThread(w, late == 0, late, j - 1, actions);
      } else {
        actions := StarvedQueued(w, late == 0, late, j - 1, free, actions);
      }
    }
  }

  /** The functions still running return one by one. */
  lemma {:induction false} ReadersTakeOver(w: Way, late: nat, k: nat) returns (actions: seq<Action>)
    requires w.Valid() && late <= w.cfg.threadLimit <= late + w.cfg.maxConcurrent && k <= w.cfg.threadLimit - late
    ensures Leads(w.cfg, w.requests, late == 0, actions,
                  w.Spot(w.cfg.threadLimit, late + k, w.cfg.poolSize, w.cfg.poolSize - (w.cfg.threadLimit - late) + k))
  {
    hide Leads, Way.Spot;
    if k == 0 {
      actions := StarvedCome(w, late, w.cfg.poolSize);
    } else {
      actions := ReadersTakeOver(w, late, k - 1);
      actions := ReaderTakesOver(w, late == 0, late + k - 1,
                                 w.cfg.poolSize - (w.cfg.threadLimit - late) + k - 1, actions);
    }
  }

  /** The first `n` requests and no others have left. */
  lemma {:induction false} SumPrefix(f: Stream -> nat, ss: seq<Stream>, n: nat)
    requires n <= |ss| && forall i :: 0 <= i < |ss| ==> f(ss[i]) == if i < n then 1 else 0
    ensures Sum(f, ss) == n
  {
    if ss != [] {
      forall i | 0 <= i < |ss[1..]| ensures f(ss[1..][i]) == if i < n - 1 then 1 else 0 {
        assert ss[1..][i] == ss[i + 1];
      }
      if n > 0 {
        SumPrefix(f, ss[1..], n - 1);
      } else {
        assert forall i :: 0 <= i < |ss[1..]| ==> ss[1..][i] == ss[i + 1];
        SumPrefix(f, ss[1..], 0);
      }
    }
  }

  /** With no more threads than admission slots no client need leave. */
  lemma TrapAtOnce(cfg: Config, requests: seq<Spec>) returns (actions: seq<Action>)
    requires 1 <= cfg.poolSize <= cfg.maxConcurrent && Streamings(requests, cfg.poolSize)
    ensures Run(cfg, Initial(cfg, requests), actions).Some? && Timely(cfg, requests, actions)
    ensures Disconnects(actions) == 0
    ensures var st := Run(cfg, Initial(cfg, requests), actions).value;
            && Trapped(cfg, st) && |st.streams| == |requests|
            && st.streams[0].phase.Active? && Unserved(st.streams[0])
  {
    actions := ReadAtOnce(cfg, requests, cfg.poolSize);
    hide Run, Timely, Initial;
    RunShape(cfg, requests, actions);
    var st := AtOnce(cfg, requests, cfg.poolSize);
    SumPrefix(Left, st.streams, 0);
    assert Trapped(cfg, st);
  }

  /** Where the way ends. */
  lemma WayEnds(w: Way)
    requires w.Valid()
    ensures var l, p := w.cfg.threadLimit, w.cfg.poolSize;
            var st := w.Spot(l, l, p, p);
            && Trapped(w.cfg, st) && Sum(Left, st.streams) == l + w.Leaving()
            && st.streams[l + p - 1].phase.Active? && Unserved(st.streams[l + p - 1])
  {
    var l, p := w.cfg.threadLimit, w.cfg.poolSize;
    SumPrefix(Left, w.Spot(l, l, p, p).streams, l + w.Leaving());
  }

  /** Otherwise `cfg.threadLimit` clients that leave hold all permits, and all but `cfg.maxConcurrent` of
      those who wait for one leave. If the admission slots are no fewer than the permits, permits are
      given back in time. */
  lemma TrapThroughPermits(cfg: Config, requests: seq<Spec>) returns (actions: seq<Action>)
    requires 1 <= cfg.maxConcurrent < cfg.poolSize && Streamings(requests, cfg.threadLimit + cfg.poolSize)
    requires forall i :: 0 <= i < cfg.threadLimit ==> requests[i].script == []
    ensures Run(cfg, Initial(cfg, requests), actions).Some?
    ensures cfg.threadLimit <= cfg.maxConcurrent ==> Timely(cfg, requests, actions)
    ensures Disconnects(actions) == cfg.threadLimit + cfg.poolSize - cfg.maxConcurrent
    ensures var st, last := Run(cfg, Initial(cfg, requests), actions).value, cfg.threadLimit + cfg.poolSize - 1;
            && Trapped(cfg, st) && |st.streams| == |requests|
            && st.streams[last].phase.Active? && Unserved(st.streams[last])
  {
    var w := Way(cfg, requests);
    var late := if cfg.threadLimit <= cfg.maxConcurrent then 0 else cfg.threadLimit - cfg.maxConcurrent;
    hide Run, Timely, Initial, Trapped, Way.Spot, Unserved, Left;
    actions := ReadersTakeOver(w, late, cfg.threadLimit - late);
    RunShape(cfg, requests, actions);
    WayEnds(w);
  }
}
