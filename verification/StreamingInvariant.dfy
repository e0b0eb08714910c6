/** What every step of the streaming protocol keeps: the counters count what they claim, the
    executor's queue holds exactly the calls waiting for a thread, and no stage event is lost,
    repeated or reordered between the engine and the client. */
module StreamingInvariant {
  import opened Ordered
  import opened Streaming

  // ---- counting ---------------------------------------------------------------------------

  function Sum(f: Stream -> nat, ss: seq<Stream>): nat {
    if ss == [] then 0 else f(ss[0]) + Sum(f, ss[1..])
  }

  lemma {:induction false} SumUpdate(f: Stream -> nat, ss: seq<Stream>, i: nat, s: Stream)
    requires i < |ss|
    ensures Sum(f, ss[i := s]) == Sum(f, ss) - f(ss[i]) + f(s)
  {
    if i == 0 {
      assert ss[0 := s][1..] == ss[1..];
    } else {
      SumUpdate(f, ss[1..], i - 1, s);
      assert ss[i := s][1..] == ss[1..][i - 1 := s];
    }
  }

  lemma {:induction false} SumWitness(f: Stream -> nat, ss: seq<Stream>)
    requires Sum(f, ss) > 0
    ensures exists i :: 0 <= i < |ss| && f(ss[i]) > 0
  {
    if f(ss[0]) == 0 {
      SumWitness(f, ss[1..]);
      var i :| 0 <= i < |ss[1..]| && f(ss[1..][i]) > 0;
      assert ss[i + 1] == ss[1..][i];
    }
  }

  lemma {:induction false} SumAtMost(f: Stream -> nat, g: Stream -> nat, ss: seq<Stream>)
    requires forall i :: 0 <= i < |ss| ==> f(ss[i]) <= g(ss[i])
    ensures Sum(f, ss) <= Sum(g, ss)
  {
    if ss != [] {
      assert forall i :: 0 <= i < |ss[1..]| ==> ss[1..][i] == ss[i + 1];
      SumAtMost(f, g, ss[1..]);
    }
  }

  lemma {:induction false} SumSplit(f: Stream -> nat, g: Stream -> nat, h: Stream -> nat, ss: seq<Stream>)
    requires forall i :: 0 <= i < |ss| ==> f(ss[i]) == g(ss[i]) + h(ss[i])
    ensures Sum(f, ss) == Sum(g, ss) + Sum(h, ss)
  {
    if ss != [] {
      assert forall i :: 0 <= i < |ss[1..]| ==> ss[1..][i] == ss[i + 1];
      SumSplit(f, g, h, ss[1..]);
    }
  }

  /** An admitted, unfinished capped request. */
  function Slots(s: Stream): nat { if s.phase.Active? then 1 else 0 }

  /** A semaphore permit in use. */
  function Permits(s: Stream): nat {
    if s.worker.Queued? || s.worker.Running? || s.worker.Ending? || s.worker.Returned? then 1 else 0
  }

  /** A pool thread running the pipeline function. */
  function WorkerThreads(s: Stream): nat {
    if s.worker.Running? || s.worker.Ending? || s.worker.Orphan? || s.worker.OrphanEnding? then 1 else 0
  }

  /** A pool thread blocked in `events.get`. */
  function ReaderThreads(s: Stream): nat {
    if s.reader.Getting? || s.reader.OrphanGetting? then 1 else 0
  }

  function Threads(s: Stream): nat { WorkerThreads(s) + ReaderThreads(s) }

  // ---- one stream -------------------------------------------------------------------------

  predicate SentinelPut(w: Worker) { w.Ending? || w.Returned? || w.Released? }

  /** The stage events on the queue, without a sentinel at its end. */
  function Stages(queue: seq<Message>): seq<Message> {
    if queue != [] && queue[|queue| - 1] == Done then queue[..|queue| - 1] else queue
  }

  predicate AllStages(ms: seq<Message>) { forall i :: 0 <= i < |ms| ==> ms[i].Stage? }

  /** The draining loop has taken the sentinel. */
  predicate Drained(s: Stream) { s.reader.Awaiting? || s.reader == Holding(Done) }

  /** Delivered, held, queued and not yet emitted events are together the mapped script, in order;
      the sentinel is last and comes once. */
  ghost predicate Content(s: Stream)
    requires s.emitted <= |s.spec.script|
  {
    if Drained(s) then
      SentinelPut(s.worker) && s.queue == [] && s.frames == Mapped(s.spec.script)
    else
      && (s.reader.Holding? ==> s.reader.item.Stage?)
      && AllStages(Stages(s.queue))
      && s.queue == Stages(s.queue) + (if SentinelPut(s.worker) then [Done] else [])
      && s.frames + (if s.reader.Holding? then [s.reader.item] else []) + Stages(s.queue)
         + Mapped(s.spec.script[s.emitted..]) == Mapped(s.spec.script)
  }

  ghost predicate WellFormed(s: Stream) {
    && s.emitted <= |s.spec.script|
    && (SentinelPut(s.worker) && !s.phase.Disconnected? ==> s.emitted == |s.spec.script|)
    && match s.phase
       case Pending => s == NewStream(s.spec)
       case Refused => s == NewStream(s.spec).(phase := Refused)
       case Active =>
         && (s.worker.NotStarted? ==> s == NewStream(s.spec).(phase := Active))
         && !(s.worker.Orphan? || s.worker.OrphanEnding?) && (s.worker.Fresh? ==> s.spec.streaming)
         && if s.spec.streaming && !s.worker.NotStarted? then
              !(s.reader.NoReader? || s.reader.Closed? || s.reader.OrphanGetting?) && Content(s)
            else
              s.reader.NoReader? && s.queue == [] && s.frames == []
       case Finished =>
         && s.worker.Released? && (s.reader.Closed? || s.reader.NoReader?)
         && s.frames == CompleteOutput(s.spec)
       case Disconnected =>
         if s.spec.streaming then
           && !(s.worker.NotStarted? || s.worker.Fresh? || s.worker.Orphan?)
           && (s.reader.Closed? || s.reader.OrphanGetting?)
           && (s.reader.OrphanGetting? ==> !s.worker.OrphanEnding? && (SentinelPut(s.worker) ==> s.queue != []))
           && s.frames <= Mapped(s.spec.script)
         else
           && (s.worker.Released? || s.worker.Orphan? || s.worker.OrphanEnding?)
           && s.reader.NoReader? && s.frames == []
  }

  // ---- the whole state --------------------------------------------------------------------

  predicate JobWaits(streams: seq<Stream>, job: Job) {
    && job.i < |streams|
    && match job
       case Work(i) => streams[i].worker.Queued?
       case Get(i) => streams[i].reader.GetQueued?
  }

  /** The executor's queue holds each call that waits for a thread, once. */
  ghost predicate PoolMatches(pool: seq<Job>, streams: seq<Stream>) {
    NoDup(pool) && forall job :: job in pool <==> JobWaits(streams, job)
  }

  function IsWaiting(s: Stream): bool { s.worker.Waiting? }

  function IsFresh(s: Stream): bool { s.worker.Fresh? }

  /** A queue of the event loop holds each request with `f`, once. */
  ghost predicate QueueMatches(queue: seq<nat>, streams: seq<Stream>, f: Stream -> bool) {
    NoDup(queue) && forall i: nat :: i in queue <==> i < |streams| && f(streams[i])
  }

  ghost predicate Inv(cfg: Config, st: State) {
    && (forall i :: 0 <= i < |st.streams| ==> WellFormed(st.streams[i]))
    && st.active == Sum(Slots, st.streams) <= cfg.maxConcurrent
    && st.permits + Sum(Permits, st.streams) == cfg.threadLimit && st.permits >= 0
    && st.busy == Sum(Threads, st.streams) <= cfg.poolSize
    && PoolMatches(st.pool, st.streams)
    && QueueMatches(st.waiters, st.streams, IsWaiting) && QueueMatches(st.due, st.streams, IsFresh)
  }

  /** A step that changes stream `i` keeps the invariant if the stream stays well-formed, each
      counter moves with what it counts, and the queue still matches. */
  lemma Reframe(cfg: Config, st: State, i: nat, s: Stream, st': State)
    requires Inv(cfg, st) && i < |st.streams| && WellFormed(s)
    requires st'.streams == st.streams[i := s]
    requires st'.active - st.active == Slots(s) - Slots(st.streams[i]) && st'.active <= cfg.maxConcurrent
    requires st'.permits - st.permits == Permits(st.streams[i]) - Permits(s) && st'.permits >= 0
    requires st'.busy - st.busy == Threads(s) - Threads(st.streams[i]) && st'.busy <= cfg.poolSize
    requires PoolMatches(st'.pool, st'.streams)
    requires QueueMatches(st'.waiters, st'.streams, IsWaiting) && QueueMatches(st'.due, st'.streams, IsFresh)
    ensures Inv(cfg, st')
  {
    hide WellFormed, Slots, Permits, Threads, PoolMatches, QueueMatches;
    SumUpdate(Slots, st.streams, i, s);
    SumUpdate(Permits, st.streams, i, s);
    SumUpdate(Threads, st.streams, i, s);
  }

  // ---- the queues of the event loop ---------------------------------------------------------

  lemma QueueKept(queue: seq<nat>, streams: seq<Stream>, f: Stream -> bool, i: nat, s: Stream)
    requires QueueMatches(queue, streams, f) && i < |streams| && f(s) == f(streams[i])
    ensures QueueMatches(queue, streams[i := s], f)
  {
    hide NoDup;
  }

  lemma QueueAppended(queue: seq<nat>, streams: seq<Stream>, f: Stream -> bool, i: nat, s: Stream)
    requires QueueMatches(queue, streams, f) && i < |streams| && f(s) && !f(streams[i])
    ensures QueueMatches(queue + [i], streams[i := s], f)
  {
    assert i !in queue;
  }

  lemma QueueRemoved(queue: seq<nat>, streams: seq<Stream>, f: Stream -> bool, i: nat, s: Stream)
    requires QueueMatches(queue, streams, f) && i < |streams| && !f(s)
    ensures QueueMatches(Without(queue, i), streams[i := s], f)
  {
    WithoutNoDup(queue, i);
    WithoutMembers(queue, i);
    hide NoDup, Without;
  }

  lemma Popped<K(!new)>(queue: seq<K>)
    requires NoDup(queue) && queue != []
    ensures NoDup(queue[1..]) && forall k :: k in queue[1..] <==> k in queue && k != queue[0]
  {
    assert queue == [queue[0]] + queue[1..];
  }

  lemma QueuePopped(queue: seq<nat>, streams: seq<Stream>, f: Stream -> bool, s: Stream)
    requires QueueMatches(queue, streams, f) && queue != [] && queue[0] < |streams| && !f(s)
    ensures QueueMatches(queue[1..], streams[queue[0] := s], f)
  {
    Popped(queue);
    hide NoDup;
  }

  /** A step that leaves both kinds of worker alone leaves both queues. */
  lemma QueuesKept(st: State, i: nat, s: Stream)
    requires i < |st.streams| && IsWaiting(s) == IsWaiting(st.streams[i]) && IsFresh(s) == IsFresh(st.streams[i])
    requires QueueMatches(st.waiters, st.streams, IsWaiting) && QueueMatches(st.due, st.streams, IsFresh)
    ensures QueueMatches(st.waiters, st.streams[i := s], IsWaiting) && QueueMatches(st.due, st.streams[i := s], IsFresh)
  {
    hide QueueMatches;
    QueueKept(st.waiters, st.streams, IsWaiting, i, s);
    QueueKept(st.due, st.streams, IsFresh, i, s);
  }

  // ---- the executor's queue ---------------------------------------------------------------

  predicate SameWaiting(s: Stream, s': Stream) {
    && (s.worker.Queued? <==> s'.worker.Queued?)
    && (s.reader.GetQueued? <==> s'.reader.GetQueued?)
  }

  lemma PoolKept(pool: seq<Job>, streams: seq<Stream>, i: nat, s: Stream)
    requires PoolMatches(pool, streams) && i < |streams| && SameWaiting(streams[i], s)
    ensures PoolMatches(pool, streams[i := s])
  {
    hide NoDup;
    forall job ensures JobWaits(streams[i := s], job) <==> JobWaits(streams, job) {
    }
  }

  lemma PoolAppended(pool: seq<Job>, streams: seq<Stream>, job: Job, s: Stream)
    requires PoolMatches(pool, streams) && job.i < |streams|
    requires !JobWaits(streams, job) && JobWaits(streams[job.i := s], job)
    requires job.Work? ==> (s.reader.GetQueued? <==> streams[job.i].reader.GetQueued?)
    requires job.Get? ==> (s.worker.Queued? <==> streams[job.i].worker.Queued?)
    ensures PoolMatches(pool + [job], streams[job.i := s])
  {
    forall j ensures JobWaits(streams[job.i := s], j) <==> JobWaits(streams, j) || j == job {
    }
    assert job !in pool;
  }

  lemma PoolRemoved(pool: seq<Job>, pool': seq<Job>, streams: seq<Stream>, job: Job, s: Stream)
    requires PoolMatches(pool, streams) && job.i < |streams|
    requires NoDup(pool') && forall j :: j in pool' <==> j in pool && j != job
    requires !JobWaits(streams[job.i := s], job)
    requires job.Work? ==> (s.reader.GetQueued? <==> streams[job.i].reader.GetQueued?)
    requires job.Get? ==> (s.worker.Queued? <==> streams[job.i].worker.Queued?)
    ensures PoolMatches(pool', streams[job.i := s])
  {
    hide NoDup;
    forall j ensures JobWaits(streams[job.i := s], j) <==> JobWaits(streams, j) && j != job {
    }
  }

  // ---- content ----------------------------------------------------------------------------

  lemma MappedStep(script: seq<Transition>, i: nat)
    requires i < |script|
    ensures Mapped(script[i..]) == OnStage(script[i]) + Mapped(script[i + 1..])
    ensures AllStages(OnStage(script[i]))
  {
    assert script[i..][1..] == script[i + 1..];
  }

  lemma StagesThenSentinel(stages: seq<Message>, put: seq<Message>)
    requires AllStages(stages) && (put == [] || put == [Done])
    ensures Stages(stages + put) == stages
  {
    if put == [] {
      assert stages + put == stages;
    }
  }

  /** The engine puts the next mapped event behind the queued ones. */
  lemma EmitContent(s: Stream)
    requires s.worker.Running? && s.emitted < |s.spec.script| && Content(s)
    ensures Content(s.(emitted := s.emitted + 1, queue := s.queue + OnStage(s.spec.script[s.emitted])))
  {
    hide Mapped, OnStage;
    MappedStep(s.spec.script, s.emitted);
    var put, rest := OnStage(s.spec.script[s.emitted]), Mapped(s.spec.script[s.emitted + 1..]);
    var held := if s.reader.Holding? then [s.reader.item] else [];
    StagesThenSentinel(s.queue + put, []);
    assert s.queue + put + [] == s.queue + put;
    assert s.frames + held + (s.queue + put) + rest == s.frames + held + s.queue + (put + rest);
  }

  lemma PutDoneContent(s: Stream)
    requires s.spec.streaming && s.phase.Active? && WellFormed(s) && s.worker.Running?
    requires s.emitted == |s.spec.script|
    ensures Content(s.(worker := Ending, queue := s.queue + [Done]))
  {
    assert Stages(s.queue) == s.queue;
    assert Stages(s.queue + [Done]) == s.queue;
  }

  lemma HeadMoves(frames: seq<Message>, stages: seq<Message>, rest: seq<Message>)
    requires stages != []
    ensures frames + [] + stages + rest == frames + [stages[0]] + stages[1..] + rest
  {
  }

  lemma TakeStage(s: Stream)
    requires s.emitted <= |s.spec.script| && Content(s) && s.reader.Getting?
    requires SentinelPut(s.worker) ==> s.emitted == |s.spec.script|
    requires Stages(s.queue) != []
    ensures Content(s.(reader := Holding(s.queue[0]), queue := s.queue[1..]))
  {
    hide Mapped;
    var head, tail, stages, rest := s.queue[0], s.queue[1..], Stages(s.queue), Mapped(s.spec.script[s.emitted..]);
    var put := if SentinelPut(s.worker) then [Done] else [];
    assert head == stages[0];
    assert tail == stages[1..] + put;
    StagesThenSentinel(stages[1..], put);
    hide Stages;
    HeadMoves(s.frames, stages, rest);
  }

  lemma TakeSentinel(s: Stream)
    requires s.emitted <= |s.spec.script| && Content(s) && s.reader.Getting?
    requires SentinelPut(s.worker) ==> s.emitted == |s.spec.script|
    requires s.queue != [] && Stages(s.queue) == []
    ensures Content(s.(reader := Holding(s.queue[0]), queue := s.queue[1..]))
  {
    assert s.queue == [Done] && s.queue[1..] == [];
    assert s.spec.script[s.emitted..] == [];
    assert Mapped([]) == [];
    hide Mapped;
    assert s.frames + [] + [] + [] == s.frames;
  }

  /** `events.get` takes the head of the queue; the sentinel only once all events are delivered. */
  lemma TakeContent(s: Stream)
    requires s.emitted <= |s.spec.script| && Content(s) && s.reader.Getting?
    requires SentinelPut(s.worker) ==> s.emitted == |s.spec.script|
    requires s.queue != []
    ensures Content(s.(reader := Holding(s.queue[0]), queue := s.queue[1..]))
  {
    if Stages(s.queue) == [] {
      TakeSentinel(s);
    } else {
      TakeStage(s);
    }
  }

  lemma DeliverContent(s: Stream)
    requires s.spec.streaming && s.phase.Active? && WellFormed(s) && s.reader.Holding?
    ensures s.reader.item == Done ==> Content(s.(reader := Awaiting))
    ensures s.reader.item != Done ==> Content(s.(reader := Idle, frames := s.frames + [s.reader.item]))
  {
    if s.reader.item != Done {
      assert s.frames + [s.reader.item] + [] == s.frames + [s.reader.item];
    }
  }

  /** What was delivered is always a prefix of the mapped script. */
  lemma DeliveredIsPrefix(s: Stream)
    requires s.spec.streaming && s.phase.Active? && WellFormed(s)
    ensures s.frames <= Mapped(s.spec.script)
  {
  }

  // ---- every step keeps the invariant -----------------------------------------------------

  lemma InvAdmit(cfg: Config, st: State, i: nat)
    requires Inv(cfg, st) && i < |st.streams| && AdmitStep(cfg, st, i).Some?
    ensures Inv(cfg, AdmitStep(cfg, st, i).value)
  {
    var st' := AdmitStep(cfg, st, i).value;
    assert WellFormed(st.streams[i]);
    PoolKept(st.pool, st.streams, i, st'.streams[i]);
    QueuesKept(st, i, st'.streams[i]);
    hide PoolMatches, QueueMatches, Mapped, OnStage, CompleteOutput;
    Reframe(cfg, st, i, st'.streams[i], st');
  }

  lemma InvRefuse(cfg: Config, st: State, i: nat)
    requires Inv(cfg, st) && i < |st.streams| && RefuseStep(cfg, st, i).Some?
    ensures Inv(cfg, RefuseStep(cfg, st, i).value)
  {
    var st' := RefuseStep(cfg, st, i).value;
    assert WellFormed(st.streams[i]);
    PoolKept(st.pool, st.streams, i, st'.streams[i]);
    QueuesKept(st, i, st'.streams[i]);
    Reframe(cfg, st, i, st'.streams[i], st');
  }

  predicate Unstarted(w: Worker) { w.NotStarted? || w.Fresh? || w.Waiting? }

  /** A worker takes a permit and hands its function to the executor. */
  lemma InvGranted(cfg: Config, st: State, i: nat, waiters: seq<nat>, due: seq<nat>)
    requires Inv(cfg, st) && i < |st.streams| && st.permits > 0 && Unstarted(st.streams[i].worker)
    requires WellFormed(st.streams[i].(worker := Queued))
    requires QueueMatches(waiters, st.streams[i := st.streams[i].(worker := Queued)], IsWaiting)
    requires QueueMatches(due, st.streams[i := st.streams[i].(worker := Queued)], IsFresh)
    ensures Inv(cfg, Update(st, i, st.streams[i].(worker := Queued)).(
                       permits := st.permits - 1, pool := st.pool + [Work(i)], waiters := waiters, due := due))
  {
    var s' := st.streams[i].(worker := Queued);
    PoolAppended(st.pool, st.streams, Work(i), s');
    hide PoolMatches, QueueMatches, WellFormed;
    Reframe(cfg, st, i, s', Update(st, i, s').(permits := st.permits - 1, pool := st.pool + [Work(i)],
                                               waiters := waiters, due := due));
  }

  /** A worker joins the semaphore's queue. */
  lemma InvWaits(cfg: Config, st: State, i: nat, due: seq<nat>)
    requires Inv(cfg, st) && i < |st.streams|
    requires st.streams[i].worker.NotStarted? || st.streams[i].worker.Fresh?
    requires WellFormed(st.streams[i].(worker := Waiting))
    requires QueueMatches(due, st.streams[i := st.streams[i].(worker := Waiting)], IsFresh)
    ensures Inv(cfg, Update(st, i, st.streams[i].(worker := Waiting)).(waiters := st.waiters + [i], due := due))
  {
    var s' := st.streams[i].(worker := Waiting);
    PoolKept(st.pool, st.streams, i, s');
    QueueAppended(st.waiters, st.streams, IsWaiting, i, s');
    hide PoolMatches, QueueMatches, WellFormed;
    Reframe(cfg, st, i, s', Update(st, i, s').(waiters := st.waiters + [i], due := due));
  }

  /** The worker's first step leaves the stream well-formed, however it goes. */
  lemma FirstWellFormed(s: Stream)
    requires WellFormed(s) && s.phase.Active? && (s.worker.Fresh? || (s.worker.NotStarted? && !s.spec.streaming))
    ensures WellFormed(s.(worker := Queued)) && WellFormed(s.(worker := Waiting))
  {
    hide Mapped, OnStage, CompleteOutput;
  }

  lemma BegunWellFormed(s: Stream)
    requires s == NewStream(s.spec).(phase := Active) && s.spec.streaming
    ensures WellFormed(s.(worker := Fresh, reader := GetQueued))
  {
    hide Mapped, OnStage, CompleteOutput;
    assert s.spec.script[0..] == s.spec.script;
    assert [] + [] + [] + Mapped(s.spec.script) == Mapped(s.spec.script);
  }

  lemma InvBeginStreaming(cfg: Config, st: State, i: nat)
    requires Inv(cfg, st) && i < |st.streams| && BeginStep(st, i).Some? && st.streams[i].spec.streaming
    ensures Inv(cfg, BeginStep(st, i).value)
  {
    var st' := BeginStep(st, i).value;
    var s, s' := st.streams[i], st'.streams[i];
    assert WellFormed(s);
    BegunWellFormed(s);
    PoolAppended(st.pool, st.streams, Get(i), s');
    QueueKept(st.waiters, st.streams, IsWaiting, i, s');
    QueueAppended(st.due, st.streams, IsFresh, i, s');
    hide PoolMatches, QueueMatches, WellFormed;
    Reframe(cfg, st, i, s', st');
  }

  lemma InvBeginPlain(cfg: Config, st: State, i: nat)
    requires Inv(cfg, st) && i < |st.streams| && BeginStep(st, i).Some? && !st.streams[i].spec.streaming
    ensures Inv(cfg, BeginStep(st, i).value)
  {
    var s := st.streams[i];
    assert WellFormed(s);
    FirstWellFormed(s);
    if st.permits > 0 {
      QueuesKept(st, i, s.(worker := Queued));
      hide Inv, WellFormed, QueueMatches;
      InvGranted(cfg, st, i, st.waiters, st.due);
    } else {
      QueueKept(st.due, st.streams, IsFresh, i, s.(worker := Waiting));
      hide Inv, WellFormed, QueueMatches;
      InvWaits(cfg, st, i, st.due);
    }
  }

  lemma InvFirst(cfg: Config, st: State, i: nat)
    requires Inv(cfg, st) && i < |st.streams| && FirstStep(st, i).Some?
    ensures Inv(cfg, FirstStep(st, i).value)
  {
    var s := st.streams[i];
    assert WellFormed(s);
    FirstWellFormed(s);
    if st.permits > 0 {
      QueueKept(st.waiters, st.streams, IsWaiting, i, s.(worker := Queued));
      QueuePopped(st.due, st.streams, IsFresh, s.(worker := Queued));
      hide Inv, WellFormed, QueueMatches;
      InvGranted(cfg, st, i, st.waiters, st.due[1..]);
    } else {
      QueuePopped(st.due, st.streams, IsFresh, s.(worker := Waiting));
      hide Inv, WellFormed, QueueMatches;
      InvWaits(cfg, st, i, st.due[1..]);
    }
  }

  lemma GrantedWellFormed(s: Stream)
    requires WellFormed(s) && s.worker.Waiting?
    ensures WellFormed(s.(worker := Queued))
  {
    hide Mapped, OnStage, CompleteOutput;
  }

  lemma InvAcquire(cfg: Config, st: State, i: nat)
    requires Inv(cfg, st) && i < |st.streams| && AcquireStep(st, i).Some?
    ensures Inv(cfg, AcquireStep(st, i).value)
  {
    var s := st.streams[i];
    assert WellFormed(s);
    GrantedWellFormed(s);
    QueueKept(st.due, st.streams, IsFresh, i, s.(worker := Queued));
    QueuePopped(st.waiters, st.streams, IsWaiting, s.(worker := Queued));
    hide Inv, WellFormed, QueueMatches;
    InvGranted(cfg, st, i, st.waiters[1..], st.due);
  }

  lemma InvSubmitGet(cfg: Config, st: State, i: nat)
    requires Inv(cfg, st) && i < |st.streams| && SubmitGetStep(st, i).Some?
    ensures Inv(cfg, SubmitGetStep(st, i).value)
  {
    var st' := SubmitGetStep(st, i).value;
    assert WellFormed(st.streams[i]);
    PoolAppended(st.pool, st.streams, Get(i), st'.streams[i]);
    QueuesKept(st, i, st'.streams[i]);
    hide PoolMatches, QueueMatches, Mapped, OnStage, CompleteOutput;
    Reframe(cfg, st, i, st'.streams[i], st');
  }

  lemma StartedContent(s: Stream)
    requires s.emitted <= |s.spec.script|
    ensures s.worker.Queued? ==> Content(s.(worker := Running)) == Content(s)
    ensures s.reader.GetQueued? ==> Content(s.(reader := Getting)) == Content(s)
  {
    hide Mapped, Stages;
  }

  lemma StartedWellFormed(s: Stream)
    requires WellFormed(s)
    ensures s.worker.Queued? ==> WellFormed(s.(worker := Running))
    ensures s.reader.GetQueued? ==> WellFormed(s.(reader := Getting))
  {
    hide Mapped, OnStage, CompleteOutput, Content;
    StartedContent(s);
  }

  lemma InvStartJob(cfg: Config, st: State)
    requires Inv(cfg, st) && StartJobStep(cfg, st).Some?
    ensures Inv(cfg, StartJobStep(cfg, st).value)
  {
    var st', job := StartJobStep(cfg, st).value, st.pool[0];
    assert job in st.pool && JobWaits(st.streams, job);
    assert WellFormed(st.streams[job.i]);
    StartedWellFormed(st.streams[job.i]);
    Popped(st.pool);
    PoolRemoved(st.pool, st.pool[1..], st.streams, job, st'.streams[job.i]);
    QueuesKept(st, job.i, st'.streams[job.i]);
    hide PoolMatches, QueueMatches, WellFormed;
    Reframe(cfg, st, job.i, st'.streams[job.i], st');
  }

  lemma InvEmit(cfg: Config, st: State, i: nat)
    requires Inv(cfg, st) && i < |st.streams| && EmitStep(st, i).Some?
    ensures Inv(cfg, EmitStep(st, i).value)
  {
    var st' := EmitStep(st, i).value;
    var s := st.streams[i];
    assert WellFormed(s);
    if s.spec.streaming && s.phase.Active? {
      EmitContent(s);
    }
    PoolKept(st.pool, st.streams, i, st'.streams[i]);
    QueuesKept(st, i, st'.streams[i]);
    hide PoolMatches, QueueMatches, Mapped, OnStage, CompleteOutput, Content;
    Reframe(cfg, st, i, st'.streams[i], st');
  }

  lemma InvPutDone(cfg: Config, st: State, i: nat)
    requires Inv(cfg, st) && i < |st.streams| && PutDoneStep(st, i).Some?
    ensures Inv(cfg, PutDoneStep(st, i).value)
  {
    var st' := PutDoneStep(st, i).value;
    var s := st.streams[i];
    assert WellFormed(s);
    if s.spec.streaming && s.phase.Active? {
      PutDoneContent(s);
    }
    PoolKept(st.pool, st.streams, i, st'.streams[i]);
    QueuesKept(st, i, st'.streams[i]);
    hide PoolMatches, QueueMatches, Mapped, OnStage, CompleteOutput, Content;
    Reframe(cfg, st, i, st'.streams[i], st');
  }

  lemma InvReturn(cfg: Config, st: State, i: nat)
    requires Inv(cfg, st) && i < |st.streams| && ReturnStep(st, i).Some?
    ensures Inv(cfg, ReturnStep(st, i).value)
  {
    hide Mapped, OnStage, CompleteOutput;
    var st' := ReturnStep(st, i).value;
    assert WellFormed(st.streams[i]);
    PoolKept(st.pool, st.streams, i, st'.streams[i]);
    QueuesKept(st, i, st'.streams[i]);
    hide PoolMatches, QueueMatches, Mapped, OnStage, CompleteOutput;
    Reframe(cfg, st, i, st'.streams[i], st');
  }

  lemma InvRelease(cfg: Config, st: State, i: nat)
    requires Inv(cfg, st) && i < |st.streams| && ReleaseStep(st, i).Some?
    ensures Inv(cfg, ReleaseStep(st, i).value)
  {
    var st' := ReleaseStep(st, i).value;
    assert WellFormed(st.streams[i]);
    PoolKept(st.pool, st.streams, i, st'.streams[i]);
    QueuesKept(st, i, st'.streams[i]);
    hide PoolMatches, QueueMatches, Mapped, OnStage, CompleteOutput;
    Reframe(cfg, st, i, st'.streams[i], st');
  }

  lemma InvTake(cfg: Config, st: State, i: nat)
    requires Inv(cfg, st) && i < |st.streams| && TakeStep(st, i).Some?
    ensures Inv(cfg, TakeStep(st, i).value)
  {
    hide Mapped, OnStage, CompleteOutput;
    var st' := TakeStep(st, i).value;
    var s := st.streams[i];
    assert WellFormed(s);
    if s.reader.Getting? {
      TakeContent(s);
    }
    PoolKept(st.pool, st.streams, i, st'.streams[i]);
    QueuesKept(st, i, st'.streams[i]);
    hide PoolMatches, QueueMatches, Mapped, OnStage, CompleteOutput, Content;
    Reframe(cfg, st, i, st'.streams[i], st');
  }

  lemma InvDeliver(cfg: Config, st: State, i: nat)
    requires Inv(cfg, st) && i < |st.streams| && DeliverStep(st, i).Some?
    ensures Inv(cfg, DeliverStep(st, i).value)
  {
    var st' := DeliverStep(st, i).value;
    assert WellFormed(st.streams[i]);
    DeliverContent(st.streams[i]);
    PoolKept(st.pool, st.streams, i, st'.streams[i]);
    QueuesKept(st, i, st'.streams[i]);
    hide PoolMatches, QueueMatches, Mapped, OnStage, CompleteOutput, Content;
    Reframe(cfg, st, i, st'.streams[i], st');
  }

  lemma InvFinish(cfg: Config, st: State, i: nat)
    requires Inv(cfg, st) && i < |st.streams| && FinishStep(st, i).Some?
    ensures Inv(cfg, FinishStep(st, i).value)
  {
    var st' := FinishStep(st, i).value;
    assert WellFormed(st.streams[i]);
    PoolKept(st.pool, st.streams, i, st'.streams[i]);
    QueuesKept(st, i, st'.streams[i]);
    hide PoolMatches, QueueMatches, Mapped, OnStage;
    Reframe(cfg, st, i, st'.streams[i], st');
  }

  lemma LeftWellFormed(s: Stream)
    requires WellFormed(s) && s.phase.Active? && !s.worker.Fresh?
    ensures s.spec.streaming ==>
              WellFormed(s.(phase := Disconnected, reader := if s.reader.Getting? then OrphanGetting else Closed,
                            worker := if s.reader.Awaiting? || s.worker.NotStarted? then Cancelled(s.worker)
                                      else s.worker))
    ensures !s.spec.streaming ==> WellFormed(s.(phase := Disconnected, worker := Cancelled(s.worker)))
  {
    hide Mapped, OnStage;
    if s.spec.streaming && !s.worker.NotStarted? {
      DeliveredIsPrefix(s);
    }
  }

  lemma InvDisconnect(cfg: Config, st: State, i: nat)
    requires Inv(cfg, st) && i < |st.streams| && DisconnectStep(st, i).Some?
    ensures Inv(cfg, DisconnectStep(st, i).value)
  {
    var st' := DisconnectStep(st, i).value;
    var s, s' := st.streams[i], st'.streams[i];
    assert WellFormed(s);
    LeftWellFormed(s);
    if SameWaiting(s, s') {
      PoolKept(st.pool, st.streams, i, s');
    } else {
      var job := if s.spec.streaming then Get(i) else Work(i);
      WithoutNoDup(st.pool, job);
      WithoutMembers(st.pool, job);
      PoolRemoved(st.pool, st'.pool, st.streams, job, s');
    }
    QueueKept(st.due, st.streams, IsFresh, i, s');
    if s.worker.Waiting? && !s.spec.streaming {
      QueueRemoved(st.waiters, st.streams, IsWaiting, i, s');
    } else {
      QueueKept(st.waiters, st.streams, IsWaiting, i, s');
    }
    hide PoolMatches, QueueMatches, WellFormed, Content;
    Reframe(cfg, st, i, s', st');
  }

  lemma InvStep(cfg: Config, st: State, a: Action)
    requires Inv(cfg, st) && Step(cfg, st, a).Some?
    ensures Inv(cfg, Step(cfg, st, a).value)
  {
    hide Inv, AdmitStep, RefuseStep, BeginStep, FirstStep, AcquireStep, SubmitGetStep, StartJobStep, EmitStep,
      PutDoneStep, ReturnStep, ReleaseStep, TakeStep, DeliverStep, FinishStep, DisconnectStep;
    match a
    case Admit(i) => InvAdmit(cfg, st, i);
    case Refuse(i) => InvRefuse(cfg, st, i);
    case Begin(i) =>
      if st.streams[i].spec.streaming { InvBeginStreaming(cfg, st, i); } else { InvBeginPlain(cfg, st, i); }
    case First(i) => InvFirst(cfg, st, i);
    case Acquire(i) => InvAcquire(cfg, st, i);
    case SubmitGet(i) => InvSubmitGet(cfg, st, i);
    case StartJob => InvStartJob(cfg, st);
    case Emit(i) => InvEmit(cfg, st, i);
    case PutDone(i) => InvPutDone(cfg, st, i);
    case Return(i) => InvReturn(cfg, st, i);
    case Release(i) => InvRelease(cfg, st, i);
    case Take(i) => InvTake(cfg, st, i);
    case Deliver(i) => InvDeliver(cfg, st, i);
    case Finish(i) => InvFinish(cfg, st, i);
    case Disconnect(i) => InvDisconnect(cfg, st, i);
  }
}
