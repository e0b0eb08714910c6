/** Which runs of the streaming protocol finish: while no jam of readers is in sight, something can
    always go on, and every run is finite. */
module StreamingProgress {
  import opened Ordered
  import opened Streaming
  import opened StreamingInvariant
  import opened StreamingRuns
  import opened StreamingRoom

  // ---- progress ---------------------------------------------------------------------------

  lemma WorkerOnThreadProgresses(cfg: Config, st: State, i: nat)
    requires i < |st.streams| && WellFormed(st.streams[i]) && WorkerThreads(st.streams[i]) > 0
    ensures exists a :: Enabled(cfg, st, a)
  {
    var s := st.streams[i];
    var a := if s.worker.Ending? || s.worker.OrphanEnding? then Return(i)
             else if s.emitted < |s.spec.script| then Emit(i) else PutDone(i);
    assert Enabled(cfg, st, a);
  }

  /** A reader on a thread has something to take, or its producer is on one or has had none. */
  lemma ReaderOnThread(cfg: Config, st: State, i: nat)
    requires Inv(cfg, st) && i < |st.streams| && ReaderThreads(st.streams[i]) > 0
    ensures Enabled(cfg, st, Take(i)) || WorkerThreads(st.streams[i]) > 0 || Candidate(st.streams[i], i, st.pool)
  {
    hide Mapped, CompleteOutput;
    var s := st.streams[i];
    assert WellFormed(s);
    assert JobWaits(st.streams, Work(i)) <==> s.worker.Queued?;
    assert Get(i) in st.pool <==> s.reader.GetQueued?;
  }

  /** Without a jam a full pool has a worker, or a reader with something to take. */
  lemma FullPoolProgresses(cfg: Config, st: State)
    requires Inv(cfg, st) && NoJam(cfg, st) && st.busy == cfg.poolSize
    ensures exists a :: Enabled(cfg, st, a)
  {
    var ss := st.streams;
    SumSplit(Threads, WorkerThreads, ReaderThreads, ss);
    if Sum(WorkerThreads, ss) > 0 {
      SumWitness(WorkerThreads, ss);
      var i :| 0 <= i < |ss| && WorkerThreads(ss[i]) > 0;
      assert WellFormed(ss[i]);
      WorkerOnThreadProgresses(cfg, st, i);
    } else {
      ThoseAtMost(ReaderThreads, ss);
      assert st.pool[0..] == st.pool;
      assert |Candidates(ss, st.pool)| < cfg.poolSize;
      if Those(ReaderThreads, ss) <= Candidates(ss, st.pool) {
        SubsetSize(Those(ReaderThreads, ss), Candidates(ss, st.pool));
      }
      var i :| i in Those(ReaderThreads, ss) && i !in Candidates(ss, st.pool);
      ReaderOnThread(cfg, st, i);
      if WorkerThreads(ss[i]) > 0 {
        assert WellFormed(ss[i]);
        WorkerOnThreadProgresses(cfg, st, i);
      }
    }
  }

  /** A call in the executor's queue gets a thread, or something on a thread can go on. */
  lemma PoolProgresses(cfg: Config, st: State)
    requires Inv(cfg, st) && NoJam(cfg, st) && st.pool != []
    ensures exists a :: Enabled(cfg, st, a)
  {
    if st.busy < cfg.poolSize {
      assert st.pool[0] in st.pool && JobWaits(st.streams, st.pool[0]);
      assert Enabled(cfg, st, StartJob);
    } else {
      FullPoolProgresses(cfg, st);
    }
  }

  lemma CallProgresses(cfg: Config, st: State, job: Job)
    requires Inv(cfg, st) && NoJam(cfg, st) && JobWaits(st.streams, job)
    ensures exists a :: Enabled(cfg, st, a)
  {
    assert job in st.pool;
    PoolProgresses(cfg, st);
  }

  lemma HolderProgresses(cfg: Config, st: State, j: nat)
    requires Inv(cfg, st) && NoJam(cfg, st)
    requires j < |st.streams| && Permits(st.streams[j]) > 0
    ensures exists a :: Enabled(cfg, st, a)
  {
    var s := st.streams[j];
    assert WellFormed(s);
    if s.worker.Queued? {
      CallProgresses(cfg, st, Work(j));
    } else if s.worker.Returned? {
      assert Enabled(cfg, st, Release(j));
    } else {
      WorkerOnThreadProgresses(cfg, st, j);
    }
  }

  /** If workers wait for a permit, the first of them can take one, or a holder can go on. */
  lemma WaitersProgress(cfg: Config, st: State)
    requires Inv(cfg, st) && NoJam(cfg, st) && cfg.threadLimit >= 1 && st.waiters != []
    ensures exists a :: Enabled(cfg, st, a)
  {
    if st.permits > 0 {
      assert st.waiters[0] in st.waiters;
      assert Enabled(cfg, st, Acquire(st.waiters[0]));
    } else {
      SumWitness(Permits, st.streams);
      var j :| 0 <= j < |st.streams| && Permits(st.streams[j]) > 0;
      HolderProgresses(cfg, st, j);
    }
  }

  /** A stream whose worker is done: its reader can go on, or the response ends. */
  lemma ReleasedProgresses(cfg: Config, st: State, i: nat)
    requires Inv(cfg, st) && NoJam(cfg, st) && st.waiters == []
    requires i < |st.streams| && st.streams[i].phase.Active? && st.streams[i].worker.Released?
    ensures exists a :: Enabled(cfg, st, a)
  {
    hide Mapped, CompleteOutput, NoJam, PoolMatches, QueueMatches;
    var s := st.streams[i];
    assert WellFormed(s);
    if !s.spec.streaming || s.reader.Awaiting? {
      assert Enabled(cfg, st, Finish(i));
    } else if s.reader.Idle? {
      assert Enabled(cfg, st, SubmitGet(i));
    } else if s.reader.GetQueued? {
      CallProgresses(cfg, st, Get(i));
    } else if s.reader.Getting? {
      assert s.queue[|s.queue| - 1] == Done;
      assert Enabled(cfg, st, Take(i));
    } else {
      assert Enabled(cfg, st, Deliver(i));
    }
  }

  /** A task whose first step is due makes it, or one before it does. */
  lemma DueProgresses(cfg: Config, st: State, i: nat)
    requires Inv(cfg, st) && st.waiters == [] && i < |st.streams| && st.streams[i].worker.Fresh?
    ensures exists a :: Enabled(cfg, st, a)
  {
    hide WellFormed, PoolMatches, Content, Mapped, CompleteOutput;
    assert IsFresh(st.streams[i]) && i in st.due;
    assert st.due[0] in st.due && IsFresh(st.streams[st.due[0]]);
    assert Enabled(cfg, st, First(st.due[0]));
  }

  lemma NoWaiter(cfg: Config, st: State, i: nat)
    requires Inv(cfg, st) && st.waiters == [] && i < |st.streams|
    ensures !st.streams[i].worker.Waiting?
  {
    assert i !in st.waiters && !IsWaiting(st.streams[i]);
  }

  /** While no jam is in sight, a state with an unsettled request has a step. */
  lemma Progress(cfg: Config, st: State)
    requires Inv(cfg, st) && NoJam(cfg, st) && cfg.threadLimit >= 1 && !AllSettled(st)
    ensures exists a :: Enabled(cfg, st, a)
  {
    hide NoJam, PoolMatches, QueueMatches, Content, Mapped, CompleteOutput;
    var i :| 0 <= i < |st.streams| && (st.streams[i].phase.Pending? || st.streams[i].phase.Active?);
    var s := st.streams[i];
    assert WellFormed(s);
    if s.phase.Pending? {
      assert Enabled(cfg, st, if st.active < cfg.maxConcurrent then Admit(i) else Refuse(i));
    } else if st.waiters != [] {
      WaitersProgress(cfg, st);
    } else if s.worker.NotStarted? {
      assert Enabled(cfg, st, Begin(i));
    } else if s.worker.Fresh? {
      DueProgresses(cfg, st, i);
    } else if s.worker.Released? {
      ReleasedProgresses(cfg, st, i);
    } else {
      NoWaiter(cfg, st, i);
      HolderProgresses(cfg, st, i);
    }
  }

  // ---- termination ------------------------------------------------------------------------

  function PhaseWork(p: Phase): nat {
    match p
    case Pending => 3
    case Active => 2
    case Disconnected => 1
    case Refused | Finished => 0
  }

  function WorkerWork(w: Worker): nat {
    match w
    case NotStarted => 20
    case Fresh => 11
    case Waiting => 10
    case Queued => 9
    case Running | Orphan => 8
    case Ending | OrphanEnding => 2
    case Returned => 1
    case Released => 0
  }

  function ReaderWork(r: Reader): nat {
    match r
    case Idle => 4
    case GetQueued => 3
    case Getting | OrphanGetting => 2
    case Holding(_) => 6
    case Awaiting => 1
    case NoReader | Closed => 0
  }

  /** What is left to do for one request: an event not yet emitted counts more than one queued,
      and that more than one the reader holds. */
  function Remaining(s: Stream): nat {
    PhaseWork(s.phase) + WorkerWork(s.worker) + ReaderWork(s.reader)
    + 6 * (if s.emitted <= |s.spec.script| then |s.spec.script| - s.emitted else 0) + 5 * |s.queue|
  }

  function Measure(st: State): nat { Sum(Remaining, st.streams) }

  lemma OneItemAtMost(t: Transition)
    ensures |OnStage(t)| <= 1
  {
  }

  predicate WorkerAction(a: Action) { a.First? || a.Acquire? || a.Emit? || a.PutDone? || a.Return? || a.Release? }

  lemma WorkerStepDecreases(cfg: Config, st: State, a: Action)
    requires Step(cfg, st, a).Some? && WorkerAction(a) && a.i < |st.streams| == |Step(cfg, st, a).value.streams|
    requires st.streams[a.i].emitted <= |st.streams[a.i].spec.script|
    ensures Remaining(Step(cfg, st, a).value.streams[a.i]) < Remaining(st.streams[a.i])
  {
    hide UiStep;
    var s := st.streams[a.i];
    if s.emitted < |s.spec.script| {
      OneItemAtMost(s.spec.script[s.emitted]);
    }
    hide OnStage;
  }

  lemma OtherStepDecreases(cfg: Config, st: State, a: Action)
    requires Step(cfg, st, a).Some? && !WorkerAction(a)
    requires Target(st, a) < |st.streams| == |Step(cfg, st, a).value.streams|
    requires var s := st.streams[Target(st, a)];
             s.emitted <= |s.spec.script| && (s.phase.Pending? ==> s == NewStream(s.spec))
    requires a.StartJob? && st.pool != [] ==> JobWaits(st.streams, st.pool[0])
    ensures Remaining(Step(cfg, st, a).value.streams[Target(st, a)]) < Remaining(st.streams[Target(st, a)])
  {
    hide Without, OnStage;
  }

  lemma TargetDecreases(cfg: Config, st: State, a: Action)
    requires Step(cfg, st, a).Some? && Target(st, a) < |st.streams| == |Step(cfg, st, a).value.streams|
    requires var s := st.streams[Target(st, a)];
             s.emitted <= |s.spec.script| && (s.phase.Pending? ==> s == NewStream(s.spec))
    requires a.StartJob? && st.pool != [] ==> JobWaits(st.streams, st.pool[0])
    ensures Remaining(Step(cfg, st, a).value.streams[Target(st, a)]) < Remaining(st.streams[Target(st, a)])
  {
    hide Step, Remaining;
    if WorkerAction(a) {
      WorkerStepDecreases(cfg, st, a);
    } else {
      OtherStepDecreases(cfg, st, a);
    }
  }

  lemma StepDecreases(cfg: Config, st: State, a: Action)
    requires Inv(cfg, st) && Step(cfg, st, a).Some?
    ensures Measure(Step(cfg, st, a).value) < Measure(st)
  {
    StepIsLocal(cfg, st, a);
    var st', i := Step(cfg, st, a).value, Target(st, a);
    assert st.pool != [] ==> st.pool[0] in st.pool;
    assert WellFormed(st.streams[i]);
    TargetDecreases(cfg, st, a);
    hide Step, Remaining, WellFormed;
    SumUpdate(Remaining, st.streams, i, st'.streams[i]);
  }

  /** Every run is finite: it has at most `Measure` of the initial state many actions. */
  lemma {:induction false} RunsAreBounded(cfg: Config, requests: seq<Spec>, actions: seq<Action>)
    requires Run(cfg, Initial(cfg, requests), actions).Some?
    ensures |actions| + Measure(Run(cfg, Initial(cfg, requests), actions).value)
            <= Measure(Initial(cfg, requests))
    decreases |actions|
  {
    hide Step, Measure;
    if actions != [] {
      var before := actions[..|actions| - 1];
      RunsAreBounded(cfg, requests, before);
      InvRun(cfg, requests, before);
      hide Inv;
      StepDecreases(cfg, Run(cfg, Initial(cfg, requests), before).value, actions[|actions| - 1]);
    }
  }

  /** A run with at most `d` disconnects that cannot be continued has settled every request. With
      `RunsAreBounded`: every run, however scheduled, ends with all requests served, refused or left. */
  lemma MaximalRunsComplete(cfg: Config, requests: seq<Spec>, actions: seq<Action>, d: nat)
    requires Room(cfg, d) && cfg.threadLimit >= 1
    requires Run(cfg, Initial(cfg, requests), actions).Some? && Disconnects(actions) <= d
    requires forall a :: !Enabled(cfg, Run(cfg, Initial(cfg, requests), actions).value, a)
    ensures AllSettled(Run(cfg, Initial(cfg, requests), actions).value)
  {
    InvRun(cfg, requests, actions);
    NoJamRun(cfg, requests, actions);
    var st := Run(cfg, Initial(cfg, requests), actions).value;
    hide Inv, Run, Enabled, NoJam;
    if !AllSettled(st) {
      Progress(cfg, st);
    }
  }
}
