/** The protocol between the admission counter (`ConcurrencyMiddleware`), the shared semaphore
    (`run_bounded`), the default thread pool, and a streaming turn's producer and draining reader
    (`_ask_turn_streaming_stages`), as a transition system over any number of requests. */
module Streaming {
  import opened Options
  import opened Ordered

  /** One `on_stage(name, state)` call of the turn engine. */
  datatype Transition = Transition(stage: string, state: string)

  /** What a request will do: the stage transitions of its turn and whether the turn returns. */
  datatype Spec = Spec(streaming: bool, script: seq<Transition>, turnReturns: bool)

  /** `maxConcurrent` admission slots, `threadLimit` semaphore permits, `poolSize` pool threads. */
  datatype Config = Config(maxConcurrent: nat, threadLimit: nat, poolSize: nat)

  /** Queue items are `Stage` and the sentinel `Done`; a client sees `Stage`, then `Turn` or `Failed`. */
  datatype Message = Stage(step: string, state: string) | Done | Turn | Failed

  datatype Phase = Pending | Active | Refused | Finished | Disconnected

  /** The coroutine `run_bounded(run)` and the function it runs on a pool thread. A fresh one is a task
      that was created and has not made its first step; one that waits is in the semaphore's queue. An
      orphan runs on after its coroutine was cancelled and gave the permit back. */
  datatype Worker =
    NotStarted | Fresh | Waiting | Queued | Running | Ending | Returned | Released | Orphan | OrphanEnding

  /** The draining loop and its `events.get` on a pool thread. */
  datatype Reader =
    NoReader | Idle | GetQueued | Getting | Holding(item: Message) | Awaiting | Closed | OrphanGetting

  datatype Stream = Stream(spec: Spec, phase: Phase, worker: Worker, reader: Reader,
                           emitted: nat, queue: seq<Message>, frames: seq<Message>)

  /** A call handed to the executor and not yet on a thread. */
  datatype Job = Work(i: nat) | Get(i: nat)

  /** `permits` are the free ones and `waiters` the semaphore's queue; `due` are the tasks whose first
      step is due, in the order of the event loop; `pool` is the executor's queue, `busy` its occupied
      threads. */
  datatype State = State(streams: seq<Stream>, active: int, permits: int, waiters: seq<nat>, due: seq<nat>,
                         pool: seq<Job>, busy: int)

  datatype Action =
    | Admit(i: nat) | Refuse(i: nat) | Begin(i: nat) | First(i: nat) | Acquire(i: nat) | SubmitGet(i: nat) | StartJob
    | Emit(i: nat) | PutDone(i: nat) | Return(i: nat) | Release(i: nat)
    | Take(i: nat) | Deliver(i: nat) | Finish(i: nat) | Disconnect(i: nat)

  // ---- the stage map ----------------------------------------------------------------------

  /** `_STAGE_TO_UI_STEP`. */
  function UiStep(stage: string): Option<string> {
    if stage == "plan" || stage == "prompt" then Some("understand")
    else if stage == "llm" then Some("generate")
    else if stage == "guard" then Some("validate")
    else if stage == "execute" || stage == "interpret" then Some(stage)
    else None
  }

  /** What `on_stage` puts on the queue. */
  function OnStage(t: Transition): seq<Message> {
    match UiStep(t.stage)
    case Some(step) => [Stage(step, t.state)]
    case None => []
  }

  function Mapped(script: seq<Transition>): seq<Message> {
    if script == [] then [] else OnStage(script[0]) + Mapped(script[1..])
  }

  /** Everything the client of a finished request has seen, in order. */
  function CompleteOutput(spec: Spec): seq<Message> {
    (if spec.streaming then Mapped(spec.script) else []) + [if spec.turnReturns then Turn else Failed]
  }

  // ---- steps --------------------------------------------------------------------------------

  function NewStream(spec: Spec): Stream { Stream(spec, Pending, NotStarted, NoReader, 0, [], []) }

  function Initial(cfg: Config, requests: seq<Spec>): State {
    State(seq(|requests|, i requires 0 <= i < |requests| => NewStream(requests[i])),
          0, cfg.threadLimit, [], [], [], 0)
  }

  function Update(st: State, i: nat, s: Stream): State
    requires i < |st.streams|
  {
    st.(streams := st.streams[i := s])
  }

  /** `_try_acquire` accepts. */
  function AdmitStep(cfg: Config, st: State, i: nat): Option<State>
    requires i < |st.streams|
  {
    var s := st.streams[i];
    if !(s.phase.Pending? && st.active < cfg.maxConcurrent) then None
    else Some(Update(st, i, s.(phase := Active)).(active := st.active + 1))
  }

  function RefuseStep(cfg: Config, st: State, i: nat): Option<State>
    requires i < |st.streams|
  {
    var s := st.streams[i];
    if s.phase.Pending? && st.active >= cfg.maxConcurrent then Some(Update(st, i, s.(phase := Refused))) else None
  }

  /** A permit was given back and its first waiter has not taken it up. The waiter's step is due before
      any that a request makes later, so no request acquires or reads in between. */
  predicate HandOver(st: State) { st.permits > 0 && st.waiters != [] }

  /** A permit that is free goes to the worker at once, its function to the executor; without one the
      worker joins the semaphore's queue. */
  function AcquireOrWait(st: State, i: nat): State
    requires i < |st.streams|
  {
    var s := st.streams[i];
    if st.permits > 0 then
      Update(st, i, s.(worker := Queued)).(permits := st.permits - 1, pool := st.pool + [Work(i)])
    else Update(st, i, s.(worker := Waiting)).(waiters := st.waiters + [i])
  }

  /** The handler gets to its turn. A streaming one creates the worker's task, whose first step is then
      due, and hands the first `events.get` to the executor; a plain one is the worker itself. */
  function BeginStep(st: State, i: nat): Option<State>
    requires i < |st.streams|
  {
    var s := st.streams[i];
    if !(s.phase.Active? && s.worker.NotStarted?) || HandOver(st) then None
    else if s.spec.streaming then
      Some(Update(st, i, s.(worker := Fresh, reader := GetQueued)).(due := st.due + [i], pool := st.pool + [Get(i)]))
    else Some(AcquireOrWait(st, i))
  }

  /** The first step of the oldest fresh task. */
  function FirstStep(st: State, i: nat): Option<State>
    requires i < |st.streams|
  {
    if st.due == [] || st.due[0] != i || !st.streams[i].worker.Fresh? || HandOver(st) then None
    else Some(AcquireOrWait(st, i).(due := st.due[1..]))
  }

  /** The first waiter takes up a permit that was given back. */
  function AcquireStep(st: State, i: nat): Option<State>
    requires i < |st.streams|
  {
    if !HandOver(st) || st.waiters[0] != i || !st.streams[i].worker.Waiting? then None
    else Some(AcquireOrWait(st, i).(waiters := st.waiters[1..]))
  }

  /** The draining loop goes for the next item. */
  function SubmitGetStep(st: State, i: nat): Option<State>
    requires i < |st.streams|
  {
    var s := st.streams[i];
    if !s.reader.Idle? || HandOver(st) then None
    else Some(Update(st, i, s.(reader := GetQueued)).(pool := st.pool + [Get(i)]))
  }

  /** A free thread takes the oldest call of the executor's queue. */
  function StartJobStep(cfg: Config, st: State): Option<State> {
    if st.pool == [] || st.busy >= cfg.poolSize || st.pool[0].i >= |st.streams| then None
    else
      var i := st.pool[0].i;
      var s' := match st.pool[0]
                case Work(_) => st.streams[i].(worker := Running)
                case Get(_) => st.streams[i].(reader := Getting);
      Some(Update(st, i, s').(pool := st.pool[1..], busy := st.busy + 1))
  }

  /** The engine passes one stage boundary on its thread. */
  function EmitStep(st: State, i: nat): Option<State>
    requires i < |st.streams|
  {
    var s := st.streams[i];
    if !((s.worker.Running? || s.worker.Orphan?) && s.emitted < |s.spec.script|) then None
    else
      var put := if s.spec.streaming then OnStage(s.spec.script[s.emitted]) else [];
      Some(Update(st, i, s.(emitted := s.emitted + 1, queue := s.queue + put)))
  }

  /** The turn returned or raised; the `finally` puts the sentinel. */
  function PutDoneStep(st: State, i: nat): Option<State>
    requires i < |st.streams|
  {
    var s := st.streams[i];
    if !((s.worker.Running? || s.worker.Orphan?) && s.emitted == |s.spec.script|) then None
    else
      var put := if s.spec.streaming then [Done] else [];
      Some(Update(st, i, s.(worker := if s.worker.Running? then Ending else OrphanEnding, queue := s.queue + put)))
  }

  /** The worker's thread goes back to the pool. */
  function ReturnStep(st: State, i: nat): Option<State>
    requires i < |st.streams|
  {
    var s := st.streams[i];
    if s.worker.Ending? then Some(Update(st, i, s.(worker := Returned)).(busy := st.busy - 1))
    else if s.worker.OrphanEnding? then Some(Update(st, i, s.(worker := Released)).(busy := st.busy - 1))
    else None
  }

  function ReleaseStep(st: State, i: nat): Option<State>
    requires i < |st.streams|
  {
    var s := st.streams[i];
    if !s.worker.Returned? then None
    else Some(Update(st, i, s.(worker := Released)).(permits := st.permits + 1))
  }

  /** `events.get` returns an item and its thread goes back; an orphaned get drops it. */
  function TakeStep(st: State, i: nat): Option<State>
    requires i < |st.streams|
  {
    var s := st.streams[i];
    if !((s.reader.Getting? || s.reader.OrphanGetting?) && s.queue != []) then None
    else
      var reader := if s.reader.Getting? then Holding(s.queue[0]) else Closed;
      Some(Update(st, i, s.(reader := reader, queue := s.queue[1..])).(busy := st.busy - 1))
  }

  /** The draining loop yields the item, or leaves at the sentinel. */
  function DeliverStep(st: State, i: nat): Option<State>
    requires i < |st.streams|
  {
    var s := st.streams[i];
    if !s.reader.Holding? then None
    else if s.reader.item == Done then Some(Update(st, i, s.(reader := Awaiting)))
    else Some(Update(st, i, s.(reader := Idle, frames := s.frames + [s.reader.item])))
  }

  /** `await task` gives the turn or its exception; the response ends and `_release` runs. */
  function FinishStep(st: State, i: nat): Option<State>
    requires i < |st.streams|
  {
    var s := st.streams[i];
    if !(s.phase.Active? && s.worker.Released? && (s.spec.streaming ==> s.reader.Awaiting?)) then None
    else
      var s' := s.(phase := Finished, reader := if s.spec.streaming then Closed else NoReader,
                   frames := s.frames + [if s.spec.turnReturns then Turn else Failed]);
      Some(Update(st, i, s').(active := st.active - 1))
  }

  /** The worker behind a cancelled wait: a function on a thread runs on as an orphan, any other is
      dropped; a permit in use is given back. */
  function Cancelled(w: Worker): Worker {
    match w
    case Running => Orphan
    case Ending => OrphanEnding
    case _ => Released
  }

  function PermitBack(w: Worker): int {
    if w.Queued? || w.Running? || w.Ending? || w.Returned? then 1 else 0
  }

  /** The client goes away. The slot is released at once. A streaming reader is cancelled (a get
      already on a thread stays there), but not before the worker's first step, which was due earlier;
      its worker task is cancelled only if the reader already awaits it. A plain request's own wait is
      cancelled. */
  function DisconnectStep(st: State, i: nat): Option<State>
    requires i < |st.streams|
  {
    var s := st.streams[i];
    if !s.phase.Active? || s.worker.Fresh? then None
    else if s.spec.streaming then
      var cancelled := s.reader.Awaiting? || s.worker.NotStarted?;
      var reader := if s.reader.Getting? then OrphanGetting else Closed;
      var worker := if cancelled then Cancelled(s.worker) else s.worker;
      var st' := Update(st, i, s.(phase := Disconnected, worker := worker, reader := reader));
      Some(st'.(active := st.active - 1,
                permits := st.permits + if cancelled then PermitBack(s.worker) else 0,
                pool := if s.reader.GetQueued? then Without(st.pool, Get(i)) else st.pool))
    else
      Some(Update(st, i, s.(phase := Disconnected, worker := Cancelled(s.worker))).(
             active := st.active - 1, permits := st.permits + PermitBack(s.worker),
             waiters := if s.worker.Waiting? then Without(st.waiters, i) else st.waiters,
             pool := if s.worker.Queued? then Without(st.pool, Work(i)) else st.pool))
  }

  function Step(cfg: Config, st: State, a: Action): Option<State> {
    if a.StartJob? then StartJobStep(cfg, st)
    else if a.i >= |st.streams| then None
    else
      match a
      case Admit(i) => AdmitStep(cfg, st, i)
      case Refuse(i) => RefuseStep(cfg, st, i)
      case Begin(i) => BeginStep(st, i)
      case First(i) => FirstStep(st, i)
      case Acquire(i) => AcquireStep(st, i)
      case SubmitGet(i) => SubmitGetStep(st, i)
      case Emit(i) => EmitStep(st, i)
      case PutDone(i) => PutDoneStep(st, i)
      case Return(i) => ReturnStep(st, i)
      case Release(i) => ReleaseStep(st, i)
      case Take(i) => TakeStep(st, i)
      case Deliver(i) => DeliverStep(st, i)
      case Finish(i) => FinishStep(st, i)
      case Disconnect(i) => DisconnectStep(st, i)
  }

  /** The state a sequence of actions leads to, if each is enabled in its turn. */
  function Run(cfg: Config, st: State, actions: seq<Action>): Option<State>
    decreases |actions|
  {
    if actions == [] then Some(st)
    else
      match Run(cfg, st, actions[..|actions| - 1])
      case None => None
      case Some(mid) => Step(cfg, mid, actions[|actions| - 1])
  }
}
