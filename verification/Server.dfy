/** The threads of a server as one step system: the reactor thread in
    `Server::work`, the pool threads, the owner of the pool, and whoever calls
    `set_exit_flag` or `interrupt`. A step is what one thread does between two
    points where another one can be seen to act. */
module Server {
  import opened Text
  import M = Messages
  import E = Execution

  /** A connection is known by a number that no other living one has. */
  datatype Fd = Interrupter | Listener | Client(id: nat)
  datatype Mask = Mask(input: bool, output: bool)
  type Table = map<Fd, Mask>

  /** A `Pool_executor`; `serial` stands for the identity of the object. */
  datatype Executor = Executor(serial: nat, client: nat)
  datatype Answer = Answer(executor: Executor, response: M.Response)

  /** Where a pool thread is in its loop. Rechecking is the one point where it
      stands still while it holds `req_queue_lock`. */
  datatype Worker =
    | AtTop
    | Waiting
    | Woken
    | Rechecking
    | Busy(executor: Executor)
    | Responded(executor: Executor)
    | Exited

  /** Where the reactor thread is in `Server::work`. In Dispatching, `ready` has the
      events of the batch that are still to be handled, and `client` is the connection
      whose request is being handled. */
  datatype Phase =
    | Stopped
    | AtCheck
    | Leaving
    | BeforePoll
    | Polling(snapshot: Table)
    | Dispatching(ready: Table, client: Option<nat>)

  /** The destructor of the pool; from FlagSet until Broadcast it holds
      `destructor_lock`. */
  datatype Destruction = Alive | FlagSet | Broadcast

  datatype State = State(
    workers: seq<Worker>,
    queue: seq<Executor>,
    destruction: Destruction,
    phase: Phase,
    table: Table,
    clients: set<nat>,
    bytes: nat,
    exitFlag: bool,
    stoppers: nat,
    // history: connections with an answer, or with a response that was scheduled while
    // their request is still being read, that is not all written
    unwritten: set<nat>,
    interim: set<nat>,
    // history of the executors
    registered: seq<Executor>,
    taken: seq<Executor>,
    answers: seq<Answer>)

  datatype Step =
    // a pool thread
    | TakeLock(w: nat)
    | SpuriousWake(w: nat)
    | Relock(w: nat)
    | Recheck(w: nat)
    | Respond(w: nat, outcome: E.Outcome)
    | Interrupt(w: nat)
    // the owner of the pool
    | AddThreads(n: nat)
    | SetDestroyed
    | NotifyAll
    // the reactor thread, around the loop
    | StartWork
    | CheckExit
    | LeaveWork
    | TakeSnapshot
    | PollReturns(ready: Table)
    | EndBatch
    // the reactor thread, in the handler of a ready descriptor
    | ReadByte
    | AcceptClient(accepted: Option<nat>)
    | ReadSome(c: nat, respond: bool)
    | BeginRequest(c: nat)
    | Submit(woken: Option<nat>)
    | AnswerNow
    | WriteSome(c: nat)
    | WriteAll(c: nat, keepAlive: bool)
    | CloseClient(c: nat)
    // any other thread
    | SetExitFlag
    | StopInterrupt
    | CallInterrupt

  // ----- The reactor's table ------------------------------------------------

  const INPUT := Mask(true, false)
  const OUTPUT := Mask(false, true)

  function Register(t: Table, fd: Fd, m: Mask): Table {
    if fd in t then t[fd := Mask(t[fd].input || m.input, t[fd].output || m.output)]
    else t[fd := m]
  }

  /** Either form of `unregister_handler`: `mask &= !mask` leaves nothing set, so
      the entry goes whatever the mask says. */
  function Unregister(t: Table, fd: Fd): Table {
    t - {fd}
  }

  /** Everything asked for in `t` is asked for in `u`. */
  predicate Covers(u: Table, t: Table) {
    forall fd :: fd in t ==> fd in u && (t[fd].input ==> u[fd].input) && (t[fd].output ==> u[fd].output)
  }

  // ----- Steps --------------------------------------------------------------

  /** `req_queue_lock` is held by a thread that stands still. */
  predicate LockHeld(s: State) {
    exists w :: 0 <= w < |s.workers| && s.workers[w] == Rechecking
  }

  predicate At(s: State, w: nat, pc: Worker) {
    w < |s.workers| && s.workers[w] == pc
  }

  /** The handler of `fd` is the next one in the batch. */
  predicate Handling(s: State, fd: Fd) {
    s.phase.Dispatching? && s.phase.client == None && fd in s.phase.ready
  }

  predicate HandlingInput(s: State, fd: Fd) {
    Handling(s, fd) && s.phase.ready[fd].input
  }

  /** Output is handled only where there is no input. */
  predicate HandlingOutput(s: State, fd: Fd) {
    Handling(s, fd) && s.phase.ready[fd].output && !s.phase.ready[fd].input
  }

  /** What `poll` may report: input where it was asked for, and output on connections,
      asked for or not, because errors count as that. */
  predicate CanFire(snapshot: Table, fd: Fd, events: Mask) {
    && fd in snapshot && (events.input || events.output)
    && (events.input ==> snapshot[fd].input) && (events.output ==> fd.Client?)
  }

  /** The thread that `notify_one` wakes, when one waits. */
  predicate WakesOne(s: State, woken: Option<nat>) {
    match woken
    case Some(w) => At(s, w, Waiting)
    case None => forall w :: 0 <= w < |s.workers| ==> s.workers[w] != Waiting
  }

  predicate Enabled(s: State, step: Step) {
    match step
    case TakeLock(w) => At(s, w, AtTop) && !LockHeld(s)
    case SpuriousWake(w) => At(s, w, Waiting)
    case Relock(w) => At(s, w, Woken) && !LockHeld(s)
    case Recheck(w) => At(s, w, Rechecking) && s.destruction != FlagSet
    case Respond(w, _) => w < |s.workers| && s.workers[w].Busy?
    case Interrupt(w) => w < |s.workers| && s.workers[w].Responded?
    case AddThreads(_) => s.destruction == Alive
    case SetDestroyed => s.destruction == Alive
    case NotifyAll => s.destruction == FlagSet && !LockHeld(s)
    case StartWork => s.phase == Stopped
    case CheckExit => s.phase == AtCheck
    case LeaveWork => s.phase == Leaving
    case TakeSnapshot => s.phase == BeforePoll
    case PollReturns(ready) =>
      && s.phase.Polling?
      && (forall fd :: fd in ready ==> CanFire(s.phase.snapshot, fd, ready[fd]))  // none, if a signal has interrupted it
      && (Interrupter in ready ==> s.bytes > 0)
    case EndBatch => s.phase == Dispatching(map[], None)
    case ReadByte => HandlingInput(s, Interrupter)
    case AcceptClient(accepted) =>
      HandlingInput(s, Listener) && (accepted.Some? ==> accepted.value !in s.clients)
    case ReadSome(c, _) => HandlingInput(s, Client(c))
    case BeginRequest(c) => HandlingInput(s, Client(c))
    case Submit(woken) => s.phase.Dispatching? && s.phase.client.Some? && !LockHeld(s) && WakesOne(s, woken)
    case AnswerNow => s.phase.Dispatching? && s.phase.client.Some?
    case WriteSome(c) => HandlingOutput(s, Client(c))
    case WriteAll(c, _) => HandlingOutput(s, Client(c))
    case CloseClient(c) => Handling(s, Client(c))
    case SetExitFlag => true
    case StopInterrupt => s.stoppers > 0
    case CallInterrupt => true
  }

  function SetWorker(s: State, w: nat, pc: Worker): State
    requires w < |s.workers|
  {
    s.(workers := s.workers[w := pc])
  }

  /** The front of the queue goes to thread `w`. */
  function Pop(s: State, w: nat): State
    requires w < |s.workers| && s.queue != []
  {
    s.(workers := s.workers[w := Busy(s.queue[0])], queue := s.queue[1..], taken := s.taken + [s.queue[0]])
  }

  function WakeAll(workers: seq<Worker>): (r: seq<Worker>)
    ensures |r| == |workers|
    ensures forall i :: 0 <= i < |r| ==> r[i] == if workers[i] == Waiting then Woken else workers[i]
  {
    seq(|workers|, i requires 0 <= i < |workers| => if workers[i] == Waiting then Woken else workers[i])
  }

  /** The handler of `fd` is done; the table is `t` now. */
  function Handled(s: State, fd: Fd, t: Table): State
    requires s.phase.Dispatching?
  {
    s.(phase := Dispatching(s.phase.ready - {fd}, None), table := t)
  }

  /** Nothing is left to write for the connection. */
  function Written(s: State, c: nat, t: State): State {
    t.(unwritten := s.unwritten - {c}, interim := s.interim - {c})
  }

  function Closed(s: State, c: nat): State
    requires s.phase.Dispatching?
  {
    Written(s, c, Handled(s, Client(c), Unregister(s.table, Client(c))).(clients := s.clients - {c}))
  }

  /** `register_executor` for the connection being handled. */
  function Enqueue(s: State, woken: Option<nat>): State
    requires s.phase.Dispatching? && s.phase.client.Some?
    requires woken.Some? ==> woken.value < |s.workers|
  {
    var e := Executor(|s.registered|, s.phase.client.value);
    s.(queue := s.queue + [e], registered := s.registered + [e],
       workers := if woken.Some? then s.workers[woken.value := Woken] else s.workers,
       phase := Dispatching(s.phase.ready, None))
  }

  predicate IsWorkerStep(step: Step) {
    step.TakeLock? || step.SpuriousWake? || step.Relock? || step.Recheck? || step.Respond? || step.Interrupt?
  }

  function WorkerStep(s: State, step: Step): State
    requires IsWorkerStep(step) && Enabled(s, step)
  {
    match step
    case TakeLock(w) => if s.queue == [] then SetWorker(s, w, Waiting) else Pop(s, w)
    case SpuriousWake(w) => SetWorker(s, w, Woken)
    case Relock(w) => SetWorker(s, w, Rechecking)
    case Recheck(w) =>
      if s.destruction != Alive then SetWorker(s, w, Exited)
      else if s.queue == [] then SetWorker(s, w, AtTop)
      else Pop(s, w)
    case Respond(w, outcome) =>
      var e := s.workers[w].executor;
      SetWorker(s, w, Responded(e)).(
        table := Register(s.table, Client(e.client), OUTPUT),
        unwritten := s.unwritten + {e.client},
        answers := s.answers + [Answer(e, E.PoolResponse(outcome))])
    case Interrupt(w) => SetWorker(s, w, AtTop).(bytes := s.bytes + 1)
  }

  predicate IsLoopStep(step: Step) {
    step.StartWork? || step.CheckExit? || step.LeaveWork? || step.TakeSnapshot? || step.PollReturns? || step.EndBatch?
  }

  function LoopStep(s: State, step: Step): State
    requires IsLoopStep(step) && Enabled(s, step)
  {
    match step
    case StartWork => s.(phase := AtCheck, table := Register(s.table, Listener, INPUT))
    case CheckExit => s.(phase := if s.exitFlag then Leaving else BeforePoll)
    case LeaveWork => s.(phase := Stopped, table := Unregister(s.table, Listener), exitFlag := false)
    case TakeSnapshot => s.(phase := Polling(s.table))
    case PollReturns(ready) => s.(phase := Dispatching(ready, None))
    case EndBatch => s.(phase := AtCheck)
  }

  predicate IsHandlerStep(step: Step) {
    || step.ReadByte? || step.AcceptClient? || step.ReadSome? || step.BeginRequest? || step.Submit?
    || step.AnswerNow? || step.WriteSome? || step.WriteAll? || step.CloseClient?
  }

  function HandlerStep(s: State, step: Step): State
    requires IsHandlerStep(step) && Enabled(s, step)
  {
    match step
    case ReadByte => Handled(s, Interrupter, s.table).(bytes := if s.bytes > 0 then s.bytes - 1 else 0)
    case AcceptClient(Some(c)) =>
      Handled(s, Listener, Register(s.table, Client(c), INPUT)).(clients := s.clients + {c})
    case AcceptClient(None) => Handled(s, Listener, s.table)
    case ReadSome(c, true) =>
      Handled(s, Client(c), Register(s.table, Client(c), OUTPUT)).(interim := s.interim + {c})
    case ReadSome(c, false) => Handled(s, Client(c), s.table)
    case BeginRequest(c) =>
      Handled(s, Client(c), Unregister(s.table, Client(c))).(
        phase := Dispatching(s.phase.ready - {Client(c)}, Some(c)),
        interim := s.interim - {c})
    case Submit(woken) => Enqueue(s, woken)
    case AnswerNow =>
      s.(phase := Dispatching(s.phase.ready, None),
         table := Register(s.table, Client(s.phase.client.value), OUTPUT),
         unwritten := s.unwritten + {s.phase.client.value})
    case WriteSome(c) => Handled(s, Client(c), s.table)
    case WriteAll(c, true) =>
      Written(s, c, Handled(s, Client(c), Register(Unregister(s.table, Client(c)), Client(c), INPUT)))
    case WriteAll(c, false) => Closed(s, c)
    case CloseClient(c) => Closed(s, c)
  }

  function OtherStep(s: State, step: Step): State
    requires !IsWorkerStep(step) && !IsLoopStep(step) && !IsHandlerStep(step) && Enabled(s, step)
  {
    match step
    case AddThreads(n) => s.(workers := s.workers + seq(n, _ => AtTop))
    case SetDestroyed => s.(destruction := FlagSet)
    case NotifyAll => s.(destruction := Broadcast, workers := WakeAll(s.workers))
    case SetExitFlag => s.(exitFlag := true, stoppers := s.stoppers + 1)
    case StopInterrupt => s.(stoppers := s.stoppers - 1, bytes := s.bytes + 1)
    case CallInterrupt => s.(bytes := s.bytes + 1)
  }

  function Next(s: State, step: Step): State
    requires Enabled(s, step)
  {
    if IsWorkerStep(step) then WorkerStep(s, step)
    else if IsLoopStep(step) then LoopStep(s, step)
    else if IsHandlerStep(step) then HandlerStep(s, step)
    else OtherStep(s, step)
  }

  // ----- Runs ---------------------------------------------------------------

  /** A server that was built and has not been started, without pool threads:
      `add_threads` makes those. */
  const INITIAL := State(
    [], [], Alive, Stopped, map[Interrupter := INPUT], {}, 0, false, 0, {}, {}, [], [], [])

  predicate CanRun(s: State, steps: seq<Step>)
    decreases |steps|
  {
    steps == [] || (Enabled(s, steps[0]) && CanRun(Next(s, steps[0]), steps[1..]))
  }

  function Run(s: State, steps: seq<Step>): State
    requires CanRun(s, steps)
    decreases |steps|
  {
    if steps == [] then s else Run(Next(s, steps[0]), steps[1..])
  }
}
