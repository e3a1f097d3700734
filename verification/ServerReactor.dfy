/** The reactor thread against all the others: its table, the connections and
    who may touch them, and the wake-ups it must not miss. */
module ServerReactor {
  import opened Text
  import opened Server
  import opened ServerHistory
  import E = Execution
  import ServerPool

  // ----- The table ----------------------------------------------------------

  /** The connection whose request the reactor thread is handling. */
  function Current(s: State): Option<nat> {
    if s.phase.Dispatching? then s.phase.client else None
  }

  /** What is left of a batch can still be dispatched, and input only to those that are
      still registered for input. */
  ghost predicate StillAsked(ready: Table, table: Table) {
    forall fd :: fd in ready ==> fd in table && (ready[fd].input ==> table[fd].input)
  }

  ghost predicate TableKept(s: State) {
    && Interrupter in s.table && s.table[Interrupter].input
    && (s.phase != Stopped ==> Listener in s.table && s.table[Listener].input)
    && (s.phase == Stopped ==> Listener !in s.table)
    && (s.phase.Polling? ==>
      Covers(s.table, s.phase.snapshot) && Interrupter in s.phase.snapshot && s.phase.snapshot[Interrupter].input)
    && (s.phase.Dispatching? ==> StillAsked(s.phase.ready, s.table))
    && (Current(s).Some? ==> Client(Current(s).value) !in s.table)
  }

  // ----- The connections ----------------------------------------------------

  /** An executor that was registered and has not answered. */
  ghost predicate Pending(s: State, k: nat) {
    k < |s.registered| && !Answered(s, k)
  }

  ghost predicate PendingFor(s: State, k: nat, c: nat) {
    Pending(s, k) && s.registered[k].client == c
  }

  /** A living connection is with the reactor, or in the hands of the reactor
      thread, or waits for the answer of one executor. */
  ghost predicate OneOwner(s: State) {
    && (forall c: nat :: Client(c) in s.table ==> c in s.clients)
    && (Current(s).Some? ==> Current(s).value in s.clients)
    && (forall k: nat, c: nat :: PendingFor(s, k, c) ==> c in s.clients && Client(c) !in s.table && Current(s) != Some(c))
    && (forall k: nat, j: nat, c: nat :: PendingFor(s, k, c) && PendingFor(s, j, c) ==> k == j)
  }

  ghost predicate Owned(s: State, c: nat) {
    Client(c) in s.table || Current(s) == Some(c) || exists k: nat :: PendingFor(s, k, c)
  }

  ghost predicate NoneForgotten(s: State) {
    forall c :: c in s.clients ==> Owned(s, c)
  }

  ghost predicate Owners(s: State) {
    OneOwner(s) && NoneForgotten(s)
  }

  // ----- What connections are polled for --------------------------------------

  /** Output alone while an answer is unwritten; output as well as input while an interim
      response is, or an error about a request that is still being read; or else input. */
  function AskedFor(s: State, c: nat): Mask {
    if c in s.unwritten then Mask(false, true)
    else if c in s.interim then Mask(true, true)
    else Mask(true, false)
  }

  ghost predicate AsksRight(s: State, c: nat) {
    && (Client(c) in s.table ==> s.table[Client(c)] == AskedFor(s, c))
    && (c in s.unwritten || c in s.interim ==> Client(c) in s.table)
    && !(c in s.unwritten && c in s.interim)
  }

  ghost predicate AllAskRight(s: State) {
    forall c: nat :: AsksRight(s, c)
  }

  // ----- The interrupter ----------------------------------------------------

  ghost predicate SomeoneResponded(s: State) {
    exists w: nat :: w < |s.workers| && s.workers[w].Responded?
  }

  /** What makes the reactor thread look again: a byte to read, or a thread that is
      about to send one. */
  ghost predicate StopIsSeen(s: State) {
    (s.phase == BeforePoll || s.phase.Polling?) && s.exitFlag ==> s.bytes > 0 || s.stoppers > 0
  }

  ghost predicate ResponseIsSeen(s: State) {
    s.phase.Polling? && !Covers(s.phase.snapshot, s.table) ==> s.bytes > 0 || SomeoneResponded(s)
  }

  ghost predicate Safe(s: State) {
    History(s) && TableKept(s) && Owners(s) && AllAskRight(s) && StopIsSeen(s) && ResponseIsSeen(s)
  }

  // ----- Every step keeps them ----------------------------------------------

  lemma WorkerKeepsTable(s: State, step: Step)
    requires History(s) && TableKept(s) && OneOwner(s) && Enabled(s, step) && IsWorkerStep(step)
    ensures TableKept(Next(s, step))
  {
    if step.Respond? {
      var e := s.workers[step.w].executor;
      assert RunsOn(s, e.serial, step.w);
      assert PendingFor(s, e.serial, e.client);
    }
  }

  /** Nothing but the entry of `fd` differs. */
  ghost predicate OnlyAt(t: Table, u: Table, fd: Fd) {
    forall g :: g != fd ==> (g in t <==> g in u) && (g in t ==> u[g] == t[g])
  }

  lemma RestIsAsked(ready: Table, t: Table, u: Table, fd: Fd)
    requires StillAsked(ready, t) && OnlyAt(t, u, fd)
    ensures StillAsked(ready - {fd}, u)
  {
  }

  lemma MoreIsAsked(ready: Table, t: Table, fd: Fd, m: Mask)
    requires StillAsked(ready, t)
    ensures StillAsked(ready, Register(t, fd, m))
  {
  }

  /** The connection of a handler step that is about one. */
  function Subject(s: State, step: Step): Option<nat> {
    match step
    case AcceptClient(accepted) => accepted
    case ReadSome(c, _) => Some(c)
    case BeginRequest(c) => Some(c)
    case Submit(_) => Current(s)
    case AnswerNow => Current(s)
    case WriteSome(c) => Some(c)
    case WriteAll(c, _) => Some(c)
    case CloseClient(c) => Some(c)
    case _ => None
  }

  ghost predicate ChangesOne(s: State, step: Step)
    requires Enabled(s, step)
  {
    var u := Next(s, step).table;
    match Subject(s, step)
    case Some(c) => OnlyAt(s.table, u, Client(c))
    case None => u == s.table
  }

  predicate IsWriting(step: Step) {
    step.WriteSome? || step.WriteAll? || step.CloseClient?
  }

  lemma WritersChangeOne(s: State, step: Step)
    requires Enabled(s, step) && IsWriting(step)
    ensures ChangesOne(s, step)
  {
  }

  lemma HandlersChangeOne(s: State, step: Step)
    requires Enabled(s, step) && IsHandlerStep(step)
    ensures ChangesOne(s, step)
  {
    if IsWriting(step) {
      WritersChangeOne(s, step);
    }
  }

  lemma HandlerKeepsReady(s: State, step: Step)
    requires s.phase.Dispatching? && StillAsked(s.phase.ready, s.table) && Enabled(s, step) && IsHandlerStep(step)
    requires Current(s).Some? ==> Client(Current(s).value) !in s.table
    ensures var t := Next(s, step); t.phase.Dispatching? && StillAsked(t.phase.ready, t.table)
  {
    HandlersChangeOne(s, step);
    var t := Next(s, step);
    match step
    case AcceptClient(Some(c)) => MoreIsAsked(s.phase.ready, s.table, Client(c), INPUT);
    case AnswerNow => MoreIsAsked(s.phase.ready, s.table, Client(Current(s).value), OUTPUT);
    case ReadSome(c, _) => RestIsAsked(s.phase.ready, s.table, t.table, Client(c));
    case BeginRequest(c) => RestIsAsked(s.phase.ready, s.table, t.table, Client(c));
    case WriteSome(c) => RestIsAsked(s.phase.ready, s.table, t.table, Client(c));
    case WriteAll(c, _) => RestIsAsked(s.phase.ready, s.table, t.table, Client(c));
    case CloseClient(c) => RestIsAsked(s.phase.ready, s.table, t.table, Client(c));
    case _ =>
  }

  lemma HandlerKeepsTable(s: State, step: Step)
    requires TableKept(s) && Enabled(s, step) && IsHandlerStep(step)
    ensures TableKept(Next(s, step))
  {
    HandlerKeepsReady(s, step);
    HandlersChangeOne(s, step);
  }

  lemma OthersKeepTable(s: State, step: Step)
    requires TableKept(s) && Enabled(s, step) && !IsWorkerStep(step) && !IsHandlerStep(step)
    ensures TableKept(Next(s, step))
  {
  }

  lemma StepKeepsTable(s: State, step: Step)
    requires History(s) && TableKept(s) && OneOwner(s) && Enabled(s, step)
    ensures TableKept(Next(s, step))
  {
    if IsWorkerStep(step) {
      WorkerKeepsTable(s, step);
    } else if IsHandlerStep(step) {
      HandlerKeepsTable(s, step);
    } else {
      OthersKeepTable(s, step);
    }
  }

  lemma SamePending(s: State, t: State)
    requires t.registered == s.registered && t.answers == s.answers
    ensures forall k: nat, c: nat :: PendingFor(t, k, c) == PendingFor(s, k, c)
  {
    forall k: nat ensures Answered(t, k) == Answered(s, k) {
      if Answered(s, k) {
        var j: nat :| Answers(s, k, j);
        assert Answers(t, k, j);
      }
      if Answered(t, k) {
        var j: nat :| Answers(t, k, j);
        assert Answers(s, k, j);
      }
    }
  }

  /** No executor changes hands, and the reactor thread moves connection `c` only. */
  lemma KeepsOwners(s: State, t: State, c: nat)
    requires Owners(s) && t.registered == s.registered && t.answers == s.answers
    requires c in s.clients ==> Client(c) in s.table || Current(s) == Some(c)
    requires Current(s) in {None, Some(c)} && Current(t) in {None, Some(c)}
    requires forall d :: d != c ==> (Client(d) in t.table) == (Client(d) in s.table) && (d in t.clients) == (d in s.clients)
    requires c in t.clients <==> Client(c) in t.table || Current(t) == Some(c)
    ensures Owners(t)
  {
    SamePending(s, t);
    forall d | d in t.clients ensures Owned(t, d) {
      if d != c && Client(d) !in s.table {
        var k: nat :| PendingFor(s, k, d);
        assert PendingFor(t, k, d);
      }
    }
  }

  lemma HandlerKeepsOwners(s: State, step: Step)
    requires TableKept(s) && Owners(s) && Enabled(s, step) && IsHandlerStep(step) && !step.Submit?
    ensures Owners(Next(s, step))
  {
    var t := Next(s, step);
    match step
    case ReadByte => QuietKeepsOwners(s, t);
    case AcceptClient(Some(c)) =>
      assert Client(c) !in s.table;
      KeepsOwners(s, t, c);
    case AcceptClient(None) => QuietKeepsOwners(s, t);
    case ReadSome(c, _) => KeepsOwners(s, t, c);
    case BeginRequest(c) => KeepsOwners(s, t, c);
    case AnswerNow => KeepsOwners(s, t, s.phase.client.value);
    case WriteSome(c) => KeepsOwners(s, t, c);
    case WriteAll(c, _) => KeepsOwners(s, t, c);
    case CloseClient(c) => KeepsOwners(s, t, c);
  }

  /** Nothing moves. */
  lemma QuietKeepsOwners(s: State, t: State)
    requires Owners(s) && t.registered == s.registered && t.answers == s.answers
    requires t.clients == s.clients && Current(t) == Current(s)
    requires forall d :: (Client(d) in t.table) == (Client(d) in s.table)
    ensures Owners(t)
  {
    SamePending(s, t);
    forall d | d in t.clients ensures Owned(t, d) {
      if Client(d) !in s.table && Current(s) != Some(d) {
        var k: nat :| PendingFor(s, k, d);
        assert PendingFor(t, k, d);
      }
    }
  }

  lemma OthersMoveNothing(s: State, step: Step)
    requires Enabled(s, step) && !IsHandlerStep(step) && !step.Respond?
    ensures var t := Next(s, step);
      && t.registered == s.registered && t.answers == s.answers
      && t.clients == s.clients && Current(t) == Current(s)
      && forall d :: (Client(d) in t.table) == (Client(d) in s.table)
  {
  }

  lemma SubmitKeepsOwners(s: State, woken: Option<nat>)
    requires History(s) && TableKept(s) && Owners(s) && Enabled(s, Submit(woken))
    ensures var t := Next(s, Submit(woken)); Owners(t)
  {
    var t := Next(s, Submit(woken));
    var n := |s.registered|;
    var c0 := s.phase.client.value;
    forall j | 0 <= j < |s.answers| ensures s.answers[j].executor.serial < n {
      assert Genuine(s, s.answers[j].executor);
    }
    forall k: nat ensures Answered(t, k) == Answered(s, k) {
      if Answered(s, k) {
        var j: nat :| Answers(s, k, j);
        assert Answers(t, k, j);
      }
      if Answered(t, k) {
        var j: nat :| Answers(t, k, j);
        assert Answers(s, k, j);
      }
    }
    forall k: nat, c: nat ensures PendingFor(t, k, c) == (PendingFor(s, k, c) || (k == n && c == c0)) {
    }
    forall c | c in t.clients ensures Owned(t, c) {
      if c == c0 {
        assert PendingFor(t, n, c);
      } else if Client(c) !in s.table {
        var k: nat :| PendingFor(s, k, c);
        assert PendingFor(t, k, c);
      }
    }
  }

  lemma RespondKeepsOwners(s: State, w: nat, outcome: E.Outcome)
    requires History(s) && TableKept(s) && Owners(s) && Enabled(s, Respond(w, outcome))
    ensures var t := Next(s, Respond(w, outcome)); Owners(t)
  {
    var t := Next(s, Respond(w, outcome));
    var e := s.workers[w].executor;
    assert RunsOn(s, e.serial, w);
    assert PendingFor(s, e.serial, e.client);
    assert Answers(t, e.serial, |s.answers|);
    forall k: nat ensures Answered(t, k) == (Answered(s, k) || k == e.serial) {
      if Answered(s, k) {
        var j: nat :| Answers(s, k, j);
        assert Answers(t, k, j);
      }
      if Answered(t, k) && k != e.serial {
        var j: nat :| Answers(t, k, j);
        assert Answers(s, k, j);
      }
    }
    forall k: nat, c: nat ensures PendingFor(t, k, c) == (PendingFor(s, k, c) && k != e.serial) {
    }
    forall c | c in t.clients ensures Owned(t, c) {
      if c != e.client && Client(c) !in s.table && Current(s) != Some(c) {
        var k: nat :| PendingFor(s, k, c);
        assert PendingFor(t, k, c);
      }
    }
  }

  /** Only connection `c` is registered or written for. */
  lemma KeepsAsking(s: State, t: State, c: nat)
    requires AllAskRight(s) && OnlyAt(s.table, t.table, Client(c)) && AsksRight(t, c)
    requires forall d :: d != c ==> (d in t.unwritten <==> d in s.unwritten) && (d in t.interim <==> d in s.interim)
    ensures AllAskRight(t)
  {
    forall d: nat ensures AsksRight(t, d) {
      assert AsksRight(s, d);
    }
  }

  ghost predicate SameForClients(t: Table, u: Table) {
    forall c :: (Client(c) in u <==> Client(c) in t) && (Client(c) in t ==> u[Client(c)] == t[Client(c)])
  }

  lemma SameAsking(s: State, t: State)
    requires AllAskRight(s) && t.unwritten == s.unwritten && t.interim == s.interim
    requires SameForClients(s.table, t.table)
    ensures AllAskRight(t)
  {
    forall d: nat ensures AsksRight(t, d) {
      assert AsksRight(s, d);
    }
  }

  lemma OthersKeepAsking(s: State, step: Step)
    requires Enabled(s, step) && !IsHandlerStep(step) && !step.Respond?
    ensures var t := Next(s, step);
      t.unwritten == s.unwritten && t.interim == s.interim && SameForClients(s.table, t.table)
  {
  }

  lemma RespondKeepsAsking(s: State, w: nat, outcome: E.Outcome)
    requires History(s) && OneOwner(s) && AllAskRight(s) && Enabled(s, Respond(w, outcome))
    ensures AllAskRight(Next(s, Respond(w, outcome)))
  {
    var e := s.workers[w].executor;
    assert RunsOn(s, e.serial, w);
    assert PendingFor(s, e.serial, e.client);
    assert AsksRight(s, e.client);
    KeepsAsking(s, Next(s, Respond(w, outcome)), e.client);
  }

  /** The history changes for the connection only that the handler is about. */
  lemma HandlersWriteOne(s: State, step: Step, c: nat)
    requires Enabled(s, step) && IsHandlerStep(step) && Subject(s, step) == Some(c)
    ensures var t := Next(s, step);
      forall d :: d != c ==> (d in t.unwritten <==> d in s.unwritten) && (d in t.interim <==> d in s.interim)
  {
  }

  lemma HandlerAsks(s: State, step: Step, c: nat)
    requires TableKept(s) && OneOwner(s) && AsksRight(s, c) && Enabled(s, step) && IsHandlerStep(step)
    requires Subject(s, step) == Some(c)
    ensures AsksRight(Next(s, step), c)
  {
  }

  lemma HandlerKeepsAsking(s: State, step: Step)
    requires TableKept(s) && OneOwner(s) && AllAskRight(s) && Enabled(s, step) && IsHandlerStep(step)
    ensures AllAskRight(Next(s, step))
  {
    HandlersChangeOne(s, step);
    match Subject(s, step)
    case Some(c) =>
      assert AsksRight(s, c);
      HandlerAsks(s, step, c);
      HandlersWriteOne(s, step, c);
      KeepsAsking(s, Next(s, step), c);
    case None => SameAsking(s, Next(s, step));
  }

  lemma StepKeepsAsking(s: State, step: Step)
    requires History(s) && TableKept(s) && OneOwner(s) && AllAskRight(s) && Enabled(s, step)
    ensures AllAskRight(Next(s, step))
  {
    if step.Respond? {
      RespondKeepsAsking(s, step.w, step.outcome);
    } else if IsHandlerStep(step) {
      HandlerKeepsAsking(s, step);
    } else {
      OthersKeepAsking(s, step);
      SameAsking(s, Next(s, step));
    }
  }

  lemma WorkerKeepsWakes(s: State, step: Step)
    requires StopIsSeen(s) && ResponseIsSeen(s) && Enabled(s, step) && IsWorkerStep(step)
    ensures StopIsSeen(Next(s, step)) && ResponseIsSeen(Next(s, step))
  {
    var t := Next(s, step);
    if step.Respond? {
      assert t.workers[step.w].Responded?;
    } else if t.phase.Polling? && t.bytes == 0 && SomeoneResponded(s) {
      var v: nat :| v < |s.workers| && s.workers[v].Responded?;
      assert t.workers[v].Responded?;
    }
  }

  lemma OthersKeepWakes(s: State, step: Step)
    requires StopIsSeen(s) && ResponseIsSeen(s) && Enabled(s, step) && !IsWorkerStep(step)
    ensures StopIsSeen(Next(s, step)) && ResponseIsSeen(Next(s, step))
  {
    var t := Next(s, step);
    if t.phase.Polling? && t.bytes == 0 && SomeoneResponded(s) {
      var v: nat :| v < |s.workers| && s.workers[v].Responded?;
      assert t.workers[v].Responded?;
    }
  }

  lemma StepKeepsOwners(s: State, step: Step)
    requires History(s) && TableKept(s) && Owners(s) && Enabled(s, step)
    ensures Owners(Next(s, step))
  {
    if step.Submit? {
      SubmitKeepsOwners(s, step.woken);
    } else if step.Respond? {
      RespondKeepsOwners(s, step.w, step.outcome);
    } else if IsHandlerStep(step) {
      HandlerKeepsOwners(s, step);
    } else {
      OthersMoveNothing(s, step);
      QuietKeepsOwners(s, Next(s, step));
    }
  }

  lemma StepKeepsWakes(s: State, step: Step)
    requires StopIsSeen(s) && ResponseIsSeen(s) && Enabled(s, step)
    ensures StopIsSeen(Next(s, step)) && ResponseIsSeen(Next(s, step))
  {
    if IsWorkerStep(step) {
      WorkerKeepsWakes(s, step);
    } else {
      OthersKeepWakes(s, step);
    }
  }

  lemma StepKeepsSafe(s: State, step: Step)
    requires Safe(s) && Enabled(s, step)
    ensures Safe(Next(s, step))
  {
    StepKeepsHistory(s, step);
    StepKeepsTable(s, step);
    StepKeepsOwners(s, step);
    StepKeepsAsking(s, step);
    StepKeepsWakes(s, step);
  }

  lemma {:induction false} RunKeepsSafe(s: State, steps: seq<Step>)
    requires Safe(s) && CanRun(s, steps)
    ensures Safe(Run(s, steps))
    decreases |steps|
  {
    if steps != [] {
      StepKeepsSafe(s, steps[0]);
      RunKeepsSafe(Next(s, steps[0]), steps[1..]);
    }
  }

  // ----- What that means in every run ----------------------------------------

  /** Whenever the reactor thread is blocked in `poll` although a stop was asked
      for, or although the table asks for something it is not polling for, there
      is a byte to wake it up or the thread that asked has yet to send one. */
  lemma NoLostInterrupt(steps: seq<Step>)
    requires CanRun(INITIAL, steps) && Run(INITIAL, steps).phase.Polling?
    ensures var s := Run(INITIAL, steps);
      && (s.exitFlag ==> s.bytes > 0 || s.stoppers > 0)
      && (!Covers(s.phase.snapshot, s.table) ==> s.bytes > 0 || SomeoneResponded(s))
  {
    RunKeepsSafe(INITIAL, steps);
  }

  /** Every descriptor of a batch still has its handler when its turn comes, and
      `handle_events` always finds handlers besides the interrupter. */
  lemma HandlersAreFound(steps: seq<Step>)
    requires CanRun(INITIAL, steps)
    ensures var s := Run(INITIAL, steps);
      && (s.phase.Dispatching? ==> forall fd :: fd in s.phase.ready ==> fd in s.table)
      && (s.phase != Stopped ==> |s.table| > 1)
  {
    RunKeepsSafe(INITIAL, steps);
    var s := Run(INITIAL, steps);
    if s.phase != Stopped {
      MoreThanOne(s.table);
    }
  }

  lemma MoreThanOne(t: Table)
    requires Interrupter in t && Listener in t
    ensures |t| > 1
  {
    assert t.Keys == {Interrupter, Listener} + (t.Keys - {Interrupter, Listener});
    assert |t.Keys| == |t|;
  }

  /** The connection of an executor that is queued or runs exists, is not polled
      for, is not the one being handled and has no other such executor: nothing
      but the thread that answers will touch it, and the answer finds it alive. */
  lemma ConnectionsAreNotShared(steps: seq<Step>, k: nat)
    requires CanRun(INITIAL, steps) && k < |Run(INITIAL, steps).registered|
    requires Queued(Run(INITIAL, steps), k) || Running(Run(INITIAL, steps), k)
    ensures var s := Run(INITIAL, steps);
      var c := s.registered[k].client;
      && c in s.clients && Client(c) !in s.table && Current(s) != Some(c)
      && forall j: nat :: j < |s.registered| && j != k && (Queued(s, j) || Running(s, j)) ==> s.registered[j].client != c
  {
    RunKeepsSafe(INITIAL, steps);
    ExactlyOnce(steps, k);
    var s := Run(INITIAL, steps);
    var c := s.registered[k].client;
    assert PendingFor(s, k, c);
    forall j: nat | j < |s.registered| && j != k && (Queued(s, j) || Running(s, j)) ensures s.registered[j].client != c {
      ExactlyOnce(steps, j);
      assert PendingFor(s, j, s.registered[j].client);
    }
  }

  /** What a connection is polled for in every run, bit by bit. */
  lemma PolledFor(steps: seq<Step>, c: nat)
    requires CanRun(INITIAL, steps)
    ensures var s := Run(INITIAL, steps);
      && (Client(c) in s.table && c in s.unwritten ==> s.table[Client(c)] == Mask(false, true))
      && (Client(c) in s.table && c in s.interim ==> s.table[Client(c)] == Mask(true, true))
      && (Client(c) in s.table && c !in s.unwritten && c !in s.interim ==> s.table[Client(c)] == Mask(true, false))
      && (c in s.unwritten || c in s.interim ==> c in s.clients && Client(c) in s.table)
  {
    RunKeepsSafe(INITIAL, steps);
    assert AsksRight(Run(INITIAL, steps), c);
  }

  /** Nothing is read from a connection while an answer of its is unwritten, so no answer
      is ever overtaken by the next one. */
  lemma AnswersGoFirst(steps: seq<Step>, c: nat)
    requires CanRun(INITIAL, steps) && HandlingInput(Run(INITIAL, steps), Client(c))
    ensures c !in Run(INITIAL, steps).unwritten
  {
    RunKeepsSafe(INITIAL, steps);
    assert AsksRight(Run(INITIAL, steps), c);
  }

  /** `poll` has nothing to report about connections that could be written to. */
  ghost predicate NoOutputFires(s: State, writable: set<nat>)
    requires s.phase.Polling?
  {
    forall c :: c in writable && Client(c) in s.phase.snapshot ==> !s.phase.snapshot[Client(c)].output
  }

  /** When nothing moves any more - the reactor thread is blocked, no byte is under
      way, all threads wait, and none of the connections that would take output is polled
      for it - then nothing is left to do: the queue is empty, every request was answered,
      no answer is unwritten that could be written, what is polled for is exactly what the
      table says, every connection is in it, for input if nothing is unwritten, and no stop
      is outstanding. */
  lemma IdleMeansDone(steps: seq<Step>, writable: set<nat>)
    requires CanRun(INITIAL, steps)
    requires var s := Run(INITIAL, steps);
      && s.phase.Polling? && s.bytes == 0 && s.stoppers == 0
      && s.destruction == Alive && s.workers != []
      && (forall w :: 0 <= w < |s.workers| ==> s.workers[w] == Waiting)
      && NoOutputFires(s, writable)
    ensures var s := Run(INITIAL, steps);
      && s.queue == [] && (forall k: nat :: k < |s.registered| ==> Answered(s, k))
      && (forall c :: c in writable ==> c !in s.unwritten && c !in s.interim)
      && s.phase.snapshot == s.table && !s.exitFlag
      && (forall c :: c in s.clients ==> Client(c) in s.phase.snapshot)
      && (forall c :: c in s.clients && c !in s.unwritten ==> s.phase.snapshot[Client(c)].input)
  {
    RunKeepsSafe(INITIAL, steps);
    IdleIsAnswered(steps);
    IdleIsWritten(Run(INITIAL, steps), writable);
  }

  lemma IdleIsWritten(s: State, writable: set<nat>)
    requires Safe(s) && s.phase.Polling? && s.bytes == 0 && s.stoppers == 0 && !SomeoneResponded(s)
    requires (forall k: nat :: !Pending(s, k)) && NoOutputFires(s, writable)
    ensures s.phase.snapshot == s.table && !s.exitFlag
    ensures forall c :: c in s.clients ==> Client(c) in s.phase.snapshot
    ensures forall c :: c in writable ==> c !in s.unwritten && c !in s.interim
    ensures forall c :: c in s.clients && c !in s.unwritten ==> s.phase.snapshot[Client(c)].input
  {
    SameTables(s.phase.snapshot, s.table);
    forall c | c in s.clients ensures Client(c) in s.table && (c !in s.unwritten ==> s.table[Client(c)].input) {
      assert Owned(s, c) && AsksRight(s, c);
    }
    forall c | c in writable ensures c !in s.unwritten && c !in s.interim {
      assert AsksRight(s, c);
    }
  }

  lemma SameTables(t: Table, u: Table)
    requires Covers(t, u) && Covers(u, t)
    ensures t == u
  {
  }

  lemma IdleIsAnswered(steps: seq<Step>)
    requires CanRun(INITIAL, steps)
    requires var s := Run(INITIAL, steps);
      && s.phase.Polling? && s.destruction == Alive && s.workers != []
      && forall w :: 0 <= w < |s.workers| ==> s.workers[w] == Waiting
    ensures var s := Run(INITIAL, steps);
      s.queue == [] && forall k: nat :: k < |s.registered| ==> Answered(s, k)
  {
    RunKeepsSafe(INITIAL, steps);
    ServerPool.WorkConservation(steps);
    var s := Run(INITIAL, steps);
    assert At(s, 0, Waiting);
    ServerPool.AllWait(s.workers);
    forall k: nat | k < |s.registered| ensures Answered(s, k) {
      assert !Running(s, k);
    }
  }
}
