/** What the reactor thread can do from wherever a run has come to, as long as it is in
    its loop and not told to leave it. */
module ServerService {
  import opened Text
  import opened Server
  import opened ServerReactor
  import ServerBooks
  import ServerPool

  predicate IsReactorStep(step: Step) {
    IsLoopStep(step) || IsHandlerStep(step)
  }

  predicate AllReactorSteps(steps: seq<Step>) {
    forall i :: 0 <= i < |steps| ==> IsReactorStep(steps[i])
  }

  lemma Unfold(s: State, steps: seq<Step>)
    requires CanRun(s, steps) && steps != []
    ensures Enabled(s, steps[0]) && CanRun(Next(s, steps[0]), steps[1..])
    ensures Run(s, steps) == Run(Next(s, steps[0]), steps[1..])
  {
  }

  lemma {:induction false} RunConcat(s: State, a: seq<Step>, b: seq<Step>)
    requires CanRun(s, a) && CanRun(Run(s, a), b)
    ensures CanRun(s, a + b) && Run(s, a + b) == Run(Run(s, a), b)
    decreases |a|
  {
    if a == [] {
      assert a + b == b;
    } else {
      Unfold(s, a);
      var t := Next(s, a[0]);
      RunConcat(t, a[1..], b);
      FirstOf(a, b);
      Fold(s, a[0], a[1..] + b, t);
    }
  }

  lemma FirstOf<T>(a: seq<T>, b: seq<T>)
    requires a != []
    ensures a + b == [a[0]] + (a[1..] + b)
  {
  }

  lemma Fold(s: State, a: Step, steps: seq<Step>, t: State)
    requires Enabled(s, a) && t == Next(s, a) && CanRun(t, steps)
    ensures CanRun(s, [a] + steps) && Run(s, [a] + steps) == Run(t, steps)
  {
    ServerPool.Prepend(s, a, steps);
  }

  /** One step in front of a run of the reactor thread. */
  lemma First(s: State, a: Step, steps: seq<Step>)
    requires Enabled(s, a) && IsReactorStep(a) && CanRun(Next(s, a), steps) && AllReactorSteps(steps)
    ensures CanRun(s, [a] + steps) && Run(s, [a] + steps) == Run(Next(s, a), steps) && AllReactorSteps([a] + steps)
  {
    ServerPool.Prepend(s, a, steps);
  }

  // ----- Batches -----------------------------------------------------------------------

  /** Whatever was registered or unwritten still is. */
  ghost predicate Keeps(s: State, t: State) {
    && (forall fd :: fd in s.table ==> fd in t.table && t.table[fd] == s.table[fd])
    && s.unwritten <= t.unwritten && t.clients == s.clients && t.exitFlag == s.exitFlag
  }

  /** A handler that finds nothing to do. */
  function IdleStep(s: State, fd: Fd): Step
    requires Handling(s, fd)
  {
    match fd
    case Interrupter => ReadByte
    case Listener => AcceptClient(None)
    case Client(c) => if s.phase.ready[fd].input then ReadSome(c, false) else WriteSome(c)
  }

  lemma IdleStepHandles(s: State, fd: Fd)
    requires Handling(s, fd) && ServerBooks.IsEvent(fd, s.phase.ready[fd])
    ensures var a := IdleStep(s, fd);
      && Enabled(s, a) && IsHandlerStep(a)
      && Next(s, a).phase == Dispatching(s.phase.ready - {fd}, None) && Keeps(s, Next(s, a))
  {
  }

  lemma {:induction false} BatchCanEnd(s: State) returns (steps: seq<Step>)
    requires s.phase.Dispatching? && s.phase.client == None
    requires forall fd :: fd in s.phase.ready ==> ServerBooks.IsEvent(fd, s.phase.ready[fd])
    ensures CanRun(s, steps) && AllReactorSteps(steps)
    ensures Run(s, steps).phase == AtCheck && Keeps(s, Run(s, steps))
    decreases |s.phase.ready|
  {
    if fd :| fd in s.phase.ready {
      var a := IdleStep(s, fd);
      IdleStepHandles(s, fd);
      Fewer(s.phase.ready, fd);
      steps := BatchCanEnd(Next(s, a));
      First(s, a, steps);
      steps := [a] + steps;
    } else {
      assert s.phase.ready == map[];
      First(s, EndBatch, []);
      steps := [EndBatch] + [];
    }
  }

  lemma Fewer(ready: Table, fd: Fd)
    requires fd in ready
    ensures |ready - {fd}| < |ready|
  {
    assert (ready - {fd}).Keys == ready.Keys - {fd};
    assert |(ready - {fd}).Keys| == |ready - {fd}| && |ready.Keys| == |ready|;
  }

  /** A request that is being handled is answered at once. */
  lemma AnswersNow(s: State)
    requires TableKept(s) && Current(s).Some?
    ensures Enabled(s, AnswerNow) && Keeps(s, Next(s, AnswerNow))
    ensures Next(s, AnswerNow).phase == Dispatching(s.phase.ready, None)
  {
  }

  /** The reactor thread can come to its check. */
  lemma CheckIsReached(s: State) returns (steps: seq<Step>)
    requires TableKept(s) && ServerBooks.Orderly(s) && s.phase != Stopped && s.phase != Leaving
    ensures CanRun(s, steps) && AllReactorSteps(steps)
    ensures Run(s, steps).phase == AtCheck && Keeps(s, Run(s, steps))
  {
    match s.phase
    case AtCheck => steps := [];
    case BeforePoll =>
      steps := PollCanEnd(Next(s, TakeSnapshot));
      First(s, TakeSnapshot, steps);
      steps := [TakeSnapshot] + steps;
    case Polling(_) => steps := PollCanEnd(s);
    case Dispatching(_, None) => steps := BatchCanEnd(s);
    case Dispatching(_, Some(_)) =>
      AnswersNow(s);
      steps := BatchCanEnd(Next(s, AnswerNow));
      First(s, AnswerNow, steps);
      steps := [AnswerNow] + steps;
  }

  lemma PollCanEnd(s: State) returns (steps: seq<Step>)
    requires s.phase.Polling?
    ensures CanRun(s, steps) && AllReactorSteps(steps)
    ensures Run(s, steps).phase == AtCheck && Keeps(s, Run(s, steps))
  {
    var a := PollReturns(map[]);
    First(Next(s, a), EndBatch, []);
    First(s, a, [EndBatch] + []);
    steps := [a] + ([EndBatch] + []);
  }

  /** The loop is on. */
  predicate Serving(s: State) {
    s.phase != Stopped && s.phase != Leaving && !s.exitFlag
  }

  /** What a descriptor is registered for can be dispatched to it. */
  lemma CanDispatch(s: State, fd: Fd, events: Mask) returns (steps: seq<Step>)
    requires TableKept(s) && ServerBooks.Orderly(s) && Serving(s)
    requires fd != Interrupter && CanFire(s.table, fd, events)
    ensures CanRun(s, steps) && AllReactorSteps(steps)
    ensures Run(s, steps).phase == Dispatching(map[fd := events], None) && Keeps(s, Run(s, steps))
  {
    steps := CheckIsReached(s);
    var more := BatchIsReached(Run(s, steps), fd, events);
    RunConcat(s, steps, more);
    steps := steps + more;
  }

  lemma BatchIsReached(s: State, fd: Fd, events: Mask) returns (steps: seq<Step>)
    requires s.phase == AtCheck && !s.exitFlag && fd != Interrupter && CanFire(s.table, fd, events)
    ensures CanRun(s, steps) && AllReactorSteps(steps)
    ensures Run(s, steps).phase == Dispatching(map[fd := events], None) && Keeps(s, Run(s, steps))
  {
    var t := Next(s, CheckExit);
    var u := Next(t, TakeSnapshot);
    var a := PollReturns(map[fd := events]);
    First(u, a, []);
    First(t, TakeSnapshot, [a] + []);
    First(s, CheckExit, [TakeSnapshot] + ([a] + []));
    steps := [CheckExit] + ([TakeSnapshot] + ([a] + []));
  }

  // ----- From the end of any run ------------------------------------------------------------

  lemma InOrder(run: seq<Step>)
    requires CanRun(INITIAL, run)
    ensures Safe(Run(INITIAL, run)) && ServerBooks.Orderly(Run(INITIAL, run))
  {
    RunKeepsSafe(INITIAL, run);
    ServerBooks.RunAgrees(INITIAL, ServerBooks.NOTHING, run);
  }

  /** The reactor thread alone can write every answer, after which the connection is
      polled for its next request. */
  lemma AnswerCanBeWritten(run: seq<Step>, c: nat) returns (steps: seq<Step>)
    requires CanRun(INITIAL, run) && Serving(Run(INITIAL, run)) && c in Run(INITIAL, run).unwritten
    ensures CanRun(Run(INITIAL, run), steps) && AllReactorSteps(steps)
    ensures var t := Run(Run(INITIAL, run), steps);
      c !in t.unwritten && c in t.clients && Client(c) in t.table && t.table[Client(c)] == Mask(true, false)
  {
    InOrder(run);
    steps := IsWritten(Run(INITIAL, run), c);
  }

  lemma IsWritten(s: State, c: nat) returns (steps: seq<Step>)
    requires Safe(s) && ServerBooks.Orderly(s) && Serving(s) && c in s.unwritten
    ensures CanRun(s, steps) && AllReactorSteps(steps)
    ensures var t := Run(s, steps);
      c !in t.unwritten && c in t.clients && Client(c) in t.table && t.table[Client(c)] == Mask(true, false)
  {
    assert AsksRight(s, c);
    steps := CanDispatch(s, Client(c), OUTPUT);
    var t := Run(s, steps);
    First(t, WriteAll(c, true), []);
    RunConcat(s, steps, [WriteAll(c, true)] + []);
    steps := steps + ([WriteAll(c, true)] + []);
  }

  /** It can read a request from every connection that has no answer unwritten and is not
      being answered, and hand it on. */
  lemma RequestCanBegin(run: seq<Step>, c: nat) returns (steps: seq<Step>)
    requires CanRun(INITIAL, run) && Serving(Run(INITIAL, run))
    requires var s := Run(INITIAL, run); Client(c) in s.table && c !in s.unwritten
    ensures CanRun(Run(INITIAL, run), steps) && AllReactorSteps(steps)
    ensures Current(Run(Run(INITIAL, run), steps)) == Some(c)
  {
    InOrder(run);
    steps := Begins(Run(INITIAL, run), c);
  }

  lemma Begins(s: State, c: nat) returns (steps: seq<Step>)
    requires Safe(s) && ServerBooks.Orderly(s) && Serving(s) && Client(c) in s.table && c !in s.unwritten
    ensures CanRun(s, steps) && AllReactorSteps(steps) && Current(Run(s, steps)) == Some(c)
  {
    assert AsksRight(s, c);
    steps := CanDispatch(s, Client(c), INPUT);
    var t := Run(s, steps);
    First(t, BeginRequest(c), []);
    RunConcat(s, steps, [BeginRequest(c)] + []);
    steps := steps + ([BeginRequest(c)] + []);
  }

  /** It can accept any new connection. */
  lemma ClientCanCome(run: seq<Step>, c: nat) returns (steps: seq<Step>)
    requires CanRun(INITIAL, run) && Serving(Run(INITIAL, run)) && c !in Run(INITIAL, run).clients
    ensures CanRun(Run(INITIAL, run), steps) && AllReactorSteps(steps)
    ensures var t := Run(Run(INITIAL, run), steps);
      c in t.clients && Client(c) in t.table && t.table[Client(c)] == Mask(true, false)
  {
    InOrder(run);
    steps := Comes(Run(INITIAL, run), c);
  }

  lemma Comes(s: State, c: nat) returns (steps: seq<Step>)
    requires Safe(s) && ServerBooks.Orderly(s) && Serving(s) && c !in s.clients
    ensures CanRun(s, steps) && AllReactorSteps(steps)
    ensures var t := Run(s, steps); c in t.clients && Client(c) in t.table && t.table[Client(c)] == Mask(true, false)
  {
    steps := CanDispatch(s, Listener, INPUT);
    var t := Run(s, steps);
    assert Client(c) !in t.table by {
      RunKeepsSafe(s, steps);
    }
    First(t, AcceptClient(Some(c)), []);
    RunConcat(s, steps, [AcceptClient(Some(c))] + []);
    steps := steps + ([AcceptClient(Some(c))] + []);
  }

  /** Nothing keeps a request from the pool but a thread that stands with the lock. */
  lemma RequestCanBeQueued(s: State) returns (woken: Option<nat>)
    requires Current(s).Some? && !LockHeld(s)
    ensures Enabled(s, Submit(woken))
  {
    if w :| 0 <= w < |s.workers| && s.workers[w] == Waiting {
      woken := Some(w);
    } else {
      woken := None;
    }
  }

  /** A server that was started serves, and one that was told to stop can. */
  lemma Starts()
    ensures CanRun(INITIAL, [StartWork]) && Serving(Run(INITIAL, [StartWork]))
  {
    First(INITIAL, StartWork, []);
    assert [StartWork] + [] == [StartWork];
  }

  lemma StopCanBeObeyed(run: seq<Step>) returns (steps: seq<Step>)
    requires CanRun(INITIAL, run) && Run(INITIAL, run).exitFlag && Run(INITIAL, run).phase != Stopped
    ensures CanRun(Run(INITIAL, run), steps) && AllReactorSteps(steps)
    ensures Run(Run(INITIAL, run), steps).phase == Stopped
  {
    InOrder(run);
    steps := Stops(Run(INITIAL, run));
  }

  lemma Stops(s: State) returns (steps: seq<Step>)
    requires TableKept(s) && ServerBooks.Orderly(s) && s.exitFlag && s.phase != Stopped
    ensures CanRun(s, steps) && AllReactorSteps(steps) && Run(s, steps).phase == Stopped
  {
    if s.phase == Leaving {
      First(s, LeaveWork, []);
      steps := [LeaveWork] + [];
    } else {
      steps := CheckIsReached(s);
      var t := Run(s, steps);
      First(Next(t, CheckExit), LeaveWork, []);
      First(t, CheckExit, [LeaveWork] + []);
      RunConcat(s, steps, [CheckExit] + ([LeaveWork] + []));
      steps := steps + ([CheckExit] + ([LeaveWork] + []));
    }
  }

  /** Input is handled where it is reported, and output where only output is. */
  lemma InputComesFirst(s: State, step: Step, c: nat)
    requires Enabled(s, step) && Subject(s, step) == Some(c) && s.phase.Dispatching? && s.phase.client == None
    requires !step.AcceptClient?
    ensures Client(c) in s.phase.ready
    ensures step.ReadSome? || step.BeginRequest? ==> s.phase.ready[Client(c)].input
    ensures step.WriteSome? || step.WriteAll? ==> s.phase.ready[Client(c)].output && !s.phase.ready[Client(c)].input
  {
  }
}
