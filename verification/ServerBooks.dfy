/** A run of the server against a count of its steps: bytes, threads, answers and the
    flag that ends it. */
module ServerBooks {
  import opened Text
  import opened Values
  import opened Server
  import M = Messages
  import E = Execution

  /** What can be told from the steps alone, without the states. */
  datatype Tally = Tally(sent: nat, read: nat, asked: nat, told: nat, threads: nat, stop: bool, outcomes: seq<E.Outcome>)

  const NOTHING := Tally(0, 0, 0, 0, 0, false, [])

  function Count(t: Tally, step: Step): Tally {
    match step
    case Interrupt(_) => t.(sent := t.sent + 1)
    case CallInterrupt => t.(sent := t.sent + 1)
    case StopInterrupt => t.(sent := t.sent + 1, told := t.told + 1)
    case ReadByte => t.(read := t.read + 1)
    case SetExitFlag => t.(asked := t.asked + 1, stop := true)
    case LeaveWork => t.(stop := false)
    case AddThreads(n) => t.(threads := t.threads + n)
    case Respond(_, outcome) => t.(outcomes := t.outcomes + [outcome])
    case _ => t
  }

  function CountAll(t: Tally, steps: seq<Step>): Tally
    decreases |steps|
  {
    if steps == [] then t else CountAll(Count(t, steps[0]), steps[1..])
  }

  /** What a pool thread answers, in full. */
  predicate IsAnswer(outcome: E.Outcome, r: M.Response) {
    match outcome
    case Returned(v) => r == M.OkResponse(v)
    case Threw(Fault(code, what)) => r == M.FaultResponse(code, what)
    case Threw(HttpError(_, phrase)) => r == M.FaultResponse(-1, "HTTP: " + phrase)
    case Threw(OtherException(_, what)) => r == M.FaultResponse(-1, what)
    case Threw(Standard(what)) => r == M.FaultResponse(-1, what)
    case Threw(Unknown) => r == M.FaultResponse(-1, "Unknown Error")
  }

  ghost predicate Agrees(s: State, t: Tally) {
    && s.bytes + t.read == t.sent
    && s.stoppers + t.told == t.asked
    && |s.workers| == t.threads
    && s.exitFlag == t.stop
    && |s.answers| == |t.outcomes|
    && (forall i :: 0 <= i < |s.answers| ==> IsAnswer(t.outcomes[i], s.answers[i].response))
  }

  predicate IsEvent(fd: Fd, events: Mask) {
    events.input || (events.output && fd.Client?)
  }

  /** The byte that a batch is about is still there, a batch has events of the right kind,
      and the loop is left only when that was asked for. */
  ghost predicate Orderly(s: State) {
    && (s.phase.Dispatching? && Interrupter in s.phase.ready ==> s.bytes > 0)
    && (s.phase.Dispatching? ==> forall fd :: fd in s.phase.ready ==> IsEvent(fd, s.phase.ready[fd]))
    && (s.phase == Leaving ==> s.exitFlag)
  }

  lemma WorkerKeepsOrder(s: State, step: Step)
    requires Orderly(s) && Enabled(s, step) && IsWorkerStep(step)
    ensures Orderly(Next(s, step))
  {
  }

  lemma HandlersLeaveTheRest(s: State, step: Step)
    requires Enabled(s, step) && IsHandlerStep(step)
    ensures var u := Next(s, step);
      && u.stoppers == s.stoppers && |u.workers| == |s.workers| && u.exitFlag == s.exitFlag && u.answers == s.answers
      && u.bytes == if !step.ReadByte? then s.bytes else if s.bytes > 0 then s.bytes - 1 else 0
  {
  }

  /** A handler takes its own events from the batch and adds none. */
  lemma HandlersTakeEvents(s: State, step: Step)
    requires Enabled(s, step) && IsHandlerStep(step)
    ensures var u := Next(s, step);
      && s.phase.Dispatching? && u.phase.Dispatching?
      && (u.phase.ready == s.phase.ready || exists fd :: u.phase.ready == s.phase.ready - {fd})
      && (step.ReadByte? ==> Interrupter !in u.phase.ready)
  {
  }

  lemma HandlerKeepsOrder(s: State, step: Step)
    requires Orderly(s) && Enabled(s, step) && IsHandlerStep(step)
    ensures Orderly(Next(s, step))
  {
    HandlersTakeEvents(s, step);
    HandlersLeaveTheRest(s, step);
  }

  lemma StepKeepsOrder(s: State, step: Step)
    requires Orderly(s) && Enabled(s, step)
    ensures Orderly(Next(s, step))
  {
    if IsWorkerStep(step) {
      WorkerKeepsOrder(s, step);
    } else if IsHandlerStep(step) {
      HandlerKeepsOrder(s, step);
    }
  }

  lemma WorkerAgrees(s: State, t: Tally, step: Step)
    requires Agrees(s, t) && Enabled(s, step) && IsWorkerStep(step)
    ensures Agrees(Next(s, step), Count(t, step))
  {
    if step.Respond? {
      assert IsAnswer(step.outcome, E.PoolResponse(step.outcome));
    }
  }

  lemma HandlerAgrees(s: State, t: Tally, step: Step)
    requires Agrees(s, t) && Orderly(s) && Enabled(s, step) && IsHandlerStep(step)
    ensures Agrees(Next(s, step), Count(t, step))
  {
    HandlersLeaveTheRest(s, step);
    assert step.ReadByte? ==> s.bytes > 0;
  }

  lemma OthersAgree(s: State, t: Tally, step: Step)
    requires Agrees(s, t) && Enabled(s, step) && !IsWorkerStep(step) && !IsHandlerStep(step)
    ensures Agrees(Next(s, step), Count(t, step))
  {
  }

  lemma StepAgrees(s: State, t: Tally, step: Step)
    requires Agrees(s, t) && Orderly(s) && Enabled(s, step)
    ensures Agrees(Next(s, step), Count(t, step)) && Orderly(Next(s, step))
  {
    if IsWorkerStep(step) {
      WorkerAgrees(s, t, step);
    } else if IsHandlerStep(step) {
      HandlerAgrees(s, t, step);
    } else {
      OthersAgree(s, t, step);
    }
    StepKeepsOrder(s, step);
  }

  lemma {:induction false} RunAgrees(s: State, t: Tally, steps: seq<Step>)
    requires Agrees(s, t) && Orderly(s) && CanRun(s, steps)
    ensures Agrees(Run(s, steps), CountAll(t, steps)) && Orderly(Run(s, steps))
    decreases |steps|
  {
    if steps != [] {
      StepAgrees(s, t, steps[0]);
      RunAgrees(Next(s, steps[0]), Count(t, steps[0]), steps[1..]);
    }
  }

  /** In every run: no byte of the interrupter is lost or read twice, every stop has sent
      its byte or has yet to, there are as many threads as were added, the server is told
      to stop until it has left its loop and not again before it is asked to, and every
      answer is what the method of its executor has come to, exceptions included. */
  lemma BooksAgree(steps: seq<Step>)
    requires CanRun(INITIAL, steps)
    ensures var s, t := Run(INITIAL, steps), CountAll(NOTHING, steps);
      && s.bytes == t.sent - t.read && s.stoppers == t.asked - t.told
      && |s.workers| == t.threads && s.exitFlag == t.stop && |s.answers| == |t.outcomes|
      && (forall i :: 0 <= i < |s.answers| ==> IsAnswer(t.outcomes[i], s.answers[i].response))
      && (s.phase == Leaving ==> t.stop)
  {
    RunAgrees(INITIAL, NOTHING, steps);
  }

  /** Once a stop was asked for and the reactor thread has come to its check, it polls no
      more until it has left the loop. */
  lemma {:induction false} StopIsObeyed(s: State, steps: seq<Step>)
    requires s.exitFlag && (s.phase == AtCheck || s.phase == Leaving) && CanRun(s, steps)
    requires LeaveWork !in steps
    ensures var t := Run(s, steps); t.exitFlag && (t.phase == AtCheck || t.phase == Leaving)
    ensures TakeSnapshot !in steps
    decreases |steps|
  {
    if steps != [] {
      assert steps[0] in steps;
      StopStep(s, steps[0]);
      StopIsObeyed(Next(s, steps[0]), steps[1..]);
      assert steps == [steps[0]] + steps[1..];
    }
  }

  lemma StopStep(s: State, step: Step)
    requires s.exitFlag && (s.phase == AtCheck || s.phase == Leaving) && Enabled(s, step) && step != LeaveWork
    ensures step != TakeSnapshot
    ensures var t := Next(s, step); t.exitFlag && (t.phase == AtCheck || t.phase == Leaving)
  {
  }
}
