/** While the pool is alive it cannot get stuck: from wherever a run has come to,
    its threads can answer all that is registered, without the help of the reactor
    thread and without waking up by chance. */
module ServerProgress {
  import opened Text
  import opened Server
  import opened ServerHistory
  import opened ServerPool
  import E = Execution

  /** Bounds the steps a thread still takes before it looks at the queue. */
  function Weight(w: Worker): nat {
    match w
    case Woken => 2
    case Rechecking => 1
    case Busy(_) => 2
    case Responded(_) => 1
    case _ => 0
  }

  function TotalWeight(workers: seq<Worker>): nat {
    if workers == [] then 0 else Weight(workers[0]) + TotalWeight(workers[1..])
  }

  lemma {:induction false} WeightAfterSet(workers: seq<Worker>, i: nat, w: Worker)
    requires i < |workers|
    ensures TotalWeight(workers[i := w]) == TotalWeight(workers) - Weight(workers[i]) + Weight(w)
  {
    if i == 0 {
      assert workers[i := w][1..] == workers[1..];
    } else {
      assert workers[i := w][1..] == workers[1..][i - 1 := w];
      WeightAfterSet(workers[1..], i - 1, w);
    }
  }

  function Distance(s: State): nat {
    3 * |s.queue| + TotalWeight(s.workers)
  }

  ghost predicate Settled(s: State) {
    s.queue == [] && forall w :: 0 <= w < |s.workers| ==> !s.workers[w].Busy?
  }

  /** No thread leaves its loop before the pool is destroyed. */
  ghost predicate NoneExited(s: State) {
    s.destruction == Alive ==> forall w :: 0 <= w < |s.workers| ==> s.workers[w] != Exited
  }

  lemma StepKeepsNoneExited(s: State, step: Step)
    requires NoneExited(s) && Enabled(s, step)
    ensures NoneExited(Next(s, step))
  {
    if !IsWorkerStep(step) && !step.Submit? && !step.AddThreads? && !step.SetDestroyed? && !step.NotifyAll? {
      OthersLeaveThePool(s, step);
    }
  }

  ghost predicate Alright(s: State) {
    History(s) && Conserves(s) && NoneExited(s)
  }

  lemma StepKeepsAlright(s: State, step: Step)
    requires Alright(s) && Enabled(s, step)
    ensures Alright(Next(s, step))
  {
    StepKeepsHistory(s, step);
    StepKeepsConserving(s, step);
    StepKeepsNoneExited(s, step);
  }

  lemma {:induction false} RunKeepsAlright(s: State, steps: seq<Step>)
    requires Alright(s) && CanRun(s, steps)
    ensures Alright(Run(s, steps))
    decreases |steps|
  {
    if steps != [] {
      StepKeepsAlright(s, steps[0]);
      RunKeepsAlright(Next(s, steps[0]), steps[1..]);
    }
  }

  lemma {:induction false} AwakeThread(workers: seq<Worker>) returns (w: nat)
    requires AwakeCount(workers) > 0
    ensures w < |workers| && IsAwake(workers[w])
  {
    if IsAwake(workers[0]) {
      w := 0;
    } else {
      w := AwakeThread(workers[1..]);
      w := w + 1;
    }
  }

  /** Some thread that can go on, and does not wait. */
  lemma AThreadCanGoOn(s: State) returns (w: nat)
    requires Alright(s) && s.destruction == Alive && s.workers != [] && !Settled(s)
    ensures w < |s.workers| && s.workers[w] != Waiting && s.workers[w] != Exited
    ensures s.workers[w] == AtTop ==> s.queue != []
    ensures s.workers[w] in {AtTop, Woken} ==> !LockHeld(s)
  {
    if LockHeld(s) {
      w :| w < |s.workers| && s.workers[w] == Rechecking;
    } else if exists v :: 0 <= v < |s.workers| && (s.workers[v].Busy? || s.workers[v].Responded?) {
      w :| w < |s.workers| && (s.workers[w].Busy? || s.workers[w].Responded?);
    } else if SomeoneSleeps(s) {
      w := AwakeThread(s.workers);
    } else {
      w := 0;
      assert s.workers[0] != Exited;
      assert !At(s, 0, Waiting);
    }
  }

  /** What such a thread does next. */
  function StepOf(s: State, w: nat): Step
    requires w < |s.workers|
  {
    match s.workers[w]
    case AtTop => TakeLock(w)
    case Waiting => SpuriousWake(w)
    case Woken => Relock(w)
    case Busy(_) => Respond(w, E.Threw(E.Unknown))
    case Responded(_) => Interrupt(w)
    case _ => Recheck(w)
  }

  lemma GoingOnHelps(s: State, w: nat)
    requires w < |s.workers| && s.workers[w] != Waiting && s.workers[w] != Exited && s.destruction == Alive
    requires s.workers[w] == AtTop ==> s.queue != []
    requires s.workers[w] in {AtTop, Woken} ==> !LockHeld(s)
    ensures Enabled(s, StepOf(s, w)) && IsWorkerStep(StepOf(s, w)) && !StepOf(s, w).SpuriousWake?
    ensures var t := Next(s, StepOf(s, w));
      Distance(t) < Distance(s) && t.destruction == Alive && t.workers != [] && t.registered == s.registered
  {
    var t := Next(s, StepOf(s, w));
    WeightAfterSet(s.workers, w, t.workers[w]);
  }

  lemma {:induction false} CanSettle(s: State) returns (steps: seq<Step>)
    requires Alright(s) && s.destruction == Alive && s.workers != []
    ensures CanRun(s, steps)
    ensures forall a :: a in steps ==> IsWorkerStep(a) && !a.SpuriousWake?
    ensures var t := Run(s, steps); Alright(t) && Settled(t) && t.registered == s.registered
    decreases Distance(s)
  {
    if Settled(s) {
      steps := [];
    } else {
      var w := AThreadCanGoOn(s);
      var a := StepOf(s, w);
      GoingOnHelps(s, w);
      StepKeepsAlright(s, a);
      steps := CanSettle(Next(s, a));
      Prepend(s, a, steps);
      steps := [a] + steps;
    }
  }

  /** From the end of any run, as long as the pool has a thread and is not being
      destroyed, its threads alone can bring about the answer to every request. */
  lemma EveryRequestCanBeAnswered(run: seq<Step>) returns (steps: seq<Step>)
    requires CanRun(INITIAL, run) && Run(INITIAL, run).destruction == Alive && Run(INITIAL, run).workers != []
    ensures CanRun(Run(INITIAL, run), steps)
    ensures forall a :: a in steps ==> IsWorkerStep(a) && !a.SpuriousWake?
    ensures forall k: nat :: k < |Run(INITIAL, run).registered| ==> Answered(Run(Run(INITIAL, run), steps), k)
  {
    RunKeepsAlright(INITIAL, run);
    steps := CanSettle(Run(INITIAL, run));
    var t := Run(Run(INITIAL, run), steps);
    forall k: nat | k < |t.registered| ensures Answered(t, k) {
      assert !Running(t, k);
    }
  }
}
