/** The pool of threads: no request waits while a thread sleeps, and what
    `destruction_started` does and does not achieve. */
module ServerPool {
  import opened Text
  import opened Server
  import E = Execution

  // ----- Work conservation ---------------------------------------------------

  /** Going to look at the queue without waiting for anything but the lock. */
  predicate IsAwake(w: Worker) {
    w == AtTop || w == Woken || w == Rechecking
  }

  function AwakeCount(workers: seq<Worker>): nat {
    if workers == [] then 0
    else (if IsAwake(workers[0]) then 1 else 0) + AwakeCount(workers[1..])
  }

  lemma {:induction false} AwakeAfterSet(workers: seq<Worker>, i: nat, w: Worker)
    requires i < |workers|
    ensures AwakeCount(workers[i := w])
         == AwakeCount(workers) - (if IsAwake(workers[i]) then 1 else 0) + (if IsAwake(w) then 1 else 0)
  {
    if i == 0 {
      assert workers[i := w][1..] == workers[1..];
    } else {
      assert workers[i := w][1..] == workers[1..][i - 1 := w];
      AwakeAfterSet(workers[1..], i - 1, w);
    }
  }

  lemma {:induction false} AwakeAfterAppend(a: seq<Worker>, b: seq<Worker>)
    ensures AwakeCount(a + b) == AwakeCount(a) + AwakeCount(b)
  {
    if a == [] {
      assert a + b == b;
    } else {
      assert (a + b)[1..] == a[1..] + b;
      AwakeAfterAppend(a[1..], b);
    }
  }

  lemma {:induction false} AllWait(workers: seq<Worker>)
    requires forall w :: 0 <= w < |workers| ==> workers[w] == Waiting
    ensures AwakeCount(workers) == 0
  {
    if workers != [] {
      AllWait(workers[1..]);
    }
  }

  ghost predicate SomeoneSleeps(s: State) {
    exists w: nat :: At(s, w, Waiting)
  }

  /** While the pool is alive: if a thread waits, enough others are awake to take
      all that is queued. */
  ghost predicate Conserves(s: State) {
    s.destruction == Alive && SomeoneSleeps(s) ==> |s.queue| <= AwakeCount(s.workers)
  }

  /** A step that moves one thread and no request from or to the queue. */
  lemma MoveKeepsConserving(s: State, t: State, w: nat, pc: Worker)
    requires Conserves(s) && w < |s.workers| && t.workers == s.workers[w := pc]
    requires t.queue == s.queue && t.destruction == s.destruction
    requires pc == Waiting ==> s.queue == []
    requires IsAwake(pc) || !IsAwake(s.workers[w]) || s.queue == []
    ensures Conserves(t)
  {
    AwakeAfterSet(s.workers, w, pc);
    if SomeoneSleeps(t) && t.queue != [] {
      var v: nat :| At(t, v, Waiting);
      assert At(s, v, Waiting);
    }
  }

  lemma PopKeepsConserving(s: State, w: nat)
    requires Conserves(s) && w < |s.workers| && IsAwake(s.workers[w]) && s.queue != []
    ensures Conserves(Pop(s, w))
  {
    var t := Pop(s, w);
    AwakeAfterSet(s.workers, w, Busy(s.queue[0]));
    if SomeoneSleeps(t) {
      var v: nat :| At(t, v, Waiting);
      assert At(s, v, Waiting);
    }
  }

  lemma SubmitKeepsConserving(s: State, woken: Option<nat>)
    requires Conserves(s) && Enabled(s, Submit(woken))
    ensures Conserves(Next(s, Submit(woken)))
  {
    var t := Next(s, Submit(woken));
    if woken.Some? {
      assert At(s, woken.value, Waiting);
      AwakeAfterSet(s.workers, woken.value, Woken);
    }
  }

  lemma WorkerKeepsConserving(s: State, step: Step)
    requires Conserves(s) && Enabled(s, step)
    requires IsWorkerStep(step)
    ensures Conserves(Next(s, step))
  {
    var t := Next(s, step);
    if (step.TakeLock? || (step.Recheck? && s.destruction == Alive)) && s.queue != [] {
      PopKeepsConserving(s, step.w);
    } else if s.destruction == Alive {
      MoveKeepsConserving(s, t, step.w, t.workers[step.w]);
    }
  }

  /** All other steps leave the threads and the queue alone. */
  lemma OthersLeaveThePool(s: State, step: Step)
    requires Enabled(s, step) && !IsWorkerStep(step)
    requires !step.Submit? && !step.AddThreads? && !step.SetDestroyed? && !step.NotifyAll?
    ensures var t := Next(s, step);
      t.workers == s.workers && t.queue == s.queue && t.destruction == s.destruction
  {
  }

  lemma AddKeepsConserving(s: State, n: nat)
    requires Conserves(s) && Enabled(s, AddThreads(n))
    ensures Conserves(Next(s, AddThreads(n)))
  {
    AwakeAfterAppend(s.workers, seq(n, _ => AtTop));
    var t := Next(s, AddThreads(n));
    if SomeoneSleeps(t) {
      var v: nat :| At(t, v, Waiting);
      assert At(s, v, Waiting);
    }
  }

  lemma StepKeepsConserving(s: State, step: Step)
    requires Conserves(s) && Enabled(s, step)
    ensures Conserves(Next(s, step))
  {
    if IsWorkerStep(step) {
      WorkerKeepsConserving(s, step);
    } else if step.Submit? {
      SubmitKeepsConserving(s, step.woken);
    } else if step.AddThreads? {
      AddKeepsConserving(s, step.n);
    } else if step.SetDestroyed? || step.NotifyAll? {
      assert Next(s, step).destruction != Alive;
    } else {
      OthersLeaveThePool(s, step);
      if SomeoneSleeps(Next(s, step)) {
        var v: nat :| At(Next(s, step), v, Waiting);
        assert At(s, v, Waiting);
      }
    }
  }

  lemma {:induction false} RunKeepsConserving(s: State, steps: seq<Step>)
    requires Conserves(s) && CanRun(s, steps)
    ensures Conserves(Run(s, steps))
    decreases |steps|
  {
    if steps != [] {
      StepKeepsConserving(s, steps[0]);
      RunKeepsConserving(Next(s, steps[0]), steps[1..]);
    }
  }

  /** In every run, however often threads wake up for no reason: until the pool is
      destroyed, no thread waits or the queue is no longer than the number of
      threads that are about to look at it. */
  lemma WorkConservation(steps: seq<Step>)
    requires CanRun(INITIAL, steps)
    ensures var s := Run(INITIAL, steps);
      s.destruction == Alive ==> !SomeoneSleeps(s) || |s.queue| <= AwakeCount(s.workers)
  {
    RunKeepsConserving(INITIAL, steps);
  }

  // ----- The lock of the queue -----------------------------------------------

  /** Two threads never stand still with the lock. */
  ghost predicate OneHolder(s: State) {
    forall v: nat, w: nat :: At(s, v, Rechecking) && At(s, w, Rechecking) ==> v == w
  }

  lemma WorkerKeepsOneHolder(s: State, step: Step)
    requires OneHolder(s) && Enabled(s, step) && IsWorkerStep(step)
    ensures OneHolder(Next(s, step))
  {
    var t := Next(s, step);
    forall v: nat, w: nat | At(t, v, Rechecking) && At(t, w, Rechecking) ensures v == w {
      assert v != step.w ==> At(s, v, Rechecking);
      assert w != step.w ==> At(s, w, Rechecking);
    }
  }

  lemma StepKeepsOneHolder(s: State, step: Step)
    requires OneHolder(s) && Enabled(s, step)
    ensures OneHolder(Next(s, step))
  {
    var t := Next(s, step);
    if IsWorkerStep(step) {
      WorkerKeepsOneHolder(s, step);
    } else {
      OthersHoldNothing(s, step);
    }
  }

  lemma OthersHoldNothing(s: State, step: Step)
    requires Enabled(s, step) && !IsWorkerStep(step)
    ensures forall w: nat :: At(Next(s, step), w, Rechecking) ==> At(s, w, Rechecking)
  {
    if !step.Submit? && !step.AddThreads? && !step.SetDestroyed? && !step.NotifyAll? {
      OthersLeaveThePool(s, step);
    }
  }

  lemma {:induction false} RunKeepsOneHolder(s: State, steps: seq<Step>)
    requires OneHolder(s) && CanRun(s, steps)
    ensures OneHolder(Run(s, steps))
    decreases |steps|
  {
    if steps != [] {
      StepKeepsOneHolder(s, steps[0]);
      RunKeepsOneHolder(Next(s, steps[0]), steps[1..]);
    }
  }

  /** In every run one thread at most stands still with the lock, and as long as it does
      nobody else puts anything into the queue or takes anything out, and no thread starts
      to wait. */
  lemma LockIsExclusive(steps: seq<Step>, step: Step, w: nat)
    requires CanRun(INITIAL, steps) && Enabled(Run(INITIAL, steps), step)
    requires At(Run(INITIAL, steps), w, Rechecking) && step != Recheck(w)
    ensures var s := Run(INITIAL, steps); var t := Next(s, step);
      && t.queue == s.queue && At(t, w, Rechecking)
      && forall v: nat :: (At(t, v, Waiting) ==> At(s, v, Waiting)) && (At(t, v, Rechecking) ==> v == w)
  {
    RunKeepsOneHolder(INITIAL, steps);
    HolderIsAlone(Run(INITIAL, steps), step, w);
  }

  lemma HolderIsAlone(s: State, step: Step, w: nat)
    requires OneHolder(s) && Enabled(s, step) && At(s, w, Rechecking) && step != Recheck(w)
    ensures var t := Next(s, step);
      && t.queue == s.queue && At(t, w, Rechecking)
      && forall v: nat :: (At(t, v, Waiting) ==> At(s, v, Waiting)) && (At(t, v, Rechecking) ==> v == w)
  {
    assert LockHeld(s);
    StepKeepsOneHolder(s, step);
    if IsWorkerStep(step) {
      WorkerPassesBy(s, step, w);
    } else {
      assert !step.Submit? && !step.NotifyAll?;
      if step.AddThreads? {
        AddedAreAtTop(s, step.n);
      } else if step.SetDestroyed? {
        SameThreads(s, Next(s, step), w);
      } else {
        OthersLeaveThePool(s, step);
        SameThreads(s, Next(s, step), w);
      }
    }
  }

  lemma SameThreads(s: State, t: State, w: nat)
    requires OneHolder(s) && At(s, w, Rechecking) && t.workers == s.workers
    ensures At(t, w, Rechecking)
    ensures forall v: nat :: (At(t, v, Waiting) ==> At(s, v, Waiting)) && (At(t, v, Rechecking) ==> v == w)
  {
    forall v: nat ensures (At(t, v, Waiting) ==> At(s, v, Waiting)) && (At(t, v, Rechecking) ==> v == w) {
      assert At(t, v, Rechecking) ==> At(s, v, Rechecking);
    }
  }

  lemma WorkerPassesBy(s: State, step: Step, w: nat)
    requires OneHolder(s) && Enabled(s, step) && At(s, w, Rechecking) && step != Recheck(w) && IsWorkerStep(step)
    ensures var t := Next(s, step);
      t.queue == s.queue && At(t, w, Rechecking) && forall v: nat :: At(t, v, Waiting) ==> At(s, v, Waiting)
  {
    assert LockHeld(s);
    assert step.Recheck? ==> At(s, step.w, Rechecking);
  }

  lemma AddedAreAtTop(s: State, n: nat)
    requires Enabled(s, AddThreads(n))
    ensures var t := Next(s, AddThreads(n));
      && t.queue == s.queue
      && (forall v: nat, pc :: At(s, v, pc) ==> At(t, v, pc))
      && (forall v: nat :: At(t, v, Waiting) ==> At(s, v, Waiting))
  {
  }

  // ----- Destruction --------------------------------------------------------

  /** The thread will still look at the queue, and wait if it finds it empty,
      before it next looks at `in_destructor`. */
  predicate IsActive(w: Worker) {
    w == AtTop || w.Busy? || w.Responded?
  }

  ghost predicate SomeoneActive(s: State) {
    exists w: nat :: w < |s.workers| && IsActive(s.workers[w])
  }

  ghost predicate CanFallAsleep(s: State) {
    exists steps :: CanRun(s, steps) && SomeoneSleeps(Run(s, steps))
  }

  lemma Prepend(s: State, a: Step, steps: seq<Step>)
    requires Enabled(s, a) && CanRun(Next(s, a), steps)
    ensures CanRun(s, [a] + steps) && Run(s, [a] + steps) == Run(Next(s, a), steps)
  {
    assert ([a] + steps)[1..] == steps;
  }

  function Rank(w: Worker): nat {
    match w
    case Busy(_) => 2
    case Responded(_) => 1
    case _ => 0
  }

  /** A run in which an active thread empties the queue and waits. */
  lemma {:induction false} FallsAsleep(s: State, w: nat) returns (steps: seq<Step>)
    requires w < |s.workers| && IsActive(s.workers[w]) && !LockHeld(s)
    ensures CanRun(s, steps) && SomeoneSleeps(Run(s, steps))
    decreases |s.queue|, Rank(s.workers[w])
  {
    var a: Step := match s.workers[w]
      case Busy(_) => Respond(w, E.Threw(E.Unknown))
      case Responded(_) => Interrupt(w)
      case _ => TakeLock(w);
    assert Enabled(s, a);
    var t := Next(s, a);
    if t.workers[w] == Waiting {
      assert At(t, w, Waiting);
      steps := [];
    } else {
      steps := FallsAsleep(t, w);
    }
    Prepend(s, a, steps);
    steps := [a] + steps;
  }

  ghost predicate NoneWillSleep(s: State) {
    && s.destruction == Broadcast
    && forall w :: 0 <= w < |s.workers| ==> s.workers[w] in {Woken, Rechecking, Exited}
  }

  lemma WorkerKeepsNoneSleeping(s: State, step: Step)
    requires NoneWillSleep(s) && Enabled(s, step) && IsWorkerStep(step)
    ensures NoneWillSleep(Next(s, step))
  {
  }

  lemma {:induction false} NoneFallsAsleep(s: State, steps: seq<Step>)
    requires NoneWillSleep(s) && CanRun(s, steps)
    ensures !SomeoneSleeps(Run(s, steps))
    decreases |steps|
  {
    if steps != [] {
      var t := Next(s, steps[0]);
      if IsWorkerStep(steps[0]) {
        WorkerKeepsNoneSleeping(s, steps[0]);
      } else if steps[0].Submit? {
        assert t.workers == s.workers;
      } else {
        OthersLeaveThePool(s, steps[0]);
      }
      NoneFallsAsleep(t, steps[1..]);
    }
  }

  /** After the one `notify_all` of the destructor a thread may wait again exactly
      when one was at work, or on its way to the queue, as it was sent. */
  lemma BroadcastReaches(s: State)
    requires Enabled(s, NotifyAll)
    ensures CanFallAsleep(Next(s, NotifyAll)) <==> SomeoneActive(s)
  {
    var t := Next(s, NotifyAll);
    if SomeoneActive(s) {
      var w: nat :| w < |s.workers| && IsActive(s.workers[w]);
      assert t.workers[w] == s.workers[w];
      var steps := FallsAsleep(t, w);
    } else {
      forall w | 0 <= w < |t.workers| ensures t.workers[w] in {Woken, Rechecking, Exited} {
        assert !IsActive(s.workers[w]);
      }
      forall steps | CanRun(t, steps) ensures !SomeoneSleeps(Run(t, steps)) {
        NoneFallsAsleep(t, steps);
      }
    }
  }

  /** A thread that waits then is not woken by the destructor: only by chance, or
      by a request that arrives. */
  lemma {:induction false} SleepsOn(s: State, w: nat, steps: seq<Step>)
    requires s.destruction == Broadcast && At(s, w, Waiting) && CanRun(s, steps)
    requires forall a :: a in steps ==> a != SpuriousWake(w) && a != Submit(Some(w))
    ensures At(Run(s, steps), w, Waiting)
    decreases |steps|
  {
    if steps != [] {
      assert steps[0] in steps;
      forall a | a in steps[1..] ensures a in steps {
      }
      if !IsWorkerStep(steps[0]) && !steps[0].Submit? {
        OthersLeaveThePool(s, steps[0]);
      }
      SleepsOn(Next(s, steps[0]), w, steps[1..]);
    }
  }

  /** Two steps at a time. */
  lemma PrependTwo(s: State, a: Step, b: Step, steps: seq<Step>)
    requires Enabled(s, a) && Enabled(Next(s, a), b) && CanRun(Next(Next(s, a), b), steps)
    ensures CanRun(s, [a, b] + steps) && Run(s, [a, b] + steps) == Run(Next(Next(s, a), b), steps)
  {
    Prepend(Next(s, a), b, steps);
    Prepend(s, a, [b] + steps);
    assert [a] + ([b] + steps) == [a, b] + steps;
  }

  lemma HangsFrom(s: State)
    requires s.workers == [AtTop] && s.queue == [] && s.destruction == FlagSet
    ensures var t := Next(s, NotifyAll);
      Enabled(t, TakeLock(0)) && At(Next(t, TakeLock(0)), 0, Waiting) && Next(t, TakeLock(0)).destruction == Broadcast
  {
    assert !LockHeld(s);
    var t := Next(s, NotifyAll);
    assert t.workers == [AtTop];
  }

  /** One thread that has not looked at the queue yet is enough: it waits after
      the only `notify_all`. */
  lemma ShutdownMayHang() returns (steps: seq<Step>)
    ensures CanRun(INITIAL, steps)
    ensures var s := Run(INITIAL, steps); s.destruction == Broadcast && At(s, 0, Waiting)
  {
    var s := Next(Next(INITIAL, AddThreads(1)), SetDestroyed);
    assert s.workers == [AtTop];
    steps := HangingSteps(s);
    PrependTwo(INITIAL, AddThreads(1), SetDestroyed, steps);
    steps := [AddThreads(1), SetDestroyed] + steps;
  }

  lemma HangingSteps(s: State) returns (steps: seq<Step>)
    requires s.workers == [AtTop] && s.queue == [] && s.destruction == FlagSet
    ensures CanRun(s, steps) && Run(s, steps).destruction == Broadcast && At(Run(s, steps), 0, Waiting)
  {
    HangsFrom(s);
    PrependTwo(s, NotifyAll, TakeLock(0), []);
    steps := [NotifyAll, TakeLock(0)] + [];
  }

  // ----- The two locks of the destructor ------------------------------------

  ghost predicate CanBroadcast(s: State) {
    exists steps :: CanRun(s, steps) && Run(s, steps).destruction == Broadcast
  }

  lemma {:induction false} StaysLocked(s: State, w: nat, steps: seq<Step>)
    requires s.destruction == FlagSet && At(s, w, Rechecking) && CanRun(s, steps)
    ensures Run(s, steps).destruction == FlagSet
    decreases |steps|
  {
    if steps != [] {
      assert LockHeld(s);
      if !IsWorkerStep(steps[0]) && !steps[0].Submit? {
        OthersLeaveThePool(s, steps[0]);
      }
      StaysLocked(Next(s, steps[0]), w, steps[1..]);
    }
  }

  /** Once `in_destructor` is set, the destructor can go on exactly when no thread
      stands between its two locks, holding `req_queue_lock` and about to ask for
      `destructor_lock`: the two wait for each other for ever otherwise. */
  lemma LockOrder(s: State)
    requires s.destruction == FlagSet
    ensures CanBroadcast(s) <==> !LockHeld(s)
  {
    if LockHeld(s) {
      var w: nat :| w < |s.workers| && s.workers[w] == Rechecking;
      forall steps | CanRun(s, steps) ensures Run(s, steps).destruction != Broadcast {
        StaysLocked(s, w, steps);
      }
    } else {
      Prepend(s, NotifyAll, []);
      assert CanRun(s, [NotifyAll] + []) && Run(s, [NotifyAll] + []).destruction == Broadcast;
    }
  }

  lemma CrossesFrom(s: State) returns (steps: seq<Step>)
    requires s.workers == [Waiting] && s.destruction == Alive
    ensures CanRun(s, steps) && Run(s, steps).destruction == FlagSet && !CanBroadcast(Run(s, steps))
  {
    var t := Next(Next(s, SpuriousWake(0)), Relock(0));
    var u := Next(t, SetDestroyed);
    assert At(u, 0, Rechecking);
    LockOrder(u);
    Prepend(t, SetDestroyed, []);
    steps := [SetDestroyed] + [];
    PrependTwo(s, SpuriousWake(0), Relock(0), steps);
    steps := [SpuriousWake(0), Relock(0)] + steps;
  }

  lemma FirstThreadWaits()
    ensures Enabled(INITIAL, AddThreads(1)) && Enabled(Next(INITIAL, AddThreads(1)), TakeLock(0))
    ensures var s := Next(Next(INITIAL, AddThreads(1)), TakeLock(0)); s.workers == [Waiting] && s.destruction == Alive
  {
    assert Next(INITIAL, AddThreads(1)).workers == [AtTop];
  }

  /** And that does happen: a thread wakes up for no reason just before. */
  lemma LocksMayCross() returns (steps: seq<Step>)
    ensures CanRun(INITIAL, steps)
    ensures var s := Run(INITIAL, steps); s.destruction == FlagSet && !CanBroadcast(s)
  {
    FirstThreadWaits();
    steps := CrossesFrom(Next(Next(INITIAL, AddThreads(1)), TakeLock(0)));
    PrependTwo(INITIAL, AddThreads(1), TakeLock(0), steps);
    steps := [AddThreads(1), TakeLock(0)] + steps;
  }
}
