/** First in, first out, and exactly once: what becomes of every executor that
    is registered with the pool, in every run. */
module ServerHistory {
  import opened Text
  import opened Server
  import E = Execution

  /** Everything registered, in order, is what was taken followed by the queue. */
  ghost predicate Fifo(s: State) {
    && s.registered == s.taken + s.queue
    && forall k :: 0 <= k < |s.registered| ==> s.registered[k].serial == k
  }

  /** Some thread runs the executor. */
  ghost predicate Running(s: State, k: nat) {
    exists w: nat :: RunsOn(s, k, w)
  }

  /** What a thread runs. */
  function Job(s: State, w: nat): Option<Executor> {
    if w < |s.workers| && s.workers[w].Busy? then Some(s.workers[w].executor) else None
  }

  ghost predicate RunsOn(s: State, k: nat, w: nat) {
    Job(s, w).Some? && Job(s, w).value.serial == k
  }

  ghost predicate Answered(s: State, k: nat) {
    exists j: nat :: Answers(s, k, j)
  }

  ghost predicate Answers(s: State, k: nat, j: nat) {
    j < |s.answers| && s.answers[j].executor.serial == k
  }

  /** An executor that a thread runs or has answered for is one that was taken. */
  ghost predicate Genuine(s: State, e: Executor) {
    e.serial < |s.taken| && s.taken[e.serial] == e
  }

  ghost predicate OnlyTaken(s: State) {
    && (forall w: nat :: Job(s, w).Some? ==> Genuine(s, Job(s, w).value))
    && (forall j :: 0 <= j < |s.answers| ==> Genuine(s, s.answers[j].executor))
  }

  /** No executor runs on two threads, is answered twice, or runs after its answer. */
  ghost predicate AtMostOnce(s: State) {
    && (forall k, v, w :: RunsOn(s, k, v) && RunsOn(s, k, w) ==> v == w)
    && (forall k, i, j :: Answers(s, k, i) && Answers(s, k, j) ==> i == j)
    && (forall k, w, j :: !(RunsOn(s, k, w) && Answers(s, k, j)))
  }

  ghost predicate NoneLost(s: State) {
    forall k :: 0 <= k < |s.taken| ==> Running(s, k) || Answered(s, k)
  }

  ghost predicate History(s: State) {
    Fifo(s) && OnlyTaken(s) && AtMostOnce(s) && NoneLost(s)
  }

  // ----- Three kinds of steps ------------------------------------------------

  /** No thread starts or finishes an executor. */
  ghost predicate SameWork(s: State, t: State) {
    forall w: nat :: Job(t, w) == Job(s, w)
  }

  /** A step that takes and answers nothing. */
  lemma QuietStep(s: State, t: State)
    requires History(s) && SameWork(s, t) && t.answers == s.answers && t.taken == s.taken && Fifo(t)
    ensures History(t)
    ensures forall k: nat :: Running(t, k) == Running(s, k)
  {
    forall k: nat, w: nat ensures RunsOn(t, k, w) == RunsOn(s, k, w) {
    }
    forall k: nat, j: nat ensures Answers(t, k, j) == Answers(s, k, j) {
    }
    forall k: nat ensures Running(t, k) == Running(s, k) && Answered(t, k) == Answered(s, k) {
      if Running(s, k) {
        var w: nat :| RunsOn(s, k, w);
        assert RunsOn(t, k, w);
      }
      if Answered(s, k) {
        var j: nat :| Answers(s, k, j);
        assert Answers(t, k, j);
      }
    }
  }

  lemma PopStep(s: State, w: nat)
    requires History(s) && w < |s.workers| && !s.workers[w].Busy? && s.queue != []
    ensures History(Pop(s, w))
    ensures forall k: nat :: Running(Pop(s, w), k) == (Running(s, k) || k == |s.taken|)
  {
    var t := Pop(s, w);
    var e := s.queue[0];
    assert t.taken + t.queue == s.taken + s.queue;
    assert e == s.registered[|s.taken|];
    assert RunsOn(t, e.serial, w);
    forall v: nat ensures Job(t, v) == if v == w then Some(e) else Job(s, v) {
    }
    forall v: nat | Job(t, v).Some? ensures Genuine(t, Job(t, v).value) {
    }
    forall k: nat, v: nat ensures RunsOn(t, k, v) == if v == w then k == e.serial else RunsOn(s, k, v) {
    }
    forall k: nat ensures Running(t, k) == (Running(s, k) || k == |s.taken|) {
      if Running(s, k) {
        var v: nat :| RunsOn(s, k, v);
        assert RunsOn(t, k, v);
      }
    }
    forall k: nat, v: nat | RunsOn(s, k, v) ensures k < |s.taken| {
      assert Genuine(s, s.workers[v].executor);
    }
    forall k: nat, j: nat ensures Answers(t, k, j) == Answers(s, k, j) {
    }
    forall k: nat, j: nat | Answers(s, k, j) ensures k < |s.taken| {
      assert Genuine(s, s.answers[j].executor);
    }
    forall k | 0 <= k < |t.taken| ensures Running(t, k) || Answered(t, k) {
      if k < |s.taken| && Answered(s, k) {
        var j: nat :| Answers(s, k, j);
        assert Answers(t, k, j);
      }
    }
  }

  lemma RespondStep(s: State, w: nat, outcome: E.Outcome)
    requires History(s) && Enabled(s, Respond(w, outcome))
    ensures var t := Next(s, Respond(w, outcome));
      History(t) && forall k: nat :: Running(t, k) == (Running(s, k) && k != s.workers[w].executor.serial)
  {
    var t := Next(s, Respond(w, outcome));
    var e := s.workers[w].executor;
    var last := |s.answers|;
    assert RunsOn(s, e.serial, w);
    assert Answers(t, e.serial, last);
    forall v: nat ensures Job(t, v) == if v == w then None else Job(s, v) {
    }
    forall k: nat, v: nat ensures RunsOn(t, k, v) == (v != w && RunsOn(s, k, v)) {
    }
    forall k: nat, j: nat ensures Answers(t, k, j) == (Answers(s, k, j) || (j == last && k == e.serial)) {
    }
    forall k: nat ensures Running(t, k) == (Running(s, k) && k != e.serial) {
      if Running(s, k) && k != e.serial {
        var v: nat :| RunsOn(s, k, v);
        assert RunsOn(t, k, v);
      }
    }
    forall k | 0 <= k < |t.taken| ensures Running(t, k) || Answered(t, k) {
      if Answered(s, k) {
        var j: nat :| Answers(s, k, j);
        assert Answers(t, k, j);
      }
    }
  }

  /** The steps that take nothing from the queue and answer nothing. */
  predicate IsQuiet(s: State, step: Step) {
    && !step.Respond?
    && (step.TakeLock? ==> s.queue == [])
    && (step.Recheck? ==> s.queue == [] || s.destruction != Alive)
  }

  lemma QuietWorkerKeepsWork(s: State, step: Step)
    requires Enabled(s, step) && IsQuiet(s, step) && IsWorkerStep(step)
    ensures var t := Next(s, step); SameWork(s, t) && t.answers == s.answers && t.taken == s.taken
  {
  }

  lemma OthersKeepWork(s: State, step: Step)
    requires Enabled(s, step) && !IsWorkerStep(step)
    ensures var t := Next(s, step); SameWork(s, t) && t.answers == s.answers && t.taken == s.taken
  {
  }

  lemma QuietStepsKeepWork(s: State, step: Step)
    requires Enabled(s, step) && IsQuiet(s, step)
    ensures var t := Next(s, step); SameWork(s, t) && t.answers == s.answers && t.taken == s.taken
  {
    if IsWorkerStep(step) {
      QuietWorkerKeepsWork(s, step);
    } else {
      OthersKeepWork(s, step);
    }
  }

  lemma QuietStepsKeepFifo(s: State, step: Step)
    requires Fifo(s) && Enabled(s, step) && IsQuiet(s, step)
    ensures Fifo(Next(s, step))
  {
    var t := Next(s, step);
    if step.Submit? {
      assert t.registered == t.taken + t.queue;
    }
  }

  /** Every step keeps the books. */
  lemma StepKeepsHistory(s: State, step: Step)
    requires History(s) && Enabled(s, step)
    ensures History(Next(s, step))
  {
    if step.Respond? {
      RespondStep(s, step.w, step.outcome);
    } else if IsQuiet(s, step) {
      QuietStepsKeepWork(s, step);
      QuietStepsKeepFifo(s, step);
      QuietStep(s, Next(s, step));
    } else {
      PopStep(s, step.w);
    }
  }

  lemma {:induction false} RunKeepsHistory(s: State, steps: seq<Step>)
    requires History(s) && CanRun(s, steps)
    ensures History(Run(s, steps))
    decreases |steps|
  {
    if steps != [] {
      StepKeepsHistory(s, steps[0]);
      RunKeepsHistory(Next(s, steps[0]), steps[1..]);
    }
  }

  ghost predicate Queued(s: State, k: nat) {
    exists e :: e in s.queue && e.serial == k
  }

  lemma QueuedIsNotTaken(s: State, k: nat)
    requires History(s) && k < |s.registered|
    ensures Queued(s, k) <==> k >= |s.taken|
  {
    if k >= |s.taken| {
      assert s.queue[k - |s.taken|] == s.registered[k];
      assert s.queue[k - |s.taken|] in s.queue;
    }
    if Queued(s, k) {
      var e :| e in s.queue && e.serial == k;
      var i :| 0 <= i < |s.queue| && s.queue[i] == e;
      assert s.registered[|s.taken| + i] == e;
    }
  }

  /** Executors are taken in the order in which they were registered; each is in the
      queue, on a thread, or answered, and only one of these; on one thread at most,
      and with one answer at most. */
  ghost predicate HandledOnce(s: State, k: nat) {
    && s.taken <= s.registered && |s.taken| <= |s.registered| && s.queue == s.registered[|s.taken|..]
    && (Queued(s, k) || Running(s, k) || Answered(s, k))
    && !(Queued(s, k) && Running(s, k)) && !(Queued(s, k) && Answered(s, k)) && !(Running(s, k) && Answered(s, k))
    && (forall v: nat, w: nat :: RunsOn(s, k, v) && RunsOn(s, k, w) ==> v == w)
    && (forall i: nat, j: nat :: Answers(s, k, i) && Answers(s, k, j) ==> i == j)
  }

  lemma HistoryHandlesOnce(s: State, k: nat)
    requires History(s) && k < |s.registered|
    ensures HandledOnce(s, k)
  {
    QueuedIsNotTaken(s, k);
  }

  /** In every run from a newly built server. */
  lemma ExactlyOnce(steps: seq<Step>, k: nat)
    requires CanRun(INITIAL, steps) && k < |Run(INITIAL, steps).registered|
    ensures HandledOnce(Run(INITIAL, steps), k)
  {
    RunKeepsHistory(INITIAL, steps);
    HistoryHandlesOnce(Run(INITIAL, steps), k);
  }
}
