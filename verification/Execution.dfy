/** What becomes of the exceptions that a method, or the handling of its request,
    throws: the catch clauses of both executors and of `Server::schedule_execute`. */
module Execution {
  import opened Text
  import opened Values
  import M = Messages

  /** Exceptions, by the catch clauses that tell them apart. */
  datatype Thrown =
    | Fault(code: int32, what: string)
    | HttpError(status: int, phrase: string)
    | OtherException(code: int32, what: string)  // any other iqxmlrpc::Exception
    | Standard(what: string)                     // any other std::exception
    | Unknown

  /** How `Method::process_execution` ends. */
  datatype Outcome = Returned(value: Value) | Threw(thrown: Thrown)

  /** What is sent: a packet with an XML-RPC response, or a bare HTTP error. */
  datatype Reply = XmlReply(response: M.Response) | HttpReply(status: int, phrase: string)

  const UNKNOWN_ERROR := "Unknown Error"
  const APPLICATION_ERROR: int32 := -32500

  function What(t: Thrown): string {
    match t
    case HttpError(_, phrase) => "HTTP: " + phrase
    case Unknown => UNKNOWN_ERROR
    case _ => t.what
  }

  /** What a pool thread answers. */
  function PoolResponse(outcome: Outcome): M.Response {
    match outcome
    case Returned(v) => M.OkResponse(v)
    case Threw(Fault(code, what)) => M.FaultResponse(code, what)
    case Threw(t) => M.FaultResponse(-1, What(t))
  }

  /** What the server answers to an exception that reaches `schedule_execute`. */
  function CaughtReply(t: Thrown): Reply {
    match t
    case HttpError(status, phrase) => HttpReply(status, phrase)
    case Fault(code, what) => XmlReply(M.FaultResponse(code, what))
    case OtherException(code, what) => XmlReply(M.FaultResponse(code, what))
    case _ => XmlReply(M.FaultResponse(APPLICATION_ERROR, What(t)))
  }

  function SerialReply(outcome: Outcome): Reply {
    match outcome
    case Returned(v) => XmlReply(M.OkResponse(v))
    case Threw(t) => CaughtReply(t)
  }

  /** The same method answers alike under both executors exactly when it returns,
      throws a Fault, or throws an exception of the library with code -1 that is
      no HTTP error. */
  lemma ExecutorsAgree(outcome: Outcome)
    ensures SerialReply(outcome) == XmlReply(PoolResponse(outcome)) <==>
      || outcome.Returned?
      || outcome.thrown.Fault?
      || (outcome.thrown.OtherException? && outcome.thrown.code == -1)
  {
    if outcome.Threw? {
      var t := outcome.thrown;
      assert t.Standard? || t.Unknown? ==> CaughtReply(t).response.code == APPLICATION_ERROR;
    }
  }

  // ----- Answers that cannot be sent ------------------------------------------

  /** What the attempts to send an answer throw, in their order: while the response
      is printed, or while the connection is registered for output. */
  type Trouble = nat -> Option<Thrown>

  /** Where an exchange has got to: how many attempts it has made, what was sent, and
      the exception that is under way if nothing was. */
  datatype Progress = Progress(attempts: nat, reply: Option<Reply>, thrown: Option<Thrown>)

  function Attempt(trouble: Trouble, n: nat, reply: Reply): Progress {
    if trouble(n) == None then Progress(n + 1, Some(reply), None) else Progress(n + 1, None, trouble(n))
  }

  /** The part of both executors that is inside their try block. */
  function Tried(trouble: Trouble, n: nat, outcome: Outcome): Progress {
    match outcome
    case Returned(v) => Attempt(trouble, n, XmlReply(M.OkResponse(v)))
    case Threw(t) => Progress(n, None, Some(t))
  }

  function SerialRun(trouble: Trouble, n: nat, outcome: Outcome): Progress {
    var p := Tried(trouble, n, outcome);
    match p.thrown
    case Some(Fault(code, what)) => Attempt(trouble, p.attempts, XmlReply(M.FaultResponse(code, what)))
    case _ => p
  }

  function PoolRun(trouble: Trouble, n: nat, outcome: Outcome): Progress {
    var p := Tried(trouble, n, outcome);
    match p.thrown
    case None => p
    case Some(t) => Attempt(trouble, p.attempts, XmlReply(PoolResponse(Threw(t))))
  }

  function Caught(trouble: Trouble, p: Progress): Progress {
    match p.thrown
    case None => p
    case Some(t) => Attempt(trouble, p.attempts, CaughtReply(t))
  }

  /** `failure` is what authentication, the parser or the dispatchers throw before
      there is an executor. */
  function ExchangeRun(trouble: Trouble, n: nat, failure: Option<Thrown>, pooled: bool, outcome: Outcome): Progress {
    if failure.Some? then Caught(trouble, Progress(n, None, failure))
    else if pooled then PoolRun(trouble, n, outcome)
    else Caught(trouble, SerialRun(trouble, n, outcome))
  }

  /** What is answered when nothing gets in the way. */
  function AnswerTo(failure: Option<Thrown>, pooled: bool, outcome: Outcome): Reply {
    if failure.Some? then CaughtReply(failure.value)
    else if pooled then XmlReply(PoolResponse(outcome))
    else SerialReply(outcome)
  }

  /** Attempts are made until one succeeds or there is no catch clause left, three at
      most. One answer is sent, or none and the exception of the last attempt
      escapes; it is the right answer if the first attempt succeeds. */
  lemma AnsweredOnce(trouble: Trouble, n: nat, failure: Option<Thrown>, pooled: bool, outcome: Outcome)
    ensures var p := ExchangeRun(trouble, n, failure, pooled, outcome);
      && n < p.attempts <= n + 3
      && p.thrown == trouble(p.attempts - 1) && (p.reply == None <==> p.thrown.Some?)
      && (forall i :: n <= i < p.attempts - 1 ==> trouble(i).Some?)
      && (trouble(n) == None ==> p.reply == Some(AnswerTo(failure, pooled, outcome)))
  {
  }

  /** The exception under way when the last attempt is made: that of the attempt before
      it, or else that of the exchange, if it has thrown one. */
  function Cause(trouble: Trouble, n: nat, failure: Option<Thrown>, outcome: Outcome, last: nat): Option<Thrown> {
    if last > n then trouble(last - 1)
    else if failure.Some? then failure
    else if outcome.Threw? then Some(outcome.thrown) else None
  }

  /** What is sent depends on that exception alone: a result if there is none, an HTTP
      error under its own status and phrase, a fault or another exception of the library
      under its own code, and all others as application errors. A pool thread knows the
      codes of faults only. */
  lemma AnswerSent(trouble: Trouble, n: nat, failure: Option<Thrown>, pooled: bool, outcome: Outcome)
    requires ExchangeRun(trouble, n, failure, pooled, outcome).reply.Some?
    ensures var p := ExchangeRun(trouble, n, failure, pooled, outcome);
      var inPool := pooled && failure == None;
      match Cause(trouble, n, failure, outcome, p.attempts - 1)
      case None => outcome.Returned? && p.reply.value == XmlReply(M.OkResponse(outcome.value))
      case Some(Fault(code, what)) => p.reply.value == XmlReply(M.FaultResponse(code, what))
      case Some(HttpError(status, phrase)) =>
        p.reply.value == if inPool then XmlReply(M.FaultResponse(-1, "HTTP: " + phrase)) else HttpReply(status, phrase)
      case Some(OtherException(code, what)) =>
        p.reply.value == XmlReply(M.FaultResponse(if inPool then -1 else code, what))
      case Some(Standard(what)) =>
        p.reply.value == XmlReply(M.FaultResponse(if inPool then -1 else -32500, what))
      case Some(Unknown) =>
        p.reply.value == XmlReply(M.FaultResponse(if inPool then -1 else -32500, "Unknown Error"))
  {
    AttemptsMade(trouble, n, failure, pooled, outcome);
  }

  /** How many attempts are made: one, or outside the try blocks no more than that; after
      it a second one, and a third one if the second was that of `Serial_executor` to
      answer a fault. */
  lemma AttemptsMade(trouble: Trouble, n: nat, failure: Option<Thrown>, pooled: bool, outcome: Outcome)
    ensures ExchangeRun(trouble, n, failure, pooled, outcome).attempts ==
      if trouble(n) == None || !InTry(failure, pooled, outcome) then n + 1
      else if !pooled && outcome.Returned? && trouble(n).value.Fault? && trouble(n + 1).Some? then n + 3
      else n + 2
  {
  }

  /** The first attempt is made inside a try block. */
  predicate InTry(failure: Option<Thrown>, pooled: bool, outcome: Outcome) {
    failure == None && (outcome.Returned? || (!pooled && outcome.thrown.Fault?))
  }

  /** There is one attempt, and with an executor one deletion of it, exactly if that
      succeeds or is made outside the try blocks; every other attempt deletes the
      executor again. */
  lemma DeletedOnce(trouble: Trouble, n: nat, failure: Option<Thrown>, pooled: bool, outcome: Outcome)
    ensures ExchangeRun(trouble, n, failure, pooled, outcome).attempts == n + 1 <==>
            trouble(n) == None || !InTry(failure, pooled, outcome)
  {
  }

  /** One request of one connection, from the packet to the answer. */
  class Exchange {
    const trouble: Trouble
    var attempts: nat
    var sent: seq<Reply>
    var created: bool    // there is a pointer to an executor
    var deletions: nat   // of that executor
    var inPool: bool     // the pool has a pointer to it

    constructor (trouble: Trouble)
      ensures this.trouble == trouble && attempts == deletions == 0 && sent == [] && !created && !inPool
    {
      this.trouble := trouble;
      attempts, deletions, sent, created, inPool := 0, 0, [], false, false;
    }

    /** The progress is that, and each attempt since `n` has deleted the executor. */
    twostate predicate Made(p: Progress)
      reads this
    {
      && attempts == p.attempts && old(attempts) <= attempts
      && sent == (if p.reply.Some? then old(sent) + [p.reply.value] else old(sent))
      && deletions == old(deletions) + if created then attempts - old(attempts) else 0
    }

    /** `Server_connection::schedule_response`, which sends nothing when it throws. */
    method Send(reply: Reply) returns (thrown: Option<Thrown>)
      modifies this`attempts, this`sent
      ensures thrown == trouble(old(attempts)) && attempts == old(attempts) + 1
      ensures sent == if thrown == None then old(sent) + [reply] else old(sent)
    {
      thrown := trouble(attempts);
      attempts := attempts + 1;
      if thrown == None {
        sent := sent + [reply];
      }
    }

    /** `Server::schedule_response`, which deletes the executor in any case. */
    method ScheduleResponse(r: M.Response) returns (thrown: Option<Thrown>)
      modifies this`attempts, this`sent, this`deletions
      ensures var p := Attempt(trouble, old(attempts), XmlReply(r)); Made(p) && thrown == p.thrown
    {
      thrown := Send(XmlReply(r));
      if created {
        deletions := deletions + 1;
      }
    }

    /** `Serial_executor::execute`; an exception that leaves it is returned. */
    method SerialExecute(outcome: Outcome) returns (thrown: Option<Thrown>)
      requires created
      modifies this`attempts, this`sent, this`deletions
      ensures var p := SerialRun(trouble, old(attempts), outcome); Made(p) && thrown == p.thrown
    {
      match outcome {
        case Returned(v) => thrown := ScheduleResponse(M.OkResponse(v));
        case Threw(t) => thrown := Some(t);
      }
      match thrown
      case Some(Fault(code, what)) => thrown := ScheduleResponse(M.FaultResponse(code, what));
      case _ =>
    }

    /** `Pool_executor::process_actual_execution`. */
    method ProcessActualExecution(outcome: Outcome) returns (thrown: Option<Thrown>)
      requires created && inPool
      modifies this`attempts, this`sent, this`deletions, this`inPool
      ensures var p := PoolRun(trouble, old(attempts), outcome); Made(p) && thrown == p.thrown && !inPool
    {
      inPool := false;
      match outcome {
        case Returned(v) => thrown := ScheduleResponse(M.OkResponse(v));
        case Threw(t) => thrown := Some(t);
      }
      match thrown
      case None =>
      case Some(Fault(code, what)) => thrown := ScheduleResponse(M.FaultResponse(code, what));
      case Some(Unknown) => thrown := ScheduleResponse(M.FaultResponse(-1, UNKNOWN_ERROR));
      case Some(t) => thrown := ScheduleResponse(M.FaultResponse(-1, What(t)));
    }

    /** The catch clauses of `Server::schedule_execute`; an exception that leaves one
        of them is returned. */
    method Catch(caught: Thrown) returns (thrown: Option<Thrown>)
      modifies this`attempts, this`sent, this`deletions
      ensures var p := Attempt(trouble, old(attempts), CaughtReply(caught)); Made(p) && thrown == p.thrown
    {
      match caught
      case HttpError(status, phrase) =>
        if created {
          deletions := deletions + 1;
        }
        thrown := Send(HttpReply(status, phrase));
      case Standard(what) => thrown := ScheduleResponse(M.FaultResponse(APPLICATION_ERROR, what));
      case Unknown => thrown := ScheduleResponse(M.FaultResponse(APPLICATION_ERROR, UNKNOWN_ERROR));
      case e => thrown := ScheduleResponse(M.FaultResponse(e.code, e.what));
    }

    /** `Server::schedule_execute`. With a pool the executor waits there and nothing
        is sent yet, unless there is none because of a failure. */
    method ScheduleExecute(failure: Option<Thrown>, pooled: bool, outcome: Outcome) returns (thrown: Option<Thrown>)
      requires !created && !inPool
      modifies this
      ensures created == (failure == None) && inPool == (created && pooled)
      ensures inPool ==>
        thrown == None && sent == old(sent) && attempts == old(attempts) && deletions == old(deletions)
      ensures !inPool ==>
        var p := ExchangeRun(trouble, old(attempts), failure, false, outcome); Made(p) && thrown == p.thrown
    {
      thrown := failure;
      if failure == None {
        created := true;
        if pooled {
          inPool := true;
        } else {
          thrown := SerialExecute(outcome);
        }
      }
      if thrown.Some? {
        thrown := Catch(thrown.value);
      }
    }

    /** A request under either executor. What is returned has escaped: to the handler
        of the connection, or on a pool thread to nobody. */
    method Serve(failure: Option<Thrown>, pooled: bool, outcome: Outcome) returns (thrown: Option<Thrown>)
      requires !created && !inPool
      modifies this
      ensures var p := ExchangeRun(trouble, old(attempts), failure, pooled, outcome); Made(p) && thrown == p.thrown
      ensures created == (failure == None) && !inPool
    {
      thrown := ScheduleExecute(failure, pooled, outcome);
      if inPool {
        thrown := ProcessActualExecution(outcome);
      }
    }
  }
}
