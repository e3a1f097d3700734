/** Requests and responses: printing, parsing, and when the one undoes the other. */
module Messages {
  import opened Text
  import opened OrderedMap
  import opened Values
  import opened Xml
  import opened Printer
  import opened Builders
  import opened RoundTrip
  import opened Equality
  import Accounting
  import Exactness

  datatype Request = Request(name: string, params: seq<Value>)
  datatype Response = OkResponse(value: Value) | FaultResponse(code: int32, str: string)

  datatype Parsed<+T> = Parsed(message: T) | Failed(error: Error)

  /** A value comes back unchanged, with string tags or without, if and only if no
      string in it is blank, no member name is, and at no depth it has too many nils.
      Whatever follows it is left for the enclosing builder, behind the end tags that
      its nils leave unread. */
  lemma ValueRoundTrip(o: Options, bare: bool, v: Value, rest: seq<Token>)
    requires Regular(o, v) && Printable(v)
    ensures var r := Parse(o, Start(NEW_VALUE, false), Content(o, bare, v) + ([Close(ValueTag)] + rest));
      && (r.Done? && NilsFit(v) ==> r.builder.core.ValueCore? && Leaves(r.rest, Leak(v), [Close(ValueTag)] + rest))
      && (r.Done? && Plain(OrEmpty(r.builder.core.got)) == Plain(v) <==>
          NilsFit(v) && NamesReadable(v) && StringsReadable(v))
  {
    Exactness.ValueComesBack(o, bare, v, false, rest);
    if NilsFit(v) {
      ValueParses(o, bare, v, false, rest);
    }
  }

  // ----- Requests -----------------------------------------------------------

  function ParamsTokens(o: Options, ps: seq<Value>): seq<Token>
    requires forall i :: 0 <= i < |ps| ==> Printable(ps[i])
  {
    if ps == [] then []
    else Wrap(Param, InValue(o, false, ps[0])) + ParamsTokens(o, ps[1..])
  }

  function RequestTokens(o: Options, r: Request): seq<Token>
    requires forall i :: 0 <= i < |r.params| ==> Printable(r.params[i])
  {
    Wrap(MethodCall, Leaf(MethodName, r.name) + Wrap(Params, ParamsTokens(o, r.params)))
  }

  function ParseRequest(o: Options, toks: seq<Token>): Parsed<Request> {
    match Parse(o, Start(NEW_REQUEST, false), toks)
    case Fail(e) => Failed(e)
    case Done(b, _) =>
      if b.core.methodName == None then Failed(XmlRpcViolation)
      else Parsed(Request(b.core.methodName.value, b.core.params))
  }

  predicate GoodParam(o: Options, v: Value) {
    Regular(o, v) && NilsFit(v) && Printable(v)
  }

  predicate GoodParams(o: Options, ps: seq<Value>) {
    forall i :: 0 <= i < |ps| ==> GoodParam(o, ps[i])
  }

  /** How many end tags a parameter withholds from the request builder: a scalar
      takes its own closing value tag along, and a nil or a container with nils
      leaves some behind. */
  function Withheld(v: Value): int {
    var left: int := Leak(v);
    if IsScalar(v) then 1 else -left
  }

  /** The parameters a request builder ends up with, starting at the given
      depth; None where it throws. It is through when the depth is down to zero. */
  function Received(ps: seq<Value>, depth: nat): Option<seq<Value>>
    requires depth > 0
  {
    if ps == [] then Some([])
    else if !NamesReadable(ps[0]) then None
    else if depth + Withheld(ps[0]) <= 0 then Some([Reparsed(ps[0])])
    else
      match Received(ps[1..], depth + Withheld(ps[0]))
      case None => None
      case Some(more) => Some([Reparsed(ps[0])] + more)
  }

  function RequestAt(st: RequestState, name: Option<string>, acc: seq<Value>, depth: nat): Builder {
    Builder(RequestCore(st, name, acc), depth, false)
  }

  /** The value of a parameter, with the tokens that the request builder sees
      again afterwards: end tags, and then what follows the value. */
  lemma ParamValue(o: Options, bare: bool, v: Value, rest: seq<Token>)
    requires GoodParam(o, v)
    ensures var r := Parse(o, Start(NEW_VALUE, true), Content(o, bare, v) + ([Close(ValueTag)] + rest));
      if !NamesReadable(v) then r == Fail(XmlRpcViolation)
      else
        && r.Done? && r.builder.core.ValueCore? && r.builder.core.got == Some(Reparsed(v))
        && Leaves(r.rest, if EatsClose(bare, v) then 0 else Leak(v) + 1, rest)
  {
    ValueParses(o, bare, v, true, rest);
    if NamesReadable(v) {
      EndsBeforeRest(o, bare, v, rest, Parse(o, Start(NEW_VALUE, true), Content(o, bare, v) + ([Close(ValueTag)] + rest)));
    }
  }

  lemma EndsBeforeRest(o: Options, bare: bool, v: Value, rest: seq<Token>, r: Outcome)
    requires NamesReadable(v) && Reads(o, bare, v, true, rest, r)
    ensures Leaves(r.rest, if EatsClose(bare, v) then 0 else Leak(v) + 1, rest)
  {
    if EatsClose(bare, v) {
      LeavesNothing(rest);
    } else {
      var ends :| Ends(ends, Leak(v)) && r.rest == ends + ([Close(ValueTag)] + rest);
      assert Ends(ends + [Close(ValueTag)], Leak(v) + 1);
      assert ends + ([Close(ValueTag)] + rest) == ends + [Close(ValueTag)] + rest;
    }
  }

  /** A parameter up to the outcome of its sub-build. */
  lemma ParamOpens(o: Options, acc: seq<Value>, st: RequestState, name: Option<string>, depth: nat, toks: seq<Token>)
    requires st == InParams || st == ParamRead
    ensures var r := Parse(o, Start(NEW_VALUE, true), toks);
      var p := Parse(o, RequestAt(st, name, acc, depth), [Open(Param)] + ([Open(ValueTag)] + toks));
      && (r.Fail? ==> p == r)
      && (r.Done? && r.builder.core.got == None ==> p.Fail?)
      && (r.Done? && r.builder.core.got.Some? ==>
            p == Parse(o, RequestAt(ParamRead, name, acc + [r.builder.core.got.value], depth + 2), r.rest))
  {
    OpenSettles(o, RequestAt(st, name, acc, depth), Param, RequestCore(InParam, name, acc), false, [Open(ValueTag)] + toks);
    OpenSubBuilds(o, RequestAt(InParam, name, acc, depth + 1), ValueTag, NEW_VALUE, true, toks);
  }

  /** The parse goes on with the parameter taken, or is over with it. */
  ghost predicate TakesParam(o: Options, v: Value, b: Builder, rest: seq<Token>, r: Outcome)
    requires b.depth > 0
  {
    var d := b.depth + Withheld(v);
    if d > 0 then r == Parse(o, Builder(b.core, d, false), rest)
    else r.Done? && r.builder.core == b.core
  }

  /** The parameter is taken, and what its sub-build has left is to be read. */
  ghost predicate GoesOnWith(o: Options, v: Value, acc: seq<Value>, name: Option<string>, depth: nat, rest: seq<Token>,
                             r: Outcome, left: seq<Token>)
  {
    && Leaves(left, if EatsClose(false, v) then 0 else Leak(v) + 1, rest)
    && r == Parse(o, RequestAt(ParamRead, name, acc + [Reparsed(v)], depth + 2), left)
  }

  /** A parameter with the outcome of its sub-build. */
  ghost predicate HoldsParam(o: Options, v: Value, acc: seq<Value>, name: Option<string>, depth: nat, rest: seq<Token>,
                             r: Outcome)
  {
    if !NamesReadable(v) then r == Fail(XmlRpcViolation)
    else exists left :: GoesOnWith(o, v, acc, name, depth, rest, r, left)
  }

  lemma ParamReads(o: Options, v: Value, acc: seq<Value>, st: RequestState, name: Option<string>, depth: nat,
                   rest: seq<Token>)
    requires GoodParam(o, v) && (st == InParams || st == ParamRead)
    ensures HoldsParam(o, v, acc, name, depth, rest,
                       Parse(o, RequestAt(st, name, acc, depth), [Open(Param)] + (InValue(o, false, v) + rest)))
  {
    var toks := Content(o, false, v) + ([Close(ValueTag)] + rest);
    InValueTokens(o, false, v, rest);
    ParamValue(o, false, v, rest);
    ParamOpens(o, acc, st, name, depth, toks);
    if NamesReadable(v) {
      assert GoesOnWith(o, v, acc, name, depth, rest,
                        Parse(o, RequestAt(st, name, acc, depth), [Open(Param)] + (InValue(o, false, v) + rest)),
                        Parse(o, Start(NEW_VALUE, true), toks).rest);
    }
  }

  lemma ParamParses(o: Options, v: Value, acc: seq<Value>, st: RequestState, name: Option<string>, depth: nat,
                    rest: seq<Token>)
    requires GoodParam(o, v)
    requires depth > 0 && (st == InParams || st == ParamRead)
    ensures var r := Parse(o, RequestAt(st, name, acc, depth), [Open(Param)] + (InValue(o, false, v) + ([Close(Param)] + rest)));
      if !NamesReadable(v) then r == Fail(XmlRpcViolation)
      else TakesParam(o, v, RequestAt(ParamRead, name, acc + [Reparsed(v)], depth), rest, r)
  {
    ParamReads(o, v, acc, st, name, depth, [Close(Param)] + rest);
    ParamFrom(o, v, acc, name, depth, rest,
              Parse(o, RequestAt(st, name, acc, depth), [Open(Param)] + (InValue(o, false, v) + ([Close(Param)] + rest))));
  }

  lemma ParamFrom(o: Options, v: Value, acc: seq<Value>, name: Option<string>, depth: nat, rest: seq<Token>, r: Outcome)
    requires depth > 0 && HoldsParam(o, v, acc, name, depth, [Close(Param)] + rest, r)
    ensures if !NamesReadable(v) then r == Fail(XmlRpcViolation)
            else TakesParam(o, v, RequestAt(ParamRead, name, acc + [Reparsed(v)], depth), rest, r)
  {
    if NamesReadable(v) {
      var left :| GoesOnWith(o, v, acc, name, depth, [Close(Param)] + rest, r, left);
      ParamCloses(o, v, RequestAt(ParamRead, name, acc + [Reparsed(v)], depth), left, rest);
    }
  }

  /** The end tags after a parameter value. */
  lemma ParamCloses(o: Options, v: Value, b: Builder, left: seq<Token>, rest: seq<Token>)
    requires b.core.RequestCore? && b.depth > 0 && !b.wantExit
    requires Leaves(left, if EatsClose(false, v) then 0 else Leak(v) + 1, [Close(Param)] + rest)
    ensures TakesParam(o, v, b, rest, Parse(o, b.(depth := b.depth + 2), left))
  {
    var n := if EatsClose(false, v) then 0 else Leak(v) + 1;
    var ends :| Ends(ends, n) && left == ends + ([Close(Param)] + rest);
    var all := ends + [Close(Param)];
    assert left == all + rest;
    EndsClose(o, b.core, b.depth + 2, all, rest);
  }

  lemma ParamsEnd(o: Options, b: Builder)
    requires b.core.RequestCore? && b.depth > 0
    ensures var r := Parse(o, b, [Close(Params)] + ([Close(MethodCall)] + [])); r.Done? && r.builder.core == b.core
  {
    ParseClose(o, b, Params, [Close(MethodCall)] + []);
    if b.depth > 1 && !b.wantExit {
      ParseClose(o, b.(depth := b.depth - 1), MethodCall, []);
    }
  }

  lemma FirstParam(o: Options, ps: seq<Value>, tail: seq<Token>)
    requires ps != [] && forall i :: 0 <= i < |ps| ==> Printable(ps[i])
    ensures ParamsTokens(o, ps) + tail ==
            [Open(Param)] + (InValue(o, false, ps[0]) + ([Close(Param)] + (ParamsTokens(o, ps[1..]) + tail)))
  {
    FirstRegrouped(InValue(o, false, ps[0]), ParamsTokens(o, ps[1..]), tail);
  }

  lemma FirstRegrouped(value: seq<Token>, more: seq<Token>, tail: seq<Token>)
    ensures Wrap(Param, value) + more + tail == [Open(Param)] + (value + ([Close(Param)] + (more + tail)))
  {
  }

  /** What a request builder makes of the parameters. */
  ghost predicate Receives(r: Outcome, ps: seq<Value>, acc: seq<Value>, name: Option<string>, depth: nat)
    requires depth > 0
  {
    var got := Received(ps, depth);
    if got == None then r == Fail(XmlRpcViolation)
    else r.Done? && r.builder.core.RequestCore? && r.builder.core.methodName == name
         && r.builder.core.params == acc + got.value
  }

  lemma {:induction false} ParamsParse(o: Options, ps: seq<Value>, acc: seq<Value>, st: RequestState, name: Option<string>,
                                       depth: nat)
    requires GoodParams(o, ps) && (forall i :: 0 <= i < |ps| ==> Printable(ps[i]))
    requires depth > 0 && (st == InParams || st == ParamRead)
    ensures Receives(Parse(o, RequestAt(st, name, acc, depth), ParamsTokensFrom(o, ps)), ps, acc, name, depth)
  {
    if ps == [] {
      NoParams(o, ps, acc, st, name, depth);
    } else {
      if NamesReadable(ps[0]) && depth + Withheld(ps[0]) > 0 {
        ParamsParse(o, ps[1..], acc + [Reparsed(ps[0])], ParamRead, name, depth + Withheld(ps[0]));
      }
      ManyParams(o, ps, acc, st, name, depth);
    }
  }

  lemma ManyParams(o: Options, ps: seq<Value>, acc: seq<Value>, st: RequestState, name: Option<string>, depth: nat)
    requires ps != [] && GoodParam(o, ps[0]) && (forall i :: 0 <= i < |ps| ==> Printable(ps[i]))
    requires depth > 0 && (st == InParams || st == ParamRead)
    requires var d := depth + Withheld(ps[0]);
      NamesReadable(ps[0]) && d > 0 ==>
        Receives(Parse(o, RequestAt(ParamRead, name, acc + [Reparsed(ps[0])], d), ParamsTokensFrom(o, ps[1..])),
                 ps[1..], acc + [Reparsed(ps[0])], name, d)
    ensures Receives(Parse(o, RequestAt(st, name, acc, depth), ParamsTokensFrom(o, ps)), ps, acc, name, depth)
  {
    FirstParamParses(o, ps, acc, st, name, depth);
    FirstAndRest(o, ps, acc, name, depth, Parse(o, RequestAt(st, name, acc, depth), ParamsTokensFrom(o, ps)));
  }

  lemma FirstAndRest(o: Options, ps: seq<Value>, acc: seq<Value>, name: Option<string>, depth: nat, r: Outcome)
    requires depth > 0 && ps != [] && (forall i :: 0 <= i < |ps| ==> Printable(ps[i]))
    requires if !NamesReadable(ps[0]) then r == Fail(XmlRpcViolation)
             else TakesParam(o, ps[0], RequestAt(ParamRead, name, acc + [Reparsed(ps[0])], depth), ParamsTokensFrom(o, ps[1..]), r)
    requires var d := depth + Withheld(ps[0]);
      NamesReadable(ps[0]) && d > 0 ==>
        Receives(Parse(o, RequestAt(ParamRead, name, acc + [Reparsed(ps[0])], d), ParamsTokensFrom(o, ps[1..])),
                 ps[1..], acc + [Reparsed(ps[0])], name, d)
    ensures Receives(r, ps, acc, name, depth)
  {
    if NamesReadable(ps[0]) && depth + Withheld(ps[0]) > 0 {
      MoreParams(ps, acc, name, depth, r);
    } else {
      NoMoreParams(ps, acc, name, depth, r);
    }
  }

  function ParamsTokensFrom(o: Options, ps: seq<Value>): seq<Token>
    requires forall i :: 0 <= i < |ps| ==> Printable(ps[i])
  {
    ParamsTokens(o, ps) + ([Close(Params)] + ([Close(MethodCall)] + []))
  }

  lemma NoParams(o: Options, ps: seq<Value>, acc: seq<Value>, st: RequestState, name: Option<string>, depth: nat)
    requires ps == [] && depth > 0
    ensures Receives(Parse(o, RequestAt(st, name, acc, depth), ParamsTokensFrom(o, ps)), ps, acc, name, depth)
  {
    var closing := [Close(Params)] + ([Close(MethodCall)] + []);
    assert ParamsTokens(o, ps) + closing == closing && acc + [] == acc;
    ParamsEnd(o, RequestAt(st, name, acc, depth));
  }

  lemma FirstParamParses(o: Options, ps: seq<Value>, acc: seq<Value>, st: RequestState, name: Option<string>, depth: nat)
    requires ps != [] && GoodParam(o, ps[0]) && (forall i :: 0 <= i < |ps| ==> Printable(ps[i]))
    requires depth > 0 && (st == InParams || st == ParamRead)
    ensures var r := Parse(o, RequestAt(st, name, acc, depth), ParamsTokensFrom(o, ps));
      if !NamesReadable(ps[0]) then r == Fail(XmlRpcViolation)
      else TakesParam(o, ps[0], RequestAt(ParamRead, name, acc + [Reparsed(ps[0])], depth), ParamsTokensFrom(o, ps[1..]), r)
  {
    FirstParam(o, ps, [Close(Params)] + ([Close(MethodCall)] + []));
    ParamParses(o, ps[0], acc, st, name, depth, ParamsTokensFrom(o, ps[1..]));
  }

  lemma MoreParams(ps: seq<Value>, acc: seq<Value>, name: Option<string>, depth: nat, r: Outcome)
    requires depth > 0 && ps != [] && NamesReadable(ps[0]) && depth + Withheld(ps[0]) > 0
    requires Receives(r, ps[1..], acc + [Reparsed(ps[0])], name, depth + Withheld(ps[0]))
    ensures Receives(r, ps, acc, name, depth)
  {
    FirstReceived(ps, acc, depth);
  }

  lemma NoMoreParams(ps: seq<Value>, acc: seq<Value>, name: Option<string>, depth: nat, r: Outcome)
    requires depth > 0 && ps != []
    requires if !NamesReadable(ps[0]) then r == Fail(XmlRpcViolation)
             else
               && depth + Withheld(ps[0]) <= 0
               && r.Done? && r.builder.core == RequestCore(ParamRead, name, acc + [Reparsed(ps[0])])
    ensures Receives(r, ps, acc, name, depth)
  {
  }

  lemma FirstReceived(ps: seq<Value>, acc: seq<Value>, depth: nat)
    requires depth > 0 && ps != [] && NamesReadable(ps[0]) && depth + Withheld(ps[0]) > 0
    ensures var more := Received(ps[1..], depth + Withheld(ps[0]));
      && (more == None <==> Received(ps, depth) == None)
      && (more.Some? ==> acc + [Reparsed(ps[0])] + more.value == acc + Received(ps, depth).value)
  {
  }

  /** The method name, after which the depth is one too high if it is empty. */
  lemma NameParses(o: Options, name: string, rest: seq<Token>)
    ensures Parse(o, Start(NEW_REQUEST, false), [Open(MethodCall)] + (Leaf(MethodName, name) + ([Open(Params)] + rest))) ==
      if Blank(name) then Fail(XmlRpcViolation)
      else Parse(o, RequestAt(InParams, Some(name), [], if name == "" then 3 else 2), rest)
  {
    var afterName := [Open(Params)] + rest;
    OpenSettles(o, Start(NEW_REQUEST, false), MethodCall, RequestCore(InCall, None, []), false,
                Leaf(MethodName, name) + afterName);
    LeafTokens(MethodName, name, afterName);
    OpenTakesText(o, RequestAt(InCall, None, [], 1), MethodName, name, afterName);
    if name == "" {
      OpenSettles(o, RequestAt(MethodNameRead, Some(name), [], 2), Params, RequestCore(InParams, Some(name), []), false, rest);
    } else if !Blank(name) {
      ParseClose(o, RequestAt(MethodNameRead, Some(name), [], 2), MethodName, afterName);
      OpenSettles(o, RequestAt(MethodNameRead, Some(name), [], 1), Params, RequestCore(InParams, Some(name), []), false, rest);
    }
  }

  /** The depth of the request builder when the parameters begin. */
  function StartDepth(name: string): nat {
    if name == "" then 3 else 2
  }

  lemma RequestRegrouped(o: Options, r: Request)
    requires forall i :: 0 <= i < |r.params| ==> Printable(r.params[i])
    ensures RequestTokens(o, r) ==
      [Open(MethodCall)] + (Leaf(MethodName, r.name) +
        ([Open(Params)] + (ParamsTokens(o, r.params) + ([Close(Params)] + ([Close(MethodCall)] + [])))))
  {
  }

  /** The exact outcome of parsing a printed request. */
  lemma RequestParses(o: Options, r: Request)
    requires GoodParams(o, r.params)
    requires forall i :: 0 <= i < |r.params| ==> Printable(r.params[i])
    ensures var got := Received(r.params, StartDepth(r.name));
      ParseRequest(o, RequestTokens(o, r)) ==
      if Blank(r.name) || got == None then Failed(XmlRpcViolation) else Parsed(Request(r.name, got.value))
  {
    var params := ParamsTokens(o, r.params) + ([Close(Params)] + ([Close(MethodCall)] + []));
    RequestRegrouped(o, r);
    NameParses(o, r.name, params);
    ParamsParse(o, r.params, [], InParams, Some(r.name), StartDepth(r.name));
    var got := Received(r.params, StartDepth(r.name));
    assert got.Some? ==> [] + got.value == got.value;
  }

  function Scalars(ps: seq<Value>): nat {
    if ps == [] then 0 else (if IsScalar(ps[0]) then 1 else 0) + Scalars(ps[1..])
  }

  /** Before the last parameter the end tags that nils leave unread never catch up
      with the scalars and the levels that the builder starts with. */
  predicate NilsHeldBack(ps: seq<Value>, depth: nat) {
    forall k :: 0 < k < |ps| ==> LeakAll(ps[..k]) < Scalars(ps[..k]) + depth
  }

  predicate AllReadable(ps: seq<Value>) {
    forall i :: 0 <= i < |ps| ==> NamesReadable(ps[i]) && StringsReadable(ps[i])
  }

  predicate AllFit(ps: seq<Value>) {
    forall i :: 0 <= i < |ps| ==> NilsFit(ps[i])
  }

  /** A printed request comes back unchanged if and only if its name is not
      blank, no string and no member name in it is blank, no parameter has too many
      nils by itself, and the nils among the parameters are held back. Otherwise
      parameters are dropped, changed or refused. */
  lemma RequestRoundTrip(o: Options, r: Request)
    requires forall i :: 0 <= i < |r.params| ==> Regular(o, r.params[i]) && Printable(r.params[i])
    ensures var p := ParseRequest(o, RequestTokens(o, r));
      p.Parsed? && p.message.name == r.name && PlainItems(p.message.params) == PlainItems(r.params) <==>
      !Blank(r.name) && AllReadable(r.params) && AllFit(r.params) && NilsHeldBack(r.params, StartDepth(r.name))
  {
    if AllFit(r.params) {
      RequestParses(o, r);
      ReceivedUnchanged(o, r.params, StartDepth(r.name));
    } else {
      BadRequest(o, r);
    }
  }

  lemma BadRequest(o: Options, r: Request)
    requires forall i :: 0 <= i < |r.params| ==> Regular(o, r.params[i]) && Printable(r.params[i])
    requires !AllFit(r.params)
    ensures var p := ParseRequest(o, RequestTokens(o, r));
      p.Parsed? ==> PlainItems(p.message.params) != PlainItems(r.params)
  {
    RequestRegrouped(o, r);
    NameParses(o, r.name, ParamsTokensFrom(o, r.params));
    BadParams(o, r.params, [], InParams, Some(r.name), StartDepth(r.name));
    assert PlainItems([]) + PlainItems(r.params) == PlainItems(r.params);
  }

  ghost predicate WrongParams(r: Outcome, acc: seq<Value>, ps: seq<Value>) {
    r.Done? ==> r.builder.core.RequestCore? && Exactness.Differ(r.builder.core.params, acc, ps)
  }

  /** Parameters one of which has too many nils by itself are not what is received. */
  lemma {:induction false} BadParams(o: Options, ps: seq<Value>, acc: seq<Value>, st: RequestState, name: Option<string>,
                                     depth: nat)
    requires forall i :: 0 <= i < |ps| ==> Regular(o, ps[i]) && Printable(ps[i])
    requires !AllFit(ps) && depth > 0 && (st == InParams || st == ParamRead)
    ensures WrongParams(Parse(o, RequestAt(st, name, acc, depth), ParamsTokensFrom(o, ps)), acc, ps)
    decreases ps
  {
    if NilsFit(ps[0]) {
      if NamesReadable(ps[0]) && depth + Withheld(ps[0]) > 0 {
        BadParams(o, ps[1..], acc + [Reparsed(ps[0])], ParamRead, name, depth + Withheld(ps[0]));
      }
      BadLaterParams(o, ps, acc, st, name, depth);
    } else {
      BadParam(o, ps, acc, st, name, depth);
    }
  }

  lemma BadLaterParams(o: Options, ps: seq<Value>, acc: seq<Value>, st: RequestState, name: Option<string>, depth: nat)
    requires ps != [] && GoodParam(o, ps[0]) && !AllFit(ps) && (forall i :: 0 <= i < |ps| ==> Printable(ps[i]))
    requires depth > 0 && (st == InParams || st == ParamRead)
    requires var d := depth + Withheld(ps[0]);
      NamesReadable(ps[0]) && d > 0 ==>
        WrongParams(Parse(o, RequestAt(ParamRead, name, acc + [Reparsed(ps[0])], d), ParamsTokensFrom(o, ps[1..])),
                    acc + [Reparsed(ps[0])], ps[1..])
    ensures WrongParams(Parse(o, RequestAt(st, name, acc, depth), ParamsTokensFrom(o, ps)), acc, ps)
  {
    FirstParamParses(o, ps, acc, st, name, depth);
    FirstOfWrongParams(o, ps, acc, name, depth, Parse(o, RequestAt(st, name, acc, depth), ParamsTokensFrom(o, ps)));
  }

  /** After a parameter that is taken: it has changed, the next ones are wrong, or
      they are dropped. */
  lemma FirstOfWrongParams(o: Options, ps: seq<Value>, acc: seq<Value>, name: Option<string>, depth: nat, r: Outcome)
    requires ps != [] && NilsFit(ps[0]) && !AllFit(ps) && depth > 0
    requires forall i :: 0 <= i < |ps| ==> Printable(ps[i])
    requires if !NamesReadable(ps[0]) then r == Fail(XmlRpcViolation)
             else TakesParam(o, ps[0], RequestAt(ParamRead, name, acc + [Reparsed(ps[0])], depth), ParamsTokensFrom(o, ps[1..]), r)
    requires NamesReadable(ps[0]) && depth + Withheld(ps[0]) > 0 ==> WrongParams(r, acc + [Reparsed(ps[0])], ps[1..])
    ensures WrongParams(r, acc, ps)
  {
    var w, d := Reparsed(ps[0]), depth + Withheld(ps[0]);
    if r.Done? {
      if d <= 0 {
        Exactness.LostItemsDiffer(r.builder.core.params, acc, ps);
      } else if Plain(w) == Plain(ps[0]) {
        Exactness.LaterItemsDiffer(r.builder.core.params, acc, w, ps);
      } else {
        Accounting.ParseExtends(o, RequestAt(ParamRead, name, acc + [w], d), ParamsTokensFrom(o, ps[1..]));
        Exactness.GrownItemsDiffer(r.builder.core.params, acc, w, ps);
      }
    }
  }

  /** A parameter that does not come back by itself is a wrong one for good. */
  lemma BadParam(o: Options, ps: seq<Value>, acc: seq<Value>, st: RequestState, name: Option<string>, depth: nat)
    requires ps != [] && Regular(o, ps[0]) && !NilsFit(ps[0]) && (forall i :: 0 <= i < |ps| ==> Printable(ps[i]))
    requires st == InParams || st == ParamRead
    ensures WrongParams(Parse(o, RequestAt(st, name, acc, depth), ParamsTokensFrom(o, ps)), acc, ps)
  {
    var after := [Close(Param)] + ParamsTokensFrom(o, ps[1..]);
    var toks := Content(o, false, ps[0]) + ([Close(ValueTag)] + after);
    FirstParam(o, ps, [Close(Params)] + ([Close(MethodCall)] + []));
    InValueTokens(o, false, ps[0], after);
    ParamOpens(o, acc, st, name, depth, toks);
    Exactness.BadValue(o, false, ps[0], true, after);
    var sub := Parse(o, Start(NEW_VALUE, true), toks);
    if sub.Done? && sub.builder.core.got.Some? {
      TakenIsWrong(o, ps, acc, sub.builder.core.got.value, RequestAt(ParamRead, name, acc + [sub.builder.core.got.value], depth + 2),
                   sub.rest);
    }
  }

  lemma TakenIsWrong(o: Options, ps: seq<Value>, acc: seq<Value>, w: Value, b: Builder, toks: seq<Token>)
    requires ps != [] && Plain(w) != Plain(ps[0]) && b.core.RequestCore? && b.core.params == acc + [w]
    ensures WrongParams(Parse(o, b, toks), acc, ps)
  {
    Accounting.ParseExtends(o, b, toks);
    var r := Parse(o, b, toks);
    if r.Done? {
      Exactness.GrownItemsDiffer(r.builder.core.params, acc, w, ps);
    }
  }

  lemma {:induction false} ReceivedUnchanged(o: Options, ps: seq<Value>, depth: nat)
    requires GoodParams(o, ps) && depth > 0
    ensures SameIff(ps, depth)
    decreases ps
  {
    if ps != [] {
      ReparsedEqual(o, ps[0]);
      AllReadableRest(ps);
      if depth + Withheld(ps[0]) <= 0 {
        LastReceived(ps, depth);
      } else if NamesReadable(ps[0]) {
        ReceivedUnchanged(o, ps[1..], depth + Withheld(ps[0]));
        MoreReceived(ps, depth);
      }
    }
  }

  /** What is received is what was sent if and only if that can be read and the
      nils in it are held back. */
  ghost predicate SameIff(ps: seq<Value>, depth: nat)
    requires depth > 0
  {
    var got := Received(ps, depth);
    got.Some? && PlainItems(got.value) == PlainItems(ps) <==> AllReadable(ps) && NilsHeldBack(ps, depth)
  }

  lemma LastReceived(ps: seq<Value>, depth: nat)
    requires ps != [] && 0 < depth <= -Withheld(ps[0])
    requires Plain(Reparsed(ps[0])) == Plain(ps[0]) <==> StringsReadable(ps[0])
    requires AllReadable(ps) <==> NamesReadable(ps[0]) && StringsReadable(ps[0]) && AllReadable(ps[1..])
    ensures SameIff(ps, depth)
  {
    PlainOne(Reparsed(ps[0]));
    if |ps| > 1 {
      LeaksOfFirst(ps);
      PlainLength(ps);
    } else {
      assert ps == [ps[0]];
      PlainOne(ps[0]);
    }
  }

  lemma PlainOne(v: Value)
    ensures PlainItems([v]) == [Plain(v)]
  {
    assert [v][1..] == [];
  }

  lemma LeaksOfFirst(ps: seq<Value>)
    requires ps != []
    ensures LeakAll(ps[..1]) == Leak(ps[0]) && Scalars(ps[..1]) == if IsScalar(ps[0]) then 1 else 0
  {
    assert ps[..1][1..] == [];
  }

  lemma MoreReceived(ps: seq<Value>, depth: nat)
    requires depth > 0 && ps != [] && NamesReadable(ps[0]) && depth + Withheld(ps[0]) > 0
    requires SameIff(ps[1..], depth + Withheld(ps[0]))
    requires Plain(Reparsed(ps[0])) == Plain(ps[0]) <==> StringsReadable(ps[0])
    requires AllReadable(ps) <==> NamesReadable(ps[0]) && StringsReadable(ps[0]) && AllReadable(ps[1..])
    ensures SameIff(ps, depth)
  {
    HeldBackRest(ps, depth);
    var more := Received(ps[1..], depth + Withheld(ps[0]));
    if more.Some? {
      PlainFirst([Reparsed(ps[0])] + more.value);
      PlainFirst(ps);
      assert ([Reparsed(ps[0])] + more.value)[1..] == more.value;
    }
  }

  lemma PlainFirst(ps: seq<Value>)
    requires ps != []
    ensures PlainItems(ps) != [] && PlainItems(ps)[0] == Plain(ps[0]) && PlainItems(ps)[1..] == PlainItems(ps[1..])
    ensures PlainItems(ps) == [Plain(ps[0])] + PlainItems(ps[1..])
  {
  }

  lemma AllReadableRest(ps: seq<Value>)
    requires ps != []
    ensures AllReadable(ps) <==> NamesReadable(ps[0]) && StringsReadable(ps[0]) && AllReadable(ps[1..])
  {
    if NamesReadable(ps[0]) && StringsReadable(ps[0]) && AllReadable(ps[1..]) {
      forall i | 0 <= i < |ps| ensures NamesReadable(ps[i]) && StringsReadable(ps[i]) {
        assert i > 0 ==> ps[i] == ps[1..][i - 1];
      }
    }
  }

  lemma HeldBackRest(ps: seq<Value>, depth: nat)
    requires ps != [] && depth + Withheld(ps[0]) > 0
    ensures NilsHeldBack(ps, depth) <==> NilsHeldBack(ps[1..], depth + Withheld(ps[0]))
  {
    var rest, d := ps[1..], depth + Withheld(ps[0]);
    forall k | 0 < k <= |ps|
      ensures LeakAll(ps[..k]) == LeakAll(rest[..k - 1]) + Leak(ps[0])
      ensures Scalars(ps[..k]) == Scalars(rest[..k - 1]) + (if IsScalar(ps[0]) then 1 else 0)
    {
      assert ps[..k][0] == ps[0] && ps[..k][1..] == rest[..k - 1];
    }
    if NilsHeldBack(ps, depth) {
      forall k | 0 < k < |rest| ensures LeakAll(rest[..k]) < Scalars(rest[..k]) + d {
        assert LeakAll(ps[..k + 1]) < Scalars(ps[..k + 1]) + depth;
      }
    }
    if NilsHeldBack(rest, d) {
      forall k | 0 < k < |ps| ensures LeakAll(ps[..k]) < Scalars(ps[..k]) + depth {
        if k > 1 {
          assert LeakAll(rest[..k - 1]) < Scalars(rest[..k - 1]) + d;
        } else {
          assert rest[..0] == [];
        }
      }
    }
  }

  /** Two nils in front: the third parameter is lost without any complaint. */
  lemma NilsDropParameter(o: Options)
    ensures ParseRequest(o, RequestTokens(o, Request("f", [Nil, Nil, Int(1)]))) == Parsed(Request("f", [Nil, Nil]))
  {
    var ps := [Nil, Nil, Int(1)];
    RequestParses(o, Request("f", ps));
    assert ps[1..] == [Nil, Int(1)] && ps[1..][1..] == [Int(1)];
    assert Received(ps[1..], 1) == Some([Nil]);
    assert Received(ps, 2) == Some([Nil] + [Nil]);
    assert !IsXmlSpace("f"[0]);
    assert StartDepth("f") == 2;
    assert [Nil] + [Nil] == [Nil, Nil];
  }

  // ----- Responses ----------------------------------------------------------

  function ResponseTokens(o: Options, r: Response): seq<Token>
    requires r.OkResponse? ==> Printable(r.value)
  {
    match r
    case OkResponse(v) =>
      Wrap(MethodResponse, Wrap(Params, Wrap(Param, InValue(o, o.omitStringTag, v))))
    case FaultResponse(code, str) =>
      Wrap(MethodResponse, Wrap(FaultTag, InValue(o, o.omitStringTag, FaultValue(code, str))))
  }

  function FaultValue(code: int32, str: string): (v: Value)
    ensures Printable(v)
  {
    var v := Struct([Entry("faultCode", Int(code)), Entry("faultString", Str(str))]);
    assert v.members[0].value == Int(code) && v.members[1].value == Str(str);
    v
  }

  function ParseResponse(o: Options, toks: seq<Token>): Parsed<Response> {
    match Parse(o, Start(NEW_RESPONSE, false), toks)
    case Fail(e) => Failed(e)
    case Done(b, _) =>
      if b.core.ok.Some? then Parsed(OkResponse(b.core.ok.value))
      else if b.core.faultString.Some? then Parsed(FaultResponse(b.core.faultCode, b.core.faultString.value))
      else Failed(XmlRpcViolation)
  }

  /** A builder that only has end tags coming keeps what it has. */
  lemma {:induction false} ClosesKeep(o: Options, b: Builder, toks: seq<Token>)
    requires b.core.ResponseCore? && forall i :: 0 <= i < |toks| ==> toks[i].Close?
    ensures Parse(o, b, toks).Done? && Parse(o, b, toks).builder.core == b.core
    decreases |toks|
  {
    if toks != [] && b.depth > 0 {
      var b' := Builder(b.core, b.depth - 1, b.wantExit || b.depth == 1);
      assert toks == [toks[0]] + toks[1..];
      ParseClose(o, b, toks[0].tag, toks[1..]);
      if !b'.wantExit {
        ClosesKeep(o, b', toks[1..]);
      }
    }
  }

  function ResponseAt(st: ResponseState, depth: nat): Builder {
    Builder(ResponseCore(st, None, 0, None), depth, false)
  }

  lemma OkResponseRegrouped(value: seq<Token>)
    ensures Wrap(MethodResponse, Wrap(Params, Wrap(Param, value))) ==
      [Open(MethodResponse)] + ([Open(Params)] + ([Open(Param)] + (value +
        ([Close(Param)] + ([Close(Params)] + ([Close(MethodResponse)] + []))))))
  {
  }

  lemma FaultResponseRegrouped(value: seq<Token>)
    ensures Wrap(MethodResponse, Wrap(FaultTag, value)) ==
      [Open(MethodResponse)] + ([Open(FaultTag)] + (value + ([Close(FaultTag)] + ([Close(MethodResponse)] + []))))
  {
  }

  lemma ResponseStarts(o: Options, toks: seq<Token>)
    ensures Parse(o, Start(NEW_RESPONSE, false), [Open(MethodResponse)] + toks) == Parse(o, ResponseAt(InResponse, 1), toks)
  {
    OpenSettles(o, ResponseAt(BeforeResponse, 0), MethodResponse, ResponseAt(InResponse, 1).core, false, toks);
  }

  lemma OkParamsOpen(o: Options, toks: seq<Token>)
    ensures Parse(o, ResponseAt(InResponse, 1), [Open(Params)] + ([Open(Param)] + toks)) ==
            Parse(o, ResponseAt(InOkParam, 3), toks)
  {
    OpenSettles(o, ResponseAt(InResponse, 1), Params, ResponseAt(InOkParams, 2).core, false, [Open(Param)] + toks);
    OpenSettles(o, ResponseAt(InOkParams, 2), Param, ResponseAt(InOkParam, 3).core, false, toks);
  }

  /** A response with a value, up to the sub-build for the value. */
  lemma OkResponseOpens(o: Options, toks: seq<Token>)
    ensures Parse(o, Start(NEW_RESPONSE, false),
                  [Open(MethodResponse)] + ([Open(Params)] + ([Open(Param)] + ([Open(ValueTag)] + toks)))) ==
            Absorbed(o, ResponseAt(InOkParam, 3), ResponseAt(OkRead, 3).core, Parse(o, Start(NEW_VALUE, true), toks))
  {
    ResponseStarts(o, [Open(Params)] + ([Open(Param)] + ([Open(ValueTag)] + toks)));
    OkParamsOpen(o, [Open(ValueTag)] + toks);
    OpenSubBuilds(o, ResponseAt(InOkParam, 3), ValueTag, NEW_VALUE, true, toks);
  }

  /** A fault response, up to the sub-build for the fault value. */
  lemma FaultResponseOpens(o: Options, toks: seq<Token>)
    ensures Parse(o, Start(NEW_RESPONSE, false), [Open(MethodResponse)] + ([Open(FaultTag)] + ([Open(ValueTag)] + toks))) ==
            Absorbed(o, ResponseAt(InFault, 2), ResponseAt(FaultRead, 2).core, Parse(o, Start(NEW_VALUE, false), toks))
  {
    ResponseStarts(o, [Open(FaultTag)] + ([Open(ValueTag)] + toks));
    OpenSettles(o, ResponseAt(InResponse, 1), FaultTag, ResponseAt(InFault, 2).core, false, [Open(ValueTag)] + toks);
    OpenSubBuilds(o, ResponseAt(InFault, 2), ValueTag, NEW_VALUE, false, toks);
  }

  /** The exact outcome of parsing a printed response with a value. */
  lemma OkResponseParses(o: Options, v: Value)
    requires GoodParam(o, v)
    ensures ParseResponse(o, ResponseTokens(o, OkResponse(v))) ==
            if NamesReadable(v) then Parsed(OkResponse(Reparsed(v))) else Failed(XmlRpcViolation)
  {
    var closing := [Close(Param)] + ([Close(Params)] + ([Close(MethodResponse)] + []));
    var toks := Content(o, o.omitStringTag, v) + ([Close(ValueTag)] + closing);
    OkResponseRegrouped(InValue(o, o.omitStringTag, v));
    InValueTokens(o, o.omitStringTag, v, closing);
    OkResponseOpens(o, toks);
    ParamValue(o, o.omitStringTag, v, closing);
    if NamesReadable(v) {
      OkCloses(Parse(o, Start(NEW_VALUE, true), toks).rest, if EatsClose(o.omitStringTag, v) then 0 else Leak(v) + 1);
      OkAbsorbs(o, Reparsed(v), Parse(o, Start(NEW_VALUE, true), toks));
    }
  }

  lemma OkAbsorbs(o: Options, v: Value, r: Outcome)
    requires r.Done? && r.builder.core.ValueCore? && r.builder.core.got == Some(v)
    requires forall i :: 0 <= i < |r.rest| ==> r.rest[i].Close?
    ensures var p := Absorbed(o, ResponseAt(InOkParam, 3), ResponseAt(OkRead, 3).core, r);
      p.Done? && p.builder.core == ResponseCore(OkRead, Some(v), 0, None)
  {
    ClosesKeep(o, Builder(ResponseCore(OkRead, Some(v), 0, None), 4, false), r.rest);
  }

  /** Whatever the sub-build of a response value leaves is end tags. */
  lemma OkCloses(left: seq<Token>, n: nat)
    requires Leaves(left, n, [Close(Param)] + ([Close(Params)] + ([Close(MethodResponse)] + [])))
    ensures forall i :: 0 <= i < |left| ==> left[i].Close?
  {
  }

  lemma FaultOrder()
    ensures Less("faultCode", "faultString")
  {
    LessAfter("fault", "Code", "String");
    assert "fault" + "Code" == "faultCode" && "fault" + "String" == "faultString";
  }

  lemma {:induction false} LessAfter(p: string, a: string, b: string)
    requires Less(a, b)
    ensures Less(p + a, p + b)
  {
    if p == "" {
      assert p + a == a && p + b == b;
    } else {
      assert (p + a)[1..] == p[1..] + a && (p + b)[1..] == p[1..] + b;
      LessAfter(p[1..], a, b);
    }
  }

  lemma PairIsRegular(o: Options, a: Entry<Value>, b: Entry<Value>)
    requires Less(a.key, b.key) && a.key != "" && b.key != ""
    requires IsScalar(a.value) && IsScalar(b.value) && Regular(o, a.value) && Regular(o, b.value)
    ensures Regular(o, Struct([a, b])) && NilsFit(Struct([a, b])) && Leak(Struct([a, b])) == 0
  {
  }

  lemma FaultIsRegular(o: Options, code: int32, str: string)
    ensures Regular(o, FaultValue(code, str)) && NilsFit(FaultValue(code, str)) && Leak(FaultValue(code, str)) == 0
  {
    FaultOrder();
    PairIsRegular(o, Entry("faultCode", Int(code)), Entry("faultString", Str(str)));
  }

  lemma FaultNames(code: int32, str: string)
    ensures NamesReadable(FaultValue(code, str))
  {
    var ms := FaultValue(code, str).members;
    assert !IsXmlSpace(ms[0].key[0]) && !IsXmlSpace(ms[1].key[0]);
  }

  lemma FaultReparsed(code: int32, str: string)
    ensures Reparsed(FaultValue(code, str)) == FaultValue(code, if AllXmlSpace(str) then "" else str)
  {
    var ms := FaultValue(code, str).members;
    assert ms[1..] == [ms[1]] && ms[1..][1..] == [];
    assert ReparsedMembers(ms[1..]) == [Entry(ms[1].key, Reparsed(Str(str)))];
    assert ReparsedMembers(ms) == [Entry(ms[0].key, Reparsed(Int(code)))] + ReparsedMembers(ms[1..]);
  }

  lemma FaultIsFound(code: int32, str: string)
    ensures FaultOf(ResponseAt(FaultRead, 2).core, Some(FaultValue(code, str))) ==
            CoreDone(ResponseCore(FaultRead, None, code, Some(str)), false)
  {
    var ms := FaultValue(code, str).members;
    assert "faultCode"[5] != "faultString"[5];
    assert ms[0].key != ms[1].key;
    assert ms[1..] == [ms[1]];
    assert Find(ms, "faultString") == Find(ms[1..], "faultString");
  }

  /** The sub-build of a fault value. */
  lemma FaultValueParses(o: Options, code: int32, str: string, closing: seq<Token>)
    ensures var r := Parse(o, Start(NEW_VALUE, false),
                           Content(o, o.omitStringTag, FaultValue(code, str)) + ([Close(ValueTag)] + closing));
      && r.Done? && r.builder.core.ValueCore? && r.rest == [Close(ValueTag)] + closing
      && r.builder.core.got == Some(FaultValue(code, if AllXmlSpace(str) then "" else str))
  {
    FaultIsRegular(o, code, str);
    FaultNames(code, str);
    FaultReparsed(code, str);
    ValueParses(o, o.omitStringTag, FaultValue(code, str), false, closing);
    var r := Parse(o, Start(NEW_VALUE, false),
                   Content(o, o.omitStringTag, FaultValue(code, str)) + ([Close(ValueTag)] + closing));
    NothingLeft(r.rest, [Close(ValueTag)] + closing);
  }

  /** The exact outcome of parsing a printed fault. */
  lemma FaultResponseParses(o: Options, code: int32, str: string)
    ensures ParseResponse(o, ResponseTokens(o, FaultResponse(code, str))) ==
            Parsed(FaultResponse(code, if AllXmlSpace(str) then "" else str))
  {
    var v, got := FaultValue(code, str), if AllXmlSpace(str) then "" else str;
    var closing := [Close(FaultTag)] + ([Close(MethodResponse)] + []);
    var toks := Content(o, o.omitStringTag, v) + ([Close(ValueTag)] + closing);
    FaultResponseRegrouped(InValue(o, o.omitStringTag, v));
    InValueTokens(o, o.omitStringTag, v, closing);
    FaultResponseOpens(o, toks);
    FaultIsFound(code, got);
    FaultValueParses(o, code, str, closing);
    ClosesKeep(o, Builder(ResponseCore(FaultRead, None, code, Some(got)), 3, false), [Close(ValueTag)] + closing);
  }

  /** A response value that does not come back by itself is what is answered, if
      anything is. */
  lemma BadResponse(o: Options, v: Value)
    requires Regular(o, v) && Printable(v) && !NilsFit(v)
    ensures var p := ParseResponse(o, ResponseTokens(o, OkResponse(v)));
      p.Parsed? ==> p.message.OkResponse? && Plain(p.message.value) != Plain(v)
  {
    var closing := [Close(Param)] + ([Close(Params)] + ([Close(MethodResponse)] + []));
    var toks := Content(o, o.omitStringTag, v) + ([Close(ValueTag)] + closing);
    OkResponseRegrouped(InValue(o, o.omitStringTag, v));
    InValueTokens(o, o.omitStringTag, v, closing);
    OkResponseOpens(o, toks);
    Exactness.BadValue(o, o.omitStringTag, v, true, closing);
    OkIsKept(o, Parse(o, Start(NEW_VALUE, true), toks));
  }

  /** The value of a response stays as its sub-build has given it. */
  lemma OkIsKept(o: Options, r: Outcome)
    requires r.Done? ==> r.builder.core.ValueCore?
    ensures var p := Absorbed(o, ResponseAt(InOkParam, 3), ResponseAt(OkRead, 3).core, r);
      p.Done? ==> r.Done? && r.builder.core.got.Some? && p.builder.core == ResponseCore(OkRead, r.builder.core.got, 0, None)
  {
    if r.Done? && r.builder.core.got.Some? {
      Accounting.ParseExtends(o, Builder(ResponseCore(OkRead, r.builder.core.got, 0, None), 4, false), r.rest);
    }
  }

  /** A printed response comes back unchanged, string tags or not, if and only if
      no string and no member name in it is blank and it has not too many nils. */
  lemma ResponseRoundTrip(o: Options, r: Response)
    requires r.OkResponse? ==> Regular(o, r.value) && Printable(r.value)
    ensures var p := ParseResponse(o, ResponseTokens(o, r));
      match r
      case OkResponse(v) =>
        p.Parsed? && p.message.OkResponse? && Plain(p.message.value) == Plain(v) <==>
        NilsFit(v) && NamesReadable(v) && StringsReadable(v)
      case FaultResponse(code, str) =>
        p == Parsed(r) <==> !Blank(str)
  {
    match r
    case OkResponse(v) =>
      if NilsFit(v) {
        OkResponseParses(o, v);
        ReparsedEqual(o, v);
      } else {
        BadResponse(o, v);
      }
    case FaultResponse(code, str) =>
      FaultResponseParses(o, code, str);
  }
}
