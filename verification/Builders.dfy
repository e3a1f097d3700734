/** What the builders make of a token sequence. The state of a builder is a
    value here, and a parse maps it and the tokens to the state afterwards and
    the tokens left over, or to the exception that ends it. */
module Builders {
  import opened Text
  import opened OrderedMap
  import opened Values
  import opened Xml
  import Base64
  import DateTime

  datatype Error =
    | ParseError        // libxml2 gave up
    | XmlRpcViolation
    | BadNumber         // boost::bad_lexical_cast
    | MalformedBase64
    | MalformedDate
    | BadCast           // Value::Bad_cast
    | NullValue         // a Value made from a null pointer: undefined in the original

  datatype ValueState =
    | AtValue | AtString | AtInt | AtInt64 | AtBool | AtDouble | AtBinary | AtTime | AtStruct | AtArray | AtNil
  datatype StructState = OutsideMember | InMember | NameRead | ValueRead
  datatype ArrayState = OutsideData | InData | InValues
  datatype RequestState = BeforeCall | InCall | MethodNameRead | InParams | InParam | ParamRead
  datatype ResponseState =
    | BeforeResponse | InResponse | InOkParams | InOkParam | OkRead | InFault | FaultRead

  /** The fields of one kind of builder. */
  datatype Core =
    | ValueCore(vstate: ValueState, got: Option<Value>)
    | StructCore(sstate: StructState, name: string, value: Value, members: seq<Entry<Value>>)
    | ArrayCore(astate: ArrayState, items: seq<Value>)
    | RequestCore(rstate: RequestState, methodName: Option<string>, params: seq<Value>)
    | ResponseCore(pstate: ResponseState, ok: Option<Value>, faultCode: int32, faultString: Option<string>)

  const NEW_VALUE := ValueCore(AtValue, None)
  const NEW_STRUCT := StructCore(OutsideMember, "", Nil, [])
  const NEW_ARRAY := ArrayCore(OutsideData, [])
  const NEW_REQUEST := RequestCore(BeforeCall, None, [])
  const NEW_RESPONSE := ResponseCore(BeforeResponse, None, 0, None)

  datatype Builder = Builder(core: Core, depth: nat, wantExit: bool)

  /** A builder as `build` starts it: a flat one is told that its own start tag
      has been read already. */
  function Start(core: Core, flat: bool): Builder {
    Builder(core, if flat then 1 else 0, false)
  }

  datatype Outcome =
    | Fail(error: Error)
    | Done(builder: Builder, rest: seq<Token>)

  // ----- State machines -----------------------------------------------------

  /** `StateMachine::change` with the transition table of each builder; None
      where the tag is unexpected. */
  function Change(core: Core, t: Tag): Option<Core> {
    match core
    case ValueCore(AtValue, _) => (
      match t
      case StringTag => Some(core.(vstate := AtString))
      case IntTag => Some(core.(vstate := AtInt))
      case I4 => Some(core.(vstate := AtInt))
      case I8 => Some(core.(vstate := AtInt64))
      case BooleanTag => Some(core.(vstate := AtBool))
      case DoubleTag => Some(core.(vstate := AtDouble))
      case Base64Tag => Some(core.(vstate := AtBinary))
      case DateTag => Some(core.(vstate := AtTime))
      case StructTag => Some(core.(vstate := AtStruct))
      case ArrayTag => Some(core.(vstate := AtArray))
      case NilTag => Some(core.(vstate := AtNil))
      case _ => None)
    case ValueCore(_, _) => None
    case StructCore(s, _, _, _) => (
      match (s, t)
      case (OutsideMember, MemberTag) => Some(core.(sstate := InMember))
      case (InMember, NameTag) => Some(core.(sstate := NameRead))
      case (NameRead, ValueTag) => Some(core.(sstate := ValueRead))
      case _ => None)
    case ArrayCore(s, _) => (
      match (s, t)
      case (OutsideData, DataTag) => Some(core.(astate := InData))
      case (InData, ValueTag) => Some(core.(astate := InValues))
      case (InValues, ValueTag) => Some(core.(astate := InValues))
      case _ => None)
    case RequestCore(s, _, _) => (
      match (s, t)
      case (BeforeCall, MethodCall) => Some(core.(rstate := InCall))
      case (InCall, MethodName) => Some(core.(rstate := MethodNameRead))
      case (MethodNameRead, Params) => Some(core.(rstate := InParams))
      case (InParams, Param) => Some(core.(rstate := InParam))
      case (InParam, ValueTag) => Some(core.(rstate := ParamRead))
      case (ParamRead, Param) => Some(core.(rstate := InParam))
      case _ => None)
    case ResponseCore(s, _, _, _) => (
      match (s, t)
      case (BeforeResponse, MethodResponse) => Some(core.(pstate := InResponse))
      case (InResponse, Params) => Some(core.(pstate := InOkParams))
      case (InOkParams, Param) => Some(core.(pstate := InOkParam))
      case (InOkParam, ValueTag) => Some(core.(pstate := OkRead))
      case (InResponse, FaultTag) => Some(core.(pstate := InFault))
      case (InFault, ValueTag) => Some(core.(pstate := FaultRead))
      case _ => None)
  }

  // ----- Visitors -----------------------------------------------------------

  datatype Data = NoData(error: Error) | Data(text: string, rest: seq<Token>)

  /** `Parser::get_data` right after a start tag. It takes an end tag for empty
      text, and that end tag is gone. */
  function ReadData(toks: seq<Token>): (r: Data)
    ensures r.Data? ==> |r.rest| < |toks|
  {
    if toks == [] then NoData(XmlRpcViolation)
    else
      match toks[0]
      case Chars(s) => Data(s, toks[1..])
      case Close(_) => Data("", toks[1..])
      case Bad => NoData(ParseError)
      case _ => NoData(XmlRpcViolation)
  }

  datatype CoreOutcome = CoreFail(error: Error) | CoreDone(core: Core, wantExit: bool)

  /** `do_visit_element_end`. */
  function Ended(o: Options, core: Core, t: Tag): CoreOutcome {
    match core
    case ValueCore(s, None) => (
      match s
      case AtValue => CoreDone(core.(got := Some(Str(""))), false)
      case AtString => CoreDone(core.(got := Some(Str(""))), false)
      case AtInt => (
        match o.defaultInt
        case Some(i) => CoreDone(core.(got := Some(Int(i))), false)
        case None => CoreFail(XmlRpcViolation))
      case AtInt64 => (
        match o.defaultInt64
        case Some(l) => CoreDone(core.(got := Some(Int64(l))), false)
        case None => CoreFail(XmlRpcViolation))
      case AtBinary => CoreDone(core.(got := Some(Binary([], ""))), false)
      case _ => CoreFail(XmlRpcViolation))
    case StructCore(s, name, value, members) =>
      if t != MemberTag then CoreDone(core, false)
      else if s != ValueRead then CoreFail(XmlRpcViolation)
      else CoreDone(StructCore(OutsideMember, name, value, Put(members, name, value)), false)
    case _ => CoreDone(core, false)
  }

  /** `do_visit_text`; only value builders are ever asked. */
  function Texted(o: Options, core: Core, s: string): CoreOutcome
    requires core.ValueCore?
  {
    match core.vstate
    case AtValue => CoreDone(core.(got := Some(Str(s))), true)
    case AtString => CoreDone(core.(got := Some(Str(s))), false)
    case AtInt => (
      match ParseInt(s, INT32_MIN, INT32_MAX)
      case Some(i) => CoreDone(core.(got := Some(Int(i))), false)
      case None => CoreFail(BadNumber))
    case AtInt64 => (
      match ParseInt(s, INT64_MIN, INT64_MAX)
      case Some(l) => CoreDone(core.(got := Some(Int64(l))), false)
      case None => CoreFail(BadNumber))
    case AtBool => (
      match ParseInt(s, INT32_MIN, INT32_MAX)
      case Some(i) => CoreDone(core.(got := Some(Bool(i != 0))), false)
      case None => CoreFail(BadNumber))
    case AtDouble => (
      match o.doubles.parse(s)
      case Some(d) => CoreDone(core.(got := Some(Double(d))), false)
      case None => CoreFail(BadNumber))
    case AtBinary => (
      match Base64.Decode(s)
      case Some(d) => CoreDone(core.(got := Some(Binary(d, s))), false)
      case None => CoreFail(MalformedBase64))
    case AtTime => (
      match DateTime.Parse(s)
      case Some(tm) => CoreDone(core.(got := Some(Date(tm))), false)
      case None => CoreFail(MalformedDate))
    case _ => CoreFail(XmlRpcViolation)
  }

  /** The fault code and string in a fault value, as `parse_fault` insists on them. */
  function FaultOf(core: Core, v: Option<Value>): CoreOutcome
    requires core.ResponseCore?
  {
    match v
    case Some(Struct(ms)) =>
      if |ms| != 2 then CoreFail(XmlRpcViolation)
      else
        var code: Option<Value>, str: Option<Value> := Find(ms, "faultCode"), Find(ms, "faultString");
        if code == None || str == None then CoreFail(XmlRpcViolation)
        else if !code.value.Int? || !str.value.Str? then CoreFail(BadCast)
        else CoreDone(core.(faultCode := code.value.i, faultString := Some(str.value.s)), false)
    case _ => CoreFail(XmlRpcViolation)
  }

  /** What `do_visit_element` goes on to do once the state has changed: settle
      at once, take the text of the element, or hand over to a sub-builder. */
  datatype Action =
    | Settle(core: Core, wantExit: bool)
    | TakeText
    | SubBuild(start: Core, flat: bool)

  function ActionIn(core: Core): Action {
    match core
    case ValueCore(AtStruct, _) => SubBuild(NEW_STRUCT, true)
    case ValueCore(AtArray, _) => SubBuild(NEW_ARRAY, true)
    case ValueCore(AtNil, _) => Settle(core.(got := Some(Nil)), true)
    case ValueCore(_, got) => Settle(core, got.Some?)
    case StructCore(NameRead, _, _, _) => TakeText
    case StructCore(ValueRead, _, _, _) => SubBuild(NEW_VALUE, false)
    case ArrayCore(InValues, _) => SubBuild(NEW_VALUE, false)
    case RequestCore(MethodNameRead, _, _) => TakeText
    case RequestCore(ParamRead, _, _) => SubBuild(NEW_VALUE, true)
    case ResponseCore(OkRead, _, _, _) => SubBuild(NEW_VALUE, true)
    case ResponseCore(FaultRead, _, _, _) => SubBuild(NEW_VALUE, false)
    case _ => Settle(core, false)
  }

  function WithText(core: Core, s: string): Core {
    match core
    case StructCore(_, _, _, _) => core.(name := s)
    case RequestCore(_, _, _) => core.(methodName := Some(s))
    case _ => core
  }

  /** What a builder does with the result of the sub-builder it started. */
  function Absorb(core: Core, sub: Core): CoreOutcome {
    match sub
    case StructCore(_, _, _, ms) =>
      if core.ValueCore? then CoreDone(core.(got := Some(Struct(ms))), true) else CoreDone(core, false)
    case ArrayCore(_, vs) =>
      if core.ValueCore? then CoreDone(core.(got := Some(Array(vs))), true) else CoreDone(core, false)
    case ValueCore(_, got) => (
      match core
      case StructCore(_, _, _, _) => CoreDone(core.(value := OrEmpty(got)), false)
      case ArrayCore(_, items) => CoreDone(core.(items := items + [OrEmpty(got)]), false)
      case RequestCore(_, _, params) =>
        if got == None then CoreFail(NullValue) else CoreDone(core.(params := params + [got.value]), false)
      case ResponseCore(OkRead, _, _, _) =>
        if got == None then CoreFail(NullValue) else CoreDone(core.(ok := got), false)
      case ResponseCore(_, _, _, _) => FaultOf(core, got)
      case _ => CoreDone(core, false))
    case _ => CoreDone(core, false)
  }

  /** An inner value without any content is the empty string. */
  function OrEmpty(v: Option<Value>): Value {
    if v.Some? then v.value else Str("")
  }

  /** `BuilderBase::visit_element`: one level down, through the state machine,
      and on to what the new state asks for. */
  function VisitElement(o: Options, b: Builder, t: Tag, toks: seq<Token>): (r: Outcome)
    ensures r.Done? ==> |r.rest| <= |toks| && r.builder.depth == b.depth + 1 && SameKind(b.core, r.builder.core)
    decreases |toks|, 1
  {
    match Change(b.core, t)
    case None => Fail(XmlRpcViolation)
    case Some(core) =>
      match ActionIn(core)
      case Settle(core', exit) => Done(Builder(core', b.depth + 1, b.wantExit || exit), toks)
      case TakeText => (
        match ReadData(toks)
        case NoData(e) => Fail(e)
        case Data(s, rest) => Done(Builder(WithText(core, s), b.depth + 1, b.wantExit), rest))
      case SubBuild(start, flat) =>
        match Parse(o, Start(start, flat), toks)
        case Fail(e) => Fail(e)
        case Done(sub, rest) =>
          match Absorb(core, sub.core)
          case CoreFail(e) => Fail(e)
          case CoreDone(core', exit) => Done(Builder(core', b.depth + 1, b.wantExit || exit), rest)
  }

  // ----- The parse loop -----------------------------------------------------

  predicate SameKind(a: Core, b: Core) {
    && (a.ValueCore? <==> b.ValueCore?) && (a.StructCore? <==> b.StructCore?)
    && (a.ArrayCore? <==> b.ArrayCore?) && (a.RequestCore? <==> b.RequestCore?)
  }

  function Continue(o: Options, b: Builder, toks: seq<Token>): (r: Outcome)
    ensures r.Done? ==> |r.rest| <= |toks| && SameKind(b.core, r.builder.core)
    decreases |toks|, 1
  {
    if b.wantExit then Done(b, toks) else Parse(o, b, toks)
  }

  /** `Parser::parse`: hand tokens to the builder until they run out, until it
      wants to exit, or until an end tag shows up that is not its own; that one
      stays in front of what is left. */
  function Parse(o: Options, b: Builder, toks: seq<Token>): (r: Outcome)
    ensures r.Done? ==> |r.rest| <= |toks| && SameKind(b.core, r.builder.core)
    decreases |toks|, 0
  {
    if toks == [] then Done(b, [])
    else
      match toks[0]
      case Bad => Fail(ParseError)
      case Open(t) => (
        match VisitElement(o, b, t, toks[1..])
        case Fail(e) => Fail(e)
        case Done(b', rest) => Continue(o, b', rest))
      case Close(t) =>
        if b.depth == 0 then Done(b, toks)
        else (
          match Ended(o, b.core, t)
          case CoreFail(e) => Fail(e)
          case CoreDone(core, exit) =>
            Continue(o, Builder(core, b.depth - 1, b.wantExit || b.depth == 1 || exit), toks[1..]))
      case Chars(s) =>
        if !b.core.ValueCore? then Continue(o, b, toks[1..])
        else (
          match Texted(o, b.core, s)
          case CoreFail(e) => Fail(e)
          case CoreDone(core, exit) => Continue(o, b.(core := core, wantExit := b.wantExit || exit), toks[1..]))
      case Space => Continue(o, b, toks[1..])
  }
}
