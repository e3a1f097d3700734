/** Documents that are refused: which elements may stand where, and that no others do. */
module Refusals {
  import opened Text
  import opened OrderedMap
  import opened Values
  import opened Xml
  import opened Printer
  import opened Builders
  import opened RoundTrip
  import opened Messages

  lemma NotWellFormed(o: Options, b: Builder, rest: seq<Token>)
    ensures Parse(o, b, [Bad] + rest) == Fail(ParseError)
  {
  }

  lemma OpenFails(o: Options, b: Builder, t: Tag, rest: seq<Token>)
    requires Change(b.core, t) == None
    ensures Parse(o, b, [Open(t)] + rest) == Fail(XmlRpcViolation)
  {
    assert ([Open(t)] + rest)[1..] == rest;
  }

  // ----- Values ----------------------------------------------------------------------

  /** Eleven elements may stand in a value, and only one of them. */
  lemma ElementsOfAValue(o: Options, s: ValueState, got: Option<Value>, depth: nat, t: Tag, rest: seq<Token>)
    requires s != AtValue ||
      t !in {StringTag, IntTag, I4, I8, BooleanTag, DoubleTag, Base64Tag, DateTag, StructTag, ArrayTag, NilTag}
    ensures Parse(o, Builder(ValueCore(s, got), depth, false), [Open(t)] + rest) == Fail(XmlRpcViolation)
  {
    OpenFails(o, Builder(ValueCore(s, got), depth, false), t, rest);
  }

  /** A struct has members; a member has a name and then a value. */
  lemma ElementsOfAStruct(
      o: Options, s: StructState, name: string, value: Value, acc: seq<Entry<Value>>, depth: nat, t: Tag, rest: seq<Token>)
    requires (s, t) !in {(OutsideMember, MemberTag), (InMember, NameTag), (NameRead, ValueTag)}
    ensures Parse(o, InStruct(s, name, value, acc, depth), [Open(t)] + rest) == Fail(XmlRpcViolation)
  {
    OpenFails(o, InStruct(s, name, value, acc, depth), t, rest);
  }

  /** A member that ends before its value is refused. */
  lemma MemberNeedsValue(
      o: Options, s: StructState, name: string, value: Value, acc: seq<Entry<Value>>, depth: nat, rest: seq<Token>)
    requires s != ValueRead && depth > 0
    ensures Parse(o, InStruct(s, name, value, acc, depth), [Close(MemberTag)] + rest) == Fail(XmlRpcViolation)
  {
    ParseClose(o, InStruct(s, name, value, acc, depth), MemberTag, rest);
  }

  lemma ElementsOfAnArray(o: Options, s: ArrayState, acc: seq<Value>, depth: nat, t: Tag, rest: seq<Token>)
    requires (s, t) !in {(OutsideData, DataTag), (InData, ValueTag), (InValues, ValueTag)}
    ensures Parse(o, Builder(ArrayCore(s, acc), depth, false), [Open(t)] + rest) == Fail(XmlRpcViolation)
  {
    OpenFails(o, Builder(ArrayCore(s, acc), depth, false), t, rest);
  }

  // ----- Text -------------------------------------------------------------------------

  /** White space, comments and the like are skipped everywhere, and text outside of
      values too. */
  lemma SkippedOutside(o: Options, b: Builder, s: string, rest: seq<Token>)
    requires !b.wantExit
    ensures Parse(o, b, [Space] + rest) == Parse(o, b, rest)
    ensures !b.core.ValueCore? ==> Parse(o, b, [Chars(s)] + rest) == Parse(o, b, rest)
  {
    assert ([Space] + rest)[1..] == rest && ([Chars(s)] + rest)[1..] == rest;
  }

  /** Of several texts in an element the last one counts. */
  lemma LastTextCounts(o: Options, state: ValueState, got: Option<Value>, depth: nat, s: string, rest: seq<Token>)
    ensures var toks := [Chars(s)] + rest;
      Parse(o, Builder(ValueCore(state, got), depth, false), toks) == Parse(o, Builder(ValueCore(state, None), depth, false), toks)
    ensures Parse(o, Builder(ValueCore(AtString, got), depth, false), [Chars(s)] + rest) ==
            Parse(o, Builder(ValueCore(AtString, Some(Str(s))), depth, false), rest)
  {
    assert ([Chars(s)] + rest)[1..] == rest;
  }

  /** Names are text, and nothing else may stand in them. */
  lemma NamesAreText(o: Options, name: string, value: Value, acc: seq<Entry<Value>>, depth: nat, t: Tag, rest: seq<Token>)
    ensures var b := InStruct(InMember, name, value, acc, depth);
      && Parse(o, b, [Open(NameTag)] + ([Open(t)] + rest)) == Fail(XmlRpcViolation)
      && Parse(o, b, [Open(NameTag)] + ([Bad] + rest)) == Fail(ParseError)
      && Parse(o, b, [Open(NameTag)] + []) == Fail(XmlRpcViolation)
  {
    var b := InStruct(InMember, name, value, acc, depth);
    NameFails(o, b, NameTag, [Open(t)] + rest);
    NameFails(o, b, NameTag, [Bad] + rest);
    NameFails(o, b, NameTag, []);
  }

  lemma MethodNamesAreText(o: Options, depth: nat, t: Tag, rest: seq<Token>)
    ensures var b := RequestAt(InCall, None, [], depth);
      && Parse(o, b, [Open(MethodName)] + ([Open(t)] + rest)) == Fail(XmlRpcViolation)
      && Parse(o, b, [Open(MethodName)] + ([Bad] + rest)) == Fail(ParseError)
      && Parse(o, b, [Open(MethodName)] + []) == Fail(XmlRpcViolation)
  {
    var b := RequestAt(InCall, None, [], depth);
    NameFails(o, b, MethodName, [Open(t)] + rest);
    NameFails(o, b, MethodName, [Bad] + rest);
    NameFails(o, b, MethodName, []);
  }

  lemma NameFails(o: Options, b: Builder, t: Tag, rest: seq<Token>)
    requires Change(b.core, t).Some? && ActionIn(Change(b.core, t).value) == TakeText && ReadData(rest).NoData?
    ensures Parse(o, b, [Open(t)] + rest) == Fail(ReadData(rest).error)
  {
    assert ([Open(t)] + rest)[1..] == rest;
  }

  /** A parameter, or the value of a response, that is cut off before its first tag. */
  lemma ValueCutOff(o: Options, name: Option<string>, acc: seq<Value>, depth: nat)
    ensures Parse(o, RequestAt(InParam, name, acc, depth), [Open(ValueTag)] + []) == Fail(NullValue)
    ensures Parse(o, Builder(ResponseCore(InOkParam, None, 0, None), depth, false), [Open(ValueTag)] + []) == Fail(NullValue)
  {
    OpenSubBuilds(o, RequestAt(InParam, name, acc, depth), ValueTag, NEW_VALUE, true, []);
    OpenSubBuilds(o, Builder(ResponseCore(InOkParam, None, 0, None), depth, false), ValueTag, NEW_VALUE, true, []);
  }

  // ----- Messages ---------------------------------------------------------------------

  lemma ElementsOfARequest(
      o: Options, s: RequestState, name: Option<string>, acc: seq<Value>, depth: nat, t: Tag, rest: seq<Token>)
    requires (s, t) !in {(BeforeCall, MethodCall), (InCall, MethodName), (MethodNameRead, Params), (InParams, Param),
                         (InParam, ValueTag), (ParamRead, Param)}
    ensures Parse(o, RequestAt(s, name, acc, depth), [Open(t)] + rest) == Fail(XmlRpcViolation)
  {
    OpenFails(o, RequestAt(s, name, acc, depth), t, rest);
  }

  lemma ElementsOfAResponse(
      o: Options, s: ResponseState, ok: Option<Value>, code: int32, str: Option<string>, depth: nat, t: Tag, rest: seq<Token>)
    requires (s, t) !in {(BeforeResponse, MethodResponse), (InResponse, Params), (InOkParams, Param), (InOkParam, ValueTag),
                         (InResponse, FaultTag), (InFault, ValueTag)}
    ensures Parse(o, Builder(ResponseCore(s, ok, code, str), depth, false), [Open(t)] + rest) == Fail(XmlRpcViolation)
  {
    OpenFails(o, Builder(ResponseCore(s, ok, code, str), depth, false), t, rest);
  }

  /** A request needs the name of a method, and a response a value or a fault. */
  lemma NothingInside(o: Options)
    ensures ParseRequest(o, [Open(MethodCall)] + ([Close(MethodCall)] + [])) == Failed(XmlRpcViolation)
    ensures ParseResponse(o, [Open(MethodResponse)] + ([Close(MethodResponse)] + [])) == Failed(XmlRpcViolation)
    ensures ParseRequest(o, []) == Failed(XmlRpcViolation) && ParseResponse(o, []) == Failed(XmlRpcViolation)
  {
    OpenSettles(o, Start(NEW_REQUEST, false), MethodCall, RequestCore(InCall, None, []), false, [Close(MethodCall)] + []);
    ParseClose(o, RequestAt(InCall, None, [], 1), MethodCall, []);
    ResponseStarts(o, [Close(MethodResponse)] + []);
    ParseClose(o, ResponseAt(InResponse, 1), MethodResponse, []);
  }

  // ----- Faults ------------------------------------------------------------------------

  /** A fault as any peer may write it: a value that is read whole. */
  function FaultTokens(o: Options, bare: bool, v: Value): seq<Token>
    requires Printable(v)
  {
    Wrap(MethodResponse, Wrap(FaultTag, InValue(o, bare, v)))
  }

  /** A struct with these two members and no others. */
  predicate IsPair(v: Value, a: string, b: string) {
    v.Struct? && |v.members| == 2 && v.members[0].key == a && v.members[1].key == b
  }

  lemma FindInPair(ms: seq<Entry<Value>>, q: string)
    requires |ms| == 2
    ensures Find(ms, q) ==
      if ms[0].key == q then Some(ms[0].value) else if ms[1].key == q then Some(ms[1].value) else None
  {
    assert ms[1..] == [ms[1]] && ms[1..][1..] == [];
    assert Find(ms[1..], q) == if ms[1].key == q then Some(ms[1].value) else None;
  }

  lemma PairIsFound(ms: seq<Entry<Value>>, a: string, b: string)
    requires Ordered(ms) && Less(a, b)
    ensures |ms| == 2 && Has(ms, a) && Has(ms, b) <==> |ms| == 2 && ms[0].key == a && ms[1].key == b
    ensures |ms| == 2 && ms[0].key == a && ms[1].key == b ==> Find(ms, a) == Some(ms[0].value) && Find(ms, b) == Some(ms[1].value)
  {
    LessIrreflexive(a);
    if |ms| == 2 {
      FindInPair(ms, a);
      FindInPair(ms, b);
      if ms[0].key == b && ms[1].key == a {
        LessTransitive(a, b, a);
      }
    }
  }

  lemma {:induction false} ReparsedKeys(ms: seq<Entry<Value>>)
    ensures |ReparsedMembers(ms)| == |ms|
    ensures forall i :: 0 <= i < |ms| ==> ReparsedMembers(ms)[i] == Entry(ms[i].key, Reparsed(ms[i].value))
  {
    if ms != [] {
      ReparsedKeys(ms[1..]);
    }
  }

  lemma ReparsedOrdered(o: Options, v: Value)
    requires Regular(o, v)
    ensures Reparsed(v).Struct? ==> Ordered(Reparsed(v).members)
  {
    if v.Struct? {
      ReparsedKeys(v.members);
    }
  }

  /** What is made of a fault: an answer if it has the two members, of the right types,
      and an exception otherwise. */
  ghost predicate IsMadeOf(v: Value, p: Parsed<Response>) {
    IsMadeWith(v, p, "faultCode", "faultString")
  }

  ghost predicate IsMadeWith(v: Value, p: Parsed<Response>, a: string, b: string) {
    if !IsPair(v, a, b) then p == Failed(XmlRpcViolation)
    else if v.members[0].value.Int? && v.members[1].value.Str? then
      p == Parsed(FaultResponse(v.members[0].value.i, v.members[1].value.s))
    else p == Failed(BadCast)
  }

  /** `parse_fault`, whatever the members are called. */
  function FaultWith(core: Core, v: Value, a: string, b: string): CoreOutcome
    requires core.ResponseCore?
  {
    match v
    case Struct(ms) =>
      if |ms| != 2 || Find(ms, a) == None || Find(ms, b) == None then CoreFail(XmlRpcViolation)
      else if !Find(ms, a).value.Int? || !Find(ms, b).value.Str? then CoreFail(BadCast)
      else CoreDone(core.(faultCode := Find(ms, a).value.i, faultString := Some(Find(ms, b).value.s)), false)
    case _ => CoreFail(XmlRpcViolation)
  }

  lemma FaultWithPair(core: Core, v: Value, a: string, b: string)
    requires core.ResponseCore? && Less(a, b) && (v.Struct? ==> Ordered(v.members))
    ensures var r := FaultWith(core, v, a, b);
      if !IsPair(v, a, b) then r == CoreFail(XmlRpcViolation)
      else if v.members[0].value.Int? && v.members[1].value.Str? then
        r == CoreDone(core.(faultCode := v.members[0].value.i, faultString := Some(v.members[1].value.s)), false)
      else r == CoreFail(BadCast)
  {
    if v.Struct? {
      PairIsFound(v.members, a, b);
    }
  }

  lemma FaultIsWith(core: Core, v: Value)
    requires core.ResponseCore?
    ensures FaultOf(core, Some(v)) == FaultWith(core, v, "faultCode", "faultString")
  {
  }

  /** No value at all is refused as an empty string is. */
  lemma FaultOfNothing(sub: Outcome)
    requires sub.Done? && sub.builder.core.ValueCore?
    ensures var core := ResponseAt(FaultRead, 2).core;
      Absorb(core, sub.builder.core) == FaultOf(core, Some(OrEmpty(sub.builder.core.got)))
  {
  }

  lemma FaultIsTaken(o: Options, v: Value, sub: Outcome)
    requires sub.Done? && sub.builder.core.ValueCore? && OrEmpty(sub.builder.core.got) == v
    requires forall i :: 0 <= i < |sub.rest| ==> sub.rest[i].Close?
    requires v.Struct? ==> Ordered(v.members)
    ensures var p := Absorbed(o, ResponseAt(InFault, 2), ResponseAt(FaultRead, 2).core, sub);
      IsMadeOf(v, if p.Fail? then Failed(p.error) else ResponseOf(p.builder.core))
  {
    var r := FaultOf(ResponseAt(FaultRead, 2).core, Some(v));
    assert Absorb(ResponseAt(FaultRead, 2).core, sub.builder.core) == r by {
      FaultOfNothing(sub);
    }
    FaultIsMade(v);
    if r.CoreDone? {
      FaultIsKept(o, r.core, sub);
    } else {
      FaultFails(o, r.error, sub);
    }
  }

  lemma FaultIsMade(v: Value)
    requires v.Struct? ==> Ordered(v.members)
    ensures var r := FaultOf(ResponseAt(FaultRead, 2).core, Some(v));
      && (r.CoreDone? ==> r.core.ResponseCore?)
      && IsMadeOf(v, if r.CoreFail? then Failed(r.error) else ResponseOf(r.core))
  {
    FaultOrder();
    FaultIsWith(ResponseAt(FaultRead, 2).core, v);
    MadeWith(ResponseAt(FaultRead, 2).core, v, "faultCode", "faultString");
  }

  lemma MadeWith(core: Core, v: Value, a: string, b: string)
    requires core.ResponseCore? && core.ok == None && Less(a, b) && (v.Struct? ==> Ordered(v.members))
    ensures var r := FaultWith(core, v, a, b);
      && (r.CoreDone? ==> r.core.ResponseCore?)
      && IsMadeWith(v, if r.CoreFail? then Failed(r.error) else ResponseOf(r.core), a, b)
  {
    FaultWithPair(core, v, a, b);
  }

  lemma FaultFails(o: Options, e: Error, sub: Outcome)
    requires sub.Done? && Absorb(ResponseAt(FaultRead, 2).core, sub.builder.core) == CoreFail(e)
    ensures Absorbed(o, ResponseAt(InFault, 2), ResponseAt(FaultRead, 2).core, sub) == Fail(e)
  {
  }

  lemma FaultIsKept(o: Options, core: Core, sub: Outcome)
    requires sub.Done? && core.ResponseCore?
    requires Absorb(ResponseAt(FaultRead, 2).core, sub.builder.core) == CoreDone(core, false)
    requires forall i :: 0 <= i < |sub.rest| ==> sub.rest[i].Close?
    ensures var p := Absorbed(o, ResponseAt(InFault, 2), ResponseAt(FaultRead, 2).core, sub);
      p.Done? && p.builder.core == core
  {
    ClosesKeep(o, Builder(core, 3, false), sub.rest);
  }

  function ResponseOf(core: Core): Parsed<Response> {
    match core
    case ResponseCore(_, Some(v), _, _) => Parsed(OkResponse(v))
    case ResponseCore(_, None, code, Some(str)) => Parsed(FaultResponse(code, str))
    case _ => Failed(XmlRpcViolation)
  }

  lemma ResponseFrom(o: Options, toks: seq<Token>)
    ensures var p := Parse(o, Start(NEW_RESPONSE, false), toks);
      ParseResponse(o, toks) == if p.Fail? then Failed(p.error) else ResponseOf(p.builder.core)
  {
  }

  /** Any value that can be read, as a fault. */
  lemma FaultParses(o: Options, bare: bool, v: Value)
    requires Regular(o, v) && Printable(v) && NilsFit(v) && NamesReadable(v)
    ensures IsMadeOf(Reparsed(v), ParseResponse(o, FaultTokens(o, bare, v)))
  {
    var closing := [Close(FaultTag)] + ([Close(MethodResponse)] + []);
    var toks := Content(o, bare, v) + ([Close(ValueTag)] + closing);
    assert FaultTokens(o, bare, v) == [Open(MethodResponse)] + ([Open(FaultTag)] + ([Open(ValueTag)] + toks)) by {
      FaultResponseRegrouped(InValue(o, bare, v));
      InValueTokens(o, bare, v, closing);
    }
    FaultResponseOpens(o, toks);
    ResponseFrom(o, FaultTokens(o, bare, v));
    ValueParses(o, bare, v, false, closing);
    FaultFromSub(o, bare, v, Parse(o, Start(NEW_VALUE, false), toks));
  }

  lemma FaultFromSub(o: Options, bare: bool, v: Value, sub: Outcome)
    requires Regular(o, v) && NamesReadable(v)
    requires Reads(o, bare, v, false, [Close(FaultTag)] + ([Close(MethodResponse)] + []), sub)
    ensures var p := Absorbed(o, ResponseAt(InFault, 2), ResponseAt(FaultRead, 2).core, sub);
      IsMadeOf(Reparsed(v), if p.Fail? then Failed(p.error) else ResponseOf(p.builder.core))
  {
    OnlyEnds(sub.rest, Leak(v), [Close(ValueTag)] + ([Close(FaultTag)] + ([Close(MethodResponse)] + [])));
    ReparsedOrdered(o, v);
    FaultIsTaken(o, Reparsed(v), sub);
  }

  lemma OnlyEnds(left: seq<Token>, n: nat, rest: seq<Token>)
    requires Leaves(left, n, rest) && forall i :: 0 <= i < |rest| ==> rest[i].Close?
    ensures forall i :: 0 <= i < |left| ==> left[i].Close?
  {
  }
}
