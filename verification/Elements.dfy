/** Single elements as any peer may write them, tag by tag, and not only those that
    the printer writes. */
module Elements {
  import opened Text
  import opened Values
  import opened Xml
  import opened Builders
  import opened RoundTrip
  import Base64
  import DateTime

  /** An element with that text, and what follows it. */
  function Element(t: Tag, s: string, rest: seq<Token>): seq<Token> {
    [Open(t)] + (TextTokens(s) + ([Close(t)] + rest))
  }

  /** The parse is over with the value, right behind its element, or in a flat builder
      goes on behind it with the value. */
  ghost predicate Holds(o: Options, flat: bool, v: Value, rest: seq<Token>, r: Outcome) {
    if flat then exists s :: r == Parse(o, Builder(ValueCore(s, Some(v)), 1, false), rest)
    else r.Done? && r.rest == rest && r.builder.core.ValueCore? && r.builder.core.got == Some(v)
  }

  /** From the start tag on, when the state that follows it is one of a scalar. */
  lemma ElementOpens(o: Options, flat: bool, t: Tag, state: ValueState, s: string, rest: seq<Token>)
    requires Change(NEW_VALUE, t) == Some(ValueCore(state, None)) && IsLeafState(state)
    ensures Parse(o, Start(NEW_VALUE, flat), Element(t, s, rest)) ==
            Parse(o, Builder(ValueCore(state, None), if flat then 2 else 1, false), TextTokens(s) + ([Close(t)] + rest))
  {
    LeafOpens(o, Start(NEW_VALUE, flat), t, s, ValueCore(state, None), [Close(t)] + rest);
  }

  lemma ElementCloses(o: Options, flat: bool, t: Tag, state: ValueState, s: string, v: Value, rest: seq<Token>)
    requires Change(NEW_VALUE, t) == Some(ValueCore(state, None)) && IsLeafState(state)
    requires var c := ValueCore(state, None);
      (if AllXmlSpace(s) then Ended(o, c, t) else Texted(o, c, s)) == CoreDone(ValueCore(state, Some(v)), false)
    ensures Holds(o, flat, v, rest, Parse(o, Start(NEW_VALUE, flat), Element(t, s, rest)))
  {
    ElementOpens(o, flat, t, state, s, rest);
    LeafCloses(o, Builder(ValueCore(state, None), if flat then 2 else 1, false), t, s, ValueCore(state, Some(v)), rest);
  }

  lemma ElementFails(o: Options, flat: bool, t: Tag, state: ValueState, s: string, e: Error, rest: seq<Token>)
    requires Change(NEW_VALUE, t) == Some(ValueCore(state, None)) && IsLeafState(state)
    requires var c := ValueCore(state, None);
      (if AllXmlSpace(s) then Ended(o, c, t) else Texted(o, c, s)) == CoreFail(e)
    ensures Parse(o, Start(NEW_VALUE, flat), Element(t, s, rest)) == Fail(e)
  {
    ElementOpens(o, flat, t, state, s, rest);
    var b := Builder(ValueCore(state, None), if flat then 2 else 1, false);
    ParseText(o, b, s, [Close(t)] + rest);
    if AllXmlSpace(s) {
      ParseClose(o, b, t, rest);
    }
  }

  // ----- Numbers ------------------------------------------------------------------

  /** Either tag of a 32-bit integer: the number that the text denotes, the default
      where there is no text, and an exception where there is no number or default. */
  lemma IntElement(o: Options, flat: bool, t: Tag, s: string, rest: seq<Token>)
    requires t == IntTag || t == I4
    ensures var r := Parse(o, Start(NEW_VALUE, flat), Element(t, s, rest));
      if AllXmlSpace(s) then
        if o.defaultInt.Some? then Holds(o, flat, Int(o.defaultInt.value), rest, r) else r == Fail(XmlRpcViolation)
      else
        match ParseInt(s, -2147483648, 2147483647)
        case Some(i) => Holds(o, flat, Int(i), rest, r)
        case None => r == Fail(BadNumber)
  {
    if AllXmlSpace(s) {
      if o.defaultInt.Some? {
        ElementCloses(o, flat, t, AtInt, s, Int(o.defaultInt.value), rest);
      } else {
        ElementFails(o, flat, t, AtInt, s, XmlRpcViolation, rest);
      }
    } else {
      match ParseInt(s, INT32_MIN, INT32_MAX)
      case Some(i) => ElementCloses(o, flat, t, AtInt, s, Int(i), rest);
      case None => ElementFails(o, flat, t, AtInt, s, BadNumber, rest);
    }
  }

  /** So the decimal text of every integer is read as that integer under either tag. */
  lemma IntIsRead(o: Options, flat: bool, t: Tag, i: int32, rest: seq<Token>)
    requires t == IntTag || t == I4
    ensures Holds(o, flat, Int(i), rest, Parse(o, Start(NEW_VALUE, flat), Element(t, IntText(i), rest)))
  {
    IntTextParses(i, INT32_MIN, INT32_MAX);
    IntElement(o, flat, t, IntText(i), rest);
  }

  lemma Int64Element(o: Options, flat: bool, s: string, rest: seq<Token>)
    ensures var r := Parse(o, Start(NEW_VALUE, flat), Element(I8, s, rest));
      if AllXmlSpace(s) then
        if o.defaultInt64.Some? then Holds(o, flat, Int64(o.defaultInt64.value), rest, r) else r == Fail(XmlRpcViolation)
      else
        match ParseInt(s, -9223372036854775808, 9223372036854775807)
        case Some(l) => Holds(o, flat, Int64(l), rest, r)
        case None => r == Fail(BadNumber)
  {
    if AllXmlSpace(s) {
      if o.defaultInt64.Some? {
        ElementCloses(o, flat, I8, AtInt64, s, Int64(o.defaultInt64.value), rest);
      } else {
        ElementFails(o, flat, I8, AtInt64, s, XmlRpcViolation, rest);
      }
    } else {
      match ParseInt(s, INT64_MIN, INT64_MAX)
      case Some(l) => ElementCloses(o, flat, I8, AtInt64, s, Int64(l), rest);
      case None => ElementFails(o, flat, I8, AtInt64, s, BadNumber, rest);
    }
  }

  /** A boolean may be any number; only zero is false. */
  lemma BoolElement(o: Options, flat: bool, s: string, rest: seq<Token>)
    ensures var r := Parse(o, Start(NEW_VALUE, flat), Element(BooleanTag, s, rest));
      if AllXmlSpace(s) then r == Fail(XmlRpcViolation)
      else
        match ParseInt(s, -2147483648, 2147483647)
        case Some(i) => Holds(o, flat, Bool(if i == 0 then false else true), rest, r)
        case None => r == Fail(BadNumber)
  {
    if AllXmlSpace(s) {
      ElementFails(o, flat, BooleanTag, AtBool, s, XmlRpcViolation, rest);
    } else {
      match ParseInt(s, INT32_MIN, INT32_MAX)
      case Some(i) => ElementCloses(o, flat, BooleanTag, AtBool, s, Bool(i != 0), rest);
      case None => ElementFails(o, flat, BooleanTag, AtBool, s, BadNumber, rest);
    }
  }

  lemma DoubleElement(o: Options, flat: bool, s: string, rest: seq<Token>)
    ensures var r := Parse(o, Start(NEW_VALUE, flat), Element(DoubleTag, s, rest));
      if AllXmlSpace(s) then r == Fail(XmlRpcViolation)
      else
        match o.doubles.parse(s)
        case Some(d) => Holds(o, flat, Double(d), rest, r)
        case None => r == Fail(BadNumber)
  {
    if AllXmlSpace(s) {
      ElementFails(o, flat, DoubleTag, AtDouble, s, XmlRpcViolation, rest);
    } else {
      match o.doubles.parse(s)
      case Some(d) => ElementCloses(o, flat, DoubleTag, AtDouble, s, Double(d), rest);
      case None => ElementFails(o, flat, DoubleTag, AtDouble, s, BadNumber, rest);
    }
  }

  // ----- Text ----------------------------------------------------------------------

  lemma StringElement(o: Options, flat: bool, s: string, rest: seq<Token>)
    ensures Holds(o, flat, Str(if AllXmlSpace(s) then "" else s), rest,
                  Parse(o, Start(NEW_VALUE, flat), Element(StringTag, s, rest)))
  {
    ElementCloses(o, flat, StringTag, AtString, s, Str(if AllXmlSpace(s) then "" else s), rest);
  }

  lemma BinaryElement(o: Options, flat: bool, s: string, rest: seq<Token>)
    ensures var r := Parse(o, Start(NEW_VALUE, flat), Element(Base64Tag, s, rest));
      if AllXmlSpace(s) then Holds(o, flat, Binary([], ""), rest, r)
      else
        match Base64.Decode(s)
        case Some(data) => Holds(o, flat, Binary(data, s), rest, r)
        case None => r == Fail(MalformedBase64)
  {
    if AllXmlSpace(s) {
      ElementCloses(o, flat, Base64Tag, AtBinary, s, Binary([], ""), rest);
    } else {
      match Base64.Decode(s)
      case Some(data) => ElementCloses(o, flat, Base64Tag, AtBinary, s, Binary(data, s), rest);
      case None => ElementFails(o, flat, Base64Tag, AtBinary, s, MalformedBase64, rest);
    }
  }

  lemma DateElement(o: Options, flat: bool, s: string, rest: seq<Token>)
    ensures var r := Parse(o, Start(NEW_VALUE, flat), Element(DateTag, s, rest));
      if AllXmlSpace(s) then r == Fail(XmlRpcViolation)
      else
        match DateTime.Parse(s)
        case Some(tm) => Holds(o, flat, Date(tm), rest, r)
        case None => r == Fail(MalformedDate)
  {
    if AllXmlSpace(s) {
      ElementFails(o, flat, DateTag, AtTime, s, XmlRpcViolation, rest);
    } else {
      match DateTime.Parse(s)
      case Some(tm) => ElementCloses(o, flat, DateTag, AtTime, s, Date(tm), rest);
      case None => ElementFails(o, flat, DateTag, AtTime, s, MalformedDate, rest);
    }
  }

  /** Text without any element is a string, and nothing at all is an empty one; a
      builder that is not flat leaves that to its parent. */
  lemma TextAlone(o: Options, s: string, rest: seq<Token>)
    requires !AllXmlSpace(s)
    ensures Parse(o, Start(NEW_VALUE, true), TextTokens(s) + rest) == Done(Builder(ValueCore(AtValue, Some(Str(s))), 1, true), rest)
    ensures Parse(o, Start(NEW_VALUE, false), TextTokens(s) + rest) == Done(Builder(ValueCore(AtValue, Some(Str(s))), 0, true), rest)
  {
    ParseText(o, Start(NEW_VALUE, true), s, rest);
    ParseText(o, Start(NEW_VALUE, false), s, rest);
  }

  lemma NoText(o: Options, rest: seq<Token>)
    ensures Parse(o, Start(NEW_VALUE, true), [Close(ValueTag)] + rest) ==
            Done(Builder(ValueCore(AtValue, Some(Str(""))), 0, true), rest)
    ensures Parse(o, Start(NEW_VALUE, false), [Close(ValueTag)] + rest) == Done(Start(NEW_VALUE, false), [Close(ValueTag)] + rest)
  {
    ParseClose(o, Start(NEW_VALUE, true), ValueTag, rest);
  }

  /** A nil ends its builder at its start tag. */
  lemma NilElement(o: Options, flat: bool, rest: seq<Token>)
    ensures var r := Parse(o, Start(NEW_VALUE, flat), [Open(NilTag)] + rest);
      r.Done? && r.rest == rest && r.builder.core.ValueCore? && r.builder.core.got == Some(Nil)
  {
    OpenSettles(o, Start(NEW_VALUE, flat), NilTag, ValueCore(AtNil, Some(Nil)), true, rest);
  }
}
