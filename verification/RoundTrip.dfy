/** Reading back what the printer writes. */
module RoundTrip {
  import opened Text
  import opened OrderedMap
  import opened Values
  import opened Xml
  import opened Printer
  import opened Builders
  import Base64
  import DateTime

  // ----- What comes back ----------------------------------------------------

  /** The values that these results are about: doubles whose text is read as the same
      double, times that print, base64 text that fits the data, and structs as
      `std::map` holds them, with non-empty names. */
  predicate Regular(o: Options, v: Value) {
    match v
    case Double(d) => o.doubles.parse(o.doubles.show(d)) == Some(d) && !AllXmlSpace(o.doubles.show(d))
    case Binary(data, text) => text == "" || Base64.Decode(text) == Some(data)
    case Date(tm) => DateTime.Valid(tm)
    case Struct(ms) =>
      && (forall i, j :: 0 <= i < j < |ms| ==> Less(ms[i].key, ms[j].key))
      && (forall i :: 0 <= i < |ms| ==> ms[i].key != "" && Regular(o, ms[i].value))
    case Array(vs) => forall i :: 0 <= i < |vs| ==> Regular(o, vs[i])
    case _ => true
  }

  /** How many end tags a value builder leaves unread that it should have read: one
      for a nil, and what its last member or its items leave for a container. */
  function Leak(v: Value): nat
    decreases v, 0
  {
    match v
    case Nil => 1
    case Struct(ms) => if ms == [] then 0 else Leak(ms[|ms| - 1].value)
    case Array(vs) => LeakAll(vs)
    case _ => 0
  }

  function LeakAll(vs: seq<Value>): nat
    decreases vs, 0
  {
    if vs == [] then 0 else Leak(vs[0]) + LeakAll(vs[1..])
  }

  /** Few enough nils inside for no builder to be through too early: none in a struct
      but in its last member, and at most one before the last item of an array. */
  predicate NilsFit(v: Value) {
    match v
    case Struct(ms) =>
      && (forall i :: 0 <= i < |ms| ==> NilsFit(ms[i].value))
      && (forall i :: 0 <= i < |ms| ==> Leak(ms[i].value) <= if i + 1 < |ms| then 0 else 1)
    case Array(vs) =>
      && (forall i :: 0 <= i < |vs| ==> NilsFit(vs[i]))
      && LeaksBelow(vs, 2)
    case _ => true
  }

  /** The items before the last leave fewer end tags than that. */
  predicate LeaksBelow(vs: seq<Value>, depth: nat) {
    forall k :: 0 < k < |vs| ==> LeakAll(vs[..k]) < depth
  }

  /** No member name is all white space. */
  predicate NamesReadable(v: Value) {
    match v
    case Struct(ms) => forall i :: 0 <= i < |ms| ==> !AllXmlSpace(ms[i].key) && NamesReadable(ms[i].value)
    case Array(vs) => forall i :: 0 <= i < |vs| ==> NamesReadable(vs[i])
    case _ => true
  }

  /** The value with every blank string emptied, and binary data as an object
      built from its text. */
  function Reparsed(v: Value): Value
    decreases v
  {
    match v
    case Str(s) => if AllXmlSpace(s) then Str("") else v
    case Binary(data, text) =>
      var t := BinaryText(data, text);
      if AllXmlSpace(t) then Binary([], "") else Binary(data, t)
    case Struct(ms) => Struct(ReparsedMembers(ms))
    case Array(vs) => Array(ReparsedItems(vs))
    case _ => v
  }

  function ReparsedMembers(ms: seq<Entry<Value>>): (r: seq<Entry<Value>>)
    decreases ms
  {
    if ms == [] then [] else [Entry(ms[0].key, Reparsed(ms[0].value))] + ReparsedMembers(ms[1..])
  }

  function ReparsedItems(vs: seq<Value>): (r: seq<Value>)
    decreases vs
  {
    if vs == [] then [] else [Reparsed(vs[0])] + ReparsedItems(vs[1..])
  }

  lemma {:induction false} RegularPrintable(o: Options, v: Value)
    requires Regular(o, v)
    ensures Printable(v)
  {
    match v
    case Struct(ms) =>
      forall i | 0 <= i < |ms| ensures Printable(ms[i].value) {
        RegularPrintable(o, ms[i].value);
      }
    case Array(vs) =>
      forall i | 0 <= i < |vs| ensures Printable(vs[i]) {
        RegularPrintable(o, vs[i]);
      }
    case _ =>
  }

  // ----- Single steps -------------------------------------------------------

  function Handled(o: Options, r: CoreOutcome, depth: nat, exit: bool, rest: seq<Token>): Outcome {
    match r
    case CoreFail(e) => Fail(e)
    case CoreDone(core, want) => Continue(o, Builder(core, depth, exit || want), rest)
  }

  lemma OpenSettles(o: Options, b: Builder, t: Tag, core: Core, exit: bool, rest: seq<Token>)
    requires Change(b.core, t).Some? && ActionIn(Change(b.core, t).value) == Settle(core, exit)
    ensures Parse(o, b, [Open(t)] + rest) == Continue(o, Builder(core, b.depth + 1, b.wantExit || exit), rest)
  {
    assert ([Open(t)] + rest)[1..] == rest;
  }

  /** Text is taken up to the end tag of its element, which stays. Blank text
      is refused, and where there is none the end tag is taken instead. */
  lemma OpenTakesText(o: Options, b: Builder, t: Tag, s: string, rest: seq<Token>)
    requires Change(b.core, t).Some? && ActionIn(Change(b.core, t).value) == TakeText
    ensures Parse(o, b, [Open(t)] + (TextTokens(s) + ([Close(t)] + rest))) ==
      if Blank(s) then Fail(XmlRpcViolation)
      else Continue(o, Builder(WithText(Change(b.core, t).value, s), b.depth + 1, b.wantExit),
                    if s == "" then rest else [Close(t)] + rest)
  {
    var toks := TextTokens(s) + ([Close(t)] + rest);
    assert ([Open(t)] + toks)[1..] == toks;
    assert toks[1..] == if s == "" then rest else [Close(t)] + rest;
  }

  lemma OpenSubBuilds(o: Options, b: Builder, t: Tag, start: Core, flat: bool, rest: seq<Token>)
    requires Change(b.core, t).Some? && ActionIn(Change(b.core, t).value) == SubBuild(start, flat)
    ensures Parse(o, b, [Open(t)] + rest) ==
            Absorbed(o, b, Change(b.core, t).value, Parse(o, Start(start, flat), rest))
  {
    assert ([Open(t)] + rest)[1..] == rest;
  }

  function Absorbed(o: Options, b: Builder, core: Core, r: Outcome): Outcome {
    match r
    case Fail(e) => Fail(e)
    case Done(sub, rest) => Handled(o, Absorb(core, sub.core), b.depth + 1, b.wantExit, rest)
  }

  lemma ParseClose(o: Options, b: Builder, t: Tag, rest: seq<Token>)
    requires b.depth > 0
    ensures Parse(o, b, [Close(t)] + rest) ==
            Handled(o, Ended(o, b.core, t), b.depth - 1, b.wantExit || b.depth == 1, rest)
  {
    assert ([Close(t)] + rest)[1..] == rest;
  }

  lemma ParseText(o: Options, b: Builder, s: string, rest: seq<Token>)
    requires !b.wantExit
    ensures Parse(o, b, TextTokens(s) + rest) ==
      if AllXmlSpace(s) || !b.core.ValueCore? then Parse(o, b, rest)
      else Handled(o, Texted(o, b.core, s), b.depth, false, rest)
  {
    var toks := TextTokens(s) + rest;
    if s == "" {
      assert toks == rest;
    } else {
      assert toks[1..] == rest;
    }
  }

  // ----- Scalars ------------------------------------------------------------

  predicate IsLeafState(s: ValueState) {
    !s.AtStruct? && !s.AtArray? && !s.AtNil?
  }

  /** A typed scalar element, from its start tag to its end tag. */
  lemma LeafParses(o: Options, b: Builder, t: Tag, s: string, inside: Core, after: Core, rest: seq<Token>)
    requires b.core.ValueCore? && !b.wantExit && b.core.got == None
    requires Change(b.core, t) == Some(inside) && IsLeafState(inside.vstate)
    requires after.ValueCore? && after.got.Some?
    requires if AllXmlSpace(s) then Ended(o, inside, t) == CoreDone(after, false)
             else Texted(o, inside, s) == CoreDone(after, false)
    ensures Parse(o, b, Leaf(t, s) + rest) == Continue(o, Builder(after, b.depth, b.depth == 0), rest)
  {
    LeafOpens(o, b, t, s, inside, [Close(t)] + rest);
    LeafTokens(t, s, rest);
    LeafCloses(o, Builder(inside, b.depth + 1, false), t, s, after, rest);
  }

  lemma LeafOpens(o: Options, b: Builder, t: Tag, s: string, inside: Core, closing: seq<Token>)
    requires b.core.ValueCore? && !b.wantExit && b.core.got == None
    requires Change(b.core, t) == Some(inside) && IsLeafState(inside.vstate)
    ensures Parse(o, b, [Open(t)] + (TextTokens(s) + closing)) ==
            Parse(o, Builder(inside, b.depth + 1, false), TextTokens(s) + closing)
  {
    OpenSettles(o, b, t, inside, false, TextTokens(s) + closing);
  }

  lemma LeafCloses(o: Options, c: Builder, t: Tag, s: string, after: Core, rest: seq<Token>)
    requires c.core.ValueCore? && !c.wantExit && c.depth > 0 && after.ValueCore? && after.got.Some?
    requires if AllXmlSpace(s) then Ended(o, c.core, t) == CoreDone(after, false)
             else Texted(o, c.core, s) == CoreDone(after, false)
    ensures Parse(o, c, TextTokens(s) + ([Close(t)] + rest)) ==
            Continue(o, Builder(after, c.depth - 1, c.depth == 1), rest)
  {
    ParseText(o, c, s, [Close(t)] + rest);
    if AllXmlSpace(s) {
      ParseClose(o, c, t, rest);
    } else {
      ParseClose(o, c.(core := after), t, rest);
    }
  }

  predicate IsScalar(v: Value) {
    !v.Nil? && !v.Struct? && !v.Array?
  }

  function LeafTag(v: Value): Tag
    requires IsScalar(v)
  {
    match v
    case Int(_) => I4
    case Int64(_) => I8
    case Bool(_) => BooleanTag
    case Double(_) => DoubleTag
    case Str(_) => StringTag
    case Binary(_, _) => Base64Tag
    case Date(_) => DateTag
  }

  function LeafText(o: Options, v: Value): string
    requires IsScalar(v) && Printable(v)
  {
    match v
    case Int(i) => IntText(i)
    case Int64(l) => IntText(l)
    case Bool(b) => if b then "1" else "0"
    case Double(d) => o.doubles.show(d)
    case Str(s) => s
    case Binary(data, text) => BinaryText(data, text)
    case Date(tm) => DateTime.Print(tm)
  }

  function LeafCore(v: Value): Core
    requires IsScalar(v)
  {
    var s := match v
      case Int(_) => AtInt
      case Int64(_) => AtInt64
      case Bool(_) => AtBool
      case Double(_) => AtDouble
      case Str(_) => AtString
      case Binary(_, _) => AtBinary
      case Date(_) => AtTime;
    ValueCore(s, Some(Reparsed(v)))
  }

  /** The element of a typed scalar puts the scalar into a value builder. */
  ghost predicate LeafReads(o: Options, v: Value)
    requires IsScalar(v) && Printable(v)
  {
    var after, s := LeafCore(v), LeafText(o, v);
    var inside := ValueCore(after.vstate, None);
    && Change(NEW_VALUE, LeafTag(v)) == Some(inside)
    && if AllXmlSpace(s) then Ended(o, inside, LeafTag(v)) == CoreDone(after, false)
       else Texted(o, inside, s) == CoreDone(after, false)
  }

  lemma IntReads(o: Options, i: int32)
    ensures LeafReads(o, Int(i))
  {
    IntTextParses(i, INT32_MIN, INT32_MAX);
  }

  lemma Int64Reads(o: Options, l: int64)
    ensures LeafReads(o, Int64(l))
  {
    IntTextParses(l, INT64_MIN, INT64_MAX);
  }

  lemma BoolReads(o: Options, b: bool)
    ensures LeafReads(o, Bool(b))
  {
    var i := if b then 1 else 0;
    IntTextParses(i, INT32_MIN, INT32_MAX);
    assert LeafText(o, Bool(b)) == IntText(i);
  }

  lemma DoubleReads(o: Options, d: real)
    requires Regular(o, Double(d))
    ensures LeafReads(o, Double(d))
  {
    assert o.doubles.parse(o.doubles.show(d)) == Some(d);
  }

  lemma StringReads(o: Options, s: string)
    ensures LeafReads(o, Str(s))
  {
  }

  lemma BinaryTextDecodes(data: bytes, text: string)
    requires text == "" || Base64.Decode(text) == Some(data)
    ensures Base64.Decode(BinaryText(data, text)) == Some(data)
  {
    Base64.RoundTrip(data);
  }

  lemma BinaryLeaf(o: Options, data: bytes, s: string)
    requires Base64.Decode(s) == Some(data)
    ensures var inside := ValueCore(AtBinary, None);
      && Ended(o, inside, Base64Tag) == CoreDone(inside.(got := Some(Binary([], ""))), false)
      && Texted(o, inside, s) == CoreDone(inside.(got := Some(Binary(data, s))), false)
  {
  }

  lemma BinaryReads(o: Options, data: bytes, text: string)
    requires Regular(o, Binary(data, text))
    ensures LeafReads(o, Binary(data, text))
  {
    var inside, s := ValueCore(AtBinary, None), BinaryText(data, text);
    assert Ended(o, inside, Base64Tag) == CoreDone(inside.(got := Some(Binary([], ""))), false)
        && Texted(o, inside, s) == CoreDone(inside.(got := Some(Binary(data, s))), false) by {
      BinaryTextDecodes(data, text);
      BinaryLeaf(o, data, s);
    }
  }

  lemma DateReads(o: Options, tm: DateTime.Tm)
    requires DateTime.Valid(tm)
    ensures LeafReads(o, Date(tm))
  {
    DateTime.RoundTrip(tm);
    DateTime.PrintNotBlank(tm);
  }

  /** Text of the right kind becomes the scalar that it was printed for. */
  lemma ScalarReads(o: Options, v: Value)
    requires IsScalar(v) && Regular(o, v) && Printable(v)
    ensures LeafReads(o, v)
  {
    match v
    case Int(i) => IntReads(o, i);
    case Int64(l) => Int64Reads(o, l);
    case Bool(b) => BoolReads(o, b);
    case Double(d) => DoubleReads(o, d);
    case Str(s) => StringReads(o, s);
    case Binary(data, text) => BinaryReads(o, data, text);
    case Date(tm) => DateReads(o, tm);
  }

  /** Whether a flat sub-build of this content takes the closing value tag too. */
  predicate EatsClose(bare: bool, v: Value) {
    IsScalar(v) && !(bare && v.Str? && !AllXmlSpace(v.s))
  }

  ghost predicate ReadsScalar(bare: bool, v: Value, flat: bool, rest: seq<Token>, r: Outcome) {
    && r.Done? && r.builder.core.ValueCore?
    && OrEmpty(r.builder.core.got) == Reparsed(v) && (flat ==> r.builder.core.got.Some?)
    && r.rest == if flat && EatsClose(bare, v) then rest else [Close(ValueTag)] + rest
  }

  /** A scalar with or without a string tag, up to the closing value tag or past it. */
  lemma ScalarParses(o: Options, bare: bool, v: Value, flat: bool, rest: seq<Token>)
    requires IsScalar(v) && Regular(o, v) && Printable(v)
    ensures ReadsScalar(bare, v, flat, rest, Parse(o, Start(NEW_VALUE, flat), Content(o, bare, v) + ([Close(ValueTag)] + rest)))
  {
    if bare && v.Str? {
      BareParses(o, v.s, flat, rest);
    } else {
      ScalarReads(o, v);
      assert Content(o, bare, v) == Leaf(LeafTag(v), LeafText(o, v));
      ElementParses(o, bare, v, flat, rest);
    }
  }

  lemma BareParses(o: Options, s: string, flat: bool, rest: seq<Token>)
    ensures ReadsScalar(true, Str(s), flat, rest, Parse(o, Start(NEW_VALUE, flat), TextTokens(s) + ([Close(ValueTag)] + rest)))
  {
    ParseText(o, Start(NEW_VALUE, flat), s, [Close(ValueTag)] + rest);
    if AllXmlSpace(s) && flat {
      ParseClose(o, Start(NEW_VALUE, flat), ValueTag, rest);
    }
  }

  lemma ElementParses(o: Options, bare: bool, v: Value, flat: bool, rest: seq<Token>)
    requires IsScalar(v) && Printable(v) && LeafReads(o, v) && !(bare && v.Str?)
    ensures ReadsScalar(bare, v, flat, rest, Parse(o, Start(NEW_VALUE, flat),
                                                   Leaf(LeafTag(v), LeafText(o, v)) + ([Close(ValueTag)] + rest)))
  {
    var after := LeafCore(v);
    LeafParses(o, Start(NEW_VALUE, flat), LeafTag(v), LeafText(o, v), ValueCore(after.vstate, None), after,
               [Close(ValueTag)] + rest);
    if flat {
      ParseClose(o, Builder(after, 1, false), ValueTag, rest);
    }
  }

  // ----- End tags -----------------------------------------------------------

  /** End tags, none of them of a struct member. */
  predicate AreEnds(ends: seq<Token>) {
    forall i :: 0 <= i < |ends| ==> ends[i].Close? && ends[i].tag != MemberTag
  }

  predicate Ends(ends: seq<Token>, n: nat) {
    |ends| == n && AreEnds(ends)
  }

  /** What is left are that many end tags, and then the rest. */
  ghost predicate Leaves(left: seq<Token>, n: nat, rest: seq<Token>) {
    exists ends :: Ends(ends, n) && left == ends + rest
  }

  lemma LeavesNothing(rest: seq<Token>)
    ensures Leaves(rest, 0, rest)
  {
    assert Ends([], 0) && [] + rest == rest;
  }

  lemma LeavesOne(t: Tag, rest: seq<Token>)
    requires t != MemberTag
    ensures Leaves([Close(t)] + rest, 1, rest)
  {
    assert Ends([Close(t)], 1);
  }

  lemma NothingLeft(left: seq<Token>, rest: seq<Token>)
    requires Leaves(left, 0, rest)
    ensures left == rest
  {
    var ends :| Ends(ends, 0) && left == ends + rest;
  }

  /** A builder of anything but a value counts end tags, whatever they end, and stops
      when it is down to zero. */
  lemma {:induction false} EndsClose(o: Options, core: Core, depth: nat, ends: seq<Token>, rest: seq<Token>)
    requires !core.ValueCore? && depth > 0 && AreEnds(ends)
    ensures Parse(o, Builder(core, depth, false), ends + rest) ==
      if |ends| < depth then Parse(o, Builder(core, depth - |ends|, false), rest)
      else Done(Builder(core, 0, true), ends[depth..] + rest)
    decreases depth
  {
    if ends == [] {
      assert ends + rest == rest;
    } else {
      var tail := ends[1..] + rest;
      assert ends + rest == [Close(ends[0].tag)] + tail;
      ParseClose(o, Builder(core, depth, false), ends[0].tag, tail);
      if depth > 1 {
        EndsClose(o, core, depth - 1, ends[1..], rest);
        assert |ends| >= depth ==> ends[1..][depth - 1..] == ends[depth..];
      } else {
        assert ends[1..] == ends[depth..];
      }
    }
  }

  // ----- Containers ---------------------------------------------------------

  /** A value builder done with a container: it exits at once, one level down. */
  function WithContainer(flat: bool, inside: ValueState, v: Value, rest: seq<Token>): Outcome {
    Done(Builder(ValueCore(inside, Some(v)), if flat then 2 else 1, true), rest)
  }

  lemma StructValue(o: Options, bare: bool, ms: seq<Entry<Value>>, flat: bool, tail: seq<Token>)
    requires Printable(Struct(ms))
    ensures var r := Parse(o, Start(NEW_STRUCT, true), Members(o, bare, ms) + ([Close(StructTag)] + tail));
      && (r.Fail? ==> Parse(o, Start(NEW_VALUE, flat), Content(o, bare, Struct(ms)) + tail) == r)
      && (r.Done? ==> Parse(o, Start(NEW_VALUE, flat), Content(o, bare, Struct(ms)) + tail) ==
                      WithContainer(flat, AtStruct, Struct(r.builder.core.members), r.rest))
  {
    var inner := Members(o, bare, ms) + ([Close(StructTag)] + tail);
    StructTokens(o, bare, ms, tail);
    OpenSubBuilds(o, Start(NEW_VALUE, flat), StructTag, NEW_STRUCT, true, inner);
  }

  lemma ArrayValue(o: Options, bare: bool, vs: seq<Value>, flat: bool, tail: seq<Token>)
    requires Printable(Array(vs))
    ensures var r := Parse(o, Builder(ArrayCore(InData, []), 2, false),
                           Items(o, bare, vs) + ([Close(DataTag)] + ([Close(ArrayTag)] + tail)));
      && (r.Fail? ==> Parse(o, Start(NEW_VALUE, flat), Content(o, bare, Array(vs)) + tail) == r)
      && (r.Done? ==> Parse(o, Start(NEW_VALUE, flat), Content(o, bare, Array(vs)) + tail) ==
                      WithContainer(flat, AtArray, Array(r.builder.core.items), r.rest))
  {
    var items := Items(o, bare, vs) + ([Close(DataTag)] + ([Close(ArrayTag)] + tail));
    DataOpens(o, items);
    OpenSubBuilds(o, Start(NEW_VALUE, flat), ArrayTag, NEW_ARRAY, true, [Open(DataTag)] + items);
    assert Content(o, bare, Array(vs)) + tail == [Open(ArrayTag)] + ([Open(DataTag)] + items) by {
      ArrayTokens(o, bare, vs, tail);
    }
  }

  lemma DataOpens(o: Options, items: seq<Token>)
    ensures Parse(o, Start(NEW_ARRAY, true), [Open(DataTag)] + items) ==
            Parse(o, Builder(ArrayCore(InData, []), 2, false), items)
  {
    OpenSettles(o, Start(NEW_ARRAY, true), DataTag, ArrayCore(InData, []), false, items);
  }

  function InStruct(st: StructState, name: string, value: Value, acc: seq<Entry<Value>>, depth: nat): Builder {
    Builder(StructCore(st, name, value, acc), depth, false)
  }

  /** The name of a member. An empty one is read off its own end tag, which is then
      not counted. */
  lemma NameReads(o: Options, k: string, acc: seq<Entry<Value>>, name: string, value: Value, depth: nat, rest: seq<Token>)
    requires depth > 0
    ensures Parse(o, InStruct(InMember, name, value, acc, depth), Leaf(NameTag, k) + rest) ==
      if Blank(k) then Fail(XmlRpcViolation)
      else Parse(o, InStruct(NameRead, k, value, acc, if k == "" then depth + 1 else depth), rest)
  {
    LeafTokens(NameTag, k, rest);
    OpenTakesText(o, InStruct(InMember, name, value, acc, depth), NameTag, k, rest);
    if !AllXmlSpace(k) {
      ParseClose(o, InStruct(NameRead, k, value, acc, depth + 1), NameTag, rest);
    }
  }

  /** A member up to its value, for a struct builder that is as many levels down. */
  lemma MemberOpens(o: Options, k: string, acc: seq<Entry<Value>>, name: string, value: Value, depth: nat, rest: seq<Token>)
    ensures Parse(o, InStruct(OutsideMember, name, value, acc, depth), [Open(MemberTag)] + (Leaf(NameTag, k) + rest)) ==
      if Blank(k) then Fail(XmlRpcViolation)
      else Parse(o, InStruct(NameRead, k, value, acc, if k == "" then depth + 2 else depth + 1), rest)
  {
    OpenSettles(o, InStruct(OutsideMember, name, value, acc, depth), MemberTag, StructCore(InMember, name, value, acc),
                false, Leaf(NameTag, k) + rest);
    NameReads(o, k, acc, name, value, depth + 1, rest);
  }

  /** The value of a member. */
  lemma MemberValue(o: Options, k: string, value: Value, acc: seq<Entry<Value>>, depth: nat, toks: seq<Token>)
    ensures var r := Parse(o, Start(NEW_VALUE, false), toks);
      && (r.Fail? ==> Parse(o, InStruct(NameRead, k, value, acc, depth), [Open(ValueTag)] + toks) == r)
      && (r.Done? ==> Parse(o, InStruct(NameRead, k, value, acc, depth), [Open(ValueTag)] + toks) ==
                      Parse(o, InStruct(ValueRead, k, OrEmpty(r.builder.core.got), acc, depth + 1), r.rest))
  {
    OpenSubBuilds(o, InStruct(NameRead, k, value, acc, depth), ValueTag, NEW_VALUE, false, toks);
  }

  /** A member up to the end of the sub-build for its value. */
  lemma MemberReads(o: Options, k: string, acc: seq<Entry<Value>>, name: string, value: Value, depth: nat, toks: seq<Token>)
    requires k != ""
    ensures var r := Parse(o, Start(NEW_VALUE, false), toks);
      Parse(o, InStruct(OutsideMember, name, value, acc, depth),
            [Open(MemberTag)] + (Leaf(NameTag, k) + ([Open(ValueTag)] + toks))) ==
      if AllXmlSpace(k) then Fail(XmlRpcViolation)
      else if r.Fail? then r
      else Parse(o, InStruct(ValueRead, k, OrEmpty(r.builder.core.got), acc, depth + 2), r.rest)
  {
    MemberOpens(o, k, acc, name, value, depth, [Open(ValueTag)] + toks);
    MemberValue(o, k, value, acc, depth + 1, toks);
  }

  /** A member from behind its value on, with the end tags in front that the value has
      left. */
  lemma MemberCloses(o: Options, k: string, v: Value, acc: seq<Entry<Value>>, depth: nat, ends: seq<Token>, rest: seq<Token>)
    requires AreEnds(ends) && |ends| <= depth
    ensures Parse(o, InStruct(ValueRead, k, v, acc, depth + 2), ends + ([Close(ValueTag)] + ([Close(MemberTag)] + rest))) ==
            Continue(o, Builder(StructCore(OutsideMember, k, v, Put(acc, k, v)), depth - |ends|, |ends| == depth), rest)
  {
    var last := [Close(MemberTag)] + rest;
    Associates(ends, [Close(ValueTag)], last);
    EndsClose(o, StructCore(ValueRead, k, v, acc), depth + 2, ends + [Close(ValueTag)], last);
    ParseClose(o, InStruct(ValueRead, k, v, acc, depth + 1 - |ends|), MemberTag, rest);
  }

  /** An item of an array. */
  lemma ItemValue(o: Options, st: ArrayState, acc: seq<Value>, depth: nat, toks: seq<Token>)
    requires st != OutsideData
    ensures var r := Parse(o, Start(NEW_VALUE, false), toks);
      && (r.Fail? ==> Parse(o, Builder(ArrayCore(st, acc), depth, false), [Open(ValueTag)] + toks) == r)
      && (r.Done? ==> Parse(o, Builder(ArrayCore(st, acc), depth, false), [Open(ValueTag)] + toks) ==
                      Parse(o, Builder(ArrayCore(InValues, acc + [OrEmpty(r.builder.core.got)]), depth + 1, false), r.rest))
  {
    OpenSubBuilds(o, Builder(ArrayCore(st, acc), depth, false), ValueTag, NEW_VALUE, false, toks);
  }

  // ----- Whole values -------------------------------------------------------

  /** What a sub-build for a value comes to. */
  ghost predicate Reads(o: Options, bare: bool, v: Value, flat: bool, rest: seq<Token>, r: Outcome) {
    if !NamesReadable(v) then r == Fail(XmlRpcViolation)
    else
      && r.Done? && r.builder.core.ValueCore?
      && OrEmpty(r.builder.core.got) == Reparsed(v) && (flat ==> r.builder.core.got.Some?)
      && if flat && EatsClose(bare, v) then r.rest == rest
         else Leaves(r.rest, Leak(v), [Close(ValueTag)] + rest)
  }

  /** The outcome for a value and whatever follows it. A sub-build that is not flat
      leaves the closing value tag to its parent; a flat one takes it with a scalar
      and leaves it after a container. In front of it are the end tags that nils
      leave unread, exactly as many as the value leaks. */
  lemma {:induction false} ValueParses(o: Options, bare: bool, v: Value, flat: bool, rest: seq<Token>)
    requires Regular(o, v) && NilsFit(v) && Printable(v)
    ensures Reads(o, bare, v, flat, rest, Parse(o, Start(NEW_VALUE, flat), Content(o, bare, v) + ([Close(ValueTag)] + rest)))
    decreases v, 1
  {
    var tail := [Close(ValueTag)] + rest;
    match v
    case Nil => NilParses(o, bare, flat, rest);
    case Struct(ms) =>
      StructParses(o, bare, ms, [], "", Nil, tail);
      StructValue(o, bare, ms, flat, tail);
      StructReads(o, bare, ms, flat, rest,
                  Parse(o, Start(NEW_STRUCT, true), StructTokensFrom(o, bare, ms, tail)));
    case Array(vs) =>
      ArrayParses(o, bare, vs, [], InData, 2, tail);
      ArrayValue(o, bare, vs, flat, tail);
      ArrayReads(o, bare, vs, flat, rest,
                 Parse(o, Builder(ArrayCore(InData, []), 2, false), ArrayTokensFrom(o, bare, vs, tail)));
    case _ => ScalarValueParses(o, bare, v, flat, rest);
  }

  lemma ScalarValueParses(o: Options, bare: bool, v: Value, flat: bool, rest: seq<Token>)
    requires IsScalar(v) && Regular(o, v) && Printable(v)
    ensures Reads(o, bare, v, flat, rest, Parse(o, Start(NEW_VALUE, flat), Content(o, bare, v) + ([Close(ValueTag)] + rest)))
  {
    ScalarParses(o, bare, v, flat, rest);
    LeavesNothing([Close(ValueTag)] + rest);
  }

  /** A nil is taken without its end tag. */
  lemma NilParses(o: Options, bare: bool, flat: bool, rest: seq<Token>)
    ensures Reads(o, bare, Nil, flat, rest, Parse(o, Start(NEW_VALUE, flat), Content(o, bare, Nil) + ([Close(ValueTag)] + rest)))
  {
    var tail := [Close(NilTag)] + ([Close(ValueTag)] + rest);
    assert Content(o, bare, Nil) + ([Close(ValueTag)] + rest) == [Open(NilTag)] + tail;
    OpenSettles(o, Start(NEW_VALUE, flat), NilTag, ValueCore(AtNil, Some(Nil)), true, tail);
    LeavesOne(NilTag, [Close(ValueTag)] + rest);
  }

  /** What a struct builder comes to, and an array builder. */
  ghost predicate ReadsStruct(r: Outcome, ms: seq<Entry<Value>>, acc: seq<Entry<Value>>, rest: seq<Token>) {
    if !NamesReadable(Struct(ms)) then r == Fail(XmlRpcViolation)
    else
      && r.Done? && r.builder.core.StructCore? && r.builder.core.members == acc + ReparsedMembers(ms)
      && Leaves(r.rest, MembersLeak(ms), rest)
  }

  ghost predicate ReadsArray(r: Outcome, vs: seq<Value>, acc: seq<Value>, depth: nat, rest: seq<Token>)
    requires depth <= 2
  {
    if !NamesReadable(Array(vs)) then r == Fail(XmlRpcViolation)
    else
      && r.Done? && r.builder.core.ArrayCore? && r.builder.core.items == acc + ReparsedItems(vs)
      && Leaves(r.rest, LeakAll(vs) + 2 - depth, rest)
  }

  lemma StructReads(o: Options, bare: bool, ms: seq<Entry<Value>>, flat: bool, rest: seq<Token>, r: Outcome)
    requires ReadsStruct(r, ms, [], [Close(ValueTag)] + rest)
    ensures Reads(o, bare, Struct(ms), flat, rest,
                  if r.Fail? then r else WithContainer(flat, AtStruct, Struct(r.builder.core.members), r.rest))
  {
    assert [] + ReparsedMembers(ms) == ReparsedMembers(ms);
  }

  lemma ArrayReads(o: Options, bare: bool, vs: seq<Value>, flat: bool, rest: seq<Token>, r: Outcome)
    requires ReadsArray(r, vs, [], 2, [Close(ValueTag)] + rest)
    ensures Reads(o, bare, Array(vs), flat, rest,
                  if r.Fail? then r else WithContainer(flat, AtArray, Array(r.builder.core.items), r.rest))
  {
    assert [] + ReparsedItems(vs) == ReparsedItems(vs);
  }

  function MembersLeak(ms: seq<Entry<Value>>): nat {
    if ms == [] then 0 else Leak(ms[|ms| - 1].value)
  }

  /** A struct builder reads the members and stops right behind its end tag, or in
      front of it if the last member leaks. */
  lemma {:induction false} StructParses(o: Options, bare: bool, ms: seq<Entry<Value>>, acc: seq<Entry<Value>>,
                                        name: string, value: Value, rest: seq<Token>)
    requires Printable(Struct(ms)) && Regular(o, Struct(ms)) && NilsFit(Struct(ms))
    requires Before(acc, ms)
    ensures ReadsStruct(Parse(o, InStruct(OutsideMember, name, value, acc, 1), StructTokensFrom(o, bare, ms, rest)),
                        ms, acc, rest)
    decreases ms, 2
  {
    if ms == [] {
      NoMembers(o, bare, ms, acc, name, value, rest);
    } else {
      RestIsRegular(o, ms);
      if Leak(ms[0].value) == 0 {
        MoveFirst(acc, ms, Reparsed(ms[0].value));
        StructParses(o, bare, ms[1..], acc + [Entry(ms[0].key, Reparsed(ms[0].value))], ms[0].key, Reparsed(ms[0].value), rest);
        MoreMembersParse(o, bare, ms, acc, name, value, rest);
      } else {
        LeakingMember(o, bare, ms, acc, name, value, rest);
      }
    }
  }

  function StructTokensFrom(o: Options, bare: bool, ms: seq<Entry<Value>>, rest: seq<Token>): seq<Token>
    requires Printable(Struct(ms))
  {
    Members(o, bare, ms) + ([Close(StructTag)] + rest)
  }

  lemma NoMembers(o: Options, bare: bool, ms: seq<Entry<Value>>, acc: seq<Entry<Value>>, name: string, value: Value,
                  rest: seq<Token>)
    requires ms == []
    ensures ReadsStruct(Parse(o, InStruct(OutsideMember, name, value, acc, 1), StructTokensFrom(o, bare, ms, rest)),
                        ms, acc, rest)
  {
    MembersTokens(o, bare, ms, [Close(StructTag)] + rest);
    ParseClose(o, InStruct(OutsideMember, name, value, acc, 1), StructTag, rest);
    LeavesNothing(rest);
    assert acc + [] == acc;
  }

  /** One member more. */
  lemma {:induction false} MemberGoesOn(o: Options, bare: bool, ms: seq<Entry<Value>>, acc: seq<Entry<Value>>,
                                        name: string, value: Value, depth: nat, rest: seq<Token>)
    requires ms != [] && Printable(Struct(ms)) && Printable(Struct(ms[1..])) && depth > 0
    requires Regular(o, ms[0].value) && NilsFit(ms[0].value) && Leak(ms[0].value) == 0 && ms[0].key != ""
    requires Ordered(ms) && Before(acc, ms)
    ensures var e := Entry(ms[0].key, Reparsed(ms[0].value));
      Parse(o, InStruct(OutsideMember, name, value, acc, depth), StructTokensFrom(o, bare, ms, rest)) ==
      if AllXmlSpace(ms[0].key) || !NamesReadable(ms[0].value) then Fail(XmlRpcViolation)
      else Parse(o, InStruct(OutsideMember, e.key, e.value, acc + [e], depth), StructTokensFrom(o, bare, ms[1..], rest))
    decreases ms, 0
  {
    MembersTokens(o, bare, ms, [Close(StructTag)] + rest);
    MemberStored(o, bare, ms[0].key, ms[0].value, acc, name, value, depth, StructTokensFrom(o, bare, ms[1..], rest));
    MoveFirst(acc, ms, Reparsed(ms[0].value));
  }

  lemma {:induction false} MoreMembersParse(o: Options, bare: bool, ms: seq<Entry<Value>>, acc: seq<Entry<Value>>,
                                            name: string, value: Value, rest: seq<Token>)
    requires ms != [] && Printable(Struct(ms)) && Printable(Struct(ms[1..]))
    requires Regular(o, ms[0].value) && NilsFit(ms[0].value) && Leak(ms[0].value) == 0 && ms[0].key != ""
    requires Ordered(ms) && Before(acc, ms) && MembersLeak(ms[1..]) == MembersLeak(ms)
    requires var e := Entry(ms[0].key, Reparsed(ms[0].value));
      ReadsStruct(Parse(o, InStruct(OutsideMember, e.key, e.value, acc + [e], 1), StructTokensFrom(o, bare, ms[1..], rest)),
                  ms[1..], acc + [e], rest)
    ensures ReadsStruct(Parse(o, InStruct(OutsideMember, name, value, acc, 1), StructTokensFrom(o, bare, ms, rest)),
                        ms, acc, rest)
    decreases ms, 1
  {
    MemberGoesOn(o, bare, ms, acc, name, value, 1, rest);
    NamesOfRest(ms);
    if !AllXmlSpace(ms[0].key) && NamesReadable(ms[0].value) {
      MoreMembers(ms, acc, rest, Parse(o, InStruct(OutsideMember, name, value, acc, 1), StructTokensFrom(o, bare, ms, rest)));
    }
  }

  lemma {:induction false} LeakingMember(o: Options, bare: bool, ms: seq<Entry<Value>>, acc: seq<Entry<Value>>,
                                         name: string, value: Value, rest: seq<Token>)
    requires Printable(Struct(ms)) && NilsFit(Struct(ms)) && ms != []
    requires Regular(o, ms[0].value) && NilsFit(ms[0].value) && Leak(ms[0].value) == 1 && ms[0].key != ""
    requires Ordered(ms) && Before(acc, ms)
    ensures ReadsStruct(Parse(o, InStruct(OutsideMember, name, value, acc, 1), StructTokensFrom(o, bare, ms, rest)),
                        ms, acc, rest)
    decreases ms, 1
  {
    var k, v := ms[0].key, ms[0].value;
    MembersTokens(o, bare, ms, [Close(StructTag)] + rest);
    LastMember(o, bare, ms, rest);
    MemberParses(o, bare, k, v, acc, name, value, 1, [Close(StructTag)] + rest);
    MoveFirst(acc, ms, Reparsed(v));
    NamesOfRest(ms);
    if !AllXmlSpace(k) && NamesReadable(v) {
      NoMoreMembers(ms, acc, rest, Parse(o, InStruct(OutsideMember, name, value, acc, 1), StructTokensFrom(o, bare, ms, rest)));
    }
  }

  lemma NoMoreMembers(ms: seq<Entry<Value>>, acc: seq<Entry<Value>>, rest: seq<Token>, r: Outcome)
    requires |ms| == 1 && MembersLeak(ms) == 1
    requires r.Done? && r.builder.core.StructCore? && r.rest == [Close(StructTag)] + rest
    requires r.builder.core.members == acc + [Entry(ms[0].key, Reparsed(ms[0].value))]
    requires !AllXmlSpace(ms[0].key) && NamesReadable(ms[0].value)
    ensures ReadsStruct(r, ms, acc, rest)
  {
    assert ms[1..] == [];
    NamesOfRest(ms);
    FirstReparsed(ms, acc);
    assert ReparsedMembers(ms[1..]) == [];
    LeavesOne(StructTag, rest);
  }

  lemma MoreMembers(ms: seq<Entry<Value>>, acc: seq<Entry<Value>>, rest: seq<Token>, r: Outcome)
    requires ms != [] && !AllXmlSpace(ms[0].key) && NamesReadable(ms[0].value)
    requires MembersLeak(ms[1..]) == MembersLeak(ms)
    requires ReadsStruct(r, ms[1..], acc + [Entry(ms[0].key, Reparsed(ms[0].value))], rest)
    ensures ReadsStruct(r, ms, acc, rest)
  {
    NamesOfRest(ms);
    FirstReparsed(ms, acc);
  }

  lemma LastMember(o: Options, bare: bool, ms: seq<Entry<Value>>, rest: seq<Token>)
    requires ms != [] && NilsFit(Struct(ms)) && Leak(ms[0].value) > 0 && Printable(Struct(ms))
    ensures |ms| == 1 && MembersLeak(ms) == 1
    ensures Members(o, bare, ms[1..]) + ([Close(StructTag)] + rest) == [Close(StructTag)] + rest
  {
    assert ms[1..] == [];
  }

  lemma NamesOfRest(ms: seq<Entry<Value>>)
    requires ms != []
    ensures NamesReadable(Struct(ms)) <==>
            !AllXmlSpace(ms[0].key) && NamesReadable(ms[0].value) && NamesReadable(Struct(ms[1..]))
  {
    var m := Struct(ms[1..]);
    if NamesReadable(m) && !AllXmlSpace(ms[0].key) && NamesReadable(ms[0].value) {
      forall i | 0 <= i < |ms| ensures !AllXmlSpace(ms[i].key) && NamesReadable(ms[i].value) {
        assert i > 0 ==> ms[i] == m.members[i - 1];
      }
    }
  }

  lemma RestIsRegular(o: Options, ms: seq<Entry<Value>>)
    requires ms != [] && Printable(Struct(ms)) && Regular(o, Struct(ms)) && NilsFit(Struct(ms))
    ensures Printable(ms[0].value) && Regular(o, ms[0].value) && ms[0].key != ""
    ensures Printable(Struct(ms[1..])) && Regular(o, Struct(ms[1..]))
    ensures NilsFit(ms[0].value) && Leak(ms[0].value) <= 1 && NilsFit(Struct(ms[1..]))
    ensures Leak(ms[0].value) == 0 ==> MembersLeak(ms[1..]) == MembersLeak(ms)
  {
    var m := Struct(ms[1..]);
    forall i | 0 <= i < |m.members|
      ensures NilsFit(m.members[i].value) && Leak(m.members[i].value) <= if i + 1 < |m.members| then 0 else 1
    {
      assert m.members[i] == ms[i + 1];
    }
  }

  lemma FirstReparsed(ms: seq<Entry<Value>>, acc: seq<Entry<Value>>)
    requires ms != []
    ensures acc + [Entry(ms[0].key, Reparsed(ms[0].value))] + ReparsedMembers(ms[1..]) == acc + ReparsedMembers(ms)
  {
    var e := Entry(ms[0].key, Reparsed(ms[0].value));
    assert ReparsedMembers(ms) == [e] + ReparsedMembers(ms[1..]);
    Associates(acc, [e], ReparsedMembers(ms[1..]));
  }

  /** A member with the outcome of the sub-build for its value. */
  lemma MemberFrom(o: Options, k: string, v: Value, acc: seq<Entry<Value>>, name: string, value: Value,
                   depth: nat, toks: seq<Token>, ends: seq<Token>, after: seq<Token>)
    requires AreEnds(ends) && |ends| <= depth && k != "" && !AllXmlSpace(k)
    requires var sub := Parse(o, Start(NEW_VALUE, false), toks);
      && sub.Done? && sub.builder.core.ValueCore? && OrEmpty(sub.builder.core.got) == v
      && sub.rest == ends + ([Close(ValueTag)] + ([Close(MemberTag)] + after))
    ensures Parse(o, InStruct(OutsideMember, name, value, acc, depth),
                  [Open(MemberTag)] + (Leaf(NameTag, k) + ([Open(ValueTag)] + toks))) ==
            Continue(o, Builder(StructCore(OutsideMember, k, v, Put(acc, k, v)), depth - |ends|, |ends| == depth), after)
  {
    MemberReads(o, k, acc, name, value, depth, toks);
    MemberCloses(o, k, v, acc, depth, ends, after);
  }

  lemma MemberRefused(o: Options, bare: bool, k: string, v: Value, acc: seq<Entry<Value>>, name: string, value: Value,
                      depth: nat, toks: seq<Token>, after: seq<Token>)
    requires k != "" && (AllXmlSpace(k) || !NamesReadable(v))
    requires Reads(o, bare, v, false, after, Parse(o, Start(NEW_VALUE, false), toks))
    ensures Parse(o, InStruct(OutsideMember, name, value, acc, depth),
                  [Open(MemberTag)] + (Leaf(NameTag, k) + ([Open(ValueTag)] + toks))) == Fail(XmlRpcViolation)
  {
    MemberReads(o, k, acc, name, value, depth, toks);
  }

  lemma MemberTaken(o: Options, bare: bool, k: string, v: Value, acc: seq<Entry<Value>>, name: string, value: Value,
                    depth: nat, toks: seq<Token>, after: seq<Token>)
    requires Leak(v) <= depth && k != "" && !AllXmlSpace(k) && NamesReadable(v)
    requires Reads(o, bare, v, false, [Close(MemberTag)] + after, Parse(o, Start(NEW_VALUE, false), toks))
    ensures Parse(o, InStruct(OutsideMember, name, value, acc, depth),
                  [Open(MemberTag)] + (Leaf(NameTag, k) + ([Open(ValueTag)] + toks))) ==
            Continue(o, Builder(StructCore(OutsideMember, k, Reparsed(v), Put(acc, k, Reparsed(v))),
                                depth - Leak(v), Leak(v) == depth), after)
  {
    var sub := Parse(o, Start(NEW_VALUE, false), toks);
    var ends :| Ends(ends, Leak(v)) && sub.rest == ends + ([Close(ValueTag)] + ([Close(MemberTag)] + after));
    MemberFrom(o, k, Reparsed(v), acc, name, value, depth, toks, ends, after);
  }

  /** A member whose value leaks as many end tags as the struct builder is levels down
      takes it to the end. */
  lemma {:induction false} MemberParses(o: Options, bare: bool, k: string, v: Value, acc: seq<Entry<Value>>,
                                        name: string, value: Value, depth: nat, after: seq<Token>)
    requires Printable(v) && Regular(o, v) && NilsFit(v) && Leak(v) <= depth && k != ""
    ensures Parse(o, InStruct(OutsideMember, name, value, acc, depth), Member(o, bare, k, v) + after) ==
      if AllXmlSpace(k) || !NamesReadable(v) then Fail(XmlRpcViolation)
      else Continue(o, Builder(StructCore(OutsideMember, k, Reparsed(v), Put(acc, k, Reparsed(v))),
                               depth - Leak(v), Leak(v) == depth), after)
    decreases v, 3
  {
    MemberTokens(o, bare, k, v, after);
    ValueParses(o, bare, v, false, [Close(MemberTag)] + after);
    var toks := Content(o, bare, v) + ([Close(ValueTag)] + ([Close(MemberTag)] + after));
    if AllXmlSpace(k) || !NamesReadable(v) {
      MemberRefused(o, bare, k, v, acc, name, value, depth, toks, [Close(MemberTag)] + after);
    } else {
      MemberTaken(o, bare, k, v, acc, name, value, depth, toks, after);
    }
  }

  /** A member that leaves the struct builder as many levels down as it was. */
  lemma {:induction false} MemberStored(o: Options, bare: bool, k: string, v: Value, acc: seq<Entry<Value>>,
                                        name: string, value: Value, depth: nat, after: seq<Token>)
    requires Printable(v) && Regular(o, v) && NilsFit(v) && Leak(v) == 0 && depth > 0 && k != ""
    ensures Parse(o, InStruct(OutsideMember, name, value, acc, depth), Member(o, bare, k, v) + after) ==
      if AllXmlSpace(k) || !NamesReadable(v) then Fail(XmlRpcViolation)
      else Parse(o, InStruct(OutsideMember, k, Reparsed(v), Put(acc, k, Reparsed(v)), depth), after)
    decreases v, 4
  {
    MemberParses(o, bare, k, v, acc, name, value, depth, after);
  }

  /** An array builder reads the items and stops at the end tag that brings it down
      to zero: its own, unless items have leaked. */
  lemma {:induction false} ArrayParses(o: Options, bare: bool, vs: seq<Value>, acc: seq<Value>, st: ArrayState,
                                       depth: nat, rest: seq<Token>)
    requires st != OutsideData && Printable(Array(vs)) && Regular(o, Array(vs))
    requires (forall i :: 0 <= i < |vs| ==> NilsFit(vs[i])) && LeaksBelow(vs, depth) && 1 <= depth <= 2
    ensures ReadsArray(Parse(o, Builder(ArrayCore(st, acc), depth, false), ArrayTokensFrom(o, bare, vs, rest)),
                       vs, acc, depth, rest)
    decreases vs, 2
  {
    if |vs| > 1 {
      FirstIsRegular(o, vs, depth);
      if NamesReadable(vs[0]) {
        ArrayParses(o, bare, vs[1..], acc + [Reparsed(vs[0])], InValues, depth - Leak(vs[0]), rest);
      }
      ManyItems(o, bare, vs, acc, st, depth, rest);
    } else if |vs| == 1 {
      FirstIsRegular(o, vs, depth);
      OneItem(o, bare, vs, acc, st, depth, rest);
    } else {
      NoItems(o, bare, vs, acc, st, depth, rest);
    }
  }

  lemma {:induction false} ManyItems(o: Options, bare: bool, vs: seq<Value>, acc: seq<Value>, st: ArrayState,
                                     depth: nat, rest: seq<Token>)
    requires st != OutsideData && |vs| > 1 && Printable(Array(vs)) && Printable(Array(vs[1..])) && depth <= 2
    requires Regular(o, vs[0]) && NilsFit(vs[0]) && Leak(vs[0]) < depth
    requires NamesReadable(vs[0]) ==>
      ReadsArray(Parse(o, Builder(ArrayCore(InValues, acc + [Reparsed(vs[0])]), depth - Leak(vs[0]), false),
                       ArrayTokensFrom(o, bare, vs[1..], rest)), vs[1..], acc + [Reparsed(vs[0])], depth - Leak(vs[0]), rest)
    ensures ReadsArray(Parse(o, Builder(ArrayCore(st, acc), depth, false), ArrayTokensFrom(o, bare, vs, rest)),
                       vs, acc, depth, rest)
    decreases vs, 1
  {
    FirstOfMany(o, bare, vs, acc, st, depth, rest);
    if NamesReadable(vs[0]) {
      MoreItems(vs, acc, depth, rest, Parse(o, Builder(ArrayCore(st, acc), depth, false), ArrayTokensFrom(o, bare, vs, rest)));
    } else {
      NamesOfItems(vs);
    }
  }

  function ArrayTokensFrom(o: Options, bare: bool, vs: seq<Value>, rest: seq<Token>): seq<Token>
    requires Printable(Array(vs))
  {
    Items(o, bare, vs) + ([Close(DataTag)] + ([Close(ArrayTag)] + rest))
  }

  lemma {:induction false} FirstOfMany(o: Options, bare: bool, vs: seq<Value>, acc: seq<Value>, st: ArrayState,
                                       depth: nat, rest: seq<Token>)
    requires st != OutsideData && |vs| > 1 && Printable(Array(vs)) && Printable(Array(vs[1..]))
    requires Regular(o, vs[0]) && NilsFit(vs[0]) && Leak(vs[0]) < depth
    ensures Parse(o, Builder(ArrayCore(st, acc), depth, false), ArrayTokensFrom(o, bare, vs, rest)) ==
      if !NamesReadable(vs[0]) then Fail(XmlRpcViolation)
      else Parse(o, Builder(ArrayCore(InValues, acc + [Reparsed(vs[0])]), depth - Leak(vs[0]), false),
                 ArrayTokensFrom(o, bare, vs[1..], rest))
    decreases vs, 0
  {
    var after := ArrayTokensFrom(o, bare, vs[1..], rest);
    ItemThenMore(o, bare, vs[0], acc, st, depth, after);
    assert ArrayTokensFrom(o, bare, vs, rest) == InValue(o, bare, vs[0]) + after by {
      SplitFirst(o, bare, vs, rest);
    }
  }

  lemma SplitFirst(o: Options, bare: bool, vs: seq<Value>, rest: seq<Token>)
    requires vs != [] && Printable(Array(vs)) && Printable(Array(vs[1..]))
    ensures ArrayTokensFrom(o, bare, vs, rest) == InValue(o, bare, vs[0]) + ArrayTokensFrom(o, bare, vs[1..], rest)
  {
    ItemsTokens(o, bare, vs, [Close(DataTag)] + ([Close(ArrayTag)] + rest));
  }

  lemma {:induction false} OneItem(o: Options, bare: bool, vs: seq<Value>, acc: seq<Value>, st: ArrayState,
                                   depth: nat, rest: seq<Token>)
    requires st != OutsideData && Printable(Array(vs))
    requires |vs| == 1 && Regular(o, vs[0]) && NilsFit(vs[0]) && 1 <= depth <= 2
    ensures ReadsArray(Parse(o, Builder(ArrayCore(st, acc), depth, false), ArrayTokensFrom(o, bare, vs, rest)),
                       vs, acc, depth, rest)
    decreases vs, 1
  {
    var closing := [Close(DataTag)] + ([Close(ArrayTag)] + rest);
    ItemsTokens(o, bare, vs, closing);
    LastItem(o, bare, vs, closing);
    ItemThenEnd(o, bare, vs[0], acc, st, depth, rest);
    NamesOfItems(vs);
    if NamesReadable(vs[0]) {
      NoMoreItems(vs, acc, depth, rest, Parse(o, Builder(ArrayCore(st, acc), depth, false), ArrayTokensFrom(o, bare, vs, rest)));
    }
  }

  lemma NoItems(o: Options, bare: bool, vs: seq<Value>, acc: seq<Value>, st: ArrayState, depth: nat, rest: seq<Token>)
    requires 1 <= depth <= 2 && vs == []
    ensures ReadsArray(Parse(o, Builder(ArrayCore(st, acc), depth, false), ArrayTokensFrom(o, bare, vs, rest)),
                       vs, acc, depth, rest)
  {
    var closing := [Close(DataTag)] + ([Close(ArrayTag)] + rest);
    ArrayEnds(o, ArrayCore(st, acc), depth, [], rest);
    assert Items(o, bare, vs) + closing == closing == [] + closing && acc + [] == acc;
  }

  lemma FirstIsRegular(o: Options, vs: seq<Value>, depth: nat)
    requires vs != [] && Printable(Array(vs)) && Regular(o, Array(vs))
    requires (forall i :: 0 <= i < |vs| ==> NilsFit(vs[i])) && LeaksBelow(vs, depth)
    ensures Printable(vs[0]) && Regular(o, vs[0]) && NilsFit(vs[0])
    ensures Printable(Array(vs[1..])) && Regular(o, Array(vs[1..]))
    ensures forall i :: 0 <= i < |vs[1..]| ==> NilsFit(vs[1..][i])
    ensures |vs| > 1 ==> Leak(vs[0]) < depth && LeaksBelow(vs[1..], depth - Leak(vs[0]))
  {
    if |vs| > 1 {
      LeaksOfRest(vs, depth);
    }
  }

  /** An item that is not the last one leaves the array builder at work. */
  lemma {:induction false} ItemThenMore(o: Options, bare: bool, v: Value, acc: seq<Value>, st: ArrayState, depth: nat,
                                        after: seq<Token>)
    requires st != OutsideData && Printable(v) && Regular(o, v) && NilsFit(v) && Leak(v) < depth
    ensures Parse(o, Builder(ArrayCore(st, acc), depth, false), InValue(o, bare, v) + after) ==
      if !NamesReadable(v) then Fail(XmlRpcViolation)
      else Parse(o, Builder(ArrayCore(InValues, acc + [Reparsed(v)]), depth - Leak(v), false), after)
    decreases v, 4
  {
    ItemParses(o, bare, v, acc, st, depth, after);
    if NamesReadable(v) {
      var ends :| Ends(ends, Leak(v)) && ItemLeaves(o, bare, v, acc, st, depth, after, ends);
      ItemGoesOn(o, bare, v, acc, st, depth, after, ends);
    }
  }

  lemma ItemGoesOn(o: Options, bare: bool, v: Value, acc: seq<Value>, st: ArrayState, depth: nat, after: seq<Token>,
                   ends: seq<Token>)
    requires Printable(v) && Leak(v) < depth && Ends(ends, Leak(v)) && ItemLeaves(o, bare, v, acc, st, depth, after, ends)
    ensures Parse(o, Builder(ArrayCore(st, acc), depth, false), InValue(o, bare, v) + after) ==
            Parse(o, Builder(ArrayCore(InValues, acc + [Reparsed(v)]), depth - Leak(v), false), after)
  {
    ItemCloses(o, ArrayCore(InValues, acc + [Reparsed(v)]), depth, ends, after);
  }

  lemma {:induction false} ItemThenEnd(o: Options, bare: bool, v: Value, acc: seq<Value>, st: ArrayState, depth: nat,
                                       rest: seq<Token>)
    requires st != OutsideData && Printable(v) && Regular(o, v) && NilsFit(v) && 1 <= depth <= 2
    ensures var r := Parse(o, Builder(ArrayCore(st, acc), depth, false),
                           InValue(o, bare, v) + ([Close(DataTag)] + ([Close(ArrayTag)] + rest)));
      if !NamesReadable(v) then r == Fail(XmlRpcViolation)
      else
        && r.Done? && r.builder.core == ArrayCore(InValues, acc + [Reparsed(v)])
        && Leaves(r.rest, Leak(v) + 2 - depth, rest)
    decreases v, 4
  {
    var closing := [Close(DataTag)] + ([Close(ArrayTag)] + rest);
    ItemParses(o, bare, v, acc, st, depth, closing);
    if NamesReadable(v) {
      var ends :| Ends(ends, Leak(v)) && ItemLeaves(o, bare, v, acc, st, depth, closing, ends);
      ItemEnds(o, bare, v, acc, st, depth, rest, ends);
    }
  }

  lemma ItemEnds(o: Options, bare: bool, v: Value, acc: seq<Value>, st: ArrayState, depth: nat, rest: seq<Token>,
                 ends: seq<Token>)
    requires Printable(v) && 1 <= depth <= 2 && Ends(ends, Leak(v))
    requires ItemLeaves(o, bare, v, acc, st, depth, [Close(DataTag)] + ([Close(ArrayTag)] + rest), ends)
    ensures var r := Parse(o, Builder(ArrayCore(st, acc), depth, false),
                           InValue(o, bare, v) + ([Close(DataTag)] + ([Close(ArrayTag)] + rest)));
      && r.Done? && r.builder.core == ArrayCore(InValues, acc + [Reparsed(v)])
      && Leaves(r.rest, Leak(v) + 2 - depth, rest)
  {
    Associates(ends, [Close(ValueTag)], [Close(DataTag)] + ([Close(ArrayTag)] + rest));
    ArrayEnds(o, ArrayCore(InValues, acc + [Reparsed(v)]), depth + 1, ends + [Close(ValueTag)], rest);
  }

  lemma MoreItems(vs: seq<Value>, acc: seq<Value>, depth: nat, rest: seq<Token>, r: Outcome)
    requires vs != [] && NamesReadable(vs[0]) && Leak(vs[0]) < depth <= 2
    requires ReadsArray(r, vs[1..], acc + [Reparsed(vs[0])], depth - Leak(vs[0]), rest)
    ensures ReadsArray(r, vs, acc, depth, rest)
  {
    NamesOfItems(vs);
    FirstItem(vs, acc);
  }

  lemma NoMoreItems(vs: seq<Value>, acc: seq<Value>, depth: nat, rest: seq<Token>, r: Outcome)
    requires |vs| == 1 && NamesReadable(vs[0]) && depth <= 2
    requires r.Done? && r.builder.core == ArrayCore(InValues, acc + [Reparsed(vs[0])])
    requires Leaves(r.rest, Leak(vs[0]) + 2 - depth, rest)
    ensures ReadsArray(r, vs, acc, depth, rest)
  {
    assert vs[1..] == [];
    assert LeakAll(vs) == Leak(vs[0]) + LeakAll([]);
    assert ReparsedItems(vs) == [Reparsed(vs[0])] + ReparsedItems([]);
  }

  lemma LastItem(o: Options, bare: bool, vs: seq<Value>, closing: seq<Token>)
    requires |vs| == 1 && Printable(Array(vs))
    ensures Items(o, bare, vs[1..]) + closing == closing
    ensures NamesReadable(Array(vs[1..]))
  {
    assert vs[1..] == [];
  }

  lemma NamesOfItems(vs: seq<Value>)
    requires vs != []
    ensures NamesReadable(Array(vs)) <==> NamesReadable(vs[0]) && NamesReadable(Array(vs[1..]))
  {
    var rest := Array(vs[1..]);
    if NamesReadable(vs[0]) && NamesReadable(rest) {
      forall i | 0 <= i < |vs| ensures NamesReadable(vs[i]) {
        assert i > 0 ==> vs[i] == rest.items[i - 1];
      }
    }
  }

  lemma FirstItem(vs: seq<Value>, acc: seq<Value>)
    requires vs != []
    ensures acc + [Reparsed(vs[0])] + ReparsedItems(vs[1..]) == acc + ReparsedItems(vs)
  {
    assert ReparsedItems(vs) == [Reparsed(vs[0])] + ReparsedItems(vs[1..]);
    Associates(acc, [Reparsed(vs[0])], ReparsedItems(vs[1..]));
  }

  lemma LeaksOfRest(vs: seq<Value>, depth: nat)
    requires |vs| > 1 && LeaksBelow(vs, depth)
    ensures Leak(vs[0]) < depth && LeaksBelow(vs[1..], depth - Leak(vs[0]))
  {
    assert vs[..1] == [vs[0]] && vs[..1][1..] == [];
    assert LeakAll(vs[..1]) == Leak(vs[0]) + LeakAll([]);
    forall k | 0 < k < |vs[1..]| ensures LeakAll(vs[1..][..k]) < depth - Leak(vs[0]) {
      assert vs[..k + 1][0] == vs[0] && vs[..k + 1][1..] == vs[1..][..k];
      assert LeakAll(vs[..k + 1]) == Leak(vs[0]) + LeakAll(vs[1..][..k]);
    }
  }

  /** The end of an array, after some end tags that an item has left. */
  lemma ArrayEnds(o: Options, core: Core, depth: nat, ends: seq<Token>, rest: seq<Token>)
    requires core.ArrayCore? && 0 < depth <= |ends| + 2 && AreEnds(ends)
    ensures var r := Parse(o, Builder(core, depth, false), ends + ([Close(DataTag)] + ([Close(ArrayTag)] + rest)));
      && r.Done? && r.builder.core == core
      && Leaves(r.rest, |ends| + 2 - depth, rest)
  {
    var all := ends + [Close(DataTag), Close(ArrayTag)];
    assert ends + ([Close(DataTag)] + ([Close(ArrayTag)] + rest)) == all + rest;
    EndsClose(o, core, depth, all, rest);
    assert Ends(all[depth..], |ends| + 2 - depth);
  }

  ghost predicate ItemLeaves(o: Options, bare: bool, v: Value, acc: seq<Value>, st: ArrayState, depth: nat,
                             after: seq<Token>, ends: seq<Token>)
    requires Printable(v)
  {
    Parse(o, Builder(ArrayCore(st, acc), depth, false), InValue(o, bare, v) + after) ==
    Parse(o, Builder(ArrayCore(InValues, acc + [Reparsed(v)]), depth + 1, false), ends + ([Close(ValueTag)] + after))
  }

  lemma ItemCloses(o: Options, core: Core, depth: nat, ends: seq<Token>, after: seq<Token>)
    requires core.ArrayCore? && AreEnds(ends) && |ends| < depth
    ensures Parse(o, Builder(core, depth + 1, false), ends + ([Close(ValueTag)] + after)) ==
            Parse(o, Builder(core, depth - |ends|, false), after)
  {
    assert ends + ([Close(ValueTag)] + after) == ends + [Close(ValueTag)] + after;
    EndsClose(o, core, depth + 1, ends + [Close(ValueTag)], after);
  }

  lemma {:induction false} ItemParses(o: Options, bare: bool, v: Value, acc: seq<Value>, st: ArrayState, depth: nat,
                                      after: seq<Token>)
    requires st != OutsideData && Printable(v) && Regular(o, v) && NilsFit(v)
    ensures !NamesReadable(v) ==>
      Parse(o, Builder(ArrayCore(st, acc), depth, false), InValue(o, bare, v) + after) == Fail(XmlRpcViolation)
    ensures NamesReadable(v) ==> exists ends :: Ends(ends, Leak(v)) && ItemLeaves(o, bare, v, acc, st, depth, after, ends)
    decreases v, 3
  {
    var toks := Content(o, bare, v) + ([Close(ValueTag)] + after);
    InValueTokens(o, bare, v, after);
    ValueParses(o, bare, v, false, after);
    ItemValue(o, st, acc, depth, toks);
    if NamesReadable(v) {
      var ends :| Ends(ends, Leak(v)) &&
        Parse(o, Start(NEW_VALUE, false), toks).rest == ends + ([Close(ValueTag)] + after);
      assert ItemLeaves(o, bare, v, acc, st, depth, after, ends);
    }
  }
}
