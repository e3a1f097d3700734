/** What is printed, tag by tag, and with it the documents of XML-RPC. */
module Documents {
  import opened Text
  import opened OrderedMap
  import opened Values
  import opened Xml
  import opened Printer
  import opened Messages
  import Base64
  import DateTime

  // ----- Scalars ---------------------------------------------------------------------

  /** Text that is not blank between two tags. */
  function Tagged(t: Tag, s: string): seq<Token> {
    [Open(t), Chars(s), Close(t)]
  }

  lemma LeafIs(t: Tag, s: string)
    ensures !AllXmlSpace(s) ==> Leaf(t, s) == Tagged(t, s)
    ensures s == "" ==> Leaf(t, s) == [Open(t), Close(t)]
    ensures s != "" && AllXmlSpace(s) ==> Leaf(t, s) == [Open(t), Space, Close(t)]
  {
  }

  lemma NumbersArePrinted(o: Options, bare: bool, i: int32, l: int64, b: bool)
    ensures Content(o, bare, Int(i)) == [Open(I4), Chars(IntText(i)), Close(I4)]
    ensures Content(o, bare, Int64(l)) == [Open(I8), Chars(IntText(l)), Close(I8)]
    ensures Content(o, bare, Bool(b)) == [Open(BooleanTag), Chars(if b then "1" else "0"), Close(BooleanTag)]
    ensures Content(o, bare, Nil) == [Open(NilTag), Close(NilTag)]
  {
    IntLeaf(I4, i);
    IntLeaf(I8, l);
    assert !IsXmlSpace('1') && !IsXmlSpace('0');
    var bit := if b then "1" else "0";
    BitLeaf(BooleanTag, bit);
  }

  lemma IntLeaf(t: Tag, i: int)
    ensures Leaf(t, IntText(i)) == [Open(t), Chars(IntText(i)), Close(t)]
  {
    assert !AllXmlSpace(IntText(i)) by {
      IntTextParses(i, i, i);
    }
    LeafIs(t, IntText(i));
  }

  lemma BitLeaf(t: Tag, s: string)
    requires |s| == 1 && !IsXmlSpace(s[0])
    ensures Leaf(t, s) == [Open(t), Chars(s), Close(t)]
  {
    LeafIs(t, s);
  }

  lemma DoublesArePrinted(o: Options, bare: bool, d: real)
    requires !AllXmlSpace(o.doubles.show(d))
    ensures Content(o, bare, Double(d)) == [Open(DoubleTag), Chars(o.doubles.show(d)), Close(DoubleTag)]
  {
    LeafIs(DoubleTag, o.doubles.show(d));
  }

  lemma TimesArePrinted(o: Options, bare: bool, tm: DateTime.Tm)
    requires DateTime.Valid(tm)
    ensures Content(o, bare, Date(tm)) == [Open(DateTag), Chars(DateTime.Print(tm)), Close(DateTag)]
  {
    DateTime.PrintNotBlank(tm);
    LeafIs(DateTag, DateTime.Print(tm));
  }

  /** The text that was kept with the data, or else its encoding. */
  lemma BinaryIsPrinted(o: Options, bare: bool, data: bytes, text: string)
    requires !AllXmlSpace(text)
    ensures Content(o, bare, Binary(data, text)) == [Open(Base64Tag), Chars(text), Close(Base64Tag)]
    ensures Content(o, bare, Binary(data, "")) ==
            if data == [] then [Open(Base64Tag), Close(Base64Tag)]
            else [Open(Base64Tag), Chars(Base64.Encode(data)), Close(Base64Tag)]
  {
    LeafIs(Base64Tag, text);
    var encoded := Base64.Encode(data);
    LeafIs(Base64Tag, encoded);
    if data != [] {
      Base64.EncodeIsPlain(data);
      assert !IsXmlSpace(encoded[0]);
    }
  }

  /** Strings go without a tag where that is asked for, and only there. */
  lemma StringsArePrinted(o: Options, s: string)
    requires !AllXmlSpace(s)
    ensures Content(o, false, Str(s)) == [Open(StringTag), Chars(s), Close(StringTag)]
    ensures Content(o, true, Str(s)) == [Chars(s)]
    ensures Content(o, false, Str("")) == [Open(StringTag), Close(StringTag)]
    ensures Content(o, true, Str("")) == []
  {
    LeafIs(StringTag, s);
    LeafIs(StringTag, "");
  }

  // ----- Containers ----------------------------------------------------------------------

  lemma {:induction false} OneMoreMember(o: Options, bare: bool, ms: seq<Entry<Value>>, k: string, v: Value)
    requires Printable(Struct(ms)) && Printable(v)
    ensures Printable(Struct(ms + [Entry(k, v)]))
    ensures Members(o, bare, ms + [Entry(k, v)]) == Members(o, bare, ms) + Member(o, bare, k, v)
  {
    var all := ms + [Entry(k, v)];
    forall i | 0 <= i < |all| ensures Printable(all[i].value) {
    }
    if ms == [] {
      assert all[1..] == [];
      assert Members(o, bare, all) == Member(o, bare, k, v) + [];
    } else {
      assert Printable(Struct(ms[1..]));
      assert all[1..] == ms[1..] + [Entry(k, v)];
      OneMoreMember(o, bare, ms[1..], k, v);
      Associates(Member(o, bare, ms[0].key, ms[0].value), Members(o, bare, ms[1..]), Member(o, bare, k, v));
    }
  }

  /** The end tags of a value and what stands inside them come off the end. */
  function Without(toks: seq<Token>, n: nat): seq<Token> {
    if n <= |toks| then toks[..|toks| - n] else []
  }

  /** Members stand in a struct one after the other, each with its name first. */
  lemma StructsArePrinted(o: Options, bare: bool, ms: seq<Entry<Value>>, k: string, v: Value)
    requires Printable(Struct(ms)) && Printable(v)
    ensures InValue(o, bare, Struct([])) == [Open(ValueTag), Open(StructTag), Close(StructTag), Close(ValueTag)]
    ensures Printable(Struct(ms + [Entry(k, v)]))
    ensures InValue(o, bare, Struct(ms + [Entry(k, v)])) ==
            Without(InValue(o, bare, Struct(ms)), 2)
            + ([Open(MemberTag), Open(NameTag)] + TextTokens(k) + [Close(NameTag)] + InValue(o, bare, v) + [Close(MemberTag)])
            + [Close(StructTag), Close(ValueTag)]
  {
    OneMoreMember(o, bare, ms, k, v);
    MemberIs(o, bare, k, v);
    EnclosedMore(ValueTag, StructTag, Members(o, bare, ms), Member(o, bare, k, v));
  }

  lemma MemberIs(o: Options, bare: bool, k: string, v: Value)
    requires Printable(v)
    ensures Member(o, bare, k, v) ==
            [Open(MemberTag), Open(NameTag)] + TextTokens(k) + [Close(NameTag)] + InValue(o, bare, v) + [Close(MemberTag)]
  {
  }

  lemma EnclosedMore(a: Tag, b: Tag, inside: seq<Token>, more: seq<Token>)
    ensures Wrap(a, Wrap(b, inside + more)) == Without(Wrap(a, Wrap(b, inside)), 2) + more + [Close(b), Close(a)]
  {
  }

  lemma {:induction false} OneMoreItem(o: Options, bare: bool, vs: seq<Value>, v: Value)
    requires Printable(Array(vs)) && Printable(v)
    ensures Printable(Array(vs + [v]))
    ensures Items(o, bare, vs + [v]) == Items(o, bare, vs) + InValue(o, bare, v)
  {
    var all := vs + [v];
    forall i | 0 <= i < |all| ensures Printable(all[i]) {
    }
    if vs == [] {
      assert all[1..] == [];
      assert Items(o, bare, all) == InValue(o, bare, v) + [];
    } else {
      assert Printable(Array(vs[1..]));
      assert all[1..] == vs[1..] + [v];
      OneMoreItem(o, bare, vs[1..], v);
      Associates(InValue(o, bare, vs[0]), Items(o, bare, vs[1..]), InValue(o, bare, v));
    }
  }

  lemma ArraysArePrinted(o: Options, bare: bool, vs: seq<Value>, v: Value)
    requires Printable(Array(vs)) && Printable(v)
    ensures Content(o, bare, Array([])) == [Open(ArrayTag), Open(DataTag), Close(DataTag), Close(ArrayTag)]
    ensures Printable(Array(vs + [v]))
    ensures Content(o, bare, Array(vs + [v])) ==
            Without(Content(o, bare, Array(vs)), 2) + InValue(o, bare, v) + [Close(DataTag), Close(ArrayTag)]
    ensures InValue(o, bare, Array(vs)) == [Open(ValueTag)] + Content(o, bare, Array(vs)) + [Close(ValueTag)]
  {
    OneMoreItem(o, bare, vs, v);
    EnclosedMore(ArrayTag, DataTag, Items(o, bare, vs), InValue(o, bare, v));
  }

  // ----- Messages ---------------------------------------------------------------------------

  lemma {:induction false} OneMoreParam(o: Options, ps: seq<Value>, p: Value)
    requires (forall i :: 0 <= i < |ps| ==> Printable(ps[i])) && Printable(p)
    ensures forall i :: 0 <= i < |ps + [p]| ==> Printable((ps + [p])[i])
    ensures ParamsTokens(o, ps + [p]) == ParamsTokens(o, ps) + Wrap(Param, InValue(o, false, p))
  {
    var all := ps + [p];
    if ps == [] {
      assert all[1..] == [];
      assert ParamsTokens(o, all) == Wrap(Param, InValue(o, false, p)) + [];
    } else {
      assert all[1..] == ps[1..] + [p];
      OneMoreParam(o, ps[1..], p);
      Associates(Wrap(Param, InValue(o, false, ps[0])), ParamsTokens(o, ps[1..]), Wrap(Param, InValue(o, false, p)));
    }
  }

  /** In requests strings always have their tag. */
  lemma RequestsArePrinted(o: Options, name: string, ps: seq<Value>, p: Value)
    requires (forall i :: 0 <= i < |ps| ==> Printable(ps[i])) && Printable(p)
    ensures forall i :: 0 <= i < |ps + [p]| ==> Printable((ps + [p])[i])
    ensures RequestTokens(o, Request(name, ps + [p])) ==
            Without(RequestTokens(o, Request(name, ps)), 2)
            + ([Open(Param)] + InValue(o, false, p) + [Close(Param)]) + [Close(Params), Close(MethodCall)]
  {
    assert ParamsTokens(o, ps + [p]) == ParamsTokens(o, ps) + Wrap(Param, InValue(o, false, p)) by {
      OneMoreParam(o, ps, p);
    }
    NamedMore(Leaf(MethodName, name), ParamsTokens(o, ps), Wrap(Param, InValue(o, false, p)));
  }

  lemma NoParamsArePrinted(o: Options, name: string)
    ensures RequestTokens(o, Request(name, [])) ==
            [Open(MethodCall), Open(MethodName)] + TextTokens(name)
            + [Close(MethodName), Open(Params), Close(Params), Close(MethodCall)]
  {
  }

  lemma NamedMore(name: seq<Token>, inside: seq<Token>, more: seq<Token>)
    ensures Wrap(MethodCall, name + Wrap(Params, inside + more)) ==
            Without(Wrap(MethodCall, name + Wrap(Params, inside)), 2) + more + [Close(Params), Close(MethodCall)]
  {
  }

  lemma AnswersArePrinted(o: Options, v: Value)
    requires Printable(v)
    ensures ResponseTokens(o, OkResponse(v)) ==
            [Open(MethodResponse), Open(Params), Open(Param)] + InValue(o, o.omitStringTag, v)
            + [Close(Param), Close(Params), Close(MethodResponse)]
  {
  }

  /** The first and the second part of a fault. */
  function FaultCode(code: int32): seq<Token> {
    [Open(MemberTag), Open(NameTag), Chars("faultCode"), Close(NameTag),
     Open(ValueTag), Open(I4), Chars(IntText(code)), Close(I4), Close(ValueTag), Close(MemberTag)]
  }

  function FaultString(o: Options, str: string): seq<Token> {
    [Open(MemberTag), Open(NameTag), Chars("faultString"), Close(NameTag)]
    + InValue(o, o.omitStringTag, Str(str)) + [Close(MemberTag)]
  }

  lemma FaultsArePrinted(o: Options, code: int32, str: string)
    ensures ResponseTokens(o, FaultResponse(code, str)) ==
            [Open(MethodResponse), Open(FaultTag), Open(ValueTag), Open(StructTag)] + FaultCode(code) + FaultString(o, str)
            + [Close(StructTag), Close(ValueTag), Close(FaultTag), Close(MethodResponse)]
  {
    FaultMembers(o, code, str, "faultCode", "faultString");
    StructIs(o, o.omitStringTag, FaultValue(code, str).members);
    FaultIs(Members(o, o.omitStringTag, FaultValue(code, str).members), FaultCode(code), FaultString(o, str));
  }

  lemma StructIs(o: Options, bare: bool, ms: seq<Entry<Value>>)
    requires Printable(Struct(ms))
    ensures InValue(o, bare, Struct(ms)) == Wrap(ValueTag, Wrap(StructTag, Members(o, bare, ms)))
  {
  }

  lemma FaultMembers(o: Options, code: int32, str: string, a: string, b: string)
    requires a == "faultCode" && b == "faultString"
    ensures Members(o, o.omitStringTag, FaultValue(code, str).members) == FaultCode(code) + FaultString(o, str)
  {
    assert !IsXmlSpace(a[0]) && !IsXmlSpace(b[0]);
    NumberMember(o, o.omitStringTag, a, code);
    NamedMember(o, o.omitStringTag, b, Str(str));
    TwoMembers(o, o.omitStringTag, a, Int(code), b, Str(str));
  }

  lemma NamedMember(o: Options, bare: bool, k: string, v: Value)
    requires !AllXmlSpace(k) && Printable(v)
    ensures Member(o, bare, k, v) ==
            [Open(MemberTag), Open(NameTag), Chars(k), Close(NameTag)] + InValue(o, bare, v) + [Close(MemberTag)]
  {
    LeafIs(NameTag, k);
    MemberOf(Leaf(NameTag, k), k, InValue(o, bare, v));
  }

  lemma MemberOf(name: seq<Token>, k: string, value: seq<Token>)
    requires name == [Open(NameTag), Chars(k), Close(NameTag)]
    ensures Wrap(MemberTag, name + value) ==
            [Open(MemberTag), Open(NameTag), Chars(k), Close(NameTag)] + value + [Close(MemberTag)]
  {
  }

  lemma NumberMember(o: Options, bare: bool, k: string, i: int32)
    requires !AllXmlSpace(k)
    ensures Member(o, bare, k, Int(i)) ==
            [Open(MemberTag), Open(NameTag), Chars(k), Close(NameTag),
             Open(ValueTag), Open(I4), Chars(IntText(i)), Close(I4), Close(ValueTag), Close(MemberTag)]
  {
    assert InValue(o, bare, Int(i)) == [Open(ValueTag), Open(I4), Chars(IntText(i)), Close(I4), Close(ValueTag)] by {
      IntLeaf(I4, i);
    }
    NamedMember(o, bare, k, Int(i));
    InMemberIs(k, I4, IntText(i));
  }

  lemma InMemberIs(k: string, t: Tag, s: string)
    ensures [Open(MemberTag), Open(NameTag), Chars(k), Close(NameTag)]
            + [Open(ValueTag), Open(t), Chars(s), Close(t), Close(ValueTag)] + [Close(MemberTag)] ==
            [Open(MemberTag), Open(NameTag), Chars(k), Close(NameTag),
             Open(ValueTag), Open(t), Chars(s), Close(t), Close(ValueTag), Close(MemberTag)]
  {
  }

  lemma TwoMembers(o: Options, bare: bool, a: string, v: Value, b: string, w: Value)
    requires Printable(v) && Printable(w)
    ensures Printable(Struct([Entry(a, v), Entry(b, w)]))
    ensures Members(o, bare, [Entry(a, v), Entry(b, w)]) == Member(o, bare, a, v) + Member(o, bare, b, w)
  {
    assert Printable(Struct([]));
    OneMoreMember(o, bare, [], a, v);
    OneMoreMember(o, bare, [] + [Entry(a, v)], b, w);
    assert [] + [Entry(a, v)] + [Entry(b, w)] == [Entry(a, v), Entry(b, w)];
    assert [] + Member(o, bare, a, v) == Member(o, bare, a, v);
  }

  lemma FaultIs(members: seq<Token>, a: seq<Token>, b: seq<Token>)
    requires members == a + b
    ensures Wrap(MethodResponse, Wrap(FaultTag, Wrap(ValueTag, Wrap(StructTag, members)))) ==
            [Open(MethodResponse), Open(FaultTag), Open(ValueTag), Open(StructTag)] + a + b
            + [Close(StructTag), Close(ValueTag), Close(FaultTag), Close(MethodResponse)]
  {
  }
}
