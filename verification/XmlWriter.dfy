/** `XmlBuilder` and the code that drives it: values, requests and responses are
    written node by node, and the nodes read back as the token sequences of
    module Printer and module Messages. */
module XmlWriter {
  import opened Text
  import opened OrderedMap
  import opened Values
  import opened Xml
  import Printer
  import Messages
  import DateTime
  import Base64

  class XmlBuilder {
    var nodes: seq<Node>
    var stack: seq<Tag>
    var pending: bool  // the innermost start tag may still turn into an empty element

    predicate Valid()
      reads this
    {
      pending ==> stack != []
    }

    /** Everything written so far, as a reader will report it. */
    ghost function Written(): seq<Token>
      requires Valid()
      reads this
    {
      Tokens(nodes) + if pending then [Open(stack[|stack| - 1])] else []
    }

    constructor ()
      ensures Valid() && Written() == [] && stack == []
    {
      nodes, stack, pending := [], [], false;
    }

    method Flush()
      requires Valid()
      modifies this`nodes, this`pending
      ensures Valid() && !pending && Written() == old(Written())
    {
      if pending {
        TokensConcat(nodes, [Element(stack[|stack| - 1], false)]);
        nodes, pending := nodes + [Element(stack[|stack| - 1], false)], false;
      }
    }

    method StartElement(t: Tag)
      requires Valid()
      modifies this
      ensures Valid() && stack == old(stack) + [t] && Written() == old(Written()) + [Open(t)]
    {
      Flush();
      stack, pending := stack + [t], true;
    }

    /** An element that got no content at all is written as an empty one. */
    method EndElement()
      requires Valid() && stack != []
      modifies this
      ensures Valid() && stack == old(stack[..|stack| - 1])
      ensures Written() == old(Written()) + [Close(old(stack)[|old(stack)| - 1])]
    {
      var t := stack[|stack| - 1];
      TokensConcat(nodes, [Element(t, true)]);
      TokensConcat(nodes, [Node.EndElement(t)]);
      nodes := nodes + [if pending then Element(t, true) else Node.EndElement(t)];
      stack, pending := stack[..|stack| - 1], false;
    }

    method AddText(s: string)
      requires Valid()
      modifies this`nodes, this`pending
      ensures Valid() && Written() == old(Written()) + TextTokens(s)
    {
      Flush();
      TokensConcat(nodes, TextNodes(s));
      nodes := nodes + TextNodes(s);
    }

    /** Ends every element that is still open. */
    method Stop()
      requires Valid()
      modifies this
      ensures Valid() && stack == []
      ensures Written() == old(Written()) + Closing(old(stack))
    {
      while stack != []
        invariant Valid()
        invariant Written() + Closing(stack) == old(Written()) + Closing(old(stack))
      {
        ClosingStep(Written(), stack);
        EndElement();
      }
    }

    method AddTextNode(t: Tag, s: string)
      requires Valid()
      modifies this
      ensures Valid() && stack == old(stack) && Written() == old(Written()) + Printer.Leaf(t, s)
    {
      StartElement(t);
      AddText(s);
      EndElement();
      Enclosed(old(Written()), t, TextTokens(s));
    }
  }

  function Closing(stack: seq<Tag>): seq<Token> {
    if stack == [] then [] else [Close(stack[|stack| - 1])] + Closing(stack[..|stack| - 1])
  }

  lemma ClosingStep(before: seq<Token>, stack: seq<Tag>)
    requires stack != []
    ensures before + Closing(stack) ==
            (before + [Close(stack[|stack| - 1])]) + Closing(stack[..|stack| - 1])
  {
    Associates(before, [Close(stack[|stack| - 1])], Closing(stack[..|stack| - 1]));
  }

  lemma Enclosed(before: seq<Token>, t: Tag, inside: seq<Token>)
    ensures before + [Open(t)] + inside + [Close(t)] == before + Printer.Wrap(t, inside)
  {
  }

  lemma Regrouped(before: seq<Token>, x: seq<Token>, rest: seq<Token>)
    ensures before + (x + rest) == before + x + rest
  {
  }

  // ----- Values -------------------------------------------------------------

  /** `do_visit_value`. */
  method VisitValue(w: XmlBuilder, o: Options, bare: bool, v: Value)
    requires w.Valid() && Printer.Printable(v)
    modifies w
    ensures w.Valid() && w.stack == old(w.stack)
    ensures w.Written() == old(w.Written()) + Printer.InValue(o, bare, v)
    decreases v, 1
  {
    w.StartElement(ValueTag);
    VisitContent(w, o, bare, v);
    w.EndElement();
    Enclosed(old(w.Written()), ValueTag, Printer.Content(o, bare, v));
  }

  method VisitContent(w: XmlBuilder, o: Options, bare: bool, v: Value)
    requires w.Valid() && Printer.Printable(v)
    modifies w
    ensures w.Valid() && w.stack == old(w.stack)
    ensures w.Written() == old(w.Written()) + Printer.Content(o, bare, v)
    decreases v, 0
  {
    match v {
      case Nil =>
        w.StartElement(NilTag);
        w.EndElement();
      case Int(i) => w.AddTextNode(I4, IntText(i));
      case Int64(l) => w.AddTextNode(I8, IntText(l));
      case Bool(b) => w.AddTextNode(BooleanTag, if b then "1" else "0");
      case Double(d) => w.AddTextNode(DoubleTag, o.doubles.show(d));
      case Str(s) =>
        if bare {
          w.AddText(s);
        } else {
          w.AddTextNode(StringTag, s);
        }
      case Binary(data, text) => w.AddTextNode(Base64Tag, BinaryText(data, text));
      case Date(tm) => w.AddTextNode(DateTag, DateTime.Print(tm));
      case Struct(ms) => VisitStruct(w, o, bare, ms);
      case Array(vs) => VisitArray(w, o, bare, vs);
    }
  }

  method VisitStruct(w: XmlBuilder, o: Options, bare: bool, ms: seq<Entry<Value>>)
    requires w.Valid() && Printer.Printable(Struct(ms))
    modifies w
    ensures w.Valid() && w.stack == old(w.stack)
    ensures w.Written() == old(w.Written()) + Printer.Content(o, bare, Struct(ms))
    decreases ms, 0
  {
    ghost var before := w.Written();
    w.StartElement(StructTag);
    ghost var start := w.Written();
    for i := 0 to |ms|
      invariant w.Valid() && w.stack == old(w.stack) + [StructTag]
      invariant w.Written() + Printer.Members(o, bare, ms[i..]) == start + Printer.Members(o, bare, ms)
    {
      ghost var here := w.Written();
      VisitMember(w, o, bare, ms[i].key, ms[i].value);
      assert ms[i..][1..] == ms[i + 1..];
      Regrouped(here, Printer.Member(o, bare, ms[i].key, ms[i].value), Printer.Members(o, bare, ms[i + 1..]));
    }
    assert w.Written() == start + Printer.Members(o, bare, ms) by {
      assert ms[|ms|..] == [];
    }
    w.EndElement();
    Enclosed(before, StructTag, Printer.Members(o, bare, ms));
  }

  method VisitMember(w: XmlBuilder, o: Options, bare: bool, k: string, v: Value)
    requires w.Valid() && Printer.Printable(v)
    modifies w
    ensures w.Valid() && w.stack == old(w.stack)
    ensures w.Written() == old(w.Written()) + Printer.Member(o, bare, k, v)
    decreases v, 2
  {
    w.StartElement(MemberTag);
    w.AddTextNode(NameTag, k);
    VisitValue(w, o, bare, v);
    w.EndElement();
    Regrouped(old(w.Written()) + [Open(MemberTag)], Printer.Leaf(NameTag, k), Printer.InValue(o, bare, v));
    Enclosed(old(w.Written()), MemberTag, Printer.Leaf(NameTag, k) + Printer.InValue(o, bare, v));
  }

  method VisitArray(w: XmlBuilder, o: Options, bare: bool, vs: seq<Value>)
    requires w.Valid() && Printer.Printable(Array(vs))
    modifies w
    ensures w.Valid() && w.stack == old(w.stack)
    ensures w.Written() == old(w.Written()) + Printer.Content(o, bare, Array(vs))
    decreases vs, 3
  {
    w.StartElement(ArrayTag);
    w.StartElement(DataTag);
    VisitItems(w, o, bare, vs);
    w.EndElement();
    ghost var items := Printer.Items(o, bare, vs);
    Enclosed(old(w.Written()) + [Open(ArrayTag)], DataTag, items);
    w.EndElement();
    Enclosed(old(w.Written()), ArrayTag, Printer.Wrap(DataTag, items));
  }

  method VisitItems(w: XmlBuilder, o: Options, bare: bool, vs: seq<Value>)
    requires w.Valid() && Printer.Printable(Array(vs))
    modifies w
    ensures w.Valid() && w.stack == old(w.stack)
    ensures w.Written() == old(w.Written()) + Printer.Items(o, bare, vs)
    decreases vs, 2
  {
    for i := 0 to |vs|
      invariant w.Valid() && w.stack == old(w.stack)
      invariant w.Written() + Printer.Items(o, bare, vs[i..]) == old(w.Written()) + Printer.Items(o, bare, vs)
    {
      ghost var here := w.Written();
      VisitValue(w, o, bare, vs[i]);
      assert vs[i..][1..] == vs[i + 1..];
      Regrouped(here, Printer.InValue(o, bare, vs[i]), Printer.Items(o, bare, vs[i + 1..]));
    }
    assert vs[|vs|..] == [];
  }

  // ----- Messages -----------------------------------------------------------

  method VisitParam(w: XmlBuilder, o: Options, v: Value)
    requires w.Valid() && Printer.Printable(v)
    modifies w
    ensures w.Valid() && w.stack == old(w.stack)
    ensures w.Written() == old(w.Written()) + Printer.Wrap(Param, Printer.InValue(o, false, v))
  {
    w.StartElement(Param);
    VisitValue(w, o, false, v);
    w.EndElement();
    Enclosed(old(w.Written()), Param, Printer.InValue(o, false, v));
  }

  method VisitParams(w: XmlBuilder, o: Options, ps: seq<Value>)
    requires w.Valid() && forall i :: 0 <= i < |ps| ==> Printer.Printable(ps[i])
    modifies w
    ensures w.Valid() && w.stack == old(w.stack)
    ensures w.Written() == old(w.Written()) + Messages.ParamsTokens(o, ps)
  {
    for i := 0 to |ps|
      invariant w.Valid() && w.stack == old(w.stack)
      invariant w.Written() + Messages.ParamsTokens(o, ps[i..]) == old(w.Written()) + Messages.ParamsTokens(o, ps)
    {
      ghost var here := w.Written();
      VisitParam(w, o, ps[i]);
      assert ps[i..][1..] == ps[i + 1..];
      Regrouped(here, Printer.Wrap(Param, Printer.InValue(o, false, ps[i])), Messages.ParamsTokens(o, ps[i + 1..]));
    }
    assert ps[|ps|..] == [];
  }

  method DumpRequest(o: Options, r: Messages.Request) returns (nodes: seq<Node>)
    requires forall i :: 0 <= i < |r.params| ==> Printer.Printable(r.params[i])
    ensures Tokens(nodes) == Messages.RequestTokens(o, r)
  {
    var w := new XmlBuilder();
    w.StartElement(MethodCall);
    assert w.Written() == [Open(MethodCall)];
    w.AddTextNode(MethodName, r.name);
    w.StartElement(Params);
    VisitParams(w, o, r.params);
    w.EndElement();
    ghost var name, params := Printer.Leaf(MethodName, r.name), Messages.ParamsTokens(o, r.params);
    Enclosed([Open(MethodCall)] + name, Params, params);
    Regrouped([Open(MethodCall)], name, Printer.Wrap(Params, params));
    assert w.Written() == [Open(MethodCall)] + (name + Printer.Wrap(Params, params));
    w.Stop();
    nodes := w.nodes;
    Stopped(MethodCall, name + Printer.Wrap(Params, params));
  }

  /** Stopping closes the root element. */
  lemma Stopped(root: Tag, inside: seq<Token>)
    ensures [Open(root)] + inside + Closing([root]) == Printer.Wrap(root, inside)
  {
    assert Closing([root]) == [Close(root)] + Closing([]);
  }

  method DumpOk(w: XmlBuilder, o: Options, v: Value) returns (ghost inside: seq<Token>)
    requires w.Valid() && Printer.Printable(v)
    modifies w
    ensures inside == Printer.Wrap(Params, Printer.Wrap(Param, Printer.InValue(o, o.omitStringTag, v)))
    ensures w.Valid() && w.stack == old(w.stack) && w.Written() == old(w.Written()) + inside
  {
    w.StartElement(Params);
    w.StartElement(Param);
    VisitValue(w, o, o.omitStringTag, v);
    w.EndElement();
    ghost var value := Printer.InValue(o, o.omitStringTag, v);
    Enclosed(old(w.Written()) + [Open(Params)], Param, value);
    w.EndElement();
    Enclosed(old(w.Written()), Params, Printer.Wrap(Param, value));
    inside := Printer.Wrap(Params, Printer.Wrap(Param, value));
  }

  method DumpFault(w: XmlBuilder, o: Options, code: int32, str: string) returns (ghost inside: seq<Token>)
    requires w.Valid()
    modifies w
    ensures inside == Printer.Wrap(FaultTag, Printer.InValue(o, o.omitStringTag, Messages.FaultValue(code, str)))
    ensures w.Valid() && w.stack == old(w.stack) && w.Written() == old(w.Written()) + inside
  {
    w.StartElement(FaultTag);
    var fault := FaultStruct(code, str);
    VisitValue(w, o, o.omitStringTag, fault);
    w.EndElement();
    Enclosed(old(w.Written()), FaultTag, Printer.InValue(o, o.omitStringTag, fault));
    inside := Printer.Wrap(FaultTag, Printer.InValue(o, o.omitStringTag, fault));
  }

  /** An XmlBuilder inside the root element of a response. */
  method ResponseStarts() returns (w: XmlBuilder)
    ensures fresh(w) && w.Valid() && w.stack == [MethodResponse] && w.Written() == [Open(MethodResponse)]
  {
    w := new XmlBuilder();
    w.StartElement(MethodResponse);
  }

  method ResponseEnds(w: XmlBuilder, ghost inside: seq<Token>) returns (nodes: seq<Node>)
    requires w.Valid() && w.stack == [MethodResponse] && w.Written() == [Open(MethodResponse)] + inside
    modifies w
    ensures Tokens(nodes) == Printer.Wrap(MethodResponse, inside)
  {
    w.Stop();
    nodes := w.nodes;
    Stopped(MethodResponse, inside);
    assert w.Written() == Tokens(nodes) + [] == Tokens(nodes);
  }

  method DumpOkResponse(o: Options, v: Value) returns (nodes: seq<Node>)
    requires Printer.Printable(v)
    ensures Tokens(nodes) == Messages.ResponseTokens(o, Messages.OkResponse(v))
  {
    var w := ResponseStarts();
    ghost var inside := DumpOk(w, o, v);
    nodes := ResponseEnds(w, inside);
  }

  method DumpFaultResponse(o: Options, code: int32, str: string) returns (nodes: seq<Node>)
    ensures Tokens(nodes) == Messages.ResponseTokens(o, Messages.FaultResponse(code, str))
  {
    var w := ResponseStarts();
    ghost var inside := DumpFault(w, o, code, str);
    nodes := ResponseEnds(w, inside);
  }

  method DumpResponse(o: Options, r: Messages.Response) returns (nodes: seq<Node>)
    requires r.OkResponse? ==> Printer.Printable(r.value)
    ensures Tokens(nodes) == Messages.ResponseTokens(o, r)
  {
    match r
    case OkResponse(v) => nodes := DumpOkResponse(o, v);
    case FaultResponse(code, str) => nodes := DumpFaultResponse(o, code, str);
  }

  /** The fault as a struct with two members. */
  method FaultStruct(code: int32, str: string) returns (v: Value)
    ensures v == Messages.FaultValue(code, str)
  {
    var fault := Put([], "faultCode", Int(code));
    Messages.FaultOrder();
    PutLast([Entry("faultCode", Int(code))], "faultString", Str(str));
    fault := Put(fault, "faultString", Str(str));
    v := Struct(fault);
  }
}
