/** Writing values, requests and responses as XML. */
module Printer {
  import opened Text
  import opened OrderedMap
  import opened Values
  import opened Xml
  import Base64
  import DateTime

  // ----- The token sequence of a value --------------------------------------

  predicate Printable(v: Value) {
    match v
    case Date(tm) => DateTime.Valid(tm)
    case Struct(ms) => forall i :: 0 <= i < |ms| ==> Printable(ms[i].value)
    case Array(vs) => forall i :: 0 <= i < |vs| ==> Printable(vs[i])
    case _ => true
  }

  function Wrap(t: Tag, inside: seq<Token>): seq<Token> {
    [Open(t)] + inside + [Close(t)]
  }

  function Leaf(t: Tag, s: string): seq<Token> {
    Wrap(t, TextTokens(s))
  }

  /** What stands between the value tags. `bare` says that strings go without a
      tag of their own. */
  function Content(o: Options, bare: bool, v: Value): seq<Token>
    requires Printable(v)
    decreases v, 0
  {
    match v
    case Nil => Wrap(NilTag, [])
    case Int(i) => Leaf(I4, IntText(i))
    case Int64(l) => Leaf(I8, IntText(l))
    case Bool(b) => Leaf(BooleanTag, if b then "1" else "0")
    case Double(d) => Leaf(DoubleTag, o.doubles.show(d))
    case Str(s) => if bare then TextTokens(s) else Leaf(StringTag, s)
    case Binary(data, text) => Leaf(Base64Tag, BinaryText(data, text))
    case Date(tm) => Leaf(DateTag, DateTime.Print(tm))
    case Struct(ms) => Wrap(StructTag, Members(o, bare, ms))
    case Array(vs) => Wrap(ArrayTag, Wrap(DataTag, Items(o, bare, vs)))
  }

  function InValue(o: Options, bare: bool, v: Value): seq<Token>
    requires Printable(v)
    decreases v, 1
  {
    Wrap(ValueTag, Content(o, bare, v))
  }

  function Member(o: Options, bare: bool, k: string, v: Value): seq<Token>
    requires Printable(v)
    decreases v, 2
  {
    Wrap(MemberTag, Leaf(NameTag, k) + InValue(o, bare, v))
  }

  function Members(o: Options, bare: bool, ms: seq<Entry<Value>>): seq<Token>
    requires forall i :: 0 <= i < |ms| ==> Printable(ms[i].value)
    decreases ms, 2
  {
    if ms == [] then []
    else Member(o, bare, ms[0].key, ms[0].value) + Members(o, bare, ms[1..])
  }

  function Items(o: Options, bare: bool, vs: seq<Value>): seq<Token>
    requires forall i :: 0 <= i < |vs| ==> Printable(vs[i])
    decreases vs, 2
  {
    if vs == [] then [] else InValue(o, bare, vs[0]) + Items(o, bare, vs[1..])
  }

  // ----- The same sequences, regrouped --------------------------------------

  lemma StructTokens(o: Options, bare: bool, ms: seq<Entry<Value>>, tail: seq<Token>)
    requires Printable(Struct(ms))
    ensures Content(o, bare, Struct(ms)) + tail == [Open(StructTag)] + (Members(o, bare, ms) + ([Close(StructTag)] + tail))
  {
  }

  lemma MembersTokens(o: Options, bare: bool, ms: seq<Entry<Value>>, tail: seq<Token>)
    requires Printable(Struct(ms))
    ensures Members(o, bare, ms) + tail ==
      if ms == [] then tail
      else Member(o, bare, ms[0].key, ms[0].value) + (Members(o, bare, ms[1..]) + tail)
  {
  }

  lemma MemberTokens(o: Options, bare: bool, k: string, v: Value, tail: seq<Token>)
    requires Printable(v)
    ensures Member(o, bare, k, v) + tail ==
      [Open(MemberTag)] + (Leaf(NameTag, k) +
        ([Open(ValueTag)] + (Content(o, bare, v) + ([Close(ValueTag)] + ([Close(MemberTag)] + tail)))))
  {
  }

  lemma LeafTokens(t: Tag, s: string, tail: seq<Token>)
    ensures Leaf(t, s) + tail == [Open(t)] + (TextTokens(s) + ([Close(t)] + tail))
  {
  }

  lemma ArrayTokens(o: Options, bare: bool, vs: seq<Value>, tail: seq<Token>)
    requires Printable(Array(vs))
    ensures Content(o, bare, Array(vs)) + tail ==
      [Open(ArrayTag)] + ([Open(DataTag)] + (Items(o, bare, vs) + ([Close(DataTag)] + ([Close(ArrayTag)] + tail))))
  {
  }

  lemma ItemsTokens(o: Options, bare: bool, vs: seq<Value>, tail: seq<Token>)
    requires Printable(Array(vs))
    ensures Items(o, bare, vs) + tail ==
      if vs == [] then tail else InValue(o, bare, vs[0]) + (Items(o, bare, vs[1..]) + tail)
  {
  }

  lemma InValueTokens(o: Options, bare: bool, v: Value, tail: seq<Token>)
    requires Printable(v)
    ensures InValue(o, bare, v) + tail == [Open(ValueTag)] + (Content(o, bare, v) + ([Close(ValueTag)] + tail))
  {
  }
}
