/** Printed values are nested, name all their members, and open as many values as
    they hold. */
module Nesting {
  import opened Text
  import opened OrderedMap
  import opened Values
  import opened Xml
  import opened Printer
  import opened Accounting
  import opened RoundTrip

  ghost predicate Nested(toks: seq<Token>) {
    Excess(toks) == 0 && forall i :: 0 <= i < |toks| ==> Excess(toks[i..]) >= 0
  }

  /** Nested, without empty names, and of that weight. */
  ghost predicate Tidy(toks: seq<Token>, weight: nat) {
    Nested(toks) && Named(toks) && Opened(toks) == weight
  }

  lemma {:induction false} CountsAdd(a: seq<Token>, b: seq<Token>)
    ensures Excess(a + b) == Excess(a) + Excess(b) && Opened(a + b) == Opened(a) + Opened(b)
  {
    if a == [] {
      assert a + b == b;
    } else {
      assert (a + b)[1..] == a[1..] + b;
      CountsAdd(a[1..], b);
    }
  }

  lemma ExcessFrom(a: seq<Token>, b: seq<Token>, i: nat)
    requires i <= |a + b|
    ensures Excess((a + b)[i..]) == if i < |a| then Excess(a[i..]) + Excess(b) else Excess(b[i - |a|..])
  {
    if i < |a| {
      assert (a + b)[i..] == a[i..] + b;
      CountsAdd(a[i..], b);
    } else {
      assert (a + b)[i..] == b[i - |a|..];
    }
  }

  lemma NamedAdd(a: seq<Token>, b: seq<Token>)
    requires Named(a) && Named(b)
    ensures Named(a + b)
  {
    var c := a + b;
    forall i | 0 <= i < |c| && c[i] == Open(NameTag) ensures i + 1 < |c| && !c[i + 1].Close? {
      if i < |a| {
        assert a[i] == Open(NameTag);
        assert c[i + 1] == a[i + 1];
      } else {
        assert b[i - |a|] == Open(NameTag);
        assert c[i + 1] == b[i - |a| + 1];
      }
    }
  }

  lemma TidyAdd(a: seq<Token>, v: nat, b: seq<Token>, w: nat)
    requires Tidy(a, v) && Tidy(b, w)
    ensures Tidy(a + b, v + w)
  {
    CountsAdd(a, b);
    NamedAdd(a, b);
    forall i | 0 <= i < |a + b| ensures Excess((a + b)[i..]) >= 0 {
      ExcessFrom(a, b, i);
    }
  }

  lemma OneToken(x: Token)
    ensures Excess([x]) == if x.Close? then 1 else if x.Open? then -1 else 0
    ensures Opened([x]) == if x.Open? then TagWeight(x.tag) else 0
  {
    assert [x][1..] == [];
  }

  lemma NestedWrap(t: Tag, inside: seq<Token>)
    requires Nested(inside)
    ensures Nested(Wrap(t, inside)) && Opened(Wrap(t, inside)) == TagWeight(t) + Opened(inside)
  {
    var front := [Open(t)] + inside;
    var all := front + [Close(t)];
    OneToken(Open(t));
    OneToken(Close(t));
    CountsAdd([Open(t)], inside);
    CountsAdd(front, [Close(t)]);
    forall i | 0 <= i < |all| ensures Excess(all[i..]) >= 0 {
      ExcessFrom(front, [Close(t)], i);
      if i < |front| {
        ExcessFrom([Open(t)], inside, i);
        assert i == 0 ==> front[i..] == front;
      } else {
        assert [Close(t)][i - |front|..] == [Close(t)];
      }
    }
  }

  lemma TidyWrap(t: Tag, inside: seq<Token>, w: nat)
    requires Tidy(inside, w) && t != NameTag
    ensures Tidy(Wrap(t, inside), TagWeight(t) + w)
  {
    NestedWrap(t, inside);
    NamedAdd([Open(t)], inside);
    NamedAdd([Open(t)] + inside, [Close(t)]);
  }

  lemma TextIsNested(s: string)
    ensures Tidy(TextTokens(s), 0)
  {
    if s != "" {
      OneToken(TextTokens(s)[0]);
    }
  }

  lemma TidyLeaf(t: Tag, s: string)
    requires t != NameTag || s != ""
    ensures Tidy(Leaf(t, s), TagWeight(t))
  {
    TextIsNested(s);
    NestedWrap(t, TextTokens(s));
    var leaf := Leaf(t, s);
    assert t == NameTag ==> leaf[1] == TextTokens(s)[0];
  }

  lemma {:induction false} ContentIsTidy(o: Options, bare: bool, v: Value)
    requires Regular(o, v) && Printable(v)
    ensures Tidy(Content(o, bare, v), Weight(v))
    decreases v, 0
  {
    match v
    case Nil => TidyWrap(NilTag, [], 0);
    case Struct(ms) =>
      MembersAreTidy(o, bare, ms);
      StructIsTidy(o, bare, ms);
    case Array(vs) =>
      ItemsAreTidy(o, bare, vs);
      ArrayIsTidy(o, bare, vs);
    case _ => ScalarIsTidy(o, bare, v);
  }

  lemma StructIsTidy(o: Options, bare: bool, ms: seq<Entry<Value>>)
    requires Printable(Struct(ms)) && Tidy(Members(o, bare, ms), MembersWeight(ms))
    ensures Tidy(Content(o, bare, Struct(ms)), Weight(Struct(ms)))
  {
    TidyWrap(StructTag, Members(o, bare, ms), MembersWeight(ms));
  }

  lemma ArrayIsTidy(o: Options, bare: bool, vs: seq<Value>)
    requires Printable(Array(vs)) && Tidy(Items(o, bare, vs), ItemsWeight(vs))
    ensures Tidy(Content(o, bare, Array(vs)), Weight(Array(vs)))
  {
    TidyWrap(DataTag, Items(o, bare, vs), ItemsWeight(vs));
    TidyWrap(ArrayTag, Wrap(DataTag, Items(o, bare, vs)), ItemsWeight(vs));
  }

  lemma ScalarIsTidy(o: Options, bare: bool, v: Value)
    requires IsScalar(v) && Printable(v)
    ensures Tidy(Content(o, bare, v), 0)
  {
    if bare && v.Str? {
      TextIsNested(v.s);
    } else {
      assert Content(o, bare, v) == Leaf(LeafTag(v), LeafText(o, v));
      TidyLeaf(LeafTag(v), LeafText(o, v));
    }
  }

  lemma {:induction false} InValueIsTidy(o: Options, bare: bool, v: Value)
    requires Regular(o, v) && Printable(v)
    ensures Tidy(InValue(o, bare, v), 1 + Weight(v))
    decreases v, 1
  {
    ContentIsTidy(o, bare, v);
    TidyWrap(ValueTag, Content(o, bare, v), Weight(v));
  }

  lemma {:induction false} ItemsAreTidy(o: Options, bare: bool, vs: seq<Value>)
    requires Regular(o, Array(vs)) && Printable(Array(vs))
    ensures Tidy(Items(o, bare, vs), ItemsWeight(vs))
    decreases vs, 2
  {
    if vs != [] {
      InValueIsTidy(o, bare, vs[0]);
      ItemsAreTidy(o, bare, vs[1..]);
      TidyAdd(InValue(o, bare, vs[0]), 1 + Weight(vs[0]), Items(o, bare, vs[1..]), ItemsWeight(vs[1..]));
    }
  }

  lemma {:induction false} MemberIsTidy(o: Options, bare: bool, k: string, v: Value)
    requires Regular(o, v) && Printable(v) && k != ""
    ensures Tidy(Member(o, bare, k, v), 1 + Weight(v))
    decreases v, 2
  {
    TidyLeaf(NameTag, k);
    InValueIsTidy(o, bare, v);
    TidyAdd(Leaf(NameTag, k), 0, InValue(o, bare, v), 1 + Weight(v));
    TidyWrap(MemberTag, Leaf(NameTag, k) + InValue(o, bare, v), 1 + Weight(v));
  }

  lemma FirstMember(o: Options, ms: seq<Entry<Value>>)
    requires ms != [] && Regular(o, Struct(ms)) && Printable(Struct(ms))
    ensures Regular(o, ms[0].value) && Printable(ms[0].value) && ms[0].key != ""
    ensures Regular(o, Struct(ms[1..])) && Printable(Struct(ms[1..]))
  {
  }

  lemma {:induction false} MembersAreTidy(o: Options, bare: bool, ms: seq<Entry<Value>>)
    requires Regular(o, Struct(ms)) && Printable(Struct(ms))
    ensures Tidy(Members(o, bare, ms), MembersWeight(ms))
    decreases ms, 3
  {
    if ms != [] {
      FirstMember(o, ms);
      MemberIsTidy(o, bare, ms[0].key, ms[0].value);
      MembersAreTidy(o, bare, ms[1..]);
      TidyAdd(Member(o, bare, ms[0].key, ms[0].value), 1 + Weight(ms[0].value),
              Members(o, bare, ms[1..]), MembersWeight(ms[1..]));
    }
  }

  // ----- In front of end tags ---------------------------------------------------

  /** Orderly tokens with that excess and that weight. */
  ghost predicate Ended(toks: seq<Token>, excess: nat, weight: nat) {
    Orderly(toks) && Excess(toks) == excess && Opened(toks) == weight
  }

  lemma OneTagEnds(t: Tag)
    ensures Ended([Close(t)], 1, 0)
  {
    OneToken(Close(t));
    assert [Close(t)][0..] == [Close(t)];
  }

  lemma EndedByTag(t: Tag, toks: seq<Token>, excess: nat, weight: nat)
    requires Ended(toks, excess, weight)
    ensures Ended([Close(t)] + toks, excess + 1, weight)
  {
    var all := [Close(t)] + toks;
    OneToken(Close(t));
    CountsAdd([Close(t)], toks);
    NamedAdd([Close(t)], toks);
    forall i | 0 <= i < |all| ensures Excess(all[i..]) >= 1 {
      ExcessFrom([Close(t)], toks, i);
      assert [Close(t)][0..] == [Close(t)];
    }
  }

  lemma EndedByMore(a: seq<Token>, v: nat, toks: seq<Token>, excess: nat, weight: nat)
    requires Tidy(a, v) && Ended(toks, excess, weight) && excess > 0
    ensures Ended(a + toks, excess, v + weight)
  {
    CountsAdd(a, toks);
    NamedAdd(a, toks);
    forall i | 0 <= i < |a + toks| ensures Excess((a + toks)[i..]) >= 1 {
      ExcessFrom(a, toks, i);
    }
  }
}
