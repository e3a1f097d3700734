/** Where the round trip ends: what nil inside an array and an empty member name do
    to the levels that a builder counts. */
module Boundaries {
  import opened Text
  import opened OrderedMap
  import opened Values
  import opened Xml
  import opened Printer
  import opened Builders
  import opened RoundTrip

  /** A nil is taken without its end tag. */
  lemma NilSubBuild(o: Options, rest: seq<Token>)
    ensures Parse(o, Start(NEW_VALUE, false), [Open(NilTag)] + rest) ==
            Done(Builder(ValueCore(AtNil, Some(Nil)), 1, true), rest)
  {
    OpenSettles(o, Start(NEW_VALUE, false), NilTag, ValueCore(AtNil, Some(Nil)), true, rest);
  }

  /** So an array builder counts one level down too many for it. */
  lemma NilItem(o: Options, st: ArrayState, acc: seq<Value>, depth: nat, after: seq<Token>)
    requires st != OutsideData && 1 <= depth <= 2
    ensures Parse(o, Builder(ArrayCore(st, acc), depth, false),
                  [Open(ValueTag)] + ([Open(NilTag)] + ([Close(NilTag)] + ([Close(ValueTag)] + after)))) ==
            Continue(o, Builder(ArrayCore(InValues, acc + [Nil]), depth - 1, depth == 1), after)
  {
    var ends := [Close(NilTag)] + ([Close(ValueTag)] + after);
    var core := ArrayCore(InValues, acc + [Nil]);
    OpenSubBuilds(o, Builder(ArrayCore(st, acc), depth, false), ValueTag, NEW_VALUE, false, [Open(NilTag)] + ends);
    NilSubBuild(o, ends);
    ParseClose(o, Builder(core, depth + 1, false), NilTag, [Close(ValueTag)] + after);
    ParseClose(o, Builder(core, depth, false), ValueTag, after);
  }

  lemma NilInValue(o: Options, bare: bool, after: seq<Token>)
    ensures InValue(o, bare, Nil) + after ==
            [Open(ValueTag)] + ([Open(NilTag)] + ([Close(NilTag)] + ([Close(ValueTag)] + after)))
  {
  }

  lemma TwoNilItems(o: Options, bare: bool, vs: seq<Value>, after: seq<Token>)
    requires Printable(Array(vs))
    ensures Printable(Array([Nil, Nil] + vs))
    ensures Items(o, bare, [Nil, Nil] + vs) + after ==
            InValue(o, bare, Nil) + (InValue(o, bare, Nil) + (Items(o, bare, vs) + after))
  {
    var all := [Nil, Nil] + vs;
    assert all[1..] == [Nil] + vs && all[1..][1..] == vs;
    assert Items(o, bare, all) == InValue(o, bare, Nil) + (InValue(o, bare, Nil) + Items(o, bare, vs));
  }

  /** Every array that starts with two nils is read as those two: the rest of it is
      left over, end tags and all, for the builder around it. */
  lemma TwoNilsEndAnArray(o: Options, bare: bool, vs: seq<Value>, flat: bool, tail: seq<Token>)
    requires Printable(Array(vs))
    ensures Printable(Array([Nil, Nil] + vs))
    ensures Parse(o, Start(NEW_VALUE, flat), Content(o, bare, Array([Nil, Nil] + vs)) + tail) ==
            WithContainer(flat, AtArray, Array([Nil, Nil]),
                          Items(o, bare, vs) + ([Close(DataTag)] + ([Close(ArrayTag)] + tail)))
  {
    var after := Items(o, bare, vs) + ([Close(DataTag)] + ([Close(ArrayTag)] + tail));
    TwoNilItems(o, bare, vs, [Close(DataTag)] + ([Close(ArrayTag)] + tail));
    ArrayValue(o, bare, [Nil, Nil] + vs, flat, tail);
    NilInValue(o, bare, InValue(o, bare, Nil) + after);
    NilItem(o, InData, [], 2, InValue(o, bare, Nil) + after);
    NilInValue(o, bare, after);
    NilItem(o, InValues, [Nil], 1, after);
    assert [] + [Nil] == [Nil] && [Nil] + [Nil] == [Nil, Nil];
  }

  /** A struct builder that is two levels down reads the members as one that is one
      level down does, and reads one end tag more behind them. */
  lemma {:induction false} MembersTakeEndTag(o: Options, bare: bool, ms: seq<Entry<Value>>, acc: seq<Entry<Value>>,
                                             name: string, value: Value, rest: seq<Token>)
    requires Regular(o, Struct(ms)) && Printable(Struct(ms)) && NilsFit(Struct(ms)) && MembersLeak(ms) == 0
    requires NamesReadable(Struct(ms)) && Before(acc, ms)
    ensures EndsBehind(Parse(o, InStruct(OutsideMember, name, value, acc, 2),
                             StructTokensFrom(o, bare, ms, [Close(ValueTag)] + rest)), acc + ReparsedMembers(ms), rest)
    decreases ms
  {
    var tail := [Close(ValueTag)] + rest;
    if ms == [] {
      NoMoreMembers(o, bare, ms, acc, name, value, rest);
    } else {
      var w := Reparsed(ms[0].value);
      RestIsRegular(o, ms);
      NamesOfRest(ms);
      FirstKeepsLevel(ms);
      MemberGoesOn(o, bare, ms, acc, name, value, 2, tail);
      MoveFirst(acc, ms, w);
      MembersTakeEndTag(o, bare, ms[1..], acc + [Entry(ms[0].key, w)], ms[0].key, w, rest);
      FirstReparsed(ms, acc);
    }
  }

  ghost predicate EndsBehind(r: Outcome, ms: seq<Entry<Value>>, rest: seq<Token>) {
    r.Done? && r.builder.core.StructCore? && r.builder.core.members == ms && r.rest == rest
  }

  lemma FirstKeepsLevel(ms: seq<Entry<Value>>)
    requires ms != [] && NilsFit(Struct(ms)) && MembersLeak(ms) == 0
    ensures Leak(ms[0].value) == 0
  {
  }

  lemma NoMoreMembers(o: Options, bare: bool, ms: seq<Entry<Value>>, acc: seq<Entry<Value>>, name: string, value: Value,
                      rest: seq<Token>)
    requires ms == []
    ensures EndsBehind(Parse(o, InStruct(OutsideMember, name, value, acc, 2),
                             StructTokensFrom(o, bare, ms, [Close(ValueTag)] + rest)), acc + ReparsedMembers(ms), rest)
  {
    var tail := [Close(ValueTag)] + rest;
    MembersTokens(o, bare, ms, [Close(StructTag)] + tail);
    ParseClose(o, InStruct(OutsideMember, name, value, acc, 2), StructTag, tail);
    ParseClose(o, InStruct(OutsideMember, name, value, acc, 1), ValueTag, rest);
    assert acc + [] == acc;
  }

  /** The end tag of an empty name is taken for its text, and one level too many
      stays counted, behind the member too. */
  lemma EmptyNameMember(o: Options, bare: bool, v: Value, after: seq<Token>)
    requires Regular(o, v) && NilsFit(v) && Leak(v) == 0 && Printable(v) && NamesReadable(v)
    ensures Parse(o, Start(NEW_STRUCT, true), Member(o, bare, "", v) + after) ==
            Parse(o, InStruct(OutsideMember, "", Reparsed(v), [Entry("", Reparsed(v))], 2), after)
  {
    var closing := [Close(MemberTag)] + after;
    var toks := Content(o, bare, v) + ([Close(ValueTag)] + closing);
    MemberTokens(o, bare, "", v, after);
    MemberOpens(o, "", [], "", Nil, 1, [Open(ValueTag)] + toks);
    ValueParses(o, bare, v, false, closing);
    NothingLeft(Parse(o, Start(NEW_VALUE, false), toks).rest, [Close(ValueTag)] + closing);
    MemberValue(o, "", Nil, [], 3, toks);
    EmptyNameCloses(o, Reparsed(v), after);
  }

  lemma EmptyNameCloses(o: Options, v: Value, after: seq<Token>)
    ensures Parse(o, InStruct(ValueRead, "", v, [], 4), [Close(ValueTag)] + ([Close(MemberTag)] + after)) ==
            Parse(o, InStruct(OutsideMember, "", v, [Entry("", v)], 2), after)
  {
    var tail := [Close(ValueTag)] + ([Close(MemberTag)] + after);
    assert [] + tail == tail;
    MemberCloses(o, "", v, [], 2, [], after);
  }

  /** A struct with an empty name, which is always its first, is read with all its
      members, but the end tag of the value that it is in is read along with it. */
  lemma EmptyNameTakesEndTag(o: Options, bare: bool, v: Value, ms: seq<Entry<Value>>, flat: bool, rest: seq<Token>)
    requires Regular(o, v) && NilsFit(v) && Leak(v) == 0 && Printable(v) && NamesReadable(v)
    requires Regular(o, Struct(ms)) && NilsFit(Struct(ms)) && MembersLeak(ms) == 0
    requires Printable(Struct(ms)) && NamesReadable(Struct(ms)) && Printable(Struct([Entry("", v)] + ms))
    ensures Parse(o, Start(NEW_VALUE, flat), Content(o, bare, Struct([Entry("", v)] + ms)) + ([Close(ValueTag)] + rest)) ==
            WithContainer(flat, AtStruct, Struct([Entry("", Reparsed(v))] + ReparsedMembers(ms)), rest)
  {
    var tail, all, e := [Close(ValueTag)] + rest, [Entry("", v)] + ms, Entry("", Reparsed(v));
    StructValue(o, bare, all, flat, tail);
    MembersTokens(o, bare, all, [Close(StructTag)] + tail);
    assert all[1..] == ms;
    EmptyNameMember(o, bare, v, StructTokensFrom(o, bare, ms, tail));
    MembersTakeEndTag(o, bare, ms, [e], "", Reparsed(v), rest);
  }
}
