/** Exactly which values come back: the readable ones with few enough nils, at every
    depth, and no others. */
module Exactness {
  import opened Text
  import opened OrderedMap
  import opened Values
  import opened Xml
  import opened Printer
  import opened Builders
  import opened RoundTrip
  import opened Equality
  import Accounting
  import Nesting

  /** What comes back. */
  predicate IsGood(v: Value) {
    NilsFit(v) && NamesReadable(v) && StringsReadable(v)
  }

  /** A sub-build gives the value. */
  ghost predicate Gives(r: Outcome, v: Value) {
    r.Done? && r.builder.core.ValueCore? && Plain(OrEmpty(r.builder.core.got)) == Plain(v)
  }

  predicate ItemsGood(vs: seq<Value>) {
    forall i :: 0 <= i < |vs| ==> IsGood(vs[i])
  }

  predicate MembersGood(ms: seq<Entry<Value>>) {
    forall i :: 0 <= i < |ms| ==> !AllXmlSpace(ms[i].key) && IsGood(ms[i].value)
  }

  // ----- Arrays -------------------------------------------------------------------

  /** Some items that were read are not what stood there after these. */
  ghost predicate Differ(items: seq<Value>, acc: seq<Value>, vs: seq<Value>) {
    PlainItems(items) != PlainItems(acc) + PlainItems(vs)
  }

  ghost predicate WrongItems(r: Outcome, acc: seq<Value>, vs: seq<Value>) {
    r.Done? ==> r.builder.core.ArrayCore? && Differ(r.builder.core.items, acc, vs)
  }

  lemma {:induction false} PlainItemsAt(vs: seq<Value>, i: nat)
    requires i < |vs|
    ensures |PlainItems(vs)| == |vs| && PlainItems(vs)[i] == Plain(vs[i])
  {
    PlainLength(vs);
    if i > 0 {
      PlainItemsAt(vs[1..], i - 1);
    }
  }

  lemma {:induction false} PlainItemsAppend(vs: seq<Value>, v: Value)
    ensures PlainItems(vs + [v]) == PlainItems(vs) + [Plain(v)]
  {
    if vs == [] {
      assert [v][1..] == [];
    } else {
      assert (vs + [v])[1..] == vs[1..] + [v];
      PlainItemsAppend(vs[1..], v);
    }
  }

  lemma LostItemsDiffer(items: seq<Value>, acc: seq<Value>, vs: seq<Value>)
    requires |items| < |acc| + |vs|
    ensures Differ(items, acc, vs)
  {
    PlainLength(items);
    PlainLength(acc);
    PlainLength(vs);
  }

  /** An item that was read as something else is there for good. */
  lemma GrownItemsDiffer(items: seq<Value>, acc: seq<Value>, w: Value, vs: seq<Value>)
    requires vs != [] && Plain(w) != Plain(vs[0]) && acc + [w] <= items
    ensures Differ(items, acc, vs)
  {
    PlainItemsAt(items, |acc|);
    PlainItemsAt(vs, 0);
    PlainLength(acc);
  }

  lemma LaterItemsDiffer(items: seq<Value>, acc: seq<Value>, w: Value, vs: seq<Value>)
    requires vs != [] && Plain(w) == Plain(vs[0]) && Differ(items, acc + [w], vs[1..])
    ensures Differ(items, acc, vs)
  {
    PlainItemsAppend(acc, w);
    Associates(PlainItems(acc), [Plain(w)], PlainItems(vs[1..]));
    assert PlainItems(vs) == [Plain(vs[0])] + PlainItems(vs[1..]);
  }

  lemma LaterItemsWrong(r: Outcome, acc: seq<Value>, w: Value, vs: seq<Value>)
    requires vs != [] && Plain(w) == Plain(vs[0]) && WrongItems(r, acc + [w], vs[1..])
    ensures WrongItems(r, acc, vs)
  {
    if r.Done? {
      LaterItemsDiffer(r.builder.core.items, acc, w, vs);
    }
  }

  /** An item that brings the array builder down to zero is the last it takes. */
  lemma ItemThenStop(o: Options, bare: bool, v: Value, acc: seq<Value>, st: ArrayState, depth: nat, after: seq<Token>)
    requires st != OutsideData && Printable(v) && Regular(o, v) && NilsFit(v) && NamesReadable(v)
    requires 0 < depth <= Leak(v)
    ensures var r := Parse(o, Builder(ArrayCore(st, acc), depth, false), InValue(o, bare, v) + after);
      r.Done? && r.builder.core == ArrayCore(InValues, acc + [Reparsed(v)])
  {
    ItemParses(o, bare, v, acc, st, depth, after);
    var ends :| Ends(ends, Leak(v)) && ItemLeaves(o, bare, v, acc, st, depth, after, ends);
    EnoughEnds(o, ArrayCore(InValues, acc + [Reparsed(v)]), depth + 1, ends, after);
  }

  lemma EnoughEnds(o: Options, core: Core, depth: nat, ends: seq<Token>, after: seq<Token>)
    requires !core.ValueCore? && 0 < depth <= |ends| + 1 && AreEnds(ends)
    ensures var r := Parse(o, Builder(core, depth, false), ends + ([Close(ValueTag)] + after));
      r.Done? && r.builder.core == core
  {
    Associates(ends, [Close(ValueTag)], after);
    EndsClose(o, core, depth, ends + [Close(ValueTag)], after);
  }

  lemma StopsAtFirst(o: Options, bare: bool, vs: seq<Value>, acc: seq<Value>, st: ArrayState, depth: nat, rest: seq<Token>)
    requires st != OutsideData && |vs| > 1 && Printable(Array(vs))
    requires Regular(o, vs[0]) && NilsFit(vs[0]) && NamesReadable(vs[0]) && 0 < depth <= Leak(vs[0])
    ensures WrongItems(Parse(o, Builder(ArrayCore(st, acc), depth, false), ArrayTokensFrom(o, bare, vs, rest)), acc, vs)
  {
    ItemsTokens(o, bare, vs, [Close(DataTag)] + ([Close(ArrayTag)] + rest));
    ItemThenStop(o, bare, vs[0], acc, st, depth, ArrayTokensFrom(o, bare, vs[1..], rest));
    LostItemsDiffer(acc + [Reparsed(vs[0])], acc, vs);
  }

  /** An item that does not come back makes the array wrong. */
  lemma BadItem(o: Options, bare: bool, vs: seq<Value>, acc: seq<Value>, st: ArrayState, depth: nat, after: seq<Token>)
    requires st != OutsideData && vs != [] && Printable(vs[0])
    requires !Gives(Parse(o, Start(NEW_VALUE, false), Content(o, bare, vs[0]) + ([Close(ValueTag)] + after)), vs[0])
    ensures WrongItems(Parse(o, Builder(ArrayCore(st, acc), depth, false), InValue(o, bare, vs[0]) + after), acc, vs)
  {
    var toks := Content(o, bare, vs[0]) + ([Close(ValueTag)] + after);
    InValueTokens(o, bare, vs[0], after);
    ItemValue(o, st, acc, depth, toks);
    var sub := Parse(o, Start(NEW_VALUE, false), toks);
    if sub.Done? {
      var w := OrEmpty(sub.builder.core.got);
      var r := Parse(o, Builder(ArrayCore(InValues, acc + [w]), depth + 1, false), sub.rest);
      Accounting.ParseExtends(o, Builder(ArrayCore(InValues, acc + [w]), depth + 1, false), sub.rest);
      if r.Done? {
        GrownItemsDiffer(r.builder.core.items, acc, w, vs);
      }
    }
  }

  lemma BelowFromRest(vs: seq<Value>, depth: nat)
    requires vs != [] && Leak(vs[0]) < depth && LeaksBelow(vs[1..], depth - Leak(vs[0]))
    ensures LeaksBelow(vs, depth)
  {
    forall k | 0 < k < |vs| ensures LeakAll(vs[..k]) < depth {
      assert vs[..k][0] == vs[0] && vs[..k][1..] == vs[1..][..k - 1];
      assert LeakAll(vs[..k]) == Leak(vs[0]) + LeakAll(vs[1..][..k - 1]);
      assert k == 1 ==> vs[1..][..0] == [];
    }
  }

  lemma GoodFromRest(vs: seq<Value>)
    requires vs != [] && IsGood(vs[0]) && ItemsGood(vs[1..])
    ensures ItemsGood(vs)
  {
    forall i | 0 <= i < |vs| ensures IsGood(vs[i]) {
      assert i > 0 ==> vs[i] == vs[1..][i - 1];
    }
  }

  lemma RestIsBad(vs: seq<Value>, depth: nat)
    requires vs != [] && IsGood(vs[0]) && Leak(vs[0]) < depth && !(ItemsGood(vs) && LeaksBelow(vs, depth))
    ensures !(ItemsGood(vs[1..]) && LeaksBelow(vs[1..], depth - Leak(vs[0])))
  {
    if ItemsGood(vs[1..]) && LeaksBelow(vs[1..], depth - Leak(vs[0])) {
      GoodFromRest(vs);
      BelowFromRest(vs, depth);
    }
  }

  lemma OneItemFits(vs: seq<Value>, depth: nat)
    requires |vs| == 1 && IsGood(vs[0])
    ensures ItemsGood(vs) && LeaksBelow(vs, depth)
  {
  }

  lemma FirstIsRegular(o: Options, vs: seq<Value>)
    requires vs != [] && Regular(o, Array(vs)) && Printable(Array(vs))
    ensures Regular(o, vs[0]) && Printable(vs[0]) && Regular(o, Array(vs[1..])) && Printable(Array(vs[1..]))
  {
  }

  lemma ArrayIsGood(vs: seq<Value>)
    requires ItemsGood(vs) && LeaksBelow(vs, 2)
    ensures IsGood(Array(vs))
  {
  }

  /** What is wrong with the items behind a good one is wrong with them all. */
  lemma RestIsWrong(o: Options, bare: bool, vs: seq<Value>, acc: seq<Value>, st: ArrayState, depth: nat, rest: seq<Token>)
    requires st != OutsideData && |vs| > 1 && Printable(Array(vs)) && Printable(Array(vs[1..]))
    requires Regular(o, vs[0]) && IsGood(vs[0]) && Leak(vs[0]) < depth
    requires WrongItems(Parse(o, Builder(ArrayCore(InValues, acc + [Reparsed(vs[0])]), depth - Leak(vs[0]), false),
                              ArrayTokensFrom(o, bare, vs[1..], rest)), acc + [Reparsed(vs[0])], vs[1..])
    ensures WrongItems(Parse(o, Builder(ArrayCore(st, acc), depth, false), ArrayTokensFrom(o, bare, vs, rest)), acc, vs)
  {
    FirstOfMany(o, bare, vs, acc, st, depth, rest);
    ReparsedEqual(o, vs[0]);
    LaterItemsWrong(Parse(o, Builder(ArrayCore(st, acc), depth, false), ArrayTokensFrom(o, bare, vs, rest)),
                    acc, Reparsed(vs[0]), vs);
  }

  /** Items that are not all good, or too full of nils, do not come back. */
  lemma {:induction false} BadItems(o: Options, bare: bool, vs: seq<Value>, acc: seq<Value>, st: ArrayState, depth: nat,
                                    rest: seq<Token>)
    requires st != OutsideData && Regular(o, Array(vs)) && Printable(Array(vs)) && depth > 0
    requires !(ItemsGood(vs) && LeaksBelow(vs, depth))
    ensures WrongItems(Parse(o, Builder(ArrayCore(st, acc), depth, false), ArrayTokensFrom(o, bare, vs, rest)), acc, vs)
    decreases vs, 2
  {
    FirstIsRegular(o, vs);
    var v, more := vs[0], vs[1..];
    if !IsGood(v) {
      BadValue(o, bare, v, false, ArrayTokensFrom(o, bare, more, rest));
      SplitFirst(o, bare, vs, rest);
      BadItem(o, bare, vs, acc, st, depth, ArrayTokensFrom(o, bare, more, rest));
    } else if |vs| == 1 {
      OneItemFits(vs, depth);
    } else if Leak(v) < depth {
      BadRest(o, bare, vs, acc, st, depth, rest);
    } else {
      StopsAtFirst(o, bare, vs, acc, st, depth, rest);
    }
  }

  lemma {:induction false} BadRest(o: Options, bare: bool, vs: seq<Value>, acc: seq<Value>, st: ArrayState, depth: nat,
                                   rest: seq<Token>)
    requires st != OutsideData && |vs| > 1 && Printable(Array(vs)) && Regular(o, vs[0]) && IsGood(vs[0])
    requires Regular(o, Array(vs[1..])) && Printable(Array(vs[1..])) && Leak(vs[0]) < depth
    requires !(ItemsGood(vs) && LeaksBelow(vs, depth))
    ensures WrongItems(Parse(o, Builder(ArrayCore(st, acc), depth, false), ArrayTokensFrom(o, bare, vs, rest)), acc, vs)
    decreases vs, 1
  {
    RestIsBad(vs, depth);
    BadItems(o, bare, vs[1..], acc + [Reparsed(vs[0])], InValues, depth - Leak(vs[0]), rest);
    RestIsWrong(o, bare, vs, acc, st, depth, rest);
  }

  // ----- Structs ------------------------------------------------------------------

  ghost predicate LosesMembers(r: Outcome, n: nat) {
    r.Done? && r.builder.core.StructCore? && |r.builder.core.members| < n
  }

  /** A value that leaks two end tags or more keeps its member from being stored. */
  lemma MemberNotStored(o: Options, bare: bool, k: string, v: Value, acc: seq<Entry<Value>>,
                        name: string, value: Value, after: seq<Token>)
    requires Printable(v) && Regular(o, v) && NilsFit(v) && NamesReadable(v)
    requires Leak(v) >= 2 && !AllXmlSpace(k)
    ensures LosesMembers(Parse(o, InStruct(OutsideMember, name, value, acc, 1), Member(o, bare, k, v) + after), |acc| + 1)
  {
    var closing := [Close(MemberTag)] + after;
    var toks := Content(o, bare, v) + ([Close(ValueTag)] + closing);
    MemberTokens(o, bare, k, v, after);
    ValueParses(o, bare, v, false, closing);
    var ends :| Ends(ends, Leak(v)) &&
      Parse(o, Start(NEW_VALUE, false), toks).rest == ends + ([Close(ValueTag)] + closing);
    NotStoredFrom(o, k, acc, name, value, toks, ends, closing);
  }

  lemma NotStoredFrom(o: Options, k: string, acc: seq<Entry<Value>>, name: string, value: Value, toks: seq<Token>,
                      ends: seq<Token>, closing: seq<Token>)
    requires AreEnds(ends) && |ends| >= 2 && k != "" && !AllXmlSpace(k)
    requires var sub := Parse(o, Start(NEW_VALUE, false), toks); sub.Done? && sub.rest == ends + ([Close(ValueTag)] + closing)
    ensures LosesMembers(Parse(o, InStruct(OutsideMember, name, value, acc, 1),
                               [Open(MemberTag)] + (Leaf(NameTag, k) + ([Open(ValueTag)] + toks))), |acc| + 1)
  {
    MemberReads(o, k, acc, name, value, 1, toks);
    var w := OrEmpty(Parse(o, Start(NEW_VALUE, false), toks).builder.core.got);
    EnoughEnds(o, StructCore(ValueRead, k, w, acc), 3, ends, closing);
  }

  /** The members before the last leak nothing, and the last one end tag at most. */
  predicate MembersFit(ms: seq<Entry<Value>>) {
    forall i :: 0 <= i < |ms| ==> Leak(ms[i].value) <= if i + 1 < |ms| then 0 else 1
  }

  lemma FitFromRest(ms: seq<Entry<Value>>)
    requires ms != [] && Leak(ms[0].value) == 0 && MembersFit(ms[1..])
    ensures MembersFit(ms)
  {
    forall i | 0 <= i < |ms| ensures Leak(ms[i].value) <= if i + 1 < |ms| then 0 else 1 {
      assert i > 0 ==> ms[i] == ms[1..][i - 1];
    }
  }

  lemma {:induction false} PlainMembersLength(ms: seq<Entry<Value>>)
    ensures |PlainMembers(ms)| == |ms|
  {
    if ms != [] {
      PlainMembersLength(ms[1..]);
    }
  }

  /** Members that were read are not what stood there after these. */
  ghost predicate MembersDiffer(got: seq<Entry<Value>>, acc: seq<Entry<Value>>, ms: seq<Entry<Value>>) {
    PlainMembers(got) != PlainMembers(acc) + PlainMembers(ms)
  }

  ghost predicate WrongMembers(r: Outcome, acc: seq<Entry<Value>>, ms: seq<Entry<Value>>) {
    r.Done? ==> r.builder.core.StructCore? && MembersDiffer(r.builder.core.members, acc, ms)
  }

  lemma LostMembersDiffer(got: seq<Entry<Value>>, acc: seq<Entry<Value>>, ms: seq<Entry<Value>>)
    requires |got| < |acc| + |ms|
    ensures MembersDiffer(got, acc, ms)
  {
    PlainMembersLength(got);
    PlainMembersLength(acc);
    PlainMembersLength(ms);
  }

  lemma {:induction false} PlainMembersAdd(a: seq<Entry<Value>>, b: seq<Entry<Value>>)
    ensures PlainMembers(a + b) == PlainMembers(a) + PlainMembers(b)
  {
    if a == [] {
      assert a + b == b;
    } else {
      assert (a + b)[1..] == a[1..] + b;
      PlainMembersAdd(a[1..], b);
    }
  }

  lemma LaterMembersDiffer(got: seq<Entry<Value>>, acc: seq<Entry<Value>>, w: Value, ms: seq<Entry<Value>>)
    requires ms != [] && Plain(w) == Plain(ms[0].value) && MembersDiffer(got, acc + [Entry(ms[0].key, w)], ms[1..])
    ensures MembersDiffer(got, acc, ms)
  {
    var e: Entry<Value> := Entry(ms[0].key, w);
    PlainMembersAdd(acc, [e]);
    var one := [e];
    assert one[1..] == [] && PlainMembers(one) == [Entry(e.key, Plain(w))];
    Associates(PlainMembers(acc), PlainMembers([e]), PlainMembers(ms[1..]));
    assert PlainMembers(ms) == PlainMembers([e]) + PlainMembers(ms[1..]);
  }

  lemma {:induction false} PlainFind(ms: seq<Entry<Value>>, k: string)
    ensures Find(PlainMembers(ms), k) ==
            (match Find(ms, k) case None => None case Some(v) => Some(Plain(v)))
  {
    if ms != [] {
      PlainFind(ms[1..], k);
    }
  }

  lemma {:induction false} PlainWeight(v: Value)
    ensures Accounting.Weight(Plain(v)) == Accounting.Weight(v)
    decreases v, 1
  {
    match v
    case Struct(ms) => PlainMembersWeight(ms);
    case Array(vs) => PlainItemsWeight(vs);
    case _ =>
  }

  lemma {:induction false} PlainMembersWeight(ms: seq<Entry<Value>>)
    ensures Accounting.MembersWeight(PlainMembers(ms)) == Accounting.MembersWeight(ms)
    decreases ms, 0
  {
    if ms != [] {
      PlainWeight(ms[0].value);
      PlainMembersWeight(ms[1..]);
    }
  }

  lemma {:induction false} PlainItemsWeight(vs: seq<Value>)
    ensures Accounting.ItemsWeight(PlainItems(vs)) == Accounting.ItemsWeight(vs)
    decreases vs, 0
  {
    if vs != [] {
      PlainWeight(vs[0]);
      PlainItemsWeight(vs[1..]);
    }
  }

  lemma {:induction false} MembersWeightAdd(a: seq<Entry<Value>>, b: seq<Entry<Value>>)
    ensures Accounting.MembersWeight(a + b) == Accounting.MembersWeight(a) + Accounting.MembersWeight(b)
  {
    if a == [] {
      assert a + b == b;
    } else {
      assert (a + b)[1..] == a[1..] + b;
      MembersWeightAdd(a[1..], b);
    }
  }

  /** What is the same, up to the text of binary data, weighs the same. */
  lemma LighterMembersDiffer(got: seq<Entry<Value>>, acc: seq<Entry<Value>>, ms: seq<Entry<Value>>)
    requires Accounting.MembersWeight(got) < Accounting.MembersWeight(acc) + Accounting.MembersWeight(ms)
    ensures MembersDiffer(got, acc, ms)
  {
    PlainMembersAdd(acc, ms);
    MembersWeightAdd(acc, ms);
    PlainMembersWeight(got);
    PlainMembersWeight(acc + ms);
  }

  /** What is the same, up to the text of binary data, finds the same. */
  lemma ChangedMembersDiffer(got: seq<Entry<Value>>, acc: seq<Entry<Value>>, ms: seq<Entry<Value>>)
    requires ms != [] && Ordered(acc) && Ordered(ms) && Before(acc, ms)
    requires Find(got, ms[0].key).Some? ==> Plain(Find(got, ms[0].key).value) != Plain(ms[0].value)
    ensures MembersDiffer(got, acc, ms)
  {
    var all := acc + ms;
    assert all[|acc|] == ms[0];
    PlainMembersAdd(acc, ms);
    FindMember(all, |acc|);
    PlainFind(all, ms[0].key);
    PlainFind(got, ms[0].key);
  }

  lemma NotFoundYet(acc: seq<Entry<Value>>, ms: seq<Entry<Value>>)
    requires ms != [] && Before(acc, ms)
    ensures Find(acc, ms[0].key) == None
  {
    if Find(acc, ms[0].key).Some? {
      FindSome(acc, ms[0].key);
      LessIrreflexive(ms[0].key);
    }
  }

  /** What a struct builder has in front of it behind the start tag of a value: end
      tags for its three levels, and no more weight than the members have. */
  function FromValue(o: Options, bare: bool, ms: seq<Entry<Value>>): seq<Token>
    requires ms != [] && Printable(ms[0].value) && Printable(Struct(ms[1..]))
  {
    Content(o, bare, ms[0].value) + BehindValue(Members(o, bare, ms[1..]))
  }

  lemma FromValueIsEnded(o: Options, bare: bool, ms: seq<Entry<Value>>)
    requires ms != [] && Regular(o, Struct(ms)) && Printable(Struct(ms)) && Printable(Struct(ms[1..]))
    ensures Nesting.Ended(FromValue(o, bare, ms), 3, Accounting.MembersWeight(ms) - 1)
  {
    var v, more := ms[0].value, ms[1..];
    Nesting.FirstMember(o, ms);
    Nesting.MembersAreTidy(o, bare, more);
    Nesting.ContentIsTidy(o, bare, v);
    BehindValueIsEnded(Members(o, bare, more), Accounting.MembersWeight(more));
    Nesting.EndedByMore(Content(o, bare, v), Accounting.Weight(v), BehindValue(Members(o, bare, more)), 3,
                        Accounting.MembersWeight(more));
  }

  function BehindValue(more: seq<Token>): seq<Token> {
    [Close(ValueTag)] + ([Close(MemberTag)] + (more + [Close(StructTag)]))
  }

  lemma BehindValueIsEnded(more: seq<Token>, w: nat)
    requires Nesting.Tidy(more, w)
    ensures Nesting.Ended(BehindValue(more), 3, w)
  {
    var last := [Close(StructTag)];
    Nesting.OneTagEnds(StructTag);
    Nesting.EndedByMore(more, w, last, 1, 0);
    Nesting.EndedByTag(MemberTag, more + last, 1, w);
    Nesting.EndedByTag(ValueTag, [Close(MemberTag)] + (more + last), 2, w);
  }

  lemma FromValueTokens(o: Options, bare: bool, ms: seq<Entry<Value>>, rest: seq<Token>)
    requires ms != [] && Printable(Struct(ms)) && Printable(ms[0].value) && Printable(Struct(ms[1..]))
    ensures FromValue(o, bare, ms) + rest ==
            Content(o, bare, ms[0].value) + ([Close(ValueTag)] + ([Close(MemberTag)] + StructTokensFrom(o, bare, ms[1..], rest)))
    ensures StructTokensFrom(o, bare, ms, rest) ==
            [Open(MemberTag)] + (Leaf(NameTag, ms[0].key) + ([Open(ValueTag)] + (FromValue(o, bare, ms) + rest)))
  {
    var more := Members(o, bare, ms[1..]);
    Associates(more, [Close(StructTag)], rest);
    MembersTokens(o, bare, ms, [Close(StructTag)] + rest);
    MemberTokens(o, bare, ms[0].key, ms[0].value, StructTokensFrom(o, bare, ms[1..], rest));
    FromValueSplit(Content(o, bare, ms[0].value), more, rest);
  }

  lemma FromValueSplit(content: seq<Token>, more: seq<Token>, rest: seq<Token>)
    ensures content + BehindValue(more) + rest ==
            content + ([Close(ValueTag)] + ([Close(MemberTag)] + (more + ([Close(StructTag)] + rest))))
  {
  }

  /** The outcome once a member value has been read as something else. */
  lemma SettledDiffers(o: Options, ms: seq<Entry<Value>>, acc: seq<Entry<Value>>, w: Value, own: seq<Token>, rest: seq<Token>)
    requires ms != [] && Ordered(acc) && Ordered(ms) && Before(acc, ms) && Plain(w) != Plain(ms[0].value)
    requires Accounting.Orderly(own) && Accounting.Excess(own) >= 3
    requires Accounting.Weight(w) + Accounting.Opened(own) < Accounting.MembersWeight(ms)
    ensures WrongMembers(Parse(o, InStruct(ValueRead, ms[0].key, w, acc, 3), own + rest), acc, ms)
  {
    var k := ms[0].key;
    NotFoundYet(acc, ms);
    Accounting.MemberSettles(o, InStruct(ValueRead, k, w, acc, 3), own, rest, k, w, acc);
    var r := Parse(o, InStruct(ValueRead, k, w, acc, 3), own + rest);
    if r.Done? {
      var got := r.builder.core.members;
      if Find(got, k) == None || Find(got, k) == Some(w) {
        ChangedMembersDiffer(got, acc, ms);
      } else {
        LighterMembersDiffer(got, acc, ms);
      }
    }
  }

  /** What a sub-build leaves for the struct builder around it. */
  lemma LeftForStruct(own: seq<Token>, rest: seq<Token>, sub: Outcome, weight: nat)
    requires Nesting.Ended(own, 3, weight) && sub.Done? && sub.builder.core.ValueCore?
    requires Accounting.Confined(Start(NEW_VALUE, false), own, rest, sub)
    ensures Accounting.Within(sub.rest, own, rest)
    ensures var left := Accounting.Unread(sub.rest, own, rest);
      && sub.rest == left + rest && Accounting.Orderly(left) && Accounting.Excess(left) >= 3
      && Accounting.Weight(OrEmpty(sub.builder.core.got)) + Accounting.Opened(left) <= weight
  {
    Accounting.OrderlyTail(own, |own| + |rest| - |sub.rest|);
  }

  /** A member whose value does not come back makes the struct wrong, whatever is
      made of the tokens behind it. */
  lemma BadMember(o: Options, bare: bool, ms: seq<Entry<Value>>, acc: seq<Entry<Value>>, name: string, value: Value,
                  rest: seq<Token>)
    requires ms != [] && Regular(o, Struct(ms)) && Printable(Struct(ms)) && Printable(Struct(ms[1..]))
    requires Ordered(acc) && Before(acc, ms)
    requires !Gives(Parse(o, Start(NEW_VALUE, false), FromValue(o, bare, ms) + rest), ms[0].value)
    ensures WrongMembers(Parse(o, InStruct(OutsideMember, name, value, acc, 1), StructTokensFrom(o, bare, ms, rest)), acc, ms)
  {
    var k, own := ms[0].key, FromValue(o, bare, ms);
    FromValueTokens(o, bare, ms, rest);
    MemberReads(o, k, acc, name, value, 1, own + rest);
    FromValueIsEnded(o, bare, ms);
    BadSubBuild(o, ms, acc, own, rest);
  }

  lemma BadSubBuild(o: Options, ms: seq<Entry<Value>>, acc: seq<Entry<Value>>, own: seq<Token>, rest: seq<Token>)
    requires ms != [] && Ordered(ms) && Ordered(acc) && Before(acc, ms)
    requires Nesting.Ended(own, 3, Accounting.MembersWeight(ms) - 1)
    requires !Gives(Parse(o, Start(NEW_VALUE, false), own + rest), ms[0].value)
    ensures var sub := Parse(o, Start(NEW_VALUE, false), own + rest);
      sub.Done? ==>
        WrongMembers(Parse(o, InStruct(ValueRead, ms[0].key, OrEmpty(sub.builder.core.got), acc, 3), sub.rest), acc, ms)
  {
    var sub := Parse(o, Start(NEW_VALUE, false), own + rest);
    if sub.Done? {
      Accounting.ParseConfined(o, Start(NEW_VALUE, false), own, rest);
      LeftForStruct(own, rest, sub, Accounting.MembersWeight(ms) - 1);
      SettledDiffers(o, ms, acc, OrEmpty(sub.builder.core.got), Accounting.Unread(sub.rest, own, rest), rest);
    }
  }

  lemma GoodMembersFromRest(ms: seq<Entry<Value>>)
    requires ms != [] && !AllXmlSpace(ms[0].key) && IsGood(ms[0].value) && MembersGood(ms[1..])
    ensures MembersGood(ms)
  {
    forall i | 0 <= i < |ms| ensures !AllXmlSpace(ms[i].key) && IsGood(ms[i].value) {
      assert i > 0 ==> ms[i] == ms[1..][i - 1];
    }
  }

  lemma StructIsGood(ms: seq<Entry<Value>>)
    requires MembersGood(ms) && MembersFit(ms)
    ensures IsGood(Struct(ms))
  {
  }

  lemma OneMemberFits(ms: seq<Entry<Value>>)
    requires |ms| == 1 && !AllXmlSpace(ms[0].key) && IsGood(ms[0].value) && Leak(ms[0].value) <= 1
    ensures MembersGood(ms) && MembersFit(ms)
  {
  }

  /** A readable member with a leak too many. */
  lemma LeakyMember(o: Options, bare: bool, ms: seq<Entry<Value>>, acc: seq<Entry<Value>>, name: string, value: Value,
                    rest: seq<Token>)
    requires ms != [] && Printable(Struct(ms)) && Ordered(ms) && Before(acc, ms)
    requires Regular(o, ms[0].value) && NilsFit(ms[0].value) && NamesReadable(ms[0].value)
    requires ms[0].key != "" && !AllXmlSpace(ms[0].key)
    requires Leak(ms[0].value) >= 2 || (Leak(ms[0].value) == 1 && |ms| > 1)
    ensures WrongMembers(Parse(o, InStruct(OutsideMember, name, value, acc, 1), StructTokensFrom(o, bare, ms, rest)), acc, ms)
  {
    var k, v, after := ms[0].key, ms[0].value, StructTokensFrom(o, bare, ms[1..], rest);
    var r := Parse(o, InStruct(OutsideMember, name, value, acc, 1), StructTokensFrom(o, bare, ms, rest));
    MembersTokens(o, bare, ms, [Close(StructTag)] + rest);
    if Leak(v) >= 2 {
      MemberNotStored(o, bare, k, v, acc, name, value, after);
    } else {
      MemberParses(o, bare, k, v, acc, name, value, 1, after);
      MoveFirst(acc, ms, Reparsed(v));
    }
    LostMembersDiffer(r.builder.core.members, acc, ms);
  }

  /** Members that are not all good, or leak too much, do not come back. */
  lemma {:induction false} BadMembers(o: Options, bare: bool, ms: seq<Entry<Value>>, acc: seq<Entry<Value>>,
                                      name: string, value: Value, rest: seq<Token>)
    requires Regular(o, Struct(ms)) && Printable(Struct(ms)) && Ordered(acc) && Before(acc, ms)
    requires !(MembersGood(ms) && MembersFit(ms))
    ensures WrongMembers(Parse(o, InStruct(OutsideMember, name, value, acc, 1), StructTokensFrom(o, bare, ms, rest)), acc, ms)
    decreases ms, 2
  {
    Nesting.FirstMember(o, ms);
    var k, v := ms[0].key, ms[0].value;
    if AllXmlSpace(k) {
      FromValueTokens(o, bare, ms, rest);
      MemberReads(o, k, acc, name, value, 1, FromValue(o, bare, ms) + rest);
    } else if !IsGood(v) {
      FromValueTokens(o, bare, ms, rest);
      BadValue(o, bare, v, false, [Close(MemberTag)] + StructTokensFrom(o, bare, ms[1..], rest));
      BadMember(o, bare, ms, acc, name, value, rest);
    } else if |ms| == 1 && Leak(v) <= 1 {
      OneMemberFits(ms);
    } else if Leak(v) == 0 {
      BadMoreMembers(o, bare, ms, acc, name, value, rest);
    } else {
      LeakyMember(o, bare, ms, acc, name, value, rest);
    }
  }

  lemma {:induction false} BadMoreMembers(o: Options, bare: bool, ms: seq<Entry<Value>>, acc: seq<Entry<Value>>,
                                          name: string, value: Value, rest: seq<Token>)
    requires ms != [] && Printable(Struct(ms)) && Ordered(ms) && Ordered(acc) && Before(acc, ms)
    requires Regular(o, Struct(ms[1..])) && Printable(Struct(ms[1..]))
    requires Regular(o, ms[0].value) && IsGood(ms[0].value) && Leak(ms[0].value) == 0
    requires ms[0].key != "" && !AllXmlSpace(ms[0].key)
    requires !(MembersGood(ms) && MembersFit(ms))
    ensures WrongMembers(Parse(o, InStruct(OutsideMember, name, value, acc, 1), StructTokensFrom(o, bare, ms, rest)), acc, ms)
    decreases ms, 1
  {
    var k, w := ms[0].key, Reparsed(ms[0].value);
    var r := Parse(o, InStruct(OutsideMember, name, value, acc, 1), StructTokensFrom(o, bare, ms, rest));
    if MembersGood(ms[1..]) && MembersFit(ms[1..]) {
      GoodMembersFromRest(ms);
      FitFromRest(ms);
    }
    MoveFirst(acc, ms, w);
    OrderedAppend(acc, ms, w);
    BadMembers(o, bare, ms[1..], acc + [Entry(k, w)], k, w, rest);
    MemberGoesOn(o, bare, ms, acc, name, value, 1, rest);
    ReparsedEqual(o, ms[0].value);
    if r.Done? {
      LaterMembersDiffer(r.builder.core.members, acc, w, ms);
    }
  }

  lemma OrderedAppend(acc: seq<Entry<Value>>, ms: seq<Entry<Value>>, w: Value)
    requires ms != [] && Ordered(acc) && Before(acc, ms)
    ensures Ordered(acc + [Entry(ms[0].key, w)])
  {
  }

  // ----- Values -------------------------------------------------------------------

  lemma WrongStruct(o: Options, bare: bool, ms: seq<Entry<Value>>, flat: bool, tail: seq<Token>)
    requires Printable(Struct(ms))
    requires WrongMembers(Parse(o, InStruct(OutsideMember, "", Nil, [], 1), StructTokensFrom(o, bare, ms, tail)), [], ms)
    ensures !Gives(Parse(o, Start(NEW_VALUE, flat), Content(o, bare, Struct(ms)) + tail), Struct(ms))
  {
    StructValue(o, bare, ms, flat, tail);
    assert PlainMembers([]) + PlainMembers(ms) == PlainMembers(ms);
  }

  lemma WrongArray(o: Options, bare: bool, vs: seq<Value>, flat: bool, tail: seq<Token>)
    requires Printable(Array(vs))
    requires WrongItems(Parse(o, Builder(ArrayCore(InData, []), 2, false), ArrayTokensFrom(o, bare, vs, tail)), [], vs)
    ensures !Gives(Parse(o, Start(NEW_VALUE, flat), Content(o, bare, Array(vs)) + tail), Array(vs))
  {
    ArrayValue(o, bare, vs, flat, tail);
    assert PlainItems([]) + PlainItems(vs) == PlainItems(vs);
  }

  /** A value that is not good does not come back: either its sub-build throws, or it
      gives something else. */
  lemma {:induction false} BadValue(o: Options, bare: bool, v: Value, flat: bool, rest: seq<Token>)
    requires Regular(o, v) && Printable(v) && !IsGood(v)
    ensures !Gives(Parse(o, Start(NEW_VALUE, flat), Content(o, bare, v) + ([Close(ValueTag)] + rest)), v)
    decreases v, 1
  {
    var tail := [Close(ValueTag)] + rest;
    match v
    case Struct(ms) =>
      if MembersGood(ms) && MembersFit(ms) {
        StructIsGood(ms);
      }
      BadMembers(o, bare, ms, [], "", Nil, tail);
      WrongStruct(o, bare, ms, flat, tail);
    case Array(vs) =>
      if ItemsGood(vs) && LeaksBelow(vs, 2) {
        ArrayIsGood(vs);
      }
      BadItems(o, bare, vs, [], InData, 2, tail);
      WrongArray(o, bare, vs, flat, tail);
    case _ =>
      ValueParses(o, bare, v, flat, rest);
      ReparsedEqual(o, v);
  }

  /** A value of any depth comes back if and only if it is good. */
  lemma ValueComesBack(o: Options, bare: bool, v: Value, flat: bool, rest: seq<Token>)
    requires Regular(o, v) && Printable(v)
    ensures Gives(Parse(o, Start(NEW_VALUE, flat), Content(o, bare, v) + ([Close(ValueTag)] + rest)), v) <==> IsGood(v)
  {
    if IsGood(v) {
      ValueParses(o, bare, v, flat, rest);
      ReparsedEqual(o, v);
    } else {
      BadValue(o, bare, v, flat, rest);
    }
  }
}
