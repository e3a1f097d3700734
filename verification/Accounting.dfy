/** What any parse of tokens that are nested as the printer nests them must keep,
    whether it reads them as they were meant or not: no builder reads past its own
    end tag, and nothing is stored that was not opened. */
module Accounting {
  import opened Text
  import opened OrderedMap
  import opened Values
  import opened Xml
  import opened Builders

  // ----- Counting tokens ------------------------------------------------------

  /** End tags less start tags. */
  function Excess(toks: seq<Token>): int {
    if toks == [] then 0
    else (if toks[0].Close? then 1 else if toks[0].Open? then -1 else 0) + Excess(toks[1..])
  }

  function TagWeight(t: Tag): nat {
    if t == ValueTag || t == StructTag || t == ArrayTag then 1 else 0
  }

  /** The start tags of values, structs and arrays. */
  function Opened(toks: seq<Token>): nat {
    if toks == [] then 0
    else (if toks[0].Open? then TagWeight(toks[0].tag) else 0) + Opened(toks[1..])
  }

  /** Every end of the tokens closes more than it opens. */
  ghost predicate Closing(toks: seq<Token>) {
    forall i :: 0 <= i < |toks| ==> Excess(toks[i..]) >= 1
  }

  /** No name is empty. */
  predicate Named(toks: seq<Token>) {
    forall i :: 0 <= i < |toks| && toks[i] == Open(NameTag) ==> i + 1 < |toks| && !toks[i + 1].Close?
  }

  ghost predicate Orderly(toks: seq<Token>) {
    Closing(toks) && Named(toks)
  }

  lemma OrderlyTail(toks: seq<Token>, n: nat)
    requires Orderly(toks) && n <= |toks|
    ensures Orderly(toks[n..])
  {
    var tail := toks[n..];
    forall i | 0 <= i < |tail| ensures Excess(tail[i..]) >= 1 {
      assert tail[i..] == toks[n + i..];
    }
  }

  // ----- Weights ---------------------------------------------------------------

  function Weight(v: Value): nat
    decreases v
  {
    match v
    case Struct(ms) => 1 + MembersWeight(ms)
    case Array(vs) => 1 + ItemsWeight(vs)
    case _ => 0
  }

  function MembersWeight(ms: seq<Entry<Value>>): nat
    decreases ms
  {
    if ms == [] then 0 else 1 + Weight(ms[0].value) + MembersWeight(ms[1..])
  }

  function ItemsWeight(vs: seq<Value>): nat
    decreases vs
  {
    if vs == [] then 0 else 1 + Weight(vs[0]) + ItemsWeight(vs[1..])
  }

  function CoreWeight(core: Core): nat {
    match core
    case ValueCore(_, got) => Weight(OrEmpty(got))
    case StructCore(s, _, value, ms) => MembersWeight(ms) + if s == ValueRead then 1 + Weight(value) else 0
    case ArrayCore(_, items) => ItemsWeight(items)
    case _ => 0
  }

  lemma {:induction false} ItemsWeightAppend(vs: seq<Value>, v: Value)
    ensures ItemsWeight(vs + [v]) == ItemsWeight(vs) + 1 + Weight(v)
  {
    if vs == [] {
      assert [v][1..] == [];
    } else {
      assert (vs + [v])[1..] == vs[1..] + [v];
      ItemsWeightAppend(vs[1..], v);
    }
  }

  lemma {:induction false} PutWeight(ms: seq<Entry<Value>>, k: string, v: Value)
    ensures MembersWeight(Put(ms, k, v)) <= MembersWeight(ms) + 1 + Weight(v)
  {
    if ms != [] {
      PutWeight(ms[1..], k, v);
    }
  }

  /** A member that takes the place of another loses the weight of that one. */
  lemma {:induction false} PutReplaces(ms: seq<Entry<Value>>, k: string, v: Value)
    requires Ordered(ms) && Has(ms, k)
    ensures MembersWeight(Put(ms, k, v)) < MembersWeight(ms) + 1 + Weight(v)
  {
    if ms[0].key != k {
      if Less(k, ms[0].key) {
        forall i | 0 <= i < |ms| ensures Less(k, ms[i].key) {
          if i > 0 {
            LessTransitive(k, ms[0].key, ms[i].key);
          }
        }
        FindAbsent(ms, k);
      } else {
        PutReplaces(ms[1..], k, v);
      }
    }
  }

  // ----- Confinement ------------------------------------------------------------

  /** What is left are an end of `own` and then the rest. */
  ghost predicate Within(left: seq<Token>, own: seq<Token>, rest: seq<Token>) {
    |rest| <= |left| <= |own| + |rest| && left == Unread(left, own, rest) + rest
  }

  function Unread(left: seq<Token>, own: seq<Token>, rest: seq<Token>): seq<Token>
    requires |rest| <= |left| <= |own| + |rest|
  {
    own[|own| + |rest| - |left|..]
  }

  lemma WithinTail(left: seq<Token>, own: seq<Token>, n: nat, rest: seq<Token>)
    requires n <= |own| && Within(left, own[n..], rest)
    ensures Within(left, own, rest) && Unread(left, own[n..], rest) == Unread(left, own, rest)
  {
  }

  /** The tokens of the builder are long enough for it. */
  ghost predicate Suffices(b: Builder, own: seq<Token>) {
    && !b.wantExit && Orderly(own)
    && (b.core.ValueCore? ==> b.depth < Excess(own))
    && (b.core.StructCore? || b.core.ArrayCore? ==> 1 <= b.depth <= Excess(own))
    && (b.core.ValueCore? || b.core.StructCore? || b.core.ArrayCore?)
  }

  /** A result that stays within the tokens, leaves end tags for the levels above,
      and holds no more than what was opened. */
  ghost predicate Confined(b: Builder, own: seq<Token>, rest: seq<Token>, r: Outcome) {
    r.Done? ==>
      && Within(r.rest, own, rest)
      && Excess(Unread(r.rest, own, rest)) >= Excess(own) - b.depth
      && CoreWeight(r.builder.core) + Opened(Unread(r.rest, own, rest)) <= CoreWeight(b.core) + Opened(own)
  }

  /** The same in the middle of a start tag, with a weight of its own. */
  ghost predicate ConfinedVisit(b: Builder, t: Tag, own: seq<Token>, rest: seq<Token>, r: Outcome) {
    r.Done? ==>
      && r.builder.depth == b.depth + 1 && SameKind(b.core, r.builder.core)
      && Within(r.rest, own, rest)
      && Excess(Unread(r.rest, own, rest)) >= Excess(own) - (if r.builder.wantExit then 1 else 0)
      && CoreWeight(r.builder.core) + Opened(Unread(r.rest, own, rest)) <= CoreWeight(b.core) + TagWeight(t) + Opened(own)
  }

  lemma VisitSettles(o: Options, b: Builder, t: Tag, toks: seq<Token>, core: Core, exit: bool)
    requires Change(b.core, t).Some? && ActionIn(Change(b.core, t).value) == Settle(core, exit)
    ensures VisitElement(o, b, t, toks) == Done(Builder(core, b.depth + 1, b.wantExit || exit), toks)
  {
  }

  lemma SettleWeight(before: Core, t: Tag, core: Core, exit: bool)
    requires before.ValueCore? || before.StructCore? || before.ArrayCore?
    requires Change(before, t).Some? && ActionIn(Change(before, t).value) == Settle(core, exit)
    ensures SameKind(before, core) && CoreWeight(core) <= CoreWeight(before)
  {
  }

  lemma SettleConfined(o: Options, b: Builder, t: Tag, own: seq<Token>, rest: seq<Token>)
    requires Suffices(b, own) && own[0] == Open(t)
    requires Change(b.core, t).Some? && ActionIn(Change(b.core, t).value).Settle?
    ensures ConfinedVisit(b, t, own[1..], rest, VisitElement(o, b, t, own[1..] + rest))
  {
    var a := ActionIn(Change(b.core, t).value);
    VisitSettles(o, b, t, own[1..] + rest, a.core, a.wantExit);
    SettleWeight(b.core, t, a.core, a.wantExit);
    AllUnread(b, t, own[1..], rest, a.core, a.wantExit);
  }

  lemma AllUnread(b: Builder, t: Tag, own: seq<Token>, rest: seq<Token>, core: Core, exit: bool)
    requires SameKind(b.core, core) && CoreWeight(core) <= CoreWeight(b.core)
    ensures ConfinedVisit(b, t, own, rest, Done(Builder(core, b.depth + 1, exit), own + rest))
  {
    assert Unread(own + rest, own, rest) == own;
  }

  /** Only a member name is text that is taken at once. */
  lemma TakesName(core: Core, t: Tag)
    requires core.ValueCore? || core.StructCore? || core.ArrayCore?
    requires Change(core, t).Some? && ActionIn(Change(core, t).value).TakeText?
    ensures t == NameTag && core.StructCore? && core.sstate == InMember && Change(core, t).value == core.(sstate := NameRead)
  {
  }

  lemma ReadsOwn(own: seq<Token>, rest: seq<Token>)
    requires own != [] && !own[0].Close?
    ensures ReadData(own + rest).Data? ==> own[0].Chars? && ReadData(own + rest).rest == own[1..] + rest
  {
    assert (own + rest)[0] == own[0] && (own + rest)[1..] == own[1..] + rest;
  }

  lemma VisitTakesText(o: Options, b: Builder, t: Tag, toks: seq<Token>)
    requires Change(b.core, t).Some? && ActionIn(Change(b.core, t).value).TakeText?
    ensures VisitElement(o, b, t, toks) ==
      match ReadData(toks)
      case NoData(e) => Fail(e)
      case Data(s, rest) => Done(Builder(WithText(Change(b.core, t).value, s), b.depth + 1, b.wantExit), rest)
  {
  }

  lemma TextUnread(b: Builder, t: Tag, own: seq<Token>, rest: seq<Token>, core: Core)
    requires own != [] && own[0].Chars? && SameKind(b.core, core) && CoreWeight(core) <= CoreWeight(b.core)
    ensures ConfinedVisit(b, t, own, rest, Done(Builder(core, b.depth + 1, false), own[1..] + rest))
  {
    assert Unread(own[1..] + rest, own, rest) == own[1..];
  }

  lemma TakeTextConfined(o: Options, b: Builder, t: Tag, own: seq<Token>, rest: seq<Token>)
    requires Suffices(b, own) && own[0] == Open(t)
    requires Change(b.core, t).Some? && ActionIn(Change(b.core, t).value).TakeText?
    ensures ConfinedVisit(b, t, own[1..], rest, VisitElement(o, b, t, own[1..] + rest))
  {
    TakesName(b.core, t);
    NameIsNotClosed(own);
    var data := ReadData(own[1..] + rest);
    ReadsOwn(own[1..], rest);
    VisitTakesText(o, b, t, own[1..] + rest);
    if data.Data? {
      TextUnread(b, t, own[1..], rest, WithText(Change(b.core, t).value, data.text));
    }
  }

  lemma NameIsNotClosed(own: seq<Token>)
    requires Named(own) && own != [] && own[0] == Open(NameTag)
    ensures own[1..] != [] && !own[1..][0].Close?
  {
  }

  /** What is made of the result of a sub-build. */
  function Taken(b: Builder, core: Core, sub: Outcome): Outcome {
    match sub
    case Fail(e) => Fail(e)
    case Done(s, rest) =>
      match Absorb(core, s.core)
      case CoreFail(e) => Fail(e)
      case CoreDone(c, exit) => Done(Builder(c, b.depth + 1, b.wantExit || exit), rest)
  }

  lemma VisitTakes(o: Options, b: Builder, t: Tag, toks: seq<Token>, start: Core, flat: bool)
    requires Change(b.core, t).Some? && ActionIn(Change(b.core, t).value) == SubBuild(start, flat)
    ensures VisitElement(o, b, t, toks) == Taken(b, Change(b.core, t).value, Parse(o, Start(start, flat), toks))
  {
  }

  /** What a builder takes over from a sub-builder weighs no more than that held, but
      for the start tag that led to it. */
  lemma AbsorbWeight(before: Core, t: Tag, start: Core, flat: bool, sub: Core)
    requires before.ValueCore? || before.StructCore? || before.ArrayCore?
    requires Change(before, t).Some? && ActionIn(Change(before, t).value) == SubBuild(start, flat) && SameKind(start, sub)
    ensures TagWeight(t) == 1 && CoreWeight(start) == 0
    ensures start.ValueCore? || start.StructCore? || start.ArrayCore?
    ensures start.ValueCore? <==> !flat
    ensures var a := Absorb(Change(before, t).value, sub);
      a.CoreDone? ==>
        SameKind(before, a.core) && a.wantExit == flat && CoreWeight(a.core) <= CoreWeight(before) + 1 + CoreWeight(sub)
  {
    if before.ArrayCore? {
      ItemsWeightAppend(before.items, OrEmpty(sub.got));
    }
  }

  lemma TakenConfined(b: Builder, t: Tag, own: seq<Token>, rest: seq<Token>, start: Core, flat: bool, sub: Outcome)
    requires b.core.ValueCore? || b.core.StructCore? || b.core.ArrayCore?
    requires Change(b.core, t).Some? && ActionIn(Change(b.core, t).value) == SubBuild(start, flat) && !b.wantExit
    requires Confined(Start(start, flat), own, rest, sub) && (sub.Done? ==> SameKind(start, sub.builder.core))
    ensures ConfinedVisit(b, t, own, rest, Taken(b, Change(b.core, t).value, sub))
  {
    if sub.Done? {
      AbsorbWeight(b.core, t, start, flat, sub.builder.core);
    }
  }

  lemma {:induction false} VisitConfined(o: Options, b: Builder, t: Tag, own: seq<Token>, rest: seq<Token>)
    requires Suffices(b, own) && own[0] == Open(t)
    ensures ConfinedVisit(b, t, own[1..], rest, VisitElement(o, b, t, own[1..] + rest))
    decreases |own|, 0
  {
    if Change(b.core, t).Some? {
      match ActionIn(Change(b.core, t).value)
      case Settle(_, _) => SettleConfined(o, b, t, own, rest);
      case TakeText => TakeTextConfined(o, b, t, own, rest);
      case SubBuild(start, flat) =>
        OrderlyTail(own, 1);
        AbsorbWeight(b.core, t, start, flat, start);
        ParseConfined(o, Start(start, flat), own[1..], rest);
        VisitTakes(o, b, t, own[1..] + rest, start, flat);
        TakenConfined(b, t, own[1..], rest, start, flat, Parse(o, Start(start, flat), own[1..] + rest));
    }
  }

  // ----- The loop ----------------------------------------------------------------

  /** A builder one token on, with what it has not read. */
  ghost predicate Onward(b: Builder, own: seq<Token>, c: Builder, next: seq<Token>) {
    && SameKind(b.core, c.core)
    && Excess(next) - c.depth >= Excess(own) - b.depth
    && CoreWeight(c.core) + Opened(next) <= CoreWeight(b.core) + Opened(own)
  }

  lemma OnwardConfined(b: Builder, own: seq<Token>, c: Builder, n: nat, rest: seq<Token>, r: Outcome)
    requires n <= |own| && Onward(b, own, c, own[n..]) && Confined(c, own[n..], rest, r)
    ensures Confined(b, own, rest, r)
  {
    if r.Done? {
      WithinTail(r.rest, own, n, rest);
    }
  }

  lemma DoneConfined(b: Builder, own: seq<Token>, c: Builder, n: nat, rest: seq<Token>)
    requires n <= |own| && Excess(own[n..]) >= Excess(own) - b.depth
    requires CoreWeight(c.core) + Opened(own[n..]) <= CoreWeight(b.core) + Opened(own)
    ensures Confined(b, own, rest, Done(c, own[n..] + rest))
  {
    assert Unread(own[n..] + rest, own, rest) == own[n..];
  }

  lemma EndedWeight(o: Options, core: Core, t: Tag)
    requires core.ValueCore? || core.StructCore? || core.ArrayCore?
    ensures var e := Ended(o, core, t); e.CoreDone? ==> SameKind(core, e.core) && CoreWeight(e.core) <= CoreWeight(core)
  {
    if core.StructCore? {
      PutWeight(core.members, core.name, core.value);
    }
  }

  lemma TextedWeight(o: Options, core: Core, s: string)
    requires core.ValueCore?
    ensures var e := Texted(o, core, s); e.CoreDone? ==> e.core.ValueCore? && CoreWeight(e.core) <= CoreWeight(core)
  {
  }

  lemma OnwardSuffices(b: Builder, own: seq<Token>, c: Builder, n: nat)
    requires Suffices(b, own) && n <= |own| && Onward(b, own, c, own[n..]) && !c.wantExit
    requires c.core.StructCore? || c.core.ArrayCore? ==> c.depth > 0
    ensures Suffices(c, own[n..])
  {
    OrderlyTail(own, n);
  }

  /** From a token that is read to the end of the parse. */
  lemma {:induction false} ContinueConfined(o: Options, b: Builder, own: seq<Token>, c: Builder, n: nat, rest: seq<Token>)
    requires Suffices(b, own) && 0 < n <= |own|
    requires Onward(b, own, c, own[n..]) && (c.core.StructCore? || c.core.ArrayCore? ==> c.wantExit || c.depth > 0)
    ensures Confined(b, own, rest, Continue(o, c, own[n..] + rest))
    decreases |own|, 1
  {
    if c.wantExit {
      DoneConfined(b, own, c, n, rest);
    } else {
      OnwardSuffices(b, own, c, n);
      ParseConfined(o, c, own[n..], rest);
      OnwardConfined(b, own, c, n, rest, Parse(o, c, own[n..] + rest));
    }
  }

  lemma {:induction false} OpenConfined(o: Options, b: Builder, own: seq<Token>, t: Tag, rest: seq<Token>)
    requires Suffices(b, own) && own[0] == Open(t)
    ensures var v := VisitElement(o, b, t, own[1..] + rest);
      Confined(b, own, rest, if v.Fail? then v else Continue(o, v.builder, v.rest))
    decreases |own|, 2
  {
    VisitConfined(o, b, t, own, rest);
    var v := VisitElement(o, b, t, own[1..] + rest);
    if v.Done? {
      WithinTail(v.rest, own, 1, rest);
      var n := |own| + |rest| - |v.rest|;
      if v.builder.wantExit {
        DoneConfined(b, own, v.builder, n, rest);
      } else {
        ContinueConfined(o, b, own, v.builder, n, rest);
      }
    }
  }

  lemma {:induction false} CloseConfined(o: Options, b: Builder, own: seq<Token>, t: Tag, rest: seq<Token>)
    requires Suffices(b, own) && own[0] == Close(t) && b.depth > 0
    ensures var e := Ended(o, b.core, t);
      e.CoreDone? ==>
        Confined(b, own, rest, Continue(o, Builder(e.core, b.depth - 1, b.depth == 1 || e.wantExit), own[1..] + rest))
    decreases |own|, 2
  {
    EndedWeight(o, b.core, t);
    var e := Ended(o, b.core, t);
    if e.CoreDone? {
      ContinueConfined(o, b, own, Builder(e.core, b.depth - 1, b.depth == 1 || e.wantExit), 1, rest);
    }
  }

  lemma {:induction false} CharsConfined(o: Options, b: Builder, own: seq<Token>, s: string, rest: seq<Token>)
    requires Suffices(b, own) && own[0] == Chars(s) && b.core.ValueCore?
    ensures var e := Texted(o, b.core, s);
      e.CoreDone? ==> Confined(b, own, rest, Continue(o, b.(core := e.core, wantExit := e.wantExit), own[1..] + rest))
    decreases |own|, 2
  {
    TextedWeight(o, b.core, s);
    var e := Texted(o, b.core, s);
    if e.CoreDone? {
      ContinueConfined(o, b, own, b.(core := e.core, wantExit := e.wantExit), 1, rest);
    }
  }

  /** A value, struct or array builder that starts inside orderly tokens, with end
      tags enough for its level, never reads past them, leaves the end tags of the
      levels above, and holds no more values than were opened in what it read. */
  lemma {:induction false} ParseConfined(o: Options, b: Builder, own: seq<Token>, rest: seq<Token>)
    requires Suffices(b, own)
    ensures Confined(b, own, rest, Parse(o, b, own + rest))
    decreases |own|, 3
  {
    assert own != [];
    assert (own + rest)[0] == own[0] && (own + rest)[1..] == own[1..] + rest;
    match own[0]
    case Bad =>
    case Open(t) => OpenConfined(o, b, own, t, rest);
    case Close(t) =>
      if b.depth == 0 {
        assert own == own[0..];
        DoneConfined(b, own, b, 0, rest);
      } else {
        CloseConfined(o, b, own, t, rest);
      }
    case Chars(s) =>
      if b.core.ValueCore? {
        CharsConfined(o, b, own, s, rest);
      } else {
        ContinueConfined(o, b, own, b, 1, rest);
      }
    case Space => ContinueConfined(o, b, own, b, 1, rest);
  }

  // ----- A member, once stored ----------------------------------------------------

  /** The member is there in the end, or weight was lost on the way. */
  ghost predicate KeepsMember(b: Builder, own: seq<Token>, rest: seq<Token>, r: Outcome, k: string, w: Value) {
    r.Done? ==>
      && r.builder.core.StructCore? && Within(r.rest, own, rest)
      && (Find(r.builder.core.members, k) == Some(w) ||
          CoreWeight(r.builder.core) + Opened(Unread(r.rest, own, rest)) < CoreWeight(b.core) + Opened(own))
  }

  ghost predicate Holds(b: Builder, k: string, w: Value) {
    b.core.StructCore? && Ordered(b.core.members) && Find(b.core.members, k) == Some(w)
  }

  lemma OnwardKeeps(
      b: Builder, own: seq<Token>, c: Builder, n: nat, rest: seq<Token>, r: Outcome, k: string, w: Value)
    requires n <= |own| && Onward(b, own, c, own[n..]) && KeepsMember(c, own[n..], rest, r, k, w)
    ensures KeepsMember(b, own, rest, r, k, w)
  {
    if r.Done? {
      WithinTail(r.rest, own, n, rest);
    }
  }

  /** A start tag leaves the members of a struct builder alone. */
  lemma VisitKeepsMembers(o: Options, b: Builder, t: Tag, toks: seq<Token>)
    requires b.core.StructCore?
    ensures var v := VisitElement(o, b, t, toks);
      v.Done? ==> v.builder.core.StructCore? && v.builder.core.members == b.core.members && v.builder.wantExit == b.wantExit
  {
  }

  lemma {:induction false} ContinueKeeps(
      o: Options, b: Builder, own: seq<Token>, c: Builder, n: nat, rest: seq<Token>, k: string, w: Value)
    requires Suffices(b, own) && 0 < n <= |own| && Holds(c, k, w)
    requires Onward(b, own, c, own[n..]) && (c.wantExit || c.depth > 0)
    ensures KeepsMember(b, own, rest, Continue(o, c, own[n..] + rest), k, w)
    decreases |own|, 1
  {
    if c.wantExit {
      assert Unread(own[n..] + rest, own, rest) == own[n..];
    } else {
      OnwardSuffices(b, own, c, n);
      MemberStays(o, c, own[n..], rest, k, w);
      OnwardKeeps(b, own, c, n, rest, Parse(o, c, own[n..] + rest), k, w);
    }
  }

  lemma {:induction false} OpenKeeps(o: Options, b: Builder, own: seq<Token>, t: Tag, rest: seq<Token>, k: string, w: Value)
    requires Suffices(b, own) && own[0] == Open(t) && Holds(b, k, w)
    ensures var v := VisitElement(o, b, t, own[1..] + rest);
      KeepsMember(b, own, rest, if v.Fail? then v else Continue(o, v.builder, v.rest), k, w)
    decreases |own|, 2
  {
    VisitConfined(o, b, t, own, rest);
    VisitKeepsMembers(o, b, t, own[1..] + rest);
    var v := VisitElement(o, b, t, own[1..] + rest);
    if v.Done? {
      WithinTail(v.rest, own, 1, rest);
      ContinueKeeps(o, b, own, v.builder, |own| + |rest| - |v.rest|, rest, k, w);
    }
  }

  lemma {:induction false} CloseKeeps(o: Options, b: Builder, own: seq<Token>, t: Tag, rest: seq<Token>, k: string, w: Value)
    requires Suffices(b, own) && own[0] == Close(t) && Holds(b, k, w)
    ensures var e := Ended(o, b.core, t);
      e.CoreDone? ==>
        KeepsMember(b, own, rest, Continue(o, Builder(e.core, b.depth - 1, b.depth == 1 || e.wantExit), own[1..] + rest), k, w)
    decreases |own|, 2
  {
    EndedWeight(o, b.core, t);
    var e := Ended(o, b.core, t);
    if e.CoreDone? {
      var c := Builder(e.core, b.depth - 1, b.depth == 1 || e.wantExit);
      PutOrdered(b.core.members, b.core.name, b.core.value);
      FindPut(b.core.members, b.core.name, b.core.value, k);
      if Find(c.core.members, k) == Some(w) {
        ContinueKeeps(o, b, own, c, 1, rest, k, w);
      } else {
        PutReplaces(b.core.members, b.core.name, b.core.value);
        ContinueLoses(o, b, own, c, rest);
      }
    }
  }

  /** Weight lost by the first token stays lost. */
  lemma ContinueLoses(o: Options, b: Builder, own: seq<Token>, c: Builder, rest: seq<Token>)
    requires Suffices(b, own) && Onward(b, own, c, own[1..]) && (c.wantExit || c.depth > 0) && c.core.StructCore?
    requires CoreWeight(c.core) + Opened(own[1..]) < CoreWeight(b.core) + Opened(own)
    ensures var r := Continue(o, c, own[1..] + rest);
      r.Done? ==>
        && r.builder.core.StructCore? && Within(r.rest, own, rest)
        && CoreWeight(r.builder.core) + Opened(Unread(r.rest, own, rest)) < CoreWeight(b.core) + Opened(own)
  {
    var r := Continue(o, c, own[1..] + rest);
    if c.wantExit {
      assert Unread(own[1..] + rest, own, rest) == own[1..];
    } else {
      OnwardSuffices(b, own, c, 1);
      ParseConfined(o, c, own[1..], rest);
      if r.Done? {
        WithinTail(r.rest, own, 1, rest);
      }
    }
  }

  /** Whatever a struct builder reads, a member that it has stays as it is, unless
      weight is lost. */
  lemma {:induction false} MemberStays(o: Options, b: Builder, own: seq<Token>, rest: seq<Token>, k: string, w: Value)
    requires Suffices(b, own) && Holds(b, k, w)
    ensures KeepsMember(b, own, rest, Parse(o, b, own + rest), k, w)
    decreases |own|, 3
  {
    assert own != [];
    assert (own + rest)[0] == own[0] && (own + rest)[1..] == own[1..] + rest;
    match own[0]
    case Bad =>
    case Open(t) => OpenKeeps(o, b, own, t, rest, k, w);
    case Close(t) => CloseKeeps(o, b, own, t, rest, k, w);
    case _ => ContinueKeeps(o, b, own, b, 1, rest, k, w);
  }

  /** The member is stored and kept, or never stored, or weight is lost. */
  ghost predicate SettlesMember(b: Builder, own: seq<Token>, rest: seq<Token>, r: Outcome, k: string, w: Value) {
    || (r.Done? && r.builder.core.StructCore? && Find(r.builder.core.members, k) == None)
    || KeepsMember(b, own, rest, r, k, w)
  }

  /** A value that was read for a member is what is stored under its name, if
      anything is. */
  lemma {:induction false} MemberSettles(
      o: Options, b: Builder, own: seq<Token>, rest: seq<Token>, k: string, w: Value, acc: seq<Entry<Value>>)
    requires Suffices(b, own) && b.core == StructCore(ValueRead, k, w, acc) && Ordered(acc) && Find(acc, k) == None
    ensures SettlesMember(b, own, rest, Parse(o, b, own + rest), k, w)
    decreases |own|, 2
  {
    assert own != [];
    assert (own + rest)[0] == own[0] && (own + rest)[1..] == own[1..] + rest;
    match own[0]
    case Bad =>
    case Open(t) => NoElementNow(o, b, t, own[1..] + rest);
    case Close(t) => CloseSettles(o, b, own, t, rest, k, w, acc);
    case _ => SettlesLater(o, b, own, b, rest, k, w, acc);
  }

  /** A struct builder that has read a value is not ready for an element. */
  lemma NoElementNow(o: Options, b: Builder, t: Tag, toks: seq<Token>)
    requires b.core.StructCore? && b.core.sstate == ValueRead
    ensures VisitElement(o, b, t, toks).Fail?
  {
  }

  lemma {:induction false} CloseSettles(
      o: Options, b: Builder, own: seq<Token>, t: Tag, rest: seq<Token>, k: string, w: Value, acc: seq<Entry<Value>>)
    requires Suffices(b, own) && b.core == StructCore(ValueRead, k, w, acc) && Ordered(acc) && Find(acc, k) == None
    requires own[0] == Close(t)
    ensures var e := Ended(o, b.core, t);
      && e.CoreDone? && !e.wantExit
      && SettlesMember(b, own, rest, Continue(o, Builder(e.core, b.depth - 1, b.depth == 1), own[1..] + rest), k, w)
    decreases |own|, 1
  {
    EndedWeight(o, b.core, t);
    var e := Ended(o, b.core, t);
    var c := Builder(e.core, b.depth - 1, b.depth == 1);
    if t == MemberTag {
      PutOrdered(acc, k, w);
      FindPut(acc, k, w, k);
      ContinueKeeps(o, b, own, c, 1, rest, k, w);
    } else if b.depth > 1 {
      SettlesLater(o, b, own, c, rest, k, w, acc);
    }
  }

  lemma {:induction false} SettlesLater(
      o: Options, b: Builder, own: seq<Token>, c: Builder, rest: seq<Token>, k: string, w: Value, acc: seq<Entry<Value>>)
    requires Suffices(b, own) && b.core == StructCore(ValueRead, k, w, acc) && Ordered(acc) && Find(acc, k) == None
    requires c.core == b.core && c.depth > 0 && !c.wantExit && Onward(b, own, c, own[1..])
    ensures SettlesMember(b, own, rest, Parse(o, c, own[1..] + rest), k, w)
    decreases |own|, 0
  {
    OnwardSuffices(b, own, c, 1);
    MemberSettles(o, c, own[1..], rest, k, w, acc);
    var r := Parse(o, c, own[1..] + rest);
    if !(r.Done? && r.builder.core.StructCore? && Find(r.builder.core.members, k) == None) {
      OnwardKeeps(b, own, c, 1, rest, r, k, w);
    }
  }

  // ----- Items and parameters only grow ---------------------------------------------

  /** What an array has, a request has, or a response has, stays at the front. */
  ghost predicate Extends(a: Core, b: Core) {
    match a
    case ArrayCore(_, items) => b.ArrayCore? && items <= b.items
    case RequestCore(_, _, params) => b.RequestCore? && params <= b.params
    case ResponseCore(OkRead, ok, _, _) => b == a
    case _ => true
  }

  lemma ChangeExtends(core: Core, t: Tag, s: string, sub: Core)
    requires core.ArrayCore? || core.RequestCore? || (core.ResponseCore? && core.pstate == OkRead)
    requires Change(core, t).Some?
    ensures var c := Change(core, t).value;
      match ActionIn(c)
      case Settle(d, _) => Extends(core, d)
      case TakeText => Extends(core, WithText(c, s))
      case SubBuild(_, _) => Absorb(c, sub).CoreDone? ==> Extends(core, Absorb(c, sub).core)
  {
  }

  lemma VisitExtends(o: Options, b: Builder, t: Tag, toks: seq<Token>)
    requires b.core.ArrayCore? || b.core.RequestCore? || (b.core.ResponseCore? && b.core.pstate == OkRead)
    ensures var v := VisitElement(o, b, t, toks); v.Done? ==> Extends(b.core, v.builder.core)
  {
    if Change(b.core, t).Some? {
      match ActionIn(Change(b.core, t).value)
      case Settle(core, exit) =>
        VisitSettles(o, b, t, toks, core, exit);
        ChangeExtends(b.core, t, "", b.core);
      case TakeText =>
        VisitTakesText(o, b, t, toks);
        ChangeExtends(b.core, t, if ReadData(toks).Data? then ReadData(toks).text else "", b.core);
      case SubBuild(start, flat) =>
        var sub := Parse(o, Start(start, flat), toks);
        VisitTakes(o, b, t, toks, start, flat);
        ChangeExtends(b.core, t, "", if sub.Done? then sub.builder.core else b.core);
    }
  }

  lemma {:induction false} ParseExtends(o: Options, b: Builder, toks: seq<Token>)
    requires b.core.ArrayCore? || b.core.RequestCore? || (b.core.ResponseCore? && b.core.pstate == OkRead)
    ensures var r := Parse(o, b, toks); r.Done? ==> Extends(b.core, r.builder.core)
    decreases |toks|
  {
    if toks != [] {
      match toks[0]
      case Bad =>
      case Open(t) =>
        VisitExtends(o, b, t, toks[1..]);
        var v := VisitElement(o, b, t, toks[1..]);
        if v.Done? && !v.builder.wantExit {
          ParseExtends(o, v.builder, v.rest);
        }
      case Close(t) =>
        if b.depth > 1 && !b.wantExit {
          ParseExtends(o, b.(depth := b.depth - 1), toks[1..]);
        }
      case _ =>
        if !b.wantExit {
          ParseExtends(o, b, toks[1..]);
        }
    }
  }
}
