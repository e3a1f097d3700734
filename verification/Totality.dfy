/** What holds of every parse, of any tokens at all, well nested or not. That there
    is a result is what the termination of Builders.Parse says. */
module Totality {
  import opened Values
  import opened Xml
  import opened Builders

  ghost predicate IsRest(rest: seq<Token>, toks: seq<Token>) {
    |rest| <= |toks| && rest == toks[|toks| - |rest|..]
  }

  lemma RestOfRest(a: seq<Token>, b: seq<Token>, c: seq<Token>)
    requires IsRest(a, b) && IsRest(b, c)
    ensures IsRest(a, c)
  {
    assert c[|c| - |a|..] == c[|c| - |b|..][|b| - |a|..];
  }

  /** The reasons to stop: the builder wants to, there is nothing left, or an end tag
      that is not the builder's own is put back. */
  ghost predicate HasStopped(b: Builder, rest: seq<Token>) {
    b.wantExit || rest == [] || (b.depth == 0 && rest[0].Close?)
  }

  ghost predicate SoundParse(b: Builder, toks: seq<Token>, r: Outcome) {
    r.Done? ==>
      && IsRest(r.rest, toks) && HasStopped(r.builder, r.rest)
      && (r.rest == toks ==> toks == [] || (b.depth == 0 && toks[0].Close? && r.builder == b))
  }

  lemma SettleRest(o: Options, b: Builder, t: Tag, toks: seq<Token>)
    requires Change(b.core, t).Some? && ActionIn(Change(b.core, t).value).Settle?
    ensures var r := VisitElement(o, b, t, toks); r.Done? && r.rest == toks
  {
  }

  lemma TakeTextRest(o: Options, b: Builder, t: Tag, toks: seq<Token>)
    requires Change(b.core, t).Some? && ActionIn(Change(b.core, t).value).TakeText?
    ensures var r := VisitElement(o, b, t, toks); r.Done? ==> toks != [] && r.rest == toks[1..]
  {
  }

  lemma SubBuildRest(o: Options, b: Builder, t: Tag, toks: seq<Token>, start: Core, flat: bool)
    requires Change(b.core, t).Some? && ActionIn(Change(b.core, t).value) == SubBuild(start, flat)
    ensures var r, sub := VisitElement(o, b, t, toks), Parse(o, Start(start, flat), toks);
      r.Done? ==> sub.Done? && r.rest == sub.rest
  {
  }

  lemma {:induction false} VisitIsSound(o: Options, b: Builder, t: Tag, toks: seq<Token>)
    ensures var r := VisitElement(o, b, t, toks); r.Done? ==> IsRest(r.rest, toks)
    decreases |toks|, 3
  {
    assert toks == toks[0..];
    if Change(b.core, t).Some? {
      match ActionIn(Change(b.core, t).value)
      case Settle(_, _) => SettleRest(o, b, t, toks);
      case TakeText => TakeTextRest(o, b, t, toks);
      case SubBuild(start, flat) =>
        SubBuildRest(o, b, t, toks, start, flat);
        ParseIsSound(o, Start(start, flat), toks);
    }
  }

  lemma {:induction false} ContinueIsSound(o: Options, b: Builder, toks: seq<Token>)
    ensures var r := Continue(o, b, toks); r.Done? ==> IsRest(r.rest, toks) && HasStopped(r.builder, r.rest)
    decreases |toks|, 3
  {
    assert toks == toks[0..];
    if !b.wantExit {
      ParseIsSound(o, b, toks);
    }
  }

  /** Going on with the rest of what is behind the first token. */
  lemma {:induction false} Onward(o: Options, c: Builder, rest: seq<Token>, toks: seq<Token>)
    requires toks != [] && IsRest(rest, toks[1..])
    ensures var r := Continue(o, c, rest);
      r.Done? ==> IsRest(r.rest, toks) && |r.rest| < |toks| && HasStopped(r.builder, r.rest)
    decreases |toks|, 0
  {
    var r := Continue(o, c, rest);
    ContinueIsSound(o, c, rest);
    if r.Done? {
      RestOfRest(r.rest, rest, toks[1..]);
      RestOfRest(r.rest, toks[1..], toks);
    }
  }

  lemma {:induction false} OpenIsSound(o: Options, b: Builder, t: Tag, toks: seq<Token>)
    requires toks != [] && toks[0] == Open(t)
    ensures SoundParse(b, toks, Parse(o, b, toks))
    decreases |toks|, 1
  {
    VisitIsSound(o, b, t, toks[1..]);
    var v := VisitElement(o, b, t, toks[1..]);
    if v.Done? {
      Onward(o, v.builder, v.rest, toks);
    }
  }

  lemma {:induction false} CloseIsSound(o: Options, b: Builder, t: Tag, toks: seq<Token>)
    requires toks != [] && toks[0] == Close(t)
    ensures SoundParse(b, toks, Parse(o, b, toks))
    decreases |toks|, 1
  {
    if b.depth == 0 {
      assert toks == toks[0..];
    } else if Ended(o, b.core, t).CoreDone? {
      var e := Ended(o, b.core, t);
      assert toks[1..] == toks[1..][0..];
      Onward(o, Builder(e.core, b.depth - 1, b.wantExit || b.depth == 1 || e.wantExit), toks[1..], toks);
    }
  }

  lemma {:induction false} CharsAreSound(o: Options, b: Builder, s: string, toks: seq<Token>)
    requires toks != [] && toks[0] == Chars(s)
    ensures SoundParse(b, toks, Parse(o, b, toks))
    decreases |toks|, 1
  {
    assert toks[1..] == toks[1..][0..];
    if !b.core.ValueCore? {
      Onward(o, b, toks[1..], toks);
    } else if Texted(o, b.core, s).CoreDone? {
      var e := Texted(o, b.core, s);
      Onward(o, b.(core := e.core, wantExit := b.wantExit || e.wantExit), toks[1..], toks);
    }
  }

  /** A parse that gives a result leaves an unread end of the tokens, has a reason to
      stop, and has read something - unless there was nothing, or it put the first
      token back, an end tag above which it had not started anything. So an end tag
      that is put back is not put back again by the parent: that one has started an
      element. */
  lemma {:induction false} ParseIsSound(o: Options, b: Builder, toks: seq<Token>)
    ensures SoundParse(b, toks, Parse(o, b, toks))
    decreases |toks|, 2
  {
    if toks != [] {
      match toks[0]
      case Bad =>
      case Open(t) => OpenIsSound(o, b, t, toks);
      case Close(t) => CloseIsSound(o, b, t, toks);
      case Chars(s) => CharsAreSound(o, b, s, toks);
      case Space =>
        assert toks[1..] == toks[1..][0..];
        Onward(o, b, toks[1..], toks);
    }
  }
}
