/** `Parser` and `BuilderBase` as objects that change while they read, and the
    proof that together they compute what module Builders says. */
module XmlParser {
  import opened Text
  import opened Values
  import opened Xml
  import B = Builders
  import Messages

  /** `ParseStep`, with the name and the text that the reader holds at that node. */
  datatype Step = Step(
    done: bool, elementBegin: bool, elementEnd: bool, isEmpty: bool, isText: bool,
    tag: Tag, text: string)

  function StepOf(n: Node): Step
    requires n != Broken
  {
    match n
    case Element(t, isEmpty) => Step(false, true, false, isEmpty, false, t, "")
    case EndElement(t) => Step(false, false, true, false, false, t, "")
    case TextNode(s) => Step(false, false, false, false, true, Other(""), s)
    case Skipped => Step(false, false, false, false, false, Other(""), "")
  }

  /** The token that a step delivers. */
  predicate Delivers(s: Step, t: Token) {
    && !s.done
    && match t
       case Open(tag) => s.elementBegin && !s.elementEnd && !s.isText && s.tag == tag
       case Close(tag) => !s.elementBegin && s.elementEnd && s.tag == tag && s.text == ""
       case Chars(text) => !s.elementBegin && !s.elementEnd && s.isText && s.text == text
       case Space => !s.elementBegin && !s.elementEnd && !s.isText
       case Bad => false
  }

  class Parser {
    var nodes: seq<Node>
    var pos: nat
    var curr: Step
    var pushedBack: bool

    predicate Valid()
      reads this
    {
      && pos <= |nodes|
      && (pushedBack ==> curr.elementEnd && !curr.elementBegin && !curr.isEmpty && !curr.done && curr.text == "")
      && (curr.isEmpty ==> curr.elementBegin && !curr.done && curr.text == "")
    }

    /** What the reads to come will deliver. */
    ghost function Remaining(): seq<Token>
      requires Valid()
      reads this
    {
      (if pushedBack || curr.isEmpty then [Close(curr.tag)] else []) + Tokens(nodes[pos..])
    }

    constructor (nodes: seq<Node>)
      ensures Valid() && Remaining() == Tokens(nodes)
    {
      this.nodes, pos, pushedBack := nodes, 0, false;
      curr := Step(false, false, false, false, false, Other(""), "");
    }

    /** False where Parse_error is thrown. */
    method Read() returns (ok: bool)
      requires Valid()
      modifies this`pos, this`curr, this`pushedBack
      ensures ok ==> Valid()
      ensures var before := old(Remaining());
        if before == [] then ok && Remaining() == [] && curr == old(curr).(done := true)
        else if before[0] == Bad then !ok
        else ok && Remaining() == before[1..] && Delivers(curr, before[0]) && !pushedBack
    {
      if pushedBack {
        pushedBack := false;
        return true;
      }
      if curr.isEmpty {
        curr := curr.(elementBegin := false, elementEnd := true, isEmpty := false);
        return true;
      }
      if pos == |nodes| {
        curr := curr.(done := true);
        return true;
      }
      var n := nodes[pos];
      assert nodes[pos..][0] == n && nodes[pos..][1..] == nodes[pos + 1..];
      pos := pos + 1;
      if n == Broken {
        return false;
      }
      curr := StepOf(n);
      return true;
    }

    /** Puts back the end tag that was read last. */
    method PushBack()
      requires Valid() && !pushedBack && !curr.isEmpty
      requires curr.elementEnd && !curr.elementBegin && !curr.done && curr.text == ""
      modifies this`pushedBack
      ensures Valid() && Remaining() == [Close(curr.tag)] + old(Remaining())
    {
      pushedBack := true;
    }

    /** `read_data`, called right after a start tag or a text node was read;
        an error where an exception is thrown. */
    method ReadData() returns (text: string, error: Option<B.Error>)
      requires Valid() && !pushedBack && curr.elementBegin != curr.isText && !curr.elementEnd
      modifies this`pos, this`curr, this`pushedBack
      ensures old(curr.isText) ==>
        error == None && text == old(curr.text) && Valid() && Remaining() == old(Remaining())
      ensures !old(curr.isText) ==>
        match B.ReadData(old(Remaining()))
        case NoData(e) => error == Some(e)
        case Data(s, rest) => error == None && text == s && Valid() && Remaining() == rest
    {
      if !curr.isText && !curr.elementEnd {
        var ok := Read();
        if !ok {
          return "", Some(B.ParseError);
        }
        if !curr.isText && !curr.elementEnd {
          return "", Some(B.XmlRpcViolation);
        }
      }
      return curr.text, None;
    }

    /** The parse loop. */
    method Parse(o: Options, b: Builder) returns (error: Option<B.Error>)
      requires Valid() && !b.wantExit && b.KnowsItsKind()
      modifies this`pos, this`curr, this`pushedBack, b`core, b`depth, b`wantExit
      ensures Agrees(B.Parse(o, old(b.State()), old(Remaining())), this, b, error)
      decreases |Remaining()|, 1
    {
      ghost var goal := B.Parse(o, b.State(), Remaining());
      while true
        invariant Valid() && !b.wantExit && b.KnowsItsKind()
        invariant B.Parse(o, b.State(), Remaining()) == goal
        invariant |Remaining()| <= old(|Remaining()|)
        decreases |Remaining()|
      {
        var stop;
        error, stop := Turn(o, b);
        if error.Some? || stop {
          return;
        }
      }
    }

    /** One turn of the loop: a token is read and handed to the builder. */
    method Turn(o: Options, b: Builder) returns (error: Option<B.Error>, stop: bool)
      requires Valid() && !b.wantExit && b.KnowsItsKind()
      modifies this`pos, this`curr, this`pushedBack, b`core, b`depth, b`wantExit
      ensures error == None && !stop ==>
        Valid() && !b.wantExit && b.KnowsItsKind() && |Remaining()| < |old(Remaining())|
      ensures var r := B.Parse(o, old(b.State()), old(Remaining()));
        if error.Some? || stop then Agrees(r, this, b, error) else r == B.Parse(o, b.State(), Remaining())
      decreases |Remaining()|, 0
    {
      ghost var toks := Remaining();
      error, stop := None, true;
      var ok := Read();
      if !ok {
        error := Some(B.ParseError);
      } else if curr.done {
      } else if curr.elementEnd && b.depth == 0 {
        PushBack();
        assert Remaining() == toks;
      } else {
        error := Visit(o, b, toks[0]);
        assert toks == [toks[0]] + toks[1..];
        stop := b.wantExit;
      }
    }

    /** The builder is told what was read. */
    method Visit(o: Options, b: Builder, ghost token: Token) returns (error: Option<B.Error>)
      requires Valid() && !pushedBack && Delivers(curr, token) && !b.wantExit && b.KnowsItsKind()
      requires token.Close? ==> b.depth > 0
      modifies this`pos, this`curr, this`pushedBack, b`core, b`depth, b`wantExit
      ensures error == None ==> Valid() && b.KnowsItsKind() && |Remaining()| <= |old(Remaining())|
      ensures var r := B.Parse(o, old(b.State()), [token] + old(Remaining()));
        r == if error.Some? then B.Fail(error.value) else B.Continue(o, b.State(), Remaining())
      decreases |Remaining()|, 7
    {
      error := None;
      assert ([token] + Remaining())[1..] == Remaining();
      if curr.elementBegin {
        error := b.VisitElement(o, this, curr.tag);
      } else if curr.elementEnd {
        error := b.VisitElementEnd(o, curr.tag);
      } else if curr.isText && b.expectText {
        var text, e := ReadData();
        error := b.VisitText(o, text);
      }
    }
  }

  /** The objects and the exception, if any, are where the specification puts them. */
  ghost predicate Agrees(r: B.Outcome, p: Parser, b: Builder, error: Option<B.Error>)
    reads p, b
  {
    match r
    case Fail(e) => error == Some(e)
    case Done(b', rest) => error == None && p.Valid() && p.Remaining() == rest && b.State() == b'
  }

  /** A builder of any kind; `core` holds the fields that its kind adds. */
  class Builder {
    var core: B.Core
    var depth: nat
    var wantExit: bool
    const expectText: bool

    ghost function State(): B.Builder
      reads this
    {
      B.Builder(core, depth, wantExit)
    }

    predicate KnowsItsKind()
      reads this
    {
      expectText == core.ValueCore?
    }

    constructor (core: B.Core)
      ensures KnowsItsKind() && State() == B.Start(core, false)
    {
      this.core, depth, wantExit, expectText := core, 0, false, core.ValueCore?;
    }

    method Build(o: Options, p: Parser, flat: bool) returns (error: Option<B.Error>)
      requires p.Valid() && depth == 0 && !wantExit && KnowsItsKind()
      modifies p`pos, p`curr, p`pushedBack, this`core, this`depth, this`wantExit
      ensures Agrees(B.Parse(o, B.Start(old(core), flat), old(p.Remaining())), p, this, error)
      decreases |p.Remaining()|, 2
    {
      depth := depth + if flat then 1 else 0;
      error := p.Parse(o, this);
    }

    method VisitElement(o: Options, p: Parser, t: Tag) returns (error: Option<B.Error>)
      requires p.Valid() && !p.pushedBack && p.curr.elementBegin && !p.curr.isText && !p.curr.elementEnd
      modifies p`pos, p`curr, p`pushedBack, this`core, this`depth, this`wantExit
      ensures Agrees(B.VisitElement(o, old(State()), t, old(p.Remaining())), p, this, error)
      decreases |p.Remaining()|, 6
    {
      depth := depth + 1;
      var next := B.Change(core, t);
      if next == None {
        error := Some(B.XmlRpcViolation);
      } else {
        core := next.value;
        error := Act(o, p, B.ActionIn(core));
      }
    }

    /** What `do_visit_element` goes on to do in the new state. */
    method Act(o: Options, p: Parser, action: B.Action) returns (error: Option<B.Error>)
      requires p.Valid() && !p.pushedBack && p.curr.elementBegin && !p.curr.isText && !p.curr.elementEnd
      modifies p`pos, p`curr, p`pushedBack, this`core, this`wantExit
      ensures match action
        case Settle(c, exit) =>
          error == None && p.Valid() && p.Remaining() == old(p.Remaining()) &&
          State() == B.Builder(c, depth, old(wantExit) || exit)
        case TakeText => (
          match B.ReadData(old(p.Remaining()))
          case NoData(e) => error == Some(e)
          case Data(s, rest) =>
            error == None && p.Valid() && p.Remaining() == rest &&
            State() == B.Builder(B.WithText(old(core), s), depth, old(wantExit)))
        case SubBuild(start, flat) =>
          match B.Parse(o, B.Start(start, flat), old(p.Remaining()))
          case Fail(e) => error == Some(e)
          case Done(b, rest) =>
            match B.Absorb(old(core), b.core)
            case CoreFail(e) => error == Some(e)
            case CoreDone(c, exit) =>
              error == None && p.Valid() && p.Remaining() == rest && State() == B.Builder(c, depth, old(wantExit) || exit)
      decreases |p.Remaining()|, 5
    {
      match action {
        case Settle(settled, exit) =>
          core, wantExit := settled, wantExit || exit;
          error := None;
        case TakeText =>
          var text, e := p.ReadData();
          if e == None {
            core := B.WithText(core, text);
          }
          error := e;
        case SubBuild(start, flat) =>
          error := SubBuildInto(o, p, start, flat);
      }
    }

    /** A sub-build and what becomes of its result. */
    method SubBuildInto(o: Options, p: Parser, start: B.Core, flat: bool) returns (error: Option<B.Error>)
      requires p.Valid()
      modifies p`pos, p`curr, p`pushedBack, this`core, this`wantExit
      ensures match B.Parse(o, B.Start(start, flat), old(p.Remaining()))
        case Fail(e) => error == Some(e)
        case Done(b, rest) =>
          match B.Absorb(old(core), b.core)
          case CoreFail(e) => error == Some(e)
          case CoreDone(c, exit) =>
            error == None && p.Valid() && p.Remaining() == rest && State() == B.Builder(c, depth, old(wantExit) || exit)
      decreases |p.Remaining()|, 4
    {
      var sub;
      sub, error := SubBuild(o, p, start, flat);
      if error == None {
        match B.Absorb(core, sub) {
          case CoreFail(e) => error := Some(e);
          case CoreDone(result, exit) => core, wantExit := result, wantExit || exit;
        }
      }
    }

    /** `sub_build`: a builder of its own on the same parser. */
    static method SubBuild(o: Options, p: Parser, start: B.Core, flat: bool) returns (sub: B.Core, error: Option<B.Error>)
      requires p.Valid()
      modifies p`pos, p`curr, p`pushedBack
      ensures match B.Parse(o, B.Start(start, flat), old(p.Remaining()))
        case Fail(e) => error == Some(e)
        case Done(b, rest) => error == None && p.Valid() && p.Remaining() == rest && sub == b.core
      decreases |p.Remaining()|, 3
    {
      var b := new Builder(start);
      error := b.Build(o, p, flat);
      sub := b.core;
    }

    method VisitElementEnd(o: Options, t: Tag) returns (error: Option<B.Error>)
      requires depth > 0
      modifies this`core, this`depth, this`wantExit
      ensures match B.Ended(o, old(core), t)
        case CoreFail(e) => error == Some(e)
        case CoreDone(c, exit) =>
          error == None && State() == B.Builder(c, old(depth) - 1, old(wantExit) || old(depth) == 1 || exit)
    {
      depth := depth - 1;
      match B.Ended(o, core, t) {
        case CoreFail(e) => error := Some(e);
        case CoreDone(result, exit) =>
          core, wantExit := result, wantExit || depth == 0 || exit;
          error := None;
      }
    }

    method VisitText(o: Options, text: string) returns (error: Option<B.Error>)
      requires core.ValueCore?
      modifies this`core, this`wantExit
      ensures match B.Texted(o, old(core), text)
        case CoreFail(e) => error == Some(e)
        case CoreDone(c, exit) => error == None && State() == B.Builder(c, depth, old(wantExit) || exit)
    {
      match B.Texted(o, core, text) {
        case CoreFail(e) => error := Some(e);
        case CoreDone(result, exit) =>
          core, wantExit := result, wantExit || exit;
          error := None;
      }
    }
  }

  // ----- Messages -----------------------------------------------------------

  /** `parse_request`. */
  method ParseRequest(o: Options, nodes: seq<Node>) returns (r: Messages.Parsed<Messages.Request>)
    ensures r == Messages.ParseRequest(o, Tokens(nodes))
  {
    var p := new Parser(nodes);
    var b := new Builder(B.NEW_REQUEST);
    var error := b.Build(o, p, false);
    if error.Some? {
      return Messages.Failed(error.value);
    }
    if b.core.methodName == None {
      return Messages.Failed(B.XmlRpcViolation);
    }
    return Messages.Parsed(Messages.Request(b.core.methodName.value, b.core.params));
  }

  /** `parse_response`. */
  method ParseResponse(o: Options, nodes: seq<Node>) returns (r: Messages.Parsed<Messages.Response>)
    ensures r == Messages.ParseResponse(o, Tokens(nodes))
  {
    var p := new Parser(nodes);
    var b := new Builder(B.NEW_RESPONSE);
    var error := b.Build(o, p, false);
    if error.Some? {
      return Messages.Failed(error.value);
    }
    if b.core.ok.Some? {
      return Messages.Parsed(Messages.OkResponse(b.core.ok.value));
    }
    if b.core.faultString.Some? {
      return Messages.Parsed(Messages.FaultResponse(b.core.faultCode, b.core.faultString.value));
    }
    return Messages.Failed(B.XmlRpcViolation);
  }
}
