/** Request headers as any client may write them: names in any case, white space around
    names and values, any line ends, options in any order and more than once. */
module HttpFreeForm {
  import opened Text
  import opened OrderedMap
  import opened HttpText
  import opened HttpHeader
  import opened HttpReader
  import opened HttpSession
  import Notation

  // ----- Lower case -----------------------------------------------------------------

  lemma LowerLetter(i: nat)
    requires i < 26
    ensures |Notation.UPPER| == |Notation.LOWER| == 26
    ensures LowerChar(Notation.UPPER[i]) == Notation.LOWER[i]
  {
    Notation.UpperCode(i);
    Notation.LowerCode(i);
  }

  lemma NoLetter(c: char)
    requires c !in Notation.UPPER
    ensures LowerChar(c) == c
  {
    if 'A' <= c <= 'Z' {
      Notation.UpperCode(c as int - 65);
    }
  }

  // ----- White space -------------------------------------------------------------------

  predicate AllSpace(s: string) {
    forall i :: 0 <= i < |s| ==> IsSpace(s[i])
  }

  lemma {:induction false} SpaceOnTheLeft(a: string, s: string)
    requires AllSpace(a) && (s != "" ==> !IsSpace(s[0]))
    ensures TrimLeft(a + s) == s
  {
    if a == "" {
      assert a + s == s;
    } else {
      assert (a + s)[1..] == a[1..] + s;
      SpaceOnTheLeft(a[1..], s);
    }
  }

  lemma {:induction false} SpaceOnTheRight(s: string, b: string)
    requires AllSpace(b) && (s != "" ==> !IsSpace(s[|s| - 1]))
    ensures TrimRight(s + b) == s
    decreases |b|
  {
    if b == "" {
      assert s + b == s;
    } else {
      var front := b[..|b| - 1];
      assert (s + b)[..|s + b| - 1] == s + front;
      SpaceOnTheRight(s, front);
    }
  }

  lemma Trims(a: string, s: string, b: string)
    requires AllSpace(a) && AllSpace(b) && IsTrimmed(s)
    ensures Trim(a + s + b) == s
  {
    if s == "" {
      assert a + s + b == a + b && AllSpace(a + b);
      assert (a + b) + "" == a + b;
      SpaceOnTheLeft(a + b, "");
    } else {
      assert a + s + b == a + (s + b);
      SpaceOnTheLeft(a, s + b);
      SpaceOnTheRight(s, b);
    }
  }

  // ----- One option ------------------------------------------------------------------------

  /** A name and a value, and the white space in front of and behind each. */
  datatype Written = Written(left: string, name: string, beforeColon: string, afterColon: string, value: string, right: string)

  function Line(w: Written): string {
    (w.left + w.name + w.beforeColon) + ":" + (w.afterColon + w.value + w.right)
  }

  predicate IsWritten(w: Written) {
    && AllSpace(w.left) && AllSpace(w.beforeColon) && AllSpace(w.afterColon) && AllSpace(w.right)
    && IsTrimmed(w.name) && ':' !in w.name && IsTrimmed(w.value)
  }

  /** The name is taken in lower case, and the value as it is. */
  lemma OptionIsRead(w: Written)
    requires IsWritten(w)
    ensures ParseOption(Line(w)) == Some(Entry(Lower(w.name), w.value))
  {
    var k, rest := w.left + w.name + w.beforeColon, w.afterColon + w.value + w.right;
    ColonOf(k, rest);
    assert Line(w)[..|k|] == k && Line(w)[|k| + 1..] == rest;
    Trims(w.left, w.name, w.beforeColon);
    Trims(w.afterColon, w.value, w.right);
  }

  /** Every line with a colon can be taken apart in this way, and no other line is read. */
  lemma AnyLine(line: string)
    ensures ':' in line <==> ParseOption(line).Some?
    ensures ':' in line ==> exists w :: IsWritten(w) && line == Line(w)
  {
    if ':' in line {
      var j :| 0 <= j < |line| && line[j] == ':';
      ColonAt(line, j);
      var i := FindFirst(line, ":").value;
      ColonAt(line, i);
      forall j | 0 <= j < i ensures line[..i][j] != ':' {
        ColonAt(line, j);
      }
      var (a, k, b) := TakeApart(line[..i]);
      var (c, v, d) := TakeApart(line[i + 1..]);
      IsTheLine(line, i, Written(a, k, b, c, v, d));
    } else if FindFirst(line, ":").Some? {
      ColonAt(line, FindFirst(line, ":").value);
    }
  }

  lemma IsTheLine(line: string, i: nat, w: Written)
    requires i < |line| && line[i] == ':' && ':' !in line[..i]
    requires line[..i] == w.left + w.name + w.beforeColon && line[i + 1..] == w.afterColon + w.value + w.right
    requires AllSpace(w.left) && AllSpace(w.beforeColon) && AllSpace(w.afterColon) && AllSpace(w.right)
    requires IsTrimmed(w.name) && IsTrimmed(w.value)
    ensures IsWritten(w) && line == Line(w)
  {
    assert forall j :: 0 <= j < |w.name| ==> w.name[j] == line[..i][|w.left| + j];
    assert line == line[..i] + ":" + line[i + 1..];
  }

  function Leading(s: string): (n: nat)
    ensures n <= |s| && AllSpace(s[..n]) && (n < |s| ==> !IsSpace(s[n]))
  {
    if s == "" || !IsSpace(s[0]) then 0 else 1 + Leading(s[1..])
  }

  function WithoutTrailing(s: string): (n: nat)
    ensures n <= |s| && AllSpace(s[n..]) && (n > 0 ==> !IsSpace(s[n - 1]))
  {
    if s == "" || !IsSpace(s[|s| - 1]) then |s| else WithoutTrailing(s[..|s| - 1])
  }

  function TakeApart(s: string): (r: (string, string, string))
    ensures s == r.0 + r.1 + r.2 && AllSpace(r.0) && IsTrimmed(r.1) && AllSpace(r.2)
  {
    var n := Leading(s);
    var m := WithoutTrailing(s[n..]);
    ThreeParts(s, n, m);
    MiddleIsTrimmed(s[n..], m);
    (s[..n], s[n..][..m], s[n..][m..])
  }

  lemma ThreeParts(s: string, n: nat, m: nat)
    requires n + m <= |s|
    ensures s == s[..n] + s[n..][..m] + s[n..][m..]
  {
  }

  lemma MiddleIsTrimmed(t: string, m: nat)
    requires m <= |t| && (t != "" ==> !IsSpace(t[0])) && (m > 0 ==> !IsSpace(t[m - 1]))
    ensures IsTrimmed(t[..m])
  {
  }

  // ----- All options -----------------------------------------------------------------------

  predicate AllWritten(ws: seq<Written>) {
    forall i :: 0 <= i < |ws| ==> IsWritten(ws[i])
  }

  function LinesOf(ws: seq<Written>): (r: seq<string>)
    ensures |r| == |ws| && forall i :: 0 <= i < |r| ==> r[i] == Line(ws[i])
  {
    seq(|ws|, i requires 0 <= i < |ws| => Line(ws[i]))
  }

  function Entries(ws: seq<Written>): (r: Options)
    ensures |r| == |ws| && forall i :: 0 <= i < |r| ==> r[i] == Entry(Lower(ws[i].name), ws[i].value)
  {
    seq(|ws|, i requires 0 <= i < |ws| => Entry(Lower(ws[i].name), ws[i].value))
  }

  /** No validator objects. */
  predicate AllPass(level: Level, ws: seq<Written>) {
    forall i :: 0 <= i < |ws| ==> Validate(level, Lower(ws[i].name), ws[i].value) == None
  }

  /** What the validators want, of which names. */
  lemma Validators(level: Level, k: string, v: string)
    ensures Validate(level, k, v) ==
      if k == "content-length" then
        if v != "" && AllDigits(v) && DigitsValue(v) <= 4294967295 then None else Some(MalformedPacket)
      else if k == "expect" then
        if Occurs(Lower(v), "100-continue", 0) then None else Some(ExpectationFailed)
      else if k == "content-type" && level == Strict then
        if exists i :: Occurs(Lower(v), "text/xml", i) then None
        else Some(UnsupportedContentType)
      else None
  {
  }

  lemma OptionStep(level: Level, o: Options, line: string, e: Entry<string>, rest: seq<string>)
    requires ParseOption(line) == Some(e) && Validate(level, e.key, e.value) == None
    ensures ParseOptions(level, o, [line] + rest) == ParseOptions(level, Put(o, e.key, e.value), rest)
  {
    assert ([line] + rest)[1..] == rest;
  }

  lemma FirstOption(ws: seq<Written>, rest: seq<string>)
    requires ws != []
    ensures LinesOf(ws) + rest == [Line(ws[0])] + (LinesOf(ws[1..]) + rest)
    ensures Entries(ws) == [Entry(Lower(ws[0].name), ws[0].value)] + Entries(ws[1..])
  {
  }

  lemma PutFirst(o: Options, e: Entry<string>, es: Options)
    ensures PutAll(o, [e] + es) == PutAll(Put(o, e.key, e.value), es)
  {
    assert ([e] + es)[1..] == es;
  }

  /** Options that pass are set one after the other. */
  lemma {:induction false} OptionsAreSet(level: Level, o: Options, ws: seq<Written>, rest: seq<string>)
    requires AllWritten(ws) && AllPass(level, ws)
    ensures ParseOptions(level, o, LinesOf(ws) + rest) == ParseOptions(level, PutAll(o, Entries(ws)), rest)
    decreases |ws|
  {
    if ws == [] {
      assert LinesOf(ws) + rest == rest;
    } else {
      var e := Entry(Lower(ws[0].name), ws[0].value);
      OptionIsRead(ws[0]);
      FirstOption(ws, rest);
      OptionStep(level, o, Line(ws[0]), e, LinesOf(ws[1..]) + rest);
      PutFirst(o, e, Entries(ws[1..]));
      OptionsAreSet(level, Put(o, e.key, e.value), ws[1..], rest);
    }
  }

  /** The first line without a colon, or with a value that does not pass, is refused. */
  lemma FirstFault(level: Level, o: Options, ws: seq<Written>, line: string, rest: seq<string>)
    requires AllWritten(ws) && AllPass(level, ws)
    ensures ':' !in line ==> ParseOptions(level, o, LinesOf(ws) + ([line] + rest)) == Refused(MalformedPacket)
    ensures forall w :: IsWritten(w) && line == Line(w) && Validate(level, Lower(w.name), w.value).Some? ==>
      ParseOptions(level, o, LinesOf(ws) + ([line] + rest)) == Refused(Validate(level, Lower(w.name), w.value).value)
  {
    OptionsAreSet(level, o, ws, [line] + rest);
    AnyLine(line);
    forall w | IsWritten(w) && line == Line(w) ensures ParseOption(line) == Some(Entry(Lower(w.name), w.value)) {
      OptionIsRead(w);
    }
  }

  /** The last value that is given to a name. */
  function LastValue(ws: seq<Written>, name: string): Text.Option<string> {
    if ws == [] then None
    else if LastValue(ws[1..], name).Some? then LastValue(ws[1..], name)
    else if Lower(ws[0].name) == name then Some(ws[0].value) else None
  }

  lemma {:induction false} FindEntries(o: Options, ws: seq<Written>, name: string)
    ensures Find(PutAll(o, Entries(ws)), name) ==
            if LastValue(ws, name).Some? then LastValue(ws, name) else Find(o, name)
    decreases |ws|
  {
    if ws != [] {
      var e := Entries(ws)[0];
      assert Entries(ws)[1..] == Entries(ws[1..]);
      FindEntries(Put(o, e.key, e.value), ws[1..], name);
      FindPut(o, e.key, e.value, name);
    }
  }

  /** What a name stands for in a header with these options. */
  function ValueOf(ws: seq<Written>, name: string): Text.Option<string> {
    match LastValue(ws, name)
    case Some(v) => Some(v)
    case None =>
      if name == "connection" then Some("close")
      else if name == "host" then Some("")
      else if name == "user-agent" then Some("unknown")
      else None
  }

  ghost predicate Holds(o: Options, ws: seq<Written>) {
    forall name :: Find(o, name) == ValueOf(ws, name)
  }

  lemma DefaultsHold(ws: seq<Written>)
    ensures Holds(RequestDefaults(PutAll(NEW_OPTIONS, Entries(ws))), ws)
  {
    var o := PutAll(NEW_OPTIONS, Entries(ws));
    forall name ensures Find(RequestDefaults(o), name) == ValueOf(ws, name) {
      FindEntries(NEW_OPTIONS, ws, name);
      FindPutDefault(o, "host", "", name);
      FindPutDefault(PutDefault(o, "host", ""), "user-agent", "unknown", name);
    }
  }

  // ----- The request line --------------------------------------------------------------------

  lemma {:induction false} SkipsSpace(a: string, rest: string)
    requires AllSpace(a) && (rest != "" ==> !IsSpace(rest[0]))
    ensures SkipSeparators(a + rest, false) == rest
  {
    if a == "" {
      assert a + rest == rest;
    } else {
      assert (a + rest)[1..] == a[1..] + rest;
      SkipsSpace(a[1..], rest);
    }
  }

  predicate EndsWord(tail: string) {
    tail == "" || IsSpace(tail[0])
  }

  lemma FirstWord(m: string, tail: string)
    requires HasNoSpace(m) && EndsWord(tail)
    ensures Split(m + tail, false)[0] == m
  {
    if tail == "" {
      assert m + tail == m;
      SplitWhole(m, false);
    } else {
      SplitToken(m, tail, false);
    }
  }

  lemma NextWord(m: string, a: string, rest: string)
    requires HasNoSpace(m) && a != "" && AllSpace(a) && rest != "" && !IsSpace(rest[0])
    ensures Split(m + (a + rest), false) == [m] + Split(rest, false)
  {
    SplitToken(m, a + rest, false);
    assert (a + rest)[1..] == a[1..] + rest;
    SkipsSpace(a[1..], rest);
  }

  lemma SecondWord(m: string, a: string, uri: string, tail: string)
    requires HasNoSpace(m) && a != "" && AllSpace(a) && uri != "" && HasNoSpace(uri) && EndsWord(tail)
    ensures var words := Split(m + (a + (uri + tail)), false); |words| > 1 && words[0] == m && words[1] == uri
  {
    assert (uri + tail)[0] == uri[0];
    NextWord(m, a, uri + tail);
    FirstWord(uri, tail);
  }

  /** The target is the second word, and nothing after it counts; */
  lemma TargetIsRead(a: string, uri: string, tail: string)
    requires a != "" && AllSpace(a) && uri != "" && HasNoSpace(uri) && EndsWord(tail)
    ensures ParseHead("POST" + (a + (uri + tail))) == Good(uri)
  {
    SecondWord("POST", a, uri, tail);
  }

  /** without one it is empty; */
  lemma NoTarget(a: string)
    requires AllSpace(a)
    ensures ParseHead("POST" + a) == Good("")
  {
    var post := "POST";
    assert HasNoSpace(post);
    if a == "" {
      assert post + a == post;
      SplitWhole(post, false);
    } else {
      SplitToken(post, a, false);
      assert a[1..] + "" == a[1..];
      SkipsSpace(a[1..], "");
      SplitWhole("", false);
    }
  }

  /** and the first word is the method, in this case only. */
  lemma OtherMethod(m: string, tail: string)
    requires HasNoSpace(m) && m != "POST" && EndsWord(tail)
    ensures ParseHead(m + tail) == Refused(MethodNotAllowed)
  {
    FirstWord(m, tail);
  }

  // ----- The text of a header ------------------------------------------------------------------

  predicate IsEnd(s: string) {
    s != "" && forall i :: 0 <= i < |s| ==> s[i] == '\r' || s[i] == '\n'
  }

  /** The lines, with the ends between them. */
  function Whole(head: string, lines: seq<string>, ends: seq<string>): string
    requires |lines| == |ends|
    decreases |lines|
  {
    if lines == [] then head else head + (ends[0] + Whole(lines[0], lines[1..], ends[1..]))
  }

  predicate IsText(head: string, lines: seq<string>, ends: seq<string>) {
    && |lines| == |ends| && HasNoLineEnds(head)
    && (forall i :: 0 <= i < |lines| ==> IsLine(lines[i]) && IsEnd(ends[i]))
  }

  lemma {:induction false} SkipsEnds(a: string, rest: string)
    requires (a == "" || IsEnd(a)) && rest != "" && !IsSeparator(rest[0], true)
    ensures SkipSeparators(a + rest, true) == rest
  {
    if a == "" {
      assert a + rest == rest;
    } else {
      assert (a + rest)[1..] == a[1..] + rest;
      SkipsEnds(a[1..], rest);
    }
  }

  lemma WholeStarts(head: string, lines: seq<string>, ends: seq<string>)
    requires |lines| == |ends| && IsLine(head)
    ensures Whole(head, lines, ends) != "" && !IsSeparator(Whole(head, lines, ends)[0], true)
  {
    assert Whole(head, lines, ends)[0] == head[0];
  }

  lemma SplitAtEnd(line: string, e: string, rest: string)
    requires HasNoLineEnds(line) && IsEnd(e) && rest != "" && !IsSeparator(rest[0], true)
    ensures Split(line + (e + rest), true) == [line] + Split(rest, true)
  {
    SplitToken(line, e + rest, true);
    assert (e + rest)[1..] == e[1..] + rest;
    SkipsEnds(e[1..], rest);
  }

  lemma RestIsText(head: string, lines: seq<string>, ends: seq<string>)
    requires IsText(head, lines, ends) && lines != []
    ensures IsText(lines[0], lines[1..], ends[1..]) && IsLine(lines[0]) && IsEnd(ends[0])
  {
  }

  /** However its lines end, the text is split into them. */
  lemma {:induction false} SplitText(head: string, lines: seq<string>, ends: seq<string>)
    requires IsText(head, lines, ends)
    ensures Split(Whole(head, lines, ends), true) == [head] + lines
    decreases |lines|
  {
    if lines == [] {
      SplitWhole(head, true);
    } else {
      var rest := Whole(lines[0], lines[1..], ends[1..]);
      RestIsText(head, lines, ends);
      WholeStarts(lines[0], lines[1..], ends[1..]);
      SplitAtEnd(head, ends[0], rest);
      SplitText(lines[0], lines[1..], ends[1..]);
      assert [lines[0]] + lines[1..] == lines;
    }
  }

  lemma {:induction false} OnlyEnds(e: string)
    requires e == "" || IsEnd(e)
    ensures SkipSeparators(e, true) == ""
  {
    if e != "" {
      OnlyEnds(e[1..]);
    }
  }

  /** A line end behind the last line makes an empty one more. */
  lemma {:induction false} SplitEnded(head: string, lines: seq<string>, ends: seq<string>, e: string)
    requires IsText(head, lines, ends) && IsEnd(e)
    ensures Split(Whole(head, lines, ends) + e, true) == [head] + lines + [""]
    decreases |lines|
  {
    if lines == [] {
      SplitToken(head, e, true);
      OnlyEnds(e[1..]);
      SplitWhole("", true);
    } else {
      var rest := Whole(lines[0], lines[1..], ends[1..]);
      RestIsText(head, lines, ends);
      WholeStarts(lines[0], lines[1..], ends[1..]);
      SplitAtEnd(head, ends[0], rest + e);
      SplitEnded(lines[0], lines[1..], ends[1..], e);
      Regrouped(head, ends[0], rest, e);
      FirstLine(head, lines);
    }
  }

  lemma Regrouped(a: string, b: string, c: string, d: string)
    ensures a + (b + c) + d == a + (b + (c + d))
  {
  }

  lemma FirstLine(head: string, lines: seq<string>)
    requires lines != []
    ensures [head] + ([lines[0]] + lines[1..] + [""]) == [head] + lines + [""]
  {
  }

  /** The header that a text stands for depends on its target, and on the names, without
      their case, and values of its options alone. */
  lemma HeaderIsRead(level: Level, head: string, ws: seq<Written>, ends: seq<string>)
    requires IsText(head, LinesOf(ws), ends) && AllWritten(ws) && AllPass(level, ws)
    ensures match (ParseRequest(level, Whole(head, LinesOf(ws), ends)), ParseHead(head))
      case (Good(h), Good(uri)) => h.uri == uri && Ordered(h.options) && Holds(h.options, ws)
      case (Refused(e), Refused(e')) => e == e'
      case _ => false
  {
    SplitText(head, LinesOf(ws), ends);
    SplitIsRead(level, head, ws, Whole(head, LinesOf(ws), ends));
  }

  lemma SplitIsRead(level: Level, head: string, ws: seq<Written>, text: string)
    requires Split(text, true) == [head] + LinesOf(ws) && AllWritten(ws) && AllPass(level, ws)
    ensures match (ParseRequest(level, text), ParseHead(head))
      case (Good(h), Good(uri)) => h.uri == uri && Ordered(h.options) && Holds(h.options, ws)
      case (Refused(e), Refused(e')) => e == e'
      case _ => false
  {
    assert ([head] + LinesOf(ws))[1..] == LinesOf(ws) && LinesOf(ws) + [] == LinesOf(ws);
    OptionsAreSet(level, NEW_OPTIONS, ws, []);
    DefaultsHold(ws);
    var o := PutAll(NEW_OPTIONS, Entries(ws));
    PutAllOrdered(NEW_OPTIONS, Entries(ws));
    PutOrdered(o, HOST, "");
    PutOrdered(PutDefault(o, HOST, ""), USER_AGENT, "unknown");
  }

  /** A bad option is refused before a bad method. */
  lemma HeaderIsRefused(level: Level, head: string, ws: seq<Written>, line: string, rest: seq<string>, ends: seq<string>)
    requires IsText(head, LinesOf(ws) + ([line] + rest), ends) && AllWritten(ws) && AllPass(level, ws)
    ensures var text := Whole(head, LinesOf(ws) + ([line] + rest), ends);
      && (':' !in line ==> ParseRequest(level, text) == Refused(MalformedPacket))
      && (forall w :: IsWritten(w) && line == Line(w) && Validate(level, Lower(w.name), w.value).Some? ==>
           ParseRequest(level, text) == Refused(Validate(level, Lower(w.name), w.value).value))
  {
    var lines := LinesOf(ws) + ([line] + rest);
    SplitText(head, lines, ends);
    assert ([head] + lines)[1..] == lines;
    FirstFault(level, NEW_OPTIONS, ws, line, rest);
  }

  /** So does a line end behind the last option, because the empty line it leaves has no
      colon. */
  lemma EndedIsRefused(level: Level, head: string, ws: seq<Written>, ends: seq<string>, e: string)
    requires IsText(head, LinesOf(ws), ends) && AllWritten(ws) && AllPass(level, ws) && IsEnd(e)
    ensures ParseRequest(level, Whole(head, LinesOf(ws), ends) + e) == Refused(MalformedPacket)
  {
    SplitEnded(head, LinesOf(ws), ends, e);
    assert ([head] + LinesOf(ws) + [""])[1..] == LinesOf(ws) + ([""] + []);
    FirstFault(level, NEW_OPTIONS, ws, "", []);
  }

  // ----- The same through a reader ----------------------------------------------------------------

  /** A text with usual line ends, an empty line, and what follows it. */
  function Stream(head: string, ws: seq<Written>, content: string): string {
    Join([head] + LinesOf(ws)) + (CRLF + CRLF) + content
  }

  ghost predicate IsStream(head: string, ws: seq<Written>) {
    IsLine(head) && AllWritten(ws) && forall i :: 0 <= i < |ws| ==> HasNoLineEnds(Line(ws[i]))
  }

  lemma StreamIsSteady(head: string, ws: seq<Written>, content: string)
    requires IsStream(head, ws)
    ensures var text := Join([head] + LinesOf(ws));
      && Split(text, true) == [head] + LinesOf(ws)
      && Steady(Stream(head, ws, content), Break(|text|, 4))
      && |text| + 4 <= |Stream(head, ws, content)|
      && Stream(head, ws, content)[..|text|] == text && Stream(head, ws, content)[|text| + 4..] == content
  {
    var lines := [head] + LinesOf(ws);
    assert AreLines(lines);
    SplitJoin(lines);
    JoinStarts(lines);
    JoinHasNoEmptyLine(lines);
    FirstEmptyLine(Join(lines), content);
    SteadyUnlessAmbiguous(Stream(head, ws, content));
  }

  /** What is made of the header, is made of it through a reader. */
  lemma StreamVerdict(level: Level, continueSent: bool, chunks: seq<string>, head: string, ws: seq<Written>, content: string)
    requires IsStream(head, ws) && AllPass(level, ws)
    requires NoneEmpty(chunks) && Concat(chunks) == Stream(head, ws, content)
    ensures match (Feed(Fresh(level, 0, continueSent), chunks).1, ParseHead(head))
      case (Error(e), Refused(e')) => e == e'
      case (result, Good(uri)) => exists h: Header ::
        h.uri == uri && Ordered(h.options) && Holds(h.options, ws) && result == Assemble(h, content)
      case _ => false
  {
    var text := Join([head] + LinesOf(ws));
    StreamIsSteady(head, ws, content);
    ChunkingIndependence(level, continueSent, Break(|text|, 4), chunks, Stream(head, ws, content));
    SplitIsRead(level, head, ws, text);
  }

  /** The names that a reader sets itself. */
  ghost predicate Delivered(o: Options, ws: seq<Written>, n: nat) {
    forall name :: Find(o, name) ==
      if name == "content-length" then Some(NatText(n))
      else if name == "content-type" && n > 0 then Some("text/xml")
      else ValueOf(ws, name)
  }

  lemma LengthIsSet(o: Options, ws: seq<Written>, n: nat)
    requires Holds(o, ws)
    ensures Delivered(SetContentLength(o, n), ws, n)
  {
    var p := Put(o, "content-length", NatText(n));
    forall name ensures Find(SetContentLength(o, n), name) ==
      if name == "content-length" then Some(NatText(n))
      else if name == "content-type" && n > 0 then Some("text/xml")
      else ValueOf(ws, name)
    {
      FindPut(o, "content-length", NatText(n), name);
      FindPut(p, "content-type", "text/xml", name);
    }
  }

  /** A request of any client, cut in any way: its content is as long as the last of its
      options of that name says, and what follows it is dropped. */
  lemma RequestArrives(level: Level, continueSent: bool, chunks: seq<string>, head: string, uri: string, ws: seq<Written>,
                       content: string, rest: string)
    requires IsStream(head, ws) && AllPass(level, ws) && ParseHead(head) == Good(uri)
    requires NoneEmpty(chunks) && Concat(chunks) == Stream(head, ws, content + rest)
    requires var v := LastValue(ws, "content-length"); v.Some? && AllDigits(v.value) && DigitsValue(v.value) == |content|
    ensures var result := Feed(Fresh(level, 0, continueSent), chunks).1;
      && result.Packet? && result.content == content
      && result.header.uri == uri && Delivered(result.header.options, ws, |content|)
  {
    StreamVerdict(level, continueSent, chunks, head, ws, content + rest);
    var h: Header :| h.uri == uri && Ordered(h.options) && Holds(h.options, ws)
      && Feed(Fresh(level, 0, continueSent), chunks).1 == Assemble(h, content + rest);
    LengthIsSet(h.options, ws, |content|);
    LastPasses(level, ws, "content-length");
    assert ContentLength(h.options) == Good(|content|) by {
      assert Find(h.options, "content-length") == ValueOf(ws, "content-length");
    }
    assert (content + rest)[..|content|] == content;
  }

  /** Without such an option it is refused. */
  lemma LengthIsWanted(level: Level, continueSent: bool, chunks: seq<string>, head: string, ws: seq<Written>, rest: string)
    requires IsStream(head, ws) && AllPass(level, ws) && ParseHead(head).Good?
    requires NoneEmpty(chunks) && Concat(chunks) == Stream(head, ws, rest)
    requires LastValue(ws, "content-length") == None
    ensures Feed(Fresh(level, 0, continueSent), chunks).1 == Error(LengthRequired)
  {
    StreamVerdict(level, continueSent, chunks, head, ws, rest);
    var h: Header :| h.uri == ParseHead(head).value && Ordered(h.options) && Holds(h.options, ws)
      && Feed(Fresh(level, 0, continueSent), chunks).1 == Assemble(h, rest);
    assert Find(h.options, "content-length") == ValueOf(ws, "content-length");
  }

  lemma {:induction false} LastPasses(level: Level, ws: seq<Written>, name: string)
    requires AllPass(level, ws) && LastValue(ws, name).Some?
    ensures Validate(level, name, LastValue(ws, name).value) == None
  {
    if LastValue(ws[1..], name).Some? {
      LastPasses(level, ws[1..], name);
    }
  }
}
