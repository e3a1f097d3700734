/** Streams whose header may end in two places: which one the reader takes depends on
    how the stream is cut. */
module HttpAmbiguity {
  import opened Text
  import opened OrderedMap
  import opened HttpText
  import opened HttpHeader
  import opened HttpReader
  import opened HttpSession
  import HttpOptions

  /** The header of the packet with a bare empty line behind it. */
  function Opening(p: Sent): string {
    HeaderText(p) + BARE_EMPTY_LINE
  }

  function HeaderText(p: Sent): string {
    Join(Lines(PacketHeader(p)))
  }

  ghost predicate IsRequest(level: Level, p: Sent) {
    Fits(p.header) && Passes(level, p.header.options) && p.content == ""
  }

  // ----- The two ends -----------------------------------------------------------

  lemma NoEmptyLineInside(j: string, rest: string, i: nat)
    requires j != "" && NoEmptyLine(j) && !IsSeparator(j[|j| - 1], true)
    requires Occurs(j + BARE_EMPTY_LINE + rest, EMPTY_LINE, i)
    ensures i >= |j| + 2
  {
    var s := j + BARE_EMPTY_LINE + rest;
    EmptyLineChars(s, i);
    assert forall k :: 0 <= k < |j| ==> s[k] == j[k];
    assert s[|j|] == '\n' && s[|j| + 1] == '\n';
  }

  lemma NoBareEmptyLineInside(j: string, rest: string, i: nat)
    requires j != "" && NoEmptyLine(j) && !IsSeparator(j[|j| - 1], true)
    requires Occurs(j + BARE_EMPTY_LINE + rest, BARE_EMPTY_LINE, i)
    ensures i >= |j|
  {
    var s := j + BARE_EMPTY_LINE + rest;
    BareEmptyLineChars(s, i);
    assert forall k :: 0 <= k < |j| ==> s[k] == j[k];
    assert s[|j|] == '\n' && s[|j| + 1] == '\n';
  }

  /** As long as nothing else has arrived, the bare empty line ends the header. */
  lemma EndsEarly(j: string)
    requires j != "" && NoEmptyLine(j) && !IsSeparator(j[|j| - 1], true)
    ensures Terminator(j + BARE_EMPTY_LINE) == Some(Break(|j|, 2))
  {
    var s := j + BARE_EMPTY_LINE;
    assert s + "" == s;
    assert s[|j|..|j| + 2] == BARE_EMPTY_LINE;
    assert Occurs(s, BARE_EMPTY_LINE, |j|);
    if FindFirst(s, EMPTY_LINE).Some? {
      NoEmptyLineInside(j, "", FindFirst(s, EMPTY_LINE).value);
    }
    NoBareEmptyLineInside(j, "", FindFirst(s, BARE_EMPTY_LINE).value);
  }

  lemma EndsAt(s: string, y: string, n: nat)
    requires IsLine(y) && |s| >= n + |y| + 4 && s[n..n + |y|] == y && s[n + |y|..n + |y| + 4] == EMPTY_LINE
    requires FindFirst(s, EMPTY_LINE).Some? && FindFirst(s, EMPTY_LINE).value >= n
    ensures FindFirst(s, EMPTY_LINE) == Some(n + |y|)
  {
    var i := FindFirst(s, EMPTY_LINE).value;
    assert Occurs(s, EMPTY_LINE, n + |y|);
    EmptyLineChars(s, i);
    forall k | n <= k < n + |y| ensures s[k] != '\r' {
      assert s[k] == s[n..n + |y|][k - n];
    }
  }

  /** Once a proper one has arrived, that one does. */
  lemma EndsLate(j: string, y: string, s: string)
    requires j != "" && NoEmptyLine(j) && !IsSeparator(j[|j| - 1], true) && IsLine(y)
    requires s == j + BARE_EMPTY_LINE + (y + EMPTY_LINE)
    ensures Terminator(s) == Some(Break(|j| + 2 + |y|, 4)) && Ambiguous(s)
  {
    var n := |j| + 2;
    assert s[n..n + |y|] == y && s[n + |y|..n + |y| + 4] == EMPTY_LINE;
    assert Occurs(s, EMPTY_LINE, n + |y|);
    NoEmptyLineInside(j, y + EMPTY_LINE, FindFirst(s, EMPTY_LINE).value);
    EndsAt(s, y, n);
    assert s[|j|..|j| + 2] == BARE_EMPTY_LINE;
    assert Occurs(s, BARE_EMPTY_LINE, |j|);
    NoBareEmptyLineInside(j, y + EMPTY_LINE, FindFirst(s, BARE_EMPTY_LINE).value);
  }

  // ----- One line more ----------------------------------------------------------

  lemma SkipBareEmptyLine(y: string)
    requires IsLine(y)
    ensures Split(SkipSeparators((BARE_EMPTY_LINE + y)[1..], true), true) == [y]
  {
    var t := (BARE_EMPTY_LINE + y)[1..];
    assert t[0] == '\n' && t[1..] == y;
    SplitWhole(y, true);
  }

  /** A line behind a bare empty line is one line more. */
  lemma {:induction false} SplitOneMore(lines: seq<string>, y: string)
    requires AreLines(lines) && IsLine(y)
    ensures Split(Join(lines) + (BARE_EMPTY_LINE + y), true) == lines + [y]
    decreases |lines|
  {
    var tail := BARE_EMPTY_LINE + y;
    if |lines| == 1 {
      SplitToken(lines[0], tail, true);
      SkipBareEmptyLine(y);
      assert [lines[0]] == lines;
    } else {
      SplitOneMore(lines[1..], y);
      MoreLines(lines, tail);
      assert [lines[0]] + (lines[1..] + [y]) == lines + [y];
    }
  }

  lemma MoreLines(lines: seq<string>, tail: string)
    requires AreLines(lines) && |lines| > 1
    ensures Split(Join(lines) + tail, true) == [lines[0]] + Split(Join(lines[1..]) + tail, true)
  {
    var rest := Join(lines[1..]);
    JoinStarts(lines[1..]);
    Associates(lines[0] + CRLF, rest, tail);
    SplitFirstLine(lines[0], rest + tail);
  }

  lemma {:induction false} NoOption(level: Level, m: Options, o: Options, y: string)
    requires forall e :: e in o ==> IsName(e.key) && IsValue(e.value)
    requires Passes(level, o) && ':' !in y
    ensures ParseOptions(level, m, OptionLines(o) + [y]) == Refused(MalformedPacket)
    decreases |o|
  {
    var lines := OptionLines(o) + [y];
    if o == [] {
      assert lines == [y];
      NoColon(y);
    } else {
      assert o[0] in o;
      forall e | e in o[1..] ensures e in o {
      }
      ParseOptionOf(o[0]);
      assert lines[1..] == OptionLines(o[1..]) + [y];
      NoOption(level, Put(m, o[0].key, o[0].value), o[1..], y);
    }
  }

  lemma NoColon(y: string)
    requires ':' !in y
    ensures ParseOption(y) == None
  {
    forall i: nat ensures !Occurs(y, ":", i) {
      assert i < |y| ==> y[i..i + 1] == [y[i]];
    }
  }

  lemma LongHeaderIsRefused(level: Level, h: Header, y: string)
    requires Fits(h) && Passes(level, h.options) && IsLine(y) && ':' !in y
    ensures ParseRequest(level, Join(Lines(h)) + (BARE_EMPTY_LINE + y)) == Refused(MalformedPacket)
  {
    var text, more := Join(Lines(h)) + (BARE_EMPTY_LINE + y), OptionLines(h.options) + [y];
    assert Split(text, true)[1..] == more by {
      LinesAreLines(h);
      SplitOneMore(Lines(h), y);
    }
    assert ParseOptions(level, NEW_OPTIONS, more) == Refused(MalformedPacket) by {
      NoOption(level, NEW_OPTIONS, h.options, y);
    }
  }

  // ----- Two ways to cut ---------------------------------------------------------

  lemma RequestFits(level: Level, p: Sent)
    requires IsRequest(level, p)
    ensures Fits(PacketHeader(p)) && Passes(level, PacketHeader(p).options)
    ensures var j := HeaderText(p); j != "" && NoEmptyLine(j) && !IsSeparator(j[|j| - 1], true)
  {
    PacketHeaderFits(p);
    HttpOptions.LengthPasses(level, p.header.options, 0);
    LinesAreLines(PacketHeader(p));
    JoinStarts(Lines(PacketHeader(p)));
    JoinHasNoEmptyLine(Lines(PacketHeader(p)));
  }

  /** What a reader makes of a first piece with the end of a header in it. */
  lemma FirstPiece(level: Level, continueSent: bool, chunks: seq<string>, s: string, b: Break)
    requires chunks != [] && chunks[0] == s && s != "" && Terminator(s) == Some(b)
    requires Verdict(ParseRequest(level, s[..b.at]), b, s) != NeedMore
    ensures Feed(Fresh(level, 0, continueSent), chunks).1 == Verdict(ParseRequest(level, s[..b.at]), b, s)
  {
    assert "" + s == s;
    HeaderPiece(Fresh(level, 0, continueSent), b, "", s);
  }

  lemma NothingFollows(p: Sent, b: Break, s: string)
    requires Fits(p.header) && p.content == "" && |s| == b.at + b.len
    ensures Verdict(Good(ReceivedHeader(p)), b, s) == Received(p)
  {
    PacketHeaderTells(p);
    FindCompleted(PacketHeader(p).options, CONTENT_LENGTH);
    LengthIsThere(p);
    assert s[b.at + b.len..] == "";
  }

  /** A piece that ends with the bare empty line is the whole request. */
  lemma CutBehindIt(level: Level, continueSent: bool, p: Sent, y: string)
    requires IsRequest(level, p)
    ensures Feed(Fresh(level, 0, continueSent), [Opening(p), y]).1 == Received(p)
  {
    var j := HeaderText(p);
    RequestFits(level, p);
    EndsEarly(j);
    HeaderRoundTrip(level, PacketHeader(p));
    assert Opening(p)[..|j|] == j;
    NothingFollows(p, Break(|j|, 2), Opening(p));
    FirstPiece(level, continueSent, [Opening(p), y], Opening(p), Break(|j|, 2));
  }

  lemma LongHeader(j: string, y: string, s: string)
    requires s == j + BARE_EMPTY_LINE + (y + EMPTY_LINE)
    ensures s != "" && s[..|j| + 2 + |y|] == j + (BARE_EMPTY_LINE + y)
  {
  }

  lemma RefusedAt(level: Level, continueSent: bool, chunks: seq<string>, s: string, b: Break, e: HttpHeader.Error)
    requires chunks != [] && chunks[0] == s && s != "" && Terminator(s) == Some(b)
    requires ParseRequest(level, s[..b.at]) == Refused(e)
    ensures Feed(Fresh(level, 0, continueSent), chunks).1 == Error(e)
  {
    FirstPiece(level, continueSent, chunks, s, b);
  }

  lemma OnePieceIsRefused(level: Level, continueSent: bool, j: string, y: string, s: string)
    requires j != "" && NoEmptyLine(j) && !IsSeparator(j[|j| - 1], true) && IsLine(y)
    requires s == j + BARE_EMPTY_LINE + (y + EMPTY_LINE)
    requires ParseRequest(level, j + (BARE_EMPTY_LINE + y)) == Refused(MalformedPacket)
    ensures Feed(Fresh(level, 0, continueSent), [s]).1 == Error(MalformedPacket)
  {
    var b := Break(|j| + 2 + |y|, 4);
    assert Terminator(s) == Some(b) by {
      EndsLate(j, y, s);
    }
    assert s != "" && s[..b.at] == j + (BARE_EMPTY_LINE + y) by {
      LongHeader(j, y, s);
    }
    RefusedAt(level, continueSent, [s], s, b, MalformedPacket);
  }

  /** The same bytes in one piece are no request. */
  lemma NotCut(level: Level, continueSent: bool, p: Sent, y: string)
    requires IsRequest(level, p) && IsLine(y) && ':' !in y
    ensures Feed(Fresh(level, 0, continueSent), [Opening(p) + (y + EMPTY_LINE)]).1 == Error(MalformedPacket)
  {
    RequestFits(level, p);
    LongHeaderIsRefused(level, PacketHeader(p), y);
    OnePieceIsRefused(level, continueSent, HeaderText(p), y, Opening(p) + (y + EMPTY_LINE));
  }

  /** A request without content that is followed by a bare empty line, a line and a
      proper empty line: cut behind the first, the stream is that request; in one
      piece it is refused. */
  lemma OneStreamTwoResults(level: Level, continueSent: bool, p: Sent, y: string)
    requires IsRequest(level, p) && IsLine(y) && ':' !in y
    ensures var cut, whole := [Opening(p), y + EMPTY_LINE], [Opening(p) + (y + EMPTY_LINE)];
      && Concat(cut) == Concat(whole) && Ambiguous(Concat(whole))
      && Feed(Fresh(level, 0, continueSent), cut).1 == Received(p)
      && Feed(Fresh(level, 0, continueSent), whole).1 == Error(MalformedPacket)
  {
    var a, b := Opening(p), y + EMPTY_LINE;
    CutBehindIt(level, continueSent, p, b);
    NotCut(level, continueSent, p, y);
    SameBytes(a, b);
    RequestFits(level, p);
    EndsLate(HeaderText(p), y, a + b);
  }

  lemma PutFirst(k: string, v: string)
    ensures Put([], k, v) == [Entry(k, v)]
  {
  }

  lemma BareOptions(uri: string)
    ensures PacketHeader(Sent(Header(uri, []), "")).options == [Entry(CONTENT_LENGTH, "0")]
  {
    assert NatText(0) == "0";
    PutFirst(CONTENT_LENGTH, "0");
  }

  lemma BareIsRequest()
    ensures IsRequest(Weak, Sent(Header("/", []), ""))
  {
  }

  lemma BareRequest()
    ensures HeaderText(Sent(Header("/", []), "")) == "POST / HTTP/1.0\r\ncontent-length: 0"
  {
    var h := PacketHeader(Sent(Header("/", []), ""));
    BareOptions("/");
    assert HeadLine(h) == "POST / HTTP/1.0" && OptionLine(h.options[0]) == "content-length: 0";
    assert h.options[1..] == [];
    assert OptionLines(h.options) == ["content-length: 0"];
    var lines := Lines(h);
    assert lines == ["POST / HTTP/1.0", "content-length: 0"] && lines[1..] == ["content-length: 0"];
  }

  /** Such a stream. */
  lemma SuchAStream()
    ensures var first, second := "POST / HTTP/1.0\r\ncontent-length: 0\n\n", "more\r\n\r\n";
      && Feed(Fresh(Weak, 0, false), [first, second]).1.Packet?
      && Feed(Fresh(Weak, 0, false), [first + second]).1 == Error(MalformedPacket)
  {
    var p := Sent(Header("/", []), "");
    BareRequest();
    BareIsRequest();
    IsALine();
    assert Opening(p) == "POST / HTTP/1.0\r\ncontent-length: 0\n\n";
    assert "more" + EMPTY_LINE == "more\r\n\r\n";
    OneStreamTwoResults(Weak, false, p, "more");
  }

  lemma IsALine()
    ensures IsLine("more") && ':' !in "more"
  {
  }
}
