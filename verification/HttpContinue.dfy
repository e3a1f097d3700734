/** Who is told to continue: of the requests that a connection carries, the first that
    asks for it and waits for it, and no other. */
module HttpContinue {
  import opened Text
  import opened OrderedMap
  import opened HttpText
  import opened HttpHeader
  import opened HttpReader
  import opened HttpSession
  import opened HttpConnection
  import HttpOptions

  /** The sender wants an interim response before it goes on. */
  predicate Asks(p: Sent) {
    Has(p.header.options, EXPECT)
  }

  /** After `s` one of the pieces ends when `n` octets have arrived, but fewer than `m`. */
  predicate Pauses(s: string, chunks: seq<string>, n: nat, m: nat)
    decreases |chunks|
  {
    chunks != [] && (n <= |s + chunks[0]| < m || Pauses(s + chunks[0], chunks[1..], n, m))
  }

  /** The request asks, and a piece of it ends behind its header but before its end. */
  predicate Waits(chunks: seq<string>, p: Sent) {
    Asks(p) && Pauses("", chunks, HeaderBreak(p).at + 4, |PacketText(p)|)
  }

  function Count(b: bool): nat {
    if b then 1 else 0
  }

  // ----- One piece --------------------------------------------------------------

  /** All of a packet, within the limit, whose header ends at `b` and comes to `parsed`. */
  ghost predicate Arriving(r: Reader, parsed: Parsed<Header>, b: Break, whole: string) {
    Headed(r.level, whole, b, parsed) && Exact(parsed, b, whole) && (r.maxSize == 0 || |whole| < r.maxSize)
  }

  /** The state of a reader that has `s` and needs more. */
  function Midway(r: Reader, parsed: Parsed<Header>, b: Break, s: string): Reader
    requires Verdict(parsed, b, s) == NeedMore
  {
    After(if r.maxSize == 0 then r else r.(totalSize := |s|), parsed, b, s)
  }

  lemma NotAllYet(r: Reader, parsed: Parsed<Header>, b: Break, s: string, whole: string)
    requires Arriving(r, parsed, b, whole) && s <= whole && s != whole
    ensures Verdict(parsed, b, s) == NeedMore
  {
    ExactNeedsAll(parsed, b, whole, s);
  }

  /** A piece leaves the reader with more of the packet, or with all of it. */
  ghost predicate LeadsTo(r: Reader, parsed: Parsed<Header>, b: Break, s: string, whole: string, t: Reader, result: ReadResult) {
    if s == whole then result.Packet? && t.continueSent == r.continueSent
    else Verdict(parsed, b, s) == NeedMore && result == NeedMore && t == Midway(r, parsed, b, s)
  }

  lemma UnlimitedPiece(r: Reader, parsed: Parsed<Header>, b: Break, s: string, piece: string, whole: string)
    requires Arriving(r, parsed, b, whole) && piece != "" && s + piece <= whole && r.maxSize == 0
    requires Verdict(parsed, b, s) == NeedMore
    ensures var (t, result) := ReadRequest(Midway(r, parsed, b, s), piece);
      LeadsTo(r, parsed, b, s + piece, whole, t, result)
  {
    ReadOn(Midway(r, parsed, b, s), piece);
    PieceStep(r, parsed, b, s, piece, whole);
    ExactNeedsAll(parsed, b, whole, s + piece);
  }

  lemma LimitedPiece(r: Reader, parsed: Parsed<Header>, b: Break, s: string, piece: string, whole: string)
    requires Arriving(r, parsed, b, whole) && piece != "" && s + piece <= whole && s != whole && r.maxSize > 0
    requires Verdict(parsed, b, s) == NeedMore
    ensures var (t, result) := ReadRequest(Midway(r, parsed, b, s), piece);
      LeadsTo(r, parsed, b, s + piece, whole, t, result)
  {
    LimitedStep(r.(totalSize := |s|), parsed, b, s, piece, whole);
    ExactNeedsAll(parsed, b, whole, s + piece);
  }

  lemma ShorterThanAll(s: string, piece: string, whole: string)
    requires piece != "" && s + piece <= whole
    ensures s <= whole && s != whole
  {
  }

  lemma PieceArrives(r: Reader, parsed: Parsed<Header>, b: Break, s: string, piece: string, whole: string)
    requires Arriving(r, parsed, b, whole) && piece != "" && s + piece <= whole
    ensures Verdict(parsed, b, s) == NeedMore
    ensures var (t, result) := ReadRequest(Midway(r, parsed, b, s), piece);
      LeadsTo(r, parsed, b, s + piece, whole, t, result)
  {
    ShorterThanAll(s, piece, whole);
    NotAllYet(r, parsed, b, s, whole);
    if r.maxSize == 0 {
      UnlimitedPiece(r, parsed, b, s, piece, whole);
    } else {
      LimitedPiece(r, parsed, b, s, piece, whole);
    }
  }

  /** The connection has that of the packet. */
  ghost predicate Holds(c: Connection, r: Reader, parsed: Parsed<Header>, b: Break, s: string) {
    Verdict(parsed, b, s) == NeedMore && c.reader.(level := r.level, maxSize := r.maxSize) == Midway(r, parsed, b, s)
  }

  /** What the header says that was parsed. */
  predicate HeaderAsks(parsed: Parsed<Header>) {
    parsed.Good? && Has(parsed.value.options, EXPECT)
  }

  lemma ExpectsMidway(r: Reader, parsed: Parsed<Header>, b: Break, s: string)
    requires Verdict(parsed, b, s) == NeedMore
    ensures ExpectsContinue(Midway(r, parsed, b, s)) <==> b.at + b.len <= |s| && HeaderAsks(parsed) && !r.continueSent
  {
  }

  /** The piece that ends behind the header is answered, if none was before. */
  predicate Tells(r: Reader, parsed: Parsed<Header>, b: Break, s: string, whole: string) {
    s != whole && b.at + b.len <= |s| && HeaderAsks(parsed) && !r.continueSent
  }

  /** The connection after `s`. */
  ghost predicate Told(
      c: Connection, r: Reader, parsed: Parsed<Header>, b: Break, s: string, whole: string, d: Connection, reading: Reading) {
    var told := Tells(r, parsed, b, s, whole);
    && d.interim == c.interim + Count(told)
    && d.reader.continueSent == (r.continueSent || told)
    && (reading == Waiting <==> s != whole)
    && (s != whole ==> Holds(d, r.(continueSent := r.continueSent || told), parsed, b, s))
  }

  lemma TakeTells(c: Connection, r: Reader, parsed: Parsed<Header>, b: Break, s: string, whole: string, t: Reader, result: ReadResult)
    requires LeadsTo(r, parsed, b, s, whole, t, result)
    ensures Told(c, r, parsed, b, s, whole, Take(c, t, result).0, Take(c, t, result).1)
  {
    if s != whole {
      ExpectsMidway(r, parsed, b, s);
    }
  }

  lemma PieceTells(c: Connection, r: Reader, parsed: Parsed<Header>, b: Break, s: string, piece: string, whole: string)
    requires Arriving(r, parsed, b, whole) && piece != "" && s + piece <= whole && Holds(c, r, parsed, b, s)
    ensures var (d, reading) := ReadFrom(c, r.level, r.maxSize, piece);
      Told(c, r, parsed, b, s + piece, whole, d, reading)
  {
    PieceArrives(r, parsed, b, s, piece, whole);
    var (t, result) := ReadRequest(Midway(r, parsed, b, s), piece);
    TakeTells(c, r, parsed, b, s + piece, whole, t, result);
  }

  // ----- All pieces -------------------------------------------------------------

  lemma NothingBehind(s: string, chunks: seq<string>, whole: string)
    requires chunks != [] && NoneEmpty(chunks) && s + Concat(chunks) <= whole && s + chunks[0] == whole
    ensures chunks[1..] == [] && s + Concat(chunks) == whole
  {
    ConcatStep(s, chunks, whole);
    if chunks[1..] != [] {
      assert chunks[1] != "";
      ConcatStep(s + chunks[0], chunks[1..], whole);
    }
  }

  lemma {:induction false} FeedTells(
      c: Connection, r: Reader, parsed: Parsed<Header>, b: Break, s: string, chunks: seq<string>, whole: string)
    requires Arriving(r, parsed, b, whole) && Holds(c, r, parsed, b, s)
    requires NoneEmpty(chunks) && s + Concat(chunks) <= whole && s != whole
    ensures var (d, reading) := FeedTo(c, r.level, r.maxSize, chunks);
      var told := HeaderAsks(parsed) && !r.continueSent && Pauses(s, chunks, b.at + b.len, |whole|);
      && d.interim == c.interim + Count(told)
      && d.reader.continueSent == (r.continueSent || told)
      && (reading == Waiting <==> s + Concat(chunks) != whole)
    decreases |chunks|
  {
    if chunks == [] {
      assert s + "" == s;
    } else {
      var piece := chunks[0];
      ConcatStep(s, chunks, whole);
      PieceTells(c, r, parsed, b, s, piece, whole);
      if s + piece == whole {
        NothingBehind(s, chunks, whole);
      } else {
        var told := Tells(r, parsed, b, s + piece, whole);
        FeedTells(ReadFrom(c, r.level, r.maxSize, piece).0, r.(continueSent := r.continueSent || told), parsed, b,
                  s + piece, chunks[1..], whole);
      }
    }
  }

  // ----- One request --------------------------------------------------------------

  lemma SendableArrives(level: Level, maxSize: nat, continueSent: bool, p: Sent)
    requires Sendable(level, maxSize, p)
    ensures Arriving(Fresh(level, maxSize, continueSent), Good(ReceivedHeader(p)), HeaderBreak(p), PacketText(p))
  {
    PacketIsHeaded(level, p);
    PacketIsExact(p);
  }

  lemma ExpectArrives(p: Sent)
    ensures Has(ReceivedHeader(p).options, EXPECT) <==> Asks(p)
  {
    var o, length := p.header.options, NatText(|p.content|);
    FindPut(o, CONTENT_LENGTH, length, EXPECT);
    FindPut(Put(o, CONTENT_LENGTH, length), CONTENT_TYPE, TEXT_XML, EXPECT);
    var sent := PacketHeader(p).options;
    var o1 := PutDefault(sent, CONNECTION, "close");
    FindPutDefault(sent, CONNECTION, "close", EXPECT);
    FindPutDefault(o1, HOST, "", EXPECT);
    FindPutDefault(PutDefault(o1, HOST, ""), USER_AGENT, "unknown", EXPECT);
  }

  /** A reader that is ready for the next packet is as good as a new one. */
  lemma AsIfNew(c: Connection, level: Level, maxSize: nat, chunks: seq<string>)
    requires ReadyForNext(c.reader.(level := level, maxSize := maxSize)) && chunks != []
    ensures FeedTo(c, level, maxSize, chunks) ==
            FeedTo(c.(reader := Fresh(level, maxSize, c.reader.continueSent)), level, maxSize, chunks)
  {
    var r, untouched := c.reader.(level := level, maxSize := maxSize), Fresh(level, maxSize, c.reader.continueSent);
    var (t, result) := ReadRequest(r, chunks[0]);
    assert ReadRequest(untouched, chunks[0]) == (t, result);
    TakeForgets(c, c.(reader := untouched), t, result);
  }

  lemma NewHolds(c: Connection, level: Level, maxSize: nat, parsed: Parsed<Header>, b: Break)
    requires c.reader == Fresh(level, maxSize, c.reader.continueSent) && b.len > 0
    ensures Holds(c, c.reader, parsed, b, "")
  {
  }

  lemma FromNew(
      c: Connection, level: Level, maxSize: nat, chunks: seq<string>, parsed: Parsed<Header>, b: Break, whole: string,
      asks: bool)
    requires asks == HeaderAsks(parsed) && ReadyForNext(c.reader.(level := level, maxSize := maxSize)) && b.len > 0 && chunks != []
    requires Arriving(Fresh(level, maxSize, c.reader.continueSent), parsed, b, whole)
    requires NoneEmpty(chunks) && Concat(chunks) <= whole
    ensures var (d, reading) := FeedTo(c, level, maxSize, chunks);
      var told := !c.reader.continueSent && asks && Pauses("", chunks, b.at + b.len, |whole|);
      && d.interim == c.interim + Count(told)
      && d.reader.continueSent == (c.reader.continueSent || told)
      && (reading == Waiting <==> Concat(chunks) != whole)
  {
    var r := Fresh(level, maxSize, c.reader.continueSent);
    assert FeedTo(c, level, maxSize, chunks) == FeedTo(c.(reader := r), level, maxSize, chunks) by {
      AsIfNew(c, level, maxSize, chunks);
    }
    assert Holds(c.(reader := r), r, parsed, b, "") by {
      NewHolds(c.(reader := r), level, maxSize, parsed, b);
    }
    assert "" + Concat(chunks) == Concat(chunks);
    FeedTells(c.(reader := r), r, parsed, b, "", chunks, whole);
  }

  /** At whatever moment and however it is cut, a request is told to continue exactly
      if it asks for that, a piece has ended behind its header but before its end, and
      no request of the connection was told before. */
  lemma ContinueExactly(c: Connection, level: Level, maxSize: nat, chunks: seq<string>, p: Sent)
    requires ReadyForNext(c.reader.(level := level, maxSize := maxSize)) && Sendable(level, maxSize, p)
    requires NoneEmpty(chunks) && Concat(chunks) <= PacketText(p)
    ensures var (d, reading) := FeedTo(c, level, maxSize, chunks);
      && d.interim == c.interim + Count(!c.reader.continueSent && Waits(chunks, p))
      && (d.reader.continueSent <==> c.reader.continueSent || Waits(chunks, p))
      && (reading == Waiting <==> Concat(chunks) != PacketText(p))
  {
    if chunks == [] {
      NotEmpty(p);
    } else {
      var parsed, b, whole := Good(ReceivedHeader(p)), HeaderBreak(p), PacketText(p);
      assert Arriving(Fresh(level, maxSize, c.reader.continueSent), parsed, b, whole) by {
        SendableArrives(level, maxSize, c.reader.continueSent, p);
      }
      assert HeaderAsks(parsed) == Asks(p) by {
        ExpectArrives(p);
      }
      FromNew(c, level, maxSize, chunks, parsed, b, whole, Asks(p));
    }
  }

  lemma NotEmpty(p: Sent)
    ensures PacketText(p) != ""
  {
    DumpIsLines(PacketHeader(p));
  }

  lemma PausesAtOnce(chunks: seq<string>, n: nat, m: nat)
    requires chunks != [] && n <= |chunks[0]| < m
    ensures Pauses("", chunks, n, m)
  {
    assert "" + chunks[0] == chunks[0];
  }

  lemma HeaderIsSent(p: Sent)
    requires p.content != ""
    ensures HeaderBreak(p).at + 4 == |Dump(PacketHeader(p))| < |PacketText(p)|
  {
    DumpIsLines(PacketHeader(p));
  }

  /** A sender that has sent the header alone waits, */
  lemma HeaderAlone(p: Sent)
    requires Asks(p) && p.content != ""
    ensures var chunks := [Dump(PacketHeader(p))];
      NoneEmpty(chunks) && Concat(chunks) <= PacketText(p) && Concat(chunks) != PacketText(p) && Waits(chunks, p)
  {
    var chunks := [Dump(PacketHeader(p))];
    HeaderIsSent(p);
    OnePiece(chunks[0]);
    PausesAtOnce(chunks, HeaderBreak(p).at + 4, |PacketText(p)|);
  }

  /** and has waited when it sends the content. */
  lemma HeaderThenContent(p: Sent)
    requires Asks(p) && p.content != ""
    ensures var batch := [Dump(PacketHeader(p)), p.content]; Carry(batch, p) && Waits(batch, p)
  {
    var batch := [Dump(PacketHeader(p)), p.content];
    HeaderIsSent(p);
    SameBytes(batch[0], batch[1]);
    PausesAtOnce(batch, HeaderBreak(p).at + 4, |PacketText(p)|);
  }

  // ----- A series of requests -------------------------------------------------------

  function Through(c: Connection, level: Level, maxSize: nat, batches: seq<seq<string>>): Connection
    decreases |batches|
  {
    if batches == [] then c else Through(FeedTo(c, level, maxSize, batches[0]).0, level, maxSize, batches[1..])
  }

  predicate SomeWaits(batches: seq<seq<string>>, packets: seq<Sent>)
    requires |batches| == |packets|
  {
    exists i :: 0 <= i < |packets| && Waits(batches[i], packets[i])
  }

  ghost predicate Carried(level: Level, maxSize: nat, batches: seq<seq<string>>, packets: seq<Sent>) {
    && |batches| == |packets|
    && forall i :: 0 <= i < |packets| ==> Sendable(level, maxSize, packets[i]) && Carry(batches[i], packets[i])
  }

  lemma FirstOrLater(batches: seq<seq<string>>, packets: seq<Sent>)
    requires |batches| == |packets| && packets != []
    ensures SomeWaits(batches, packets) <==> Waits(batches[0], packets[0]) || SomeWaits(batches[1..], packets[1..])
  {
    if SomeWaits(batches, packets) && !Waits(batches[0], packets[0]) {
      var i :| 0 <= i < |packets| && Waits(batches[i], packets[i]);
      assert Waits(batches[1..][i - 1], packets[1..][i - 1]);
    }
    if SomeWaits(batches[1..], packets[1..]) {
      var i :| 0 <= i < |packets[1..]| && Waits(batches[1..][i], packets[1..][i]);
      assert Waits(batches[i + 1], packets[i + 1]);
    }
  }

  /** Over any series of requests: one interim response if any of them asks and waits
      and none was sent before, and otherwise none. */
  lemma {:induction false} SeriesTells(
      c: Connection, level: Level, maxSize: nat, batches: seq<seq<string>>, packets: seq<Sent>)
    requires ReadyForNext(c.reader.(level := level, maxSize := maxSize)) && Carried(level, maxSize, batches, packets)
    ensures var d := Through(c, level, maxSize, batches);
      && d.interim == c.interim + Count(!c.reader.continueSent && SomeWaits(batches, packets))
      && (d.reader.continueSent <==> c.reader.continueSent || SomeWaits(batches, packets))
      && ReadyForNext(d.reader.(level := level, maxSize := maxSize))
    decreases |batches|
  {
    if batches != [] {
      ContinueExactly(c, level, maxSize, batches[0], packets[0]);
      RequestIsRead(c, level, maxSize, batches[0], packets[0]);
      SeriesTells(FeedTo(c, level, maxSize, batches[0]).0, level, maxSize, batches[1..], packets[1..]);
      FirstOrLater(batches, packets);
    }
  }

  lemma ThroughFirst(c: Connection, level: Level, maxSize: nat, batches: seq<seq<string>>, more: seq<seq<string>>)
    requires batches != [] && batches[1..] == more
    ensures Through(c, level, maxSize, batches) == Through(FeedTo(c, level, maxSize, batches[0]).0, level, maxSize, more)
  {
  }

  lemma {:induction false} ThroughOneMore(c: Connection, level: Level, maxSize: nat, batches: seq<seq<string>>, i: nat)
    requires i < |batches|
    ensures Through(c, level, maxSize, batches[..i + 1]) ==
            FeedTo(Through(c, level, maxSize, batches[..i]), level, maxSize, batches[i]).0
    decreases i
  {
    if i == 0 {
      ThroughFirst(c, level, maxSize, batches[..1], []);
    } else {
      var rest := batches[1..];
      ThroughFirst(c, level, maxSize, batches[..i + 1], rest[..i]);
      ThroughFirst(c, level, maxSize, batches[..i], rest[..i - 1]);
      ThroughOneMore(FeedTo(c, level, maxSize, batches[0]).0, level, maxSize, rest, i - 1);
    }
  }

  /** Of a series of requests on one connection exactly the first that asks and waits
      is told. */
  lemma OnlyTheFirst(
      c: Connection, level: Level, maxSize: nat, batches: seq<seq<string>>, packets: seq<Sent>, i: nat)
    requires ReadyForNext(c.reader.(level := level, maxSize := maxSize)) && Carried(level, maxSize, batches, packets)
    requires i < |packets|
    ensures Through(c, level, maxSize, batches[..i + 1]).interim == Through(c, level, maxSize, batches[..i]).interim +
      Count(!c.reader.continueSent && Waits(batches[i], packets[i]) && !SomeWaits(batches[..i], packets[..i]))
  {
    SeriesTells(c, level, maxSize, batches[..i], packets[..i]);
    ThroughOneMore(c, level, maxSize, batches, i);
    ContinueExactly(Through(c, level, maxSize, batches[..i]), level, maxSize, batches[i], packets[i]);
  }

  /** Two requests that both ask and both send their content only when they are told:
      the first is told, and the second is left waiting. */
  lemma TheSecondIsNotTold(c: Connection, level: Level, maxSize: nat, p: Sent, q: Sent)
    requires ReadyForNext(c.reader.(level := level, maxSize := maxSize)) && !c.reader.continueSent
    requires Sendable(level, maxSize, p) && Asks(p) && p.content != ""
    requires Sendable(level, maxSize, q) && Asks(q) && q.content != ""
    ensures var d := FeedTo(c, level, maxSize, [Dump(PacketHeader(p)), p.content]).0;
      var (e, reading) := FeedTo(d, level, maxSize, [Dump(PacketHeader(q))]);
      && FeedTo(c, level, maxSize, [Dump(PacketHeader(p))]).0.interim == d.interim == c.interim + 1
      && reading == Waiting && e.interim == d.interim
  {
    var d := FeedTo(c, level, maxSize, [Dump(PacketHeader(p)), p.content]).0;
    HeaderThenContent(p);
    HeaderAlone(p);
    HeaderAlone(q);
    RequestIsRead(c, level, maxSize, [Dump(PacketHeader(p)), p.content], p);
    ContinueExactly(c, level, maxSize, [Dump(PacketHeader(p)), p.content], p);
    ContinueExactly(c, level, maxSize, [Dump(PacketHeader(p))], p);
    ContinueExactly(d, level, maxSize, [Dump(PacketHeader(q))], q);
  }

  /** There are such requests. */
  lemma SuchARequest(level: Level, uri: string, content: string)
    requires uri != "" && HasNoSpace(uri) && 0 < |content| <= UINT32_MAX
    ensures var p := Sent(Header(uri, [Entry(EXPECT, "100-continue")]), content);
      Sendable(level, 0, p) && Asks(p) && p.content != ""
  {
    var o := [Entry(EXPECT, "100-continue")];
    ExpectFits();
    assert OptionsFit(o) && Passes(level, o);
    HttpOptions.IsSendable(level, 0, Sent(Header(uri, o), content));
  }

  lemma ExpectFits()
    ensures IsName(EXPECT) && IsValue("100-continue") && Occurs(Lower("100-continue"), "100-continue", 0)
  {
    LowerKeeps("100-continue");
  }
}
