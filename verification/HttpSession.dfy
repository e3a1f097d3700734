/** What a reader makes of a stream of pieces: independence of where the stream is
    cut, the size limit, and whole sessions. */
module HttpSession {
  import opened Text
  import opened OrderedMap
  import opened HttpText
  import opened HttpHeader
  import opened HttpReader

  function Concat(chunks: seq<string>): string {
    if chunks == [] then "" else chunks[0] + Concat(chunks[1..])
  }

  lemma SameBytes(a: string, b: string)
    ensures Concat([a, b]) == a + b == Concat([a + b])
  {
    OnePiece(b);
    OnePiece(a + b);
    assert [a, b][1..] == [b];
  }

  lemma OnePiece(a: string)
    ensures Concat([a]) == a
  {
    assert [a][1..] == [];
    assert a + "" == a;
  }

  predicate NoneEmpty(chunks: seq<string>) {
    forall i :: 0 <= i < |chunks| ==> chunks[i] != ""
  }

  /** Pieces are read until there is a packet or an exception. */
  function Feed(r: Reader, chunks: seq<string>): (Reader, ReadResult)
    decreases |chunks|
  {
    if chunks == [] then (r, NeedMore)
    else
      var (t, result) := ReadRequest(r, chunks[0]);
      if result == NeedMore then Feed(t, chunks[1..]) else (t, result)
  }

  // ----- Where the header ends ----------------------------------------------

  /** However much of the stream has arrived, the reader finds either no end of the
      header or this one. */
  ghost predicate Steady(s: string, b: Break) {
    && b.at + b.len <= |s|
    && forall n: nat :: n <= |s| ==> Terminator(s[..n]) == if n < b.at + b.len then None else Some(b)
  }

  lemma OccursInPrefix(s: string, p: string, n: nat, i: nat)
    requires n <= |s|
    ensures Occurs(s[..n], p, i) <==> i + |p| <= n && Occurs(s, p, i)
  {
    if i + |p| <= n {
      assert s[..n][i..i + |p|] == s[i..i + |p|];
    }
  }

  lemma FindInPrefix(s: string, p: string, n: nat)
    requires n <= |s|
    ensures FindFirst(s[..n], p) ==
      match FindFirst(s, p)
      case None => None
      case Some(i) => if i + |p| <= n then Some(i) else None
  {
    forall i: nat ensures Occurs(s[..n], p, i) <==> i + |p| <= n && Occurs(s, p, i) {
      OccursInPrefix(s, p, n, i);
    }
  }

  /** A bare empty line comes to its end before the first proper one does. */
  predicate Ambiguous(s: string) {
    var i, j := FindFirst(s, BARE_EMPTY_LINE), FindFirst(s, EMPTY_LINE);
    i.Some? && j.Some? && i.value + 2 < j.value + 4
  }

  lemma SteadyUnlessAmbiguous(s: string)
    requires Terminator(s).Some? && !Ambiguous(s)
    ensures Steady(s, Terminator(s).value)
  {
    var b := Terminator(s).value;
    forall n: nat | n <= |s| ensures Terminator(s[..n]) == if n < b.at + b.len then None else Some(b) {
      FindInPrefix(s, EMPTY_LINE, n);
      FindInPrefix(s, BARE_EMPTY_LINE, n);
      if FindFirst(s, EMPTY_LINE).Some? && FindFirst(s, BARE_EMPTY_LINE).Some? {
        var i, j := FindFirst(s, BARE_EMPTY_LINE).value, FindFirst(s, EMPTY_LINE).value;
        assert s[i..i + 2][1] == '\n' && s[j..j + 4][2] == '\r';
        assert s[i + 1] == '\n';
      }
    }
  }

  /** The end of the header does not depend on where the stream is cut exactly when
      no bare empty line ends before the first proper empty line ends. */
  lemma WhenSteady(s: string)
    requires Terminator(s).Some?
    ensures (exists b :: Steady(s, b)) <==> !Ambiguous(s)
  {
    if Ambiguous(s) {
      var i, j := FindFirst(s, BARE_EMPTY_LINE).value, FindFirst(s, EMPTY_LINE).value;
      FindInPrefix(s, EMPTY_LINE, i + 2);
      FindInPrefix(s, BARE_EMPTY_LINE, i + 2);
      assert s[..|s|] == s;
      forall b ensures !Steady(s, b) {
        assert Terminator(s[..i + 2]) == Some(Break(i, 2));
        assert Terminator(s[..|s|]) == Some(Break(j, 4));
      }
    } else {
      SteadyUnlessAmbiguous(s);
    }
  }

  // ----- One piece ----------------------------------------------------------

  function Fresh(level: Level, maxSize: nat, continueSent: bool): Reader {
    Reader("", "", None, false, level, maxSize, 0, continueSent)
  }

  /** What the reader answers when all of `s`, and no more, has arrived; `parsed` is
      what the header comes to. */
  function Verdict(parsed: Parsed<Header>, b: Break, s: string): ReadResult {
    if |s| < b.at + b.len then NeedMore
    else
      match parsed
      case Refused(e) => Error(e)
      case Good(h) => Assemble(h, s[b.at + b.len..])
  }

  /** The state of a reader that has asked for more after `s`. */
  function After(r: Reader, parsed: Parsed<Header>, b: Break, s: string): Reader
    requires Verdict(parsed, b, s) == NeedMore
  {
    if |s| < b.at + b.len then r.(headerCache := s, contentCache := "", header := None, constructed := false)
    else
      r.(headerCache := s[..b.at], contentCache := s[b.at + b.len..], constructed := false,
         header := Some(parsed.value))
  }

  predicate SameSettings(t: Reader, r: Reader) {
    t.level == r.level && t.maxSize == r.maxSize && t.continueSent == r.continueSent
  }

  /** After `s`, the outcome of taking something in is `t` and `result`. */
  ghost predicate Outcome(r: Reader, parsed: Parsed<Header>, b: Break, s: string, t: Reader, result: ReadResult) {
    && result == Verdict(parsed, b, s)
    && (result == NeedMore ==> t == After(r, parsed, b, s))
    && (result.Packet? ==> t.constructed)
    && SameSettings(t, r)
  }

  lemma FinishStep(r: Reader, b: Break, s: string, h: Header)
    requires b.at + b.len <= |s|
    ensures var u := r.(headerCache := s[..b.at], contentCache := s[b.at + b.len..], header := Some(h), constructed := false);
      Outcome(r, Good(h), b, s, Finish(u).0, Finish(u).1)
  {
  }

  /** The reader has `s` and is given `piece`. */
  ghost predicate StepsTo(r: Reader, parsed: Parsed<Header>, b: Break, s: string, piece: string)
    requires Verdict(parsed, b, s) == NeedMore
  {
    var (t, result) := TakeIn(After(r, parsed, b, s), piece);
    Outcome(r, parsed, b, s + piece, t, result)
  }

  lemma HeaderPiece(r: Reader, b: Break, s: string, piece: string)
    requires |s| < b.at + b.len && piece != ""
    requires Terminator(s + piece) == if |s + piece| < b.at + b.len then None else Some(b)
    ensures |s + piece| < b.at + b.len ==>
      TakeIn(r.(headerCache := s, contentCache := "", header := None, constructed := false), piece) ==
        (r.(headerCache := s + piece, contentCache := "", header := None, constructed := false), NeedMore)
    ensures |s + piece| >= b.at + b.len ==>
      var parsed := ParseRequest(r.level, (s + piece)[..b.at]);
      StepsTo(r, parsed, b, s, piece)
  {
    var all := s + piece;
    if |all| >= b.at + b.len {
      var parsed := ParseRequest(r.level, all[..b.at]);
      assert "" + all[b.at + b.len..] == all[b.at + b.len..];
      if parsed.Good? {
        FinishStep(r, b, all, parsed.value);
      }
    }
  }

  lemma BodyCaches(s: string, piece: string, b: Break)
    requires b.at + b.len <= |s|
    ensures (s + piece)[..b.at] == s[..b.at]
    ensures (s + piece)[b.at + b.len..] == s[b.at + b.len..] + piece
  {
  }

  lemma TakeBody(r: Reader, piece: string)
    requires r.header.Some?
    ensures TakeIn(r, piece) == Finish(r.(contentCache := r.contentCache + piece))
  {
  }

  lemma BodyPiece(r: Reader, parsed: Parsed<Header>, b: Break, s: string, piece: string)
    requires |s| >= b.at + b.len && Verdict(parsed, b, s) == NeedMore
    ensures StepsTo(r, parsed, b, s, piece)
  {
    BodyCaches(s, piece, b);
    TakeBody(After(r, parsed, b, s), piece);
    FinishStep(r, b, s + piece, parsed.value);
  }

  /** The stream has a header that ends at `b` and comes to `parsed`. */
  ghost predicate Headed(level: Level, whole: string, b: Break, parsed: Parsed<Header>) {
    Steady(whole, b) && parsed == ParseRequest(level, whole[..b.at])
  }

  /** What a piece changes depends on all that has arrived, and on nothing else. */
  lemma PieceStep(r: Reader, parsed: Parsed<Header>, b: Break, s: string, piece: string, whole: string)
    requires Headed(r.level, whole, b, parsed) && piece != "" && s + piece <= whole
    requires Verdict(parsed, b, s) == NeedMore
    ensures StepsTo(r, parsed, b, s, piece)
  {
    if |s| < b.at + b.len {
      assert whole[..|s + piece|] == s + piece;
      HeaderPiece(r, b, s, piece);
      if |s + piece| >= b.at + b.len {
        assert (s + piece)[..b.at] == whole[..b.at];
      }
    } else {
      BodyPiece(r, parsed, b, s, piece);
    }
  }

  // ----- All pieces ---------------------------------------------------------

  lemma VerdictStable(parsed: Parsed<Header>, b: Break, s: string, t: string)
    requires s <= t && Verdict(parsed, b, s) != NeedMore
    ensures Verdict(parsed, b, t) == Verdict(parsed, b, s)
  {
    if parsed.Good? {
      match ContentLength(parsed.value.options)
      case Refused(_) =>
      case Good(n) => assert s[b.at + b.len..][..n] == t[b.at + b.len..][..n];
    }
  }

  lemma ConcatStep(s: string, chunks: seq<string>, whole: string)
    requires chunks != [] && s + Concat(chunks) <= whole
    ensures (s + chunks[0]) + Concat(chunks[1..]) == s + Concat(chunks)
    ensures s + chunks[0] <= s + Concat(chunks) && s + chunks[0] <= whole
  {
    assert (s + chunks[0]) + Concat(chunks[1..]) == s + (chunks[0] + Concat(chunks[1..]));
  }

  lemma {:induction false} FeedFrom(
      r: Reader, parsed: Parsed<Header>, b: Break, s: string, chunks: seq<string>, whole: string)
    requires Headed(r.level, whole, b, parsed) && NoneEmpty(chunks) && s + Concat(chunks) <= whole
    requires r.maxSize == 0 && Verdict(parsed, b, s) == NeedMore
    ensures var (t, result) := Feed(After(r, parsed, b, s), chunks);
      && result == Verdict(parsed, b, s + Concat(chunks))
      && (result.Packet? ==> t.constructed && SameSettings(t, r))
    decreases |chunks|
  {
    if chunks == [] {
      assert s + "" == s;
    } else {
      var piece := chunks[0];
      ConcatStep(s, chunks, whole);
      PieceStep(r, parsed, b, s, piece, whole);
      if Verdict(parsed, b, s + piece) == NeedMore {
        FeedFrom(r, parsed, b, s + piece, chunks[1..], whole);
      } else {
        VerdictStable(parsed, b, s + piece, s + Concat(chunks));
      }
    }
  }

  /** Take any stream whose header ends in a definite place, and any beginning of
      it, cut into pieces in any way. Without a size limit the reader asks for more
      until all the bytes of header and content are there, and then gives the packet,
      or the error, that the bytes alone determine. */
  lemma ChunkingIndependence(level: Level, continueSent: bool, b: Break, chunks: seq<string>, whole: string)
    requires Steady(whole, b) && NoneEmpty(chunks) && Concat(chunks) <= whole
    ensures Feed(Fresh(level, 0, continueSent), chunks).1
         == Verdict(ParseRequest(level, whole[..b.at]), b, Concat(chunks))
  {
    var r := Fresh(level, 0, continueSent);
    assert Terminator(whole[..b.at + b.len]) == Some(b);
    assert "" + Concat(chunks) == Concat(chunks);
    FeedFrom(r, ParseRequest(level, whole[..b.at]), b, "", chunks, whole);
  }

  // ----- The size limit -----------------------------------------------------

  /** A packet, and nothing after it. */
  ghost predicate Exact(parsed: Parsed<Header>, b: Break, s: string) {
    && b.at + b.len <= |s| && parsed.Good?
    && ContentLength(parsed.value.options) == Good(|s| - b.at - b.len)
  }

  /** No proper beginning of such a stream will do. */
  lemma ExactNeedsAll(parsed: Parsed<Header>, b: Break, whole: string, s: string)
    requires Exact(parsed, b, whole) && s <= whole
    ensures Verdict(parsed, b, s) == NeedMore <==> s != whole
    ensures Verdict(parsed, b, whole) ==
      Packet(parsed.value.(options := SetContentLength(parsed.value.options, |whole| - b.at - b.len)),
             whole[b.at + b.len..])
  {
    assert |s| == |whole| ==> s == whole;
    var rest := whole[b.at + b.len..];
    assert rest[..|rest|] == rest;
  }

  /** The size check when the next piece arrives. */
  lemma SizeStep(r: Reader, parsed: Parsed<Header>, b: Break, s: string, size: nat, whole: string)
    requires Exact(parsed, b, whole) && s <= whole && s != whole && |s| + size <= |whole|
    requires r.maxSize > 0 && |s| < r.maxSize && r.totalSize == |s| && Verdict(parsed, b, s) == NeedMore
    ensures var a := After(r, parsed, b, s);
      var (t, e) := CheckSize(a, size);
      && (e.Some? ==> e == Some(RequestTooLarge) && |whole| >= r.maxSize)
      && (e == None ==> |s| + size < r.maxSize && t == After(r.(totalSize := |s| + size), parsed, b, s))
  {
  }

  /** How one piece leaves a reader with a limit: the limit is reached, or all is
      there, or more is needed. */
  ghost predicate LimitedTo(
      r: Reader, parsed: Parsed<Header>, b: Break, s: string, whole: string, t: Reader, result: ReadResult) {
    if result == NeedMore then
      && s != whole && |s| < r.maxSize && Verdict(parsed, b, s) == NeedMore
      && t == After(r.(totalSize := |s|), parsed, b, s)
    else if |whole| < r.maxSize then
      s == whole && result == Verdict(parsed, b, whole) && t.constructed && SameSettings(t, r)
    else result == Error(RequestTooLarge)
  }

  lemma WithinLimit(
      r: Reader, parsed: Parsed<Header>, b: Break, s: string, whole: string, t: Reader, result: ReadResult)
    requires Exact(parsed, b, whole) && s <= whole && |s| < r.maxSize
    requires Outcome(r.(totalSize := |s|), parsed, b, s, t, result)
    ensures LimitedTo(r, parsed, b, s, whole, t, result)
  {
    ExactNeedsAll(parsed, b, whole, s);
  }

  /** A piece is refused for its size, or taken in with the new total. */
  ghost predicate RefusedOrTaken(r: Reader, parsed: Parsed<Header>, b: Break, s: string, piece: string, whole: string)
    requires Verdict(parsed, b, s) == NeedMore
  {
    var (t, result) := ReadRequest(After(r, parsed, b, s), piece);
    || (result == Error(RequestTooLarge) && |whole| >= r.maxSize)
    || (|s + piece| < r.maxSize && (t, result) == TakeIn(After(r.(totalSize := |s + piece|), parsed, b, s), piece))
  }

  lemma ReadWithLimit(r: Reader, parsed: Parsed<Header>, b: Break, s: string, piece: string, whole: string)
    requires Exact(parsed, b, whole) && s + piece <= whole && s != whole && Verdict(parsed, b, s) == NeedMore
    requires r.maxSize > 0 && |s| < r.maxSize && r.totalSize == |s|
    ensures RefusedOrTaken(r, parsed, b, s, piece, whole)
  {
    var a := After(r, parsed, b, s);
    SizeStep(r, parsed, b, s, |piece|, whole);
    ReadOn(a, piece);
  }

  lemma ReadOn(r: Reader, s: string)
    requires !r.constructed
    ensures var (t, e) := CheckSize(r, |s|);
      ReadRequest(r, s) == if e.Some? then (t, Error(e.value)) else TakeIn(t, s)
  {
  }

  lemma LimitedStep(r: Reader, parsed: Parsed<Header>, b: Break, s: string, piece: string, whole: string)
    requires Headed(r.level, whole, b, parsed) && piece != "" && s + piece <= whole && s != whole
    requires Exact(parsed, b, whole) && Verdict(parsed, b, s) == NeedMore
    requires r.maxSize > 0 && |s| < r.maxSize && r.totalSize == |s|
    ensures var (t, result) := ReadRequest(After(r, parsed, b, s), piece);
      LimitedTo(r, parsed, b, s + piece, whole, t, result)
  {
    ReadWithLimit(r, parsed, b, s, piece, whole);
    var (t, result) := ReadRequest(After(r, parsed, b, s), piece);
    if result != Error(RequestTooLarge) || |whole| < r.maxSize {
      PieceStep(r.(totalSize := |s + piece|), parsed, b, s, piece, whole);
      WithinLimit(r, parsed, b, s + piece, whole, t, result);
    }
  }

  lemma {:induction false} FeedLimited(
      r: Reader, parsed: Parsed<Header>, b: Break, s: string, chunks: seq<string>, whole: string)
    requires Headed(r.level, whole, b, parsed) && NoneEmpty(chunks) && s + Concat(chunks) == whole && s != whole
    requires Exact(parsed, b, whole) && Verdict(parsed, b, s) == NeedMore
    requires r.maxSize > 0 && |s| < r.maxSize && r.totalSize == |s|
    ensures var (t, result) := Feed(After(r, parsed, b, s), chunks);
      && result == (if |whole| < r.maxSize then Verdict(parsed, b, whole) else Error(RequestTooLarge))
      && (result.Packet? ==> t.constructed && SameSettings(t, r))
    decreases |chunks|
  {
    assert s + "" == s;
    ConcatStep(s, chunks, whole);
    LimitedStep(r, parsed, b, s, chunks[0], whole);
    if ReadRequest(After(r, parsed, b, s), chunks[0]).1 == NeedMore {
      FeedLimited(r.(totalSize := |s + chunks[0]|), parsed, b, s + chunks[0], chunks[1..], whole);
    }
  }

  /** With a limit, a packet that arrives alone is delivered if and only if it is
      shorter than the limit, and refused as too large otherwise, wherever it is cut. */
  lemma SizeLimit(level: Level, maxSize: nat, continueSent: bool, b: Break, chunks: seq<string>)
    requires maxSize > 0 && NoneEmpty(chunks)
    requires var whole := Concat(chunks);
      Steady(whole, b) && Exact(ParseRequest(level, whole[..b.at]), b, whole)
    ensures var whole := Concat(chunks);
      var result := Feed(Fresh(level, maxSize, continueSent), chunks).1;
      && (result.Packet? <==> |whole| < maxSize)
      && (result.Packet? ==> result == Verdict(ParseRequest(level, whole[..b.at]), b, whole))
      && (!result.Packet? ==> result == Error(RequestTooLarge))
  {
    var whole := Concat(chunks);
    var parsed := ParseRequest(level, whole[..b.at]);
    FeedExact(Fresh(level, maxSize, continueSent), parsed, b, chunks, whole);
    ExactNeedsAll(parsed, b, whole, whole);
  }

  /** The header has come, and has announced `n` octets, more than have come with it. */
  predicate Announces(parsed: Parsed<Header>, b: Break, s: string, n: nat) {
    && parsed.Good? && ContentLength(parsed.value.options) == Good(n)
    && b.at + b.len <= |s| < b.at + b.len + n
  }

  lemma NextIsChecked(r: Reader, parsed: Parsed<Header>, b: Break, s: string, n: nat, piece: string)
    requires Announces(parsed, b, s, n) && r.maxSize > 0
    ensures Verdict(parsed, b, s) == NeedMore
    ensures ReadRequest(After(r, parsed, b, s), piece).1 == Error(RequestTooLarge) <==>
            b.at + n >= r.maxSize || r.totalSize + |piece| >= r.maxSize
  {
    var a := After(r, parsed, b, s);
    ReadOn(a, piece);
    TakeBody(a.(totalSize := r.totalSize + |piece|), piece);
  }

  lemma FirstIsTaken(r: Reader, parsed: Parsed<Header>, b: Break, s: string, n: nat)
    requires r == Fresh(r.level, r.maxSize, r.continueSent) && s != "" && Announces(parsed, b, s, n)
    requires Headed(r.level, s, b, parsed) && b.at + b.len > 0 && 0 < r.maxSize
    ensures ReadRequest(r, s) ==
      if |s| < r.maxSize then (After(r.(totalSize := |s|), parsed, b, s), NeedMore)
      else (r.(totalSize := |s|), Error(RequestTooLarge))
  {
    ReadOn(r, s);
    if |s| < r.maxSize {
      var u := r.(totalSize := |s|);
      assert "" + s == s;
      PieceStep(u, parsed, b, "", s, s);
      assert After(u, parsed, b, "") == u;
    }
  }

  /** A content is refused as too large exactly if it is announced as that, counted from
      the end of the header, however little of it has arrived, or if all that has arrived
      is too much. */
  lemma AnnouncedSize(
      level: Level, maxSize: nat, continueSent: bool, b: Break, n: nat, first: string, second: string)
    requires maxSize > 0 && first != "" && Steady(first, b) && Announces(ParseRequest(level, first[..b.at]), b, first, n)
    ensures Feed(Fresh(level, maxSize, continueSent), [first, second]).1 == Error(RequestTooLarge) <==>
            b.at + n >= maxSize || |first| + |second| >= maxSize
  {
    var r, parsed := Fresh(level, maxSize, continueSent), ParseRequest(level, first[..b.at]);
    assert b.at + b.len > 0 by {
      assert Terminator(first[..b.at + b.len]) == Some(b);
    }
    FirstIsTaken(r, parsed, b, first, n);
    NextIsChecked(r.(totalSize := |first|), parsed, b, first, n, second);
    TwoPieces(r, first, second);
  }

  lemma TwoPieces(r: Reader, first: string, second: string)
    ensures var (t, result) := ReadRequest(r, first);
      Feed(r, [first, second]).1 == if result == NeedMore then ReadRequest(t, second).1 else result
  {
    assert [first, second][1..] == [second];
    LastPiece(ReadRequest(r, first).0, second);
  }

  lemma LastPiece(r: Reader, s: string)
    ensures Feed(r, [s]).1 == ReadRequest(r, s).1
  {
    assert [s][1..] == [];
  }

  /** A piece without bytes is an error while there is no header, and changes nothing
      after that. */
  lemma EmptyPiece(r: Reader)
    requires !r.constructed && r.maxSize == 0
    ensures r.header == None ==> ReadRequest(r, "") == (r, Error(MalformedPacket))
    ensures r.header.Some? ==> ReadRequest(r, "") == Finish(r)
  {
    ReadOn(r, "");
    assert r.contentCache + "" == r.contentCache;
  }

  /** A packet that arrives alone, at a fresh reader. */
  lemma FeedExact(r: Reader, parsed: Parsed<Header>, b: Break, chunks: seq<string>, whole: string)
    requires r == Fresh(r.level, r.maxSize, r.continueSent)
    requires Headed(r.level, whole, b, parsed) && Exact(parsed, b, whole)
    requires NoneEmpty(chunks) && Concat(chunks) == whole
    ensures var (t, result) := Feed(r, chunks);
      && result ==
          (if r.maxSize == 0 || |whole| < r.maxSize then Verdict(parsed, b, whole) else Error(RequestTooLarge))
      && (result.Packet? ==> t.constructed && SameSettings(t, r))
  {
    assert Terminator(whole[..b.at + b.len]) == Some(b);
    assert "" + Concat(chunks) == whole;
    if r.maxSize == 0 {
      FeedFrom(r, parsed, b, "", chunks, whole);
    } else {
      FeedLimited(r, parsed, b, "", chunks, whole);
    }
  }

  // ----- Requests over one connection ---------------------------------------

  /** What a client puts into a packet. */
  datatype Sent = Sent(header: Header, content: string)

  function PacketHeader(p: Sent): Header {
    p.header.(options := SetContentLength(p.header.options, |p.content|))
  }

  /** `Packet::dump`. */
  function PacketText(p: Sent): string {
    Dump(PacketHeader(p)) + p.content
  }

  ghost predicate Sendable(level: Level, maxSize: nat, p: Sent) {
    && Fits(p.header) && Passes(level, PacketHeader(p).options)
    && |p.content| <= UINT32_MAX
    && (maxSize == 0 || |PacketText(p)| < maxSize)
  }

  /** What the other side makes of it. */
  function Received(p: Sent): ReadResult {
    Packet(ReceivedHeader(p), p.content)
  }

  lemma NatTextIsValue(n: nat)
    ensures IsValue(NatText(n))
  {
    var s := NatText(n);
    assert IsDigit(s[0]) && IsDigit(s[|s| - 1]);
  }

  lemma PutFits(o: Options, k: string, v: string)
    requires OptionsFit(o) && IsName(k) && IsValue(v)
    ensures OptionsFit(Put(o, k, v))
  {
    PutOrdered(o, k, v);
    PutKeys(o, k, v);
  }

  lemma LengthNames()
    ensures IsName(CONTENT_LENGTH) && IsName(CONTENT_TYPE) && IsValue(TEXT_XML)
  {
  }

  lemma PutTwoFits(o: Options, k: string, v: string, k': string, v': string)
    requires OptionsFit(o) && IsName(k) && IsValue(v) && IsName(k') && IsValue(v')
    ensures OptionsFit(Put(o, k, v)) && OptionsFit(Put(Put(o, k, v), k', v'))
  {
    PutFits(o, k, v);
    PutFits(Put(o, k, v), k', v');
  }

  lemma PacketHeaderFits(p: Sent)
    requires Fits(p.header)
    ensures Fits(PacketHeader(p))
  {
    LengthNames();
    NatTextIsValue(|p.content|);
    PutTwoFits(p.header.options, CONTENT_LENGTH, NatText(|p.content|), CONTENT_TYPE, TEXT_XML);
  }

  lemma PacketHeaderTells(p: Sent)
    ensures Find(PacketHeader(p).options, CONTENT_LENGTH) == Some(NatText(|p.content|))
    ensures |p.content| > 0 ==> Find(PacketHeader(p).options, CONTENT_TYPE) == Some(TEXT_XML)
  {
    var o, text := p.header.options, NatText(|p.content|);
    FindPut(o, CONTENT_LENGTH, text, CONTENT_LENGTH);
    FindPut(Put(o, CONTENT_LENGTH, text), CONTENT_TYPE, TEXT_XML, CONTENT_LENGTH);
    FindPut(Put(o, CONTENT_LENGTH, text), CONTENT_TYPE, TEXT_XML, CONTENT_TYPE);
  }

  lemma FindPutDefault(o: Options, k: string, v: string, q: string)
    ensures Find(PutDefault(o, k, v), q) ==
      if Find(o, q).Some? then Find(o, q) else if q == k then Some(v) else None
  {
    FindPut(o, k, v, q);
  }

  lemma FindCompleted(o: Options, q: string)
    requires Find(o, q).Some?
    ensures Find(Completed(o), q) == Find(o, q)
  {
    var o1 := PutDefault(o, CONNECTION, "close");
    var o2 := PutDefault(o1, HOST, "");
    FindPutDefault(o, CONNECTION, "close", q);
    FindPutDefault(o1, HOST, "", q);
    FindPutDefault(o2, USER_AGENT, "unknown", q);
  }

  lemma {:induction false} PutSame(o: Options, k: string, v: string)
    requires Find(o, k) == Some(v) && Ordered(o)
    ensures Put(o, k, v) == o
  {
    if o[0].key == k {
      assert o == [o[0]] + o[1..];
    } else {
      FindSome(o[1..], k);
      LessIrreflexive(k);
      PutSame(o[1..], k, v);
      if Less(k, o[0].key) {
        var i :| 0 <= i < |o[1..]| && o[1..][i] == Entry(k, v);
        LessTransitive(k, o[0].key, o[i + 1].key);
      }
    }
  }

  lemma CompletedOrdered(o: Options)
    requires Ordered(o)
    ensures Ordered(Completed(o))
  {
    var o1 := PutDefault(o, CONNECTION, "close");
    var o2 := PutDefault(o1, HOST, "");
    PutOrdered(o, CONNECTION, "close");
    PutOrdered(o1, HOST, "");
    PutOrdered(o2, USER_AGENT, "unknown");
  }

  /** Setting the length of the content again changes nothing. */
  lemma LengthIsThere(p: Sent)
    requires Fits(p.header)
    ensures var o := Completed(PacketHeader(p).options); SetContentLength(o, |p.content|) == o
  {
    var o0 := PacketHeader(p).options;
    var o := Completed(o0);
    PacketHeaderFits(p);
    PacketHeaderTells(p);
    CompletedOrdered(o0);
    FindCompleted(o0, CONTENT_LENGTH);
    PutSame(o, CONTENT_LENGTH, NatText(|p.content|));
    if |p.content| > 0 {
      FindCompleted(o0, CONTENT_TYPE);
      PutSame(o, CONTENT_TYPE, TEXT_XML);
    }
  }

  lemma EmptyLineChars(s: string, i: nat)
    requires Occurs(s, EMPTY_LINE, i)
    ensures i + 4 <= |s| && s[i] == '\r' && s[i + 1] == '\n' && s[i + 2] == '\r'
  {
    var t := s[i..i + 4];
    assert t[0] == s[i] && t[1] == s[i + 1] && t[2] == s[i + 2];
  }

  lemma BareEmptyLineChars(s: string, i: nat)
    requires Occurs(s, BARE_EMPTY_LINE, i)
    ensures i + 2 <= |s| && s[i] == '\n' && s[i + 1] == '\n'
  {
    var t := s[i..i + 2];
    assert t[0] == s[i] && t[1] == s[i + 1];
  }

  /** A printed header and what follows it. */
  ghost predicate EndsHeader(s: string, j: string) {
    && |s| >= |j| + 4 && j != "" && NoEmptyLine(j) && !IsSeparator(j[|j| - 1], true)
    && (forall k :: 0 <= k < |j| ==> s[k] == j[k])
    && s[|j|] == '\r' && s[|j| + 1] == '\n' && s[|j| + 2] == '\r' && s[|j| + 3] == '\n'
  }

  lemma NoEmptyLineBefore(s: string, j: string, i: nat)
    requires EndsHeader(s, j) && Occurs(s, EMPTY_LINE, i)
    ensures i >= |j|
  {
    EmptyLineChars(s, i);
  }

  lemma NoBareEmptyLineBefore(s: string, j: string, i: nat)
    requires EndsHeader(s, j) && Occurs(s, BARE_EMPTY_LINE, i)
    ensures i + 2 >= |j| + 4
  {
    BareEmptyLineChars(s, i);
  }

  /** The only empty line of a printed header is the one that ends it. */
  lemma FirstEmptyLine(j: string, content: string)
    requires j != "" && NoEmptyLine(j) && !IsSeparator(j[|j| - 1], true)
    ensures var s := j + (CRLF + CRLF) + content;
      FindFirst(s, EMPTY_LINE) == Some(|j|) && !Ambiguous(s) && Terminator(s) == Some(Break(|j|, 4))
  {
    var s := j + (CRLF + CRLF) + content;
    assert s[|j|..|j| + 4] == EMPTY_LINE;
    assert EndsHeader(s, j);
    var first, bare := FindFirst(s, EMPTY_LINE), FindFirst(s, BARE_EMPTY_LINE);
    assert Occurs(s, EMPTY_LINE, |j|);
    NoEmptyLineBefore(s, j, first.value);
    if bare.Some? {
      NoBareEmptyLineBefore(s, j, bare.value);
    }
  }

  /** Where the header of the packet ends, and what it comes to. */
  function HeaderBreak(p: Sent): Break {
    Break(|Join(Lines(PacketHeader(p)))|, 4)
  }

  function ReceivedHeader(p: Sent): Header {
    Header(p.header.uri, Completed(PacketHeader(p).options))
  }

  lemma PacketIsHeaded(level: Level, p: Sent)
    requires Fits(p.header) && Passes(level, PacketHeader(p).options)
    ensures Headed(level, PacketText(p), HeaderBreak(p), Good(ReceivedHeader(p)))
    ensures PacketText(p)[HeaderBreak(p).at + 4..] == p.content
  {
    var h := PacketHeader(p);
    var j := Join(Lines(h));
    PacketHeaderFits(p);
    HeaderRoundTrip(level, h);
    LinesAreLines(h);
    JoinStarts(Lines(h));
    JoinHasNoEmptyLine(Lines(h));
    FirstEmptyLine(j, p.content);
    SteadyUnlessAmbiguous(PacketText(p));
    assert PacketText(p)[..|j|] == j;
  }

  lemma PacketIsExact(p: Sent)
    requires Fits(p.header) && |p.content| <= UINT32_MAX
    requires HeaderBreak(p).at + 4 <= |PacketText(p)| && PacketText(p)[HeaderBreak(p).at + 4..] == p.content
    ensures Exact(Good(ReceivedHeader(p)), HeaderBreak(p), PacketText(p))
    ensures Verdict(Good(ReceivedHeader(p)), HeaderBreak(p), PacketText(p)) == Received(p)
  {
    var h := ReceivedHeader(p);
    assert ContentLength(h.options) == Good(|p.content|) by {
      PacketHeaderTells(p);
      FindCompleted(PacketHeader(p).options, CONTENT_LENGTH);
    }
    assert SetContentLength(h.options, |p.content|) == h.options by {
      LengthIsThere(p);
    }
    IsExactly(h, HeaderBreak(p), PacketText(p), p.content);
  }

  lemma IsExactly(h: Header, b: Break, s: string, content: string)
    requires ContentLength(h.options) == Good(|content|) && SetContentLength(h.options, |content|) == h.options
    requires b.at + b.len <= |s| && s[b.at + b.len..] == content
    ensures Exact(Good(h), b, s) && Verdict(Good(h), b, s) == Packet(h, content)
  {
    assert content[..|content|] == content;
  }

  /** Packets one after the other over a connection that is kept alive; a new one
      starts with a new piece. */
  function Session(r: Reader, batches: seq<seq<string>>): seq<ReadResult>
    decreases |batches|
  {
    if batches == [] then []
    else
      var (t, result) := Feed(r, batches[0]);
      [result] + Session(t, batches[1..])
  }

  predicate ReadyForNext(r: Reader) {
    r.constructed || r == Fresh(r.level, r.maxSize, r.continueSent)
  }

  ghost predicate Carry(batch: seq<string>, p: Sent) {
    NoneEmpty(batch) && Concat(batch) == PacketText(p)
  }

  lemma PacketArrives(r: Reader, batch: seq<string>, p: Sent)
    requires ReadyForNext(r) && Sendable(r.level, r.maxSize, p) && Carry(batch, p)
    ensures var (t, result) := Feed(r, batch);
      result == Received(p) && t.constructed && SameSettings(t, r)
  {
    PacketIsHeaded(r.level, p);
    PacketIsExact(p);
    var untouched := Fresh(r.level, r.maxSize, r.continueSent);
    FeedExact(untouched, Good(ReceivedHeader(p)), HeaderBreak(p), batch, PacketText(p));
    assert batch != [];
    assert ReadRequest(r, batch[0]) == ReadRequest(untouched, batch[0]);
  }

  /** However the bytes of each are cut, a reader that is given a series of packets
      returns the same targets, contents and options, in order. */
  lemma {:induction false} SessionRoundTrip(r: Reader, batches: seq<seq<string>>, packets: seq<Sent>)
    requires ReadyForNext(r) && |batches| == |packets|
    requires forall i :: 0 <= i < |packets| ==> Sendable(r.level, r.maxSize, packets[i]) && Carry(batches[i], packets[i])
    ensures |Session(r, batches)| == |packets|
    ensures forall i :: 0 <= i < |packets| ==> Session(r, batches)[i] == Received(packets[i])
    decreases |batches|
  {
    if batches != [] {
      var (t, result) := Feed(r, batches[0]);
      PacketArrives(r, batches[0], packets[0]);
      SessionRoundTrip(t, batches[1..], packets[1..]);
      SessionStep(r, batches, t, result);
      forall i | 0 <= i < |packets| ensures Session(r, batches)[i] == Received(packets[i]) {
        assert i > 0 ==> packets[i] == packets[1..][i - 1];
      }
    }
  }

  lemma SessionStep(r: Reader, batches: seq<seq<string>>, t: Reader, result: ReadResult)
    requires batches != [] && Feed(r, batches[0]) == (t, result)
    ensures Session(r, batches) == [result] + Session(t, batches[1..])
  {
  }
}
