/** `Server_connection`: requests read off a connection that may be kept alive, and
    the interim response to those who wait for one. */
module HttpConnection {
  import opened Text
  import opened OrderedMap
  import opened HttpHeader
  import opened HttpReader
  import opened HttpSession

  const CONTINUE := "HTTP/1.1 100\r\n\r\n"
  const KEEP_ALIVE := "keep-alive"

  datatype Reading =
    | Waiting
    | Request(header: Header, content: string)
    | BadRequest
    | Thrown(error: HttpHeader.Error)

  /** `interim` counts the responses with code 100. */
  datatype Connection = Connection(reader: Reader, keepAlive: bool, response: string, interim: nat)

  /** `Packet_reader::expect_continue`. */
  function ExpectsContinue(r: Reader): bool {
    r.header.Some? && Has(r.header.value.options, EXPECT) && !r.continueSent
  }

  /** What the connection does with what its reader, now `r`, has given. */
  function Take(c: Connection, r: Reader, result: ReadResult): (Connection, Reading) {
    match result
    case Packet(h, content) => (
      match Find(h.options, CONNECTION)
      case None => (c.(reader := r), BadRequest)
      case Some(v) => (c.(reader := r, keepAlive := v == KEEP_ALIVE), Request(h, content)))
    case NeedMore =>
      if ExpectsContinue(r) then
        (Connection(r.(continueSent := true), true, CONTINUE, c.interim + 1), Waiting)
      else (c.(reader := r), Waiting)
    case Error(MalformedPacket) => (c.(reader := r), BadRequest)
    case Error(e) => (c.(reader := r), Thrown(e))
  }

  /** `read_request`, with the settings of the server. */
  function ReadFrom(c: Connection, level: Level, maxSize: nat, s: string): (Connection, Reading) {
    var (r, result) := ReadRequest(c.reader.(level := level, maxSize := maxSize), s);
    Take(c, r, result)
  }

  /** The state of the reader before is of no account. */
  lemma TakeForgets(c: Connection, d: Connection, r: Reader, result: ReadResult)
    requires d == c.(reader := d.reader)
    ensures Take(c, r, result) == Take(d, r, result)
  {
  }

  class ServerConnection {
    const reader: PacketReader
    var keepAlive: bool
    var response: string
    var interim: nat

    ghost function Value(): Connection
      reads this, reader
    {
      Connection(reader.State(), keepAlive, response, interim)
    }

    constructor ()
      ensures fresh(reader) && Value() == Connection(Fresh(Weak, 0, false), false, "", 0)
    {
      reader := new PacketReader();
      keepAlive, response, interim := false, "", 0;
    }

    method ReadRequest(level: Level, maxSize: nat, s: string) returns (reading: Reading)
      modifies this, reader
      ensures ReadFrom(old(Value()), level, maxSize, s) == (Value(), reading)
    {
      Configure(level, maxSize);
      var result := reader.Read(s);
      TakeForgets(old(Value()), Value(), reader.State(), result);
      reading := Settle(result);
    }

    method Configure(level: Level, maxSize: nat)
      modifies reader
      ensures reader.State() == old(reader.State()).(level := level, maxSize := maxSize)
    {
      reader.SetVerificationLevel(level);
      reader.SetMaxSize(maxSize);
    }

    /** From the result of the reader on. */
    method Settle(result: ReadResult) returns (reading: Reading)
      modifies this, reader
      ensures Take(old(Value()), old(reader.State()), result) == (Value(), reading)
    {
      match result
      case Packet(h, content) =>
        var connection := Find(h.options, CONNECTION);
        if connection == None {
          return BadRequest;
        }
        keepAlive := connection.value == KEEP_ALIVE;
        return Request(h, content);
      case NeedMore =>
        var expects := reader.ExpectContinue();
        if expects {
          response := CONTINUE;
          keepAlive := true;
          interim := interim + 1;
          reader.SetContinueSent();
        }
        return Waiting;
      case Error(MalformedPacket) => return BadRequest;
      case Error(e) => return Thrown(e);
    }
  }

  // ----- The interim response -----------------------------------------------------

  /** A reader never forgets that it was sent, and never minds. */
  lemma ContinueIsKept(r: Reader, s: string, sent: bool)
    ensures ReadRequest(r.(continueSent := sent), s) ==
            (ReadRequest(r, s).0.(continueSent := sent), ReadRequest(r, s).1)
  {
    var r0 := if r.constructed then Clear(r) else r;
    CheckIgnoresContinue(r0, |s|, sent);
    TakeInIgnoresContinue(CheckSize(r0, |s|).0, s, sent);
  }

  lemma CheckIgnoresContinue(r: Reader, size: nat, sent: bool)
    ensures CheckSize(r.(continueSent := sent), size) == (CheckSize(r, size).0.(continueSent := sent), CheckSize(r, size).1)
  {
  }

  lemma FinishIgnoresContinue(r: Reader, sent: bool)
    requires r.header.Some?
    ensures Finish(r.(continueSent := sent)) == (Finish(r).0.(continueSent := sent), Finish(r).1)
  {
  }

  lemma BeginIgnoresContinue(r: Reader, sent: bool)
    ensures Begin(r.(continueSent := sent)) == (Begin(r).0.(continueSent := sent), Begin(r).1)
  {
    match ParseRequest(r.level, r.headerCache)
    case Refused(_) =>
    case Good(h) => FinishIgnoresContinue(r.(header := Some(h)), sent);
  }

  lemma TakeInIgnoresContinue(r: Reader, s: string, sent: bool)
    ensures TakeIn(r.(continueSent := sent), s) == (TakeIn(r, s).0.(continueSent := sent), TakeIn(r, s).1)
  {
    if r.header.Some? {
      TakeBody(r, s);
      TakeBody(r.(continueSent := sent), s);
      FinishIgnoresContinue(r.(contentCache := r.contentCache + s), sent);
    } else {
      TakeHeaderIgnoresContinue(r, s, sent);
    }
  }

  /** `TakeIn` while there is no header. */
  function HeaderTaken(r: Reader, s: string): (Reader, ReadResult) {
    var cache := r.headerCache + s;
    match Terminator(cache)
    case None => (r.(headerCache := cache), NeedMore)
    case Some(b) =>
      Begin(r.(headerCache := cache[..b.at], contentCache := r.contentCache + cache[b.at + b.len..]))
  }

  lemma TakeHeaderIgnoresContinue(r: Reader, s: string, sent: bool)
    requires r.header == None
    ensures TakeIn(r.(continueSent := sent), s) == (TakeIn(r, s).0.(continueSent := sent), TakeIn(r, s).1)
  {
    assert s != "" ==> TakeIn(r, s) == HeaderTaken(r, s);
    assert s != "" ==> TakeIn(r.(continueSent := sent), s) == HeaderTaken(r.(continueSent := sent), s);
    HeaderIgnoresContinue(r, s, sent);
  }

  lemma HeaderIgnoresContinue(r: Reader, s: string, sent: bool)
    ensures HeaderTaken(r.(continueSent := sent), s) ==
            (HeaderTaken(r, s).0.(continueSent := sent), HeaderTaken(r, s).1)
  {
    var cache := r.headerCache + s;
    if Terminator(cache).Some? {
      var b := Terminator(cache).value;
      BeginIgnoresContinue(
        r.(headerCache := cache[..b.at], contentCache := r.contentCache + cache[b.at + b.len..]), sent);
    }
  }

  lemma TakeInKeepsSettings(r: Reader, s: string)
    ensures SameSettings(TakeIn(r, s).0, r)
  {
  }

  lemma KeepsSettings(r: Reader, s: string)
    ensures SameSettings(ReadRequest(r, s).0, r)
  {
    var r0 := if r.constructed then Clear(r) else r;
    TakeInKeepsSettings(CheckSize(r0, |s|).0, s);
  }

  function ReadAll(c: Connection, level: Level, maxSize: nat, chunks: seq<string>): Connection
    decreases |chunks|
  {
    if chunks == [] then c else ReadAll(ReadFrom(c, level, maxSize, chunks[0]).0, level, maxSize, chunks[1..])
  }

  /** The responses from one state to another, when none is sent any more after the
      first. */
  predicate AtMostOne(c: Connection, d: Connection) {
    && c.interim <= d.interim <= c.interim + (if c.reader.continueSent then 0 else 1)
    && (d.reader.continueSent <==> c.reader.continueSent || d.interim > c.interim)
  }

  lemma TakeContinues(c: Connection, r: Reader, result: ReadResult)
    requires r.continueSent == c.reader.continueSent
    ensures AtMostOne(c, Take(c, r, result).0)
  {
  }

  /** Over all that is ever read from a connection, one interim response is sent at
      most, however many of its requests ask for one. */
  lemma {:induction false} ContinueOnce(c: Connection, level: Level, maxSize: nat, chunks: seq<string>)
    ensures AtMostOne(c, ReadAll(c, level, maxSize, chunks))
    decreases |chunks|
  {
    if chunks != [] {
      var r := c.reader.(level := level, maxSize := maxSize);
      KeepsSettings(r, chunks[0]);
      TakeContinues(c, ReadRequest(r, chunks[0]).0, ReadRequest(r, chunks[0]).1);
      ContinueOnce(ReadFrom(c, level, maxSize, chunks[0]).0, level, maxSize, chunks[1..]);
    }
  }

  /** What an interim response is, and that nothing else is put in its place: one that is
      sent keeps the connection alive, and a piece without one leaves the response as it
      was. */
  lemma InterimResponse(c: Connection, level: Level, maxSize: nat, s: string)
    ensures var (d, reading) := ReadFrom(c, level, maxSize, s);
      if d.interim != c.interim then
        reading == Waiting && d.response == "HTTP/1.1 100\r\n\r\n" && d.keepAlive && d.reader.continueSent
      else d.response == c.response && (!reading.Request? ==> d.keepAlive == c.keepAlive)
  {
  }

  /** A packet is handed on as it is, and decides whether the connection is kept alive. */
  lemma PacketIsTaken(c: Connection, level: Level, maxSize: nat, s: string)
    requires ReadRequest(c.reader.(level := level, maxSize := maxSize), s).1.Packet?
    ensures var p := ReadRequest(c.reader.(level := level, maxSize := maxSize), s).1;
      var (d, reading) := ReadFrom(c, level, maxSize, s);
      match Find(p.header.options, "connection")
      case None => reading == BadRequest && d.keepAlive == c.keepAlive
      case Some(v) => reading == Request(p.header, p.content) && (d.keepAlive <==> v == "keep-alive")
  {
  }

  /** Malformed packets are answered as bad requests; all other errors keep their names. */
  lemma ErrorsOnTheWay(c: Connection, level: Level, maxSize: nat, s: string)
    ensures var result := ReadRequest(c.reader.(level := level, maxSize := maxSize), s).1;
      var reading := ReadFrom(c, level, maxSize, s).1;
      && (result == Error(MalformedPacket) ==> reading == BadRequest)
      && (result.Error? && result.error != MalformedPacket ==> reading == Thrown(result.error))
      && (result == NeedMore ==> reading == Waiting)
  {
  }

  // ----- Requests -----------------------------------------------------------------

  /** Pieces are read until there is a request or an exception. */
  function FeedTo(c: Connection, level: Level, maxSize: nat, chunks: seq<string>): (Connection, Reading)
    decreases |chunks|
  {
    if chunks == [] then (c, Waiting)
    else
      var (d, reading) := ReadFrom(c, level, maxSize, chunks[0]);
      if reading == Waiting then FeedTo(d, level, maxSize, chunks[1..]) else (d, reading)
  }

  /** The connection has read what the reader has. */
  ghost predicate Follows(c: Connection, level: Level, maxSize: nat, r: Reader) {
    c.reader.(level := level, maxSize := maxSize) == r.(continueSent := c.reader.continueSent)
  }

  /** A connection makes of a piece what its reader does. */
  lemma FollowsOn(c: Connection, level: Level, maxSize: nat, r: Reader, s: string)
    requires Follows(c, level, maxSize, r)
    ensures var (t, result) := ReadRequest(r, s);
      var (d, reading) := ReadFrom(c, level, maxSize, s);
      && Follows(d, level, maxSize, t)
      && (result == NeedMore <==> reading == Waiting)
      && (result.Packet? && Find(result.header.options, CONNECTION).Some? ==>
            && reading == Request(result.header, result.content)
            && (d.keepAlive <==> Find(result.header.options, CONNECTION) == Some(KEEP_ALIVE)))
  {
    ContinueIsKept(r, s, c.reader.continueSent);
    KeepsSettings(r, s);
  }

  lemma {:induction false} FeedFollows(c: Connection, level: Level, maxSize: nat, r: Reader, chunks: seq<string>)
    requires Follows(c, level, maxSize, r)
    ensures var (t, result) := Feed(r, chunks);
      var (d, reading) := FeedTo(c, level, maxSize, chunks);
      && Follows(d, level, maxSize, t)
      && (result.Packet? && Find(result.header.options, CONNECTION).Some? ==>
            && reading == Request(result.header, result.content)
            && (d.keepAlive <==> Find(result.header.options, CONNECTION) == Some(KEEP_ALIVE)))
    decreases |chunks|
  {
    if chunks != [] {
      FollowsOn(c, level, maxSize, r, chunks[0]);
      var (t, result) := ReadRequest(r, chunks[0]);
      if result == NeedMore {
        FeedFollows(ReadFrom(c, level, maxSize, chunks[0]).0, level, maxSize, t, chunks[1..]);
      }
    }
  }

  lemma ConnectionArrives(p: Sent)
    ensures Find(ReceivedHeader(p).options, CONNECTION) ==
            if Find(p.header.options, CONNECTION).Some? then Find(p.header.options, CONNECTION) else Some("close")
  {
    var o, length := p.header.options, NatText(|p.content|);
    FindPut(o, CONTENT_LENGTH, length, CONNECTION);
    FindPut(Put(o, CONTENT_LENGTH, length), CONTENT_TYPE, TEXT_XML, CONNECTION);
    var sent := PacketHeader(p).options;
    FindPutDefault(sent, CONNECTION, "close", CONNECTION);
    var o1 := PutDefault(sent, CONNECTION, "close");
    FindPutDefault(o1, HOST, "", CONNECTION);
    FindPutDefault(PutDefault(o1, HOST, ""), USER_AGENT, "unknown", CONNECTION);
  }

  /** A dumped request, cut in any way, is read as it was sent, and the connection is
      kept alive exactly if the sender has asked for that, whether an interim response
      was sent in between or not. */
  lemma RequestIsRead(c: Connection, level: Level, maxSize: nat, batch: seq<string>, p: Sent)
    requires ReadyForNext(c.reader.(level := level, maxSize := maxSize))
    requires Sendable(level, maxSize, p) && Carry(batch, p)
    ensures var (d, reading) := FeedTo(c, level, maxSize, batch);
      && reading == Request(ReceivedHeader(p), p.content)
      && (d.keepAlive <==> Find(p.header.options, "connection") == Some("keep-alive"))
      && ReadyForNext(d.reader.(level := level, maxSize := maxSize))
  {
    var r := c.reader.(level := level, maxSize := maxSize);
    PacketArrives(r, batch, p);
    FeedFollows(c, level, maxSize, r, batch);
    ConnectionArrives(p);
  }
}
