/** `Packet_reader`: requests put together from the pieces that arrive. */
module HttpReader {
  import opened Text
  import opened OrderedMap
  import opened HttpText
  import opened HttpHeader

  datatype Reader = Reader(
    headerCache: string,
    contentCache: string,
    header: Option<Header>,
    constructed: bool,
    level: Level,
    maxSize: nat,
    totalSize: nat,
    continueSent: bool)

  datatype ReadResult = NeedMore | Packet(header: Header, content: string) | Error(error: HttpHeader.Error)

  /** Where a header ends, and how long the empty line is that ends it. */
  datatype Break = Break(at: nat, len: nat)

  const EMPTY_LINE := "\r\n\r\n"
  const BARE_EMPTY_LINE := "\n\n"

  /** The search for the end of the header: anywhere for the one form before
      anywhere for the other. */
  function Terminator(s: string): (b: Option<Break>)
    ensures b.Some? ==> b.value.at + b.value.len <= |s|
  {
    match FindFirst(s, EMPTY_LINE)
    case Some(i) => Some(Break(i, 4))
    case None =>
      match FindFirst(s, BARE_EMPTY_LINE)
      case Some(i) => Some(Break(i, 2))
      case None => None
  }

  function Clear(r: Reader): Reader {
    r.(headerCache := "", contentCache := "", header := None, constructed := false, totalSize := 0)
  }

  /** `check_sz`: the reader with the new total, and the exception if one is thrown. */
  function CheckSize(r: Reader, size: nat): (Reader, Option<HttpHeader.Error>) {
    if r.maxSize == 0 then (r, None)
    else if r.header.Some? && ContentLength(r.header.value.options).Refused? then
      (r, Some(ContentLength(r.header.value.options).error))
    else if r.header.Some? && ContentLength(r.header.value.options).value + |r.headerCache| >= r.maxSize then
      (r, Some(RequestTooLarge))
    else
      var t := r.(totalSize := r.totalSize + size);
      (t, if t.totalSize >= r.maxSize then Some(RequestTooLarge) else None)
  }

  /** The packet, if all of it is there: a header and what follows it so far. */
  function Assemble(h: Header, rest: string): ReadResult {
    match ContentLength(h.options)
    case Refused(e) => Error(e)
    case Good(n) =>
      if |rest| < n then NeedMore
      else Packet(h.(options := SetContentLength(h.options, n)), rest[..n])
  }

  function Finish(r: Reader): (Reader, ReadResult)
    requires r.header.Some?
  {
    var result := Assemble(r.header.value, r.contentCache);
    if result.Packet? then
      (r.(contentCache := result.content, header := Some(result.header), constructed := true), result)
    else (r, result)
  }

  /** A header that is all there is parsed. */
  function Begin(r: Reader): (Reader, ReadResult) {
    match ParseRequest(r.level, r.headerCache)
    case Refused(e) => (r, Error(e))
    case Good(h) => Finish(r.(header := Some(h)))
  }

  /** What is done with a piece whose size is accepted. */
  function TakeIn(r: Reader, s: string): (Reader, ReadResult) {
    if r.header.Some? then Finish(r.(contentCache := r.contentCache + s))
    else if s == "" then (r, Error(MalformedPacket))
    else
      var cache := r.headerCache + s;
      match Terminator(cache)
      case None => (r.(headerCache := cache), NeedMore)
      case Some(b) =>
        Begin(r.(headerCache := cache[..b.at], contentCache := r.contentCache + cache[b.at + b.len..]))
  }

  /** `read_request`. */
  function ReadRequest(r: Reader, s: string): (Reader, ReadResult) {
    var r0 := if r.constructed then Clear(r) else r;
    var (r1, e) := CheckSize(r0, |s|);
    if e.Some? then (r1, Error(e.value)) else TakeIn(r1, s)
  }

  class PacketReader {
    var headerCache: string
    var contentCache: string
    var header: Option<Header>
    var level: Level
    var constructed: bool
    var maxSize: nat
    var totalSize: nat
    var continueSent: bool

    ghost function State(): Reader
      reads this
    {
      Reader(headerCache, contentCache, header, constructed, level, maxSize, totalSize, continueSent)
    }

    constructor ()
      ensures State() == Reader("", "", None, false, Weak, 0, 0, false)
    {
      headerCache, contentCache, header, level := "", "", None, Weak;
      constructed, maxSize, totalSize, continueSent := false, 0, 0, false;
    }

    method SetVerificationLevel(lev: Level)
      modifies this`level
      ensures State() == old(State()).(level := lev)
    {
      level := lev;
    }

    method SetMaxSize(m: nat)
      modifies this`maxSize
      ensures State() == old(State()).(maxSize := m)
    {
      maxSize := m;
    }

    method SetContinueSent()
      modifies this`continueSent
      ensures State() == old(State()).(continueSent := true)
    {
      continueSent := true;
    }

    method ExpectContinue() returns (expects: bool)
      ensures expects <==> header.Some? && Has(header.value.options, EXPECT) && !continueSent
    {
      expects := header.Some? && Has(header.value.options, EXPECT) && !continueSent;
    }

    method Reset()
      modifies this
      ensures State() == Clear(old(State()))
    {
      header := None;
      contentCache := "";
      headerCache := "";
      constructed := false;
      totalSize := 0;
    }

    method CheckSz(size: nat) returns (error: Option<HttpHeader.Error>)
      modifies this`totalSize
      ensures CheckSize(old(State()), size) == (State(), error)
    {
      if maxSize == 0 {
        return None;
      }
      if header.Some? {
        var length := ContentLength(header.value.options);
        if length.Refused? {
          return Some(length.error);
        }
        if length.value + |headerCache| >= maxSize {
          return Some(RequestTooLarge);
        }
      }
      totalSize := totalSize + size;
      if totalSize >= maxSize {
        return Some(RequestTooLarge);
      }
      return None;
    }

    method ReadHeader(s: string) returns (found: bool)
      modifies this`headerCache, this`contentCache
      ensures var cache := old(headerCache) + s;
        match Terminator(cache)
        case None => !found && headerCache == cache && contentCache == old(contentCache)
        case Some(b) =>
          found && headerCache == cache[..b.at] && contentCache == old(contentCache) + cache[b.at + b.len..]
    {
      headerCache := headerCache + s;
      var i := FindFirst(headerCache, EMPTY_LINE);
      var len := 4;
      if i == None {
        i := FindFirst(headerCache, BARE_EMPTY_LINE);
        len := 2;
      }
      if i == None {
        return false;
      }
      contentCache := contentCache + headerCache[i.value + len..];
      headerCache := headerCache[..i.value];
      return true;
    }

    /** An Error result stands for the exception. */
    method Read(s: string) returns (r: ReadResult)
      modifies this
      ensures ReadRequest(old(State()), s) == (State(), r)
    {
      if constructed {
        Reset();
      }
      var error := CheckSz(|s|);
      if error.Some? {
        return Error(error.value);
      }
      r := Take(s);
    }

    /** The piece goes to the header, or to the content. */
    method Take(s: string) returns (r: ReadResult)
      modifies this
      ensures TakeIn(old(State()), s) == (State(), r)
    {
      if header == None {
        r := TakeHeader(s);
      } else {
        contentCache := contentCache + s;
        r := Complete(s == "");
      }
    }

    method TakeHeader(s: string) returns (r: ReadResult)
      requires header == None
      modifies this
      ensures TakeIn(old(State()), s) == (State(), r)
    {
      if s == "" {
        return Error(MalformedPacket);
      }
      var found := ReadHeader(s);
      if !found {
        return NeedMore;
      }
      r := ParseHeader();
    }

    method ParseHeader() returns (r: ReadResult)
      modifies this
      ensures Begin(old(State())) == (State(), r)
    {
      var parsed := ParseRequest(level, headerCache);
      if parsed.Refused? {
        return Error(parsed.error);
      }
      header := Some(parsed.value);
      r := Complete(false);
    }

    /** The end of `read_packet`, once there is a header. */
    method Complete(noInput: bool) returns (r: ReadResult)
      requires header.Some?
      modifies this
      ensures Finish(old(State())) == (State(), r)
    {
      var length := ContentLength(header.value.options);
      if length.Refused? {
        return Error(length.error);
      }
      var ready := (length.value == 0 && noInput) || |contentCache| >= length.value;
      if ready {
        contentCache := contentCache[..length.value];
        header := Some(header.value.(options := SetContentLength(header.value.options, |contentCache|)));
        constructed := true;
        return Packet(header.value, contentCache);
      }
      return NeedMore;
    }
  }
}
