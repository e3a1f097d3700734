/** The header of a request: parsing, printing, and the options that the library
    itself reads and writes. */
module HttpHeader {
  import opened Text
  import opened OrderedMap
  import opened HttpText

  datatype Level = Weak | Strict

  datatype Error =
    | MalformedPacket
    | MethodNotAllowed
    | LengthRequired
    | RequestTooLarge
    | UnsupportedContentType
    | ExpectationFailed
    | Unauthorized
    | MalformedBase64

  type Options = seq<Entry<string>>
  datatype Header = Header(uri: string, options: Options)
  datatype Parsed<+T> = Good(value: T) | Refused(error: Error)

  const CONTENT_LENGTH := "content-length"
  const CONTENT_TYPE := "content-type"
  const CONNECTION := "connection"
  const HOST := "host"
  const USER_AGENT := "user-agent"
  const AUTHORIZATION := "authorization"
  const EXPECT := "expect"
  const TEXT_XML := "text/xml"
  const UINT32_MAX := 0xffff_ffff

  // ----- Options ------------------------------------------------------------

  function PutDefault(o: Options, name: string, value: string): Options {
    if Has(o, name) then o else Put(o, name, value)
  }

  /** `lexical_cast` of digits to a 32-bit unsigned number. */
  function Unsigned(s: string): Option<nat> {
    if s != "" && AllDigits(s) && DigitsValue(s) <= UINT32_MAX then Some(DigitsValue(s)) else None
  }

  /** What the validators registered for a name object to. */
  function Validate(level: Level, name: string, value: string): Option<Error> {
    if name == CONTENT_LENGTH then
      if Unsigned(value) == None then Some(MalformedPacket) else None
    else if name == EXPECT then
      if Occurs(Lower(value), "100-continue", 0) then None else Some(ExpectationFailed)
    else if name == CONTENT_TYPE && level == Strict then
      if FindFirst(Lower(value), TEXT_XML) == None then Some(UnsupportedContentType) else None
    else None
  }

  function ContentLength(o: Options): Parsed<nat> {
    match Find(o, CONTENT_LENGTH)
    case None => Refused(LengthRequired)
    case Some(s) => (
      match Unsigned(s)
      case None => Refused(MalformedPacket)
      case Some(n) => Good(n))
  }

  function SetContentLength(o: Options, n: nat): Options {
    var p := Put(o, CONTENT_LENGTH, NatText(n));
    if n > 0 then Put(p, CONTENT_TYPE, TEXT_XML) else p
  }

  // ----- Parsing ------------------------------------------------------------

  function ParseOption(line: string): Option<Entry<string>> {
    match FindFirst(line, ":")
    case None => None
    case Some(i) => Some(Entry(Lower(Trim(line[..i])), Trim(line[i + 1..])))
  }

  function ParseOptions(level: Level, o: Options, lines: seq<string>): Parsed<Options>
    decreases |lines|
  {
    if lines == [] then Good(o)
    else
      match ParseOption(lines[0])
      case None => Refused(MalformedPacket)
      case Some(e) =>
        if Validate(level, e.key, e.value).Some? then Refused(Validate(level, e.key, e.value).value)
        else ParseOptions(level, Put(o, e.key, e.value), lines[1..])
  }

  const NEW_OPTIONS: Options := [Entry(CONNECTION, "close")]

  function RequestDefaults(o: Options): Options {
    PutDefault(PutDefault(o, HOST, ""), USER_AGENT, "unknown")
  }

  function ParseHead(headLine: string): Parsed<string> {
    var tokens := Split(headLine, false);
    if tokens[0] != "POST" then Refused(MethodNotAllowed)
    else Good(if |tokens| > 1 then tokens[1] else "")
  }

  /** A request header made from its text. */
  function ParseRequest(level: Level, text: string): Parsed<Header> {
    var lines := Split(text, true);
    match ParseOptions(level, NEW_OPTIONS, lines[1..])
    case Refused(e) => Refused(e)
    case Good(o) =>
      match ParseHead(lines[0])
      case Refused(e) => Refused(e)
      case Good(uri) => Good(Header(uri, RequestDefaults(o)))
  }

  // ----- Printing -----------------------------------------------------------

  function HeadLine(h: Header): string {
    "POST " + h.uri + " HTTP/1.0"
  }

  function OptionLine(e: Entry<string>): string {
    e.key + ": " + e.value
  }

  function OptionText(o: Options): string {
    if o == [] then "" else OptionLine(o[0]) + CRLF + OptionText(o[1..])
  }

  /** `Header::dump`. */
  function Dump(h: Header): string {
    HeadLine(h) + CRLF + OptionText(h.options) + CRLF
  }

  function OptionLines(o: Options): (r: seq<string>)
    ensures |r| == |o|
  {
    if o == [] then [] else [OptionLine(o[0])] + OptionLines(o[1..])
  }

  function Lines(h: Header): seq<string> {
    [HeadLine(h)] + OptionLines(h.options)
  }

  /** The text, from the request line on: each option is one more line in front of the
      empty one. */
  lemma {:induction false} DumpedText(h: Header, o: Options, e: Entry<string>)
    ensures Dump(h.(options := [])) == "POST " + h.uri + " HTTP/1.0\r\n\r\n"
    ensures var before := Dump(h.(options := o));
      |before| >= 2 && Dump(h.(options := o + [e])) == before[..|before| - 2] + e.key + ": " + e.value + "\r\n\r\n"
  {
    OptionTextEnds(o, e);
  }

  lemma {:induction false} OptionTextEnds(o: Options, e: Entry<string>)
    ensures OptionText(o + [e]) == OptionText(o) + (e.key + ": " + e.value + "\r\n")
  {
    if o == [] {
      assert (o + [e])[1..] == [];
    } else {
      assert (o + [e])[1..] == o[1..] + [e];
      OptionTextEnds(o[1..], e);
    }
  }

  // ----- What can be sent ---------------------------------------------------

  predicate IsName(s: string) {
    IsTrimmed(s) && IsLower(s) && HasNoLineEnds(s) && ':' !in s
  }

  predicate IsValue(s: string) {
    IsTrimmed(s) && HasNoLineEnds(s)
  }

  ghost predicate OptionsFit(o: Options) {
    Ordered(o) && forall e :: e in o ==> IsName(e.key) && IsValue(e.value)
  }

  ghost predicate Fits(h: Header) {
    h.uri != "" && HasNoSpace(h.uri) && OptionsFit(h.options)
  }

  predicate Passes(level: Level, o: Options) {
    forall e :: e in o ==> Validate(level, e.key, e.value) == None
  }

  /** The options after the receiver has supplied what was not sent. */
  function Completed(o: Options): Options {
    RequestDefaults(PutDefault(o, CONNECTION, "close"))
  }

  // ----- Round trip ---------------------------------------------------------

  lemma {:induction false} OptionTextJoins(line: string, o: Options)
    ensures line + CRLF + OptionText(o) == Join([line] + OptionLines(o)) + CRLF
    decreases |o|
  {
    var lines := [line] + OptionLines(o);
    if o == [] {
      assert lines == [line];
      assert line + CRLF + "" == line + CRLF;
    } else {
      OptionTextJoins(OptionLine(o[0]), o[1..]);
      assert lines[1..] == [OptionLine(o[0])] + OptionLines(o[1..]);
      var rest := Join(lines[1..]);
      assert line + CRLF + (rest + CRLF) == (line + CRLF + rest) + CRLF;
    }
  }

  lemma DumpIsLines(h: Header)
    ensures Dump(h) == Join(Lines(h)) + (CRLF + CRLF)
  {
    OptionTextJoins(HeadLine(h), h.options);
    var j := Join(Lines(h));
    assert (j + CRLF) + CRLF == j + (CRLF + CRLF);
  }

  lemma OptionLineIsLine(e: Entry<string>)
    requires IsName(e.key) && IsValue(e.value)
    ensures IsLine(OptionLine(e))
  {
  }

  lemma {:induction false} OptionLinesAreLines(o: Options)
    requires forall e :: e in o ==> IsName(e.key) && IsValue(e.value)
    ensures forall i :: 0 <= i < |o| ==> IsLine(OptionLines(o)[i])
  {
    if o != [] {
      assert o[0] in o;
      forall e | e in o[1..] ensures e in o {
      }
      OptionLineIsLine(o[0]);
      OptionLinesAreLines(o[1..]);
    }
  }

  lemma HeadIsLine(h: Header)
    requires HasNoSpace(h.uri)
    ensures IsLine(HeadLine(h))
  {
  }

  lemma LinesAreLines(h: Header)
    requires Fits(h)
    ensures AreLines(Lines(h))
  {
    HeadIsLine(h);
    OptionLinesAreLines(h.options);
  }

  lemma ColonAt(line: string, j: nat)
    ensures Occurs(line, ":", j) <==> j < |line| && line[j] == ':'
  {
    if j < |line| {
      assert line[j..j + 1] == [line[j]];
    }
  }

  lemma ColonOf(k: string, rest: string)
    requires ':' !in k
    ensures FindFirst(k + ":" + rest, ":") == Some(|k|)
  {
    var line := k + ":" + rest;
    var n := |k|;
    assert line[n..n + 1] == ":";
    assert Occurs(line, ":", n);
    assert forall j :: 0 <= j < n ==> line[j] == k[j];
    forall j: nat | j < n ensures !Occurs(line, ":", j) {
      assert line[j..j + 1] == [k[j]];
    }
  }

  lemma ParseOptionOf(e: Entry<string>)
    requires IsName(e.key) && IsValue(e.value)
    ensures ParseOption(OptionLine(e)) == Some(e)
  {
    var line := OptionLine(e);
    var n := |e.key|;
    assert line == e.key + ":" + (" " + e.value);
    ColonOf(e.key, " " + e.value);
    assert line[..n] == e.key && line[n + 1..] == " " + e.value;
    TrimKeeps(e.key);
    TrimKeeps(e.value);
    LowerKeeps(e.key);
  }

  lemma {:induction false} ParseOptionsOf(level: Level, m: Options, o: Options)
    requires forall e :: e in o ==> IsName(e.key) && IsValue(e.value)
    requires Passes(level, o)
    ensures ParseOptions(level, m, OptionLines(o)) == Good(PutAll(m, o))
    decreases |o|
  {
    if o != [] {
      assert o[0] in o;
      forall e | e in o[1..] ensures e in o {
      }
      ParseOptionOf(o[0]);
      ParseOptionsOf(level, Put(m, o[0].key, o[0].value), o[1..]);
    }
  }

  lemma ParseHeadOf(h: Header)
    requires h.uri != "" && HasNoSpace(h.uri)
    ensures ParseHead(HeadLine(h)) == Good(h.uri)
  {
    var rest := " " + (h.uri + " HTTP/1.0");
    assert HeadLine(h) == "POST" + rest;
    SplitToken("POST", rest, false);
    assert rest[1..] == h.uri + " HTTP/1.0";
    SplitToken(h.uri, " HTTP/1.0", false);
  }

  /** Reading all options into a new header's gives them, with the default. */
  lemma OptionsArrive(o: Options)
    requires Ordered(o)
    ensures PutAll(NEW_OPTIONS, o) == PutDefault(o, CONNECTION, "close")
  {
    var a, b := PutAll(NEW_OPTIONS, o), PutDefault(o, CONNECTION, "close");
    PutAllOrdered(NEW_OPTIONS, o);
    PutOrdered(o, CONNECTION, "close");
    forall q ensures Find(a, q) == Find(b, q) {
      FindPutAll(NEW_OPTIONS, o, q);
      FindPut(o, CONNECTION, "close", q);
      assert Find(NEW_OPTIONS, q) == if q == CONNECTION then Some("close") else None;
    }
    Extensional(a, b);
  }

  /** A header that was printed, without the empty line at its end, is read back
      with the same target and the same options, completed by the defaults. */
  lemma HeaderRoundTrip(level: Level, h: Header)
    requires Fits(h) && Passes(level, h.options)
    ensures Dump(h) == Join(Lines(h)) + (CRLF + CRLF)
    ensures ParseRequest(level, Join(Lines(h))) == Good(Header(h.uri, Completed(h.options)))
  {
    DumpIsLines(h);
    LinesAreLines(h);
    SplitJoin(Lines(h));
    assert Lines(h)[1..] == OptionLines(h.options);
    ParseOptionsOf(level, NEW_OPTIONS, h.options);
    OptionsArrive(h.options);
    ParseHeadOf(h);
  }
}
