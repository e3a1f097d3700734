/** `Header` and `Request_header` as an object whose options are set one by one,
    against the functions of HttpHeader and HttpOptions. */
module RequestHeaderModel {
  import opened Text
  import opened OrderedMap
  import opened HttpText
  import opened HttpHeader
  import HttpOptions
  import HttpSession
  import Base64
  import BinaryDataModel

  class RequestHeader {
    var headLine: string
    var uri: string
    var options: Options
    const level: Level

    ghost function Value(): Header
      reads this
    {
      Header(uri, options)
    }

    /** The part of both constructors that is common. */
    constructor (level: Level)
      ensures this.level == level && options == NEW_OPTIONS && headLine == "" && uri == ""
    {
      this.level := level;
      headLine, uri, options := "", "", NEW_OPTIONS;
    }

    method SetOption(name: string, value: string)
      modifies this`options
      ensures options == Put(old(options), name, value)
    {
      options := Put(options, name, value);
    }

    method SetOptionDefault(name: string, value: string)
      modifies this`options
      ensures options == PutDefault(old(options), name, value)
    {
      if Has(options, name) {
        return;
      }
      SetOption(name, value);
    }

    /** An error where a validator throws. */
    method SetOptionChecked(name: string, value: string) returns (error: Option<Error>)
      modifies this`options
      ensures error == Validate(level, name, value)
      ensures options == if error == None then Put(old(options), name, value) else old(options)
    {
      error := Validate(level, name, value);
      if error == None {
        SetOption(name, value);
      }
    }

    /** `Header::parse`. */
    method Parse(s: string) returns (error: Option<Error>)
      modifies this`headLine, this`options
      ensures headLine == Split(s, true)[0]
      ensures match ParseOptions(level, old(options), Split(s, true)[1..])
        case Refused(e) => error == Some(e)
        case Good(o) => error == None && options == o
    {
      var lines := Split(s, true);
      headLine := lines[0];
      lines := lines[1..];
      ghost var goal := ParseOptions(level, options, lines);
      while lines != []
        invariant ParseOptions(level, options, lines) == goal && headLine == Split(s, true)[0]
        decreases |lines|
      {
        var line := lines[0];
        var j := FindFirst(line, ":");
        if j == None {
          return Some(MalformedPacket);
        }
        var name, value := Lower(Trim(line[..j.value])), Trim(line[j.value + 1..]);
        error := SetOptionChecked(name, value);
        if error.Some? {
          return;
        }
        lines := lines[1..];
      }
      return None;
    }

    /** The constructor of `Request_header` that parses, on a new object. */
    method Construct(s: string) returns (error: Option<Error>)
      requires options == NEW_OPTIONS && uri == ""
      modifies this`headLine, this`uri, this`options
      ensures match ParseRequest(level, s)
        case Refused(e) => error == Some(e)
        case Good(h) => error == None && Value() == h
    {
      error := Parse(s);
      if error.Some? {
        return;
      }
      SetOptionDefault(HOST, "");
      SetOptionDefault(USER_AGENT, "unknown");
      var methodLine := Split(headLine, false);
      if methodLine[0] != "POST" {
        return Some(MethodNotAllowed);
      }
      if |methodLine| > 1 {
        uri := methodLine[1];
      }
    }

    /** `Header::dump`. */
    method DumpText() returns (text: string)
      ensures text == Dump(Value())
    {
      text := "POST " + uri + " HTTP/1.0" + CRLF;
      ghost var head := text;
      var i := 0;
      assert options[..0] == [];
      while i < |options|
        invariant 0 <= i <= |options|
        invariant text == head + OptionText(options[..i])
      {
        OptionTextStep(options, i);
        text := text + (options[i].key + ": " + options[i].value + CRLF);
        i := i + 1;
      }
      assert options[..i] == options;
      text := text + CRLF;
    }

    method SetLength(length: nat)
      modifies this`options
      ensures options == SetContentLength(old(options), length)
    {
      SetOption(CONTENT_LENGTH, NatText(length));
      if length != 0 {
        SetOption(CONTENT_TYPE, TEXT_XML);
      }
    }

    method SetConnKeepAlive(c: bool)
      modifies this`options
      ensures Find(options, CONNECTION) == Some(if c then "keep-alive" else "close")
      ensures forall q :: q != CONNECTION ==> Find(options, q) == Find(old(options), q)
    {
      ghost var before := options;
      ghost var value := if c then "keep-alive" else "close";
      SetOption(CONNECTION, if c then "keep-alive" else "close");
      forall q ensures Find(options, q) == if q == CONNECTION then Some(value) else Find(before, q) {
        FindPut(before, CONNECTION, value, q);
      }
    }

    method SetXHeaders(x: Options)
      modifies this`options
      ensures options == PutAll(old(options), x)
    {
      var i := 0;
      ghost var goal := PutAll(options, x);
      assert x[0..] == x;
      while i < |x|
        invariant 0 <= i <= |x|
        invariant PutAll(options, x[i..]) == goal
      {
        assert x[i..][1..] == x[i + 1..];
        SetOption(x[i].key, x[i].value);
        i := i + 1;
      }
    }

    method SetAuthInfo(user: bytes, password: bytes)
      modifies this`options
      ensures options == HttpOptions.SetAuthInfo(old(options), user, password)
    {
      var credentials := new BinaryDataModel.BinaryData.FromData(user + ":" + password);
      var text := credentials.GetBase64();
      SetOption(AUTHORIZATION, HttpOptions.BASIC + text);
    }

    /** Refused where an exception is thrown. */
    method GetAuthInfo() returns (r: Parsed<(bytes, bytes)>)
      ensures r == HttpOptions.GetAuthInfo(options)
    {
      var value := Find(options, AUTHORIZATION);
      if value == None {
        return Refused(Unauthorized);
      }
      var v := SplitAtBlanks(value.value);
      if |v| != 2 || Lower(v[0]) != "basic" {
        return Refused(Unauthorized);
      }
      var credentials := BinaryDataModel.BinaryData.FromBase64(v[1]);
      if credentials == null {
        return Refused(MalformedBase64);
      }
      var data := credentials.data;
      var colon := FindFirst(data, ":");
      var user := if colon.Some? then data[..colon.value] else data;
      var password := if colon.Some? then data[colon.value + 1..] else [];
      return Good((user, password));
    }
  }

  /** `Packet`. */
  class Packet {
    const header: RequestHeader
    const content: string

    constructor (h: RequestHeader, co: string)
      modifies h`options
      ensures header == h && content == co
      ensures h.options == SetContentLength(old(h.options), |co|)
    {
      header, content := h, co;
      new;
      h.SetLength(|co|);
    }

    method SetKeepAlive(keepAlive: bool)
      modifies header`options
      ensures Find(header.options, CONNECTION) == Some(if keepAlive then "keep-alive" else "close")
      ensures forall q :: q != CONNECTION ==> Find(header.options, q) == Find(old(header.options), q)
    {
      header.SetConnKeepAlive(keepAlive);
    }

    method DumpText() returns (text: string)
      ensures text == Dump(header.Value()) + content
    {
      text := header.DumpText();
      text := text + content;
    }
  }

  /** A packet that is made and dumped is what `HttpSession` is about. */
  method DumpPacket(h: RequestHeader, content: string) returns (text: string)
    modifies h`options
    ensures text == HttpSession.PacketText(HttpSession.Sent(old(h.Value()), content))
  {
    var packet := new Packet(h, content);
    text := packet.DumpText();
  }

  lemma {:induction false} OptionTextStep(o: Options, i: nat)
    requires i < |o|
    ensures OptionText(o[..i + 1]) == OptionText(o[..i]) + (OptionLine(o[i]) + CRLF)
  {
    if i == 0 {
      assert o[..1][1..] == [];
      assert OptionLine(o[0]) + CRLF + "" == OptionLine(o[0]) + CRLF;
    } else {
      assert o[..i + 1][1..] == o[1..][..i] && o[..i][1..] == o[1..][..i - 1];
      OptionTextStep(o[1..], i - 1);
    }
  }
}
