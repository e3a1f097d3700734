/** Options with a meaning of their own: the X- headers, and basic authentication
    (RFC 7617). */
module HttpOptions {
  import opened Text
  import opened OrderedMap
  import opened HttpText
  import opened HttpHeader
  import Base64
  import HttpReader
  import HttpSession

  // ----- X- headers ---------------------------------------------------------

  /** `XHeaders::validate`. */
  predicate IsXName(s: string) {
    Occurs(s, "X-", 0) || Occurs(s, "x-", 0)
  }

  lemma XNames(s: string)
    ensures IsXName(s) <==> |s| >= 2 && (s[0] == 'X' || s[0] == 'x') && s[1] == '-'
  {
    if |s| >= 2 {
      assert s[0..2] == [s[0], s[1]];
    }
  }

  /** `XHeaders`: the field and what the assignment from a map makes of it. */
  class XHeaders {
    var headers: Options

    constructor ()
      ensures headers == []
    {
      headers := [];
    }

    /** `operator =`. */
    method Assign(o: Options)
      modifies this
      ensures headers == PutAll([], Selected(o))
    {
      headers := [];
      var i := 0;
      while i < |o|
        invariant 0 <= i <= |o|
        invariant headers == PutAll([], Selected(o[..i]))
      {
        if IsXName(o[i].key) {
          headers := Put(headers, Lower(o[i].key), o[i].value);
        }
        SelectedStep(o, i);
        i := i + 1;
      }
      assert o[..i] == o;
    }

    /** `operator []` with an assignment to what it returns; false where Error_xheader
        is thrown. */
    method Set(k: string, v: string) returns (ok: bool)
      modifies this
      ensures ok == IsXName(k)
      ensures forall q :: Find(headers, q) == if ok && q == Lower(k) then Some(v) else Find(old(headers), q)
      ensures old(Ordered(headers)) ==> Ordered(headers)
    {
      ok := IsXName(k);
      if ok {
        forall q ensures Find(Put(headers, Lower(k), v), q) == if q == Lower(k) then Some(v) else Find(headers, q) {
          FindPut(headers, Lower(k), v, q);
        }
        if Ordered(headers) {
          PutOrdered(headers, Lower(k), v);
        }
        headers := Put(headers, Lower(k), v);
      }
    }
  }

  /** The entries that are kept, with their names in lower case. */
  function Selected(o: Options): Options {
    if o == [] then []
    else (if IsXName(o[0].key) then [Entry(Lower(o[0].key), o[0].value)] else []) + Selected(o[1..])
  }

  lemma {:induction false} SelectedConcat(a: Options, b: Options)
    ensures Selected(a + b) == Selected(a) + Selected(b)
  {
    if a == [] {
      assert a + b == b;
    } else {
      SelectedConcat(a[1..], b);
      SelectedFirst(a);
      SelectedFirst(a + b);
      assert (a + b)[1..] == a[1..] + b;
      Associates(FirstSelected(a), Selected(a[1..]), Selected(b));
    }
  }

  function FirstSelected(o: Options): Options
    requires o != []
  {
    if IsXName(o[0].key) then [Entry(Lower(o[0].key), o[0].value)] else []
  }

  lemma SelectedFirst(o: Options)
    requires o != []
    ensures Selected(o) == FirstSelected(o) + Selected(o[1..])
  {
  }

  lemma {:induction false} PutAllConcat(m: Options, a: Options, b: Options)
    ensures PutAll(m, a + b) == PutAll(PutAll(m, a), b)
    decreases |a|
  {
    if a == [] {
      assert a + b == b;
    } else {
      assert (a + b)[1..] == a[1..] + b;
      PutAllConcat(Put(m, a[0].key, a[0].value), a[1..], b);
    }
  }

  lemma SelectedStep(o: Options, i: nat)
    requires i < |o|
    ensures PutAll([], Selected(o[..i + 1])) ==
      var m := PutAll([], Selected(o[..i]));
      if IsXName(o[i].key) then Put(m, Lower(o[i].key), o[i].value) else m
  {
    assert o[..i + 1] == o[..i] + [o[i]];
    SelectedConcat(o[..i], [o[i]]);
    assert Selected([o[i]]) == if IsXName(o[i].key) then [Entry(Lower(o[i].key), o[i].value)] else [];
    PutAllConcat([], Selected(o[..i]), Selected([o[i]]));
    assert Selected(o[..i]) + [] == Selected(o[..i]);
  }

  /** What `get_xheaders` gives. */
  function XHeadersOf(o: Options): Options {
    PutAll([], Selected(o))
  }

  ghost predicate LowerNames(o: Options) {
    forall i :: 0 <= i < |o| ==> IsLower(o[i].key)
  }

  lemma {:induction false} SelectedAreThere(o: Options)
    requires LowerNames(o)
    ensures forall e :: e in Selected(o) ==> e in o
  {
    if o != [] {
      SelectedAreThere(o[1..]);
      LowerKeeps(o[0].key);
      assert o[0] == Entry(o[0].key, o[0].value);
    }
  }

  lemma {:induction false} SelectedOrdered(o: Options)
    requires Ordered(o) && LowerNames(o)
    ensures Ordered(Selected(o))
  {
    if o != [] {
      var rest := Selected(o[1..]);
      SelectedOrdered(o[1..]);
      SelectedAreThere(o[1..]);
      LowerKeeps(o[0].key);
      forall j | 0 <= j < |rest| ensures Less(o[0].key, rest[j].key) {
        assert rest[j] in o[1..];
      }
    }
  }

  lemma {:induction false} FindSelected(o: Options, q: string)
    requires LowerNames(o)
    ensures Find(Selected(o), q) == if IsXName(q) then Find(o, q) else None
  {
    if o != [] {
      var rest := Selected(o[1..]);
      FindSelected(o[1..], q);
      LowerKeeps(o[0].key);
      if IsXName(o[0].key) {
        assert ([o[0]] + rest)[1..] == rest;
        assert Selected(o) == [Entry(o[0].key, o[0].value)] + rest;
      } else {
        assert Selected(o) == [] + rest == rest;
      }
    }
  }

  /** Of options with lower-case names, those and only those whose name starts with
      "x-" are X- headers. */
  lemma XHeadersAreFiltered(o: Options, q: string)
    requires Ordered(o) && LowerNames(o)
    ensures Find(XHeadersOf(o), q) == if IsXName(q) then Find(o, q) else None
    ensures Ordered(XHeadersOf(o))
  {
    FindSelected(o, q);
    SelectedOrdered(o);
    FindPutAll([], Selected(o), q);
    PutAllOrdered([], Selected(o));
  }

  // ----- X- headers from one side to the other --------------------------------

  /** Headers that `XHeaders` can hold. */
  ghost predicate AreXHeaders(x: Options) {
    Ordered(x) && forall i :: 0 <= i < |x| ==> IsXName(x[i].key) && IsLower(x[i].key)
  }

  lemma {:induction false} FindOnlyX(x: Options, q: string)
    requires AreXHeaders(x)
    ensures Find(x, q).Some? ==> IsXName(q)
  {
    if x != [] {
      FindOnlyX(x[1..], q);
    }
  }

  lemma DefaultsAreNoX(o: Options, q: string)
    requires IsXName(q)
    ensures Find(Completed(o), q) == Find(o, q)
  {
    assert q[0] == q[0..2][0];
    var o1 := PutDefault(o, CONNECTION, "close");
    var o2 := PutDefault(o1, HOST, "");
    HttpSession.FindPutDefault(o, CONNECTION, "close", q);
    HttpSession.FindPutDefault(o1, HOST, "", q);
    HttpSession.FindPutDefault(o2, USER_AGENT, "unknown", q);
  }

  lemma LengthIsNoX(o: Options, n: nat, q: string)
    requires IsXName(q)
    ensures Find(SetContentLength(o, n), q) == Find(o, q)
  {
    assert q[0] == q[0..2][0];
    FindPut(o, CONTENT_LENGTH, NatText(n), q);
    FindPut(Put(o, CONTENT_LENGTH, NatText(n)), CONTENT_TYPE, TEXT_XML, q);
  }

  lemma DefaultIsLower(o: Options, k: string, v: string)
    requires LowerNames(o) && IsLower(k)
    ensures LowerNames(PutDefault(o, k, v))
  {
    PutKeys(o, k, v);
    var m := Put(o, k, v);
    forall i | 0 <= i < |m| ensures IsLower(m[i].key) {
      assert m[i] in m;
    }
  }

  lemma CompletedIsLower(o: Options)
    requires LowerNames(o)
    ensures LowerNames(Completed(o))
  {
    var o1 := PutDefault(o, CONNECTION, "close");
    DefaultIsLower(o, CONNECTION, "close");
    DefaultIsLower(o1, HOST, "");
    DefaultIsLower(PutDefault(o1, HOST, ""), USER_AGENT, "unknown");
  }

  /** The X- headers given to `set_xheaders` are what `get_xheaders` finds on the
      other side, when there were none before. */
  lemma XHeadersArrive(p: HttpSession.Sent, base: Options, x: Options)
    requires Fits(p.header) && p.header.options == PutAll(base, x)
    requires AreXHeaders(x) && forall q :: IsXName(q) ==> Find(base, q) == None
    ensures XHeadersOf(HttpSession.ReceivedHeader(p).options) == x
  {
    var sent := HttpSession.PacketHeader(p).options;
    var got := Completed(sent);
    HttpSession.PacketHeaderFits(p);
    assert LowerNames(sent) by {
      forall i | 0 <= i < |sent| ensures IsLower(sent[i].key) {
        assert sent[i] in sent;
      }
    }
    CompletedIsLower(sent);
    HttpSession.CompletedOrdered(sent);
    XHeadersAreFiltered(got, "");
    forall q ensures Find(XHeadersOf(got), q) == Find(x, q) {
      XHeadersAreFiltered(got, q);
      FindOnlyX(x, q);
      if IsXName(q) {
        DefaultsAreNoX(sent, q);
        LengthIsNoX(p.header.options, |p.content|, q);
        FindPutAll(base, x, q);
      }
    }
    Extensional(XHeadersOf(got), x);
  }

  // ----- Basic authentication -------------------------------------------------

  const BASIC := "Basic "

  function SetAuthInfo(o: Options, user: bytes, password: bytes): Options {
    Put(o, AUTHORIZATION, BASIC + Base64.Encode(user + ":" + password))
  }

  function Credentials(data: bytes): (bytes, bytes) {
    match FindFirst(data, ":")
    case None => (data, [])
    case Some(i) => (data[..i], data[i + 1..])
  }

  /** `get_authinfo`, from the value of the option. */
  function AuthInfo(value: Option<string>): Parsed<(bytes, bytes)> {
    if value == None then Refused(Unauthorized)
    else
      var v := SplitAtBlanks(value.value);
      if |v| != 2 || Lower(v[0]) != "basic" then Refused(Unauthorized)
      else
        match Base64.Decode(v[1])
        case None => Refused(MalformedBase64)
        case Some(data) => Good(Credentials(data))
  }

  function GetAuthInfo(o: Options): Parsed<(bytes, bytes)> {
    AuthInfo(Find(o, AUTHORIZATION))
  }

  predicate HasNoBlanks(s: string) {
    forall i :: 0 <= i < |s| ==> s[i] != ' ' && s[i] != '\t'
  }

  lemma {:induction false} SplitNoBlanks(s: string)
    requires HasNoBlanks(s)
    ensures SplitAtBlanks(s) == [s]
  {
    if s != "" {
      SplitNoBlanks(s[1..]);
      assert [s[0]] + s[1..] == s;
    }
  }

  predicate IsBlank(s: string) {
    s == " " || s == "\t"
  }

  lemma {:induction false} SplitAtFirstBlank(a: string, blank: string, b: string)
    requires HasNoBlanks(a) && IsBlank(blank)
    ensures SplitAtBlanks(a + blank + b) == [a] + SplitAtBlanks(b)
  {
    var s := a + blank + b;
    if a == "" {
      assert s == blank + b && s[1..] == b;
    } else {
      assert s[1..] == a[1..] + blank + b;
      SplitAtFirstBlank(a[1..], blank, b);
      assert [a[0]] + a[1..] == a;
    }
  }

  lemma BasicValueParts(credentials: bytes)
    ensures SplitAtBlanks(BASIC + Base64.Encode(credentials)) == ["Basic", Base64.Encode(credentials)]
  {
    var text := Base64.Encode(credentials);
    assert HasNoBlanks(text) by {
      Base64.EncodeIsPlain(credentials);
    }
    PartsOf(text);
  }

  lemma PartsOf(text: string)
    requires HasNoBlanks(text)
    ensures SplitAtBlanks(BASIC + text) == ["Basic", text]
  {
    assert BASIC + text == "Basic" + " " + text;
    SplitAtFirstBlank("Basic", " ", text);
    SplitNoBlanks(text);
  }

  /** The first colon separates. */
  lemma FirstColon(user: bytes, password: bytes)
    ensures var data := user + ":" + password;
      && FindFirst(data, ":").Some?
      && (FindFirst(data, ":") == Some(|user|) <==> ':' !in user)
      && data[..|user|] == user && data[|user| + 1..] == password
  {
    var data := user + ":" + password;
    assert data[|user|..|user| + 1] == ":";
    assert Occurs(data, ":", |user|);
    forall j: nat | j < |user| ensures Occurs(data, ":", j) <==> user[j] == ':' {
      assert data[j..j + 1] == [user[j]];
    }
    if ':' in user {
      var j :| 0 <= j < |user| && user[j] == ':';
      assert Occurs(data, ":", j);
    }
  }

  lemma AuthInfoOf(data: bytes)
    ensures AuthInfo(Some(BASIC + Base64.Encode(data))) == Good(Credentials(data))
  {
    var text := Base64.Encode(data);
    assert SplitAtBlanks(BASIC + text) == ["Basic", text] by {
      BasicValueParts(data);
    }
    assert Base64.Decode(text) == Some(data) by {
      Base64.RoundTrip(data);
    }
    AuthInfoFrom(BASIC + text, text, data);
  }

  lemma AuthInfoFrom(value: string, text: string, data: bytes)
    requires SplitAtBlanks(value) == ["Basic", text] && Base64.Decode(text) == Some(data)
    ensures AuthInfo(Some(value)) == Good(Credentials(data))
  {
    assert Lower("Basic") == "basic";
  }

  lemma CredentialsOf(user: bytes, password: bytes)
    ensures Credentials(user + ":" + password) == (user, password) <==> ':' !in user
  {
    var data := user + ":" + password;
    FirstColon(user, password);
    var i := FindFirst(data, ":").value;
    assert |data[..i]| == i;
  }

  /** What the value of the option has to be: two words with one blank between them, the
      first of them, in any case, the name of the scheme. */
  lemma TwoWords(scheme: string, blank: string, text: string)
    requires HasNoBlanks(scheme) && IsBlank(blank) && HasNoBlanks(text)
    ensures AuthInfo(Some(scheme + blank + text)) ==
      if Lower(scheme) != "basic" then Refused(Unauthorized)
      else match Base64.Decode(text)
        case None => Refused(MalformedBase64)
        case Some(data) => Good(Credentials(data))
  {
    SplitAtFirstBlank(scheme, blank, text);
    SplitNoBlanks(text);
  }

  lemma OneWord(word: string)
    requires HasNoBlanks(word)
    ensures AuthInfo(Some(word)) == Refused(Unauthorized)
    ensures AuthInfo(None) == Refused(Unauthorized)
  {
    SplitNoBlanks(word);
  }

  lemma MoreWords(a: string, blank: string, b: string, blank': string, rest: string)
    requires HasNoBlanks(a) && IsBlank(blank) && HasNoBlanks(b) && IsBlank(blank')
    ensures AuthInfo(Some(a + blank + (b + blank' + rest))) == Refused(Unauthorized)
  {
    SplitAtFirstBlank(a, blank, b + blank' + rest);
    SplitAtFirstBlank(b, blank', rest);
  }

  /** What is set, in full. */
  lemma AuthInfoIsSet(o: Options, user: bytes, password: bytes, name: string)
    ensures Find(SetAuthInfo(o, user, password), name) ==
      if name == "authorization" then Some("Basic " + Base64.Encode(user + ":" + password)) else Find(o, name)
  {
    FindPut(o, "authorization", "Basic " + Base64.Encode(user + ":" + password), name);
  }

  /** User and password are what stands on either side of the first colon; without one
      all is the user. */
  lemma CredentialsSplit(user: bytes, password: bytes)
    requires ':' !in user
    ensures Credentials(user + ":" + password) == (user, password)
    ensures Credentials(user) == (user, [])
  {
    CredentialsOf(user, password);
    forall j: nat ensures !Occurs(user, ":", j) {
      ColonAt(user, j);
    }
  }

  /** What was set is what is got, on the other side of a connection too, exactly
      when there is no colon in the name of the user. */
  lemma AuthInfoArrives(p: HttpSession.Sent, base: Options, user: bytes, password: bytes)
    requires p.header.options == SetAuthInfo(base, user, password)
    ensures GetAuthInfo(p.header.options) == Good((user, password)) <==> ':' !in user
    ensures GetAuthInfo(HttpSession.ReceivedHeader(p).options) == GetAuthInfo(p.header.options)
  {
    var value := BASIC + Base64.Encode(user + ":" + password);
    FindPut(base, AUTHORIZATION, value, AUTHORIZATION);
    AuthInfoOf(user + ":" + password);
    CredentialsOf(user, password);
    var o := p.header.options;
    FindPut(o, CONTENT_LENGTH, NatText(|p.content|), AUTHORIZATION);
    FindPut(Put(o, CONTENT_LENGTH, NatText(|p.content|)), CONTENT_TYPE, TEXT_XML, AUTHORIZATION);
    HttpSession.FindCompleted(HttpSession.PacketHeader(p).options, AUTHORIZATION);
  }

  lemma EncodedIsValue(text: string)
    requires text != "" && forall i :: 0 <= i < |text| ==> Base64.InAlphabet(text[i]) || text[i] == '='
    ensures IsValue(BASIC + text)
  {
    var value := BASIC + text;
    assert value[|value| - 1] == text[|text| - 1];
  }

  lemma EncodedFits(base: Options, text: string)
    requires OptionsFit(base)
    requires text != "" && forall i :: 0 <= i < |text| ==> Base64.InAlphabet(text[i]) || text[i] == '='
    ensures OptionsFit(Put(base, AUTHORIZATION, BASIC + text))
  {
    EncodedIsValue(text);
    HttpSession.PutFits(base, AUTHORIZATION, BASIC + text);
  }

  /** The value can stand in a header. */
  lemma AuthInfoFits(base: Options, user: bytes, password: bytes)
    requires OptionsFit(base)
    ensures OptionsFit(SetAuthInfo(base, user, password))
  {
    Base64.EncodeIsPlain(user + ":" + password);
    EncodedFits(base, Base64.Encode(user + ":" + password));
  }

  // ----- From one side to the other --------------------------------------------

  lemma PutPasses(level: Level, o: Options, k: string, v: string)
    requires Passes(level, o) && Validate(level, k, v) == None
    ensures Passes(level, Put(o, k, v))
  {
    PutKeys(o, k, v);
  }

  lemma LengthIsValid(level: Level, n: nat)
    requires n <= UINT32_MAX
    ensures Validate(level, CONTENT_LENGTH, NatText(n)) == None && Validate(level, CONTENT_TYPE, TEXT_XML) == None
  {
    LowerKeeps(TEXT_XML);
    assert Occurs(TEXT_XML, TEXT_XML, 0);
  }

  lemma LengthPasses(level: Level, o: Options, n: nat)
    requires Passes(level, o) && n <= UINT32_MAX
    ensures Passes(level, SetContentLength(o, n))
  {
    LengthIsValid(level, n);
    PutPasses(level, o, CONTENT_LENGTH, NatText(n));
    PutPasses(level, Put(o, CONTENT_LENGTH, NatText(n)), CONTENT_TYPE, TEXT_XML);
  }

  /** The header of a request with user and password passes whatever they are. */
  lemma AuthInfoPasses(level: Level, base: Options, user: bytes, password: bytes)
    requires OptionsFit(base) && Passes(level, base)
    ensures OptionsFit(SetAuthInfo(base, user, password)) && Passes(level, SetAuthInfo(base, user, password))
  {
    AuthInfoFits(base, user, password);
    PutPasses(level, base, AUTHORIZATION, BASIC + Base64.Encode(user + ":" + password));
  }

  lemma AuthInfoIsKept(base: Options, user: bytes, password: bytes)
    ensures var o := SetAuthInfo(base, user, password);
      && GetAuthInfo(Completed(o)) == GetAuthInfo(o)
      && (GetAuthInfo(o) == Good((user, password)) <==> ':' !in user)
  {
    var data := user + ":" + password;
    FindPut(base, AUTHORIZATION, BASIC + Base64.Encode(data), AUTHORIZATION);
    HttpSession.FindCompleted(SetAuthInfo(base, user, password), AUTHORIZATION);
    AuthInfoOf(data);
    CredentialsOf(user, password);
  }

  /** The text of a header with user and password is parsed, and they are got back
      exactly when there is no colon in the name of the user. */
  lemma AuthInfoRoundTrip(level: Level, uri: string, base: Options, user: bytes, password: bytes)
    requires uri != "" && HasNoSpace(uri) && OptionsFit(base) && Passes(level, base)
    ensures var h := Header(uri, SetAuthInfo(base, user, password));
      var parsed := ParseRequest(level, Join(Lines(h)));
      && Dump(h) == Join(Lines(h)) + (CRLF + CRLF)
      && parsed.Good? && parsed.value.uri == uri
      && (GetAuthInfo(parsed.value.options) == Good((user, password)) <==> ':' !in user)
  {
    AuthInfoPasses(level, base, user, password);
    HeaderRoundTrip(level, Header(uri, SetAuthInfo(base, user, password)));
    AuthInfoIsKept(base, user, password);
  }

  lemma IsSendable(level: Level, maxSize: nat, p: HttpSession.Sent)
    requires Fits(p.header) && Passes(level, p.header.options) && |p.content| <= UINT32_MAX
    requires maxSize == 0 || |HttpSession.PacketText(p)| < maxSize
    ensures HttpSession.Sendable(level, maxSize, p)
  {
    LengthPasses(level, p.header.options, |p.content|);
  }

  /** The same for a packet, however its bytes are cut on the way to a reader. */
  lemma AuthInfoTravels(r: HttpReader.Reader, batch: seq<string>, uri: string, base: Options, content: string,
                        user: bytes, password: bytes)
    requires uri != "" && HasNoSpace(uri) && OptionsFit(base) && Passes(r.level, base) && |content| <= UINT32_MAX
    requires var p := HttpSession.Sent(Header(uri, SetAuthInfo(base, user, password)), content);
      && HttpSession.ReadyForNext(r) && HttpSession.Carry(batch, p)
      && (r.maxSize == 0 || |HttpSession.PacketText(p)| < r.maxSize)
    ensures var result := HttpSession.Feed(r, batch).1;
      && result.Packet? && result.content == content
      && (GetAuthInfo(result.header.options) == Good((user, password)) <==> ':' !in user)
  {
    var p := HttpSession.Sent(Header(uri, SetAuthInfo(base, user, password)), content);
    AuthInfoPasses(r.level, base, user, password);
    IsSendable(r.level, r.maxSize, p);
    HttpSession.PacketArrives(r, batch, p);
    AuthInfoArrives(p, base, user, password);
  }

  /** And for the X- headers. */
  lemma XHeadersTravel(r: HttpReader.Reader, batch: seq<string>, p: HttpSession.Sent, base: Options, x: Options)
    requires HttpSession.ReadyForNext(r) && HttpSession.Sendable(r.level, r.maxSize, p) && HttpSession.Carry(batch, p)
    requires p.header.options == PutAll(base, x) && AreXHeaders(x) && forall q :: IsXName(q) ==> Find(base, q) == None
    ensures var result := HttpSession.Feed(r, batch).1;
      result.Packet? && XHeadersOf(result.header.options) == x
  {
    HttpSession.PacketArrives(r, batch, p);
    XHeadersArrive(p, base, x);
  }
}
