/** Base64 as `Binary_data` encodes and decodes it (section 4 of RFC 4648). */
module Base64 {
  import opened Text

  // ----- Alphabet -----------------------------------------------------------

  predicate InAlphabet(c: char) {
    'A' <= c <= 'Z' || 'a' <= c <= 'z' || '0' <= c <= '9' || c == '+' || c == '/'
  }

  function Symbol(i: nat): (c: char)
    requires i < 64
    ensures InAlphabet(c) && Index(c) == i
  {
    if i < 26 then (i + 'A' as int) as char
    else if i < 52 then (i - 26 + 'a' as int) as char
    else if i < 62 then (i - 52 + '0' as int) as char
    else if i == 62 then '+' else '/'
  }

  function Index(c: char): (i: nat)
    requires InAlphabet(c)
    ensures i < 64
  {
    if 'A' <= c <= 'Z' then c as int - 'A' as int
    else if 'a' <= c <= 'z' then 26 + c as int - 'a' as int
    else if '0' <= c <= '9' then 52 + c as int - '0' as int
    else if c == '+' then 62 else 63
  }

  lemma SymbolOfIndex(c: char)
    requires InAlphabet(c)
    ensures Symbol(Index(c)) == c
  {
  }

  // ----- Encoding -----------------------------------------------------------

  function OctetAt(d: bytes, i: nat): (n: nat)
    ensures n < 256
  {
    if i < |d| then d[i] as int else 0
  }

  /** One group of up to three octets as four characters. */
  function EncodeGroup(d: bytes): (s: string)
    requires 1 <= |d| <= 3
    ensures |s| == 4
  {
    var b0, b1, b2 := OctetAt(d, 0), OctetAt(d, 1), OctetAt(d, 2);
    [Symbol(b0 / 4), Symbol(b0 % 4 * 16 + b1 / 16),
     if |d| > 1 then Symbol(b1 % 16 * 4 + b2 / 64) else '=',
     if |d| > 2 then Symbol(b2 % 64) else '=']
  }

  function Encode(d: bytes): (s: string)
    ensures |s| == 4 * ((|d| + 2) / 3)
  {
    if d == [] then ""
    else if |d| <= 3 then EncodeGroup(d)
    else
      GroupCount(|d|);
      EncodeGroup(d[..3]) + Encode(d[3..])
  }

  lemma GroupCount(n: nat)
    requires n > 3
    ensures (n + 2) / 3 == 1 + (n - 3 + 2) / 3
  {
  }

  lemma LastGroup(d: bytes)
    requires 1 <= |d| <= 3
    ensures Encode(d) == EncodeGroup(d) && Encode(d[|d|..]) == "" && d[..|d|] == d
  {
  }

  lemma FirstGroup(d: bytes)
    requires d != []
    ensures var n := if |d| < 3 then |d| else 3;
      Encode(d) == EncodeGroup(d[..n]) + Encode(d[n..])
  {
    if |d| <= 3 {
      LastGroup(d);
      NothingAfter(EncodeGroup(d));
    }
  }

  lemma NothingAfter(s: string)
    ensures s + "" == s
  {
  }

  // ----- Decoding -----------------------------------------------------------

  /** The octets of four characters, or None where the original throws
      Malformed_base64. A padding character ends the group, so whatever
      follows it inside the group is not looked at. */
  function DecodeFour(q: string): (r: Option<bytes>)
    requires |q| == 4
  {
    if !InAlphabet(q[0]) || !InAlphabet(q[1]) then None
    else
      var i1, i2 := Index(q[0]), Index(q[1]);
      var first: octet := (i1 * 4 + i2 / 16) as char;
      if q[2] == '=' then Some([first])
      else if !InAlphabet(q[2]) then None
      else
        var i3 := Index(q[2]);
        var second: octet := (i2 % 16 * 16 + i3 / 4) as char;
        if q[3] == '=' then Some([first, second])
        else if !InAlphabet(q[3]) then None
        else
          var third: octet := (i3 % 4 * 64 + Index(q[3])) as char;
          Some([first, second, third])
  }

  function Strip(s: string): (t: string)
    ensures forall i :: 0 <= i < |t| ==> !IsSpace(t[i])
  {
    if s == "" then ""
    else if IsSpace(s[0]) then Strip(s[1..])
    else [s[0]] + Strip(s[1..])
  }

  /** Decodes text without white space, group by group. */
  function DecodeGroups(t: string): (r: Option<bytes>)
  {
    if t == "" then Some([])
    else if |t| < 4 then None
    else
      match DecodeFour(t[..4])
      case None => None
      case Some(d) =>
        match DecodeGroups(t[4..])
        case None => None
        case Some(rest) => Some(d + rest)
  }

  function Decode(s: string): (r: Option<bytes>) {
    DecodeGroups(Strip(s))
  }

  // ----- Round trip ---------------------------------------------------------

  /** What a group of symbols, padded or not, decodes to. */
  lemma DecodeSymbols(q: string, s0: nat, s1: nat, s2: nat, s3: nat)
    requires s0 < 64 && s1 < 64 && s2 < 64 && s3 < 64
    requires |q| == 4 && q[0] == Symbol(s0) && q[1] == Symbol(s1)
    requires q[2] == '=' || (q[2] == Symbol(s2) && (q[3] == Symbol(s3) || q[3] == '='))
    ensures DecodeFour(q).Some?
    ensures var d := DecodeFour(q).value;
      && |d| == (if q[2] == '=' then 1 else if q[3] == '=' then 2 else 3)
      && d[0] as int == s0 * 4 + s1 / 16
      && (|d| > 1 ==> d[1] as int == s1 % 16 * 16 + s2 / 4)
      && (|d| > 2 ==> d[2] as int == s2 % 4 * 64 + s3)
  {
  }

  lemma Octets(b0: nat, b1: nat, b2: nat)
    requires b0 < 256 && b1 < 256 && b2 < 256
    ensures b0 / 4 * 4 + (b0 % 4 * 16 + b1 / 16) / 16 == b0
    ensures (b0 % 4 * 16 + b1 / 16) % 16 * 16 + (b1 % 16 * 4 + b2 / 64) / 4 == b1
    ensures (b1 % 16 * 4 + b2 / 64) % 4 * 64 + b2 % 64 == b2
  {
  }

  lemma SameOctets(a: bytes, b: bytes)
    requires |a| == |b| <= 3
    requires |a| > 0 ==> a[0] as int == b[0] as int
    requires |a| > 1 ==> a[1] as int == b[1] as int
    requires |a| > 2 ==> a[2] as int == b[2] as int
    ensures a == b
  {
    forall i | 0 <= i < |a| ensures a[i] == b[i] {
      assert i == 0 || i == 1 || i == 2;
    }
  }

  lemma GroupRoundTrip(d: bytes)
    requires 1 <= |d| <= 3
    ensures DecodeFour(EncodeGroup(d)) == Some(d)
  {
    var q, b0, b1, b2 := EncodeGroup(d), OctetAt(d, 0), OctetAt(d, 1), OctetAt(d, 2);
    DecodeSymbols(q, b0 / 4, b0 % 4 * 16 + b1 / 16, b1 % 16 * 4 + b2 / 64, b2 % 64);
    Octets(b0, b1, b2);
    SameOctets(DecodeFour(q).value, d);
  }

  lemma {:induction false} EncodeIsPlain(d: bytes)
    ensures forall i :: 0 <= i < |Encode(d)| ==> InAlphabet(Encode(d)[i]) || Encode(d)[i] == '='
    ensures Strip(Encode(d)) == Encode(d)
  {
    if |d| > 3 {
      EncodeIsPlain(d[3..]);
    }
    StripPlain(Encode(d));
  }

  lemma {:induction false} StripPlain(s: string)
    requires forall i :: 0 <= i < |s| ==> !IsSpace(s[i])
    ensures Strip(s) == s
  {
    if s != "" {
      StripPlain(s[1..]);
    }
  }

  /** Decoding inverts encoding for every octet string. */
  lemma {:induction false} RoundTrip(d: bytes)
    ensures Decode(Encode(d)) == Some(d)
  {
    EncodeIsPlain(d);
    GroupsRoundTrip(d);
  }

  lemma {:induction false} GroupsRoundTrip(d: bytes)
    ensures DecodeGroups(Encode(d)) == Some(d)
  {
    if d == [] {
    } else if |d| <= 3 {
      GroupRoundTrip(d);
      var s := Encode(d);
      assert s[..4] == s && s[4..] == "";
      assert d + [] == d;
    } else {
      GroupRoundTrip(d[..3]);
      GroupsRoundTrip(d[3..]);
      assert Encode(d)[..4] == EncodeGroup(d[..3]) && Encode(d)[4..] == Encode(d[3..]);
      assert d[..3] + d[3..] == d;
    }
  }

  // ----- Which texts decode -------------------------------------------------

  /** A group that decodes: two alphabet characters, then padding, or a third
      alphabet character followed by padding or a fourth one. */
  predicate ValidQuad(q: string)
    requires |q| == 4
  {
    && InAlphabet(q[0]) && InAlphabet(q[1])
    && (q[2] == '=' || (InAlphabet(q[2]) && (q[3] == '=' || InAlphabet(q[3]))))
  }

  /** Decoding succeeds exactly when the characters other than white space form
      whole valid groups. */
  lemma {:induction false} Acceptance(s: string)
    ensures Decode(s).Some? <==>
      var t := Strip(s);
      |t| % 4 == 0 && forall k :: 0 <= k < |t| / 4 ==> ValidQuad(t[4 * k..4 * k + 4])
  {
    var t := Strip(s);
    GroupsAcceptance(t);
    assert AllQuads(t) <==> forall k :: 0 <= k < |t| / 4 ==> ValidQuad(t[4 * k..4 * k + 4]) by {
      if AllQuads(t) {
        forall k | 0 <= k < |t| / 4 ensures ValidQuad(t[4 * k..4 * k + 4]) {
          assert QuadAt(t, k);
        }
      }
    }
  }

  /** Every quad of the text is valid. */
  ghost predicate AllQuads(t: string) {
    forall k :: 0 <= k < |t| / 4 ==> QuadAt(t, k)
  }

  ghost predicate QuadAt(t: string, k: nat) {
    4 * k + 4 <= |t| && ValidQuad(t[4 * k..4 * k + 4])
  }

  lemma NextQuad(t: string, k: nat)
    requires |t| >= 4
    ensures QuadAt(t, k + 1) <==> QuadAt(t[4..], k)
  {
    if 4 * k + 8 <= |t| {
      assert t[4..][4 * k..4 * k + 4] == t[4 * (k + 1)..4 * (k + 1) + 4];
    }
  }

  lemma AllQuadsStep(t: string)
    requires |t| >= 4
    ensures AllQuads(t) <==> QuadAt(t, 0) && AllQuads(t[4..])
  {
    var u := t[4..];
    assert |t| / 4 == |u| / 4 + 1;
    if AllQuads(t) {
      forall k | 0 <= k < |u| / 4 ensures QuadAt(u, k) {
        NextQuad(t, k);
      }
    }
    if QuadAt(t, 0) && AllQuads(u) {
      forall k | 0 <= k < |t| / 4 ensures QuadAt(t, k) {
        if k > 0 {
          NextQuad(t, k - 1);
        }
      }
    }
  }

  lemma FirstQuad(t: string)
    requires |t| >= 4
    ensures DecodeFour(t[..4]).Some? <==> QuadAt(t, 0)
  {
    assert t[4 * 0..4 * 0 + 4] == t[..4];
  }

  lemma {:induction false} GroupsAcceptance(t: string)
    ensures DecodeGroups(t).Some? <==> |t| % 4 == 0 && AllQuads(t)
  {
    if |t| >= 4 {
      GroupsAcceptance(t[4..]);
      FirstQuad(t);
      AllQuadsStep(t);
      assert |t| % 4 == |t[4..]| % 4;
    }
  }

  /** White space may be put anywhere without changing the outcome. */
  lemma WhiteSpaceIgnored(a: string, w: string, b: string)
    requires forall i :: 0 <= i < |w| ==> IsSpace(w[i])
    ensures Decode(a + w + b) == Decode(a + b)
  {
    StripConcat(a + w, b);
    StripConcat(a, w);
    StripConcat(a, b);
    StripSpace(w);
    assert Strip(a) + "" == Strip(a);
  }

  lemma {:induction false} StripConcat(a: string, b: string)
    ensures Strip(a + b) == Strip(a) + Strip(b)
  {
    if a == "" {
      assert a + b == b;
    } else {
      assert (a + b)[1..] == a[1..] + b;
      StripConcat(a[1..], b);
    }
  }

  lemma {:induction false} StripSpace(w: string)
    requires forall i :: 0 <= i < |w| ==> IsSpace(w[i])
    ensures Strip(w) == ""
  {
    if w != "" {
      StripSpace(w[1..]);
    }
  }

  /** Decoding distributes over concatenation at a group boundary. */
  lemma Distributes(a: string, b: string)
    requires |Strip(a)| % 4 == 0
    ensures Decode(a + b) ==
      match (Decode(a), Decode(b))
      case (Some(x), Some(y)) => Some(x + y)
      case _ => None
  {
    StripConcat(a, b);
    GroupsDistribute(Strip(a), Strip(b));
  }

  lemma {:induction false} GroupsDistribute(a: string, b: string)
    requires |a| % 4 == 0
    ensures DecodeGroups(a + b) ==
      match (DecodeGroups(a), DecodeGroups(b))
      case (Some(x), Some(y)) => Some(x + y)
      case _ => None
  {
    if a == "" {
      assert a + b == b;
      assert DecodeGroups(b).Some? ==> [] + DecodeGroups(b).value == DecodeGroups(b).value;
    } else {
      assert (a + b)[..4] == a[..4] && (a + b)[4..] == a[4..] + b;
      GroupsDistribute(a[4..], b);
      match (DecodeFour(a[..4]), DecodeGroups(a[4..]), DecodeGroups(b))
      case (Some(x), Some(y), Some(z)) => assert x + (y + z) == x + y + z;
      case _ =>
    }
  }

  // ----- Which texts are canonical ------------------------------------------

  /** Padding only at the end of the last group, and no bits left over there
      (section 3.5 of RFC 4648). */
  predicate CanonicalQuad(q: string, last: bool)
    requires |q| == 4
  {
    && InAlphabet(q[0]) && InAlphabet(q[1])
    && if q[2] == '=' then last && q[3] == '=' && Index(q[1]) % 16 == 0
       else InAlphabet(q[2]) &&
            if q[3] == '=' then last && Index(q[2]) % 4 == 0 else InAlphabet(q[3])
  }

  predicate Canonical(t: string) {
    t == "" || (|t| >= 4 && CanonicalQuad(t[..4], |t| == 4) && Canonical(t[4..]))
  }

  lemma Sextets(s0: nat, s1: nat, s2: nat, s3: nat)
    requires s0 < 64 && s1 < 64 && s2 < 64 && s3 < 64
    ensures (s0 * 4 + s1 / 16) / 4 == s0
    ensures (s0 * 4 + s1 / 16) % 4 * 16 + (s1 % 16 * 16 + s2 / 4) / 16 == s1
    ensures (s0 * 4 + s1 / 16) % 4 * 16 == s1 / 16 * 16
    ensures (s1 % 16 * 16 + s2 / 4) % 16 * 4 + (s2 % 4 * 64 + s3) / 64 == s2
    ensures (s1 % 16 * 16 + s2 / 4) % 16 * 4 == s2 / 4 * 4
    ensures (s2 % 4 * 64 + s3) % 64 == s3
  {
  }

  lemma QuadCanonicity(q: string)
    requires |q| == 4 && ValidQuad(q)
    ensures 1 <= |DecodeFour(q).value| <= 3
    ensures EncodeGroup(DecodeFour(q).value) == q <==> CanonicalQuad(q, true)
    ensures |DecodeFour(q).value| == 3 <==> q[2] != '=' && q[3] != '='
  {
    var s0, s1 := Index(q[0]), Index(q[1]);
    var s2 := if q[2] == '=' then 0 else Index(q[2]);
    var s3 := if q[2] == '=' || q[3] == '=' then 0 else Index(q[3]);
    SymbolOfIndex(q[0]);
    SymbolOfIndex(q[1]);
    if q[2] != '=' {
      SymbolOfIndex(q[2]);
      if q[3] != '=' {
        SymbolOfIndex(q[3]);
      }
    }
    DecodeSymbols(q, s0, s1, s2, s3);
    Sextets(s0, s1, s2, s3);
    var d := DecodeFour(q).value;
    GroupSymbols(d, s0, if |d| == 1 then s1 / 16 * 16 else s1, if |d| == 2 then s2 / 4 * 4 else s2, s3);
    var e := EncodeGroup(d);
    assert e == q <==> e[1] == q[1] && e[2] == q[2] && e[3] == q[3];
  }

  /** The characters of a group whose octets carry the given sextets. */
  lemma GroupSymbols(d: bytes, s0: nat, s1: nat, s2: nat, s3: nat)
    requires 1 <= |d| <= 3 && s0 < 64 && s1 < 64 && s2 < 64 && s3 < 64
    requires OctetAt(d, 0) / 4 == s0
    requires OctetAt(d, 0) % 4 * 16 + OctetAt(d, 1) / 16 == s1
    requires |d| > 1 ==> OctetAt(d, 1) % 16 * 4 + OctetAt(d, 2) / 64 == s2
    requires |d| > 2 ==> OctetAt(d, 2) % 64 == s3
    ensures EncodeGroup(d) == [Symbol(s0), Symbol(s1), if |d| > 1 then Symbol(s2) else '=',
                               if |d| > 2 then Symbol(s3) else '=']
  {
  }

  /** Encoding what a text decodes to gives back the text exactly when the text
      is canonical; in particular it then has no white space. */
  lemma {:induction false} Canonicity(s: string)
    requires Decode(s).Some?
    ensures Encode(Decode(s).value) == s <==> Canonical(s)
  {
    GroupsCanonicity(Strip(s));
    if Canonical(s) {
      CanonicalIsPlain(s);
      StripPlain(s);
    } else if Encode(Decode(s).value) == s {
      EncodeIsPlain(Decode(s).value);
    }
  }

  lemma {:induction false} CanonicalIsPlain(t: string)
    requires Canonical(t)
    ensures forall i :: 0 <= i < |t| ==> !IsSpace(t[i])
  {
    if t != "" {
      CanonicalIsPlain(t[4..]);
      assert forall i :: 4 <= i < |t| ==> t[i] == t[4..][i - 4];
    }
  }

  lemma {:induction false} GroupsCanonicity(t: string)
    requires DecodeGroups(t).Some?
    ensures Encode(DecodeGroups(t).value) == t <==> Canonical(t)
    ensures DecodeGroups(t).value == [] <==> t == ""
  {
    if t != "" {
      var q, u := t[..4], t[4..];
      var x, y := DecodeFour(q).value, DecodeGroups(u).value;
      GroupsCanonicity(u);
      QuadCanonicity(q);
      assert t == q + u;
      if u == "" {
        assert x + y == x && t == q;
      } else if |x| == 3 {
        assert (x + y)[..3] == x && (x + y)[3..] == y;
        assert Encode(x + y)[..4] == EncodeGroup(x) && Encode(x + y)[4..] == Encode(y);
      } else {
        ShortFirstGroup(x, y);
      }
    }
  }

  /** Octets put together from a short group and more cannot encode to a text
      whose first group is padded. */
  lemma ShortFirstGroup(x: bytes, y: bytes)
    requires 1 <= |x| < 3 && y != []
    ensures |Encode(x + y)| >= 4 && Encode(x + y)[2] != '='
    ensures |x + y| > 2 ==> Encode(x + y)[3] != '='
    ensures |x + y| <= 2 ==> |Encode(x + y)| == 4
  {
    var d := x + y;
    if |d| > 3 {
      assert Encode(d)[..4] == EncodeGroup(d[..3]);
    }
  }
}
