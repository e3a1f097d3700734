/** What the notations of numbers, times and binary data mean, character by character. */
module Notation {
  import opened Text
  import DateTime
  import Base64

  function Pow(b: nat, n: nat): nat {
    if n == 0 then 1 else b * Pow(b, n - 1)
  }

  // ----- Characters -----------------------------------------------------------------

  /** White space of XML 1.0, production [3], white space of the C locale, and digits. */
  lemma Codes(c: char)
    ensures IsXmlSpace(c) <==> c as int in {0x20, 0x9, 0xD, 0xA}
    ensures IsSpace(c) <==> c as int == 32 || 9 <= c as int <= 13
    ensures IsDigit(c) <==> 48 <= c as int <= 57
  {
  }

  // ----- Decimal numbers ---------------------------------------------------------------

  lemma OneDigit(c: char)
    requires IsDigit(c)
    ensures DigitsValue([c]) == c as int - 48
  {
    assert [c][..0] == "";
  }

  /** The places of a decimal number count ten times the place to the right of them. */
  lemma {:induction false} Places(a: string, b: string)
    requires AllDigits(a) && AllDigits(b)
    ensures AllDigits(a + b) && DigitsValue(a + b) == DigitsValue(a) * Pow(10, |b|) + DigitsValue(b)
    decreases |b|
  {
    if b == "" {
      assert a + b == a;
    } else {
      var front := b[..|b| - 1];
      assert (a + b)[..|a + b| - 1] == a + front;
      Places(a, front);
      TenTimes(DigitsValue(a), Pow(10, |front|), DigitsValue(front));
    }
  }

  lemma TenTimes(x: nat, p: nat, y: nat)
    ensures 10 * (x * p + y) == x * (10 * p) + 10 * y
  {
  }

  lemma {:induction false} NoLeadingZero(n: nat)
    ensures NatText(n)[0] == '0' <==> n == 0
  {
    if n >= 10 {
      NoLeadingZero(n / 10);
      assert NatText(n)[0] == NatText(n / 10)[0];
    }
  }

  /** An integer is printed as its digits, after a minus sign if it is negative. */
  lemma IntegerText(i: int)
    ensures i >= 0 ==> AllDigits(IntText(i)) && DigitsValue(IntText(i)) == i
    ensures i < 0 ==> IntText(i)[0] == '-' && AllDigits(IntText(i)[1..]) && DigitsValue(IntText(i)[1..]) == -i
  {
    assert i < 0 ==> IntText(i)[1..] == NatText(-i);
  }

  /** Digits, or a sign and digits, are a number if it is in the range; */
  lemma NumberText(digits: string, low: int, high: int)
    requires digits != "" && AllDigits(digits)
    ensures var n: int := DigitsValue(digits);
      && ParseInt(digits, low, high) == (if low <= n <= high then Some(n) else None)
      && ParseInt("+" + digits, low, high) == (if low <= n <= high then Some(n) else None)
      && ParseInt("-" + digits, low, high) == (if low <= -n <= high then Some(-n) else None)
  {
    assert ("+" + digits)[1..] == digits && ("-" + digits)[1..] == digits;
    assert IsDigit(digits[0]);
  }

  /** and nothing else is one. */
  lemma NoNumberText(s: string, low: int, high: int)
    requires forall digits :: digits != "" && AllDigits(digits) ==> s != digits && s != "+" + digits && s != "-" + digits
    ensures ParseInt(s, low, high) == None
  {
    if s != "" && (s[0] == '+' || s[0] == '-') {
      assert s == [s[0]] + s[1..];
    }
  }

  // ----- Base64 -------------------------------------------------------------------------

  const UPPER := "ABCDEFGHIJKLMNOPQRSTUVWXYZ"
  const LOWER := "abcdefghijklmnopqrstuvwxyz"
  const DIGITS := "0123456789"
  const ALPHABET := UPPER + LOWER + DIGITS + "+/"

  lemma UpperCode(i: nat)
    requires i < 26
    ensures |UPPER| == 26 && UPPER[i] as int == 65 + i
  {
  }

  lemma LowerCode(i: nat)
    requires i < 26
    ensures |LOWER| == 26 && LOWER[i] as int == 97 + i
  {
  }

  lemma DigitCode(i: nat)
    requires i < 10
    ensures |DIGITS| == 10 && DIGITS[i] as int == 48 + i
  {
  }

  /** Table 1 of RFC 4648. */
  lemma Alphabet(i: nat)
    requires i < 64
    ensures |ALPHABET| == 64 && Base64.Symbol(i) == ALPHABET[i]
    ensures Base64.InAlphabet(ALPHABET[i]) && Base64.Index(ALPHABET[i]) == i
  {
    UpperCode(if i < 26 then i else 0);
    LowerCode(if 26 <= i < 52 then i - 26 else 0);
    DigitCode(if 52 <= i < 62 then i - 52 else 0);
    Joined(UPPER, LOWER, DIGITS, i);
  }

  lemma Joined(a: string, b: string, c: string, i: nat)
    requires |a| == 26 && |b| == 26 && |c| == 10 && i < 64
    ensures var s := a + b + c + "+/";
      |s| == 64 && s[i] == if i < 26 then a[i] else if i < 52 then b[i - 26] else if i < 62 then c[i - 52]
                           else if i == 62 then '+' else '/'
  {
  }

  lemma OnlyTheAlphabet(c: char)
    ensures Base64.InAlphabet(c) <==> c in ALPHABET
  {
    if Base64.InAlphabet(c) {
      Alphabet(Base64.Index(c));
      Base64.SymbolOfIndex(c);
    }
    if c in ALPHABET {
      var i :| 0 <= i < |ALPHABET| && ALPHABET[i] == c;
      assert |ALPHABET| == 64;
      Alphabet(i);
    }
  }

  /** Three octets are one number of 24 bits, and the four characters of their group its
      sextets, the first octet and the first character being the highest. Octets that are
      not there count as zero, and characters that hold no octet are padding. */
  lemma Group(d: bytes, s0: nat, s1: nat, s2: nat, s3: nat)
    requires 1 <= |d| <= 3 && s0 < 64 && s1 < 64 && s2 < 64 && s3 < 64
    requires At(d, 0) * 65536 + At(d, 1) * 256 + At(d, 2) == s0 * 262144 + s1 * 4096 + s2 * 64 + s3
    ensures |ALPHABET| == 64
    ensures Base64.Encode(d) == [ALPHABET[s0], ALPHABET[s1], if |d| == 1 then '=' else ALPHABET[s2],
                                 if |d| <= 2 then '=' else ALPHABET[s3]]
  {
    Sextets(At(d, 0), At(d, 1), At(d, 2), s0, s1, s2, s3);
    GroupSymbols(d, s0, s1, s2, s3);
  }

  function At(d: bytes, i: nat): (n: nat)
    ensures n < 256
  {
    if i < |d| then d[i] as int else 0
  }

  lemma GroupSymbols(d: bytes, s0: nat, s1: nat, s2: nat, s3: nat)
    requires 1 <= |d| <= 3 && s0 < 64 && s1 < 64 && s2 < 64 && s3 < 64
    requires s0 == At(d, 0) / 4 && s1 == At(d, 0) % 4 * 16 + At(d, 1) / 16
    requires s2 == At(d, 1) % 16 * 4 + At(d, 2) / 64 && s3 == At(d, 2) % 64
    ensures |ALPHABET| == 64
    ensures Base64.Encode(d) == [ALPHABET[s0], ALPHABET[s1], if |d| == 1 then '=' else ALPHABET[s2],
                                 if |d| <= 2 then '=' else ALPHABET[s3]]
  {
    assert Base64.Encode(d) == Base64.EncodeGroup(d) by {
      Base64.LastGroup(d);
    }
    assert Base64.EncodeGroup(d) == [Base64.Symbol(s0), Base64.Symbol(s1), if |d| > 1 then Base64.Symbol(s2) else '=',
                                     if |d| > 2 then Base64.Symbol(s3) else '='] by {
      assert At(d, 0) == Base64.OctetAt(d, 0) && At(d, 1) == Base64.OctetAt(d, 1) && At(d, 2) == Base64.OctetAt(d, 2);
      Base64.GroupSymbols(d, s0, s1, s2, s3);
    }
    assert |ALPHABET| == 64 && Base64.Symbol(s0) == ALPHABET[s0] && Base64.Symbol(s1) == ALPHABET[s1] by {
      Alphabet(s0);
      Alphabet(s1);
    }
    assert Base64.Symbol(s2) == ALPHABET[s2] && Base64.Symbol(s3) == ALPHABET[s3] by {
      Alphabet(s2);
      Alphabet(s3);
    }
  }

  lemma Sextets(a: nat, b: nat, c: nat, s0: nat, s1: nat, s2: nat, s3: nat)
    requires a < 256 && b < 256 && c < 256 && s0 < 64 && s1 < 64 && s2 < 64 && s3 < 64
    requires a * 65536 + b * 256 + c == s0 * 262144 + s1 * 4096 + s2 * 64 + s3
    ensures s0 == a / 4 && s1 == a % 4 * 16 + b / 16 && s2 == b % 16 * 4 + c / 64 && s3 == c % 64
  {
    var n := a * 65536 + b * 256 + c;
    Divide(n, 262144, s0, s1 * 4096 + s2 * 64 + s3);
    Divide(n, 262144, a / 4, a % 4 * 65536 + b * 256 + c);
    Divide(n, 4096, s0 * 64 + s1, s2 * 64 + s3);
    Divide(n, 4096, a * 16 + b / 16, b % 16 * 256 + c);
    Divide(n, 64, s0 * 4096 + s1 * 64 + s2, s3);
    Divide(n, 64, a * 1024 + b * 4 + c / 64, c % 64);
  }

  /** The same number read the other way: what padding cuts off of it is dropped, and
      whatever follows the first padding is not looked at. */
  lemma Quad(a: octet, b: octet, c: octet, s0: nat, s1: nat, s2: nat, s3: nat, x: char)
    requires s0 < 64 && s1 < 64 && s2 < 64 && s3 < 64
    requires a as int * 65536 + b as int * 256 + c as int == s0 * 262144 + s1 * 4096 + s2 * 64 + s3
    ensures |ALPHABET| == 64
    ensures Base64.DecodeFour([ALPHABET[s0], ALPHABET[s1], ALPHABET[s2], ALPHABET[s3]]) == Some([a, b, c])
    ensures Base64.DecodeFour([ALPHABET[s0], ALPHABET[s1], ALPHABET[s2], '=']) == Some([a, b])
    ensures Base64.DecodeFour([ALPHABET[s0], ALPHABET[s1], '=', x]) == Some([a])
  {
    assert a as int == s0 * 4 + s1 / 16 && b as int == s1 % 16 * 16 + s2 / 4 && c as int == s2 % 4 * 64 + s3 by {
      Octets(a as int, b as int, c as int, s0, s1, s2, s3);
    }
    Alphabet(s0);
    Alphabet(s1);
    Alphabet(s2);
    Alphabet(s3);
    QuadOf(ALPHABET[s0], ALPHABET[s1], ALPHABET[s2], ALPHABET[s3], a, b, c, x);
  }

  lemma QuadOf(q0: char, q1: char, q2: char, q3: char, a: octet, b: octet, c: octet, x: char)
    requires Base64.InAlphabet(q0) && Base64.InAlphabet(q1) && Base64.InAlphabet(q2) && Base64.InAlphabet(q3)
    requires a as int == Base64.Index(q0) * 4 + Base64.Index(q1) / 16
    requires b as int == Base64.Index(q1) % 16 * 16 + Base64.Index(q2) / 4
    requires c as int == Base64.Index(q2) % 4 * 64 + Base64.Index(q3)
    ensures Base64.DecodeFour([q0, q1, q2, q3]) == Some([a, b, c])
    ensures Base64.DecodeFour([q0, q1, q2, '=']) == Some([a, b])
    ensures Base64.DecodeFour([q0, q1, '=', x]) == Some([a])
  {
  }

  lemma Octets(a: nat, b: nat, c: nat, s0: nat, s1: nat, s2: nat, s3: nat)
    requires a < 256 && b < 256 && c < 256 && s0 < 64 && s1 < 64 && s2 < 64 && s3 < 64
    requires a * 65536 + b * 256 + c == s0 * 262144 + s1 * 4096 + s2 * 64 + s3
    ensures a == s0 * 4 + s1 / 16 && b == s1 % 16 * 16 + s2 / 4 && c == s2 % 4 * 64 + s3
  {
    var n := a * 65536 + b * 256 + c;
    Divide(n, 65536, a, b * 256 + c);
    Divide(n, 65536, s0 * 4 + s1 / 16, s1 % 16 * 4096 + s2 * 64 + s3);
    Divide(n, 256, a * 256 + b, c);
    Divide(n, 256, s0 * 1024 + s1 * 16 + s2 / 4, s2 % 4 * 64 + s3);
  }

  /** Groups of three octets are encoded one by one. */
  lemma FirstOfMany(d: bytes)
    requires |d| > 3
    ensures Base64.Encode(d) == Base64.Encode(d[..3]) + Base64.Encode(d[3..])
  {
  }

  // ----- Times ----------------------------------------------------------------------------

  /** The text of a time, place by place: `YYYYMMDDThh:mm:ss`. */
  lemma PrintedTime(t: DateTime.Tm)
    requires DateTime.Valid(t)
    ensures var s := DateTime.Print(t);
      && |s| == 17 && s[8] == 'T' && s[11] == ':' && s[14] == ':'
      && IsField(s, 0, 4, t.year + 1900) && IsField(s, 4, 6, t.mon + 1) && IsField(s, 6, 8, t.mday)
      && IsField(s, 9, 11, t.hour) && IsField(s, 12, 14, t.min) && IsField(s, 15, 17, t.sec)
  {
    var y := t.year + 1900;
    PrintedParts(DateTime.Two(y / 100), DateTime.Two(y % 100), DateTime.Two(t.mon + 1), DateTime.Two(t.mday),
                 DateTime.Two(t.hour), DateTime.Two(t.min), DateTime.Two(t.sec), DateTime.Print(t));
    TwoDigits(y / 100);
    TwoDigits(y % 100);
    FourDigits(DateTime.Two(y / 100), DateTime.Two(y % 100));
    TwoDigits(t.mon + 1);
    TwoDigits(t.mday);
    TwoDigits(t.hour);
    TwoDigits(t.min);
    TwoDigits(t.sec);
  }

  lemma FourDigits(a: string, b: string)
    requires AllDigits(a) && AllDigits(b) && |b| == 2
    ensures AllDigits(a + b) && DigitsValue(a + b) == 100 * DigitsValue(a) + DigitsValue(b)
  {
    assert Pow(10, 2) == 100 by { assert Pow(10, 2) == 10 * Pow(10, 1); }
    PlacesAt(a, b, 100);
  }

  lemma PlacesAt(a: string, b: string, p: nat)
    requires AllDigits(a) && AllDigits(b) && Pow(10, |b|) == p
    ensures AllDigits(a + b) && DigitsValue(a + b) == DigitsValue(a) * p + DigitsValue(b)
  {
    Places(a, b);
  }

  lemma PrintedParts(a: string, b: string, c: string, d: string, e: string, f: string, g: string, s: string)
    requires |a| == 2 && |b| == 2 && |c| == 2 && |d| == 2 && |e| == 2 && |f| == 2 && |g| == 2
    requires s == a + b + c + d + "T" + e + ":" + f + ":" + g
    ensures |s| == 17 && s[8] == 'T' && s[11] == ':' && s[14] == ':'
    ensures s[0..4] == a + b && s[4..6] == c && s[6..8] == d && s[9..11] == e && s[12..14] == f && s[15..17] == g
  {
  }

  /** Digits that denote the number. */
  predicate IsField(s: string, i: nat, j: nat, n: int) {
    i <= j <= |s| && AllDigits(s[i..j]) && DigitsValue(s[i..j]) == n
  }

  lemma TwoDigits(n: nat)
    requires n < 100
    ensures AllDigits(DateTime.Two(n)) && DigitsValue(DateTime.Two(n)) == n
  {
    var s := DateTime.Two(n);
    assert s[..1] == [s[0]];
    OneDigit(s[0]);
  }

  /** The digits that a text begins with. */
  function Leading(s: string): (d: string)
    ensures AllDigits(d)
  {
    if s == "" || !IsDigit(s[0]) then "" else [s[0]] + Leading(s[1..])
  }

  lemma {:induction false} AtoiIsLeading(n: nat, s: string)
    ensures DateTime.AtoiFrom(n, s) == n * Pow(10, |Leading(s)|) + DigitsValue(Leading(s))
    decreases |s|
  {
    if s != "" && IsDigit(s[0]) {
      var d := Leading(s[1..]);
      AtoiIsLeading(10 * n + DigitValue(s[0]), s[1..]);
      Places([s[0]], d);
      OneDigit(s[0]);
      Regroup(n, DigitValue(s[0]), Pow(10, |d|), DigitsValue(d));
    }
  }

  lemma Regroup(n: nat, d: nat, p: nat, y: nat)
    ensures (10 * n + d) * p + y == n * (10 * p) + (d * p + y)
  {
  }

  /** The number that a part of the text stands for: that of its leading digits. */
  function Field(s: string, i: nat, j: nat): nat
    requires i <= j <= |s|
  {
    DigitsValue(Leading(s[i..j]))
  }

  lemma AtoiOfField(s: string, i: nat, j: nat)
    requires i <= j <= |s|
    ensures DateTime.Atoi(s[i..j]) == Field(s, i, j)
  {
    AtoiIsLeading(0, s[i..j]);
  }

  predicate InRange(n: int, low: int, high: int) {
    low <= n <= high
  }

  /** Exactly which texts are taken for times, and for which: seventeen characters with a
      T in the ninth place, the first sixteen of them digits, T or colons, and numbers
      in range. */
  lemma TimesAccepted(s: string)
    requires |s| == 17
    ensures var t := DateTime.Tm(Field(s, 0, 4) - 1900, Field(s, 4, 6) - 1, Field(s, 6, 8),
                                 Field(s, 9, 11), Field(s, 12, 14), Field(s, 15, 17));
      DateTime.Parse(s) ==
      if s[8] == 'T' && (forall i :: 0 <= i < 16 ==> 48 <= s[i] as int <= 57 || s[i] == 'T' || s[i] == ':')
         && Field(s, 0, 4) >= 1900 && InRange(Field(s, 4, 6), 1, 12) && InRange(Field(s, 6, 8), 1, 31)
         && InRange(Field(s, 9, 11), 0, 23) && InRange(Field(s, 12, 14), 0, 59) && InRange(Field(s, 15, 17), 0, 61)
      then Some(t) else None
  {
    AtoiOfField(s, 0, 4);
    AtoiOfField(s, 4, 6);
    AtoiOfField(s, 6, 8);
    AtoiOfField(s, 9, 11);
    AtoiOfField(s, 12, 14);
    AtoiOfField(s, 15, 17);
  }

  lemma OtherLengths(s: string)
    requires |s| != 17
    ensures DateTime.Parse(s) == None
  {
  }
}
