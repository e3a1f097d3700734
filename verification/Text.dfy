/** Text as the library handles it: octets, white space, and the decimal
    conversions that `boost::lexical_cast` performs in both directions. */
module Text {
  datatype Option<+T> = None | Some(value: T)

  /** An element of a C++ `std::string`. */
  type octet = c: char | (c as int) < 256 witness 'a'
  type bytes = seq<octet>

  const INT32_MIN := -0x8000_0000
  const INT32_MAX := 0x7fff_ffff
  const INT64_MIN := -0x8000_0000_0000_0000
  const INT64_MAX := 0x7fff_ffff_ffff_ffff

  type int32 = i: int | INT32_MIN <= i <= INT32_MAX
  type int64 = i: int | INT64_MIN <= i <= INT64_MAX

  /** White space in the sense of XML 1.0, production [3] S. */
  predicate IsXmlSpace(c: char) {
    c == ' ' || c == '\t' || c == '\n' || c == '\r'
  }

  predicate AllXmlSpace(s: string) {
    forall i :: 0 <= i < |s| ==> IsXmlSpace(s[i])
  }

  /** Character data that a reader does not report as text although it is there. */
  predicate Blank(s: string) {
    s != "" && AllXmlSpace(s)
  }

  /** `isspace` in the "C" locale. */
  predicate IsSpace(c: char) {
    c == ' ' || '\t' <= c <= '\r'
  }

  predicate IsDigit(c: char) {
    '0' <= c <= '9'
  }

  function DigitValue(c: char): (d: nat)
    requires IsDigit(c)
    ensures d < 10
  {
    c as int - '0' as int
  }

  function DigitChar(d: nat): (c: char)
    requires d < 10
    ensures IsDigit(c) && DigitValue(c) == d
  {
    (d + '0' as int) as char
  }

  predicate AllDigits(s: string) {
    forall i :: 0 <= i < |s| ==> IsDigit(s[i])
  }

  /** The number a string of digits denotes. */
  function DigitsValue(s: string): nat
    requires AllDigits(s)
  {
    if s == "" then 0 else 10 * DigitsValue(s[..|s| - 1]) + DigitValue(s[|s| - 1])
  }

  /** Decimal text without sign or leading zeros. */
  function NatText(n: nat): (s: string)
    ensures s != "" && AllDigits(s) && DigitsValue(s) == n
  {
    if n < 10 then [DigitChar(n)]
    else
      var front := NatText(n / 10);
      var s := front + [DigitChar(n % 10)];
      assert s[..|s| - 1] == front;
      s
  }

  function IntText(i: int): string {
    if i < 0 then "-" + NatText(-i) else NatText(i)
  }

  /** `boost::lexical_cast` from text to a signed type: an optional sign, one or
      more digits and nothing else, with the value in range. */
  function ParseInt(s: string, low: int, high: int): (r: Option<int>)
    ensures r.Some? ==> low <= r.value <= high
  {
    var digits := if s != "" && (s[0] == '-' || s[0] == '+') then s[1..] else s;
    if digits == "" || !AllDigits(digits) then None
    else
      var n: int := DigitsValue(digits);
      var i := if s[0] == '-' then -n else n;
      if low <= i <= high then Some(i) else None
  }

  /** Printing an integer and reading it back with any range that holds it
      gives the integer; the text is never blank. */
  lemma IntTextParses(i: int, low: int, high: int)
    requires low <= i <= high
    ensures ParseInt(IntText(i), low, high) == Some(i)
    ensures IntText(i) != "" && !AllXmlSpace(IntText(i))
  {
    var s := IntText(i);
    if i < 0 {
      assert s[1..] == NatText(-i);
      assert !IsXmlSpace(s[0]);
    } else {
      assert IsDigit(s[0]);
      assert !IsXmlSpace(s[0]);
    }
  }

  lemma {:induction false} AtLeastOnce(k: int, d: int)
    requires k >= 1 && d > 0
    ensures k * d >= d && -k * d <= -d
  {
    if k > 1 {
      AtLeastOnce(k - 1, d);
      assert k * d == (k - 1) * d + d;
    }
  }

  /** Quotient and remainder, from the outside. */
  lemma Divide(x: int, d: int, q: int, r: int)
    requires 0 <= r < d && x == q * d + r
    ensures x / d == q && x % d == r
  {
    var k := x / d - q;
    assert k * d == x / d * d - q * d;
    if k >= 1 {
      AtLeastOnce(k, d);
    } else if k <= -1 {
      AtLeastOnce(-k, d);
    }
  }

  lemma Associates<T>(a: seq<T>, b: seq<T>, c: seq<T>)
    ensures (a + b) + c == a + (b + c)
  {
  }
}
