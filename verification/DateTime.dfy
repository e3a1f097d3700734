/** `Date_time`: calendar time as `YYYYMMDDThh:mm:ss`. */
module DateTime {
  import opened Text

  /** The six fields of `struct tm` that take part, counted as there: years from
      1900, months from zero. */
  datatype Tm = Tm(year: int, mon: int, mday: int, hour: int, min: int, sec: int)

  /** What the constructor from text lets through, up to the last year that
      `%Y` prints in four digits. */
  predicate Valid(t: Tm) {
    && 0 <= t.year <= 8099 && 0 <= t.mon <= 11 && 1 <= t.mday <= 31
    && 0 <= t.hour <= 23 && 0 <= t.min <= 59 && 0 <= t.sec <= 61
  }

  function Two(n: nat): (s: string)
    requires n < 100
    ensures |s| == 2
  {
    [DigitChar(n / 10), DigitChar(n % 10)]
  }

  /** `strftime` with `%Y%m%dT%H:%M:%S`. */
  function Print(t: Tm): (s: string)
    requires Valid(t)
    ensures |s| == 17
  {
    var y := t.year + 1900;
    Two(y / 100) + Two(y % 100) + Two(t.mon + 1) + Two(t.mday) + "T" +
    Two(t.hour) + ":" + Two(t.min) + ":" + Two(t.sec)
  }

  /** `atoi` on text that starts with a digit, 'T' or ':'. */
  function Atoi(s: string): int {
    if s == "" || !IsDigit(s[0]) then 0 else AtoiFrom(0, s)
  }

  function AtoiFrom(n: nat, s: string): nat
    decreases |s|
  {
    if s == "" || !IsDigit(s[0]) then n else AtoiFrom(10 * n + DigitValue(s[0]), s[1..])
  }

  predicate InAlphabet(c: char) {
    IsDigit(c) || c == 'T' || c == ':'
  }

  /** The constructor from text; None where Malformed_iso8601 is thrown. Only the
      first sixteen characters are held against the alphabet, and only the
      ninth has a fixed place. */
  function Parse(s: string): Option<Tm> {
    if |s| != 17 || s[8] != 'T' || exists i :: 0 <= i < 16 && !InAlphabet(s[i]) then None
    else
      var t := Tm(Atoi(s[0..4]) - 1900, Atoi(s[4..6]) - 1, Atoi(s[6..8]),
                  Atoi(s[9..11]), Atoi(s[12..14]), Atoi(s[15..17]));
      if t.year < 0 || !(0 <= t.mon <= 11) || !(1 <= t.mday <= 31)
         || !(0 <= t.hour <= 23) || !(0 <= t.min <= 59) || !(0 <= t.sec <= 61)
      then None else Some(t)
  }

  lemma AtoiTwo(s: string, n: nat)
    requires n < 100 && s == Two(n)
    ensures Atoi(s) == n
  {
    assert s[1..] == [s[1]];
    assert s[1..][1..] == "";
    assert AtoiFrom(DigitValue(s[0]), s[1..]) == AtoiFrom(10 * DigitValue(s[0]) + DigitValue(s[1]), "");
    assert AtoiFrom(0, s) == AtoiFrom(DigitValue(s[0]), s[1..]);
  }

  lemma AtoiFour(s: string, a: nat, b: nat)
    requires a < 100 && b < 100 && s == Two(a) + Two(b)
    ensures Atoi(s) == 100 * a + b
  {
    var d0, d1, d2, d3 := DigitValue(s[0]), DigitValue(s[1]), DigitValue(s[2]), DigitValue(s[3]);
    assert s[1..][1..] == s[2..] && s[2..][1..] == s[3..] && s[3..][1..] == "";
    assert AtoiFrom(0, s) == AtoiFrom(d0, s[1..]);
    assert AtoiFrom(d0, s[1..]) == AtoiFrom(10 * d0 + d1, s[2..]);
    assert AtoiFrom(10 * d0 + d1, s[2..]) == AtoiFrom(10 * (10 * d0 + d1) + d2, s[3..]);
    assert AtoiFrom(10 * (10 * d0 + d1) + d2, s[3..]) == AtoiFrom(10 * (10 * (10 * d0 + d1) + d2) + d3, "");
  }

  /** Every valid time survives printing and parsing in all six fields. */
  lemma RoundTrip(t: Tm)
    requires Valid(t)
    ensures Parse(Print(t)) == Some(t)
  {
    PrintParts(t);
    PartsParse(Print(t), t);
  }

  /** The fields stand where they are expected. */
  ghost predicate HasParts(s: string, t: Tm)
    requires Valid(t)
  {
    var y := t.year + 1900;
    && |s| == 17 && s[8] == 'T' && (forall i :: 0 <= i < 16 ==> InAlphabet(s[i]))
    && s[0..4] == Two(y / 100) + Two(y % 100) && s[4..6] == Two(t.mon + 1) && s[6..8] == Two(t.mday)
    && s[9..11] == Two(t.hour) && s[12..14] == Two(t.min) && s[15..17] == Two(t.sec)
  }

  predicate IsTwo(s: string) {
    |s| == 2 && IsDigit(s[0]) && IsDigit(s[1])
  }

  /** Where the parts of such a text stand. */
  lemma PartsOf(a: string, b: string, c: string, d: string, e: string, f: string, g: string, s: string)
    requires IsTwo(a) && IsTwo(b) && IsTwo(c) && IsTwo(d) && IsTwo(e) && IsTwo(f) && IsTwo(g)
    requires s == a + b + c + d + "T" + e + ":" + f + ":" + g
    ensures |s| == 17 && s[8] == 'T'
    ensures s[0..4] == a + b && s[4..6] == c && s[6..8] == d && s[9..11] == e && s[12..14] == f && s[15..17] == g
    ensures s[11] == ':' && s[14] == ':'
  {
  }

  lemma AllInAlphabet(s: string)
    requires |s| == 17 && s[8] == 'T' && s[11] == ':' && s[14] == ':'
    requires IsTwo(s[0..4][..2]) && IsTwo(s[0..4][2..]) && IsTwo(s[4..6]) && IsTwo(s[6..8])
    requires IsTwo(s[9..11]) && IsTwo(s[12..14]) && IsTwo(s[15..17])
    ensures forall i :: 0 <= i < 16 ==> InAlphabet(s[i])
  {
    var date, hour, min, sec := s[0..4], s[9..11], s[12..14], s[15..17];
    assert date[..2][0] == s[0] && date[..2][1] == s[1] && date[2..][0] == s[2] && date[2..][1] == s[3];
    assert s[4..6][0] == s[4] && s[4..6][1] == s[5] && s[6..8][0] == s[6] && s[6..8][1] == s[7];
    assert hour[0] == s[9] && hour[1] == s[10] && min[0] == s[12] && min[1] == s[13] && sec[0] == s[15];
  }

  lemma PrintParts(t: Tm)
    requires Valid(t)
    ensures HasParts(Print(t), t)
  {
    var y, s := t.year + 1900, Print(t);
    PartsOf(Two(y / 100), Two(y % 100), Two(t.mon + 1), Two(t.mday), Two(t.hour), Two(t.min), Two(t.sec), s);
    assert s[0..4][..2] == Two(y / 100) && s[0..4][2..] == Two(y % 100);
    AllInAlphabet(s);
  }

  lemma PartsParse(s: string, t: Tm)
    requires Valid(t) && HasParts(s, t)
    ensures Parse(s) == Some(t)
  {
    var y := t.year + 1900;
    AtoiFour(s[0..4], y / 100, y % 100);
    AtoiTwo(s[4..6], t.mon + 1);
    AtoiTwo(s[6..8], t.mday);
    AtoiTwo(s[9..11], t.hour);
    AtoiTwo(s[12..14], t.min);
    AtoiTwo(s[15..17], t.sec);
  }

  lemma PrintNotBlank(t: Tm)
    requires Valid(t)
    ensures !AllXmlSpace(Print(t))
  {
    assert !IsXmlSpace(Print(t)[8]);
  }

  lemma AtoiBelow(s: string)
    ensures |s| == 4 ==> 0 <= Atoi(s) < 10000
  {
    if |s| == 4 {
      AtoiFromBelow(0, s, 1);
    }
  }

  lemma {:induction false} AtoiFromBelow(n: nat, s: string, bound: nat)
    requires |s| <= 4 && n < bound && bound >= 1
    ensures AtoiFrom(n, s) < bound *
      (if |s| == 0 then 1 else if |s| == 1 then 10 else if |s| == 2 then 100 else if |s| == 3 then 1000 else 10000)
    decreases |s|
  {
    if s != "" && IsDigit(s[0]) {
      AtoiFromBelow(10 * n + DigitValue(s[0]), s[1..], 10 * bound);
    }
  }

  /** Whatever text was accepted, printing the time and parsing it again gives
      the same time. */
  lemma Normalises(s: string)
    requires Parse(s).Some?
    ensures Valid(Parse(s).value) && Parse(Print(Parse(s).value)) == Parse(s)
  {
    AtoiBelow(s[0..4]);
    RoundTrip(Parse(s).value);
  }
}
