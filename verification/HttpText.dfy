/** The string algorithms that the HTTP layer takes from Boost: searching,
    splitting, trimming and lower-casing, in the "C" locale. */
module HttpText {
  import opened Text

  const CRLF := "\r\n"

  /** The pattern occurs in `s` at `i`. */
  predicate Occurs(s: string, p: string, i: nat) {
    i + |p| <= |s| && s[i..i + |p|] == p
  }

  function FindFrom(s: string, p: string, i: nat): (r: Option<nat>)
    ensures r.Some? ==> i <= r.value && Occurs(s, p, r.value) && forall j :: i <= j < r.value ==> !Occurs(s, p, j)
    ensures r == None ==> forall j :: i <= j ==> !Occurs(s, p, j)
    decreases |s| - i
  {
    if i + |p| > |s| then None
    else if Occurs(s, p, i) then Some(i)
    else FindFrom(s, p, i + 1)
  }

  /** `find_first`. */
  function FindFirst(s: string, p: string): (r: Option<nat>)
    ensures r.Some? ==> Occurs(s, p, r.value) && forall j: nat :: j < r.value ==> !Occurs(s, p, j)
    ensures r == None ==> forall j: nat :: !Occurs(s, p, j)
  {
    FindFrom(s, p, 0)
  }

  /** `split` at the white space of the C locale, or at the ends of lines, taking
      neighbouring separators for one. */
  predicate IsSeparator(c: char, lineEnds: bool) {
    if lineEnds then c == '\r' || c == '\n' else IsSpace(c)
  }

  function TokenEnd(s: string, lineEnds: bool): (n: nat)
    ensures n <= |s|
    ensures forall i :: 0 <= i < n ==> !IsSeparator(s[i], lineEnds)
    ensures n < |s| ==> IsSeparator(s[n], lineEnds)
  {
    if s == "" || IsSeparator(s[0], lineEnds) then 0 else 1 + TokenEnd(s[1..], lineEnds)
  }

  function SkipSeparators(s: string, lineEnds: bool): (t: string)
    ensures |t| <= |s|
  {
    if s != "" && IsSeparator(s[0], lineEnds) then SkipSeparators(s[1..], lineEnds) else s
  }

  function Split(s: string, lineEnds: bool): (r: seq<string>)
    ensures r != []
    decreases |s|
  {
    var n := TokenEnd(s, lineEnds);
    if n == |s| then [s] else [s[..n]] + Split(SkipSeparators(s[n + 1..], lineEnds), lineEnds)
  }

  /** `split` at each of the given characters. */
  function SplitAtBlanks(s: string): (r: seq<string>)
    ensures r != []
  {
    if s == "" then [""]
    else if s[0] == ' ' || s[0] == '\t' then [""] + SplitAtBlanks(s[1..])
    else
      var rest := SplitAtBlanks(s[1..]);
      [[s[0]] + rest[0]] + rest[1..]
  }

  function TrimLeft(s: string): string {
    if s != "" && IsSpace(s[0]) then TrimLeft(s[1..]) else s
  }

  function TrimRight(s: string): string {
    if s != "" && IsSpace(s[|s| - 1]) then TrimRight(s[..|s| - 1]) else s
  }

  function Trim(s: string): string {
    TrimRight(TrimLeft(s))
  }

  function LowerChar(c: char): char {
    if 'A' <= c <= 'Z' then (c as int + 32) as char else c
  }

  function Lower(s: string): (t: string)
    ensures |t| == |s| && forall i :: 0 <= i < |s| ==> t[i] == LowerChar(s[i])
  {
    seq(|s|, i requires 0 <= i < |s| => LowerChar(s[i]))
  }

  predicate IsTrimmed(s: string) {
    s == "" || (!IsSpace(s[0]) && !IsSpace(s[|s| - 1]))
  }

  predicate IsLower(s: string) {
    forall i :: 0 <= i < |s| ==> !('A' <= s[i] <= 'Z')
  }

  predicate HasNoLineEnds(s: string) {
    forall i :: 0 <= i < |s| ==> !IsSeparator(s[i], true)
  }

  predicate HasNoSpace(s: string) {
    forall i :: 0 <= i < |s| ==> !IsSpace(s[i])
  }

  lemma LowerKeeps(s: string)
    requires IsLower(s)
    ensures Lower(s) == s
  {
  }

  lemma TrimKeeps(s: string)
    requires IsTrimmed(s)
    ensures Trim(s) == s && Trim(" " + s) == s
  {
    assert (" " + s)[1..] == s;
    if s == "" {
      assert TrimLeft(" ") == TrimLeft("");
    }
  }

  // ----- Lines --------------------------------------------------------------

  /** The lines one after the other, without a line end after the last. */
  function Join(lines: seq<string>): string
    requires lines != []
  {
    if |lines| == 1 then lines[0] else lines[0] + CRLF + Join(lines[1..])
  }

  predicate IsLine(s: string) {
    s != "" && HasNoLineEnds(s)
  }

  predicate AreLines(lines: seq<string>) {
    lines != [] && forall i :: 0 <= i < |lines| ==> IsLine(lines[i])
  }

  lemma {:induction false} TokenEndsAt(s: string, rest: string, lineEnds: bool)
    requires forall i :: 0 <= i < |s| ==> !IsSeparator(s[i], lineEnds)
    requires rest != "" ==> IsSeparator(rest[0], lineEnds)
    ensures TokenEnd(s + rest, lineEnds) == |s|
  {
    if s == "" {
      assert s + rest == rest;
    } else {
      assert (s + rest)[1..] == s[1..] + rest;
      TokenEndsAt(s[1..], rest, lineEnds);
    }
  }

  lemma SplitToken(s: string, rest: string, lineEnds: bool)
    requires forall i :: 0 <= i < |s| ==> !IsSeparator(s[i], lineEnds)
    requires rest != "" && IsSeparator(rest[0], lineEnds)
    ensures Split(s + rest, lineEnds) == [s] + Split(SkipSeparators(rest[1..], lineEnds), lineEnds)
  {
    var t := s + rest;
    TokenEndsAt(s, rest, lineEnds);
    assert t[..|s|] == s && t[|s| + 1..] == rest[1..];
  }

  lemma SplitWhole(s: string, lineEnds: bool)
    requires forall i :: 0 <= i < |s| ==> !IsSeparator(s[i], lineEnds)
    ensures Split(s, lineEnds) == [s]
  {
    TokenEndsAt(s, "", lineEnds);
    assert s + "" == s;
  }

  lemma JoinStarts(lines: seq<string>)
    requires AreLines(lines)
    ensures Join(lines) != "" && Join(lines)[0] == lines[0][0]
    ensures !IsSeparator(Join(lines)[|Join(lines)| - 1], true)
  {
    if |lines| > 1 {
      JoinStarts(lines[1..]);
    }
  }

  lemma SkipLineEnd(rest: string)
    requires rest != "" && !IsSeparator(rest[0], true)
    ensures SkipSeparators((CRLF + rest)[1..], true) == rest
  {
    var t := (CRLF + rest)[1..];
    assert t[0] == '\n' && t[1..] == rest;
  }

  lemma SplitFirstLine(line: string, rest: string)
    requires HasNoLineEnds(line) && rest != "" && !IsSeparator(rest[0], true)
    ensures Split(line + CRLF + rest, true) == [line] + Split(rest, true)
  {
    Associates(line, CRLF, rest);
    SplitToken(line, CRLF + rest, true);
    SkipLineEnd(rest);
  }

  /** Splitting the joined lines gives them back. */
  lemma {:induction false} SplitJoin(lines: seq<string>)
    requires AreLines(lines)
    ensures Split(Join(lines), true) == lines
  {
    if |lines| == 1 {
      SplitWhole(lines[0], true);
    } else {
      JoinStarts(lines[1..]);
      SplitJoin(lines[1..]);
      SplitFirstLine(lines[0], Join(lines[1..]));
      assert [lines[0]] + lines[1..] == lines;
    }
  }

  /** An ordinary character follows every line feed. */
  ghost predicate NoEmptyLine(s: string) {
    && (s != "" ==> s[|s| - 1] != '\n')
    && forall i, k :: 0 <= i < k < |s| && k == i + 1 && s[i] == '\n' ==> !IsSeparator(s[k], true)
  }

  lemma {:induction false} JoinHasNoEmptyLine(lines: seq<string>)
    requires AreLines(lines)
    ensures NoEmptyLine(Join(lines))
    decreases |lines|
  {
    if |lines| > 1 {
      JoinStarts(lines[1..]);
      JoinHasNoEmptyLine(lines[1..]);
      LineBefore(lines[0], Join(lines[1..]));
    }
  }

  lemma LineBefore(line: string, rest: string)
    requires HasNoLineEnds(line) && rest != "" && !IsSeparator(rest[0], true) && NoEmptyLine(rest)
    ensures NoEmptyLine(line + CRLF + rest)
  {
    var s, n := line + CRLF + rest, |line|;
    assert s[n] == '\r' && s[n + 1] == '\n' && s[n + 2] == rest[0];
    assert forall i :: 0 <= i < n ==> s[i] == line[i];
    forall i, k | 0 <= i < k < |s| && k == i + 1 && s[i] == '\n' ensures !IsSeparator(s[k], true) {
      if i > n + 1 {
        assert s[i] == rest[i - n - 2] && s[k] == rest[k - n - 2];
      }
    }
  }
}
