/**
  The Python string built-ins the calendar code relies on, as functions on
  `seq<char>`: `str(int)`, `str.strip`, `str.startswith`, `str.split(sep)`,
  `str.splitlines`, `sep.join(lines)` and string comparison.
 */
module Text {

  const CRLF: string := "\r\n"

  // ---------------------------------------------------------------------
  // str(int)
  // ---------------------------------------------------------------------

  predicate IsDigit(c: char) { '0' <= c <= '9' }

  function DigitChar(d: nat): (c: char)
    requires d < 10
    ensures IsDigit(c) && (c == '0' <==> d == 0)
  {
    (48 + d) as char
  }

  /** Decimal rendering of a natural number, without leading zeros. */
  function NatToString(n: nat): (r: string)
    ensures |r| >= 1
    ensures n >= 10 ==> |r| >= 2
    ensures forall i :: 0 <= i < |r| ==> IsDigit(r[i])
    ensures r[0] == '0' <==> n == 0
    decreases n
  {
    if n < 10 then [DigitChar(n)] else NatToString(n / 10) + [DigitChar(n % 10)]
  }

  /** Python's `str(n)` for an int: a minus sign, then the digits. */
  function IntToString(n: int): (r: string)
    ensures |r| >= 1
    ensures forall i :: 0 <= i < |r| ==> IsDigit(r[i]) || (i == 0 && r[i] == '-')
    ensures IsDigit(r[|r| - 1])
    ensures r[0] == '0' <==> n == 0
    ensures r[0] == '-' <==> n < 0
  {
    if n < 0 then "-" + NatToString(-n) else NatToString(n)
  }

  lemma {:induction false} NatToStringInjective(a: nat, b: nat)
    requires NatToString(a) == NatToString(b)
    ensures a == b
    decreases a
  {
    if a < 10 && b < 10 {
      assert NatToString(a)[0] == DigitChar(a);
    } else if a >= 10 && b >= 10 {
      var ra, rb := NatToString(a), NatToString(b);
      assert ra[..|ra| - 1] == NatToString(a / 10);
      assert rb[..|rb| - 1] == NatToString(b / 10);
      assert DigitChar(a % 10) == ra[|ra| - 1] == rb[|rb| - 1] == DigitChar(b % 10);
      NatToStringInjective(a / 10, b / 10);
    }
  }

  /** Distinct integers are rendered as distinct strings. */
  lemma IntToStringInjective(a: int, b: int)
    requires IntToString(a) == IntToString(b)
    ensures a == b
  {
    var r := IntToString(a);
    if a < 0 {
      assert b < 0;
      assert NatToString(-a) == r[1..] == NatToString(-b);
      NatToStringInjective(-a, -b);
    } else {
      assert b >= 0;
      NatToStringInjective(a, b);
    }
  }

  // ---------------------------------------------------------------------
  // Whitespace, line breaks and str.strip
  // ---------------------------------------------------------------------

  /** The characters for which Python's `str.isspace` holds. */
  predicate IsSpace(c: char) {
    c == ' ' || ('\t' <= c <= '\r') || ('\U{1C}' <= c <= '\U{1F}') || c == '\U{85}' || c == '\U{A0}'
    || c == '\U{1680}' || ('\U{2000}' <= c <= '\U{200A}') || c == '\U{2028}' || c == '\U{2029}'
    || c == '\U{202F}' || c == '\U{205F}' || c == '\U{3000}'
  }

  /** The line boundaries recognised by Python's `str.splitlines`. */
  predicate IsLineBreak(c: char) {
    ('\n' <= c <= '\r') || ('\U{1C}' <= c <= '\U{1E}') || c == '\U{85}' || c == '\U{2028}' || c == '\U{2029}'
  }

  /** How many whitespace characters `s` starts with. */
  function LeadingSpaces(s: string): (n: nat)
    ensures n <= |s|
    ensures forall k :: 0 <= k < n ==> IsSpace(s[k])
    ensures n < |s| ==> !IsSpace(s[n])
  {
    if s != [] && IsSpace(s[0]) then 1 + LeadingSpaces(s[1..]) else 0
  }

  /** The length of `s` without its trailing whitespace. */
  function TrimmedEnd(s: string): (n: nat)
    ensures n <= |s|
    ensures forall k :: n <= k < |s| ==> IsSpace(s[k])
    ensures n > 0 ==> !IsSpace(s[n - 1])
  {
    if s != [] && IsSpace(s[|s| - 1]) then TrimmedEnd(s[..|s| - 1]) else |s|
  }

  /** Python's `str.strip()`: drops leading and trailing whitespace. */
  function Strip(s: string): (r: string)
    ensures r == [] || (!IsSpace(r[0]) && !IsSpace(r[|r| - 1]))
  {
    var t := s[LeadingSpaces(s)..];
    t[..TrimmedEnd(t)]
  }

  /** A string that neither starts nor ends with whitespace is left alone by strip. */
  lemma StripKeepsTrimmed(s: string)
    requires s == [] || (!IsSpace(s[0]) && !IsSpace(s[|s| - 1]))
    ensures Strip(s) == s
  {
    assert LeadingSpaces(s) == 0;
    assert s[0..] == s;
  }

  /** Stripping twice is stripping once. */
  lemma StripIdempotent(s: string)
    ensures Strip(Strip(s)) == Strip(s)
  {
    StripKeepsTrimmed(Strip(s));
  }

  // ---------------------------------------------------------------------
  // Prefixes and occurrences
  // ---------------------------------------------------------------------

  /** Python's `s.startswith(p)`. */
  predicate StartsWith(s: string, p: string) {
    |p| <= |s| && s[..|p|] == p
  }

  /** Python's `t in s` for strings. */
  predicate Contains(s: string, t: string) {
    exists p :: 0 <= p <= |s| && StartsWith(s[p..], t)
  }

  /** No occurrence of `t` starts in `s` before position `k`. */
  predicate NoOccurrenceBefore(s: string, t: string, k: int) {
    forall p :: 0 <= p < k && p <= |s| ==> !StartsWith(s[p..], t)
  }

  /** A string that lacks some character of `t` does not contain `t`. */
  lemma MissingCharNotContained(s: string, t: string, c: char)
    requires c in t && c !in s
    ensures !Contains(s, t)
  {
    var k :| 0 <= k < |t| && t[k] == c;
    forall p | 0 <= p <= |s|
      ensures !StartsWith(s[p..], t)
    {
      if p + k < |s| {
        assert s[p..][k] == s[p + k];
      }
    }
  }

  /** An occurrence of `t` starts with `t[0]`, so none starts where that character is absent. */
  lemma NoOccurrenceWithoutFirstChar(a: string, rest: string, t: string)
    requires |t| > 0 && t[0] !in a
    ensures NoOccurrenceBefore(a + rest, t, |a|)
  {
    forall p | 0 <= p < |a| && p <= |a + rest|
      ensures !StartsWith((a + rest)[p..], t)
    {
      assert (a + rest)[p] == a[p];
    }
  }

  // ---------------------------------------------------------------------
  // str.split(sep)
  // ---------------------------------------------------------------------

  /**
    Python's `s.split(sep)` for a non-empty separator, read left to right:
    `cur` is the piece collected so far.
   */
  function SplitScan(s: string, sep: string, cur: string): (r: seq<string>)
    requires |sep| > 0
    ensures |r| >= 1
    decreases |s|
  {
    if StartsWith(s, sep) then [cur] + SplitScan(s[|sep|..], sep, "")
    else if s == [] then [cur]
    else SplitScan(s[1..], sep, cur + [s[0]])
  }

  function Split(s: string, sep: string): seq<string>
    requires |sep| > 0
  {
    SplitScan(s, sep, "")
  }

  /** Text in which no separator starts is gathered into the current piece. */
  lemma {:induction false} SplitScanSkips(a: string, rest: string, sep: string, cur: string)
    requires |sep| > 0
    requires NoOccurrenceBefore(a + rest, sep, |a|)
    ensures SplitScan(a + rest, sep, cur) == SplitScan(rest, sep, cur + a)
    decreases |a|
  {
    if a != [] {
      var s := a + rest;
      assert s[0..] == s;
      assert !StartsWith(s, sep);
      assert s[1..] == a[1..] + rest;
      forall p | 0 <= p < |a[1..]| && p <= |s[1..]|
        ensures !StartsWith((a[1..] + rest)[p..], sep)
      {
        assert (a[1..] + rest)[p..] == s[p + 1..];
      }
      SplitScanSkips(a[1..], rest, sep, cur + [a[0]]);
      assert cur + [a[0]] + a[1..] == cur + a;
    } else {
      assert a + rest == rest;
      assert cur + a == cur;
    }
  }

  /** The first separator closes the current piece. */
  lemma SplitScanAtSeparator(a: string, rest: string, sep: string, cur: string)
    requires |sep| > 0
    requires NoOccurrenceBefore(a + sep + rest, sep, |a|)
    ensures SplitScan(a + sep + rest, sep, cur) == [cur + a] + SplitScan(rest, sep, "")
  {
    assert a + sep + rest == a + (sep + rest);
    SplitScanSkips(a, sep + rest, sep, cur);
    assert (sep + rest)[..|sep|] == sep;
    assert (sep + rest)[|sep|..] == rest;
  }

  /** Text without any separator ends the split as one last piece. */
  lemma SplitScanNoSeparator(a: string, sep: string, cur: string)
    requires |sep| > 0
    requires NoOccurrenceBefore(a, sep, |a|)
    ensures SplitScan(a, sep, cur) == [cur + a]
  {
    assert a + "" == a;
    SplitScanSkips(a, "", sep, cur);
  }

  // ---------------------------------------------------------------------
  // sep.join(lines), line-terminated text and str.splitlines
  // ---------------------------------------------------------------------

  /** Python's `sep.join(lines)`. */
  function Join(lines: seq<string>, sep: string): string
  {
    if lines == [] then "" else if |lines| == 1 then lines[0] else lines[0] + sep + Join(lines[1..], sep)
  }

  /** Every line followed by CRLF. */
  function Terminated(lines: seq<string>): (r: string)
  {
    if lines == [] then "" else lines[0] + CRLF + Terminated(lines[1..])
  }

  /** Joining with CRLF and adding a final CRLF ends every line with CRLF. */
  lemma {:induction false} JoinThenCrlf(lines: seq<string>)
    requires |lines| >= 1
    ensures Join(lines, CRLF) + CRLF == Terminated(lines)
  {
    if |lines| > 1 {
      JoinThenCrlf(lines[1..]);
    }
  }

  lemma {:induction false} TerminatedAppend(a: seq<string>, b: seq<string>)
    ensures Terminated(a + b) == Terminated(a) + Terminated(b)
  {
    if a == [] {
      assert a + b == b;
    } else {
      assert (a + b)[1..] == a[1..] + b;
      TerminatedAppend(a[1..], b);
    }
  }

  predicate NoLineBreak(s: string) {
    forall i :: 0 <= i < |s| ==> !IsLineBreak(s[i])
  }

  /**
    Python's `str.splitlines()`: `cur` is the line collected so far; CR LF is
    one boundary and a final boundary does not open an empty last line.
   */
  function LineScan(s: string, cur: string): seq<string>
    decreases |s|
  {
    if s == [] then (if cur == [] then [] else [cur])
    else if IsLineBreak(s[0]) then
      [cur] + LineScan(if s[0] == '\r' && |s| >= 2 && s[1] == '\n' then s[2..] else s[1..], "")
    else LineScan(s[1..], cur + [s[0]])
  }

  function SplitLines(s: string): seq<string> {
    LineScan(s, "")
  }

  lemma {:induction false} LineScanLine(l: string, rest: string, cur: string)
    requires NoLineBreak(l)
    ensures LineScan(l + CRLF + rest, cur) == [cur + l] + LineScan(rest, "")
    decreases |l|
  {
    var s := l + CRLF + rest;
    if l == [] {
      assert s == CRLF + rest;
      assert s[0] == '\r' && s[1] == '\n' && s[2..] == rest;
      assert cur + l == cur;
    } else {
      assert s[0] == l[0];
      assert s[1..] == l[1..] + CRLF + rest;
      LineScanLine(l[1..], rest, cur + [l[0]]);
      assert cur + [l[0]] + l[1..] == cur + l;
    }
  }

  /** Reading back CRLF-terminated lines that hold no line break gives the lines. */
  lemma {:induction false} SplitLinesTerminated(lines: seq<string>)
    requires forall i :: 0 <= i < |lines| ==> NoLineBreak(lines[i])
    ensures SplitLines(Terminated(lines)) == lines
  {
    if lines != [] {
      LineScanLine(lines[0], Terminated(lines[1..]), "");
      assert "" + lines[0] == lines[0];
      SplitLinesTerminated(lines[1..]);
    }
  }

  // ---------------------------------------------------------------------
  // String comparison
  // ---------------------------------------------------------------------

  /** Python's `a < b` on strings: code-point lexicographic order. */
  predicate StrLess(a: string, b: string) {
    if a == [] then b != []
    else if b == [] then false
    else if a[0] != b[0] then a[0] < b[0]
    else StrLess(a[1..], b[1..])
  }

  lemma {:induction false} StrLessIrreflexive(a: string)
    ensures !StrLess(a, a)
  {
    if a != [] { StrLessIrreflexive(a[1..]); }
  }

  lemma {:induction false} StrLessTransitive(a: string, b: string, c: string)
    requires StrLess(a, b) && StrLess(b, c)
    ensures StrLess(a, c)
  {
    if a != [] && b != [] && c != [] && a[0] == b[0] && b[0] == c[0] {
      StrLessTransitive(a[1..], b[1..], c[1..]);
    }
  }

  lemma {:induction false} StrLessTotal(a: string, b: string)
    requires a != b
    ensures StrLess(a, b) || StrLess(b, a)
  {
    if a != [] && b != [] && a[0] == b[0] {
      assert a == [a[0]] + a[1..] && b == [b[0]] + b[1..];
      StrLessTotal(a[1..], b[1..]);
    }
  }
}
