/** Text operations the parsers use, on decoded characters: searching, line splitting, trimming,
    whitespace fields, and decimal numbers. */
module Text {
  import opened Wrappers

  const U32_MAX: nat := 0xFFFF_FFFF
  const I64_MAX: int := 0x7FFF_FFFF_FFFF_FFFF

  /** The length of a character in UTF-8. */
  function Utf8Width(c: char): nat {
    if c < '\U{0080}' then 1 else if c < '\U{0800}' then 2 else if c < '\U{10000}' then 3 else 4
  }

  function ByteLength(s: string): nat {
    if s == [] then 0 else Utf8Width(s[0]) + ByteLength(s[1..])
  }

  lemma {:induction false} BytesConcat(a: string, b: string)
    ensures ByteLength(a + b) == ByteLength(a) + ByteLength(b)
  {
    if a == [] {
      assert a + b == b;
    } else {
      assert (a + b)[0] == a[0] && (a + b)[1..] == a[1..] + b;
      BytesConcat(a[1..], b);
    }
  }

  lemma {:induction false} AsciiBytes(s: string)
    requires forall c | c in s :: c < '\U{0080}'
    ensures ByteLength(s) == |s|
  {
    if s != [] {
      assert s[0] in s && forall c | c in s[1..] :: c in s;
      AsciiBytes(s[1..]);
    }
  }

  // ---------------------------------------------------------------- searching

  /** `find(c)`: the first place of a character. */
  function IndexOf(s: string, c: char): (r: Option<nat>)
    ensures r.None? <==> c !in s
    ensures r.Some? ==> r.value < |s| && s[r.value] == c && forall j | 0 <= j < r.value :: s[j] != c
  {
    if s == [] then None
    else if s[0] == c then Some(0)
    else match IndexOf(s[1..], c)
      case None => None
      case Some(i) => Some(i + 1)
  }

  lemma FirstCharAt(a: string, c: char, b: string)
    requires c !in a
    ensures IndexOf(a + [c] + b, c) == Some(|a|)
  {
    var s := a + [c] + b;
    assert s[|a|] == c;
    assert forall j | 0 <= j < |a| :: s[j] == a[j];
  }

  /** `find(pattern)`: the first place where the pattern starts. */
  function FindText(s: string, pattern: string): (r: Option<nat>)
    ensures r.Some? ==> r.value + |pattern| <= |s| && pattern <= s[r.value..]
    ensures r.Some? ==> forall j | 0 <= j < r.value :: !(pattern <= s[j..])
    ensures r.None? ==> forall j | 0 <= j <= |s| :: !(pattern <= s[j..])
  {
    if pattern <= s then
      assert s[0..] == s;
      Some(0)
    else if s == [] then None
    else
      assert s[0..] == s;
      assert forall j | 1 <= j <= |s| :: s[1..][j - 1..] == s[j..];
      match FindText(s[1..], pattern)
      case None => None
      case Some(i) => Some(i + 1)
  }

  lemma FirstTextAt(s: string, pattern: string, i: nat)
    requires i + |pattern| <= |s| && pattern <= s[i..]
    requires forall j | 0 <= j < i :: !(pattern <= s[j..])
    ensures FindText(s, pattern) == Some(i)
  {
  }

  // ---------------------------------------------------------------- lines

  /** `split_terminator('\n')`: lines without their newline; an empty rest is not a line. */
  function SplitTerminator(s: string): seq<string> {
    if s == [] then []
    else match IndexOf(s, '\n')
      case None => [s]
      case Some(i) => [s[..i]] + SplitTerminator(s[i + 1..])
  }

  /** `lines()`: as above, and one carriage return in front of a newline goes with it. */
  function Lines(s: string): seq<string> {
    if s == [] then []
    else match IndexOf(s, '\n')
      case None => [s]
      case Some(i) => [StripReturn(s[..i])] + Lines(s[i + 1..])
  }

  function StripReturn(s: string): string {
    if s != [] && s[|s| - 1] == '\r' then s[..|s| - 1] else s
  }

  function JoinLines(lines: seq<string>): string {
    if lines == [] then [] else lines[0] + ['\n'] + JoinLines(lines[1..])
  }

  lemma {:induction false} JoinConcat(a: seq<string>, b: seq<string>)
    ensures JoinLines(a + b) == JoinLines(a) + JoinLines(b)
  {
    if a == [] {
      assert a + b == b;
    } else {
      assert (a + b)[1..] == a[1..] + b;
      JoinConcat(a[1..], b);
    }
  }

  lemma FirstLine(line: string, rest: string)
    requires '\n' !in line
    ensures var s := line + ['\n'] + rest;
      s != [] && IndexOf(s, '\n') == Some(|line|) && s[..|line|] == line && s[|line| + 1..] == rest
  {
    hide IndexOf;
    FirstCharAt(line, '\n', rest);
  }

  lemma SplitFirst(line: string, rest: string)
    requires '\n' !in line
    ensures SplitTerminator(line + ['\n'] + rest) == [line] + SplitTerminator(rest)
  {
    hide IndexOf;
    FirstLine(line, rest);
  }

  lemma HeadAndTail(lines: seq<string>)
    requires lines != []
    ensures [lines[0]] + lines[1..] == lines
  {
  }

  lemma {:induction false} SplitJoined(lines: seq<string>)
    requires forall line | line in lines :: '\n' !in line
    ensures SplitTerminator(JoinLines(lines)) == lines
  {
    hide SplitTerminator;
    if lines == [] {
      assert SplitTerminator([]) == [] by { SplitNothing(); }
    } else {
      SplitFirst(lines[0], JoinLines(lines[1..]));
      SplitJoined(lines[1..]);
      HeadAndTail(lines);
    }
  }

  lemma SplitNothing()
    ensures SplitTerminator([]) == []
  {
  }

  /** Lines come back as they were joined, except that a carriage return at the end of one is lost. */
  lemma {:induction false} LinesOfJoined(lines: seq<string>)
    requires forall line | line in lines :: '\n' !in line
    ensures Lines(JoinLines(lines)) == StrippedLines(lines)
  {
    hide IndexOf;
    if lines != [] {
      FirstLine(lines[0], JoinLines(lines[1..]));
      LinesOfJoined(lines[1..]);
    }
  }

  function StrippedLines(lines: seq<string>): seq<string> {
    if lines == [] then [] else [StripReturn(lines[0])] + StrippedLines(lines[1..])
  }

  // ---------------------------------------------------------------- whitespace

  /** The characters with the Unicode property White_Space. */
  predicate IsWhitespace(c: char) {
    || '\t' <= c <= '\r' || c == ' ' || c == '\U{0085}' || c == '\U{00A0}' || c == '\U{1680}'
    || '\U{2000}' <= c <= '\U{200A}' || c == '\U{2028}' || c == '\U{2029}' || c == '\U{202F}'
    || c == '\U{205F}' || c == '\U{3000}'
  }

  /** The characters of the Unicode category Cc. */
  predicate IsControl(c: char) {
    c < ' ' || '\U{007F}' <= c <= '\U{009F}'
  }

  predicate NoWhitespace(s: string) {
    forall c | c in s :: !IsWhitespace(c)
  }

  function TrimStart(s: string): string {
    if s != [] && IsWhitespace(s[0]) then TrimStart(s[1..]) else s
  }

  function TrimEnd(s: string): string {
    if s != [] && IsWhitespace(s[|s| - 1]) then TrimEnd(s[..|s| - 1]) else s
  }

  function Trim(s: string): string {
    TrimEnd(TrimStart(s))
  }

  /** The leading part of a text up to its first whitespace. */
  function FieldLength(s: string): (n: nat)
    ensures n <= |s| && forall j | 0 <= j < n :: !IsWhitespace(s[j])
    ensures n < |s| ==> IsWhitespace(s[n])
  {
    if s == [] || IsWhitespace(s[0]) then 0 else 1 + FieldLength(s[1..])
  }

  /** `split_whitespace()`. */
  function Fields(s: string): seq<string> {
    if s == [] then []
    else if IsWhitespace(s[0]) then Fields(s[1..])
    else var n := FieldLength(s); [s[..n]] + Fields(s[n..])
  }

  lemma FieldThenRest(field: string, rest: string)
    requires field != [] && NoWhitespace(field)
    requires rest == [] || IsWhitespace(rest[0])
    ensures Fields(field + rest) == [field] + (if rest == [] then [] else Fields(rest[1..]))
  {
    var s := field + rest;
    assert forall j | 0 <= j < |field| :: s[j] == field[j];
    assert rest != [] ==> s[|field|] == rest[0];
    var n := FieldLength(s);
    assert n == |field|;
    assert s[..n] == field && s[n..] == rest;
  }

  // ---------------------------------------------------------------- decimal numbers

  predicate IsDigit(c: char) {
    '0' <= c <= '9'
  }

  predicate AllDigits(s: string) {
    s != [] && forall c | c in s :: IsDigit(c)
  }

  function DigitValue(c: char): nat
    requires IsDigit(c)
  {
    c as int - 48
  }

  function DigitsValue(s: string): nat
    requires forall c | c in s :: IsDigit(c)
  {
    if s == [] then 0 else DigitsValue(s[..|s| - 1]) * 10 + DigitValue(s[|s| - 1])
  }

  /** `str::parse` for an unsigned integer type with the given maximum: digits, with an optional plus. */
  function ParseUnsigned(s: string, max: nat): Option<nat> {
    var digits := if s != [] && s[0] == '+' then s[1..] else s;
    if AllDigits(digits) && DigitsValue(digits) <= max then Some(DigitsValue(digits)) else None
  }

  /** `str::parse::<i64>()`. */
  function ParseSigned(s: string): Option<int> {
    if s != [] && s[0] == '-' then
      if AllDigits(s[1..]) && DigitsValue(s[1..]) <= I64_MAX + 1 then Some(0 - DigitsValue(s[1..])) else None
    else ParseUnsigned(s, I64_MAX)
  }

  function PrintNat(n: nat): (s: string)
    ensures AllDigits(s)
  {
    (if n < 10 then [] else PrintNat(n / 10)) + [(n % 10 + 48) as char]
  }

  function PrintInt(n: int): string {
    if n < 0 then ['-'] + PrintNat(-n) else PrintNat(n)
  }

  lemma {:induction false} PrintedValue(n: nat)
    ensures DigitsValue(PrintNat(n)) == n
  {
    var s := PrintNat(n);
    if n >= 10 {
      PrintedValue(n / 10);
      assert s[..|s| - 1] == PrintNat(n / 10);
    }
  }

  lemma ParsePrintedUnsigned(n: nat, max: nat)
    requires n <= max
    ensures ParseUnsigned(PrintNat(n), max) == Some(n)
  {
    PrintedValue(n);
    assert PrintNat(n)[0] in PrintNat(n);
  }

  lemma ParsePrintedSigned(n: int)
    requires -I64_MAX - 1 <= n <= I64_MAX
    ensures ParseSigned(PrintInt(n)) == Some(n)
  {
    if n < 0 {
      PrintedValue(-n);
      assert PrintInt(n)[1..] == PrintNat(-n);
    } else {
      assert PrintNat(n)[0] in PrintNat(n);
      ParsePrintedUnsigned(n, I64_MAX);
    }
  }

  lemma DigitsAreNotSpace(s: string)
    requires forall c | c in s :: IsDigit(c)
    ensures NoWhitespace(s)
  {
  }
}
