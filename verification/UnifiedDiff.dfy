/** The unified diff parser (POSIX `diff -u` output): one pass over the lines, with running line
    numbers that must meet the ranges each hunk declares. */
module UnifiedDiff {
  import opened Wrappers
  import opened Text

  const MAX_RECORD: nat := 64 * 1024
  const MAX_ITEMS: nat := 250_000

  datatype LineKind = Context | Add | Delete

  datatype DiffLine = DiffLine(kind: LineKind, oldNo: Option<nat>, newNo: Option<nat>, text: string)

  datatype Hunk = Hunk(
    oldStart: nat, oldLines: nat, newStart: nat, newLines: nat, heading: Option<string>, lines: seq<DiffLine>)

  datatype ChangeKind = Modified | Added | Deleted | Renamed

  datatype FileDiff = FileDiff(oldPath: Option<string>, changeKind: ChangeKind, binary: bool, hunks: seq<Hunk>)

  datatype DiffError =
    LineTooLong | ListFull | BadPath | BadHeader | BadRange | BadCounts | LineNumberOverflow | UnknownLine

  // ---------------------------------------------------------------- one line at a time

  datatype State = State(file: FileDiff, current: Option<Hunk>, oldNo: nat, newNo: nat, parsed: nat)

  const Start := State(FileDiff(None, Modified, false, []), None, 0, 0, 0)

  datatype LineClass = BinaryFiles | NewFile | DeletedFile | RenameFrom | HunkHeader | FileHeader | Other

  function Classify(line: string): LineClass {
    if "Binary files" <= line then BinaryFiles
    else if "new file" <= line then NewFile
    else if "deleted file" <= line then DeletedFile
    else if "rename from " <= line then RenameFrom
    else if "@@" <= line then HunkHeader
    else if "diff --git" <= line || "index " <= line || "--- " <= line || "+++ " <= line then FileHeader
    else Other
  }

  /** `trim_start_matches`: every repetition of the prefix goes. */
  function TrimPrefixes(line: string, prefix: string): string
    requires prefix != []
    decreases |line|
  {
    if prefix <= line then TrimPrefixes(line[|prefix|..], prefix) else line
  }

  function ParseRange(s: string): Result<(nat, nat), DiffError> {
    var comma := IndexOf(s, ',');
    var start := ParseUnsigned(if comma.Some? then s[..comma.value] else s, U32_MAX);
    var count := ParseUnsigned(if comma.Some? then s[comma.value + 1..] else "1", U32_MAX);
    if start.Some? && count.Some? then Ok((start.value, count.value)) else Err(BadRange)
  }

  function ParseRanges(fields: seq<string>, heading: Option<string>): Result<Hunk, DiffError> {
    if |fields| != 2 || !("-" <= fields[0]) || !("+" <= fields[1]) then Err(BadHeader)
    else
      var before :- ParseRange(fields[0][1..]);
      var after :- ParseRange(fields[1][1..]);
      Ok(Hunk(before.0, before.1, after.0, after.1, heading, []))
  }

  function ParseHeader(line: string): Result<Hunk, DiffError> {
    if !("@@ " <= line) then Err(BadHeader)
    else
      var value := line[3..];
      match FindText(value, " @@")
      case None => Err(BadHeader)
      case Some(i) =>
        var heading := Trim(value[i + 3..]);
        ParseRanges(Fields(value[..i]), if heading == [] then None else Some(heading))
  }

  /** Closes the hunk read so far: the numbers reached must be those it declared. */
  function PushHunk(s: State): Result<State, DiffError> {
    if s.current.None? then Ok(s)
    else
      var h := s.current.value;
      if s.oldNo < h.oldStart || s.newNo < h.newStart then Err(BadCounts)
      else if s.oldNo - h.oldStart != h.oldLines || s.newNo - h.newStart != h.newLines then Err(BadCounts)
      else Ok(s.(file := s.file.(hunks := s.file.hunks + [h]), current := None))
  }

  function OpenHunk(s: State, line: string): Result<State, DiffError> {
    if s.parsed >= MAX_ITEMS then Err(ListFull)
    else
      var pushed :- PushHunk(s);
      var hunk :- ParseHeader(line);
      Ok(pushed.(current := Some(hunk), oldNo := hunk.oldStart, newNo := hunk.newStart, parsed := s.parsed + 1))
  }

  /** Appends a line under the running numbers and moves those it occupies on. */
  function PushLine(s: State, kind: LineKind, text: string): Result<State, DiffError>
    requires s.current.Some?
  {
    if s.parsed >= MAX_ITEMS then Err(ListFull)
    else
      var line := DiffLine(
        kind, if kind == Add then None else Some(s.oldNo), if kind == Delete then None else Some(s.newNo), text);
      var oldNo, newNo := if kind == Add then s.oldNo else s.oldNo + 1, if kind == Delete then s.newNo else s.newNo + 1;
      if (kind != Add && s.oldNo >= U32_MAX) || (kind != Delete && s.newNo >= U32_MAX) then Err(LineNumberOverflow)
      else
        var h := s.current.value;
        Ok(s.(current := Some(h.(lines := h.lines + [line])), oldNo := oldNo, newNo := newNo, parsed := s.parsed + 1))
  }

  function NoNewlineMarker(): string { "\\ No newline at end of file" }

  function BodyLine(s: State, line: string): Result<State, DiffError>
    requires s.current.Some?
  {
    if line == [] then Err(UnknownLine)
    else if line[0] == ' ' then PushLine(s, Context, line[1..])
    else if line[0] == '-' then PushLine(s, Delete, line[1..])
    else if line[0] == '+' then PushLine(s, Add, line[1..])
    else if line == NoNewlineMarker() then Ok(s)
    else Err(UnknownLine)
  }

  function StepLine(s: State, line: string, pathOk: string -> bool): Result<State, DiffError> {
    if ByteLength(line) > MAX_RECORD then Err(LineTooLong)
    else match Classify(line)
      case BinaryFiles => Ok(s.(file := s.file.(binary := true)))
      case NewFile => Ok(s.(file := s.file.(changeKind := Added)))
      case DeletedFile => Ok(s.(file := s.file.(changeKind := Deleted)))
      case RenameFrom =>
        var path := TrimPrefixes(line, "rename from ");
        if !pathOk(path) then Err(BadPath)
        else Ok(s.(file := s.file.(changeKind := Renamed, oldPath := Some(path))))
      case HunkHeader => OpenHunk(s, line)
      case FileHeader => Ok(s)
      case Other => if s.current.None? then Ok(s) else BodyLine(s, line)
  }

  function StepLines(s: State, lines: seq<string>, pathOk: string -> bool): Result<State, DiffError>
    decreases |lines|
  {
    if lines == [] then Ok(s)
    else
      var next :- StepLine(s, lines[0], pathOk);
      StepLines(next, lines[1..], pathOk)
  }

  function Finish(s: Result<State, DiffError>): Result<FileDiff, DiffError> {
    var reached :- s;
    var closed :- PushHunk(reached);
    Ok(closed.file)
  }

  function Parse(text: string, pathOk: string -> bool): Result<FileDiff, DiffError> {
    Finish(StepLines(Start, SplitTerminator(text), pathOk))
  }

  /** The parser as one loop over mutable variables. */
  method ParseUnifiedDiff(text: string, pathOk: string -> bool) returns (r: Result<FileDiff, DiffError>)
    ensures r == Parse(text, pathOk)
  {
    hide ParseHeader, TrimPrefixes, Classify, NoNewlineMarker;
    var lines := SplitTerminator(text);
    var file := FileDiff(None, Modified, false, []);
    var current: Option<Hunk> := None;
    var oldNo: nat, newNo: nat, parsed: nat := 0, 0, 0;
    for i := 0 to |lines|
      invariant StepLines(Start, lines, pathOk)
        == StepLines(State(file, current, oldNo, newNo, parsed), lines[i..], pathOk)
    {
      var line := lines[i];
      assert lines[i..][1..] == lines[i + 1..];
      if ByteLength(line) > MAX_RECORD {
        return Err(LineTooLong);
      }
      match Classify(line) {
        case BinaryFiles => file := file.(binary := true);
        case NewFile => file := file.(changeKind := Added);
        case DeletedFile => file := file.(changeKind := Deleted);
        case RenameFrom =>
          file := file.(changeKind := Renamed);
          var path := TrimPrefixes(line, "rename from ");
          if !pathOk(path) {
            return Err(BadPath);
          }
          file := file.(oldPath := Some(path));
        case HunkHeader =>
          if parsed >= MAX_ITEMS {
            return Err(ListFull);
          }
          if current.Some? {
            var closed := PushHunk(State(file, current, oldNo, newNo, parsed));
            if closed.Err? {
              return Err(closed.error);
            }
            file := closed.value.file;
          }
          parsed := parsed + 1;
          var hunk := ParseHeader(line);
          if hunk.Err? {
            return Err(hunk.error);
          }
          oldNo, newNo, current := hunk.value.oldStart, hunk.value.newStart, Some(hunk.value);
        case FileHeader =>
        case Other =>
          if current.Some? {
            var body := BodyLine(State(file, current, oldNo, newNo, parsed), line);
            if body.Err? {
              return Err(body.error);
            }
            current, oldNo, newNo, parsed := body.value.current, body.value.oldNo, body.value.newNo, body.value.parsed;
          }
      }
    }
    if current.Some? {
      var closed := PushHunk(State(file, current, oldNo, newNo, parsed));
      if closed.Err? {
        return Err(closed.error);
      }
      file := closed.value.file;
    }
    return Ok(file);
  }

  // ---------------------------------------------------------------- what every result satisfies

  /** How many of the lines exist in the old file, and in the new one. */
  function OldCount(lines: seq<DiffLine>): nat {
    if lines == [] then 0
    else OldCount(lines[..|lines| - 1]) + if lines[|lines| - 1].kind == Add then 0 else 1
  }

  function NewCount(lines: seq<DiffLine>): nat {
    if lines == [] then 0
    else NewCount(lines[..|lines| - 1]) + if lines[|lines| - 1].kind == Delete then 0 else 1
  }

  /** Every line carries the number it has in each file it exists in, counted from the starts. */
  predicate Numbered(lines: seq<DiffLine>, oldStart: nat, newStart: nat) {
    forall k | 0 <= k < |lines| ::
      && lines[k].oldNo == (if lines[k].kind == Add then None else Some(oldStart + OldCount(lines[..k])))
      && lines[k].newNo == (if lines[k].kind == Delete then None else Some(newStart + NewCount(lines[..k])))
  }

  predicate ValidHunk(h: Hunk) {
    && OldCount(h.lines) == h.oldLines && NewCount(h.lines) == h.newLines
    && Numbered(h.lines, h.oldStart, h.newStart)
    && h.oldStart + h.oldLines <= U32_MAX && h.newStart + h.newLines <= U32_MAX
  }

  /** The running numbers are where the lines of the open hunk lead. */
  predicate Sound(s: State) {
    && (forall h | h in s.file.hunks :: ValidHunk(h))
    && (s.current.Some? ==>
          var h := s.current.value;
          && Numbered(h.lines, h.oldStart, h.newStart)
          && s.oldNo == h.oldStart + OldCount(h.lines) <= U32_MAX
          && s.newNo == h.newStart + NewCount(h.lines) <= U32_MAX)
  }

  lemma NumberedGrows(lines: seq<DiffLine>, oldStart: nat, newStart: nat, line: DiffLine)
    requires Numbered(lines, oldStart, newStart)
    requires line.oldNo == if line.kind == Add then None else Some(oldStart + OldCount(lines))
    requires line.newNo == if line.kind == Delete then None else Some(newStart + NewCount(lines))
    ensures Numbered(lines + [line], oldStart, newStart)
    ensures OldCount(lines + [line]) == OldCount(lines) + if line.kind == Add then 0 else 1
    ensures NewCount(lines + [line]) == NewCount(lines) + if line.kind == Delete then 0 else 1
  {
    hide OldCount, NewCount;
    CountsGrow(lines, line);
    var grown := lines + [line];
    forall k | 0 <= k < |grown|
      ensures grown[k].oldNo == (if grown[k].kind == Add then None else Some(oldStart + OldCount(grown[..k])))
      ensures grown[k].newNo == (if grown[k].kind == Delete then None else Some(newStart + NewCount(grown[..k])))
    {
      assert grown[..k] == if k < |lines| then lines[..k] else lines;
    }
  }

  lemma CountsGrow(lines: seq<DiffLine>, line: DiffLine)
    ensures OldCount(lines + [line]) == OldCount(lines) + if line.kind == Add then 0 else 1
    ensures NewCount(lines + [line]) == NewCount(lines) + if line.kind == Delete then 0 else 1
  {
    assert (lines + [line])[..|lines|] == lines;
  }

  lemma PushLineKeepsSound(s: State, kind: LineKind, text: string)
    requires Sound(s) && s.current.Some?
    ensures var r := PushLine(s, kind, text); r.Ok? ==> Sound(r.value)
  {
    hide Numbered, OldCount, NewCount;
    var r := PushLine(s, kind, text);
    if r.Ok? {
      var h := s.current.value;
      var n := |h.lines|;
      NumberedGrows(h.lines, h.oldStart, h.newStart, r.value.current.value.lines[n]);
    }
  }

  lemma HeaderIsInRange(line: string)
    ensures var r := ParseHeader(line);
      r.Ok? ==> r.value.lines == [] && r.value.oldStart <= U32_MAX && r.value.newStart <= U32_MAX
  {
    hide Fields, FindText, Trim;
  }

  lemma PushHunkKeepsSound(s: State)
    requires Sound(s)
    ensures var r := PushHunk(s);
      r.Ok? ==>
        && Sound(r.value) && r.value.current.None?
        && r.value.file.hunks == s.file.hunks + (if s.current.Some? then [s.current.value] else [])
  {
    hide Numbered, OldCount, NewCount;
    if s.current.None? { assert s.file.hunks + [] == s.file.hunks; }
  }

  lemma StepLineKeepsSound(s: State, line: string, pathOk: string -> bool)
    requires Sound(s)
    ensures var r := StepLine(s, line, pathOk); r.Ok? ==> Sound(r.value)
  {
    hide ParseHeader, PushHunk, PushLine, Classify, TrimPrefixes, ByteLength, ValidHunk;
    match Classify(line)
    case HunkHeader => PushHunkKeepsSound(s); HeaderIsInRange(line);
    case Other =>
      if s.current.Some? && line != [] {
        PushLineKeepsSound(s, Context, line[1..]);
        PushLineKeepsSound(s, Delete, line[1..]);
        PushLineKeepsSound(s, Add, line[1..]);
      }
    case _ =>
  }

  lemma {:induction false} StepLinesKeepSound(s: State, lines: seq<string>, pathOk: string -> bool)
    requires Sound(s)
    ensures var r := StepLines(s, lines, pathOk); r.Ok? ==> Sound(r.value)
    decreases |lines|
  {
    hide Sound, StepLine;
    if lines != [] {
      StepLineKeepsSound(s, lines[0], pathOk);
      var next := StepLine(s, lines[0], pathOk);
      if next.Ok? { StepLinesKeepSound(next.value, lines[1..], pathOk); }
    }
  }

  /** Whatever the text: in every hunk of a result the lines add up to the declared ranges and are
      numbered consecutively from the declared starts, within 32 bits. */
  lemma EveryResultIsSound(text: string, pathOk: string -> bool)
    ensures var r := Parse(text, pathOk); r.Ok? ==> forall h | h in r.value.hunks :: ValidHunk(h)
  {
    hide StepLines, SplitTerminator, PushHunk, ValidHunk;
    var s := StepLines(Start, SplitTerminator(text), pathOk);
    StepLinesKeepSound(Start, SplitTerminator(text), pathOk);
    if s.Ok? { PushHunkKeepsSound(s.value); }
  }

  // ---------------------------------------------------------------- printing

  function PrintRange(start: nat, count: nat): string {
    PrintNat(start) + if count == 1 then [] else "," + PrintNat(count)
  }

  function PrintHeader(h: Hunk): string {
    "@@ -" + PrintRange(h.oldStart, h.oldLines) + " +" + PrintRange(h.newStart, h.newLines) + " @@"
    + if h.heading.Some? then " " + h.heading.value else []
  }

  function Prefix(kind: LineKind): char {
    match kind
    case Context => ' '
    case Add => '+'
    case Delete => '-'
  }

  function PrintLine(line: DiffLine): string {
    [Prefix(line.kind)] + line.text
  }

  function PrintBody(lines: seq<DiffLine>): seq<string> {
    if lines == [] then [] else [PrintLine(lines[0])] + PrintBody(lines[1..])
  }

  function PrintHunks(hunks: seq<Hunk>): seq<string> {
    if hunks == [] then [] else [PrintHeader(hunks[0])] + PrintBody(hunks[0].lines) + PrintHunks(hunks[1..])
  }

  /** A deletion or addition that prints like a file header. */
  predicate LooksLikeHeader(line: DiffLine) {
    (line.kind == Delete && "-- " <= line.text) || (line.kind == Add && "++ " <= line.text)
  }

  predicate Printable(line: string) {
    '\n' !in line && ByteLength(line) <= MAX_RECORD
  }

  predicate PlainHeading(heading: string) {
    heading != [] && !IsWhitespace(heading[0]) && !IsWhitespace(heading[|heading| - 1])
  }

  /** Hunks a diff can show: consistent, and with lines that fit. */
  predicate ShownHunk(h: Hunk) {
    && ValidHunk(h)
    && (h.heading.Some? ==> PlainHeading(h.heading.value))
    && Printable(PrintHeader(h)) && forall line | line in h.lines :: Printable(PrintLine(line))
  }

  function Items(hunks: seq<Hunk>): nat {
    if hunks == [] then 0 else 1 + |hunks[0].lines| + Items(hunks[1..])
  }

  lemma BodyIsOther(line: DiffLine)
    ensures Classify(PrintLine(line)) == if LooksLikeHeader(line) then FileHeader else Other
  {
    var printed := PrintLine(line);
    assert printed[0] == Prefix(line.kind) && printed[1..] == line.text;
    assert "--- " <= printed <==> line.kind == Delete && "-- " <= line.text by { PrefixTail('-', "-- ", printed); }
    assert "+++ " <= printed <==> line.kind == Add && "++ " <= line.text by { PrefixTail('+', "++ ", printed); }
  }

  lemma PrefixTail(c: char, tail: string, s: string)
    requires s != []
    ensures [c] + tail <= s <==> s[0] == c && tail <= s[1..]
  {
    if [c] + tail <= s {
      assert s[1..][..|tail|] == s[..|tail| + 1][1..] == ([c] + tail)[1..] == tail;
    }
    if s[0] == c && tail <= s[1..] {
      assert s[..|tail| + 1] == [c] + s[1..][..|tail|];
    }
  }

  lemma NumberIsPlain(n: nat)
    ensures PrintNat(n) != [] && forall c | c in PrintNat(n) :: IsDigit(c) && c != ',' && c != '@' && !IsWhitespace(c)
  {
    hide PrintNat;
    DigitsAreNotSpace(PrintNat(n));
  }

  lemma LongRangeParses(start: nat, count: nat)
    requires start <= U32_MAX && count <= U32_MAX
    ensures ParseRange(PrintNat(start) + "," + PrintNat(count)) == Ok((start, count))
  {
    hide PrintNat, IndexOf, ParseUnsigned;
    NumberIsPlain(start);
    FirstCharAt(PrintNat(start), ',', PrintNat(count));
    var s := PrintNat(start) + "," + PrintNat(count);
    assert s[..|PrintNat(start)|] == PrintNat(start) && s[|PrintNat(start)| + 1..] == PrintNat(count);
    ParsePrintedUnsigned(start, U32_MAX);
    ParsePrintedUnsigned(count, U32_MAX);
  }

  lemma ShortRangeParses(start: nat)
    requires start <= U32_MAX
    ensures ParseRange(PrintNat(start)) == Ok((start, 1))
  {
    hide IndexOf, ParseUnsigned;
    NumberIsPlain(start);
    ParsePrintedUnsigned(start, U32_MAX);
    ParsePrintedUnsigned(1, U32_MAX);
    assert PrintNat(1) == "1";
  }

  lemma RangeParses(start: nat, count: nat)
    requires start <= U32_MAX && count <= U32_MAX
    ensures ParseRange(PrintRange(start, count)) == Ok((start, count))
    ensures PrintRange(start, count) != []
    ensures forall c | c in PrintRange(start, count) :: c != '@' && !IsWhitespace(c)
  {
    hide PrintNat, ParseRange;
    NumberIsPlain(start);
    NumberIsPlain(count);
    if count == 1 {
      ShortRangeParses(start);
      assert PrintNat(start) + [] == PrintNat(start);
    } else {
      LongRangeParses(start, count);
      assert PrintNat(start) + "," + PrintNat(count) == PrintNat(start) + ("," + PrintNat(count));
    }
  }

  lemma TwoFields(a: string, b: string)
    requires a != [] && b != [] && NoWhitespace(a) && NoWhitespace(b)
    ensures Fields(a + " " + b) == [a, b]
  {
    hide Fields;
    assert a + " " + b == a + (" " + b);
    FieldThenRest(a, " " + b);
    assert (" " + b)[1..] == b;
    FieldThenRest(b, []);
    assert b + [] == b;
  }

  lemma TrimmedHeading(heading: string)
    requires PlainHeading(heading)
    ensures Trim(" " + heading) == heading
  {
    assert (" " + heading)[1..] == heading;
    assert TrimStart(" " + heading) == heading;
  }

  lemma RangesEnd(ranges: string, tail: string)
    requires '@' !in ranges
    ensures FindText(ranges + " @@" + tail, " @@") == Some(|ranges|)
  {
    var s := ranges + " @@" + tail;
    assert s[|ranges|..] == " @@" + tail;
    forall j | 0 <= j < |ranges|
      ensures !(" @@" <= s[j..])
    {
      assert s[j..][1] == s[j + 1];
      assert j + 1 < |ranges| ==> s[j + 1] == ranges[j + 1] && s[j + 1] in ranges;
    }
    FirstTextAt(s, " @@", |ranges|);
  }

  lemma HeaderParses(h: Hunk)
    requires h.oldStart <= U32_MAX && h.oldLines <= U32_MAX && h.newStart <= U32_MAX && h.newLines <= U32_MAX
    requires h.heading.Some? ==> PlainHeading(h.heading.value)
    ensures ParseHeader(PrintHeader(h)) == Ok(h.(lines := [])) && Classify(PrintHeader(h)) == HunkHeader
  {
    hide PrintRange, ParseRange, Fields, FindText, Trim;
    var a, b := "-" + PrintRange(h.oldStart, h.oldLines), "+" + PrintRange(h.newStart, h.newLines);
    var tail := if h.heading.Some? then " " + h.heading.value else [];
    RangeParses(h.oldStart, h.oldLines);
    RangeParses(h.newStart, h.newLines);
    var value := a + " " + b + " @@" + tail;
    HeaderIs(h, a, b, tail);
    TwoFields(a, b);
    RangesEnd(a + " " + b, tail);
    assert value[..|a + " " + b|] == a + " " + b && value[|a + " " + b| + 3..] == tail;
    TailTrims(h.heading);
    assert a[1..] == PrintRange(h.oldStart, h.oldLines) && b[1..] == PrintRange(h.newStart, h.newLines);
  }

  lemma TailTrims(heading: Option<string>)
    requires heading.Some? ==> PlainHeading(heading.value)
    ensures Trim(if heading.Some? then " " + heading.value else []) == if heading.Some? then heading.value else []
  {
    if heading.Some? { TrimmedHeading(heading.value); }
  }

  lemma HeaderIs(h: Hunk, a: string, b: string, tail: string)
    requires a == "-" + PrintRange(h.oldStart, h.oldLines) && b == "+" + PrintRange(h.newStart, h.newLines)
    requires tail == if h.heading.Some? then " " + h.heading.value else []
    ensures PrintHeader(h) == "@@ " + (a + " " + b + " @@" + tail)
    ensures "@@ " <= PrintHeader(h) && PrintHeader(h)[3..] == a + " " + b + " @@" + tail
    ensures Classify(PrintHeader(h)) == HunkHeader
  {
    hide PrintRange;
    assert PrintHeader(h)[0] == '@' && PrintHeader(h)[1] == '@';
  }

  // ---------------------------------------------------------------- the round trip

  lemma {:induction false} StepLinesConcat(s: State, a: seq<string>, b: seq<string>, pathOk: string -> bool)
    ensures StepLines(s, a + b, pathOk)
      == var mid := StepLines(s, a, pathOk); if mid.Err? then mid else StepLines(mid.value, b, pathOk)
    decreases |a|
  {
    hide StepLine;
    if a == [] {
      assert a + b == b;
    } else {
      assert (a + b)[0] == a[0] && (a + b)[1..] == a[1..] + b;
      var next := StepLine(s, a[0], pathOk);
      if next.Ok? { StepLinesConcat(next.value, a[1..], b, pathOk); }
    }
  }

  /** The state with `k` lines of a hunk read. */
  function Within(s: State, h: Hunk, k: nat): State
    requires k <= |h.lines|
  {
    s.(current := Some(h.(lines := h.lines[..k])),
       oldNo := h.oldStart + OldCount(h.lines[..k]),
       newNo := h.newStart + NewCount(h.lines[..k]), parsed := s.parsed + k)
  }

  lemma {:induction false} CountsRise(lines: seq<DiffLine>, k: nat)
    requires k <= |lines|
    ensures OldCount(lines[..k]) <= OldCount(lines) && NewCount(lines[..k]) <= NewCount(lines)
    decreases |lines|
  {
    if k < |lines| {
      var n := |lines| - 1;
      CountsRise(lines[..n], k);
      assert lines[..n][..k] == lines[..k];
    } else {
      assert lines[..k] == lines;
    }
  }

  lemma OneBodyLine(s: State, h: Hunk, k: nat, pathOk: string -> bool)
    requires ValidHunk(h) && k < |h.lines| && s.parsed + |h.lines| <= MAX_ITEMS
    requires Printable(PrintLine(h.lines[k])) && !LooksLikeHeader(h.lines[k])
    ensures StepLine(Within(s, h, k), PrintLine(h.lines[k]), pathOk) == Ok(Within(s, h, k + 1))
  {
    hide Classify, OldCount, NewCount;
    var line, printed := h.lines[k], PrintLine(h.lines[k]);
    BodyIsOther(line);
    assert printed[0] == Prefix(line.kind) && printed[1..] == line.text;
    assert h.lines[..k + 1] == h.lines[..k] + [line];
    CountsGrow(h.lines[..k], line);
    CountsRise(h.lines, k + 1);
  }

  lemma {:induction false} BodyIsRead(s: State, h: Hunk, k: nat, pathOk: string -> bool)
    requires ValidHunk(h) && k <= |h.lines| && s.parsed + |h.lines| <= MAX_ITEMS
    requires forall line | line in h.lines :: Printable(PrintLine(line)) && !LooksLikeHeader(line)
    ensures StepLines(Within(s, h, k), PrintBody(h.lines[k..]), pathOk) == Ok(Within(s, h, |h.lines|))
    decreases |h.lines| - k
  {
    hide StepLine, Within, ValidHunk, Printable, LooksLikeHeader;
    if k < |h.lines| {
      OneBodyLine(s, h, k, pathOk);
      assert h.lines[k..][1..] == h.lines[k + 1..];
      var body := PrintBody(h.lines[k..]);
      assert body[0] == PrintLine(h.lines[k]) && body[1..] == PrintBody(h.lines[k + 1..]);
      BodyIsRead(s, h, k + 1, pathOk);
    }
  }

  predicate NoLookalikes(lines: seq<DiffLine>) {
    forall line | line in lines :: !LooksLikeHeader(line)
  }

  lemma {:induction false} CountsFromFront(lines: seq<DiffLine>)
    requires lines != []
    ensures OldCount(lines) == OldCount(lines[1..]) + if lines[0].kind == Add then 0 else 1
    ensures NewCount(lines) == NewCount(lines[1..]) + if lines[0].kind == Delete then 0 else 1
  {
    var n := |lines| - 1;
    if n > 0 {
      CountsFromFront(lines[..n]);
      assert lines[..n][1..] == lines[1..][..n - 1];
    }
  }

  /** Lines that look like headers are passed over, and then the numbers fall short. */
  lemma {:induction false} BodyFallsShort(s: State, lines: seq<DiffLine>, pathOk: string -> bool)
    requires s.current.Some?
    ensures var r := StepLines(s, PrintBody(lines), pathOk);
      r.Ok? ==>
        && r.value.current.Some? && r.value.current.value.(lines := []) == s.current.value.(lines := [])
        && r.value.oldNo + r.value.newNo <= s.oldNo + s.newNo + OldCount(lines) + NewCount(lines)
        && (!NoLookalikes(lines) ==>
              r.value.oldNo + r.value.newNo < s.oldNo + s.newNo + OldCount(lines) + NewCount(lines))
    decreases |lines|
  {
    hide Classify, OldCount, NewCount, LooksLikeHeader, ByteLength;
    if lines != [] {
      var line, rest := lines[0], lines[1..];
      BodyIsOther(line);
      CountsFromFront(lines);
      assert PrintBody(lines)[0] == PrintLine(line) && PrintBody(lines)[1..] == PrintBody(rest);
      assert PrintLine(line)[0] == Prefix(line.kind);
      assert NoLookalikes(lines) <==> !LooksLikeHeader(line) && NoLookalikes(rest) by { LookalikesFromFront(lines); }
      var next := StepLine(s, PrintLine(line), pathOk);
      if next.Ok? { BodyFallsShort(next.value, rest, pathOk); }
    }
  }

  lemma LookalikesFromFront(lines: seq<DiffLine>)
    requires lines != []
    ensures NoLookalikes(lines) <==> !LooksLikeHeader(lines[0]) && NoLookalikes(lines[1..])
  {
    hide LooksLikeHeader;
    assert lines == [lines[0]] + lines[1..];
  }

  lemma HeaderIsRead(s: State, h: Hunk, pathOk: string -> bool)
    requires ShownHunk(h) && PushHunk(s).Ok? && s.parsed < MAX_ITEMS
    ensures StepLine(s, PrintHeader(h), pathOk) == Ok(Within(PushHunk(s).value.(parsed := s.parsed + 1), h, 0))
  {
    hide ParseHeader, Classify, PrintHeader, PushHunk;
    HeaderParses(h);
    assert h.lines[..0] == [];
    assert PushHunk(s).value.parsed == s.parsed by { PushKeepsParsed(s); }
  }

  lemma PushKeepsParsed(s: State)
    requires PushHunk(s).Ok?
    ensures PushHunk(s).value.parsed == s.parsed && PushHunk(s).value.current.None?
  {
  }

  /** A hunk read to its end is closed as it was printed. */
  lemma WholeHunkCloses(p: State, h: Hunk)
    requires ValidHunk(h) && p.current.None?
    ensures var s := Within(p, h, |h.lines|);
      PushHunk(s) == Ok(s.(file := p.file.(hunks := p.file.hunks + [h]), current := None))
  {
    assert h.lines[..|h.lines|] == h.lines;
  }

  /** Reading one printed hunk after whatever was open. */
  lemma HunkIsRead(s: State, h: Hunk, pathOk: string -> bool)
    requires ShownHunk(h) && PushHunk(s).Ok? && s.parsed + 1 + |h.lines| <= MAX_ITEMS && NoLookalikes(h.lines)
    ensures StepLines(s, [PrintHeader(h)] + PrintBody(h.lines), pathOk)
      == Ok(Within(PushHunk(s).value.(parsed := s.parsed + 1), h, |h.lines|))
  {
    hide StepLine, PrintHeader, PushHunk, Within, PrintBody, LooksLikeHeader, Printable, ValidHunk;
    var open := PushHunk(s).value.(parsed := s.parsed + 1);
    HeaderIsRead(s, h, pathOk);
    BodyIsRead(open, h, 0, pathOk);
    assert h.lines[0..] == h.lines;
    assert ([PrintHeader(h)] + PrintBody(h.lines))[1..] == PrintBody(h.lines);
  }

  predicate AllShown(hunks: seq<Hunk>) {
    forall h | h in hunks :: ShownHunk(h)
  }

  predicate AllPlain(hunks: seq<Hunk>) {
    forall h | h in hunks :: NoLookalikes(h.lines)
  }

  lemma {:induction false} HunksAreRead(s: State, hunks: seq<Hunk>, pathOk: string -> bool)
    requires AllShown(hunks) && AllPlain(hunks) && PushHunk(s).Ok? && s.parsed + Items(hunks) <= MAX_ITEMS
    ensures Finish(StepLines(s, PrintHunks(hunks), pathOk))
      == Ok(PushHunk(s).value.file.(hunks := PushHunk(s).value.file.hunks + hunks))
    decreases |hunks|
  {
    hide StepLine, PrintHeader, PushHunk, PrintBody, ShownHunk, NoLookalikes, Within;
    var p := PushHunk(s).value;
    PushKeepsParsed(s);
    if hunks == [] {
      assert p.file.hunks + hunks == p.file.hunks;
    } else {
      var h, rest := hunks[0], hunks[1..];
      var open := p.(parsed := s.parsed + 1);
      HunkIsRead(s, h, pathOk);
      assert ValidHunk(h) by { ShownIsValid(h); }
      WholeHunkCloses(open, h);
      var mid := Within(open, h, |h.lines|);
      WithinCounts(open, h);
      StepLinesConcat(s, [PrintHeader(h)] + PrintBody(h.lines), PrintHunks(rest), pathOk);
      HunksAreRead(mid, rest, pathOk);
      assert p.file.hunks + [h] + rest == p.file.hunks + hunks;
    }
  }

  lemma ShownIsValid(h: Hunk)
    requires ShownHunk(h)
    ensures ValidHunk(h)
  {
  }

  lemma WithinCounts(p: State, h: Hunk)
    ensures Within(p, h, |h.lines|).parsed == p.parsed + |h.lines| && Within(p, h, |h.lines|).file == p.file
  {
  }

  /** Once the open hunk cannot be closed, nothing that is printed after it is accepted. */
  lemma NothingClosesIt(s: State, hunks: seq<Hunk>, pathOk: string -> bool)
    requires PushHunk(s).Err? && AllShown(hunks)
    ensures Finish(StepLines(s, PrintHunks(hunks), pathOk)).Err?
  {
    hide PushHunk, PrintHeader, Classify, ParseHeader, PrintBody, ValidHunk, Printable;
    if hunks != [] {
      assert ShownHunk(hunks[0]);
      ValidIsBounded(hunks[0]);
      HeaderParses(hunks[0]);
      assert PrintHunks(hunks)[0] == PrintHeader(hunks[0]);
    }
  }

  lemma ValidIsBounded(h: Hunk)
    requires ValidHunk(h)
    ensures h.oldStart <= U32_MAX && h.oldLines <= U32_MAX && h.newStart <= U32_MAX && h.newLines <= U32_MAX
  {
  }

  /** A hunk with a lookalike cannot be closed: at least one of its counts stays short. */
  lemma LookalikeHunkStaysOpen(s: State, h: Hunk, pathOk: string -> bool)
    requires ShownHunk(h) && PushHunk(s).Ok? && !NoLookalikes(h.lines) && s.parsed < MAX_ITEMS
    ensures var r := StepLines(s, [PrintHeader(h)] + PrintBody(h.lines), pathOk);
      r.Err? || PushHunk(r.value).Err?
  {
    hide StepLine, PrintHeader, PrintBody, NoLookalikes, Numbered, OldCount, NewCount;
    var open := PushHunk(s).value.(parsed := s.parsed + 1);
    HeaderIsRead(s, h, pathOk);
    assert ([PrintHeader(h)] + PrintBody(h.lines))[1..] == PrintBody(h.lines);
    assert h.lines[..0] == [];
    CountsOfNothing();
    BodyFallsShort(Within(open, h, 0), h.lines, pathOk);
  }

  lemma CountsOfNothing()
    ensures OldCount([]) == 0 && NewCount([]) == 0
  {
  }

  lemma {:induction false} SomeHunkStaysOpen(s: State, hunks: seq<Hunk>, pathOk: string -> bool)
    requires AllShown(hunks) && !AllPlain(hunks) && PushHunk(s).Ok? && s.parsed + Items(hunks) <= MAX_ITEMS
    ensures Finish(StepLines(s, PrintHunks(hunks), pathOk)).Err?
    decreases |hunks|
  {
    hide StepLine, PrintHeader, PushHunk, PrintBody, ShownHunk, NoLookalikes, Within;
    var h, rest := hunks[0], hunks[1..];
    var lines := [PrintHeader(h)] + PrintBody(h.lines);
    StepLinesConcat(s, lines, PrintHunks(rest), pathOk);
    if NoLookalikes(h.lines) {
      PushKeepsParsed(s);
      var open := PushHunk(s).value.(parsed := s.parsed + 1);
      HunkIsRead(s, h, pathOk);
      ShownIsValid(h);
      WholeHunkCloses(open, h);
      WithinCounts(open, h);
      SomeHunkStaysOpen(Within(open, h, |h.lines|), rest, pathOk);
    } else {
      LookalikeHunkStaysOpen(s, h, pathOk);
      var r := StepLines(s, lines, pathOk);
      if r.Ok? { NothingClosesIt(r.value, rest, pathOk); }
    }
  }

  /** Lines before the first hunk: anything but a hunk header. */
  predicate IsPreamble(lines: seq<string>) {
    forall line | line in lines :: '\n' !in line && Classify(line) != HunkHeader
  }

  lemma {:induction false} PreambleOpensNothing(s: State, lines: seq<string>, pathOk: string -> bool)
    requires IsPreamble(lines) && s.current.None?
    ensures var r := StepLines(s, lines, pathOk);
      r.Ok? ==> r.value.current.None? && r.value.parsed == s.parsed && r.value.file.hunks == s.file.hunks
    decreases |lines|
  {
    hide Classify, TrimPrefixes, ByteLength;
    if lines != [] {
      var next := StepLine(s, lines[0], pathOk);
      if next.Ok? { PreambleOpensNothing(next.value, lines[1..], pathOk); }
    }
  }

  lemma {:induction false} PrintedLinesAreLines(hunks: seq<Hunk>)
    requires AllShown(hunks)
    ensures forall line | line in PrintHunks(hunks) :: '\n' !in line
    decreases |hunks|
  {
    hide PrintHeader, PrintLine, ByteLength, ValidHunk;
    if hunks != [] {
      assert ShownHunk(hunks[0]);
      BodyLinesAreLines(hunks[0].lines);
      PrintedLinesAreLines(hunks[1..]);
    }
  }

  lemma {:induction false} BodyLinesAreLines(lines: seq<DiffLine>)
    requires forall line | line in lines :: Printable(PrintLine(line))
    ensures forall line | line in PrintBody(lines) :: '\n' !in line
    decreases |lines|
  {
    hide PrintLine, ByteLength;
    if lines != [] {
      assert PrintBody(lines) == [PrintLine(lines[0])] + PrintBody(lines[1..]);
      BodyLinesAreLines(lines[1..]);
    }
  }

  // ---------------------------------------------------------------- files without a final newline

  /** The lines without those that tell of a missing newline at the end of a file. */
  function WithoutMarkers(lines: seq<string>): seq<string> {
    if lines == [] then []
    else (if lines[0] == NoNewlineMarker() then [] else [lines[0]]) + WithoutMarkers(lines[1..])
  }

  lemma MarkerIsSkipped(s: State, pathOk: string -> bool)
    ensures StepLine(s, NoNewlineMarker(), pathOk) == Ok(s) && '\n' !in NoNewlineMarker()
  {
    hide ByteLength;
    BytesPerCharacter(NoNewlineMarker());
    assert NoNewlineMarker()[0] == '\\';
  }

  lemma {:induction false} BytesPerCharacter(s: string)
    ensures ByteLength(s) <= 4 * |s|
  {
    if s != [] { BytesPerCharacter(s[1..]); }
  }

  lemma {:induction false} MarkersAreSkipped(s: State, lines: seq<string>, pathOk: string -> bool)
    ensures StepLines(s, lines, pathOk) == StepLines(s, WithoutMarkers(lines), pathOk)
    ensures forall line | line in lines :: line == NoNewlineMarker() || line in WithoutMarkers(lines)
    decreases |lines|
  {
    hide StepLine;
    if lines != [] {
      var line, rest := lines[0], lines[1..];
      assert forall x | x in lines :: x == line || x in rest;
      var next := StepLine(s, line, pathOk);
      MarkersAreSkipped(if next.Ok? then next.value else s, rest, pathOk);
      if line == NoNewlineMarker() {
        MarkerIsSkipped(s, pathOk);
        assert WithoutMarkers(lines) == WithoutMarkers(rest);
      } else {
        assert WithoutMarkers(lines)[0] == line && WithoutMarkers(lines)[1..] == WithoutMarkers(rest);
      }
    }
  }

  /** Printing hunks after any accepted preamble, with the marker of a missing final newline anywhere
      between the lines, and parsing the text gives exactly those hunks back, unless a deletion starts
      with "-- " or an addition with "++ ": then the text is refused. */
  lemma RoundTripsExactlyWithoutLookalikes(
    preamble: seq<string>, body: seq<string>, hunks: seq<Hunk>, pathOk: string -> bool)
    requires IsPreamble(preamble) && StepLines(Start, preamble, pathOk).Ok?
    requires WithoutMarkers(body) == PrintHunks(hunks)
    requires AllShown(hunks) && Items(hunks) <= MAX_ITEMS
    ensures var r := Parse(JoinLines(preamble + body), pathOk);
      && (AllPlain(hunks) ==> r == Ok(StepLines(Start, preamble, pathOk).value.file.(hunks := hunks)))
      && (!AllPlain(hunks) ==> r.Err?)
  {
    hide StepLine, PrintHunks, JoinLines, SplitTerminator, AllShown, AllPlain, Items, Classify, WithoutMarkers;
    var s := StepLines(Start, preamble, pathOk).value;
    PrintedLinesAreLines(hunks);
    MarkersAreSkipped(s, body, pathOk);
    MarkerIsSkipped(s, pathOk);
    SplitJoined(preamble + body);
    StepLinesConcat(Start, preamble, body, pathOk);
    PreambleOpensNothing(Start, preamble, pathOk);
    if AllPlain(hunks) {
      HunksAreRead(s, hunks, pathOk);
      assert [] + hunks == hunks;
    } else {
      SomeHunkStaysOpen(s, hunks, pathOk);
    }
  }

  // ---------------------------------------------------------------- what is said about the file

  /** The kind named by the last line that names one. */
  function LastKind(lines: seq<string>): ChangeKind {
    if lines == [] then Modified
    else
      var line := lines[|lines| - 1];
      if "new file" <= line then Added
      else if "deleted file" <= line then Deleted
      else if "rename from " <= line then Renamed
      else LastKind(lines[..|lines| - 1])
  }

  /** The path of the last rename. */
  function LastRename(lines: seq<string>): Option<string> {
    if lines == [] then None
    else
      var line := lines[|lines| - 1];
      if "rename from " <= line then Some(TrimPrefixes(line, "rename from ")) else LastRename(lines[..|lines| - 1])
  }

  predicate SaysBinary(lines: seq<string>) {
    exists line | line in lines :: "Binary files" <= line
  }

  predicate SaidAbout(file: FileDiff, lines: seq<string>) {
    && file.changeKind == LastKind(lines) && file.oldPath == LastRename(lines)
    && (file.binary <==> SaysBinary(lines))
  }

  lemma OneMoreLine(s: State, lines: seq<string>, line: string, pathOk: string -> bool)
    requires SaidAbout(s.file, lines) && StepLine(s, line, pathOk).Ok?
    ensures SaidAbout(StepLine(s, line, pathOk).value.file, lines + [line])
  {
    hide TrimPrefixes, ParseHeader, ByteLength, NoNewlineMarker;
    var all := lines + [line];
    assert all[..|all| - 1] == lines;
    assert SaysBinary(all) <==> SaysBinary(lines) || "Binary files" <= line by { BinaryGrows(lines, line); }
    PrefixesDiffer(line);
    KindOfFile(s, line, pathOk);
  }

  lemma BinaryGrows(lines: seq<string>, line: string)
    ensures SaysBinary(lines + [line]) <==> SaysBinary(lines) || "Binary files" <= line
  {
    assert forall x :: x in lines + [line] <==> x in lines || x == line;
    if SaysBinary(lines) {
      var x :| x in lines && "Binary files" <= x;
      assert x in lines + [line];
    }
    assert line in lines + [line];
  }

  lemma PrefixesDiffer(line: string)
    ensures "Binary files" <= line ==> line[0] == 'B'
    ensures "new file" <= line ==> line[0] == 'n'
    ensures "deleted file" <= line ==> line[0] == 'd'
    ensures "rename from " <= line ==> line[0] == 'r'
  {
  }

  /** One line changes what is known about the file only by what it starts with. */
  lemma KindOfFile(s: State, line: string, pathOk: string -> bool)
    requires StepLine(s, line, pathOk).Ok?
    ensures var before, after := s.file, StepLine(s, line, pathOk).value.file;
      && after.binary == (before.binary || Classify(line).BinaryFiles?)
      && after.changeKind == (match Classify(line)
                              case NewFile => Added
                              case DeletedFile => Deleted
                              case RenameFrom => Renamed
                              case _ => before.changeKind)
      && after.oldPath ==
           if Classify(line).RenameFrom? then Some(TrimPrefixes(line, "rename from ")) else before.oldPath
  {
    hide TrimPrefixes, ParseHeader, ByteLength, NoNewlineMarker, Classify;
  }

  lemma {:induction false} LinesSayKind(s: State, before: seq<string>, lines: seq<string>, pathOk: string -> bool)
    requires SaidAbout(s.file, before) && StepLines(s, lines, pathOk).Ok?
    ensures SaidAbout(StepLines(s, lines, pathOk).value.file, before + lines)
    decreases |lines|
  {
    hide StepLine, SaidAbout;
    if lines == [] {
      assert before + lines == before;
    } else {
      OneMoreLine(s, before, lines[0], pathOk);
      LinesSayKind(StepLine(s, lines[0], pathOk).value, before + [lines[0]], lines[1..], pathOk);
      assert before + [lines[0]] + lines[1..] == before + lines;
    }
  }

  /** In every accepted text: the file is binary exactly when a line says so, its kind of change is the
      last one named, and its old path the last one it was renamed from. */
  lemma KindIsTheLastNamed(text: string, pathOk: string -> bool)
    ensures var r := Parse(text, pathOk); r.Ok? ==> SaidAbout(r.value, SplitTerminator(text))
  {
    hide StepLines, StepLine, SplitTerminator;
    var lines := SplitTerminator(text);
    var r := StepLines(Start, lines, pathOk);
    assert SaidAbout(Start.file, []);
    if r.Ok? {
      LinesSayKind(Start, [], lines, pathOk);
      assert [] + lines == lines;
    }
  }

  // ---------------------------------------------------------------- limits

  function Open(s: State): nat {
    if s.current.Some? then 1 + |s.current.value.lines| else 0
  }

  predicate WithinLimits(s: State, pathOk: string -> bool) {
    && s.parsed == Items(s.file.hunks) + Open(s) <= MAX_ITEMS
    && (s.file.oldPath.Some? ==> pathOk(s.file.oldPath.value))
  }

  lemma {:induction false} ItemsAppend(hunks: seq<Hunk>, h: Hunk)
    ensures Items(hunks + [h]) == Items(hunks) + 1 + |h.lines|
  {
    if hunks == [] {
      assert (hunks + [h])[1..] == [];
    } else {
      assert (hunks + [h])[0] == hunks[0] && (hunks + [h])[1..] == hunks[1..] + [h];
      ItemsAppend(hunks[1..], h);
    }
  }

  lemma PushingCounts(s: State)
    requires PushHunk(s).Ok?
    ensures var after := PushHunk(s).value;
      && Items(after.file.hunks) == Items(s.file.hunks) + Open(s)
      && after.current.None? && after.parsed == s.parsed && after.file.oldPath == s.file.oldPath
  {
    if s.current.Some? { ItemsAppend(s.file.hunks, s.current.value); }
  }

  lemma StepStaysWithinLimits(s: State, line: string, pathOk: string -> bool)
    requires WithinLimits(s, pathOk)
    ensures var r := StepLine(s, line, pathOk);
      r.Ok? ==> WithinLimits(r.value, pathOk) && ByteLength(line) <= MAX_RECORD
  {
    hide Classify, TrimPrefixes, ByteLength, Items, NoNewlineMarker, ParseHeader, PushHunk;
    if PushHunk(s).Ok? { PushingCounts(s); }
    if ParseHeader(line).Ok? { OpensEmpty(line); }
  }

  lemma OpensEmpty(line: string)
    requires ParseHeader(line).Ok?
    ensures ParseHeader(line).value.lines == []
  {
    hide FindText, Fields, Trim, ParseRange;
  }

  lemma {:induction false} StepsStayWithinLimits(s: State, lines: seq<string>, pathOk: string -> bool)
    requires WithinLimits(s, pathOk) && StepLines(s, lines, pathOk).Ok?
    ensures WithinLimits(StepLines(s, lines, pathOk).value, pathOk)
    ensures forall line | line in lines :: ByteLength(line) <= MAX_RECORD
    decreases |lines|
  {
    hide StepLine, WithinLimits, ByteLength;
    if lines != [] {
      StepStaysWithinLimits(s, lines[0], pathOk);
      StepsStayWithinLimits(StepLine(s, lines[0], pathOk).value, lines[1..], pathOk);
      assert forall line | line in lines :: line == lines[0] || line in lines[1..];
    }
  }

  /** Every accepted text is within the limits on lines and items, and its old path passed the check. */
  lemma EveryResultIsBounded(text: string, pathOk: string -> bool)
    requires Parse(text, pathOk).Ok?
    ensures var file := Parse(text, pathOk).value;
      && Items(file.hunks) <= MAX_ITEMS && (file.oldPath.Some? ==> pathOk(file.oldPath.value))
      && forall line | line in SplitTerminator(text) :: ByteLength(line) <= MAX_RECORD
  {
    hide StepLines, SplitTerminator, PushHunk, ByteLength, WithinLimits, Items;
    StartIsWithinLimits(pathOk);
    StepsStayWithinLimits(Start, SplitTerminator(text), pathOk);
    FinishIsWithinLimits(StepLines(Start, SplitTerminator(text), pathOk).value, pathOk);
  }

  lemma FinishIsWithinLimits(s: State, pathOk: string -> bool)
    requires WithinLimits(s, pathOk) && PushHunk(s).Ok?
    ensures var file := PushHunk(s).value.file;
      Items(file.hunks) <= MAX_ITEMS && (file.oldPath.Some? ==> pathOk(file.oldPath.value))
  {
    hide PushHunk, Items;
    PushingCounts(s);
  }

  lemma StartIsWithinLimits(pathOk: string -> bool)
    ensures WithinLimits(Start, pathOk)
  {
  }
}
