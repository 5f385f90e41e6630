/** Paged `git log`: one streaming process is kept between pages and must agree with the one-shot
    query it speeds up. A process is a byte stream cut into arbitrary chunks; each
    character here stands for one byte of it. */
module LogPager {
  import opened Wrappers
  import opened Text
  import opened LogArgs

  const RECORD_END: char := '\U{001E}'
  const MAX_MESSAGE: nat := 4 * 1024 * 1024
  const MAX_STDOUT: nat := 64 * 1024 * 1024
  const USIZE_MAX: nat := 0xFFFF_FFFF_FFFF_FFFF

  datatype LogError =
    | ReadFailed | MissingTerminator | RecordTooLarge
    | PageTooLarge | ListFull | MessageTooLarge | BadRecord(record: string)
    | OffsetOverflow | ProcessFailed | OutputTooLarge | InvalidOptions(cause: OptionsError)

  // ---------------------------------------------------------------- histories and their records

  /** A listed commit; its fields come from the record parser, which is left abstract. */
  datatype Commit = Commit(fields: seq<string>)

  /** The repository as git shows it while the history does not change: the records it lists under given
      filters, whether HEAD exists, and the parser of one record (left abstract). */
  datatype Git = Git(history: Filters -> seq<string>, hasHead: bool, parse: string -> Option<Commit>)

  /** What git lists for an argument list: it skips and counts after filtering. */
  function Listing(git: Git, args: seq<string>): seq<string> {
    match ReadLog(args)
    case None => []
    case Some(command) => Slice(git.history(command.filters), command.skip, command.maxCount)
  }

  /** What git puts into one record: never empty, no leading newline, no record separator. */
  ghost predicate GitRecord(record: string) {
    record != [] && record[0] != '\n' && RECORD_END !in record
  }

  ghost predicate GitRecords(records: seq<string>) {
    forall i | 0 <= i < |records| :: GitRecord(records[i])
  }

  /** Git separates records by newlines, each closed by the record separator. */
  function Frame(record: string, first: bool): string {
    if first then record else ['\n'] + record
  }

  function Output(records: seq<string>, first: bool): string {
    if records == [] then []
    else Frame(records[0], first) + [RECORD_END] + Output(records[1..], false)
  }

  function Slice(records: seq<string>, skip: nat, limit: Option<nat>): seq<string> {
    var rest := records[Min(skip, |records|)..];
    if limit.Some? then rest[..Min(limit.value, |rest|)] else rest
  }

  // ---------------------------------------------------------------- reading records

  function TrimNewlines(s: string): string {
    if s != [] && s[0] == '\n' then TrimNewlines(s[1..]) else s
  }

  /** What the next record of a stream is, however the stream is cut. */
  function NextRecord(rest: string): Result<Option<string>, LogError> {
    if rest == [] then Ok(None)
    else match IndexOf(rest, RECORD_END)
      case None => Err(if |rest| > MAX_MESSAGE + 1 then RecordTooLarge else MissingTerminator)
      case Some(i) => if i > MAX_MESSAGE then Err(RecordTooLarge) else Ok(Some(rest[..i]))
  }

  /** The checks and the parse of one non-empty record. */
  function ParseOne(parse: string -> Option<Commit>, record: string, listed: nat): Result<Commit, LogError> {
    if listed >= MAX_ITEMS then Err(ListFull)
    else if |record| > MAX_MESSAGE then Err(MessageTooLarge)
    else match parse(record)
      case None => Err(BadRecord(record))
      case Some(commit) => Ok(commit)
  }

  /** The commits of a list of records, or the first error. */
  function ParseRecords(parse: string -> Option<Commit>, records: seq<string>, acc: seq<Commit>)
    : Result<seq<Commit>, LogError>
  {
    if records == [] then Ok(acc)
    else
      match ParseOne(parse, records[0], |acc|)
      case Err(e) => Err(e)
      case Ok(commit) => ParseRecords(parse, records[1..], acc + [commit])
  }

  /** `parse_log_list_output`: the batch parser of a whole output. */
  function ParseOutput(parse: string -> Option<Commit>, text: string, acc: seq<Commit>): Result<seq<Commit>, LogError>
    decreases |text|
  {
    var end := IndexOf(text, RECORD_END);
    var record := TrimNewlines(if end.Some? then text[..end.value] else text);
    if record == [] then
      if end.None? then Ok(acc) else ParseOutput(parse, text[end.value + 1..], acc)
    else
      match ParseOne(parse, record, |acc|)
      case Err(e) => Err(e)
      case Ok(commit) =>
        if end.None? then Ok(acc + [commit]) else ParseOutput(parse, text[end.value + 1..], acc + [commit])
  }

  datatype PageRead = PageRead(commits: seq<Commit>, finished: bool, rest: string)

  datatype Progress = Progress(commits: seq<Commit>, pageBytes: nat, rest: string)

  /** One round of `read_page`: a record is read, measured, trimmed and, unless empty, parsed. */
  function TakeRecord(parse: string -> Option<Commit>, p: Progress): (r: Result<Option<Progress>, LogError>)
    ensures r.Ok? && r.value.Some? ==> |r.value.value.rest| < |p.rest|
  {
    match NextRecord(p.rest)
    case Err(e) => Err(e)
    case Ok(None) => Ok(None)
    case Ok(Some(record)) =>
      var after, total, trimmed := p.rest[|record| + 1..], p.pageBytes + |record|, TrimNewlines(record);
      if total > MAX_STDOUT then Err(PageTooLarge)
      else if trimmed == [] then Ok(Some(Progress(p.commits, total, after)))
      else match ParseOne(parse, trimmed, |p.commits|)
        case Err(e) => Err(e)
        case Ok(commit) => Ok(Some(Progress(p.commits + [commit], total, after)))
  }

  /** `read_page` on an unchunked stream. */
  function ReadPageFrom(parse: string -> Option<Commit>, limit: nat, p: Progress): Result<PageRead, LogError>
    decreases |p.rest|
  {
    if |p.commits| >= limit then Ok(PageRead(p.commits, false, p.rest))
    else match TakeRecord(parse, p)
      case Err(e) => Err(e)
      case Ok(None) => Ok(PageRead(p.commits, true, p.rest))
      case Ok(Some(next)) => ReadPageFrom(parse, limit, next)
  }

  // ---------------------------------------------------------------- a page is a slice

  /** The size limits of the streaming reader on a run of records. */
  predicate FitsPage(records: seq<string>, first: bool, pageBytes: nat) {
    records == [] || (
      var frame := Frame(records[0], first);
      |frame| <= MAX_MESSAGE && pageBytes + |frame| <= MAX_STDOUT && FitsPage(records[1..], false, pageBytes + |frame|))
  }

  lemma NextFrame(record: string, first: bool, tail: string)
    requires GitRecord(record)
    ensures var rest := Frame(record, first) + [RECORD_END] + tail;
      && IndexOf(rest, RECORD_END) == Some(|Frame(record, first)|)
      && rest[..|Frame(record, first)|] == Frame(record, first)
      && rest[|Frame(record, first)| + 1..] == tail
      && TrimNewlines(Frame(record, first)) == record
  {
    FirstCharAt(Frame(record, first), RECORD_END, tail);
    assert !first ==> Frame(record, first)[1..] == record;
  }

  /** One round of the streaming reader on the output of a history. */
  lemma TakeFrame(parse: string -> Option<Commit>, records: seq<string>, first: bool, acc: seq<Commit>, pageBytes: nat)
    requires GitRecords(records) && records != []
    ensures var size := |Frame(records[0], first)|;
      TakeRecord(parse, Progress(acc, pageBytes, Output(records, first)))
      == if size > MAX_MESSAGE then Err(RecordTooLarge)
         else if pageBytes + size > MAX_STDOUT then Err(PageTooLarge)
         else match ParseOne(parse, records[0], |acc|)
           case Err(e) => Err(e)
           case Ok(commit) => Ok(Some(Progress(acc + [commit], pageBytes + size, Output(records[1..], false))))
  {
    hide IndexOf, TrimNewlines, ParseOne, Frame;
    var framed, tail := Frame(records[0], first), Output(records[1..], false);
    assert GitRecord(records[0]) && Output(records, first) == framed + [RECORD_END] + tail;
    NextFrame(records[0], first, tail);
  }

  lemma EmptyPrefix(
      parse: string -> Option<Commit>, records: seq<string>, first: bool, acc: seq<Commit>, pageBytes: nat)
    ensures records[..0] == [] && records[0..] == records && Output([], first) == []
    ensures ParseRecords(parse, [], acc) == Ok(acc) && FitsPage([], first, pageBytes)
  {
  }

  lemma TakeNothing(parse: string -> Option<Commit>, acc: seq<Commit>, pageBytes: nat)
    ensures TakeRecord(parse, Progress(acc, pageBytes, [])) == Ok(None)
  {
  }

  /** A page and the records it covers: success exactly when the records fit and parse, exactly
      their commits, exactly the records after them left, and the end reported exactly when the
      records ran out. */
  ghost predicate PageAgrees(
      page: Result<PageRead, LogError>, parsed: Result<seq<Commit>, LogError>, fits: bool,
      left: string, total: nat, limit: nat)
  {
    && (page.Ok? <==> fits && parsed.Ok?)
    && (page.Ok? ==>
          && page.value.commits == parsed.value
          && page.value.rest == left
          && (page.value.finished <==> total < limit)
          && |parsed.value| == total)
  }

  lemma {:induction false} PageIsSlice(
      parse: string -> Option<Commit>, records: seq<string>, first: bool, limit: nat, acc: seq<Commit>, pageBytes: nat)
    requires GitRecords(records) && |acc| <= limit
    ensures var n := Min(limit - |acc|, |records|);
      PageAgrees(
        ReadPageFrom(parse, limit, Progress(acc, pageBytes, Output(records, first))),
        ParseRecords(parse, records[..n], acc), FitsPage(records[..n], first, pageBytes),
        Output(records[n..], first && n == 0), |acc| + n, limit)
    decreases |records|
  {
    hide TakeRecord, NextRecord, ParseOne, ParseRecords, FitsPage, Output, Frame;
    if |acc| == limit || records == [] {
      EmptyPrefix(parse, records, first, acc, pageBytes);
      TakeNothing(parse, acc, pageBytes);
    } else {
      var n := Min(limit - |acc|, |records|);
      var tail, one, size := records[1..], ParseOne(parse, records[0], |acc|), |Frame(records[0], first)|;
      TakeFrame(parse, records, first, acc, pageBytes);
      PrefixStep(parse, records, first, n, acc, pageBytes);
      if size <= MAX_MESSAGE && pageBytes + size <= MAX_STDOUT && one.Ok? {
        PageIsSlice(parse, tail, false, limit, acc + [one.value], pageBytes + size);
      }
    }
  }

  lemma PrefixStep(
      parse: string -> Option<Commit>, records: seq<string>, first: bool, n: nat, acc: seq<Commit>, pageBytes: nat)
    requires 0 < n <= |records|
    ensures var tail, one, size := records[1..], ParseOne(parse, records[0], |acc|), |Frame(records[0], first)|;
      && records[n..] == tail[n - 1..]
      && ParseRecords(parse, records[..n], acc)
         == (if one.Err? then Err(one.error) else ParseRecords(parse, tail[..n - 1], acc + [one.value]))
      && (FitsPage(records[..n], first, pageBytes)
          <==> && size <= MAX_MESSAGE && pageBytes + size <= MAX_STDOUT
               && FitsPage(tail[..n - 1], false, pageBytes + size))
  {
    var page := records[..n];
    assert page[0] == records[0] && page[1..] == records[1..][..n - 1];
  }

  // ---------------------------------------------------------------- records of any text

  /** A part between two separators, unless only newlines are in it. */
  function Kept(part: string): seq<string> {
    var trimmed := TrimNewlines(part);
    if trimmed == [] then [] else [trimmed]
  }

  /** What both readers take for records: the parts between separators, without newlines in front and
      without empty ones. */
  function PiecesOf(text: string): seq<string>
    decreases |text|
  {
    match IndexOf(text, RECORD_END)
    case None => Kept(text)
    case Some(i) => Kept(text[..i]) + PiecesOf(text[i + 1..])
  }

  function Pieces(records: seq<string>): seq<string> {
    if records == [] then [] else PiecesOf(records[0]) + Pieces(records[1..])
  }

  lemma TrimmedHead(s: string)
    ensures TrimNewlines(s) != [] ==> TrimNewlines(s)[0] != '\n'
    ensures s != [] && s[0] != '\n' ==> TrimNewlines(s) == s
    ensures TrimNewlines(['\n'] + s) == TrimNewlines(s)
    ensures RECORD_END !in s ==> RECORD_END !in TrimNewlines(s)
  {
    assert (['\n'] + s)[1..] == s;
  }

  lemma {:induction false} PiecesAreGitRecords(text: string)
    ensures GitRecords(PiecesOf(text))
    decreases |text|
  {
    hide IndexOf, TrimNewlines;
    match IndexOf(text, RECORD_END)
    case None => TrimmedHead(text);
    case Some(i) => TrimmedHead(text[..i]); PiecesAreGitRecords(text[i + 1..]);
  }

  lemma {:induction false} AllPiecesAreGitRecords(records: seq<string>)
    ensures GitRecords(Pieces(records))
  {
    hide PiecesOf, GitRecord;
    if records != [] {
      PiecesAreGitRecords(records[0]);
      AllPiecesAreGitRecords(records[1..]);
    }
  }

  lemma PieceOfGitRecord(record: string)
    requires GitRecord(record)
    ensures PiecesOf(record) == [record]
  {
    hide TrimNewlines;
    TrimmedHead(record);
  }

  lemma {:induction false} GitRecordsAreTheirPieces(records: seq<string>)
    requires GitRecords(records)
    ensures Pieces(records) == records
  {
    hide PiecesOf, GitRecord;
    if records != [] {
      PieceOfGitRecord(records[0]);
      assert forall i | 0 <= i < |records| - 1 :: records[1..][i] == records[i + 1];
      GitRecordsAreTheirPieces(records[1..]);
    }
  }

  /** The readers see the records as they are exactly when none is empty, starts with a newline or holds
      a separator. */
  lemma PiecesAreTheRecordsExactlyForGit(records: seq<string>)
    ensures Pieces(records) == records <==> GitRecords(records)
  {
    AllPiecesAreGitRecords(records);
    if GitRecords(records) { GitRecordsAreTheirPieces(records); }
  }

  lemma {:induction false} PiecesOfClosed(a: string, b: string)
    ensures PiecesOf(a + [RECORD_END] + b) == PiecesOf(a) + PiecesOf(b)
    decreases |a|
  {
    hide IndexOf, Kept;
    var s := a + [RECORD_END] + b;
    match IndexOf(a, RECORD_END)
    case None =>
      FirstCharAt(a, RECORD_END, b);
      assert s[..|a|] == a && s[|a| + 1..] == b;
    case Some(i) =>
      SeparatorStaysFirst(a, [RECORD_END] + b, i);
      assert a + ([RECORD_END] + b) == s;
      CutBehind(a, b, i);
      PiecesOfClosed(a[i + 1..], b);
      SameFront(Kept(a[..i]), PiecesOf(a[i + 1..]), PiecesOf(b));
  }

  lemma CutBehind(a: string, b: string, i: nat)
    requires i < |a|
    ensures var s := a + [RECORD_END] + b; s[..i] == a[..i] && s[i + 1..] == a[i + 1..] + [RECORD_END] + b
  {
  }

  lemma SameFront(a: seq<string>, b: seq<string>, c: seq<string>)
    ensures a + (b + c) == a + b + c
  {
  }

  lemma SeparatorStaysFirst(a: string, b: string, i: nat)
    requires IndexOf(a, RECORD_END) == Some(i)
    ensures IndexOf(a + b, RECORD_END) == Some(i)
  {
    hide IndexOf;
    assert forall j | 0 <= j < |a| :: (a + b)[j] == a[j];
  }

  lemma PiecesOfFrame(record: string, first: bool)
    ensures PiecesOf(Frame(record, first)) == PiecesOf(record)
  {
    hide IndexOf, TrimNewlines;
    if !first {
      var framed := ['\n'] + record;
      match IndexOf(record, RECORD_END)
      case None =>
        assert RECORD_END !in framed;
        TrimmedHead(record);
      case Some(i) =>
        assert framed[i + 1] == RECORD_END && forall j | 0 <= j < i + 1 :: framed[j] != RECORD_END;
        assert framed[..i + 1] == ['\n'] + record[..i] && framed[i + 2..] == record[i + 1..];
        TrimmedHead(record[..i]);
    }
  }

  lemma {:induction false} PiecesOfOutput(records: seq<string>, first: bool)
    ensures PiecesOf(Output(records, first)) == Pieces(records)
    decreases |records|
  {
    hide PiecesOf, Frame;
    if records == [] {
      assert PiecesOf([]) == [] by { NoPieces(); }
    } else {
      PiecesOfClosed(Frame(records[0], first), Output(records[1..], false));
      PiecesOfFrame(records[0], first);
      PiecesOfOutput(records[1..], false);
    }
  }

  lemma NoPieces()
    ensures PiecesOf([]) == []
  {
  }

  lemma {:induction false} ParsedByPieces(parse: string -> Option<Commit>, text: string, acc: seq<Commit>)
    ensures ParseOutput(parse, text, acc) == ParseRecords(parse, PiecesOf(text), acc)
    decreases |text|
  {
    hide IndexOf, TrimNewlines, ParseOne;
    match IndexOf(text, RECORD_END)
    case None => ParseKept(parse, text, [], acc);
    case Some(i) =>
      var trimmed, rest := TrimNewlines(text[..i]), text[i + 1..];
      ParseKept(parse, text[..i], PiecesOf(rest), acc);
      var one := ParseOne(parse, trimmed, |acc|);
      if trimmed == [] {
        ParsedByPieces(parse, rest, acc);
      } else if one.Ok? {
        ParsedByPieces(parse, rest, acc + [one.value]);
      }
  }

  lemma ParseKept(parse: string -> Option<Commit>, part: string, more: seq<string>, acc: seq<Commit>)
    ensures var one := ParseOne(parse, TrimNewlines(part), |acc|);
      ParseRecords(parse, Kept(part) + more, acc)
      == if TrimNewlines(part) == [] then ParseRecords(parse, more, acc)
         else if one.Err? then Err(one.error) else ParseRecords(parse, more, acc + [one.value])
    ensures Kept(part) + [] == Kept(part)
  {
    hide TrimNewlines, ParseOne;
    if TrimNewlines(part) == [] {
      assert Kept(part) + more == more;
    } else {
      assert (Kept(part) + more)[0] == TrimNewlines(part) && (Kept(part) + more)[1..] == more;
    }
  }

  /** For records of any text the batch parser reads the pieces. */
  lemma OutputParsesAsPieces(parse: string -> Option<Commit>, records: seq<string>, first: bool, acc: seq<Commit>)
    ensures ParseOutput(parse, Output(records, first), acc) == ParseRecords(parse, Pieces(records), acc)
  {
    hide ParseOutput, ParseRecords, PiecesOf, Output;
    ParsedByPieces(parse, Output(records, first), acc);
    PiecesOfOutput(records, first);
  }

  /** The batch parser reads the output of a history record by record. */
  lemma OutputParsesAsRecords(parse: string -> Option<Commit>, records: seq<string>, first: bool, acc: seq<Commit>)
    requires GitRecords(records)
    ensures ParseOutput(parse, Output(records, first), acc) == ParseRecords(parse, records, acc)
  {
    OutputParsesAsPieces(parse, records, first, acc);
    GitRecordsAreTheirPieces(records);
  }

  // ---------------------------------------------------------------- streamed pages of any text

  /** The parts of a text, each followed by a separator in the stream. */
  function PartsOf(text: string): seq<string>
    decreases |text|
  {
    match IndexOf(text, RECORD_END)
    case None => [text]
    case Some(i) => [text[..i]] + PartsOf(text[i + 1..])
  }

  function Parts(records: seq<string>, first: bool): seq<string> {
    if records == [] then [] else PartsOf(Frame(records[0], first)) + Parts(records[1..], false)
  }

  function Closed(parts: seq<string>): string {
    if parts == [] then [] else parts[0] + [RECORD_END] + Closed(parts[1..])
  }

  function KeptAll(parts: seq<string>): seq<string> {
    if parts == [] then [] else Kept(parts[0]) + KeptAll(parts[1..])
  }

  predicate NoSeparators(parts: seq<string>) {
    forall part | part in parts :: RECORD_END !in part
  }

  lemma {:induction false} ClosedConcat(a: seq<string>, b: seq<string>)
    ensures Closed(a + b) == Closed(a) + Closed(b) && KeptAll(a + b) == KeptAll(a) + KeptAll(b)
    decreases |a|
  {
    hide Kept;
    if a == [] {
      assert a + b == b;
    } else {
      assert (a + b)[0] == a[0] && (a + b)[1..] == a[1..] + b;
      ClosedConcat(a[1..], b);
      assert a[0] + [RECORD_END] + (Closed(a[1..]) + Closed(b)) == Closed(a) + Closed(b);
    }
  }

  lemma {:induction false} PartsOfText(text: string)
    ensures Closed(PartsOf(text)) == text + [RECORD_END]
    ensures KeptAll(PartsOf(text)) == PiecesOf(text) && NoSeparators(PartsOf(text))
    decreases |text|
  {
    hide IndexOf, Kept;
    match IndexOf(text, RECORD_END)
    case None =>
      assert [text][1..] == [] && text + [RECORD_END] + [] == text + [RECORD_END];
    case Some(i) =>
      var rest := PartsOf(text[i + 1..]);
      PartsOfText(text[i + 1..]);
      assert ([text[..i]] + rest)[1..] == rest;
      assert text == text[..i] + [RECORD_END] + text[i + 1..];
      assert text[..i] + [RECORD_END] + (text[i + 1..] + [RECORD_END]) == text + [RECORD_END];
  }

  lemma {:induction false} PartsOfOutput(records: seq<string>, first: bool)
    ensures Closed(Parts(records, first)) == Output(records, first)
    ensures KeptAll(Parts(records, first)) == Pieces(records) && NoSeparators(Parts(records, first))
    decreases |records|
  {
    hide PartsOf, PiecesOf, Frame;
    if records != [] {
      var framed := Frame(records[0], first);
      PartsOfText(framed);
      PiecesOfFrame(records[0], first);
      PartsOfOutput(records[1..], false);
      ClosedConcat(PartsOf(framed), Parts(records[1..], false));
    }
  }

  /** How many parts a page takes to find `want` pieces. */
  function PartsTaken(parts: seq<string>, want: nat): (m: nat)
    ensures m <= |parts|
  {
    if want == 0 || parts == [] then 0
    else 1 + PartsTaken(parts[1..], if Kept(parts[0]) == [] then want else want - 1)
  }

  lemma {:induction false} PartsTakenGiveWanted(parts: seq<string>, want: nat)
    ensures var n := Min(want, |KeptAll(parts)|); KeptAll(parts[..PartsTaken(parts, want)]) == KeptAll(parts)[..n]
    decreases |parts|
  {
    if want > 0 && parts != [] {
      var later := if Kept(parts[0]) == [] then want else want - 1;
      var m := PartsTaken(parts[1..], later);
      PartsTakenGiveWanted(parts[1..], later);
      assert parts[..m + 1][0] == parts[0] && parts[..m + 1][1..] == parts[1..][..m];
    }
  }

  /** The size limits on the parts a page reads, empty ones included. */
  predicate PartsFit(parts: seq<string>, pageBytes: nat) {
    parts == [] || (
      |parts[0]| <= MAX_MESSAGE && pageBytes + |parts[0]| <= MAX_STDOUT && PartsFit(parts[1..], pageBytes + |parts[0]|))
  }

  lemma TakePart(parse: string -> Option<Commit>, parts: seq<string>, acc: seq<Commit>, pageBytes: nat)
    requires parts != [] && RECORD_END !in parts[0]
    ensures var size, one := |parts[0]|, ParseOne(parse, TrimNewlines(parts[0]), |acc|);
      TakeRecord(parse, Progress(acc, pageBytes, Closed(parts)))
      == if size > MAX_MESSAGE then Err(RecordTooLarge)
         else if pageBytes + size > MAX_STDOUT then Err(PageTooLarge)
         else if TrimNewlines(parts[0]) == [] then Ok(Some(Progress(acc, pageBytes + size, Closed(parts[1..]))))
         else if one.Err? then Err(one.error)
         else Ok(Some(Progress(acc + [one.value], pageBytes + size, Closed(parts[1..]))))
  {
    hide IndexOf, TrimNewlines, ParseOne;
    var rest := Closed(parts[1..]);
    FirstCharAt(parts[0], RECORD_END, rest);
    var all := parts[0] + [RECORD_END] + rest;
    assert Closed(parts) == all && all[..|parts[0]|] == parts[0] && all[|parts[0]| + 1..] == rest;
  }

  lemma PartsStep(parse: string -> Option<Commit>, parts: seq<string>, m: nat, acc: seq<Commit>, pageBytes: nat)
    requires 0 < m <= |parts|
    ensures var tail, size := parts[1..], |parts[0]|;
      && parts[m..] == tail[m - 1..]
      && KeptAll(parts[..m]) == Kept(parts[0]) + KeptAll(tail[..m - 1])
      && (PartsFit(parts[..m], pageBytes)
          <==> size <= MAX_MESSAGE && pageBytes + size <= MAX_STDOUT && PartsFit(tail[..m - 1], pageBytes + size))
  {
    hide Kept;
    assert parts[..m][0] == parts[0] && parts[..m][1..] == parts[1..][..m - 1];
  }

  /** One round of a page on parts. */
  lemma ReadPart(parse: string -> Option<Commit>, parts: seq<string>, limit: nat, acc: seq<Commit>, pageBytes: nat)
    requires parts != [] && RECORD_END !in parts[0] && |acc| < limit
    ensures var size, tail, one := |parts[0]|, Closed(parts[1..]), ParseOne(parse, TrimNewlines(parts[0]), |acc|);
      ReadPageFrom(parse, limit, Progress(acc, pageBytes, Closed(parts)))
      == if size > MAX_MESSAGE then Err(RecordTooLarge)
         else if pageBytes + size > MAX_STDOUT then Err(PageTooLarge)
         else if TrimNewlines(parts[0]) == [] then ReadPageFrom(parse, limit, Progress(acc, pageBytes + size, tail))
         else if one.Err? then Err(one.error)
         else ReadPageFrom(parse, limit, Progress(acc + [one.value], pageBytes + size, tail))
  {
    hide TakeRecord, ParseOne, Closed, TrimNewlines;
    TakePart(parse, parts, acc, pageBytes);
  }

  lemma TakenStep(parts: seq<string>, want: nat)
    requires want > 0 && parts != []
    ensures var none := TrimNewlines(parts[0]) == [];
      && PartsTaken(parts, want) == 1 + PartsTaken(parts[1..], if none then want else want - 1)
      && |Kept(parts[0])| == if none then 0 else 1
  {
    hide TrimNewlines;
  }

  /** A page on parts takes them until it has enough pieces: it succeeds exactly when they fit and parse,
      and then holds exactly their commits and leaves exactly the later parts. */
  ghost predicate PartsAgree(
      parse: string -> Option<Commit>, parts: seq<string>, limit: nat, acc: seq<Commit>, pageBytes: nat)
    requires |acc| <= limit
  {
    var m := PartsTaken(parts, limit - |acc|);
    PageAgrees(
      ReadPageFrom(parse, limit, Progress(acc, pageBytes, Closed(parts))),
      ParseRecords(parse, KeptAll(parts[..m]), acc), PartsFit(parts[..m], pageBytes),
      Closed(parts[m..]), |acc| + |KeptAll(parts[..m])|, limit)
  }

  lemma PartsAgreeStep(
      parse: string -> Option<Commit>, parts: seq<string>, limit: nat, acc: seq<Commit>, pageBytes: nat)
    requires parts != [] && RECORD_END !in parts[0] && |acc| < limit
    requires var one := ParseOne(parse, TrimNewlines(parts[0]), |acc|);
      |parts[0]| <= MAX_MESSAGE && pageBytes + |parts[0]| <= MAX_STDOUT ==>
        if TrimNewlines(parts[0]) == [] then PartsAgree(parse, parts[1..], limit, acc, pageBytes + |parts[0]|)
        else one.Ok? ==> PartsAgree(parse, parts[1..], limit, acc + [one.value], pageBytes + |parts[0]|)
    ensures PartsAgree(parse, parts, limit, acc, pageBytes)
  {
    hide TakeRecord, ParseOne, ParseRecords, PartsFit, Closed, KeptAll, TrimNewlines, Kept, PartsTaken, ReadPageFrom;
    var m := PartsTaken(parts, limit - |acc|);
    TakenStep(parts, limit - |acc|);
    ReadPart(parse, parts, limit, acc, pageBytes);
    PartsStep(parse, parts, m, acc, pageBytes);
    ParseKept(parse, parts[0], KeptAll(parts[1..][..m - 1]), acc);
  }

  /** This holds for a streamed page of any text. */
  lemma {:induction false} PageIsParts(
      parse: string -> Option<Commit>, parts: seq<string>, limit: nat, acc: seq<Commit>, pageBytes: nat)
    requires NoSeparators(parts) && |acc| <= limit
    ensures PartsAgree(parse, parts, limit, acc, pageBytes)
    decreases |parts|
  {
    hide ParseOne, TrimNewlines, PartsAgree;
    if |acc| == limit || parts == [] {
      PartsAgreeAtEnd(parse, parts, limit, acc, pageBytes);
    } else {
      var tail, size := parts[1..], |parts[0]|;
      var one := ParseOne(parse, TrimNewlines(parts[0]), |acc|);
      assert NoSeparators(tail) && RECORD_END !in parts[0];
      PageIsParts(parse, tail, limit, acc, pageBytes + size);
      if one.Ok? { PageIsParts(parse, tail, limit, acc + [one.value], pageBytes + size); }
      PartsAgreeStep(parse, parts, limit, acc, pageBytes);
    }
  }

  lemma PartsAgreeAtEnd(
      parse: string -> Option<Commit>, parts: seq<string>, limit: nat, acc: seq<Commit>, pageBytes: nat)
    requires |acc| <= limit && (|acc| == limit || parts == [])
    ensures PartsAgree(parse, parts, limit, acc, pageBytes)
  {
    hide TakeRecord, ParseRecords, PartsFit, Closed, KeptAll;
    NoParts(parse, parts, acc, pageBytes);
  }

  lemma NoParts(parse: string -> Option<Commit>, parts: seq<string>, acc: seq<Commit>, pageBytes: nat)
    ensures parts[..0] == [] && parts[0..] == parts && KeptAll([]) == [] && PartsFit([], pageBytes)
    ensures ParseRecords(parse, [], acc) == Ok(acc)
    ensures TakeRecord(parse, Progress(acc, pageBytes, Closed([]))) == Ok(None)
  {
  }

  /** For records of any text a streamed page that succeeds holds the commits of the first `limit` pieces,
      and reports the end exactly when there are fewer. */
  lemma StreamedPageIsPieces(parse: string -> Option<Commit>, records: seq<string>, first: bool, limit: nat)
    ensures var page := ReadPageFrom(parse, limit, Progress([], 0, Output(records, first)));
      var pieces := Pieces(records);
      page.Ok? ==>
        && Ok(page.value.commits) == ParseRecords(parse, pieces[..Min(limit, |pieces|)], [])
        && (page.value.finished <==> |pieces| < limit)
  {
    hide ReadPageFrom, ParseRecords, PartsFit, Closed, KeptAll, PartsTaken, Output, Parts, Pieces;
    var parts := Parts(records, first);
    PartsOfOutput(records, first);
    PageIsParts(parse, parts, limit, [], 0);
    PartsTakenGiveWanted(parts, limit);
  }

  /** `run_log`: one process for one page. */
  function OneShot(git: Git, options: LogOptions): Result<seq<Commit>, LogError> {
    var refused := OptionsCheck(options);
    if refused.Some? then Err(InvalidOptions(refused.value))
    else if options.start.None? && !git.hasHead then Ok([])
    else
      var output := Output(Listing(git, BuildLogArgs(options, true)), true);
      if |output| > MAX_STDOUT then Err(OutputTooLarge) else ParseOutput(git.parse, output, [])
  }

  /** The records a query asks for. */
  function Asked(git: Git, options: LogOptions): seq<string> {
    git.history(FiltersOf(options))
  }

  /** The page a caller is promised: the commits of the records under its filters, from `skip` up to the
      limit. */
  function PromisedPage(git: Git, options: LogOptions): Result<seq<Commit>, LogError> {
    if options.start.None? && !git.hasHead then Ok([])
    else ParseRecords(git.parse, Slice(Asked(git, options), options.skip, options.limit), [])
  }

  ghost predicate GitHistory(git: Git) {
    forall filters: Filters | filters.format == Some(LIST_FORMAT) :: GitRecords(git.history(filters))
  }

  /** The arguments of both processes list what the options ask for: one page, or everything. */
  lemma ListingsAreAsked(git: Git, options: LogOptions)
    requires OptionsCheck(options).None?
    ensures Listing(git, BuildLogArgs(options, true))
      == Slice(Asked(git, options), options.skip, options.limit)
    ensures Listing(git, BuildLogArgs(options, false)) == Asked(git, options)
  {
    hide BuildLogArgs, ReadLog;
    ArgsSayTheOptions(options, true);
    ArgsSayTheOptions(options, false);
    var records := git.history(FiltersOf(options));
    assert records[0..] == records;
  }

  lemma AskedAreGitRecords(git: Git, options: LogOptions)
    requires GitHistory(git)
    ensures GitRecords(Asked(git, options))
  {
    assert FiltersOf(options).format == Some(LIST_FORMAT);
  }

  /** What the one-shot process prints, when it runs. */
  lemma AskedSlice(git: Git, options: LogOptions)
    requires GitHistory(git) && OptionsCheck(options).None?
    ensures var page := Slice(Asked(git, options), options.skip, options.limit);
      GitRecords(page) && Listing(git, BuildLogArgs(options, true)) == page
  {
    hide BuildLogArgs, ReadLog, Listing;
    ListingsAreAsked(git, options);
    AskedAreGitRecords(git, options);
  }

  lemma OneShotIsPromised(git: Git, options: LogOptions)
    requires GitHistory(git)
    ensures OneShot(git, options).Ok? ==> OneShot(git, options) == PromisedPage(git, options)
  {
    hide ParseOutput, ParseRecords, Output, Slice, Listing, BuildLogArgs, Asked, OptionsCheck;
    if OneShot(git, options).Ok? && (options.start.Some? || git.hasHead) {
      AskedSlice(git, options);
      OutputParsesAsRecords(git.parse, Slice(Asked(git, options), options.skip, options.limit), true, []);
    }
  }

  lemma {:induction false} FitsFollowsFromOutput(records: seq<string>, first: bool, pageBytes: nat)
    requires pageBytes + |Output(records, first)| <= MAX_STDOUT + |records|
    ensures FitsPage(records, first, pageBytes)
      <==> forall i | 0 <= i < |records| :: |Frame(records[i], first && i == 0)| <= MAX_MESSAGE
    decreases |records|
  {
    if records != [] {
      OutputClosesRecords(records[1..], false);
      FitsFollowsFromOutput(records[1..], false, pageBytes + |Frame(records[0], first)|);
      var tail := records[1..];
      assert forall i | 0 <= i < |tail| :: tail[i] == records[i + 1];
      assert forall i | 0 < i < |records| :: records[i] == tail[i - 1];
    }
  }

  lemma {:induction false} OutputClosesRecords(records: seq<string>, first: bool)
    ensures |Output(records, first)| >= |records|
    decreases |records|
  {
    if records != [] { OutputClosesRecords(records[1..], false); }
  }

  lemma {:induction false} ParsedRecordsAreBounded(
      parse: string -> Option<Commit>, records: seq<string>, acc: seq<Commit>)
    requires ParseRecords(parse, records, acc).Ok?
    ensures forall i | 0 <= i < |records| :: |records[i]| <= MAX_MESSAGE
    decreases |records|
  {
    if records != [] {
      var commit := ParseOne(parse, records[0], |acc|).value;
      ParsedRecordsAreBounded(parse, records[1..], acc + [commit]);
      assert forall i | 0 < i < |records| :: records[i] == records[1..][i - 1];
    }
  }

  /** How far the speed-up agrees: when the one-shot query of a page succeeds, the streaming page
      succeeds too unless some record of exactly the maximal size is framed with a newline. The reader
      counts the newline, the batch parser trims it before it counts. */
  lemma StreamingFailsOnlyOnMaximalRecords(git: Git, options: LogOptions)
    requires GitHistory(git) && OneShot(git, options).Ok?
    requires options.limit.Some? && (options.start.Some? || git.hasHead)
    requires options.skip <= |Asked(git, options)|
    ensures var records := Asked(git, options);
      var page := Slice(records, options.skip, options.limit);
      var rest := Output(records[options.skip..], options.skip == 0);
      ReadPageFrom(git.parse, options.limit.value, Progress([], 0, rest)).Ok?
      <==> forall i | 0 <= i < |page| :: |page[i]| == MAX_MESSAGE ==> options.skip == 0 && i == 0
  {
    hide ReadPageFrom, ParseRecords, ParseOutput, FitsPage, Output, Asked, OptionsCheck, Listing, BuildLogArgs;
    var records := Asked(git, options);
    AskedAreGitRecords(git, options);
    AskedSlice(git, options);
    var first, rest := options.skip == 0, records[options.skip..];
    var n := Min(options.limit.value, |rest|);
    var page := Slice(records, options.skip, options.limit);
    assert page == rest[..n];
    PageIsSlice(git.parse, rest, first, options.limit.value, [], 0);
    OutputParsesAsRecords(git.parse, page, true, []);
    ParsedRecordsAreBounded(git.parse, page, []);
    OutputGrowsByNewline(page, first);
    FitsFollowsFromOutput(page, first, 0);
    assert forall i | 0 <= i < |page| ::
        |Frame(page[i], first && i == 0)| <= MAX_MESSAGE
        <==> (|page[i]| == MAX_MESSAGE ==> first && i == 0);
  }

  lemma OutputGrowsByNewline(records: seq<string>, first: bool)
    ensures |Output(records, first)| <= |Output(records, true)| + (if records == [] then 0 else 1)
  {
  }

  /** The other way round: when a page succeeds, the one-shot query for it is refused exactly when its
      whole output is too large. The page limit leaves the separators out. */
  lemma OneShotFailsOnlyOnItsSize(git: Git, options: LogOptions)
    requires GitHistory(git) && OptionsCheck(options).None?
    requires options.limit.Some? && (options.start.Some? || git.hasHead)
    requires options.skip <= |Asked(git, options)|
    requires var rest := Asked(git, options)[options.skip..];
      ReadPageFrom(git.parse, options.limit.value, Progress([], 0, Output(rest, options.skip == 0))).Ok?
    ensures var page := Slice(Asked(git, options), options.skip, options.limit);
      OneShot(git, options).Ok? <==> |Output(page, true)| <= MAX_STDOUT
  {
    hide ReadPageFrom, ParseRecords, ParseOutput, FitsPage, Output, Asked, OptionsCheck, Listing, BuildLogArgs;
    var records := Asked(git, options);
    AskedAreGitRecords(git, options);
    AskedSlice(git, options);
    var page := Slice(records, options.skip, options.limit);
    PageIsSlice(git.parse, records[options.skip..], options.skip == 0, options.limit.value, [], 0);
    OutputParsesAsRecords(git.parse, page, true, []);
  }

  // ---------------------------------------------------------------- when the readers agree on any text

  /** Every record is one piece, except that the last ones may be none. */
  predicate OnePiecePerRecord(records: seq<string>) {
    forall i | 0 <= i < |records| :: |PiecesOf(records[i])| == if i < |Pieces(records)| then 1 else 0
  }

  lemma {:induction false} PiecesConcat(a: seq<string>, b: seq<string>)
    ensures Pieces(a + b) == Pieces(a) + Pieces(b)
    decreases |a|
  {
    hide PiecesOf;
    if a == [] {
      assert a + b == b;
    } else {
      assert (a + b)[0] == a[0] && (a + b)[1..] == a[1..] + b;
      PiecesConcat(a[1..], b);
    }
  }

  /** The records up to `n` give a prefix of all pieces, and one record more gives that record's. */
  lemma PiecesOfPrefix(records: seq<string>, n: nat)
    requires n <= |records|
    ensures Pieces(records[..n]) <= Pieces(records)
    ensures n < |records| ==> |Pieces(records[..n + 1])| == |Pieces(records[..n])| + |PiecesOf(records[n])|
  {
    hide PiecesOf;
    assert records == records[..n] + records[n..];
    PiecesConcat(records[..n], records[n..]);
    if n < |records| {
      assert records[..n + 1] == records[..n] + [records[n]] && [records[n]][1..] == [];
      PiecesConcat(records[..n], [records[n]]);
    }
  }

  /** What a page and the one-shot query for it see of a listing. */
  predicate SamePieces(records: seq<string>, n: nat)
    requires n <= |records|
  {
    Pieces(records[..n]) == Pieces(records)[..Min(n, |Pieces(records)|)]
  }

  lemma SamePiecesByCount(records: seq<string>, n: nat)
    requires n <= |records|
    ensures SamePieces(records, n) <==> |Pieces(records[..n])| == Min(n, |Pieces(records)|)
  {
    hide Pieces;
    PiecesOfPrefix(records, n);
  }

  lemma {:induction false} CountedPieces(records: seq<string>, n: nat)
    requires OnePiecePerRecord(records) && n <= |records|
    ensures |Pieces(records[..n])| == Min(n, |Pieces(records)|)
  {
    hide PiecesOf;
    if n > 0 {
      CountedPieces(records, n - 1);
      PiecesOfPrefix(records, n - 1);
    }
  }

  /** The readers see the same of every page exactly when every record is one piece, up to empty ones at
      the end. */
  lemma SamePiecesExactlyWithOnePerRecord(records: seq<string>)
    ensures (forall n: nat | n <= |records| :: SamePieces(records, n)) <==> OnePiecePerRecord(records)
  {
    hide PiecesOf, Pieces;
    if forall n: nat | n <= |records| :: SamePieces(records, n) {
      forall i | 0 <= i < |records|
        ensures |PiecesOf(records[i])| == if i < |Pieces(records)| then 1 else 0
      {
        SamePiecesByCount(records, i);
        SamePiecesByCount(records, i + 1);
        PiecesOfPrefix(records, i);
      }
    }
    if OnePiecePerRecord(records) {
      forall n: nat | n <= |records|
        ensures SamePieces(records, n)
      {
        CountedPieces(records, n);
        SamePiecesByCount(records, n);
      }
    }
  }

  /** A page of `n` records and the one-shot query for it both fail, or both give the same commits. */
  predicate ReadersAgree(parse: string -> Option<Commit>, records: seq<string>, first: bool, n: nat)
    requires n <= |records|
  {
    var page := ReadPageFrom(parse, n, Progress([], 0, Output(records, first)));
    var oneShot := ParseOutput(parse, Output(records[..n], true), []);
    (page.Ok? <==> oneShot.Ok?) && (page.Ok? ==> page.value.commits == oneShot.value)
  }

  /** No limit is met anywhere in the listing. */
  predicate WithinLimits(records: seq<string>, first: bool) {
    && PartsFit(Parts(records, first), 0) && |Pieces(records)| <= MAX_ITEMS
    && forall piece | piece in Pieces(records) :: |piece| <= MAX_MESSAGE
  }

  lemma {:induction false} PrefixFits(parts: seq<string>, m: nat, pageBytes: nat)
    requires PartsFit(parts, pageBytes) && m <= |parts|
    ensures PartsFit(parts[..m], pageBytes)
    decreases m
  {
    if m > 0 {
      PrefixFits(parts[1..], m - 1, pageBytes + |parts[0]|);
      assert parts[..m][0] == parts[0] && parts[..m][1..] == parts[1..][..m - 1];
    }
  }

  /** Both readers parse pieces: the page the first `n`, the one-shot query those of `n` records. */
  lemma ReadersSeePieces(parse: string -> Option<Commit>, records: seq<string>, first: bool, n: nat)
    requires WithinLimits(records, first) && n <= |records|
    ensures var page := ReadPageFrom(parse, n, Progress([], 0, Output(records, first)));
      var parsed := ParseRecords(parse, Pieces(records)[..Min(n, |Pieces(records)|)], []);
      && (page.Ok? <==> parsed.Ok?) && (page.Ok? ==> page.value.commits == parsed.value)
      && ParseOutput(parse, Output(records[..n], true), []) == ParseRecords(parse, Pieces(records[..n]), [])
  {
    hide ReadPageFrom, ParseRecords, PartsFit, Closed, KeptAll, PartsTaken, Output, Parts, Pieces, ParseOutput;
    var parts := Parts(records, first);
    PartsOfOutput(records, first);
    PageIsParts(parse, parts, n, [], 0);
    PartsTakenGiveWanted(parts, n);
    PrefixFits(parts, PartsTaken(parts, n), 0);
    OutputParsesAsPieces(parse, records[..n], true, []);
  }

  function AsIs(record: string): Option<Commit> { Some(Commit([record])) }

  function CommitsOf(records: seq<string>): (r: seq<Commit>)
    ensures |r| == |records| && forall i | 0 <= i < |records| :: r[i] == Commit([records[i]])
  {
    seq(|records|, i requires 0 <= i < |records| => Commit([records[i]]))
  }

  lemma {:induction false} ParsedAsIs(records: seq<string>, acc: seq<Commit>)
    requires |acc| + |records| <= MAX_ITEMS && forall record | record in records :: |record| <= MAX_MESSAGE
    ensures ParseRecords(AsIs, records, acc) == Ok(acc + CommitsOf(records))
    decreases |records|
  {
    if records == [] {
      assert acc + CommitsOf(records) == acc;
    } else {
      ParsedAsIs(records[1..], acc + [Commit([records[0]])]);
      assert acc + [Commit([records[0]])] + CommitsOf(records[1..]) == acc + CommitsOf(records);
    }
  }

  lemma CommitsTellRecords(a: seq<string>, b: seq<string>)
    requires CommitsOf(a) == CommitsOf(b)
    ensures a == b
  {
    forall i | 0 <= i < |a|
      ensures a[i] == b[i]
    {
      assert CommitsOf(a)[i] == CommitsOf(b)[i];
    }
  }

  /** Short of the limits, pages and one-shot queries agree for every parser exactly when every record is
      one piece, up to empty ones at the end. */
  lemma ReadersAgreeExactlyWithOnePiecePerRecord(records: seq<string>, first: bool)
    requires WithinLimits(records, first)
    ensures (forall parse: string -> Option<Commit>, n: nat | n <= |records| :: ReadersAgree(parse, records, first, n))
      <==> OnePiecePerRecord(records)
  {
    hide ReadersAgree, OnePiecePerRecord, WithinLimits;
    SamePiecesExactlyWithOnePerRecord(records);
    if OnePiecePerRecord(records) {
      forall parse: string -> Option<Commit>, n: nat | n <= |records|
        ensures ReadersAgree(parse, records, first, n)
      {
        SamePiecesAgree(parse, records, first, n);
      }
    }
    if forall parse: string -> Option<Commit>, n: nat | n <= |records| :: ReadersAgree(parse, records, first, n) {
      forall n: nat | n <= |records|
        ensures SamePieces(records, n)
      {
        AgreeingSeeSamePieces(records, first, n);
      }
    }
  }

  lemma SamePiecesAgree(parse: string -> Option<Commit>, records: seq<string>, first: bool, n: nat)
    requires WithinLimits(records, first) && n <= |records| && SamePieces(records, n)
    ensures ReadersAgree(parse, records, first, n)
  {
    hide ReadPageFrom, ParseRecords, Output, Pieces, ParseOutput, WithinLimits;
    ReadersSeePieces(parse, records, first, n);
  }

  lemma AgreeingSeeSamePieces(records: seq<string>, first: bool, n: nat)
    requires WithinLimits(records, first) && n <= |records| && ReadersAgree(AsIs, records, first, n)
    ensures SamePieces(records, n)
  {
    hide ReadPageFrom, ParseRecords, Output, Pieces, ParseOutput, PartsFit, Parts;
    var pieces := Pieces(records);
    var mine := Pieces(records[..n]);
    PiecesOfPrefix(records, n);
    ReadersSeePieces(AsIs, records, first, n);
    assert mine == pieces[..|mine|];
    ParsedAsIs(mine, []);
    ParsedAsIs(pieces[..Min(n, |pieces|)], []);
    assert [] + CommitsOf(mine) == CommitsOf(mine);
    assert [] + CommitsOf(pieces[..Min(n, |pieces|)]) == CommitsOf(pieces[..Min(n, |pieces|)]);
    CommitsTellRecords(mine, pieces[..Min(n, |pieces|)]);
  }

  lemma SeparatorAtTheEndIsHarmless(record: string)
    ensures PiecesOf(record + [RECORD_END]) == PiecesOf(record)
  {
    PiecesOfClosed(record, []);
    NoPieces();
    assert record + [RECORD_END] + [] == record + [RECORD_END] && PiecesOf(record) + [] == PiecesOf(record);
  }

  /** A separator inside a commit's subject, with more text behind it: the second half is no record, so the
      one-shot parser refuses the listing, while a page of one commit succeeds with the subject cut. */
  lemma SeparatorInSubjectMakesThemDisagree(parse: string -> Option<Commit>, a: string, b: string)
    requires GitRecord(a) && GitRecord(b) && |a| <= MAX_MESSAGE && |b| <= MAX_MESSAGE
    requires parse(a).Some? && parse(b).None?
    ensures var output := Output([a + [RECORD_END] + b], true);
      && ParseOutput(parse, output, []) == Err(BadRecord(b))
      && ReadPageFrom(parse, 1, Progress([], 0, output)) == Ok(PageRead([parse(a).value], false, b + [RECORD_END]))
  {
    hide ParseOutput, ReadPageFrom, Output;
    SecondHalfIsRefused(parse, a, b);
    FirstHalfIsAPage(parse, a, b);
  }

  lemma SecondHalfIsRefused(parse: string -> Option<Commit>, a: string, b: string)
    requires GitRecord(a) && GitRecord(b) && |a| <= MAX_MESSAGE && |b| <= MAX_MESSAGE
    requires parse(a).Some? && parse(b).None?
    ensures ParseOutput(parse, Output([a + [RECORD_END] + b], true), []) == Err(BadRecord(b))
  {
    hide ParseOutput, Output, Pieces;
    TwoPieces(a, b);
    OutputParsesAsPieces(parse, [a + [RECORD_END] + b], true, []);
    assert [a, b][1..] == [b] && [] + [parse(a).value] == [parse(a).value];
  }

  lemma FirstHalfIsAPage(parse: string -> Option<Commit>, a: string, b: string)
    requires GitRecord(a) && |a| <= MAX_MESSAGE && parse(a).Some?
    ensures ReadPageFrom(parse, 1, Progress([], 0, Output([a + [RECORD_END] + b], true)))
      == Ok(PageRead([parse(a).value], false, b + [RECORD_END]))
  {
    hide IndexOf, TrimNewlines;
    TrimmedHead(a);
    var rest := b + [RECORD_END];
    var output := a + [RECORD_END] + rest;
    OneRecordOutput(a + [RECORD_END] + b);
    assert a + [RECORD_END] + b + [RECORD_END] == output;
    FirstCharAt(a, RECORD_END, rest);
    assert output[..|a|] == a && output[|a| + 1..] == rest;
    assert [] + [parse(a).value] == [parse(a).value];
    assert TakeRecord(parse, Progress([], 0, output)) == Ok(Some(Progress([parse(a).value], |a|, rest)));
  }

  lemma OneRecordOutput(record: string)
    ensures Output([record], true) == record + [RECORD_END]
  {
    assert [record][1..] == [] && record + [RECORD_END] + [] == record + [RECORD_END];
  }

  lemma TwoPieces(a: string, b: string)
    requires GitRecord(a) && GitRecord(b)
    ensures Pieces([a + [RECORD_END] + b]) == [a, b]
  {
    hide PiecesOf, GitRecord;
    PiecesOfClosed(a, b);
    PieceOfGitRecord(a);
    PieceOfGitRecord(b);
    assert [a + [RECORD_END] + b][1..] == [];
  }

  // ---------------------------------------------------------------- the streaming process

  /** A buffered reader over a process: each fill shows some non-empty part of what is left, of any
      length, or fails. */
  class ByteSource {
    var rest: string

    constructor (bytes: string)
      ensures rest == bytes
    {
      rest := bytes;
    }

    method FillBuf() returns (r: Result<string, LogError>)
      ensures r.Ok? ==> r.value <= rest && (r.value == [] <==> rest == [])
      ensures r.Err? ==> r.error == ReadFailed
    {
      if * {
        return Err(ReadFailed);
      }
      if rest == [] {
        return Ok([]);
      }
      var n :| 1 <= n <= |rest|;
      return Ok(rest[..n]);
    }

    method Consume(n: nat)
      requires n <= |rest|
      modifies this
      ensures rest == old(rest)[n..]
    {
      rest := rest[n..];
    }
  }

  lemma NoEndBefore(seen: string, rest: string)
    requires RECORD_END !in seen
    ensures IndexOf(seen + rest, RECORD_END)
      == (match IndexOf(rest, RECORD_END) case None => None case Some(i) => Some(|seen| + i))
  {
    hide IndexOf;
    var all := seen + rest;
    assert forall j | 0 <= j < |seen| :: all[j] == seen[j];
    assert forall j | 0 <= j < |rest| :: all[|seen| + j] == rest[j];
  }

  lemma NextAtEnd(seen: string)
    requires RECORD_END !in seen && |seen| <= MAX_MESSAGE + 1
    ensures NextRecord(seen) == if seen == [] then Ok(None) else Err(MissingTerminator)
  {
    hide IndexOf;
  }

  lemma NextAtDelimiter(seen: string, chunk: string, rest: string, d: nat)
    requires RECORD_END !in seen && chunk <= rest && IndexOf(chunk, RECORD_END) == Some(d)
    ensures NextRecord(seen + rest)
      == if |seen| + d > MAX_MESSAGE then Err(RecordTooLarge) else Ok(Some(seen + chunk[..d]))
    ensures (seen + rest)[|seen| + d + 1..] == rest[d + 1..]
  {
    hide IndexOf;
    assert forall j | 0 <= j < |chunk| :: chunk[j] == rest[j];
    NoEndBefore(seen, rest);
    assert (seen + rest)[..|seen| + d] == seen + chunk[..d];
  }

  lemma NextTooLong(seen: string, chunk: string, rest: string)
    requires RECORD_END !in seen && chunk <= rest && RECORD_END !in chunk && |seen| + |chunk| > MAX_MESSAGE + 1
    ensures NextRecord(seen + rest) == Err(RecordTooLarge)
  {
    hide IndexOf;
    assert forall j | 0 <= j < |chunk| :: chunk[j] == rest[j];
    NoEndBefore(seen, rest);
  }

  lemma ConsumedSplit(seen: string, chunk: string, rest: string, take: nat)
    requires chunk <= rest && take <= |chunk|
    ensures seen + rest == seen + chunk[..take] + rest[take..]
  {
    assert rest == chunk[..take] + rest[take..];
  }

  /** The reader's outcome does not depend on how the stream is cut: on every chunking it returns the
      next record, the end, or the same refusal, unless reading itself fails. */
  method ReadLogRecord(reader: ByteSource) returns (r: Result<Option<string>, LogError>)
    modifies reader
    ensures r == NextRecord(old(reader.rest)) || r == Err(ReadFailed)
    ensures r == Ok(None) ==> old(reader.rest) == reader.rest == []
    ensures r.Ok? && r.value.Some? ==> |r.value.value| < |old(reader.rest)|
    ensures r.Ok? && r.value.Some? ==> reader.rest == old(reader.rest)[|r.value.value| + 1..]
  {
    hide IndexOf, NextRecord;
    var record := [];
    while true
      invariant old(reader.rest) == record + reader.rest
      invariant RECORD_END !in record && |record| <= MAX_MESSAGE + 1
      decreases |reader.rest|
    {
      var buffer :- reader.FillBuf();
      if buffer == [] {
        NextAtEnd(record);
        assert old(reader.rest) == record;
        return if record == [] then Ok(None) else Err(MissingTerminator);
      }
      var delimiter := IndexOf(buffer, RECORD_END);
      var take := if delimiter.Some? then delimiter.value + 1 else |buffer|;
      if delimiter.Some? {
        NextAtDelimiter(record, buffer, reader.rest, delimiter.value);
      }
      if |record| + take > MAX_MESSAGE + 1 {
        if delimiter.None? {
          NextTooLong(record, buffer, reader.rest);
        }
        return Err(RecordTooLarge);
      }
      ghost var seen := record;
      ConsumedSplit(record, buffer, reader.rest, take);
      record := record + buffer[..take];
      reader.Consume(take);
      if delimiter.Some? {
        record := record[..|record| - 1];
        assert record == seen + buffer[..delimiter.value];
        return Ok(Some(record));
      }
    }
  }

  /** The streaming process of one query. `offset` counts the commits already paged out. */
  class LogPager {
    const key: LogQueryKey
    var offset: nat
    const stdout: ByteSource
    var finished: bool

    constructor (key: LogQueryKey, output: string)
      ensures this.key == key && offset == 0 && !finished
      ensures fresh(stdout) && stdout.rest == output
    {
      this.key := key;
      offset := 0;
      finished := false;
      stdout := new ByteSource(output);
    }

    /** Reads up to `limit` commits. Unless reading, exit status or the offset fails, the outcome is
        that of the unchunked stream. */
    method ReadPage(parse: string -> Option<Commit>, limit: nat) returns (r: Result<(seq<Commit>, bool), LogError>)
      modifies this, stdout
      ensures var page := ReadPageFrom(parse, limit, Progress([], 0, old(stdout.rest)));
        && (r.Ok? ==>
              page.Ok? && r.value == (page.value.commits, page.value.finished) && stdout.rest == page.value.rest)
        && (r.Err? ==> page == Err(r.error) || r.error in {ReadFailed, ProcessFailed, OffsetOverflow})
      ensures r.Ok? && !r.value.1 ==> offset == old(offset) + |r.value.0|
    {
      hide NextRecord, ParseOne, TrimNewlines;
      var commits: seq<Commit>, pageBytes: nat := [], 0;
      ghost var start := Progress([], 0, stdout.rest);
      while |commits| < limit
        invariant ReadPageFrom(parse, limit, start)
          == ReadPageFrom(parse, limit, Progress(commits, pageBytes, stdout.rest))
        invariant offset == old(offset)
        decreases |stdout.rest|
      {
        ghost var current := Progress(commits, pageBytes, stdout.rest);
        var record :- ReadLogRecord(stdout);
        if record.None? {
          var _ :- Finish();
          return Ok((commits, true));
        }
        pageBytes := pageBytes + |record.value|;
        if pageBytes > MAX_STDOUT {
          return Err(PageTooLarge);
        }
        var trimmed := TrimNewlines(record.value);
        if trimmed == [] {
          continue;
        }
        var commit := ParseOne(parse, trimmed, |commits|);
        if commit.Err? {
          return Err(commit.error);
        }
        commits := commits + [commit.value];
      }
      if offset + |commits| > USIZE_MAX {
        return Err(OffsetOverflow);
      }
      offset := offset + |commits|;
      return Ok((commits, false));
    }

    /** Waits for the process; its exit status is the environment's. */
    method Finish() returns (r: Result<(), LogError>)
      modifies `finished
      ensures r == Ok(()) || r == Err(ProcessFailed)
    {
      if * {
        return Err(ProcessFailed);
      }
      finished := true;
      if * {
        return Err(ProcessFailed);
      }
      return Ok(());
    }
  }

  /** The slot that keeps at most one pager between calls. */
  class LogPagerSlot {
    const git: Git
    var current: LogPager?

    /** The kept process has shown exactly the first `offset` records of its query. */
    ghost predicate Valid()
      reads this, current, if current == null then {} else {current.stdout}
    {
      && GitHistory(git)
      && (current != null ==>
            var records := Asked(git, OptionsOf(current.key));
            && current.offset <= |records|
            && current.stdout.rest == Output(records[current.offset..], current.offset == 0))
    }

    constructor (git: Git)
      requires GitHistory(git)
      ensures Valid() && current == null && this.git == git
    {
      this.git := git;
      current := null;
    }

    method HasLogStart(options: LogOptions) returns (r: Result<bool, LogError>)
      ensures r.Ok? ==> r.value == (options.start.Some? || git.hasHead)
    {
      if * {
        return Err(ProcessFailed);
      }
      return Ok(options.start.Some? || git.hasHead);
    }

    method RunLog(options: LogOptions) returns (r: Result<seq<Commit>, LogError>)
      ensures r == OneShot(git, options) || r == Err(ProcessFailed)
      ensures OptionsCheck(options).Some? ==> r == OneShot(git, options)
    {
      if OptionsCheck(options).Some? {
        return Err(InvalidOptions(OptionsCheck(options).value));
      }
      if * {
        return Err(ProcessFailed);
      }
      return OneShot(git, options);
    }

    /** Whether a page is read from a streaming process: a new one for the first page, the kept one
        if it stands exactly where the page starts. */
    predicate Streams(options: LogOptions)
      reads this, current
    {
      options.skip == 0 || (current != null && current.key == KeyOf(options) && current.offset == options.skip)
    }

    /** Whatever pages were asked for before, with whatever queries and outcomes, a page that is
        returned is the promised slice of the history. A process is kept exactly after a full page
        that was streamed, and then it stands at the next page. */
    method RunLogPaged(options: LogOptions) returns (r: Result<seq<Commit>, LogError>)
      requires Valid()
      modifies this, current, if current == null then {} else {current.stdout}
      ensures Valid()
      ensures current != null && current != old(current) ==> fresh(current) && fresh(current.stdout)
      ensures current != null && current == old(current) ==> current.stdout == old(current.stdout)
      ensures OptionsCheck(options).Some? ==> r == Err(InvalidOptions(OptionsCheck(options).value))
      ensures r.Ok? ==> r == PromisedPage(git, options)
      ensures r.Ok? && options.limit.Some? && options.limit.value > 0 && (options.start.Some? || git.hasHead) ==>
        && (current != null <==> old(Streams(options)) && |r.value| == options.limit.value)
        && (current != null ==> current.key == KeyOf(options) && current.offset == options.skip + |r.value|)
      ensures r.Err? ==> current == null || (current == old(current) && current.offset == old(current.offset))
    {
      hide ReadPageFrom, OneShot, PromisedPage, Output, BuildLogArgs, Listing, OptionsCheck, Asked;
      var refused := OptionsCheck(options);
      if refused.Some? {
        return Err(InvalidOptions(refused.value));
      }
      if options.limit.None? {
        OneShotIsPromised(git, options);
        r := RunLog(options);
        return;
      }
      var limit := options.limit.value;
      if limit == 0 {
        EmptyPageIsPromised(git, options);
        return Ok([]);
      }
      var started :- HasLogStart(options);
      if !started {
        NoStartIsEmpty(git, options);
        return Ok([]);
      }
      var key := KeyOf(options);
      AskedByKey(git, options);
      ListingsAreAsked(git, options);
      ghost var records := Asked(git, options);
      PageIsPromised(git, options, records);
      if options.skip == 0 {
        current := null;
        if * {
          return Err(ProcessFailed);
        }
        var pager := new LogPager(key, Output(Listing(git, BuildLogArgs(options, false)), true));
        var page :- pager.ReadPage(git.parse, limit);
        if !page.1 {
          current := pager;
        }
        return Ok(page.0);
      }
      if current == null || current.key != key || current.offset != options.skip {
        current := null;
        OneShotIsPromised(git, options);
        r := RunLog(options);
        return;
      }
      var pager := current;
      var result := pager.ReadPage(git.parse, limit);
      if result.Err? {
        current := null;
        return Err(result.error);
      }
      if result.value.1 {
        current := null;
      }
      return Ok(result.value.0);
    }
  }

  lemma AskedByKey(git: Git, options: LogOptions)
    ensures Asked(git, OptionsOf(KeyOf(options))) == Asked(git, options)
  {
    SameListingExactlyForSameKey(options, options);
  }

  lemma EmptyPageIsPromised(git: Git, options: LogOptions)
    requires options.limit == Some(0)
    ensures PromisedPage(git, options) == Ok([])
  {
    var records := Asked(git, options);
    assert Slice(records, options.skip, options.limit) == [];
  }

  lemma NoStartIsEmpty(git: Git, options: LogOptions)
    requires options.start.None? && !git.hasHead
    ensures PromisedPage(git, options) == Ok([])
  {
  }

  /** A page read where the kept process stands is the promised page, and leaves it at the next one. */
  lemma PageIsPromised(git: Git, options: LogOptions, records: seq<string>)
    requires GitHistory(git) && records == Asked(git, options)
    requires options.limit.Some? && (options.start.Some? || git.hasHead)
    ensures options.skip <= |records| ==>
      var page := ReadPageFrom(
        git.parse, options.limit.value, Progress([], 0, Output(records[options.skip..], options.skip == 0)));
      page.Ok? ==>
        && Ok(page.value.commits) == PromisedPage(git, options)
        && (page.value.finished <==> |page.value.commits| < options.limit.value)
        && (!page.value.finished ==>
              && |page.value.commits| == options.limit.value
              && options.skip + options.limit.value <= |records|
              && var next := options.skip + options.limit.value; page.value.rest == Output(records[next..], next == 0))
  {
    hide ReadPageFrom, ParseRecords, FitsPage, Output, Asked, Slice, PromisedPage;
    if options.skip <= |records| {
      var rest := records[options.skip..];
      AskedAreGitRecords(git, options);
      PageIsSlice(git.parse, rest, options.skip == 0, options.limit.value, [], 0);
      PromiseOfSlice(git, options, records);
    }
  }

  lemma PromiseOfSlice(git: Git, options: LogOptions, records: seq<string>)
    requires records == Asked(git, options) && options.skip <= |records|
    requires options.limit.Some? && (options.start.Some? || git.hasHead)
    ensures var rest := records[options.skip..];
      var n := Min(options.limit.value, |rest|);
      PromisedPage(git, options) == ParseRecords(git.parse, rest[..n], []) && rest[n..] == records[options.skip + n..]
  {
    hide ParseRecords, Asked;
  }
}
