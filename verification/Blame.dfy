/** The parser of `git blame --porcelain`: a commit's metadata is printed once and reused from a cache
    by every later line of that commit. */
module Blame {
  import opened Wrappers
  import opened Text

  const MAX_RECORD: nat := 64 * 1024
  const MAX_ITEMS: nat := 250_000

  datatype BlameLine =
    BlameLine(commit: string, author: string, time: int, lineNo: nat, subject: string, content: string)

  datatype CommitMeta = CommitMeta(author: Option<string>, time: Option<int>, subject: Option<string>)

  const NoMeta := CommitMeta(None, None, None)

  datatype BlameError =
    | ListFull | LineTooLong | MissingField | BadNumber | NotIncreasing | TooManyFields
    | BadTime | UnknownField | MissingContent | MissingMeta | UnsupportedTime

  const IGNORED := {"author-mail", "author-tz", "committer", "committer-mail", "committer-time", "committer-tz",
                    "boundary", "previous", "filename", "encoding"}

  // ---------------------------------------------------------------- one group of lines

  function LastNo(out: seq<BlameLine>): nat {
    if out == [] then 0 else out[|out| - 1].lineNo
  }

  /** The commit and the final line number of a header `<sha> <original> <final> [<count>]`. */
  function ParseHeader(header: string, last: nat): Result<(string, nat), BlameError> {
    var fields := Fields(header);
    if |fields| < 3 then Err(MissingField)
    else if ParseUnsigned(fields[1], U32_MAX).None? then Err(BadNumber)
    else
      match ParseUnsigned(fields[2], U32_MAX)
      case None => Err(BadNumber)
      case Some(lineNo) =>
        if lineNo == 0 then Err(BadNumber)
        else if lineNo <= last then Err(NotIncreasing)
        else if |fields| > 3 && ParseUnsigned(fields[3], U32_MAX).None? then Err(BadNumber)
        else if |fields| > 4 then Err(TooManyFields)
        else Ok((fields[0], lineNo))
  }

  function Key(line: string): string {
    var space := IndexOf(line, ' ');
    if space.Some? then line[..space.value] else line
  }

  function Rest(line: string): string {
    var space := IndexOf(line, ' ');
    if space.Some? then line[space.value + 1..] else []
  }

  function ReadMeta(meta: CommitMeta, line: string): Result<CommitMeta, BlameError> {
    var key, value := Key(line), Rest(line);
    if key == "author" then Ok(meta.(author := Some(value)))
    else if key == "author-time" then
      var time := ParseSigned(value);
      if time.None? then Err(BadTime) else Ok(meta.(time := time))
    else if key == "summary" then Ok(meta.(subject := Some(value)))
    else if key in IGNORED then Ok(meta)
    else Err(UnknownField)
  }

  datatype Group = Group(meta: CommitMeta, content: string, rest: seq<string>)

  /** Metadata lines up to the content line. */
  function ReadGroup(lines: seq<string>, meta: CommitMeta): (r: Result<Group, BlameError>)
    ensures r.Ok? ==> |r.value.rest| < |lines|
    decreases |lines|
  {
    if lines == [] then Err(MissingContent)
    else if ByteLength(lines[0]) > MAX_RECORD then Err(LineTooLong)
    else if "\t" <= lines[0] then Ok(Group(meta, lines[0][1..], lines[1..]))
    else
      var next :- ReadMeta(meta, lines[0]);
      ReadGroup(lines[1..], next)
  }

  function Complete(sha: string, lineNo: nat, meta: CommitMeta, content: string, supported: int -> bool)
    : Result<BlameLine, BlameError>
  {
    if meta.author.None? || meta.time.None? || meta.subject.None? then Err(MissingMeta)
    else if !supported(meta.time.value) then Err(UnsupportedTime)
    else Ok(BlameLine(sha, meta.author.value, meta.time.value, lineNo, meta.subject.value, content))
  }

  function MetaOf(metas: map<string, CommitMeta>, sha: string): CommitMeta {
    if sha in metas then metas[sha] else NoMeta
  }

  function ParseGroups(lines: seq<string>, metas: map<string, CommitMeta>, out: seq<BlameLine>, supported: int -> bool)
    : Result<seq<BlameLine>, BlameError>
    decreases |lines|
  {
    if lines == [] then Ok(out)
    else if |out| >= MAX_ITEMS then Err(ListFull)
    else if ByteLength(lines[0]) > MAX_RECORD then Err(LineTooLong)
    else
      var header :- ParseHeader(lines[0], LastNo(out));
      var group :- ReadGroup(lines[1..], MetaOf(metas, header.0));
      var line :- Complete(header.0, header.1, group.meta, group.content, supported);
      ParseGroups(group.rest, metas[header.0 := group.meta], out + [line], supported)
  }

  function Parse(text: string, supported: int -> bool): Result<seq<BlameLine>, BlameError> {
    ParseGroups(Lines(text), map[], [], supported)
  }

  method ParsePorcelain(text: string, supported: int -> bool) returns (r: Result<seq<BlameLine>, BlameError>)
    ensures r == Parse(text, supported)
  {
    hide ParseHeader, ReadMeta, ByteLength, Complete;
    var lines := Lines(text);
    var metas: map<string, CommitMeta>, out := map[], [];
    var next: nat := 0;
    while next < |lines|
      invariant next <= |lines|
      invariant ParseGroups(lines, map[], [], supported) == ParseGroups(lines[next..], metas, out, supported)
    {
      ghost var here := lines[next..];
      var line := lines[next];
      next := next + 1;
      assert here[1..] == lines[next..];
      if |out| >= MAX_ITEMS {
        return Err(ListFull);
      }
      if ByteLength(line) > MAX_RECORD {
        return Err(LineTooLong);
      }
      var header := ParseHeader(line, LastNo(out));
      if header.Err? {
        return Err(header.error);
      }
      var (sha, lineNo) := header.value;
      var meta := MetaOf(metas, sha);
      var content := None;
      ghost var group := ReadGroup(lines[next..], meta);
      while next < |lines| && content.None?
        invariant |lines| - |here| < next <= |lines|
        invariant content.None? ==> group == ReadGroup(lines[next..], meta)
        invariant content.Some? ==> group == Ok(Group(meta, content.value, lines[next..]))
        decreases |lines| - next
      {
        var inner := lines[next];
        assert lines[next..][1..] == lines[next + 1..];
        next := next + 1;
        if ByteLength(inner) > MAX_RECORD {
          return Err(LineTooLong);
        }
        if "\t" <= inner {
          content := Some(inner[1..]);
        } else {
          var read := ReadMeta(meta, inner);
          if read.Err? {
            return Err(read.error);
          }
          meta := read.value;
        }
      }
      if content.None? {
        return Err(MissingContent);
      }
      var entry := Complete(sha, lineNo, meta, content.value, supported);
      if entry.Err? {
        return Err(entry.error);
      }
      metas := metas[sha := meta];
      out := out + [entry.value];
    }
    return Ok(out);
  }

  // ---------------------------------------------------------------- what every result satisfies

  predicate Increasing(out: seq<BlameLine>) {
    && (forall i | 0 <= i < |out| :: 0 < out[i].lineNo <= U32_MAX)
    && forall i, j | 0 <= i < j < |out| :: out[i].lineNo < out[j].lineNo
  }

  lemma {:induction false} GroupsKeepIncreasing(
    lines: seq<string>, metas: map<string, CommitMeta>, out: seq<BlameLine>, supported: int -> bool)
    requires Increasing(out)
    ensures var r := ParseGroups(lines, metas, out, supported);
      r.Ok? ==>
        Increasing(r.value) && out <= r.value && (|out| <= MAX_ITEMS ==> |r.value| <= MAX_ITEMS)
    decreases |lines|
  {
    hide ByteLength, ReadGroup, Fields, ParseUnsigned;
    if lines != [] && ParseGroups(lines, metas, out, supported).Ok? {
      var header := ParseHeader(lines[0], LastNo(out)).value;
      HeaderNumber(lines[0], LastNo(out));
      var group := ReadGroup(lines[1..], MetaOf(metas, header.0)).value;
      var line := Complete(header.0, header.1, group.meta, group.content, supported).value;
      GroupsKeepIncreasing(group.rest, metas[header.0 := group.meta], out + [line], supported);
    }
  }

  lemma HeaderNumber(header: string, last: nat)
    ensures var r := ParseHeader(header, last); r.Ok? ==> last < r.value.1 <= U32_MAX
  {
    hide Fields;
  }

  lemma {:induction false} GroupLinesFit(lines: seq<string>, meta: CommitMeta)
    requires ReadGroup(lines, meta).Ok?
    ensures var rest := ReadGroup(lines, meta).value.rest;
      forall line | line in lines :: Fits(line) || line in rest
    decreases |lines|
  {
    hide ByteLength, ReadMeta;
    assert forall line | line in lines :: line == lines[0] || line in lines[1..];
    if !("\t" <= lines[0]) {
      GroupLinesFit(lines[1..], ReadMeta(meta, lines[0]).value);
    }
  }

  lemma {:induction false} AcceptedLinesFit(
    lines: seq<string>, metas: map<string, CommitMeta>, out: seq<BlameLine>, supported: int -> bool)
    requires ParseGroups(lines, metas, out, supported).Ok?
    ensures forall line | line in lines :: Fits(line)
    decreases |lines|
  {
    hide ByteLength, ReadGroup, ParseHeader;
    if lines != [] {
      var header := ParseHeader(lines[0], LastNo(out)).value;
      var group := ReadGroup(lines[1..], MetaOf(metas, header.0)).value;
      var line := Complete(header.0, header.1, group.meta, group.content, supported).value;
      GroupLinesFit(lines[1..], MetaOf(metas, header.0));
      AcceptedLinesFit(group.rest, metas[header.0 := group.meta], out + [line], supported);
      assert forall x | x in lines :: x == lines[0] || x in lines[1..];
    }
  }

  /** Whatever the text: a result has no more lines than allowed, with positive, strictly increasing
      numbers, and no line of the text was over the limit. */
  lemma EveryResultIsIncreasing(text: string, supported: int -> bool)
    ensures var r := Parse(text, supported);
      r.Ok? ==> Increasing(r.value) && |r.value| <= MAX_ITEMS && forall line | line in Lines(text) :: Fits(line)
  {
    hide ParseGroups, Lines;
    GroupsKeepIncreasing(Lines(text), map[], [], supported);
    if Parse(text, supported).Ok? { AcceptedLinesFit(Lines(text), map[], [], supported); }
  }

  // ---------------------------------------------------------------- printing

  datatype Commit = Commit(author: string, time: int, subject: string)

  /** One line of a file: its commit, its numbers, the metadata lines printed with it, its text. */
  datatype Entry =
    Entry(sha: string, original: nat, lineNo: nat, count: Option<nat>, block: seq<string>, content: string)

  type Commits = map<string, Commit>

  function PrintHeader(e: Entry): string {
    var last := if e.count.Some? then " " + PrintNat(e.count.value) else [];
    e.sha + " " + (PrintNat(e.original) + " " + (PrintNat(e.lineNo) + last))
  }

  function AuthorLine(c: Commit): string { "author " + c.author }

  function TimeLine(c: Commit): string { "author-time " + PrintInt(c.time) }

  function SummaryLine(c: Commit): string { "summary " + c.subject }

  /** The metadata the parser keeps. */
  function PrintMeta(c: Commit): seq<string> {
    [AuthorLine(c), TimeLine(c), SummaryLine(c)]
  }

  function PrintEntry(e: Entry): seq<string> {
    [PrintHeader(e)] + e.block + ["\t" + e.content]
  }

  predicate Known(entries: seq<Entry>, commits: Commits) {
    forall e | e in entries :: e.sha in commits
  }

  function PrintAll(entries: seq<Entry>): seq<string> {
    if entries == [] then [] else PrintEntry(entries[0]) + PrintAll(entries[1..])
  }

  function LineOf(e: Entry, commits: Commits): BlameLine
    requires e.sha in commits
  {
    var c := commits[e.sha];
    BlameLine(e.sha, c.author, c.time, e.lineNo, c.subject, e.content)
  }

  function LinesOf(entries: seq<Entry>, commits: Commits): seq<BlameLine>
    requires Known(entries, commits)
    decreases |entries|
  {
    if entries == [] then [] else [LineOf(entries[0], commits)] + LinesOf(entries[1..], commits)
  }

  predicate Fits(line: string) {
    ByteLength(line) <= MAX_RECORD
  }

  /** Metadata the parser reads over. */
  predicate IsExtra(line: string) {
    Fits(line) && !("\t" <= line) && Key(line) in IGNORED
  }

  /** A block of metadata lines for a commit: its own three and lines that are read over, in any order
      and any number, with all three of its own at the commit's first appearance. */
  predicate Describes(block: seq<string>, c: Commit, first: bool) {
    && (forall line | line in block :: line in PrintMeta(c) || IsExtra(line))
    && (first ==> forall line | line in PrintMeta(c) :: line in block)
  }

  /** The commits in `seen` appeared before. */
  predicate Described(entries: seq<Entry>, commits: Commits, seen: set<string>)
    requires Known(entries, commits)
    decreases |entries|
  {
    entries != [] ==>
      && Describes(entries[0].block, commits[entries[0].sha], entries[0].sha !in seen)
      && Described(entries[1..], commits, seen + {entries[0].sha})
  }

  predicate ShownCommit(c: Commit, supported: int -> bool) {
    && -I64_MAX - 1 <= c.time <= I64_MAX && supported(c.time)
    && forall line | line in PrintMeta(c) :: Fits(line)
  }

  predicate ShownEntry(e: Entry) {
    && e.sha != [] && NoWhitespace(e.sha)
    && e.original <= U32_MAX && 0 < e.lineNo <= U32_MAX && (e.count.Some? ==> e.count.value <= U32_MAX)
    && Fits(PrintHeader(e)) && Fits("\t" + e.content)
  }

  predicate Shown(entries: seq<Entry>, commits: Commits, supported: int -> bool) {
    ShownAfter(entries, commits, {}, supported)
  }

  predicate ShownAfter(entries: seq<Entry>, commits: Commits, seen: set<string>, supported: int -> bool) {
    && Known(entries, commits)
    && (forall sha | sha in commits :: ShownCommit(commits[sha], supported))
    && (forall e | e in entries :: ShownEntry(e))
    && Described(entries, commits, seen)
    && forall i, j | 0 <= i < j < |entries| :: entries[i].lineNo < entries[j].lineNo
  }

  lemma NumberIsField(n: nat)
    ensures PrintNat(n) != [] && NoWhitespace(PrintNat(n))
  {
    hide PrintNat;
    DigitsAreNotSpace(PrintNat(n));
  }

  function HeaderFields(e: Entry): seq<string> {
    [e.sha, PrintNat(e.original), PrintNat(e.lineNo)] + if e.count.Some? then [PrintNat(e.count.value)] else []
  }

  lemma HeaderSplits(e: Entry)
    requires e.sha != [] && NoWhitespace(e.sha)
    ensures Fields(PrintHeader(e)) == HeaderFields(e)
  {
    hide Fields, PrintNat, NoWhitespace;
    var original, lineNo := PrintNat(e.original), PrintNat(e.lineNo);
    var last := if e.count.Some? then " " + PrintNat(e.count.value) else [];
    NumberIsField(e.original);
    NumberIsField(e.lineNo);
    LastField(lineNo, e.count);
    NextField(original, lineNo + last);
    NextField(e.sha, original + " " + (lineNo + last));
    assert PrintHeader(e) == e.sha + " " + (original + " " + (lineNo + last));
  }

  lemma NextField(field: string, rest: string)
    requires field != [] && NoWhitespace(field)
    ensures Fields(field + " " + rest) == [field] + Fields(rest)
  {
    hide Fields;
    FieldThenRest(field, " " + rest);
    assert field + (" " + rest) == field + " " + rest && (" " + rest)[1..] == rest;
  }

  lemma LastField(lineNo: string, count: Option<nat>)
    requires lineNo != [] && NoWhitespace(lineNo)
    ensures Fields(lineNo + if count.Some? then " " + PrintNat(count.value) else [])
      == [lineNo] + if count.Some? then [PrintNat(count.value)] else []
  {
    hide Fields, PrintNat, NoWhitespace;
    if count.Some? {
      var n := PrintNat(count.value);
      NumberIsField(count.value);
      NextField(lineNo, n);
      assert lineNo + " " + n == lineNo + (" " + n);
      FieldThenRest(n, []);
      assert n + [] == n;
    } else {
      FieldThenRest(lineNo, []);
    }
  }

  lemma HeaderParses(e: Entry, last: nat)
    requires ShownEntry(e) && last < e.lineNo
    ensures ParseHeader(PrintHeader(e), last) == Ok((e.sha, e.lineNo))
  {
    hide Fields, PrintNat, PrintHeader, ParseUnsigned, NoWhitespace, ByteLength;
    HeaderSplits(e);
    ParsePrintedUnsigned(e.original, U32_MAX);
    ParsePrintedUnsigned(e.lineNo, U32_MAX);
    if e.count.Some? { ParsePrintedUnsigned(e.count.value, U32_MAX); }
  }

  lemma FieldLine(key: string, value: string)
    requires ' ' !in key && key != [] && key[0] != '\t'
    ensures Key(key + " " + value) == key && Rest(key + " " + value) == value && !("\t" <= key + " " + value)
  {
    var line := key + " " + value;
    FirstCharAt(key, ' ', value);
    assert line[..|key|] == key && line[|key| + 1..] == value && line[0] == key[0];
  }

  function FullMeta(c: Commit): CommitMeta {
    CommitMeta(Some(c.author), Some(c.time), Some(c.subject))
  }

  lemma MetaLineIsRead(lines: seq<string>, meta: CommitMeta)
    requires lines != [] && Fits(lines[0]) && !("\t" <= lines[0]) && ReadMeta(meta, lines[0]).Ok?
    ensures ReadGroup(lines, meta) == ReadGroup(lines[1..], ReadMeta(meta, lines[0]).value)
  {
  }

  lemma MetaLinesDiffer(c: Commit)
    ensures Key(AuthorLine(c)) == "author" && Rest(AuthorLine(c)) == c.author && !("\t" <= AuthorLine(c))
    ensures Key(TimeLine(c)) == "author-time" && Rest(TimeLine(c)) == PrintInt(c.time) && !("\t" <= TimeLine(c))
    ensures Key(SummaryLine(c)) == "summary" && Rest(SummaryLine(c)) == c.subject && !("\t" <= SummaryLine(c))
  {
    hide Key, Rest, PrintInt;
    FieldLine("author", c.author);
    FieldLine("author-time", PrintInt(c.time));
    FieldLine("summary", c.subject);
    assert "author" + " " + c.author == AuthorLine(c);
    assert "author-time" + " " + PrintInt(c.time) == TimeLine(c);
    assert "summary" + " " + c.subject == SummaryLine(c);
  }

  /** What is missing in a cache entry is still to be read. */
  predicate Completes(block: seq<string>, c: Commit, meta: CommitMeta) {
    && (meta.author == Some(c.author) || AuthorLine(c) in block)
    && (meta.time == Some(c.time) || TimeLine(c) in block)
    && (meta.subject == Some(c.subject) || SummaryLine(c) in block)
  }

  /** One line of a block is read, and the others are as good for what is then missing. */
  lemma BlockLineIsRead(block: seq<string>, c: Commit, meta: CommitMeta, supported: int -> bool)
    requires ShownCommit(c, supported) && Describes(block, c, false) && Completes(block, c, meta) && block != []
    ensures var line := block[0];
      && Fits(line) && !("\t" <= line) && ReadMeta(meta, line).Ok?
      && Completes(block[1..], c, ReadMeta(meta, line).value) && Describes(block[1..], c, false)
  {
    hide Key, Rest, Fits, AuthorLine, TimeLine, SummaryLine, PrintInt, ParseSigned;
    var line, rest := block[0], block[1..];
    assert forall x | x in block :: x == line || x in rest;
    assert forall x | x in rest :: x in block;
    MetaLinesDiffer(c);
    ParsePrintedSigned(c.time);
    assert line in PrintMeta(c) || IsExtra(line);
    assert AuthorLine(c) in PrintMeta(c) && TimeLine(c) in PrintMeta(c) && SummaryLine(c) in PrintMeta(c);
  }

  /** A block that completes a cache entry fills it, whatever the order of its lines. */
  lemma {:induction false} BlockIsRead(
    block: seq<string>, c: Commit, meta: CommitMeta, more: seq<string>, supported: int -> bool)
    requires ShownCommit(c, supported) && Describes(block, c, false) && Completes(block, c, meta)
    ensures ReadGroup(block + more, meta) == ReadGroup(more, FullMeta(c))
    decreases |block|
  {
    hide Key, Rest, ReadGroup, Fits, Describes, ShownCommit, ReadMeta, AuthorLine, TimeLine, SummaryLine;
    if block == [] {
      assert block + more == more && meta == FullMeta(c);
    } else {
      var all := block + more;
      assert all[0] == block[0] && all[1..] == block[1..] + more;
      BlockLineIsRead(block, c, meta, supported);
      MetaLineIsRead(all, meta);
      BlockIsRead(block[1..], c, ReadMeta(meta, block[0]).value, more, supported);
    }
  }

  lemma ContentIsRead(content: string, more: seq<string>, meta: CommitMeta)
    requires Fits("\t" + content)
    ensures ReadGroup(["\t" + content] + more, meta) == Ok(Group(meta, content, more))
  {
    var all := ["\t" + content] + more;
    assert all[1..] == more && ("\t" + content)[1..] == content;
  }

  /** What is cached: the metadata of the commits seen so far. */
  predicate Cached(metas: map<string, CommitMeta>, commits: Commits, seen: set<string>) {
    metas.Keys == seen && forall sha | sha in seen :: sha in commits && metas[sha] == FullMeta(commits[sha])
  }

  lemma GroupIsRead(
    e: Entry, commits: Commits, seen: set<string>, metas: map<string, CommitMeta>, more: seq<string>,
    supported: int -> bool)
    requires e.sha in commits && ShownEntry(e) && ShownCommit(commits[e.sha], supported) && Cached(metas, commits, seen)
    requires Describes(e.block, commits[e.sha], e.sha !in seen)
    ensures ReadGroup(PrintEntry(e)[1..] + more, MetaOf(metas, e.sha))
      == Ok(Group(FullMeta(commits[e.sha]), e.content, more))
  {
    hide ReadGroup, IsExtra, Fits;
    var c := commits[e.sha];
    GroupLines(PrintHeader(e), e.block, ["\t" + e.content], more);
    BlockIsRead(e.block, c, MetaOf(metas, e.sha), ["\t" + e.content] + more, supported);
    ContentIsRead(e.content, more, FullMeta(c));
  }

  lemma GroupLines(header: string, block: seq<string>, content: seq<string>, more: seq<string>)
    ensures ([header] + block + content)[1..] + more == block + (content + more)
  {
  }

  /** One printed entry read: its line is appended and its commit is cached. */
  lemma EntryIsRead(
    e: Entry, commits: Commits, seen: set<string>, metas: map<string, CommitMeta>, out: seq<BlameLine>,
    more: seq<string>, supported: int -> bool)
    requires e.sha in commits && ShownEntry(e) && ShownCommit(commits[e.sha], supported) && Cached(metas, commits, seen)
    requires Describes(e.block, commits[e.sha], e.sha !in seen)
    requires |out| < MAX_ITEMS && LastNo(out) < e.lineNo
    ensures ParseGroups(PrintEntry(e) + more, metas, out, supported)
      == ParseGroups(more, metas[e.sha := FullMeta(commits[e.sha])], out + [LineOf(e, commits)], supported)
    ensures Cached(metas[e.sha := FullMeta(commits[e.sha])], commits, seen + {e.sha})
  {
    hide ReadGroup, ParseHeader, PrintEntry, PrintMeta, PrintHeader, IsExtra, NoWhitespace, Describes;
    HeaderParses(e, LastNo(out));
    GroupIsRead(e, commits, seen, metas, more, supported);
    EntryStarts(e, more);
  }

  lemma {:induction false} GroupsAreRead(
    entries: seq<Entry>, commits: Commits, seen: set<string>, metas: map<string, CommitMeta>, out: seq<BlameLine>,
    supported: int -> bool)
    requires ShownAfter(entries, commits, seen, supported) && Cached(metas, commits, seen)
    requires |out| + |entries| <= MAX_ITEMS
    requires entries != [] ==> LastNo(out) < entries[0].lineNo
    ensures ParseGroups(PrintAll(entries), metas, out, supported) == Ok(out + LinesOf(entries, commits))
    decreases |entries|
  {
    hide PrintEntry, ShownEntry, ShownCommit, Cached, ParseGroups, Describes;
    if entries == [] {
      assert out + LinesOf(entries, commits) == out;
      NoGroups(metas, out, supported);
    } else {
      var e, rest := entries[0], entries[1..];
      ShownFirst(entries, commits, seen, supported);
      var grown := out + [LineOf(e, commits)];
      EntryIsRead(e, commits, seen, metas, out, PrintAll(rest), supported);
      GroupsAreRead(rest, commits, seen + {e.sha}, metas[e.sha := FullMeta(commits[e.sha])], grown, supported);
      LinesAppend(out, entries, commits);
    }
  }

  lemma LinesAppend(out: seq<BlameLine>, entries: seq<Entry>, commits: Commits)
    requires Known(entries, commits) && entries != []
    ensures Known(entries[1..], commits)
    ensures out + [LineOf(entries[0], commits)] + LinesOf(entries[1..], commits) == out + LinesOf(entries, commits)
  {
  }

  lemma NoGroups(metas: map<string, CommitMeta>, out: seq<BlameLine>, supported: int -> bool)
    ensures ParseGroups([], metas, out, supported) == Ok(out)
  {
  }

  lemma ShownFirst(entries: seq<Entry>, commits: Commits, seen: set<string>, supported: int -> bool)
    requires ShownAfter(entries, commits, seen, supported) && entries != []
    ensures var e, rest := entries[0], entries[1..];
      && ShownEntry(e) && e.sha in commits && ShownCommit(commits[e.sha], supported)
      && Describes(e.block, commits[e.sha], e.sha !in seen)
      && ShownAfter(rest, commits, seen + {e.sha}, supported) && Known(rest, commits)
      && (rest != [] ==> e.lineNo < rest[0].lineNo)
  {
    hide PrintHeader, ByteLength, PrintMeta, NoWhitespace, Describes, ShownEntry, ShownCommit;
  }

  lemma EntryStarts(e: Entry, more: seq<string>)
    ensures var all := PrintEntry(e) + more;
      all != [] && all[0] == PrintHeader(e) && all[1..] == PrintEntry(e)[1..] + more
  {
  }

  // ---------------------------------------------------------------- the round trip

  /** What reading line by line leaves: a carriage return at the end of any line is lost. */
  function StrippedEntry(e: Entry): Entry {
    e.(content := StripReturn(e.content), block := StrippedLines(e.block))
  }

  function Stripped(entries: seq<Entry>): seq<Entry> {
    if entries == [] then [] else [StrippedEntry(entries[0])] + Stripped(entries[1..])
  }

  function StrippedCommit(c: Commit): Commit {
    Commit(StripReturn(c.author), c.time, StripReturn(c.subject))
  }

  function StrippedCommits(commits: Commits): (r: Commits)
    ensures r.Keys == commits.Keys
  {
    map sha | sha in commits :: StrippedCommit(commits[sha])
  }

  /** Nothing that is printed holds a newline. */
  predicate Lineable(entries: seq<Entry>) {
    forall e | e in entries ::
      '\n' !in e.sha && '\n' !in e.content && forall line | line in e.block :: '\n' !in line
  }

  predicate OneLine(s: string) {
    '\n' !in s && StripReturn(s) == s
  }

  lemma {:induction false} StrippedConcat(a: seq<string>, b: seq<string>)
    ensures StrippedLines(a + b) == StrippedLines(a) + StrippedLines(b)
    decreases |a|
  {
    if a == [] {
      assert a + b == b;
    } else {
      assert (a + b)[0] == a[0] && (a + b)[1..] == a[1..] + b;
      StrippedConcat(a[1..], b);
    }
  }

  lemma PrefixedLine(prefix: string, s: string)
    requires prefix != [] && prefix[|prefix| - 1] != '\r'
    ensures StripReturn(prefix + s) == prefix + StripReturn(s)
  {
    if s == [] {
      assert prefix + s == prefix;
    } else {
      assert (prefix + s)[..|prefix| + |s| - 1] == prefix + s[..|s| - 1];
    }
  }

  lemma NumberIsOneLine(n: nat)
    ensures OneLine(PrintNat(n))
  {
    assert forall c | c in PrintNat(n) :: IsDigit(c);
    assert PrintNat(n)[|PrintNat(n)| - 1] in PrintNat(n);
  }

  lemma TimeIsOneLine(n: int)
    ensures OneLine(PrintInt(n))
  {
    hide PrintNat;
    NumberIsOneLine(if n < 0 then -n else n);
    if n < 0 { JoinedIsOneLine("-", PrintNat(-n)); }
  }

  lemma JoinedIsOneLine(prefix: string, s: string)
    requires '\n' !in prefix && prefix != [] && prefix[|prefix| - 1] != '\r' && OneLine(s)
    ensures OneLine(prefix + s)
  {
    PrefixedLine(prefix, s);
  }

  lemma SpacedIsOneLine(a: string, b: string)
    requires '\n' !in a && OneLine(b)
    ensures OneLine(a + " " + b)
  {
    JoinedIsOneLine(a + " ", b);
  }

  lemma HeaderIsOneLine(e: Entry)
    requires '\n' !in e.sha
    ensures OneLine(PrintHeader(e))
  {
    hide PrintNat;
    var last := if e.count.Some? then " " + PrintNat(e.count.value) else [];
    NumberIsOneLine(e.original);
    NumberIsOneLine(e.lineNo);
    if e.count.Some? {
      NumberIsOneLine(e.count.value);
      SpacedIsOneLine(PrintNat(e.lineNo), PrintNat(e.count.value));
      assert PrintNat(e.lineNo) + " " + PrintNat(e.count.value) == PrintNat(e.lineNo) + last;
    } else {
      assert PrintNat(e.lineNo) + last == PrintNat(e.lineNo);
    }
    SpacedIsOneLine(PrintNat(e.original), PrintNat(e.lineNo) + last);
    SpacedIsOneLine(e.sha, PrintNat(e.original) + " " + (PrintNat(e.lineNo) + last));
  }

  lemma MetaIsStripped(c: Commit)
    ensures StrippedLines(PrintMeta(c)) == PrintMeta(StrippedCommit(c))
  {
    hide StripReturn, PrintInt;
    PrefixedLine("author ", c.author);
    TimeIsOneLine(c.time);
    PrefixedLine("author-time ", PrintInt(c.time));
    PrefixedLine("summary ", c.subject);
    var a, t, u := "author " + c.author, "author-time " + PrintInt(c.time), "summary " + c.subject;
    StripThree(a, t, u);
  }

  lemma StripOne(line: string)
    ensures StrippedLines([line]) == [StripReturn(line)]
  {
    hide StripReturn;
    assert [line][1..] == [];
  }

  lemma StripThree(a: string, b: string, c: string)
    ensures StrippedLines([a, b, c]) == [StripReturn(a), StripReturn(b), StripReturn(c)]
  {
    hide StripReturn, StrippedLines;
    StripOne(a);
    StripOne(b);
    StripOne(c);
    StrippedConcat([a], [b] + [c]);
    StrippedConcat([b], [c]);
    assert [a, b, c] == [a] + ([b] + [c]);
  }

  /** A block that describes a commit, up to a carriage return in the lines that are read over, still
      describes it after every line lost its return. */
  lemma DescribedAsStripped(block: seq<string>, c: Commit, first: bool)
    requires forall line | line in block :: line in PrintMeta(c) || IsExtra(StripReturn(line))
    requires first ==> forall line | line in PrintMeta(c) :: line in block
    ensures Describes(StrippedLines(block), StrippedCommit(c), first)
  {
    hide IsExtra, PrintMeta, StripReturn, StrippedLines;
    MetaIsStripped(c);
    InStripped(PrintMeta(c));
    InStripped(block);
  }

  lemma {:induction false} InStripped(lines: seq<string>)
    ensures forall line | line in lines :: StripReturn(line) in StrippedLines(lines)
    ensures forall x | x in StrippedLines(lines) :: exists line :: line in lines && x == StripReturn(line)
    decreases |lines|
  {
    hide StripReturn;
    if lines != [] {
      InStripped(lines[1..]);
      assert forall x | x in lines :: x == lines[0] || x in lines[1..];
      assert forall x | x in lines[1..] :: x in lines;
    }
  }

  /** The order git prints: other lines before, between and after the three. */
  lemma GitsOrderDescribes(
    c: Commit, before: seq<string>, mail: seq<string>, committer: seq<string>, rest: seq<string>)
    requires forall line | line in before + mail + committer + rest :: IsExtra(line)
    ensures Describes(before + [AuthorLine(c)] + mail + [TimeLine(c)] + committer + [SummaryLine(c)] + rest, c, true)
  {
    hide IsExtra, AuthorLine, TimeLine, SummaryLine;
    var all, extra := before + [AuthorLine(c)] + mail + [TimeLine(c)] + committer + [SummaryLine(c)] + rest,
                      before + mail + committer + rest;
    assert forall x | x in all :: x in before || x in mail || x in committer || x in rest || x in PrintMeta(c);
    assert forall x | x in before || x in mail || x in committer || x in rest :: x in extra;
  }

  lemma EntryIsStripped(e: Entry)
    requires '\n' !in e.sha
    ensures StrippedLines(PrintEntry(e)) == PrintEntry(StrippedEntry(e))
  {
    hide PrintHeader, StripReturn, StrippedLines;
    HeaderIsOneLine(e);
    HeaderIgnoresText(e);
    PrefixedLine("\t", e.content);
    StrippedConcat([PrintHeader(e)] + e.block, ["\t" + e.content]);
    StrippedConcat([PrintHeader(e)], e.block);
    StripOne(PrintHeader(e));
    StripOne("\t" + e.content);
  }

  lemma HeaderIgnoresText(e: Entry)
    ensures PrintHeader(StrippedEntry(e)) == PrintHeader(e)
  {
  }

  lemma EntryHasNoNewline(e: Entry)
    requires Lineable([e])
    ensures forall line | line in PrintEntry(e) :: '\n' !in line
  {
    hide PrintHeader;
    assert e in [e];
    HeaderIsOneLine(e);
  }

  lemma {:induction false} AllAreStripped(entries: seq<Entry>)
    requires Lineable(entries)
    ensures StrippedLines(PrintAll(entries)) == PrintAll(Stripped(entries))
    ensures forall line | line in PrintAll(entries) :: '\n' !in line
    decreases |entries|
  {
    hide PrintEntry, StripReturn, StrippedLines;
    if entries != [] {
      var e, rest := entries[0], entries[1..];
      assert Lineable([e]);
      EntryIsStripped(e);
      EntryHasNoNewline(e);
      AllAreStripped(rest);
      StrippedConcat(PrintEntry(e), PrintAll(rest));
      assert Stripped(entries)[1..] == Stripped(rest);
    } else {
      NothingStripped();
    }
  }

  lemma NothingStripped()
    ensures StrippedLines([]) == []
  {
  }

  lemma {:induction false} StrippedCount(entries: seq<Entry>)
    ensures |Stripped(entries)| == |entries|
  {
    if entries != [] { StrippedCount(entries[1..]); }
  }

  /** Blame lines printed with their metadata in any order, complete at each commit's first appearance:
      parsing recovers author, time, subject and text of every line, each up to one carriage return at
      its end. */
  lemma PrintedBlameIsRecovered(entries: seq<Entry>, commits: Commits, supported: int -> bool)
    requires Shown(Stripped(entries), StrippedCommits(commits), supported)
    requires Lineable(entries) && |entries| <= MAX_ITEMS
    ensures Parse(JoinLines(PrintAll(entries)), supported) == Ok(LinesOf(Stripped(entries), StrippedCommits(commits)))
  {
    hide PrintAll, LinesOf, Lines, JoinLines, Known, ShownEntry, ShownCommit, Lineable, StrippedLines, Stripped;
    hide StrippedCommits, Described, ParseGroups, ByteLength;
    var stripped := Stripped(entries);
    AllAreStripped(entries);
    LinesOfJoined(PrintAll(entries));
    StrippedCount(entries);
    if entries != [] { ShownIsPositive(stripped[0]); }
    GroupsAreRead(stripped, StrippedCommits(commits), {}, map[], [], supported);
    assert [] + LinesOf(stripped, StrippedCommits(commits)) == LinesOf(stripped, StrippedCommits(commits));
  }

  lemma ShownIsPositive(e: Entry)
    requires ShownEntry(e)
    ensures e.lineNo > 0
  {
  }

  /** Neither the text of a line nor its commit's author or subject ends in a carriage return. */
  predicate WithoutReturns(e: Entry, commits: Commits)
    requires e.sha in commits
  {
    && StripReturn(e.content) == e.content
    && StripReturn(commits[e.sha].author) == commits[e.sha].author
    && StripReturn(commits[e.sha].subject) == commits[e.sha].subject
  }

  /** The parser gives back every line as it was exactly when no text, author or subject among them ends
      in a carriage return. */
  lemma BlameRoundTripsExactlyWithoutReturns(entries: seq<Entry>, commits: Commits, supported: int -> bool)
    requires Shown(Stripped(entries), StrippedCommits(commits), supported)
    requires Known(entries, commits) && Lineable(entries) && |entries| <= MAX_ITEMS
    ensures Parse(JoinLines(PrintAll(entries)), supported) == Ok(LinesOf(entries, commits))
      <==> forall e | e in entries :: WithoutReturns(e, commits)
  {
    hide PrintAll, Lines, JoinLines, ShownEntry, ShownCommit, Lineable, StripReturn, LinesOf, Parse;
    PrintedBlameIsRecovered(entries, commits, supported);
    SameLinesExactlyWithoutReturns(entries, commits);
  }

  lemma {:induction false} SameLinesExactlyWithoutReturns(entries: seq<Entry>, commits: Commits)
    requires Known(entries, commits) && Known(Stripped(entries), StrippedCommits(commits))
    ensures LinesOf(Stripped(entries), StrippedCommits(commits)) == LinesOf(entries, commits)
      <==> forall e | e in entries :: WithoutReturns(e, commits)
    decreases |entries|
  {
    hide StripReturn, StrippedLines;
    if entries != [] {
      var e, rest := entries[0], entries[1..];
      assert Stripped(entries)[1..] == Stripped(rest);
      SameLinesExactlyWithoutReturns(rest, commits);
      assert LineOf(StrippedEntry(e), StrippedCommits(commits)) == LineOf(e, commits) <==> WithoutReturns(e, commits);
      SameHeadAndTail(
        LineOf(StrippedEntry(e), StrippedCommits(commits)), LinesOf(Stripped(rest), StrippedCommits(commits)),
        LineOf(e, commits), LinesOf(rest, commits));
      assert forall x | x in entries :: x == e || x in rest;
      assert forall x | x in rest :: x in entries;
    }
  }

  lemma SameHeadAndTail(a: BlameLine, x: seq<BlameLine>, b: BlameLine, y: seq<BlameLine>)
    ensures [a] + x == [b] + y <==> a == b && x == y
  {
    if [a] + x == [b] + y {
      assert ([a] + x)[0] == a && ([b] + y)[0] == b && ([a] + x)[1..] == x && ([b] + y)[1..] == y;
    }
  }
}
