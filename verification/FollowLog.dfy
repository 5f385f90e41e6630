/** Container logs: the assembler that turns chunks of four interleaved streams into lines, against
    the batch splitter of a whole text. Text is decoded. */
module FollowLog {
  import opened Wrappers
  import opened Text
  import opened Seqs

  const MAX_LOG_BYTES: nat := 2 * 1024 * 1024
  const MAX_LOG_LINES: nat := 5_000
  const TRUNCATED := "[持续日志行超过大小上限，已截断]"

  datatype Stream = Stdout | Stderr | Stdin | Console

  datatype LogLine = LogLine(stream: Stream, message: string)

  /** `follow_log_line`. */
  function FollowLogLine(stream: Stream, message: string): LogLine {
    LogLine(stream, StripReturn(message))
  }

  // ---------------------------------------------------------------- the batch splitter

  /** `split_inclusive('\n')`: pieces that keep their newline; an empty rest is not a piece. */
  function SplitInclusive(text: string): seq<string> {
    if text == [] then []
    else match IndexOf(text, '\n')
      case None => [text]
      case Some(i) => [text[..i + 1]] + SplitInclusive(text[i + 1..])
  }

  function StripNewline(raw: string): string {
    if raw != [] && raw[|raw| - 1] == '\n' then raw[..|raw| - 1] else raw
  }

  function RawLines(stream: Stream, pieces: seq<string>): (lines: seq<LogLine>)
    ensures |lines| == |pieces|
  {
    if pieces == [] then []
    else [LogLine(stream, StripReturn(StripNewline(pieces[0])))] + RawLines(stream, pieces[1..])
  }

  /** `log_output_lines` of a whole text. */
  function LogOutputLines(stream: Stream, text: string): seq<LogLine> {
    RawLines(stream, SplitInclusive(text))
  }

  // ---------------------------------------------------------------- complete lines and the rest

  /** The lines closed by a newline. */
  function Complete(stream: Stream, text: string): seq<LogLine>
    decreases |text|
  {
    match IndexOf(text, '\n')
    case None => []
    case Some(i) => [FollowLogLine(stream, text[..i])] + Complete(stream, text[i + 1..])
  }

  /** What follows the last newline. */
  function Rest(text: string): (rest: string)
    ensures '\n' !in rest && |rest| <= |text|
    decreases |text|
  {
    match IndexOf(text, '\n')
    case None => text
    case Some(i) => Rest(text[i + 1..])
  }

  function Flush(stream: Stream, rest: string): seq<LogLine> {
    if rest == [] then [] else [FollowLogLine(stream, rest)]
  }

  lemma LineStep(stream: Stream, text: string, i: nat)
    requires IndexOf(text, '\n') == Some(i)
    ensures Complete(stream, text) == [FollowLogLine(stream, text[..i])] + Complete(stream, text[i + 1..])
    ensures Rest(text) == Rest(text[i + 1..])
    ensures LogOutputLines(stream, text) == [FollowLogLine(stream, text[..i])] + LogOutputLines(stream, text[i + 1..])
  {
    hide IndexOf;
    assert StripNewline(text[..i + 1]) == text[..i];
    assert SplitInclusive(text) == [text[..i + 1]] + SplitInclusive(text[i + 1..]);
  }

  lemma DrainStep(lines: seq<LogLine>, stream: Stream, text: string, i: nat)
    requires IndexOf(text, '\n') == Some(i)
    ensures lines + [FollowLogLine(stream, text[..i])] + Complete(stream, text[i + 1..])
      == lines + Complete(stream, text)
    ensures Rest(text) == Rest(text[i + 1..])
  {
    hide IndexOf, Complete, Rest;
    LineStep(stream, text, i);
  }

  lemma NoLine(stream: Stream, text: string)
    requires '\n' !in text
    ensures Complete(stream, text) == [] && Rest(text) == text
    ensures LogOutputLines(stream, text) == Flush(stream, text)
  {
    hide IndexOf;
    if text != [] {
      assert SplitInclusive(text) == [text] && StripNewline(text) == text;
    }
  }

  lemma {:induction false} BatchIsCompleteThenRest(stream: Stream, text: string)
    ensures LogOutputLines(stream, text) == Complete(stream, text) + Flush(stream, Rest(text))
    decreases |text|
  {
    hide IndexOf, LogOutputLines, Complete, Rest, Flush;
    match IndexOf(text, '\n')
    case None => NoLine(stream, text);
    case Some(i) =>
      LineStep(stream, text, i);
      BatchIsCompleteThenRest(stream, text[i + 1..]);
  }

  lemma FirstNewline(a: string, b: string)
    ensures IndexOf(a, '\n').Some? ==> IndexOf(a + b, '\n') == IndexOf(a, '\n')
  {
    hide IndexOf;
    assert forall j | 0 <= j < |a| :: (a + b)[j] == a[j];
  }

  /** Cutting a text anywhere changes nothing: the second part continues the rest of the first. */
  lemma {:induction false} CutAnywhere(stream: Stream, a: string, b: string)
    ensures Complete(stream, a + b) == Complete(stream, a) + Complete(stream, Rest(a) + b)
    ensures Rest(a + b) == Rest(Rest(a) + b)
    decreases |a|
  {
    hide IndexOf, Complete, Rest, FollowLogLine;
    match IndexOf(a, '\n')
    case None =>
      NoLine(stream, a);
      assert [] + Complete(stream, a + b) == Complete(stream, a + b);
    case Some(i) =>
      var line, tail := FollowLogLine(stream, a[..i]), a[i + 1..];
      CutAnywhere(stream, tail, b);
      StepOfConcat(stream, a, b, i);
      LineStep(stream, a, i);
      LineThenLines(line, Complete(stream, tail), Complete(stream, Rest(tail) + b));
  }

  lemma LineThenLines(line: LogLine, a: seq<LogLine>, b: seq<LogLine>)
    ensures [line] + (a + b) == [line] + a + b
  {
  }

  lemma StepOfConcat(stream: Stream, a: string, b: string, i: nat)
    requires IndexOf(a, '\n') == Some(i)
    ensures Complete(stream, a + b) == [FollowLogLine(stream, a[..i])] + Complete(stream, a[i + 1..] + b)
    ensures Rest(a + b) == Rest(a[i + 1..] + b)
  {
    hide IndexOf, Complete, Rest, FollowLogLine;
    FirstNewline(a, b);
    LineStep(stream, a + b, i);
    assert (a + b)[..i] == a[..i] && (a + b)[i + 1..] == a[i + 1..] + b;
  }

  // ---------------------------------------------------------------- one stream, chunk by chunk

  datatype Fed = Fed(lines: seq<LogLine>, buffer: string)

  /** What one chunk does to the buffer of its stream. */
  function FeedChunk(stream: Stream, buffer: string, text: string): Fed {
    var lines, rest := Complete(stream, buffer + text), Rest(buffer + text);
    if ByteLength(rest) > MAX_LOG_BYTES then Fed(lines + [FollowLogLine(stream, TRUNCATED)], []) else Fed(lines, rest)
  }

  function Feed(stream: Stream, buffer: string, chunks: seq<string>): Fed
    decreases |chunks|
  {
    if chunks == [] then Fed([], buffer)
    else
      var first := FeedChunk(stream, buffer, chunks[0]);
      var later := Feed(stream, first.buffer, chunks[1..]);
      Fed(first.lines + later.lines, later.buffer)
  }

  function Concat(chunks: seq<string>): string {
    if chunks == [] then [] else chunks[0] + Concat(chunks[1..])
  }

  /** No line still open at the end of a chunk exceeds the limit. */
  predicate OpenLinesFit(rest: string, chunks: seq<string>)
    decreases |chunks|
  {
    chunks == [] || (
      var open := Rest(rest + chunks[0]);
      ByteLength(open) <= MAX_LOG_BYTES && OpenLinesFit(open, chunks[1..]))
  }

  /** Everything emitted for a stream, with the final flush. */
  function Followed(stream: Stream, buffer: string, chunks: seq<string>): seq<LogLine> {
    var fed := Feed(stream, buffer, chunks);
    fed.lines + Flush(stream, fed.buffer)
  }

  lemma FollowedStep(stream: Stream, buffer: string, chunks: seq<string>)
    requires chunks != []
    ensures var first := FeedChunk(stream, buffer, chunks[0]);
      Followed(stream, buffer, chunks) == first.lines + Followed(stream, first.buffer, chunks[1..])
  {
    hide FeedChunk, Flush;
  }

  lemma BatchStep(stream: Stream, a: string, b: string)
    ensures LogOutputLines(stream, a + b) == Complete(stream, a) + LogOutputLines(stream, Rest(a) + b)
  {
    hide Complete, Rest, LogOutputLines, Flush;
    BatchIsCompleteThenRest(stream, a + b);
    BatchIsCompleteThenRest(stream, Rest(a) + b);
    CutAnywhere(stream, a, b);
  }

  lemma {:induction false} BytesPerCharacter(s: string)
    ensures ByteLength(s) <= 4 * |s|
  {
    if s != [] {
      BytesPerCharacter(s[1..]);
    }
  }

  /** A line longer than the limit never reads like the truncation marker. */
  lemma LongLineIsNotMarker(stream: Stream, rest: string, later: string)
    requires '\n' !in rest && ByteLength(rest) > MAX_LOG_BYTES
    ensures LogOutputLines(stream, rest + later) != []
    ensures LogOutputLines(stream, rest + later)[0] != FollowLogLine(stream, TRUNCATED)
  {
    hide IndexOf, LogOutputLines, Complete, Rest;
    var text := rest + later;
    BytesPerCharacter(rest);
    assert forall j | 0 <= j < |rest| :: text[j] == rest[j];
    match IndexOf(text, '\n')
    case None => NoLine(stream, text);
    case Some(i) => LineStep(stream, text, i);
  }

  /** Chunking is invisible exactly when no open line exceeds the limit: then, and only then, a
      stream's followed lines are the lines of its whole text. */
  lemma {:induction false} FollowedIsBatchExactlyWhenLinesFit(stream: Stream, buffer: string, chunks: seq<string>)
    requires '\n' !in buffer
    ensures Followed(stream, buffer, chunks) == LogOutputLines(stream, buffer + Concat(chunks))
      <==> OpenLinesFit(buffer, chunks)
    decreases |chunks|
  {
    hide Complete, Rest, LogOutputLines, Followed, FollowLogLine;
    if chunks == [] {
      assert buffer + Concat(chunks) == buffer;
      NothingFed(stream, buffer);
    } else {
      var text, later := buffer + chunks[0], Concat(chunks[1..]);
      var lines, rest := Complete(stream, text), Rest(text);
      assert buffer + Concat(chunks) == text + later;
      FollowedStep(stream, buffer, chunks);
      BatchStep(stream, text, later);
      if ByteLength(rest) > MAX_LOG_BYTES {
        LongLineIsNotMarker(stream, rest, later);
        var marker := FollowLogLine(stream, TRUNCATED);
        var followed := Followed(stream, [], chunks[1..]);
        assert (lines + [marker] + followed)[|lines|] == marker;
        assert (lines + LogOutputLines(stream, rest + later))[|lines|] == LogOutputLines(stream, rest + later)[0];
      } else {
        FollowedIsBatchExactlyWhenLinesFit(stream, rest, chunks[1..]);
        SamePrefix(lines, Followed(stream, rest, chunks[1..]), LogOutputLines(stream, rest + later));
      }
    }
  }

  lemma NothingFed(stream: Stream, buffer: string)
    requires '\n' !in buffer
    ensures Followed(stream, buffer, []) == LogOutputLines(stream, buffer)
  {
    NoLine(stream, buffer);
    assert [] + Flush(stream, buffer) == Flush(stream, buffer);
  }

  lemma SamePrefix<T>(prefix: seq<T>, a: seq<T>, b: seq<T>)
    ensures prefix + a == prefix + b <==> a == b
  {
    if prefix + a == prefix + b {
      assert (prefix + a)[|prefix|..] == a && (prefix + b)[|prefix|..] == b;
    }
  }

  // ---------------------------------------------------------------- four interleaved streams

  datatype Buffers = Buffers(stdout: string, stderr: string, stdin: string, console: string)
  {
    function Get(stream: Stream): string {
      match stream case Stdout => stdout case Stderr => stderr case Stdin => stdin case Console => console
    }

    function Set(stream: Stream, buffer: string): Buffers {
      match stream
      case Stdout => this.(stdout := buffer)
      case Stderr => this.(stderr := buffer)
      case Stdin => this.(stdin := buffer)
      case Console => this.(console := buffer)
    }
  }

  const NoBuffers := Buffers([], [], [], [])

  datatype Chunk = Chunk(stream: Stream, text: string)

  function OfStream(stream: Stream): LogLine -> bool { (line: LogLine) => line.stream == stream }

  function ChunksOf(stream: Stream, chunks: seq<Chunk>): seq<string> {
    if chunks == [] then []
    else (if chunks[0].stream == stream then [chunks[0].text] else []) + ChunksOf(stream, chunks[1..])
  }

  function FinishLines(buffers: Buffers): seq<LogLine> {
    Flush(Stdout, buffers.stdout) + Flush(Stderr, buffers.stderr)
    + Flush(Stdin, buffers.stdin) + Flush(Console, buffers.console)
  }

  /** All lines emitted for a run of chunks and the final flush. */
  function Emitted(buffers: Buffers, chunks: seq<Chunk>): seq<LogLine>
    decreases |chunks|
  {
    if chunks == [] then FinishLines(buffers)
    else
      var chunk := chunks[0];
      var fed := FeedChunk(chunk.stream, buffers.Get(chunk.stream), chunk.text);
      fed.lines + Emitted(buffers.Set(chunk.stream, fed.buffer), chunks[1..])
  }

  lemma {:induction false} CompleteIsOfStream(stream: Stream, text: string)
    ensures forall line | line in Complete(stream, text) :: line.stream == stream
    decreases |text|
  {
    match IndexOf(text, '\n')
    case None =>
    case Some(i) => CompleteIsOfStream(stream, text[i + 1..]);
  }

  lemma FinishPerStream(buffers: Buffers, stream: Stream)
    ensures Filter(FinishLines(buffers), OfStream(stream)) == Flush(stream, buffers.Get(stream))
  {
    hide Filter, Flush;
    var p, a, b, c, d := OfStream(stream), Flush(Stdout, buffers.stdout), Flush(Stderr, buffers.stderr),
      Flush(Stdin, buffers.stdin), Flush(Console, buffers.console);
    FilterConcat(a + b + c, d, p);
    FilterConcat(a + b, c, p);
    FilterConcat(a, b, p);
    FlushPerStream(Stdout, buffers.stdout, stream);
    FlushPerStream(Stderr, buffers.stderr, stream);
    FlushPerStream(Stdin, buffers.stdin, stream);
    FlushPerStream(Console, buffers.console, stream);
  }

  lemma FlushPerStream(source: Stream, rest: string, stream: Stream)
    ensures Filter(Flush(source, rest), OfStream(stream)) == if source == stream then Flush(source, rest) else []
  {
  }

  /** Streams do not disturb each other: what is emitted for one of them is what its own chunks give. */
  lemma {:induction false} StreamsAreIndependent(buffers: Buffers, chunks: seq<Chunk>, stream: Stream)
    ensures Filter(Emitted(buffers, chunks), OfStream(stream))
      == Followed(stream, buffers.Get(stream), ChunksOf(stream, chunks))
    decreases |chunks|
  {
    hide FeedChunk, Filter, FinishLines, Followed;
    if chunks == [] {
      FinishPerStream(buffers, stream);
      FollowedNothing(stream, buffers.Get(stream));
    } else {
      var chunk := chunks[0];
      var fed := FeedChunk(chunk.stream, buffers.Get(chunk.stream), chunk.text);
      var after := buffers.Set(chunk.stream, fed.buffer);
      FilterConcat(fed.lines, Emitted(after, chunks[1..]), OfStream(stream));
      FedLinesPerStream(chunk.stream, buffers.Get(chunk.stream), chunk.text, stream);
      StreamsAreIndependent(after, chunks[1..], stream);
      if chunk.stream == stream {
        var own := ChunksOf(stream, chunks);
        assert own[0] == chunk.text && own[1..] == ChunksOf(stream, chunks[1..]);
        FollowedStep(stream, buffers.Get(stream), own);
      } else {
        assert ChunksOf(stream, chunks) == ChunksOf(stream, chunks[1..]);
        assert after.Get(stream) == buffers.Get(stream);
        var later := Filter(Emitted(after, chunks[1..]), OfStream(stream));
        assert [] + later == later;
      }
    }
  }

  lemma FollowedNothing(stream: Stream, buffer: string)
    ensures Followed(stream, buffer, []) == Flush(stream, buffer)
  {
    assert [] + Flush(stream, buffer) == Flush(stream, buffer);
  }

  lemma FedLinesPerStream(source: Stream, buffer: string, text: string, stream: Stream)
    ensures var lines := FeedChunk(source, buffer, text).lines;
      Filter(lines, OfStream(stream)) == if source == stream then lines else []
  {
    hide Complete, Filter;
    var lines := FeedChunk(source, buffer, text).lines;
    CompleteIsOfStream(source, buffer + text);
    if source == stream {
      FilterAll(lines, OfStream(stream));
    } else {
      FilterNone(lines, OfStream(stream));
    }
  }

  /** For chunks cut at any positions and interleaved in any order, each stream's lines are those of
      its whole text exactly when none of its open lines exceeds the limit. */
  lemma InterleavedFollowIsBatch(chunks: seq<Chunk>, stream: Stream)
    ensures Filter(Emitted(NoBuffers, chunks), OfStream(stream))
        == LogOutputLines(stream, Concat(ChunksOf(stream, chunks)))
      <==> OpenLinesFit([], ChunksOf(stream, chunks))
  {
    hide Emitted, Followed, LogOutputLines, OpenLinesFit;
    StreamsAreIndependent(NoBuffers, chunks, stream);
    FollowedIsBatchExactlyWhenLinesFit(stream, [], ChunksOf(stream, chunks));
    assert [] + Concat(ChunksOf(stream, chunks)) == Concat(ChunksOf(stream, chunks));
  }

  // ---------------------------------------------------------------- the assembler object

  class FollowLogAssembler {
    var stdout: string
    var stderr: string
    var stdin: string
    var console: string

    ghost function View(): Buffers
      reads this
    {
      Buffers(stdout, stderr, stdin, console)
    }

    /** Between appends every buffer is an open line within the limit. */
    ghost predicate Valid()
      reads this
    {
      forall stream: Stream :: '\n' !in View().Get(stream) && ByteLength(View().Get(stream)) <= MAX_LOG_BYTES
    }

    constructor ()
      ensures Valid() && View() == NoBuffers
    {
      stdout, stderr, stdin, console := [], [], [], [];
    }

    method Append(output: Chunk) returns (lines: seq<LogLine>)
      requires Valid()
      modifies this
      ensures Valid()
      ensures var fed := FeedChunk(output.stream, old(View()).Get(output.stream), output.text);
        lines == fed.lines && View() == old(View()).Set(output.stream, fed.buffer)
    {
      hide Complete, Rest;
      var buffer := match output.stream
        case Stdout => stdout case Stderr => stderr case Stdin => stdin case Console => console;
      ghost var before := View();
      var message, rest := Drain(output.stream, buffer + output.text);
      lines := message;
      if ByteLength(rest) > MAX_LOG_BYTES {
        rest := [];
        lines := lines + [FollowLogLine(output.stream, TRUNCATED)];
      }
      match output.stream {
        case Stdout => stdout := rest;
        case Stderr => stderr := rest;
        case Stdin => stdin := rest;
        case Console => console := rest;
      }
      assert View() == before.Set(output.stream, rest);
      BuffersStayOpenLines(before, output.stream, rest);
    }

    /** Takes closed lines off the front until none is left. */
    static method Drain(stream: Stream, text: string) returns (lines: seq<LogLine>, buffer: string)
      ensures lines == Complete(stream, text) && buffer == Rest(text)
    {
      hide IndexOf, Complete, Rest;
      lines, buffer := [], text;
      var newline := IndexOf(buffer, '\n');
      while newline.Some?
        invariant newline == IndexOf(buffer, '\n')
        invariant lines + Complete(stream, buffer) == Complete(stream, text) && Rest(buffer) == Rest(text)
        decreases |buffer|
      {
        DrainStep(lines, stream, buffer, newline.value);
        lines := lines + [FollowLogLine(stream, buffer[..newline.value])];
        buffer := buffer[newline.value + 1..];
        newline := IndexOf(buffer, '\n');
      }
      NoLine(stream, buffer);
      assert lines + [] == lines;
    }

    /** Every stream gets exactly its open line, if it has one, and the streams come in their order. */
    method Finish() returns (lines: seq<LogLine>)
      ensures forall stream: Stream :: Filter(lines, OfStream(stream)) == Flush(stream, View().Get(stream))
      ensures forall i, j | 0 <= i < j < |lines| :: StreamRank(lines[i].stream) < StreamRank(lines[j].stream)
      ensures lines == FinishLines(View())
    {
      hide Filter;
      lines := Flush(Stdout, stdout) + Flush(Stderr, stderr) + Flush(Stdin, stdin) + Flush(Console, console);
      FinishIsOrdered(View());
      forall stream: Stream
        ensures Filter(lines, OfStream(stream)) == Flush(stream, View().Get(stream))
      {
        FinishPerStream(View(), stream);
      }
    }
  }

  function StreamRank(stream: Stream): nat {
    match stream case Stdout => 0 case Stderr => 1 case Stdin => 2 case Console => 3
  }

  lemma FinishIsOrdered(buffers: Buffers)
    ensures var lines := FinishLines(buffers);
      forall i, j | 0 <= i < j < |lines| :: StreamRank(lines[i].stream) < StreamRank(lines[j].stream)
  {
  }

  lemma BuffersStayOpenLines(before: Buffers, stream: Stream, rest: string)
    requires forall s: Stream :: '\n' !in before.Get(s) && ByteLength(before.Get(s)) <= MAX_LOG_BYTES
    requires '\n' !in rest && ByteLength(rest) <= MAX_LOG_BYTES
    ensures forall s: Stream ::
      '\n' !in before.Set(stream, rest).Get(s) && ByteLength(before.Set(stream, rest).Get(s)) <= MAX_LOG_BYTES
  {
    forall s: Stream
      ensures before.Set(stream, rest).Get(s) == if s == stream then rest else before.Get(s)
    {
    }
  }

  // ---------------------------------------------------------------- the bounded batch

  /** Lines kept for one container, with what was dropped counted. */
  datatype ContainerLogs = ContainerLogs(lines: seq<LogLine>, bytes: nat, dropped: nat, truncated: bool)

  function TotalLength(lines: seq<LogLine>): nat {
    if lines == [] then 0 else TotalLength(lines[..|lines| - 1]) + ByteLength(lines[|lines| - 1].message)
  }

  /** Both limits hold, the byte count is exact, and truncation is reported exactly when lines were dropped. */
  ghost predicate LogsOk(logs: ContainerLogs) {
    && |logs.lines| <= MAX_LOG_LINES && logs.bytes <= MAX_LOG_BYTES
    && logs.bytes == TotalLength(logs.lines)
    && (logs.truncated <==> logs.dropped > 0)
  }

  predicate Admits(logs: ContainerLogs, line: LogLine) {
    |logs.lines| < MAX_LOG_LINES && logs.bytes + ByteLength(line.message) <= MAX_LOG_BYTES
  }

  class ContainerLogBatch {
    var logs: ContainerLogs

    constructor ()
      ensures LogsOk(logs) && logs == ContainerLogs([], 0, 0, false)
    {
      logs := ContainerLogs([], 0, 0, false);
    }

    /** Every line of the output is either kept, in order, or counted as dropped. */
    method AppendLogOutput(output: Chunk)
      requires LogsOk(logs)
      modifies this
      ensures LogsOk(logs) && old(logs.lines) <= logs.lines
      ensures var lines := LogOutputLines(output.stream, output.text);
        && (|logs.lines| - |old(logs.lines)|) + (logs.dropped - old(logs.dropped)) == |lines|
        && logs == AppendLines(old(logs), lines)
    {
      hide LogOutputLines;
      var lines := LogOutputLines(output.stream, output.text);
      for i := 0 to |lines|
        invariant LogsOk(logs) && old(logs.lines) <= logs.lines
        invariant (|logs.lines| - |old(logs.lines)|) + (logs.dropped - old(logs.dropped)) == i
        invariant AppendLines(logs, lines[i..]) == AppendLines(old(logs), lines)
      {
        var line := lines[i];
        assert lines[i..][0] == line && lines[i..][1..] == lines[i + 1..];
        if !Admits(logs, line) {
          logs := logs.(dropped := logs.dropped + 1, truncated := true);
          continue;
        }
        assert (logs.lines + [line])[..|logs.lines|] == logs.lines;
        logs := logs.(lines := logs.lines + [line], bytes := logs.bytes + ByteLength(line.message));
      }
    }
  }

  /** A line is kept exactly when both limits still admit it. */
  function AppendLines(logs: ContainerLogs, lines: seq<LogLine>): ContainerLogs
    decreases |lines|
  {
    if lines == [] then logs
    else if Admits(logs, lines[0]) then
      AppendLines(
        logs.(lines := logs.lines + [lines[0]], bytes := logs.bytes + ByteLength(lines[0].message)), lines[1..])
    else AppendLines(logs.(dropped := logs.dropped + 1, truncated := true), lines[1..])
  }

  /** One line more is kept exactly when the limits still admit it beside the lines kept so far. */
  lemma {:induction false} LastLineIsKeptWhenAdmitted(logs: ContainerLogs, lines: seq<LogLine>, line: LogLine)
    ensures var so := AppendLines(logs, lines);
      AppendLines(logs, lines + [line])
        == if Admits(so, line) then so.(lines := so.lines + [line], bytes := so.bytes + ByteLength(line.message))
           else so.(dropped := so.dropped + 1, truncated := true)
    decreases |lines|
  {
    hide ByteLength, Admits;
    if lines == [] {
      assert (lines + [line])[1..] == [];
    } else {
      assert (lines + [line])[0] == lines[0] && (lines + [line])[1..] == lines[1..] + [line];
      if Admits(logs, lines[0]) {
        LastLineIsKeptWhenAdmitted(
          logs.(lines := logs.lines + [lines[0]], bytes := logs.bytes + ByteLength(lines[0].message)),
          lines[1..], line);
      } else {
        LastLineIsKeptWhenAdmitted(logs.(dropped := logs.dropped + 1, truncated := true), lines[1..], line);
      }
    }
  }

  /** Nothing is dropped exactly when everything fits, and then everything is kept. */
  lemma {:induction false} AllKeptExactlyWhenAllFit(logs: ContainerLogs, lines: seq<LogLine>)
    requires LogsOk(logs)
    ensures var so := AppendLines(logs, lines);
      && logs.dropped <= so.dropped && logs.lines <= so.lines
      && (so.dropped == logs.dropped
          <==> |logs.lines| + |lines| <= MAX_LOG_LINES && logs.bytes + TotalLength(lines) <= MAX_LOG_BYTES)
      && (so.dropped == logs.dropped ==>
            so.lines == logs.lines + lines && so.bytes == logs.bytes + TotalLength(lines))
    decreases |lines|
  {
    hide ByteLength;
    if lines == [] {
      assert logs.lines + lines == logs.lines;
    } else {
      var n := |lines| - 1;
      var front, line := lines[..n], lines[n];
      AllKeptExactlyWhenAllFit(logs, front);
      LastLineIsKeptWhenAdmitted(logs, front, line);
      assert front + [line] == lines && logs.lines + front + [line] == logs.lines + lines;
    }
  }
}
