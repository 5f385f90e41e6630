/** The size-rotating log writer. A disk supplies the outcome of every file operation, so rotations
    may fail half way and writes may be cut short. Nobody else writes to the two files. */
module RotatingLog {
  import opened Wrappers

  type Bytes = seq<bv8>

  /** The current log, its backup, whether the writer holds an open handle, and its byte count. */
  datatype Log = Log(current: Option<Bytes>, backup: Option<Bytes>, open: bool, written: nat)

  /** Opening may fail, or create or truncate the file and then fail to restrict its permissions. */
  datatype OpenOutcome = Opened | NotOpened | NotRestricted

  datatype Rotation = Rotation(removes: bool, renames: bool, opens: OpenOutcome)

  /** What the disk does in each round of one call: the rotation, and how many bytes it accepts. */
  datatype Disk = Disk(rotation: nat -> Rotation, accepts: nat -> nat)

  function Content(file: Option<Bytes>): Bytes {
    if file.Some? then file.value else []
  }

  // ---------------------------------------------------------------- rotation

  /** Moves the current log over the backup; a failure may still have removed the backup. */
  function RotateFile(log: Log, rotation: Rotation): (Log, bool) {
    if log.current.None? then (log, true)
    else if !rotation.removes then (log, false)
    else if !rotation.renames then (log.(backup := None), false)
    else (log.(backup := log.current, current := None), true)
  }

  function OpenHandle(log: Log, truncate: bool, outcome: OpenOutcome): (Log, bool) {
    var content := if truncate then [] else Content(log.current);
    match outcome
    case NotOpened => (log, false)
    case NotRestricted => (log.(current := Some(content)), false)
    case Opened => (log.(current := Some(content), open := true), true)
  }

  function Rotated(log: Log, rotation: Rotation): (Log, bool) {
    var (moved, renamed) := RotateFile(log.(open := false), rotation);
    var (reopened, ok) := OpenHandle(moved, !renamed, rotation.opens);
    (if ok then reopened.(written := 0) else reopened, ok)
  }

  // ---------------------------------------------------------------- one call of `write`

  /** The log after a call, how many bytes of the buffer reached it, and whether the call succeeded. */
  datatype Outcome = Outcome(log: Log, taken: nat, ok: bool)

  function Append(log: Log, bytes: Bytes): Log {
    log.(current := Some(Content(log.current) + bytes))
  }

  /** One round of the loop: rotate when full, then write as much as fits. A write cut short by the
      disk fails without being counted. */
  function Round(log: Log, buf: Bytes, max: nat, disk: Disk, round: nat): (r: Outcome)
    requires max > 0 && buf != []
    ensures r.taken <= |buf| && (r.ok ==> r.taken > 0)
  {
    var (ready, ok) := if log.written >= max then Rotated(log, disk.rotation(round)) else (log, true);
    if !ok || !ready.open then Outcome(ready, 0, false)
    else
      var n := Min(max - ready.written, |buf|);
      var accepted := Min(disk.accepts(round), n);
      if accepted < n then Outcome(Append(ready, buf[..accepted]), accepted, false)
      else Outcome(Append(ready, buf[..n]).(written := ready.written + n), n, true)
  }

  function WriteFrom(log: Log, buf: Bytes, max: nat, disk: Disk, round: nat): (r: Outcome)
    requires max > 0
    ensures r.taken <= |buf| && (r.ok ==> r.taken == |buf|)
    decreases |buf|
  {
    if buf == [] then Outcome(log, 0, true)
    else
      var one := Round(log, buf, max, disk, round);
      if !one.ok then one
      else
        var rest := WriteFrom(one.log, buf[one.taken..], max, disk, round + 1);
        rest.(taken := one.taken + rest.taken)
  }

  // ---------------------------------------------------------------- what always holds

  predicate IsSuffix(tail: Bytes, text: Bytes) {
    |tail| <= |text| && text[|text| - |tail|..] == tail
  }

  /** The byte count is the length of the log, which stays within the limit; without a handle the
      count is at the limit, so the next call rotates first. */
  predicate Bounded(log: Log, max: nat) {
    && (if log.open then log.current.Some? && |log.current.value| == log.written <= max else log.written == max)
    && |Content(log.current)| <= max
  }

  /** The current log is the end of everything logged. */
  predicate Recent(log: Log, logged: Bytes) {
    IsSuffix(Content(log.current), logged)
  }

  /** The backup followed by the current log is the end of everything logged. */
  predicate Chained(log: Log, logged: Bytes) {
    IsSuffix(Content(log.backup) + Content(log.current), logged)
  }

  predicate BackupFull(log: Log, max: nat) {
    log.backup.Some? ==> |log.backup.value| == max
  }

  ghost predicate AcceptsAll(disk: Disk, max: nat) {
    forall round :: disk.accepts(round) >= max
  }

  predicate Succeeds(rotation: Rotation) {
    rotation.removes && rotation.renames && rotation.opens == Opened
  }

  ghost predicate AllRotate(disk: Disk) {
    forall round :: Succeeds(disk.rotation(round))
  }

  /** A rotation keeps the bound and the current log whatever fails. */
  lemma RotateKeepsBounded(log: Log, rotation: Rotation, max: nat, logged: Bytes)
    requires Bounded(log, max) && Recent(log, logged) && log.written == max > 0
    ensures var (after, ok) := Rotated(log, rotation);
      Bounded(after, max) && Recent(after, logged) && ok == after.open && (ok ==> after.written == 0)
  {
    assert logged[|logged|..] == [];
  }

  /** A rotation whose file operations all succeed empties the log. It leaves a backup of exactly `max`
      bytes if and only if there was that much to move, or, with the log already moved away, in the
      backup; and both files are in order afterwards if the log was there to be moved, or else if the
      backup already was the end of everything logged. */
  lemma RotateRestoresChain(log: Log, rotation: Rotation, max: nat, logged: Bytes)
    requires Bounded(log, max) && Recent(log, logged) && log.written == max > 0 && Succeeds(rotation)
    ensures var (after, ok) := Rotated(log, rotation);
      && ok && after.current == Some([])
      && (after.backup.Some? && |after.backup.value| == max
          <==> (if log.current.Some? then |log.current.value| == max else |Content(log.backup)| == max))
      && (Chained(after, logged) <==> log.current.Some? || IsSuffix(Content(log.backup), logged))
  {
    assert Content(log.current) + [] == Content(log.current) && Content(log.backup) + [] == Content(log.backup);
  }

  /** A full log is lost when its rotation moves it and makes the new file, but cannot restrict that
      file: the next rotation moves the empty file over the backup. */
  lemma EmptyFileReplacesTheBackup(log: Log, rotation: Rotation, max: nat)
    requires Bounded(log, max) && log.open && log.written == max > 0 && Succeeds(rotation)
    ensures var failed := Rotated(log, Rotation(true, true, NotRestricted));
      && !failed.1 && failed.0.backup == log.current && Bounded(failed.0, max)
      && Rotated(failed.0, rotation) == (Log(Some([]), Some([]), true, 0), true)
  {
  }

  lemma AppendGrowsSuffix(tail: Bytes, logged: Bytes, bytes: Bytes)
    requires IsSuffix(tail, logged)
    ensures IsSuffix(tail + bytes, logged + bytes)
  {
    var from := |logged| - |tail|;
    assert logged == logged[..from] + tail;
    assert logged + bytes == logged[..from] + (tail + bytes);
  }

  lemma TakenSplit(logged: Bytes, buf: Bytes, n: nat, taken: nat)
    requires n <= |buf| && taken <= |buf| - n
    ensures logged + buf[..n] + buf[n..][..taken] == logged + buf[..n + taken]
  {
    assert buf[..n] + buf[n..][..taken] == buf[..n + taken];
  }

  lemma RoundKeepsBounded(log: Log, buf: Bytes, max: nat, disk: Disk, round: nat, logged: Bytes)
    requires Bounded(log, max) && Recent(log, logged) && max > 0 && AcceptsAll(disk, max) && buf != []
    ensures var r := Round(log, buf, max, disk, round);
      && Bounded(r.log, max) && Recent(r.log, logged + buf[..r.taken])
      && (!r.ok ==> !r.log.open && r.taken == 0)
  {
    hide Rotated, IsSuffix;
    var r := Round(log, buf, max, disk, round);
    assert disk.accepts(round) >= max;
    if log.written >= max {
      RotateKeepsBounded(log, disk.rotation(round), max, logged);
      AppendGrowsSuffix(Content(Rotated(log, disk.rotation(round)).0.current), logged, buf[..r.taken]);
    } else {
      AppendGrowsSuffix(Content(log.current), logged, buf[..r.taken]);
    }
    if r.taken == 0 { assert logged + buf[..0] == logged; }
  }

  /** One call, with rotations failing in any way but the disk taking all it is given: the limit and
      the count hold, the current log stays the end of everything logged, and a call that does not
      fail takes its whole buffer. */
  lemma {:induction false} WriteKeepsBounded(log: Log, buf: Bytes, max: nat, disk: Disk, round: nat, logged: Bytes)
    requires Bounded(log, max) && Recent(log, logged) && max > 0 && AcceptsAll(disk, max)
    ensures var r := WriteFrom(log, buf, max, disk, round);
      && Bounded(r.log, max) && Recent(r.log, logged + buf[..r.taken])
      && (r.ok <==> r.taken == |buf|) && (!r.ok ==> !r.log.open)
    decreases |buf|
  {
    hide Round, Bounded, Recent;
    if buf == [] {
      assert logged + buf[..0] == logged;
    } else {
      var one := Round(log, buf, max, disk, round);
      RoundKeepsBounded(log, buf, max, disk, round, logged);
      if one.ok {
        WriteKeepsBounded(one.log, buf[one.taken..], max, disk, round + 1, logged + buf[..one.taken]);
        var rest := WriteFrom(one.log, buf[one.taken..], max, disk, round + 1);
        TakenSplit(logged, buf, one.taken, rest.taken);
      }
    }
  }

  // ---------------------------------------------------------------- when every rotation succeeds

  /** What a healthy writer keeps besides. */
  predicate Orderly(log: Log, max: nat, logged: Bytes) {
    Bounded(log, max) && log.open && Chained(log, logged)
  }

  lemma ChainedIsRecent(log: Log, logged: Bytes)
    requires Chained(log, logged)
    ensures Recent(log, logged)
  {
    var kept := Content(log.backup) + Content(log.current);
    var from := |logged| - |Content(log.current)|;
    assert logged[from..] == kept[|Content(log.backup)|..];
  }

  lemma RoundKeepsOrderly(log: Log, buf: Bytes, max: nat, disk: Disk, round: nat, logged: Bytes)
    requires Orderly(log, max, logged) && max > 0 && buf != [] && AcceptsAll(disk, max) && AllRotate(disk)
    ensures var r := Round(log, buf, max, disk, round);
      r.ok && Orderly(r.log, max, logged + buf[..r.taken])
    ensures var r := Round(log, buf, max, disk, round);
      r.log.backup == log.backup || (r.log.backup.Some? && |r.log.backup.value| == max)
  {
    hide IsSuffix;
    assert disk.accepts(round) >= max && Succeeds(disk.rotation(round));
    ChainedIsRecent(log, logged);
    RoundKeepsBounded(log, buf, max, disk, round, logged);
    var r := Round(log, buf, max, disk, round);
    var ready := if log.written >= max then Rotated(log, disk.rotation(round)).0 else log;
    if log.written >= max { RotateRestoresChain(log, disk.rotation(round), max, logged); }
    AppendGrowsSuffix(Content(ready.backup) + Content(ready.current), logged, buf[..r.taken]);
    assert Content(r.log.backup) + Content(r.log.current)
      == Content(ready.backup) + Content(ready.current) + buf[..r.taken];
  }

  /** One call with every rotation succeeding: it takes its whole buffer, and the backup followed by
      the current log is the end of everything logged. A new backup holds exactly `max` bytes. */
  lemma {:induction false} WriteKeepsOrderly(log: Log, buf: Bytes, max: nat, disk: Disk, round: nat, logged: Bytes)
    requires Orderly(log, max, logged) && max > 0 && AcceptsAll(disk, max) && AllRotate(disk)
    ensures var r := WriteFrom(log, buf, max, disk, round);
      r.ok && r.taken == |buf| && Orderly(r.log, max, logged + buf)
    ensures var r := WriteFrom(log, buf, max, disk, round);
      r.log.backup == log.backup || (r.log.backup.Some? && |r.log.backup.value| == max)
    decreases |buf|
  {
    hide Round, Orderly;
    if buf == [] {
      assert logged + buf == logged;
    } else {
      var one := Round(log, buf, max, disk, round);
      RoundKeepsOrderly(log, buf, max, disk, round, logged);
      WriteKeepsOrderly(one.log, buf[one.taken..], max, disk, round + 1, logged + buf[..one.taken]);
      TakenSplit(logged, buf, one.taken, |buf| - one.taken);
      assert buf[one.taken..][..|buf| - one.taken] == buf[one.taken..] && buf[..|buf|] == buf;
    }
  }

  /** The writer one byte at a time: a full log becomes the backup when the next byte comes. */
  function Put(log: Log, byte: bv8, max: nat): Log {
    if log.written >= max then Log(Some([byte]), log.current, true, 1)
    else Append(log, [byte]).(written := log.written + 1)
  }

  function Puts(log: Log, bytes: Bytes, max: nat): Log
    decreases |bytes|
  {
    if bytes == [] then log else Puts(Put(log, bytes[0], max), bytes[1..], max)
  }

  lemma {:induction false} PutsConcat(log: Log, a: Bytes, b: Bytes, max: nat)
    ensures Puts(log, a + b, max) == Puts(Puts(log, a, max), b, max)
    decreases |a|
  {
    if a == [] {
      assert a + b == b;
    } else {
      assert (a + b)[0] == a[0] && (a + b)[1..] == a[1..] + b;
      PutsConcat(Put(log, a[0], max), a[1..], b, max);
    }
  }

  lemma {:induction false} PutsWithinRoom(log: Log, bytes: Bytes, max: nat)
    requires log.current.Some? && log.open && log.written + |bytes| <= max
    ensures Puts(log, bytes, max) == Append(log, bytes).(written := log.written + |bytes|)
    decreases |bytes|
  {
    if bytes == [] {
      assert log.current.value + bytes == log.current.value;
    } else {
      var one := Put(log, bytes[0], max);
      PutsWithinRoom(one, bytes[1..], max);
      assert bytes == [bytes[0]] + bytes[1..];
      assert log.current.value + [bytes[0]] + bytes[1..] == log.current.value + bytes;
    }
  }

  lemma RoundIsPuts(log: Log, buf: Bytes, max: nat, disk: Disk, round: nat)
    requires Bounded(log, max) && log.open && max > 0 && buf != [] && AcceptsAll(disk, max) && AllRotate(disk)
    ensures var r := Round(log, buf, max, disk, round); r.ok && r.log == Puts(log, buf[..r.taken], max)
  {
    assert disk.accepts(round) >= max && Succeeds(disk.rotation(round));
    var r := Round(log, buf, max, disk, round);
    var part := buf[..r.taken];
    if log.written >= max {
      var empty := Rotated(log, disk.rotation(round)).0;
      PutsWithinRoom(empty, part, max);
      assert Content(empty.current) + [part[0]] == [part[0]];
      assert Put(log, part[0], max) == Put(empty, part[0], max);
    } else {
      PutsWithinRoom(log, part, max);
    }
  }

  /** Writing a buffer in rounds comes to the same as putting its bytes one at a time. */
  lemma {:induction false} WriteIsPuts(log: Log, buf: Bytes, max: nat, disk: Disk, round: nat, logged: Bytes)
    requires Orderly(log, max, logged) && max > 0 && AcceptsAll(disk, max) && AllRotate(disk)
    ensures WriteFrom(log, buf, max, disk, round).log == Puts(log, buf, max)
    decreases |buf|
  {
    hide Round, Puts, Chained;
    if buf == [] {
      assert Puts(log, [], max) == log by { PutsNothing(log, max); }
    } else {
      var one := Round(log, buf, max, disk, round);
      RoundIsPuts(log, buf, max, disk, round);
      RoundKeepsOrderly(log, buf, max, disk, round, logged);
      WriteIsPuts(one.log, buf[one.taken..], max, disk, round + 1, logged + buf[..one.taken]);
      PutsConcat(log, buf[..one.taken], buf[one.taken..], max);
      assert buf == buf[..one.taken] + buf[one.taken..];
    }
  }

  lemma PutsNothing(log: Log, max: nat)
    ensures Puts(log, [], max) == log
  {
  }

  /** How a text is cut into calls does not matter. */
  lemma SplittingIsInvisible(log: Log, a: Bytes, b: Bytes, max: nat, disk: Disk, other: Disk, logged: Bytes)
    requires Orderly(log, max, logged) && max > 0
    requires AcceptsAll(disk, max) && AllRotate(disk) && AcceptsAll(other, max) && AllRotate(other)
    ensures var first := WriteFrom(log, a, max, disk, 0).log;
      WriteFrom(first, b, max, other, 0).log == WriteFrom(log, a + b, max, disk, 0).log
  {
    hide Orderly, AllRotate, AcceptsAll, WriteFrom, Puts;
    WriteKeepsOrderly(log, a, max, disk, 0, logged);
    WriteIsPuts(log, a, max, disk, 0, logged);
    WriteIsPuts(WriteFrom(log, a, max, disk, 0).log, b, max, other, 0, logged + a);
    WriteIsPuts(log, a + b, max, disk, 0, logged);
    PutsConcat(log, a, b, max);
  }

  /** `n` is a whole number of full logs. */
  predicate WholeLogs(n: int, max: nat)
    requires max > 0
    decreases n
  {
    n == 0 || (n >= max && WholeLogs(n - max, max))
  }

  /** The text cut every `max` bytes: the last piece is the current log, the one before it the
      backup, and only whole pieces before that are gone. */
  predicate LaidOut(log: Log, text: Bytes, max: nat)
    requires max > 0
  {
    var kept := Content(log.backup) + Content(log.current);
    && Bounded(log, max) && log.open && BackupFull(log, max)
    && IsSuffix(kept, text) && WholeLogs(|text| - |kept|, max)
    && (log.backup.None? ==> |kept| == |text|)
    && (text != [] ==> log.written > 0)
  }

  lemma PutKeepsLayout(log: Log, text: Bytes, byte: bv8, max: nat)
    requires max > 0 && LaidOut(log, text, max)
    ensures LaidOut(Put(log, byte, max), text + [byte], max)
  {
    hide IsSuffix;
    var after := Put(log, byte, max);
    var kept, now := Content(log.backup) + Content(log.current), Content(after.backup) + Content(after.current);
    if log.written >= max {
      ChainedIsRecent(log, text);
      AppendGrowsSuffix(Content(log.current), text, [byte]);
      assert now == Content(log.current) + [byte];
      assert log.backup.Some? ==> |text + [byte]| - |now| == |text| - |kept| + max;
    } else {
      AppendGrowsSuffix(kept, text, [byte]);
      assert now == kept + [byte];
    }
  }

  /** From an empty log, after any text, the files hold exactly its last pieces. */
  lemma {:induction false} TextIsLaidOut(text: Bytes, max: nat)
    requires max > 0
    ensures LaidOut(Puts(Log(Some([]), None, true, 0), text, max), text, max)
    decreases |text|
  {
    var empty := Log(Some([]), None, true, 0);
    if text == [] {
      assert Content(empty.backup) + Content(empty.current) == [];
    } else {
      var n := |text| - 1;
      TextIsLaidOut(text[..n], max);
      var before := Puts(empty, text[..n], max);
      PutKeepsLayout(before, text[..n], text[n], max);
      PutsConcat(empty, text[..n], [text[n]], max);
      assert text == text[..n] + [text[n]];
      assert [text[n]][1..] == [] && Puts(before, [text[n]], max) == Put(before, text[n], max);
    }
  }

  // ---------------------------------------------------------------- short writes

  /** The bytes of a write the disk cuts short are in the file but not in the count: the accounting
      survives a failed write exactly when none of its bytes arrived. */
  lemma ShortWriteIsCountedExactlyWhenEmpty(log: Log, buf: Bytes, max: nat, disk: Disk, round: nat)
    requires Bounded(log, max) && log.open && log.written < max && buf != []
    requires disk.accepts(round) < Min(max - log.written, |buf|)
    ensures var r := Round(log, buf, max, disk, round);
      !r.ok && (Bounded(r.log, max) <==> disk.accepts(round) == 0)
  {
    var accepted := disk.accepts(round);
    assert |Content(log.current) + buf[..accepted]| == log.written + accepted;
    if accepted == 0 { assert Content(log.current) + buf[..0] == Content(log.current); }
  }

  // ---------------------------------------------------------------- runs of calls

  datatype WriteCall = WriteCall(buf: Bytes, disk: Disk)

  /** The log after a run of calls, with everything that reached it. */
  function Run(log: Log, logged: Bytes, calls: seq<WriteCall>, max: nat): (Log, Bytes)
    requires max > 0
    decreases |calls|
  {
    if calls == [] then (log, logged)
    else
      var r := WriteFrom(log, calls[0].buf, max, calls[0].disk, 0);
      Run(r.log, logged + calls[0].buf[..r.taken], calls[1..], max)
  }

  /** Over every run of calls, with any rotations failing: the current log stays within the limit and
      is the end of everything logged. */
  lemma {:induction false} EveryRunIsBounded(log: Log, logged: Bytes, calls: seq<WriteCall>, max: nat)
    requires Bounded(log, max) && Recent(log, logged) && max > 0
    requires forall c | c in calls :: AcceptsAll(c.disk, max)
    ensures var (after, all) := Run(log, logged, calls, max); Bounded(after, max) && Recent(after, all)
    decreases |calls|
  {
    hide Bounded, Recent, AcceptsAll;
    if calls != [] {
      var r := WriteFrom(log, calls[0].buf, max, calls[0].disk, 0);
      WriteKeepsBounded(log, calls[0].buf, max, calls[0].disk, 0, logged);
      EveryRunIsBounded(r.log, logged + calls[0].buf[..r.taken], calls[1..], max);
    }
  }

  /** Whatever is written later, on a disk that takes all it is given: the log stays within the limit. */
  ghost predicate StaysBounded(log: Log, max: nat)
    requires max > 0
  {
    forall calls: seq<WriteCall> :: Accepting(calls, max) ==> |Content(Run(log, [], calls, max).0.current)| <= max
  }

  ghost predicate Accepting(calls: seq<WriteCall>, max: nat) {
    forall c | c in calls :: AcceptsAll(c.disk, max)
  }

  const Healthy := Rotation(true, true, Opened)

  /** A write that just fills the room by count. */
  function FillingCall(log: Log, max: nat): WriteCall
    requires log.written < max
  {
    WriteCall(seq(max - log.written, i => 0 as bv8), Disk(round => Healthy, round => max))
  }

  /** With more in the file than counted, filling the counted room takes the log over the limit by
      exactly the difference. */
  lemma UncountedBytesStay(log: Log, max: nat)
    requires log.open && log.current.Some? && log.written < max
    ensures var call := FillingCall(log, max);
      && AcceptsAll(call.disk, max)
      && |Content(Run(log, [], [call], max).0.current)| == max + |log.current.value| - log.written
  {
    var call := FillingCall(log, max);
    var one := Round(log, call.buf, max, call.disk, 0);
    assert call.buf[..|call.buf|] == call.buf && call.buf[|call.buf|..] == [];
    assert one.ok && one.taken == |call.buf| && |Content(one.log.current)| == |log.current.value| + |call.buf|;
    assert WriteFrom(one.log, [], max, call.disk, 1) == Outcome(one.log, 0, true);
    var r := WriteFrom(log, call.buf, max, call.disk, 0);
    assert r.log == one.log;
    assert [call][1..] == [];
  }

  /** After a write cut short, the log stays within the limit over every later run if and only if none of
      the cut write's bytes arrived. */
  lemma ShortWriteStaysBoundedExactlyWhenEmpty(log: Log, buf: Bytes, max: nat, disk: Disk, round: nat)
    requires Bounded(log, max) && log.open && log.written < max && buf != []
    requires disk.accepts(round) < Min(max - log.written, |buf|)
    ensures var r := Round(log, buf, max, disk, round);
      !r.ok && (StaysBounded(r.log, max) <==> disk.accepts(round) == 0)
  {
    hide Run;
    var r := Round(log, buf, max, disk, round);
    ShortWriteIsCountedExactlyWhenEmpty(log, buf, max, disk, round);
    if disk.accepts(round) == 0 {
      forall calls: seq<WriteCall> | Accepting(calls, max)
        ensures |Content(Run(r.log, [], calls, max).0.current)| <= max
      {
        LaterRunIsBounded(r.log, calls, max);
      }
    } else {
      UncountedBytesStay(r.log, max);
      assert Accepting([FillingCall(r.log, max)], max);
    }
  }

  lemma LaterRunIsBounded(log: Log, calls: seq<WriteCall>, max: nat)
    requires Bounded(log, max) && max > 0 && Accepting(calls, max)
    ensures |Content(Run(log, [], calls, max).0.current)| <= max
  {
    LengthIgnoresHistory(log, [], Content(log.current), calls, max);
    EveryRunIsBounded(log, Content(log.current), calls, max);
  }

  lemma {:induction false} LengthIgnoresHistory(log: Log, a: Bytes, b: Bytes, calls: seq<WriteCall>, max: nat)
    requires max > 0
    ensures Run(log, a, calls, max).0 == Run(log, b, calls, max).0
    decreases |calls|
  {
    if calls != [] {
      var r := WriteFrom(log, calls[0].buf, max, calls[0].disk, 0);
      var taken := calls[0].buf[..r.taken];
      LengthIgnoresHistory(r.log, a + taken, b + taken, calls[1..], max);
    }
  }

  lemma TakenWhole(logged: Bytes, buf: Bytes, more: Bytes)
    ensures buf[..|buf|] == buf && logged + buf + more == logged + (buf + more)
  {
  }

  function AllText(calls: seq<WriteCall>): Bytes {
    if calls == [] then [] else calls[0].buf + AllText(calls[1..])
  }

  /** Over every run of calls with every rotation succeeding: nothing is refused, and the backup
      followed by the current log is the end of everything written. */
  lemma {:induction false} EveryHealthyRunIsOrderly(log: Log, logged: Bytes, calls: seq<WriteCall>, max: nat)
    requires Orderly(log, max, logged) && max > 0
    requires forall c | c in calls :: AcceptsAll(c.disk, max) && AllRotate(c.disk)
    ensures var (after, all) := Run(log, logged, calls, max);
      all == logged + AllText(calls) && Orderly(after, max, all)
    ensures var after := Run(log, logged, calls, max).0;
      after.backup == log.backup || (after.backup.Some? && |after.backup.value| == max)
    decreases |calls|
  {
    hide Orderly, AcceptsAll, AllRotate, WriteFrom;
    if calls == [] {
      assert logged + AllText(calls) == logged;
    } else {
      var r := WriteFrom(log, calls[0].buf, max, calls[0].disk, 0);
      WriteKeepsOrderly(log, calls[0].buf, max, calls[0].disk, 0, logged);
      EveryHealthyRunIsOrderly(r.log, logged + calls[0].buf, calls[1..], max);
      TakenWhole(logged, calls[0].buf, AllText(calls[1..]));
    }
  }

  // ---------------------------------------------------------------- start of a session

  datatype LogError = ZeroLimit | FileOperationFailed

  /** The outcomes of the file operations at start: moving an oversized log away, rewriting an
      oversized backup, and opening the log. */
  datatype Opening = Opening(rotation: Rotation, rewrites: OpenOutcome, opens: OpenOutcome)

  function Tail(bytes: Bytes, max: nat): (r: Bytes)
    ensures |r| == Min(|bytes|, max)
  {
    if |bytes| <= max then bytes else bytes[|bytes| - max..]
  }

  /** A log at the limit becomes the backup, and the backup keeps only its newest bytes. */
  function RotateIfOversized(log: Log, max: nat, opening: Opening): Result<Log, LogError> {
    if max == 0 then Err(ZeroLimit)
    else
      var oversized := log.current.Some? && |log.current.value| >= max;
      var (moved, ok) := if oversized then RotateFile(log, opening.rotation) else (log, true);
      if !ok then Err(FileOperationFailed)
      else if moved.backup.None? || |moved.backup.value| <= max then Ok(moved)
      else if opening.rewrites != Opened then Err(FileOperationFailed)
      else Ok(moved.(backup := Some(Tail(moved.backup.value, max))))
  }

  function OpenLog(current: Option<Bytes>, backup: Option<Bytes>, max: nat, opening: Opening): Result<Log, LogError> {
    var trimmed :- RotateIfOversized(Log(current, backup, false, 0), max, opening);
    var (log, ok) := OpenHandle(trimmed, false, opening.opens);
    if !ok then Err(FileOperationFailed) else Ok(log.(written := |Content(log.current)|))
  }

  /** Whatever an older session left, a session that starts has room in its log, both files within
      the limit, and keeps the newest bytes of what was there. */
  lemma OpenedLogIsOrderly(current: Option<Bytes>, backup: Option<Bytes>, max: nat, opening: Opening)
    ensures var r := OpenLog(current, backup, max, opening);
      r.Ok? ==>
        && max > 0 && r.value.written < max && |Content(r.value.backup)| <= max
        && Orderly(r.value, max, Content(backup) + Content(current))
    ensures max == 0 ==> OpenLog(current, backup, max, opening) == Err(ZeroLimit)
  {
    hide RotateIfOversized, Tail, IsSuffix;
    var trimmed := RotateIfOversized(Log(current, backup, false, 0), max, opening);
    if max == 0 { assert trimmed == Err(ZeroLimit) by { NothingFitsZero(current, backup, opening); } }
    if trimmed.Ok? { TrimmedIsSuffix(current, backup, max, opening); }
  }

  lemma NothingFitsZero(current: Option<Bytes>, backup: Option<Bytes>, opening: Opening)
    ensures RotateIfOversized(Log(current, backup, false, 0), 0, opening) == Err(ZeroLimit)
  {
  }

  lemma TrimmedIsSuffix(current: Option<Bytes>, backup: Option<Bytes>, max: nat, opening: Opening)
    ensures var r := RotateIfOversized(Log(current, backup, false, 0), max, opening);
      r.Ok? ==>
        && max > 0 && |Content(r.value.current)| < max && |Content(r.value.backup)| <= max
        && IsSuffix(Content(r.value.backup) + Content(r.value.current), Content(backup) + Content(current))
  {
    hide Tail, IsSuffix;
    TailsAreSuffixes(Content(backup), Content(current), max);
    WholeTail(Content(backup), max);
    WholeTail(Content(current), max);
  }

  lemma WholeTail(bytes: Bytes, max: nat)
    ensures |bytes| <= max ==> Tail(bytes, max) == bytes
    ensures Tail([], max) == []
  {
  }

  /** A session drops no more than it must: a log below the limit stays as it is, a backup loses only what
      is over the limit, and a full log replaces it up to the limit. */
  lemma OpenedLogKeepsWhatFits(current: Option<Bytes>, backup: Option<Bytes>, max: nat, opening: Opening)
    ensures var r := OpenLog(current, backup, max, opening);
      r.Ok? ==>
        if current.Some? && |current.value| >= max
        then Content(r.value.current) == [] && |Content(r.value.backup)| == max
        else Content(r.value.current) == Content(current) && |Content(r.value.backup)| == Min(|Content(backup)|, max)
             && (backup.Some? && |backup.value| <= max ==> r.value.backup == backup)
  {
    hide RotateIfOversized, Tail;
    var trimmed := RotateIfOversized(Log(current, backup, false, 0), max, opening);
    if trimmed.Ok? { TrimKeepsWhatFits(current, backup, max, opening); }
  }

  lemma TrimKeepsWhatFits(current: Option<Bytes>, backup: Option<Bytes>, max: nat, opening: Opening)
    ensures var r := RotateIfOversized(Log(current, backup, false, 0), max, opening);
      r.Ok? ==>
        if current.Some? && |current.value| >= max
        then r.value.current.None? && |Content(r.value.backup)| == max
        else r.value.current == current && |Content(r.value.backup)| == Min(|Content(backup)|, max)
             && (backup.Some? && |backup.value| <= max ==> r.value.backup == backup)
  {
    hide Tail;
  }

  lemma TailsAreSuffixes(older: Bytes, newer: Bytes, max: nat)
    ensures IsSuffix(Tail(newer, max) + [], older + newer)
    ensures IsSuffix(Tail(older, max) + newer, older + newer)
  {
    assert Tail(newer, max) + [] == Tail(newer, max);
    assert (older + newer)[|older|..] == newer;
  }

  // ---------------------------------------------------------------- the writer object

  class RotatingLogWriter {
    var current: Option<Bytes>
    var backup: Option<Bytes>
    var open: bool
    var written: nat
    const maxBytes: nat

    ghost function View(): Log
      reads this
    {
      Log(current, backup, open, written)
    }

    constructor (log: Log, maxBytes: nat)
      requires maxBytes > 0
      ensures View() == log && this.maxBytes == maxBytes
    {
      current, backup, open, written := log.current, log.backup, log.open, log.written;
      this.maxBytes := maxBytes;
    }

    method Rotate(rotation: Rotation) returns (ok: bool)
      modifies this
      ensures (View(), ok) == Rotated(old(View()), rotation) && (ok ==> open && written == 0)
    {
      open := false;
      var renamed := RotateLogFile(rotation);
      var content := if renamed then Content(current) else [];
      if rotation.opens == NotOpened {
        return false;
      }
      current := Some(content);
      if rotation.opens == NotRestricted {
        return false;
      }
      open := true;
      written := 0;
      return true;
    }

    method RotateLogFile(rotation: Rotation) returns (ok: bool)
      modifies this
      ensures (View(), ok) == RotateFile(old(View()), rotation)
    {
      if current.None? {
        return true;
      }
      if !rotation.removes {
        return false;
      }
      backup := None;
      if !rotation.renames {
        return false;
      }
      backup, current := current, None;
      return true;
    }

    method Write(buf: Bytes, disk: Disk) returns (r: Result<nat, LogError>)
      requires maxBytes > 0
      modifies this
      ensures var spec := WriteFrom(old(View()), buf, maxBytes, disk, 0);
        View() == spec.log && r == if spec.ok then Ok(|buf|) else Err(FileOperationFailed)
    {
      hide Round;
      var rest := buf;
      var round: nat := 0;
      ghost var start := View();
      while rest != []
        invariant WriteFrom(start, buf, maxBytes, disk, 0).log == WriteFrom(View(), rest, maxBytes, disk, round).log
        invariant WriteFrom(start, buf, maxBytes, disk, 0).ok == WriteFrom(View(), rest, maxBytes, disk, round).ok
        decreases |rest|
      {
        var taken, ok := WriteRound(rest, disk, round);
        if !ok {
          return Err(FileOperationFailed);
        }
        rest := rest[taken..];
        round := round + 1;
      }
      return Ok(|buf|);
    }

    /** The body of the write loop. */
    method WriteRound(rest: Bytes, disk: Disk, round: nat) returns (taken: nat, ok: bool)
      requires maxBytes > 0 && rest != []
      modifies this
      ensures Outcome(View(), taken, ok) == Round(old(View()), rest, maxBytes, disk, round)
    {
      hide Rotated;
      if written >= maxBytes {
        var rotated := Rotate(disk.rotation(round));
        if !rotated {
          return 0, false;
        }
      }
      if !open {
        return 0, false;
      }
      var remaining := Min(maxBytes - written, |rest|);
      var accepted := Min(disk.accepts(round), remaining);
      current := Some(Content(current) + rest[..accepted]);
      if accepted < remaining {
        return accepted, false;
      }
      written := written + remaining;
      return remaining, true;
    }
  }
}
