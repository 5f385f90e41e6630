/** Saves of plugin settings that overlap: a save waits between reading the primary record, writing
    the backup and writing the primary, and other saves may run in between. */
module ConcurrentSaves {
  import opened Wrappers
  import opened PluginSettings
  import opened SettingsStore

  /** What a save does next: read the primary record, write what it read to the backup, or write its
      own record. */
  datatype Stage = Reading | Backing(current: Raw) | Writing

  datatype SaveTask = SaveTask(snapshot: Snapshot, stage: Stage)

  /** `history` lists the snapshots of one plugin in the order in which they became primary. */
  datatype State = State(prefs: Preferences, tasks: map<nat, SaveTask>, history: seq<Snapshot>)

  datatype Event =
    | Begin(snapshot: Snapshot)
    | Read(ok: bool)
    | WriteBackup(outcome: WriteOutcome)
    | WritePrimary(outcome: WriteOutcome)
    | Stop

  datatype Move = Move(task: nat, event: Event)

  const Start: State := State(map[], map[], [])

  predicate Enabled(s: State, m: Move, length: JsonLength) {
    match m.event
    case Begin(snapshot) => m.task !in s.tasks && Encode(snapshot, length).Ok?
    case Read(_) => m.task in s.tasks && s.tasks[m.task].stage.Reading?
    case WriteBackup(_) => m.task in s.tasks && s.tasks[m.task].stage.Backing?
    case WritePrimary(_) => m.task in s.tasks && s.tasks[m.task].stage.Writing?
    case Stop => m.task in s.tasks
  }

  function Ended(s: State, task: nat): State {
    s.(tasks := s.tasks - {task})
  }

  function At(s: State, task: nat, stage: Stage): State
    requires task in s.tasks
  {
    s.(tasks := s.tasks[task := SaveTask(s.tasks[task].snapshot, stage)])
  }

  /** One section of a save between two waits; a failed one ends the save. */
  function Step(s: State, m: Move, id: string, length: JsonLength): State
    requires Enabled(s, m, length)
  {
    var task := m.task;
    if m.event.Begin? then s.(tasks := s.tasks[task := SaveTask(m.event.snapshot, Reading)])
    else
      var snapshot := s.tasks[task].snapshot;
      var primary, backup := PrimaryKey(snapshot.pluginId), BackupKey(snapshot.pluginId);
      match m.event
      case Read(ok) =>
        if !ok then Ended(s, task)
        else if primary !in s.prefs then At(s, task, Writing)
        else if s.prefs[primary].bytes > MAX_PAYLOAD then Ended(s, task)
        else At(s, task, Backing(s.prefs[primary]))
      case WriteBackup(outcome) =>
        var after := s.(prefs := Write(s.prefs, backup, s.tasks[task].stage.current, outcome));
        if outcome.Written? then At(after, task, Writing) else Ended(after, task)
      case WritePrimary(outcome) =>
        var prefs := Write(s.prefs, primary, RecordOf(snapshot, length), outcome);
        var took := snapshot.pluginId == id && !outcome.Lost?;
        Ended(State(prefs, s.tasks, if took then s.history + [snapshot] else s.history), task)
      case Stop => Ended(s, task)
  }

  /** A move whose turn it is not changes nothing. */
  function Next(s: State, m: Move, id: string, length: JsonLength): State {
    if Enabled(s, m, length) then Step(s, m, id, length) else s
  }

  function Run(s: State, moves: seq<Move>, id: string, length: JsonLength): State
    decreases |moves|
  {
    if moves == [] then s else Run(Next(s, moves[0], id, length), moves[1..], id, length)
  }

  // ---------------------------------------------------------------- one save alone is the sequential save

  /** The moves of a save that nothing interrupts. */
  function Alone(s: Snapshot, task: nat, outcome: SaveOutcome): seq<Move> {
    [Move(task, Begin(s)), Move(task, Read(outcome.readOk)), Move(task, WriteBackup(outcome.backup)),
     Move(task, WritePrimary(outcome.primary))]
  }

  /** Without other moves in between, the sections of a save make up `Saved`. */
  lemma AloneIsSaved(st: State, s: Snapshot, task: nat, outcome: SaveOutcome, id: string, length: JsonLength)
    requires task !in st.tasks
    ensures var after := Run(st, Alone(s, task, outcome), id, length);
      && after.prefs == Saved(st.prefs, s, length, outcome).0
      && after.tasks == st.tasks
      && after.history == st.history
           + if s.pluginId == id && TakesEffect(st.prefs, s, length, outcome) then [s] else []
  {
    hide RecordOf, PrimaryKey, BackupKey, Run;
    var moves := Alone(s, task, outcome);
    RunOfFour(st, moves, id, length);
    if Encode(s, length).Err? {
      return;
    }
    BeginAndRead(st, s, task, outcome.readOk, id, length);
    var read := Next(Next(st, moves[0], id, length), moves[1], id, length);
    if task in read.tasks {
      WriteBoth(st, read, s, task, outcome, id, length);
    }
  }

  lemma BeginAndRead(st: State, s: Snapshot, task: nat, ok: bool, id: string, length: JsonLength)
    requires task !in st.tasks && Encode(s, length).Ok?
    ensures var primary := PrimaryKey(s.pluginId);
      var read := Next(Next(st, Move(task, Begin(s)), id, length), Move(task, Read(ok)), id, length);
      && read.prefs == st.prefs && read.history == st.history
      && read.tasks ==
           if !ok || (primary in st.prefs && st.prefs[primary].bytes > MAX_PAYLOAD) then st.tasks
           else st.tasks[task := SaveTask(s, if primary in st.prefs then Backing(st.prefs[primary]) else Writing)]
  {
    hide Encode, PrimaryKey, BackupKey;
    var begun := Next(st, Move(task, Begin(s)), id, length);
    assert begun.tasks - {task} == st.tasks;
  }

  lemma WriteBoth(
    st: State, read: State, s: Snapshot, task: nat, outcome: SaveOutcome, id: string, length: JsonLength)
    requires var primary := PrimaryKey(s.pluginId);
      && task !in st.tasks && read.prefs == st.prefs && read.history == st.history
      && (primary in st.prefs ==> st.prefs[primary].bytes <= MAX_PAYLOAD)
      && var stage := if primary in st.prefs then Backing(st.prefs[primary]) else Writing;
         read.tasks == st.tasks[task := SaveTask(s, stage)]
    requires outcome.readOk && Encode(s, length).Ok?
    ensures var backed := Next(read, Move(task, WriteBackup(outcome.backup)), id, length);
      var after := Next(backed, Move(task, WritePrimary(outcome.primary)), id, length);
      && after.prefs == Saved(st.prefs, s, length, outcome).0
      && after.tasks == st.tasks
      && after.history == st.history
           + if s.pluginId == id && TakesEffect(st.prefs, s, length, outcome) then [s] else []
  {
    hide RecordOf, PrimaryKey, BackupKey;
    var backed := Next(read, Move(task, WriteBackup(outcome.backup)), id, length);
    assert read.tasks - {task} == st.tasks && backed.tasks - {task} == st.tasks;
  }

  lemma RunOfFour(s: State, moves: seq<Move>, id: string, length: JsonLength)
    requires |moves| == 4
    ensures var second := Next(Next(s, moves[0], id, length), moves[1], id, length);
      Run(s, moves, id, length) == Next(Next(second, moves[2], id, length), moves[3], id, length)
  {
    hide Next;
    var s1 := Next(s, moves[0], id, length);
    var s2 := Next(s1, moves[1], id, length);
    var s3 := Next(s2, moves[2], id, length);
    assert Run(s, moves, id, length) == Run(s1, moves[1..], id, length);
    assert moves[1..][0] == moves[1] && moves[1..][1..] == moves[2..];
    assert Run(s1, moves[1..], id, length) == Run(s2, moves[2..], id, length);
    assert moves[2..][0] == moves[2] && moves[2..][1..] == moves[3..];
    assert Run(s2, moves[2..], id, length) == Run(s3, moves[3..], id, length);
    assert moves[3..][0] == moves[3] && moves[3..][1..] == [];
  }

  // ---------------------------------------------------------------- what always holds

  predicate WasPrimary(raw: Raw, history: seq<Snapshot>, length: JsonLength) {
    exists h | h in history :: raw == RecordOf(h, length)
  }

  predicate TaskOk(task: SaveTask, manifest: Manifest, length: JsonLength, history: seq<Snapshot>) {
    task.snapshot.pluginId == manifest.id ==>
      && Storable(task.snapshot, manifest, length)
      && (task.stage.Backing? ==> WasPrimary(task.stage.current, history, length))
  }

  predicate Inv(s: State, manifest: Manifest, length: JsonLength) {
    var primary, backup := PrimaryKey(manifest.id), BackupKey(manifest.id);
    && manifest.IsValid()
    && (forall h | h in s.history :: Storable(h, manifest, length))
    && (forall t | t in s.tasks :: TaskOk(s.tasks[t], manifest, length, s.history))
    && (primary in s.prefs <==> s.history != [])
    && (s.history != [] ==> s.prefs[primary] == RecordOf(s.history[|s.history| - 1], length))
    && (backup in s.prefs ==> WasPrimary(s.prefs[backup], s.history, length))
  }

  /** This plugin begins to save only what passed its checks. */
  predicate Proper(m: Move, manifest: Manifest) {
    m.event.Begin? && m.event.snapshot.pluginId == manifest.id ==>
      Typed(m.event.snapshot, manifest) && NothingSensitive(m.event.snapshot)
  }

  lemma HistoryGrowing(raw: Raw, history: seq<Snapshot>, s: Snapshot, length: JsonLength)
    ensures WasPrimary(raw, history, length) ==> WasPrimary(raw, history + [s], length)
    ensures WasPrimary(RecordOf(s, length), history + [s], length)
  {
    hide RecordOf;
    assert s in history + [s];
    if WasPrimary(raw, history, length) {
      var h :| h in history && raw == RecordOf(h, length);
      assert h in history + [s];
    }
  }

  lemma NextKeepsInv(s: State, m: Move, manifest: Manifest, length: JsonLength)
    requires Inv(s, manifest, length) && Proper(m, manifest)
    ensures Inv(Next(s, m, manifest.id, length), manifest, length)
    ensures s.history <= Next(s, m, manifest.id, length).history
  {
    hide PrimaryKey, BackupKey, Typed, NothingSensitive, WasPrimary, RecordOf;
    var after := Next(s, m, manifest.id, length);
    KeysNeverCollide(manifest.id, manifest.id);
    if Enabled(s, m, length) && !m.event.Begin? {
      var snapshot := s.tasks[m.task].snapshot;
      KeysNeverCollide(manifest.id, snapshot.pluginId);
      KeysNeverCollide(snapshot.pluginId, manifest.id);
      if s.history != [] {
        LastWasPrimary(s.history, length);
      }
      forall raw
        ensures WasPrimary(raw, s.history, length) ==> WasPrimary(raw, s.history + [snapshot], length)
      {
        HistoryGrowing(raw, s.history, snapshot, length);
      }
    }
    EncodesWithinLimit(m, length);
  }

  lemma LastWasPrimary(history: seq<Snapshot>, length: JsonLength)
    requires history != []
    ensures WasPrimary(RecordOf(history[|history| - 1], length), history, length)
  {
    hide RecordOf;
    assert history[|history| - 1] in history;
  }

  lemma EncodesWithinLimit(m: Move, length: JsonLength)
    ensures m.event.Begin? && Encode(m.event.snapshot, length).Ok? ==>
      RecordOf(m.event.snapshot, length).bytes <= MAX_PAYLOAD
  {
  }

  lemma {:induction false} RunKeepsInv(s: State, moves: seq<Move>, manifest: Manifest, length: JsonLength)
    requires Inv(s, manifest, length) && forall m | m in moves :: Proper(m, manifest)
    ensures Inv(Run(s, moves, manifest.id, length), manifest, length)
    ensures s.history <= Run(s, moves, manifest.id, length).history
    decreases |moves|
  {
    hide Inv, Proper, Next;
    if moves != [] {
      NextKeepsInv(s, moves[0], manifest, length);
      RunKeepsInv(Next(s, moves[0], manifest.id, length), moves[1..], manifest, length);
    }
  }

  /** In every interleaving of saves by any plugins, each allowed to fail or stop anywhere: loading
      returns the snapshot that became primary last, or the defaults if there is none. */
  lemma LoadReturnsTheLastPrimary(manifest: Manifest, length: JsonLength, steps: Steps, moves: seq<Move>)
    requires manifest.IsValid() && forall m | m in moves :: Proper(m, manifest)
    ensures var s := Run(Start, moves, manifest.id, length);
      LoadFrom(s.prefs, manifest, steps)
        == if s.history == [] then Defaults(manifest) else Ok(Loaded(s.history[|s.history| - 1], false))
  {
    hide Decode, Defaults, Storable, RecordOf, PrimaryKey, BackupKey, Run;
    RunKeepsInv(Start, moves, manifest, length);
    var s := Run(Start, moves, manifest.id, length);
    if s.history != [] {
      StorableDecodes(s.history[|s.history| - 1], manifest, length, steps);
    }
  }

  /** The primary record lost, or replaced by `damaged`. */
  function WithoutPrimary(prefs: Preferences, id: string, damaged: Option<Raw>): Preferences {
    if damaged.None? then prefs - {PrimaryKey(id)} else prefs[PrimaryKey(id) := damaged.value]
  }

  lemma BackupIsLoaded(
    s: State, h: Snapshot, manifest: Manifest, length: JsonLength, steps: Steps, damaged: Option<Raw>)
    requires Storable(h, manifest, length)
    requires BackupKey(manifest.id) in s.prefs && s.prefs[BackupKey(manifest.id)] == RecordOf(h, length)
    requires damaged.Some? ==> Decode(manifest, damaged.value, steps).Err?
    ensures LoadFrom(WithoutPrimary(s.prefs, manifest.id, damaged), manifest, steps) == Ok(Loaded(h, true))
  {
    hide Decode, Defaults, Storable, RecordOf, PrimaryKey, BackupKey;
    KeysNeverCollide(manifest.id, manifest.id);
    StorableDecodes(h, manifest, length, steps);
  }

  /** If after such a run only the primary is lost or damaged, whatever is recovered from the backup
      was once the primary, and a backup can always be recovered. */
  lemma RecoveredWasPrimary(
    manifest: Manifest, length: JsonLength, steps: Steps, moves: seq<Move>, damaged: Option<Raw>)
    requires manifest.IsValid() && forall m | m in moves :: Proper(m, manifest)
    requires damaged.Some? ==> Decode(manifest, damaged.value, steps).Err?
    ensures var s := Run(Start, moves, manifest.id, length);
      BackupKey(manifest.id) in s.prefs ==>
        exists h | h in s.history ::
          LoadFrom(WithoutPrimary(s.prefs, manifest.id, damaged), manifest, steps) == Ok(Loaded(h, true))
  {
    hide Decode, Defaults, Storable, RecordOf, PrimaryKey, BackupKey, Run, LoadFrom, WithoutPrimary;
    RunKeepsInv(Start, moves, manifest, length);
    var s := Run(Start, moves, manifest.id, length);
    if BackupKey(manifest.id) in s.prefs {
      var h :| h in s.history && s.prefs[BackupKey(manifest.id)] == RecordOf(h, length);
      BackupIsLoaded(s, h, manifest, length, steps, damaged);
    }
  }

  // ---------------------------------------------------------------- which version the backup is

  /** Whether a move puts something into the backup record of the plugin. */
  predicate ReplacesBackup(s: State, m: Move, id: string, length: JsonLength) {
    && m.event.WriteBackup? && Enabled(s, m, length)
    && s.tasks[m.task].snapshot.pluginId == id && !m.event.outcome.Lost?
  }

  predicate NeverReplacesBackup(s: State, moves: seq<Move>, id: string, length: JsonLength)
    decreases |moves|
  {
    moves != [] ==>
      && !ReplacesBackup(s, moves[0], id, length)
      && NeverReplacesBackup(Next(s, moves[0], id, length), moves[1..], id, length)
  }

  lemma {:induction false} BackupStays(s: State, moves: seq<Move>, id: string, length: JsonLength)
    requires NeverReplacesBackup(s, moves, id, length) && BackupKey(id) in s.prefs
    ensures var after := Run(s, moves, id, length);
      BackupKey(id) in after.prefs && after.prefs[BackupKey(id)] == s.prefs[BackupKey(id)]
    decreases |moves|
  {
    hide PrimaryKey, BackupKey, RecordOf, Encode;
    if moves != [] {
      if Enabled(s, moves[0], length) && !moves[0].event.Begin? {
        KeysNeverCollide(s.tasks[moves[0].task].snapshot.pluginId, id);
      }
      BackupStays(Next(s, moves[0], id, length), moves[1..], id, length);
    }
  }

  lemma NextBackup(s: State, m: Move, id: string, length: JsonLength)
    ensures BackupKey(id) in Next(s, m, id, length).prefs
      <==> BackupKey(id) in s.prefs || ReplacesBackup(s, m, id, length)
  {
    hide PrimaryKey, BackupKey, RecordOf, Encode;
    if Enabled(s, m, length) && !m.event.Begin? {
      KeysNeverCollide(s.tasks[m.task].snapshot.pluginId, id);
    }
  }

  /** A run leaves a backup exactly when there was one before or one of its moves writes one. */
  lemma {:induction false} BackupExistsExactlyWhenWritten(s: State, moves: seq<Move>, id: string, length: JsonLength)
    ensures BackupKey(id) in Run(s, moves, id, length).prefs
      <==> BackupKey(id) in s.prefs || !NeverReplacesBackup(s, moves, id, length)
    decreases |moves|
  {
    hide Next, ReplacesBackup, BackupKey;
    if moves != [] {
      NextBackup(s, moves[0], id, length);
      BackupExistsExactlyWhenWritten(Next(s, moves[0], id, length), moves[1..], id, length);
    }
  }

  lemma {:induction false} OthersLeaveTask(s: State, moves: seq<Move>, task: nat, id: string, length: JsonLength)
    requires task in s.tasks && forall m | m in moves :: m.task != task
    ensures var after := Run(s, moves, id, length); task in after.tasks && after.tasks[task] == s.tasks[task]
    decreases |moves|
  {
    hide PrimaryKey, BackupKey, RecordOf, Encode;
    if moves != [] {
      OthersLeaveTask(Next(s, moves[0], id, length), moves[1..], task, id, length);
    }
  }

  /** The backup is the version that its last writer found when it read the primary, however many
      saves took effect since then. */
  lemma BackupIsWhatItsWriterRead(
    s: State, task: nat, others: seq<Move>, outcome: WriteOutcome, later: seq<Move>,
    manifest: Manifest, length: JsonLength, steps: Steps, damaged: Option<Raw>)
    requires Inv(s, manifest, length) && s.history != []
    requires task in s.tasks && s.tasks[task].stage.Reading? && s.tasks[task].snapshot.pluginId == manifest.id
    requires forall m | m in others :: m.task != task && Proper(m, manifest)
    requires !outcome.Lost? && forall m | m in later :: Proper(m, manifest)
    requires damaged.Some? ==> Decode(manifest, damaged.value, steps).Err?
    ensures var read := Next(s, Move(task, Read(true)), manifest.id, length);
      var backed := Next(Run(read, others, manifest.id, length), Move(task, WriteBackup(outcome)), manifest.id, length);
      var after := Run(backed, later, manifest.id, length);
      && s.history <= after.history
      && (NeverReplacesBackup(backed, later, manifest.id, length) ==>
            LoadFrom(WithoutPrimary(after.prefs, manifest.id, damaged), manifest, steps)
              == Ok(Loaded(s.history[|s.history| - 1], true)))
  {
    hide Decode, RecordOf, PrimaryKey, BackupKey, Run, LoadFrom, WithoutPrimary, Typed, NothingSensitive, WasPrimary,
         NeverReplacesBackup;
    var id, h := manifest.id, s.history[|s.history| - 1];
    var read := Next(s, Move(task, Read(true)), id, length);
    var waiting := Run(read, others, id, length);
    var backed := Next(waiting, Move(task, WriteBackup(outcome)), id, length);
    assert RecordOf(h, length).bytes <= MAX_PAYLOAD by { assert Storable(h, manifest, length); }
    assert read.tasks[task].stage == Backing(RecordOf(h, length));
    NextKeepsInv(s, Move(task, Read(true)), manifest, length);
    RunKeepsInv(read, others, manifest, length);
    OthersLeaveTask(read, others, task, id, length);
    NextKeepsInv(waiting, Move(task, WriteBackup(outcome)), manifest, length);
    RunKeepsInv(backed, later, manifest, length);
    if NeverReplacesBackup(backed, later, id, length) {
      BackupStays(backed, later, id, length);
      BackupIsLoaded(Run(backed, later, id, length), h, manifest, length, steps, damaged);
    }
  }

  /** So what is recovered is the last snapshot or the one before it when at most one save took effect
      since the last writer of the backup read. */
  lemma RecentlyReadIsRecent(
    s: State, task: nat, others: seq<Move>, outcome: WriteOutcome, later: seq<Move>,
    manifest: Manifest, length: JsonLength, steps: Steps, damaged: Option<Raw>)
    requires Inv(s, manifest, length) && s.history != []
    requires task in s.tasks && s.tasks[task].stage.Reading? && s.tasks[task].snapshot.pluginId == manifest.id
    requires forall m | m in others :: m.task != task && Proper(m, manifest)
    requires !outcome.Lost? && forall m | m in later :: Proper(m, manifest)
    requires damaged.Some? ==> Decode(manifest, damaged.value, steps).Err?
    ensures var read := Next(s, Move(task, Read(true)), manifest.id, length);
      var backed := Next(Run(read, others, manifest.id, length), Move(task, WriteBackup(outcome)), manifest.id, length);
      var after := Run(backed, later, manifest.id, length);
      var n, r := |after.history|, LoadFrom(WithoutPrimary(after.prefs, manifest.id, damaged), manifest, steps);
      && s.history <= after.history
      && (NeverReplacesBackup(backed, later, manifest.id, length) && n <= |s.history| + 1 ==>
            || r == Ok(Loaded(after.history[n - 1], true))
            || (n > 1 && r == Ok(Loaded(after.history[n - 2], true))))
  {
    hide Decode, RecordOf, Run, LoadFrom, WithoutPrimary, Next, Inv, Proper, NeverReplacesBackup;
    BackupIsWhatItsWriterRead(s, task, others, outcome, later, manifest, length, steps, damaged);
  }

  /** Two overlapping saves: the first reads, the second runs to its end, and the first goes on. The
      backup is then older than both, although each save wrote a backup. */
  lemma OverlappingSavesLeaveAnOldBackup(
    s: State, first: nat, second: nat, b: Snapshot, c: Snapshot, manifest: Manifest, length: JsonLength)
    requires Inv(s, manifest, length) && s.history != [] && first != second
    requires first !in s.tasks && second !in s.tasks
    requires Storable(b, manifest, length) && Storable(c, manifest, length)
    ensures var begun := Next(s, Move(first, Begin(c)), manifest.id, length);
      var read := Next(begun, Move(first, Read(true)), manifest.id, length);
      var between := Run(read, Alone(b, second, SaveOutcome(true, Written, Written)), manifest.id, length);
      var backed := Next(between, Move(first, WriteBackup(Written)), manifest.id, length);
      var after := Next(backed, Move(first, WritePrimary(Written)), manifest.id, length);
      && after.history == s.history + [b, c]
      && IsRecord(after.prefs, BackupKey(manifest.id), s.history[|s.history| - 1], length)
  {
    hide RecordOf, PrimaryKey, BackupKey, Run, Typed, NothingSensitive, WasPrimary;
    var id, h := manifest.id, s.history[|s.history| - 1];
    var outcome := SaveOutcome(true, Written, Written);
    KeysNeverCollide(id, id);
    assert b.pluginId == id && c.pluginId == id by { SameIds(b, manifest, length); SameIds(c, manifest, length); }
    var read := Next(Next(s, Move(first, Begin(c)), id, length), Move(first, Read(true)), id, length);
    assert Storable(h, manifest, length);
    assert read.tasks[first] == SaveTask(c, Backing(RecordOf(h, length)));
    AloneIsSaved(read, b, second, outcome, id, length);
    var between := Run(read, Alone(b, second, outcome), id, length);
    assert between.history == s.history + [b];
    var backed := Next(between, Move(first, WriteBackup(Written)), id, length);
    var after := Next(backed, Move(first, WritePrimary(Written)), id, length);
    assert after.history == between.history + [c];
  }

  lemma SameIds(s: Snapshot, manifest: Manifest, length: JsonLength)
    requires Storable(s, manifest, length)
    ensures s.pluginId == manifest.id
  {
  }

  /** Two first saves that both read before either writes leave two versions and no backup. */
  lemma FirstSavesLeaveNoBackup(
    first: nat, second: nat, a: Snapshot, b: Snapshot, manifest: Manifest, length: JsonLength)
    requires manifest.IsValid() && first != second
    requires Storable(a, manifest, length) && Storable(b, manifest, length)
    ensures var moves := [Move(first, Begin(a)), Move(first, Read(true))];
      var started := Run(Start, moves, manifest.id, length);
      var between := Run(started, Alone(b, second, SaveOutcome(true, Written, Written)), manifest.id, length);
      var after := Next(between, Move(first, WritePrimary(Written)), manifest.id, length);
      after.history == [b, a] && BackupKey(manifest.id) !in after.prefs
  {
    hide RecordOf, PrimaryKey, BackupKey, Typed, NothingSensitive, Alone;
    var id, outcome := manifest.id, SaveOutcome(true, Written, Written);
    KeysNeverCollide(id, id);
    SameIds(a, manifest, length);
    SameIds(b, manifest, length);
    var moves := [Move(first, Begin(a)), Move(first, Read(true))];
    assert moves[1..][0] == moves[1] && moves[1..][1..] == [];
    var begun := Next(Start, moves[0], id, length);
    var started := Next(begun, moves[1], id, length);
    assert Run(Start, moves, id, length) == Run(begun, moves[1..], id, length);
    assert Run(begun, moves[1..], id, length) == Run(started, [], id, length) == started;
    AloneIsSaved(started, b, second, outcome, id, length);
  }

  // ---------------------------------------------------------------- a load between the sections of saves

  /** A load that reads the primary in one state and, when it needs to, the backup in a later one. */
  function LoadAcross(first: Preferences, later: Preferences, manifest: Manifest, steps: Steps)
    : Result<Loaded, StoreError>
  {
    var primary, backup := PrimaryKey(manifest.id), BackupKey(manifest.id);
    if primary in first then
      var snapshot := Decode(manifest, first[primary], steps);
      if snapshot.Ok? then Ok(Loaded(snapshot.value, false))
      else if backup !in later then Err(snapshot.error)
      else
        var recovered := FromBackup(manifest, later[backup], steps);
        if recovered.Err? then Err(RecoveryFailed) else recovered
    else if backup in later then FromBackup(manifest, later[backup], steps)
    else Defaults(manifest)
  }

  lemma LoadAcrossNothingIsLoad(prefs: Preferences, manifest: Manifest, steps: Steps)
    ensures LoadAcross(prefs, prefs, manifest, steps) == LoadFrom(prefs, manifest, steps)
  {
    hide Decode, Defaults, PrimaryKey, BackupKey;
  }

  /** A load whose reads are cut apart by any saves returns the last primary of its first read, or, with no
      save before that, the defaults or something that was primary by its second read. It then calls it
      recovered although nothing was ever damaged, exactly when a backup was written in between. */
  lemma LoadAcrossSavesGivesAPrimary(
    manifest: Manifest, length: JsonLength, steps: Steps, moves: seq<Move>, between: seq<Move>)
    requires manifest.IsValid() && forall m | m in moves + between :: Proper(m, manifest)
    ensures var first := Run(Start, moves, manifest.id, length);
      var later := Run(first, between, manifest.id, length);
      var r := LoadAcross(first.prefs, later.prefs, manifest, steps);
      if first.history != [] then r == Ok(Loaded(first.history[|first.history| - 1], false))
      else if NeverReplacesBackup(first, between, manifest.id, length) then r == Defaults(manifest)
      else exists h | h in later.history :: r == Ok(Loaded(h, true))
  {
    hide Decode, Defaults, Storable, RecordOf, PrimaryKey, BackupKey, Run, NeverReplacesBackup;
    var id := manifest.id;
    assert forall m | m in moves || m in between :: m in moves + between;
    RunKeepsInv(Start, moves, manifest, length);
    var first := Run(Start, moves, id, length);
    RunKeepsInv(first, between, manifest, length);
    var later := Run(first, between, id, length);
    BackupExistsExactlyWhenWritten(first, between, id, length);
    if first.history != [] {
      StorableDecodes(first.history[|first.history| - 1], manifest, length, steps);
    } else if BackupKey(id) in later.prefs {
      var h :| h in later.history && later.prefs[BackupKey(id)] == RecordOf(h, length);
      StorableDecodes(h, manifest, length, steps);
      assert FromBackup(manifest, later.prefs[BackupKey(id)], steps) == Ok(Loaded(h, true));
    }
  }
}
