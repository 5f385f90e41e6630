/** Versioned saving of plugin settings with one backup. JSON is taken as an exact encoding whose
    length is given by a function; each storage operation may fail, and each write may take effect
    although the caller is told otherwise or is stopped before it hears of it. */
module SettingsStore {
  import opened Wrappers
  import opened OrderedMaps
  import opened PluginSettings

  const CURRENT_FORMAT: nat := 1
  const U16_MAX: nat := 65_535
  const MAX_PAYLOAD: nat := 128 * 1024
  const MAX_MIGRATION_STEPS: nat := 8

  // ---------------------------------------------------------------- keys

  function PrimaryKey(id: string): string {
    "plugin." + id + ".__snapshot.v1"
  }

  function BackupKey(id: string): string {
    "plugin." + id + ".__snapshot.backup.v1"
  }

  lemma SameFrame(prefix: string, a: string, b: string, suffix: string)
    requires prefix + a + suffix == prefix + b + suffix
    ensures a == b
  {
    var x, y := prefix + a + suffix, prefix + b + suffix;
    assert |x| == |prefix| + |a| + |suffix| && |y| == |prefix| + |b| + |suffix|;
    assert x[|prefix|..|x| - |suffix|] == a && y[|prefix|..|y| - |suffix|] == b;
  }

  /** Records of different plugins, and the two records of one plugin, never share a key. */
  lemma KeysNeverCollide(a: string, b: string)
    ensures PrimaryKey(a) != BackupKey(b)
    ensures PrimaryKey(a) == PrimaryKey(b) <==> a == b
    ensures BackupKey(a) == BackupKey(b) <==> a == b
  {
    var x, y := PrimaryKey(a), BackupKey(b);
    assert x[|x| - 4] == 't' && y[|y| - 4] == 'p';
    if PrimaryKey(a) == PrimaryKey(b) { SameFrame("plugin.", a, b, ".__snapshot.v1"); }
    if BackupKey(a) == BackupKey(b) { SameFrame("plugin.", a, b, ".__snapshot.backup.v1"); }
  }

  // ---------------------------------------------------------------- migration

  datatype MigrationStep = MigrationStep(toVersion: nat, migrate: Values -> Option<Values>)

  type Steps = map<nat, MigrationStep>

  datatype RegistrationError = NonConsecutiveVersions(from: nat, to: nat) | DuplicateStep(from: nat) | TooManyRegistered

  datatype MigrationError = MissingStep(from: nat) | Failed(from: nat, to: nat) | TooManySteps | TooManyValues

  function RegisterError(steps: Steps, from: nat, to: nat): Option<RegistrationError> {
    if to != Min(from + 1, U16_MAX) then Some(NonConsecutiveVersions(from, to))
    else if from in steps then Some(DuplicateStep(from))
    else if |steps| >= MAX_MIGRATION_STEPS then Some(TooManyRegistered)
    else None
  }

  function MigrateFrom(steps: Steps, version: nat, values: Values, left: nat): Result<Values, MigrationError>
    decreases left
  {
    if left == 0 then Err(TooManySteps)
    else if version == CURRENT_FORMAT then Ok(values)
    else if version !in steps then Err(MissingStep(version))
    else
      var step := steps[version];
      var next := step.migrate(values);
      if next.None? then Err(Failed(version, step.toVersion))
      else if |next.value| > MAX_PLUGIN_SETTINGS then Err(TooManyValues)
      else MigrateFrom(steps, step.toVersion, next.value, left - 1)
  }

  function MigrateAll(steps: Steps, version: nat, values: Values): Result<Values, MigrationError> {
    MigrateFrom(steps, version, values, MAX_MIGRATION_STEPS)
  }

  predicate Consecutive(steps: Steps) {
    |steps| <= MAX_MIGRATION_STEPS && forall v | v in steps :: steps[v].toVersion == Min(v + 1, U16_MAX)
  }

  /** Every stored version that is not refused reaches the current one in at most one step: the limit
      on steps is never met. */
  lemma AtMostOneStepRuns(steps: Steps, version: nat, values: Values)
    requires Consecutive(steps) && version <= CURRENT_FORMAT
    ensures var r := MigrateAll(steps, version, values);
      if version == CURRENT_FORMAT then r == Ok(values)
      else if version !in steps then r == Err(MissingStep(0))
      else
        var next := steps[version].migrate(values);
        r == if next.None? then Err(Failed(0, 1))
             else if |next.value| > MAX_PLUGIN_SETTINGS then Err(TooManyValues)
             else Ok(next.value)
  {
    if version < CURRENT_FORMAT && version in steps && steps[version].migrate(values).Some? {
      var next := steps[version].migrate(values).value;
      assert MigrateFrom(steps, CURRENT_FORMAT, next, MAX_MIGRATION_STEPS - 1) == Ok(next);
    }
  }

  class PluginSettingsMigrator {
    var steps: Steps

    ghost predicate Valid()
      reads this
    {
      Consecutive(steps)
    }

    constructor ()
      ensures Valid() && steps == map[]
    {
      steps := map[];
    }

    method Register(from: nat, to: nat, migrate: Values -> Option<Values>) returns (error: Option<RegistrationError>)
      requires Valid()
      modifies this
      ensures Valid() && error == RegisterError(old(steps), from, to)
      ensures steps == if error.None? then old(steps)[from := MigrationStep(to, migrate)] else old(steps)
    {
      if to != Min(from + 1, U16_MAX) {
        return Some(NonConsecutiveVersions(from, to));
      }
      if from in steps {
        return Some(DuplicateStep(from));
      }
      if |steps| >= MAX_MIGRATION_STEPS {
        return Some(TooManyRegistered);
      }
      steps := steps[from := MigrationStep(to, migrate)];
      return None;
    }

    method Migrate(fromVersion: nat, fromValues: Values) returns (r: Result<Values, MigrationError>)
      ensures r == MigrateAll(steps, fromVersion, fromValues)
    {
      var version, values := fromVersion, fromValues;
      for i := 0 to MAX_MIGRATION_STEPS
        invariant MigrateFrom(steps, fromVersion, fromValues, MAX_MIGRATION_STEPS)
          == MigrateFrom(steps, version, values, MAX_MIGRATION_STEPS - i)
      {
        if version == CURRENT_FORMAT {
          return Ok(values);
        }
        if version !in steps {
          return Err(MissingStep(version));
        }
        var step := steps[version];
        var next := step.migrate(values);
        if next.None? {
          return Err(Failed(version, step.toVersion));
        }
        if |next.value| > MAX_PLUGIN_SETTINGS {
          return Err(TooManyValues);
        }
        version, values := step.toVersion, next.value;
      }
      return Err(TooManySteps);
    }
  }

  // ---------------------------------------------------------------- encoding

  datatype Envelope = Envelope(formatVersion: nat, values: Values)

  /** A stored text: the encoding of an envelope, or anything else. */
  datatype Raw = Json(envelope: Envelope, bytes: nat) | Garbage(bytes: nat)

  datatype StoreError =
    | StorageFailed
    | CorruptPayload
    | UnsupportedFormat(version: nat)
    | PayloadTooLarge(bytes: nat)
    | InvalidSnapshot(error: SettingsError)
    | MigrationFailed(migration: MigrationError)
    | RecoveryFailed

  type JsonLength = Envelope -> nat

  function RecordOf(s: Snapshot, length: JsonLength): Raw {
    var envelope := Envelope(CURRENT_FORMAT, NamespacedValues(s));
    Json(envelope, length(envelope))
  }

  function Encode(s: Snapshot, length: JsonLength): Result<Raw, StoreError> {
    var record := RecordOf(s, length);
    if record.bytes > MAX_PAYLOAD then Err(PayloadTooLarge(record.bytes)) else Ok(record)
  }

  function Decode(manifest: Manifest, raw: Raw, steps: Steps): Result<Snapshot, StoreError> {
    if raw.bytes > MAX_PAYLOAD then Err(PayloadTooLarge(raw.bytes))
    else if raw.Garbage? then Err(CorruptPayload)
    else if raw.envelope.formatVersion > CURRENT_FORMAT then Err(UnsupportedFormat(raw.envelope.formatVersion))
    else
      var values := MigrateAll(steps, raw.envelope.formatVersion, raw.envelope.values);
      if values.Err? then Err(MigrationFailed(values.error))
      else
        var snapshot := FromPairs(manifest, Listed(values.value));
        if snapshot.Err? then Err(InvalidSnapshot(snapshot.error)) else Ok(snapshot.value)
  }

  /** What may be saved so that it can be loaded again. */
  predicate Storable(s: Snapshot, manifest: Manifest, length: JsonLength) {
    Typed(s, manifest) && NothingSensitive(s) && RecordOf(s, length).bytes <= MAX_PAYLOAD
  }

  /** Of the snapshots that can be encoded, exactly those without sensitive values decode again, and
      they decode to themselves. */
  lemma DecodesExactlyWithoutSecrets(s: Snapshot, manifest: Manifest, length: JsonLength, steps: Steps)
    requires Typed(s, manifest) && Encode(s, length).Ok?
    ensures Decode(manifest, Encode(s, length).value, steps).Ok? <==> NothingSensitive(s)
    ensures NothingSensitive(s) ==> Decode(manifest, Encode(s, length).value, steps) == Ok(s)
  {
    hide FromPairs, Listed, NamespacedValues;
    RoundTripsExactlyWithoutSecrets(s, manifest);
    assert MigrateFrom(steps, CURRENT_FORMAT, NamespacedValues(s), MAX_MIGRATION_STEPS) == Ok(NamespacedValues(s));
  }

  // ---------------------------------------------------------------- loading and saving

  type Preferences = map<string, Raw>

  datatype Loaded = Loaded(snapshot: Snapshot, recoveredFromBackup: bool)

  function Defaults(manifest: Manifest): Result<Loaded, StoreError> {
    var snapshot := FromPairs(manifest, []);
    if snapshot.Err? then Err(InvalidSnapshot(snapshot.error)) else Ok(Loaded(snapshot.value, false))
  }

  function FromBackup(manifest: Manifest, raw: Raw, steps: Steps): Result<Loaded, StoreError> {
    var snapshot := Decode(manifest, raw, steps);
    if snapshot.Err? then Err(snapshot.error) else Ok(Loaded(snapshot.value, true))
  }

  /** Loading when both reads succeed. */
  function LoadFrom(prefs: Preferences, manifest: Manifest, steps: Steps): Result<Loaded, StoreError> {
    var primary, backup := PrimaryKey(manifest.id), BackupKey(manifest.id);
    if primary in prefs then
      var snapshot := Decode(manifest, prefs[primary], steps);
      if snapshot.Ok? then Ok(Loaded(snapshot.value, false))
      else if backup !in prefs then Err(snapshot.error)
      else
        var recovered := FromBackup(manifest, prefs[backup], steps);
        if recovered.Err? then Err(RecoveryFailed) else recovered
    else if backup in prefs then FromBackup(manifest, prefs[backup], steps)
    else Defaults(manifest)
  }

  /** Whether loading looks at the backup at all. */
  predicate NeedsBackup(prefs: Preferences, manifest: Manifest, steps: Steps) {
    PrimaryKey(manifest.id) in prefs ==> Decode(manifest, prefs[PrimaryKey(manifest.id)], steps).Err?
  }

  datatype WriteOutcome = Written | Lost | WrittenUnreported

  datatype SaveOutcome = SaveOutcome(readOk: bool, backup: WriteOutcome, primary: WriteOutcome)

  function Write(prefs: Preferences, key: string, raw: Raw, outcome: WriteOutcome): Preferences {
    if outcome.Lost? then prefs else prefs[key := raw]
  }

  function Saved(prefs: Preferences, s: Snapshot, length: JsonLength, outcome: SaveOutcome)
    : (Preferences, Option<StoreError>)
  {
    var encoded := Encode(s, length);
    var primary, backup := PrimaryKey(s.pluginId), BackupKey(s.pluginId);
    if encoded.Err? then (prefs, Some(encoded.error))
    else if !outcome.readOk then (prefs, Some(StorageFailed))
    else if primary in prefs && prefs[primary].bytes > MAX_PAYLOAD then
      (prefs, Some(PayloadTooLarge(prefs[primary].bytes)))
    else
      var backed := if primary in prefs then Write(prefs, backup, prefs[primary], outcome.backup) else prefs;
      if primary in prefs && !outcome.backup.Written? then (backed, Some(StorageFailed))
      else (Write(backed, primary, encoded.value, outcome.primary),
            if outcome.primary.Written? then None else Some(StorageFailed))
  }

  /** Whether a save's primary write takes effect. */
  predicate TakesEffect(prefs: Preferences, s: Snapshot, length: JsonLength, outcome: SaveOutcome) {
    var primary := PrimaryKey(s.pluginId);
    && Encode(s, length).Ok? && outcome.readOk && !outcome.primary.Lost?
    && (primary in prefs ==> prefs[primary].bytes <= MAX_PAYLOAD && outcome.backup.Written?)
  }

  // ---------------------------------------------------------------- what always holds

  predicate IsRecord(prefs: Preferences, key: string, s: Snapshot, length: JsonLength) {
    key in prefs && prefs[key] == RecordOf(s, length)
  }

  /** `history` lists the snapshots of one plugin whose primary write took effect: the primary record
      is the last of them, the backup, if there is one, is the last or the one before. */
  predicate Recorded(prefs: Preferences, manifest: Manifest, length: JsonLength, history: seq<Snapshot>) {
    var primary, backup, n := PrimaryKey(manifest.id), BackupKey(manifest.id), |history|;
    && manifest.IsValid()
    && (forall s | s in history :: Storable(s, manifest, length))
    && (n == 0 ==> primary !in prefs && backup !in prefs)
    && (n > 0 ==> IsRecord(prefs, primary, history[n - 1], length))
    && (n > 1 ==> backup in prefs)
    && (backup in prefs ==> n > 0)
    && (backup in prefs ==>
          IsRecord(prefs, backup, history[n - 1], length) || (n > 1 && IsRecord(prefs, backup, history[n - 2], length)))
  }

  datatype SaveCall = SaveCall(snapshot: Snapshot, outcome: SaveOutcome)

  function HistoryAfter(
    prefs: Preferences, id: string, length: JsonLength, history: seq<Snapshot>, call: SaveCall): seq<Snapshot>
  {
    if call.snapshot.pluginId == id && TakesEffect(prefs, call.snapshot, length, call.outcome)
    then history + [call.snapshot] else history
  }

  /** A call that may belong to any plugin; this plugin saves only what passed its checks. */
  predicate Proper(call: SaveCall, manifest: Manifest) {
    call.snapshot.pluginId == manifest.id ==> Typed(call.snapshot, manifest) && NothingSensitive(call.snapshot)
  }

  /** A save touches only the two records of its own plugin. */
  lemma SaveTouchesOwnRecords(prefs: Preferences, s: Snapshot, length: JsonLength, outcome: SaveOutcome, id: string)
    requires s.pluginId != id
    ensures var after := Saved(prefs, s, length, outcome).0;
      && (PrimaryKey(id) in after <==> PrimaryKey(id) in prefs)
      && (BackupKey(id) in after <==> BackupKey(id) in prefs)
      && (PrimaryKey(id) in prefs ==> after[PrimaryKey(id)] == prefs[PrimaryKey(id)])
      && (BackupKey(id) in prefs ==> after[BackupKey(id)] == prefs[BackupKey(id)])
  {
    hide Encode, PrimaryKey, BackupKey;
    KeysNeverCollide(id, s.pluginId);
    KeysNeverCollide(s.pluginId, id);
  }

  lemma SaveKeepsRecorded(
    prefs: Preferences, manifest: Manifest, length: JsonLength, history: seq<Snapshot>, call: SaveCall)
    requires Recorded(prefs, manifest, length, history) && Proper(call, manifest)
    ensures Recorded(Saved(prefs, call.snapshot, length, call.outcome).0, manifest, length,
                     HistoryAfter(prefs, manifest.id, length, history, call))
  {
    hide RecordOf, PrimaryKey, BackupKey, Typed, NothingSensitive;
    KeysNeverCollide(manifest.id, manifest.id);
    if call.snapshot.pluginId != manifest.id {
      SaveTouchesOwnRecords(prefs, call.snapshot, length, call.outcome, manifest.id);
    }
  }

  function Run(prefs: Preferences, length: JsonLength, calls: seq<SaveCall>): Preferences
    decreases |calls|
  {
    if calls == [] then prefs
    else Run(Saved(prefs, calls[0].snapshot, length, calls[0].outcome).0, length, calls[1..])
  }

  function HistoryOf(
    prefs: Preferences, id: string, length: JsonLength, history: seq<Snapshot>, calls: seq<SaveCall>): seq<Snapshot>
    decreases |calls|
  {
    if calls == [] then history
    else HistoryOf(Saved(prefs, calls[0].snapshot, length, calls[0].outcome).0, id, length,
                   HistoryAfter(prefs, id, length, history, calls[0]), calls[1..])
  }

  lemma {:induction false} EveryRunIsRecorded(
    prefs: Preferences, manifest: Manifest, length: JsonLength, history: seq<Snapshot>, calls: seq<SaveCall>)
    requires Recorded(prefs, manifest, length, history) && forall c | c in calls :: Proper(c, manifest)
    ensures Recorded(Run(prefs, length, calls), manifest, length, HistoryOf(prefs, manifest.id, length, history, calls))
    decreases |calls|
  {
    hide Recorded, Saved, HistoryAfter, Proper;
    if calls != [] {
      SaveKeepsRecorded(prefs, manifest, length, history, calls[0]);
      EveryRunIsRecorded(Saved(prefs, calls[0].snapshot, length, calls[0].outcome).0, manifest, length,
                         HistoryAfter(prefs, manifest.id, length, history, calls[0]), calls[1..]);
    }
  }

  lemma StorableDecodes(s: Snapshot, manifest: Manifest, length: JsonLength, steps: Steps)
    requires Storable(s, manifest, length)
    ensures Decode(manifest, RecordOf(s, length), steps) == Ok(s)
  {
    hide Decode, Typed, NothingSensitive;
    DecodesExactlyWithoutSecrets(s, manifest, length, steps);
  }

  /** What loading returns when nothing was ever saved: the defaults of the manifest. */
  lemma DefaultsAreTheManifests(manifest: Manifest)
    requires manifest.IsValid()
    ensures var r := Defaults(manifest);
      && r.Ok? && !r.value.recoveredFromBackup && Typed(r.value.snapshot, manifest)
      && (forall key :: key in r.value.snapshot.values <==>
            key in r.value.snapshot.definitions && HasDefault(r.value.snapshot.definitions, key))
      && forall key | key in r.value.snapshot.values ::
           Some(r.value.snapshot.values[key]) == r.value.snapshot.definitions[key].default
  {
    ReadSnapshotIsTyped(manifest, []);
  }

  /** After every run of saves by any plugins, each save allowed to fail or stop at any point: loading
      returns the last snapshot whose primary write took effect, or the defaults if there is none. */
  lemma LoadReturnsLastSaved(manifest: Manifest, length: JsonLength, steps: Steps, calls: seq<SaveCall>)
    requires manifest.IsValid() && forall c | c in calls :: Proper(c, manifest)
    ensures var history := HistoryOf(map[], manifest.id, length, [], calls);
      LoadFrom(Run(map[], length, calls), manifest, steps)
        == if history == [] then Defaults(manifest) else Ok(Loaded(history[|history| - 1], false))
  {
    hide Decode, Defaults, Storable, RecordOf, PrimaryKey, BackupKey;
    var history := HistoryOf(map[], manifest.id, length, [], calls);
    EveryRunIsRecorded(map[], manifest, length, [], calls);
    if history != [] {
      StorableDecodes(history[|history| - 1], manifest, length, steps);
    }
  }

  /** If after such a run only the primary record is lost or replaced by something that does not
      decode, loading returns the last saved snapshot or the one before it, as long as there is a
      backup; there is one as soon as two saves took effect. */
  lemma DamagedPrimaryIsRecovered(
    manifest: Manifest, length: JsonLength, steps: Steps, calls: seq<SaveCall>, damaged: Option<Raw>)
    requires manifest.IsValid() && forall c | c in calls :: Proper(c, manifest)
    requires damaged.Some? ==> Decode(manifest, damaged.value, steps).Err?
    ensures var prefs, history := Run(map[], length, calls), HistoryOf(map[], manifest.id, length, [], calls);
      var primary := PrimaryKey(manifest.id);
      var broken := if damaged.None? then prefs - {primary} else prefs[primary := damaged.value];
      var r, n := LoadFrom(broken, manifest, steps), |history|;
      && (n > 1 ==> BackupKey(manifest.id) in prefs)
      && (BackupKey(manifest.id) in prefs ==>
            n > 0 && (r == Ok(Loaded(history[n - 1], true)) || (n > 1 && r == Ok(Loaded(history[n - 2], true)))))
  {
    hide Decode, Defaults, Storable, RecordOf, PrimaryKey, BackupKey;
    var history := HistoryOf(map[], manifest.id, length, [], calls);
    EveryRunIsRecorded(map[], manifest, length, [], calls);
    KeysNeverCollide(manifest.id, manifest.id);
    forall s | s in history
      ensures Decode(manifest, RecordOf(s, length), steps) == Ok(s)
    {
      StorableDecodes(s, manifest, length, steps);
    }
  }

  /** Loading succeeds exactly when the first record that is there decodes, or the backup does behind a
      damaged primary, or there is no record at all: the defaults never stand in for a record. What is
      wrong with a primary without a backup is reported as it is. */
  lemma DefaultsNeverHideARecord(prefs: Preferences, manifest: Manifest, steps: Steps)
    requires manifest.IsValid()
    ensures var primary, backup, r := PrimaryKey(manifest.id), BackupKey(manifest.id), LoadFrom(prefs, manifest, steps);
      var first := primary in prefs && Decode(manifest, prefs[primary], steps).Ok?;
      var second := backup in prefs && Decode(manifest, prefs[backup], steps).Ok?;
      && (r.Ok? <==> first || second || (primary !in prefs && backup !in prefs))
      && (first ==> r == Ok(Loaded(Decode(manifest, prefs[primary], steps).value, false)))
      && (!first && second ==> r == Ok(Loaded(Decode(manifest, prefs[backup], steps).value, true)))
      && (primary in prefs && !first && backup !in prefs ==>
            r.Err? && r.error == Decode(manifest, prefs[primary], steps).error)
      && (primary in prefs && !first && backup in prefs && !second ==> r == Err(RecoveryFailed))
  {
    hide Decode, Defaults, PrimaryKey, BackupKey;
    DefaultsAreTheManifests(manifest);
  }

  /** A save copies a damaged primary over the good backup: if it then stops before its own primary
      write, what could be recovered before can no longer be loaded. */
  lemma SavingOverDamageLosesTheBackup(
    prefs: Preferences, s: Snapshot, manifest: Manifest, length: JsonLength, steps: Steps, outcome: SaveOutcome)
    requires s.pluginId == manifest.id && Encode(s, length).Ok? && outcome.readOk
    requires PrimaryKey(manifest.id) in prefs && prefs[PrimaryKey(manifest.id)].bytes <= MAX_PAYLOAD
    requires Decode(manifest, prefs[PrimaryKey(manifest.id)], steps).Err?
    requires BackupKey(manifest.id) in prefs && Decode(manifest, prefs[BackupKey(manifest.id)], steps).Ok?
    ensures LoadFrom(prefs, manifest, steps).Ok?
    ensures LoadFrom(Saved(prefs, s, length, outcome).0, manifest, steps) == Err(RecoveryFailed)
      <==> (outcome.backup.WrittenUnreported? || (outcome.backup.Written? && outcome.primary.Lost?)
            || (outcome.backup.Written? && Decode(manifest, Encode(s, length).value, steps).Err?))
  {
    hide Decode, Encode, Defaults, PrimaryKey, BackupKey;
    KeysNeverCollide(manifest.id, manifest.id);
  }

  /** On a working disk a snapshot that fits can be saved exactly when the primary record it replaces
      is within the limit: a larger one is never replaced. */
  lemma SavesExactlyOverBoundedRecords(prefs: Preferences, s: Snapshot, length: JsonLength)
    requires Encode(s, length).Ok?
    ensures var (after, error) := Saved(prefs, s, length, SaveOutcome(true, Written, Written));
      && (error.None? <==> PrimaryKey(s.pluginId) in prefs ==> prefs[PrimaryKey(s.pluginId)].bytes <= MAX_PAYLOAD)
      && (error.Some? ==> after == prefs)
  {
  }

  // ---------------------------------------------------------------- the store object

  class PluginSettingsStore {
    var prefs: Preferences
    const steps: Steps
    const length: JsonLength

    constructor (prefs: Preferences, steps: Steps, length: JsonLength)
      ensures this.prefs == prefs && this.steps == steps && this.length == length
    {
      this.prefs, this.steps, this.length := prefs, steps, length;
    }

    function Read(key: string): Option<Raw>
      reads this
    {
      if key in prefs then Some(prefs[key]) else None
    }

    method SetPreference(key: string, raw: Raw, outcome: WriteOutcome) returns (ok: bool)
      modifies this
      ensures prefs == Write(old(prefs), key, raw, outcome) && ok == outcome.Written?
    {
      if !outcome.Lost? {
        prefs := prefs[key := raw];
      }
      return outcome.Written?;
    }

    /** A failed read of either record is reported as it is. */
    method Load(manifest: Manifest, primaryReads: bool, backupReads: bool) returns (r: Result<Loaded, StoreError>)
      ensures r ==
        if !primaryReads || (!backupReads && NeedsBackup(prefs, manifest, steps)) then Err(StorageFailed)
        else LoadFrom(prefs, manifest, steps)
    {
      hide Decode, Defaults, PrimaryKey, BackupKey;
      if !primaryReads {
        return Err(StorageFailed);
      }
      var primary := Read(PrimaryKey(manifest.id));
      if primary.Some? {
        var snapshot := Decode(manifest, primary.value, steps);
        if snapshot.Ok? {
          return Ok(Loaded(snapshot.value, false));
        }
        if !backupReads {
          return Err(StorageFailed);
        }
        var backup := Read(BackupKey(manifest.id));
        if backup.None? {
          return Err(snapshot.error);
        }
        var recovered := Decode(manifest, backup.value, steps);
        return if recovered.Ok? then Ok(Loaded(recovered.value, true)) else Err(RecoveryFailed);
      }
      if !backupReads {
        return Err(StorageFailed);
      }
      var backup := Read(BackupKey(manifest.id));
      if backup.Some? {
        return FromBackup(manifest, backup.value, steps);
      }
      return Defaults(manifest);
    }

    method Save(s: Snapshot, outcome: SaveOutcome) returns (error: Option<StoreError>)
      modifies this
      ensures (prefs, error) == Saved(old(prefs), s, length, outcome)
    {
      hide Encode, PrimaryKey, BackupKey;
      var encoded := Encode(s, length);
      if encoded.Err? {
        return Some(encoded.error);
      }
      if !outcome.readOk {
        return Some(StorageFailed);
      }
      var current := Read(PrimaryKey(s.pluginId));
      if current.Some? {
        if current.value.bytes > MAX_PAYLOAD {
          return Some(PayloadTooLarge(current.value.bytes));
        }
        var backed := SetPreference(BackupKey(s.pluginId), current.value, outcome.backup);
        if !backed {
          return Some(StorageFailed);
        }
      }
      var saved := SetPreference(PrimaryKey(s.pluginId), encoded.value, outcome.primary);
      return if saved then None else Some(StorageFailed);
    }
  }
}
