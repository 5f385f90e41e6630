/** Settings of a plugin: the values a manifest allows, and snapshots that are checked when they are
    read and copied when they are updated. */
module PluginSettings {
  import opened Wrappers
  import opened Seqs
  import opened Text
  import opened OrderedMaps
  import opened PluginDescriptors

  const MAX_SETTING_KEY: nat := 64
  const MAX_PLUGIN_SETTINGS: nat := 64
  const MAX_ENUM_VALUES: nat := 64
  const MAX_SETTING_VALUE: nat := 1024
  const MAX_LIST_ITEMS: nat := 64

  datatype SettingKind = BooleanKind | IntegerKind | StringKind | EnumKind | StringListKind

  datatype SettingValue = Boolean(b: bool) | Integer(i: int) | String(s: string) | StringList(items: seq<string>)

  type Values = map<string, SettingValue>

  predicate IsSettingText(s: string) {
    s != [] && ByteLength(s) <= MAX_SETTING_VALUE
  }

  datatype Definition = Definition(
    key: string, kind: SettingKind, default: Option<SettingValue>, sensitive: bool, enumValues: seq<string>)
  {
    predicate Accepts(value: SettingValue) {
      match value
      case Boolean(_) => kind == BooleanKind
      case Integer(_) => kind == IntegerKind
      case String(s) => IsSettingText(s) && (kind == StringKind || (kind == EnumKind && s in enumValues))
      case StringList(items) =>
        kind == StringListKind && |items| <= MAX_LIST_ITEMS && forall s | s in items :: IsSettingText(s)
    }

    predicate IsValid() {
      && IsIdentifier(key, MAX_SETTING_KEY)
      && (if kind == EnumKind
          then 0 < |enumValues| <= MAX_ENUM_VALUES && Distinct(enumValues)
               && forall s | s in enumValues :: IsSettingText(s)
          else enumValues == [])
      && (default.Some? ==> Accepts(default.value))
    }
  }

  /** The part of a plugin's manifest that settings depend on. */
  datatype Manifest = Manifest(id: string, settings: seq<Definition>, otherFieldsValid: bool)
  {
    predicate IsValid() {
      && IsIdentifier(id, MAX_PLUGIN_ID) && otherFieldsValid
      && |settings| <= MAX_PLUGIN_SETTINGS
      && (forall d | d in settings :: d.IsValid())
      && (forall i, j | 0 <= i < j < |settings| :: settings[i].key != settings[j].key)
    }
  }

  datatype SettingsError =
    | InvalidDescriptor
    | NamespaceMismatch(key: string)
    | DuplicateKey(key: string)
    | UnknownSetting(key: string)
    | SensitiveSetting(key: string)
    | InvalidValue(key: string)

  type Definitions = map<string, Definition>

  datatype Snapshot = Snapshot(pluginId: string, namespace: string, definitions: Definitions, values: Values)

  function Namespace(id: string): string {
    "plugin." + id + "."
  }

  /** Collected by key; a later definition would replace an earlier one. */
  function DefinitionsOf(settings: seq<Definition>): Definitions {
    if settings == [] then map[]
    else
      var n := |settings| - 1;
      DefinitionsOf(settings[..n])[settings[n].key := settings[n]]
  }

  // ---------------------------------------------------------------- reading stored values

  /** What is wrong with one stored pair, taken alone. */
  function PairError(definitions: Definitions, namespace: string, pair: (string, SettingValue))
    : (r: Option<SettingsError>)
    ensures r.None? ==> namespace <= pair.0 && pair.0[|namespace|..] in definitions
    ensures r.None? ==>
      !definitions[pair.0[|namespace|..]].sensitive && definitions[pair.0[|namespace|..]].Accepts(pair.1)
  {
    if !(namespace <= pair.0) then Some(NamespaceMismatch(pair.0))
    else
      var key := pair.0[|namespace|..];
      if key !in definitions then Some(UnknownSetting(key))
      else if definitions[key].sensitive then Some(SensitiveSetting(key))
      else if !definitions[key].Accepts(pair.1) then Some(InvalidValue(pair.0))
      else None
  }

  function ReadPairs(definitions: Definitions, namespace: string, pairs: seq<(string, SettingValue)>, values: Values)
    : Result<Values, SettingsError>
    decreases |pairs|
  {
    if pairs == [] then Ok(values)
    else
      var error := PairError(definitions, namespace, pairs[0]);
      if error.Some? then Err(error.value)
      else
        var key := pairs[0].0[|namespace|..];
        if key in values then Err(DuplicateKey(pairs[0].0))
        else ReadPairs(definitions, namespace, pairs[1..], values[key := pairs[0].1])
  }

  predicate HasDefault(definitions: Definitions, key: string) {
    key in definitions && !definitions[key].sensitive && definitions[key].default.Some?
  }

  function WithDefaults(definitions: Definitions, values: Values): Values {
    map key | key in values.Keys + definitions.Keys && (key in values || HasDefault(definitions, key)) ::
      if key in values then values[key] else definitions[key].default.value
  }

  function FromPairs(manifest: Manifest, pairs: seq<(string, SettingValue)>): Result<Snapshot, SettingsError> {
    if !manifest.IsValid() then Err(InvalidDescriptor)
    else
      var namespace, definitions := Namespace(manifest.id), DefinitionsOf(manifest.settings);
      var values :- ReadPairs(definitions, namespace, pairs, map[]);
      Ok(Snapshot(manifest.id, namespace, definitions, WithDefaults(definitions, values)))
  }

  method FromNamespacedValues(manifest: Manifest, pairs: seq<(string, SettingValue)>)
    returns (r: Result<Snapshot, SettingsError>)
    ensures r == FromPairs(manifest, pairs)
  {
    hide PairError;
    if !manifest.IsValid() {
      return Err(InvalidDescriptor);
    }
    var namespace, definitions := Namespace(manifest.id), DefinitionsOf(manifest.settings);
    var values: Values := map[];
    for i := 0 to |pairs|
      invariant ReadPairs(definitions, namespace, pairs, map[]) == ReadPairs(definitions, namespace, pairs[i..], values)
    {
      var error := PairError(definitions, namespace, pairs[i]);
      if error.Some? {
        return Err(error.value);
      }
      var key := pairs[i].0[|namespace|..];
      if key in values {
        return Err(DuplicateKey(pairs[i].0));
      }
      values := values[key := pairs[i].1];
      assert pairs[i..][1..] == pairs[i + 1..];
    }
    var filled := FillDefaults(definitions, values);
    return Ok(Snapshot(manifest.id, namespace, definitions, filled));
  }

  method FillDefaults(definitions: Definitions, values: Values) returns (filled: Values)
    ensures filled == WithDefaults(definitions, values)
  {
    filled := values;
    var rest := definitions.Keys;
    while rest != {}
      invariant rest <= definitions.Keys
      invariant forall key :: key in filled <==> key in values || (HasDefault(definitions, key) && key !in rest)
      invariant forall key | key in filled ::
        filled[key] == if key in values then values[key] else definitions[key].default.value
      decreases |rest|
    {
      var key :| key in rest;
      if !definitions[key].sensitive && definitions[key].default.Some? && key !in filled {
        filled := filled[key := definitions[key].default.value];
      }
      rest := rest - {key};
    }
  }

  // ---------------------------------------------------------------- using a snapshot

  function SettingKey(s: Snapshot, qualified: string): Result<string, SettingsError> {
    if s.namespace <= qualified then Ok(qualified[|s.namespace|..]) else Err(NamespaceMismatch(qualified))
  }

  function QualifiedKey(s: Snapshot, key: string): Result<string, SettingsError> {
    if key !in s.definitions then Err(UnknownSetting(key))
    else if s.definitions[key].sensitive then Err(SensitiveSetting(key))
    else Ok(s.namespace + key)
  }

  function UpdateNamespaced(s: Snapshot, qualified: string, value: SettingValue): Result<Snapshot, SettingsError> {
    var key :- SettingKey(s, qualified);
    if key !in s.definitions then Err(UnknownSetting(key))
    else if !s.definitions[key].Accepts(value) then Err(InvalidValue(qualified))
    else Ok(s.(values := s.values[key := value]))
  }

  function Update(s: Snapshot, key: string, value: SettingValue): Result<Snapshot, SettingsError> {
    var qualified :- QualifiedKey(s, key);
    UpdateNamespaced(s, qualified, value)
  }

  function NamespacedValues(s: Snapshot): (values: Values)
    ensures forall key | key in s.values :: s.namespace + key in values && values[s.namespace + key] == s.values[key]
    ensures forall q | q in values :: s.namespace <= q && q[|s.namespace|..] in s.values
  {
    var qualified := set key | key in s.values :: s.namespace + key;
    assert forall key | key in s.values :: (s.namespace + key)[|s.namespace|..] == key;
    map q | q in qualified :: s.values[q[|s.namespace|..]]
  }

  // ---------------------------------------------------------------- what a snapshot holds

  /** The values are declared and of the declared kinds, and every default is filled in. */
  predicate Typed(s: Snapshot, manifest: Manifest) {
    && manifest.IsValid()
    && s.pluginId == manifest.id && s.namespace == Namespace(manifest.id)
    && s.definitions == DefinitionsOf(manifest.settings)
    && (forall key | key in s.values :: key in s.definitions && s.definitions[key].Accepts(s.values[key]))
    && (forall key | key in s.definitions && HasDefault(s.definitions, key) :: key in s.values)
  }

  predicate NothingSensitive(s: Snapshot) {
    forall key | key in s.values && key in s.definitions :: !s.definitions[key].sensitive
  }

  lemma {:induction false} DefinitionsAreListed(settings: seq<Definition>)
    ensures forall key | key in DefinitionsOf(settings) ::
      DefinitionsOf(settings)[key] in settings && DefinitionsOf(settings)[key].key == key
  {
    if settings != [] {
      var n := |settings| - 1;
      var before := settings[..n];
      DefinitionsAreListed(before);
      forall key | key in DefinitionsOf(settings)
        ensures DefinitionsOf(settings)[key] in settings && DefinitionsOf(settings)[key].key == key
      {
        if key != settings[n].key {
          var d := DefinitionsOf(before)[key];
          assert d in before && d in settings;
        }
      }
    }
  }

  /** Pairs are read exactly if every pair is right by itself and no key comes twice. */
  lemma {:induction false} ReadMeaning(
    definitions: Definitions, namespace: string, pairs: seq<(string, SettingValue)>, values: Values)
    ensures ReadPairs(definitions, namespace, pairs, values).Ok? <==>
      && (forall p | p in pairs :: PairError(definitions, namespace, p).None? && p.0[|namespace|..] !in values)
      && (forall i, j | 0 <= i < j < |pairs| :: pairs[i].0 != pairs[j].0)
    decreases |pairs|
  {
    hide PairError;
    if pairs != [] {
      var first, rest := pairs[0], pairs[1..];
      assert pairs == [first] + rest;
      if PairError(definitions, namespace, first).None? && first.0[|namespace|..] !in values {
        var key := first.0[|namespace|..];
        assert first.0 == namespace + key;
        ReadMeaning(definitions, namespace, rest, values[key := first.1]);
      }
    }
  }

  /** The values read are just the pairs. */
  lemma {:induction false} ReadValuesMeaning(
    definitions: Definitions, namespace: string, pairs: seq<(string, SettingValue)>, values: Values)
    requires ReadPairs(definitions, namespace, pairs, values).Ok?
    ensures var r := ReadPairs(definitions, namespace, pairs, values).value;
      && (forall key | key in values :: key in r && r[key] == values[key])
      && (forall p | p in pairs :: namespace <= p.0 && p.0[|namespace|..] in r && r[p.0[|namespace|..]] == p.1)
      && (forall key | key in r :: key in values || (namespace + key, r[key]) in pairs)
    decreases |pairs|
  {
    hide PairError;
    if pairs != [] {
      var first, rest := pairs[0], pairs[1..];
      assert pairs == [first] + rest;
      var key := first.0[|namespace|..];
      assert first.0 == namespace + key;
      ReadValuesMeaning(definitions, namespace, rest, values[key := first.1]);
    }
  }

  /** What is read is what a snapshot promises, without anything sensitive. */
  lemma ReadSnapshotIsTyped(manifest: Manifest, pairs: seq<(string, SettingValue)>)
    ensures var r := FromPairs(manifest, pairs);
      r.Ok? ==> Typed(r.value, manifest) && NothingSensitive(r.value)
  {
    hide PairError, ReadPairs, DefinitionsOf, IsIdentifier, IsSettingText;
    var namespace, definitions := Namespace(manifest.id), DefinitionsOf(manifest.settings);
    var r := ReadPairs(definitions, namespace, pairs, map[]);
    if manifest.IsValid() && r.Ok? {
      ReadPairsAreDeclared(definitions, namespace, pairs);
      DefinitionsAreListed(manifest.settings);
      assert forall key | key in definitions :: definitions[key] in manifest.settings && definitions[key].IsValid();
    }
  }

  /** Every value read is the one stored under its full key, or else the manifest's default. */
  lemma ReadValuesAreGiven(manifest: Manifest, pairs: seq<(string, SettingValue)>, key: string)
    requires FromPairs(manifest, pairs).Ok?
    ensures var s := FromPairs(manifest, pairs).value;
      var stored := exists p | p in pairs :: p.0 == s.namespace + key;
      && (key in s.values <==> stored || HasDefault(s.definitions, key))
      && (forall p | p in pairs && p.0 == s.namespace + key :: s.values[key] == p.1)
      && (key in s.values && !stored ==> Some(s.values[key]) == s.definitions[key].default)
  {
    hide PairError, ReadPairs, DefinitionsOf;
    var namespace, definitions := Namespace(manifest.id), DefinitionsOf(manifest.settings);
    var r := ReadPairs(definitions, namespace, pairs, map[]).value;
    ReadValuesMeaning(definitions, namespace, pairs, map[]);
    assert (namespace + key)[|namespace|..] == key;
    if key in r {
      assert (namespace + key, r[key]) in pairs;
    }
  }

  lemma ReadPairsAreDeclared(definitions: Definitions, namespace: string, pairs: seq<(string, SettingValue)>)
    requires ReadPairs(definitions, namespace, pairs, map[]).Ok?
    ensures var r := ReadPairs(definitions, namespace, pairs, map[]).value;
      forall key | key in r :: key in definitions && definitions[key].Accepts(r[key]) && !definitions[key].sensitive
  {
    hide PairError, ReadPairs;
    ReadMeaning(definitions, namespace, pairs, map[]);
    ReadValuesMeaning(definitions, namespace, pairs, map[]);
    var r := ReadPairs(definitions, namespace, pairs, map[]).value;
    forall key | key in r
      ensures key in definitions && definitions[key].Accepts(r[key]) && !definitions[key].sensitive
    {
      assert (namespace + key)[|namespace|..] == key;
      assert PairError(definitions, namespace, (namespace + key, r[key])).None?;
    }
  }

  /** The order of the stored pairs decides only which error is reported. */
  lemma OrderDoesNotMatter(manifest: Manifest, a: seq<(string, SettingValue)>, b: seq<(string, SettingValue)>)
    requires forall p :: p in a <==> p in b
    requires forall i, j | 0 <= i < j < |a| :: a[i].0 != a[j].0
    requires forall i, j | 0 <= i < j < |b| :: b[i].0 != b[j].0
    ensures FromPairs(manifest, a).Ok? <==> FromPairs(manifest, b).Ok?
    ensures FromPairs(manifest, a).Ok? ==> FromPairs(manifest, a) == FromPairs(manifest, b)
  {
    hide PairError;
    var namespace, definitions := Namespace(manifest.id), DefinitionsOf(manifest.settings);
    ReadMeaning(definitions, namespace, a, map[]);
    ReadMeaning(definitions, namespace, b, map[]);
    var ra, rb := ReadPairs(definitions, namespace, a, map[]), ReadPairs(definitions, namespace, b, map[]);
    if ra.Ok? {
      ReadValuesMeaning(definitions, namespace, a, map[]);
      ReadValuesMeaning(definitions, namespace, b, map[]);
      SamePairsSameValues(namespace, a, ra.value, rb.value);
      SamePairsSameValues(namespace, a, rb.value, ra.value);
      assert ra.value == rb.value;
    }
  }

  lemma SamePairsSameValues(namespace: string, pairs: seq<(string, SettingValue)>, a: Values, b: Values)
    requires forall key | key in a :: (namespace + key, a[key]) in pairs
    requires forall p | p in pairs :: |namespace| <= |p.0| && p.0[|namespace|..] in b && b[p.0[|namespace|..]] == p.1
    ensures forall key | key in a :: key in b && b[key] == a[key]
  {
    forall key | key in a
      ensures key in b && b[key] == a[key]
    {
      assert (namespace + key)[|namespace|..] == key;
    }
  }

  lemma StoredPairIsRight(s: Snapshot, manifest: Manifest, q: string)
    requires Typed(s, manifest) && q in NamespacedValues(s)
    ensures var key := q[|s.namespace|..];
      PairError(s.definitions, s.namespace, (q, NamespacedValues(s)[q]))
        == if s.definitions[key].sensitive then Some(SensitiveSetting(key)) else None
  {
    var key := q[|s.namespace|..];
    assert q == s.namespace + key;
  }

  /** A snapshot comes back from its stored form exactly when it holds nothing sensitive. */
  lemma RoundTripsExactlyWithoutSecrets(s: Snapshot, manifest: Manifest)
    requires Typed(s, manifest)
    ensures NothingSensitive(s) ==> FromPairs(manifest, Listed(NamespacedValues(s))) == Ok(s)
    ensures !NothingSensitive(s) ==> FromPairs(manifest, Listed(NamespacedValues(s))).Err?
  {
    if NothingSensitive(s) { StoredIsRead(s, manifest); } else { SecretIsRefused(s, manifest); }
  }

  lemma StoredIsRead(s: Snapshot, manifest: Manifest)
    requires Typed(s, manifest) && NothingSensitive(s)
    ensures FromPairs(manifest, Listed(NamespacedValues(s))) == Ok(s)
  {
    hide PairError, NamespacedValues, Listed, Leq;
    var stored := NamespacedValues(s);
    var pairs := Listed(stored);
    ListedFacts(stored);
    PairsAreRight(s, manifest, pairs);
    ReadMeaning(s.definitions, s.namespace, pairs, map[]);
    ReadValuesMeaning(s.definitions, s.namespace, pairs, map[]);
    ReadValuesAre(s, pairs, stored, ReadPairs(s.definitions, s.namespace, pairs, map[]).value);
    NothingToFill(s, manifest);
  }

  lemma NothingToFill(s: Snapshot, manifest: Manifest)
    requires Typed(s, manifest)
    ensures WithDefaults(s.definitions, s.values) == s.values
  {
  }

  lemma SecretIsRefused(s: Snapshot, manifest: Manifest)
    requires Typed(s, manifest) && !NothingSensitive(s)
    ensures FromPairs(manifest, Listed(NamespacedValues(s))).Err?
  {
    hide PairError, NamespacedValues, Listed, Leq;
    var stored := NamespacedValues(s);
    ListedFacts(stored);
    ReadMeaning(s.definitions, s.namespace, Listed(stored), map[]);
    var key :| key in s.values && s.definitions[key].sensitive;
    var q := s.namespace + key;
    StoredPairIsRight(s, manifest, q);
    assert q[|s.namespace|..] == key && (q, stored[q]) in Listed(stored);
  }

  lemma PairsAreRight(s: Snapshot, manifest: Manifest, pairs: seq<(string, SettingValue)>)
    requires Typed(s, manifest) && NothingSensitive(s)
    requires forall k, v :: (k, v) in pairs <==> k in NamespacedValues(s) && NamespacedValues(s)[k] == v
    ensures forall p | p in pairs :: PairError(s.definitions, s.namespace, p).None?
  {
    hide PairError, NamespacedValues;
    forall p | p in pairs
      ensures PairError(s.definitions, s.namespace, p).None?
    {
      var (q, v) := p;
      assert (q, v) in pairs;
      StoredPairIsRight(s, manifest, q);
    }
  }

  lemma ReadValuesAre(s: Snapshot, pairs: seq<(string, SettingValue)>, stored: Values, values: Values)
    requires stored == NamespacedValues(s)
    requires forall k, v :: (k, v) in pairs <==> k in stored && stored[k] == v
    requires forall p | p in pairs ::
      |s.namespace| <= |p.0| && p.0[|s.namespace|..] in values && values[p.0[|s.namespace|..]] == p.1
    requires forall key | key in values :: (s.namespace + key, values[key]) in pairs
    ensures values == s.values
  {
    hide NamespacedValues;
    forall key | key in s.values
      ensures key in values && values[key] == s.values[key]
    {
      assert (s.namespace + key, s.values[key]) in pairs;
      assert (s.namespace + key)[|s.namespace|..] == key;
    }
    forall key | key in values
      ensures key in s.values
    {
      assert (s.namespace + key)[|s.namespace|..] == key;
    }
  }

  /** `update` takes exactly declared, non-sensitive keys with values of their kind, changes that value
      only, and leaves a snapshot that can be stored. */
  lemma UpdateMeaning(s: Snapshot, manifest: Manifest, key: string, value: SettingValue)
    requires Typed(s, manifest)
    ensures var r := Update(s, key, value);
      && (r.Ok? <==> key in s.definitions && !s.definitions[key].sensitive && s.definitions[key].Accepts(value))
      && (r.Ok? ==> r.value == s.(values := s.values[key := value]) && Typed(r.value, manifest)
                    && (NothingSensitive(s) ==> NothingSensitive(r.value)))
  {
    assert (s.namespace + key)[|s.namespace|..] == key;
  }

  /** `update_namespaced` does not look at `sensitive`: what it returns can be stored and read again
      exactly when the key it was given is not a sensitive one. */
  lemma UpdateNamespacedIsReadableExactlyWhenNotSensitive(
    s: Snapshot, manifest: Manifest, key: string, value: SettingValue)
    requires Typed(s, manifest) && NothingSensitive(s) && key in s.definitions && s.definitions[key].Accepts(value)
    ensures var r := UpdateNamespaced(s, s.namespace + key, value);
      && r == Ok(s.(values := s.values[key := value])) && Typed(r.value, manifest)
      && (FromPairs(manifest, Listed(NamespacedValues(r.value))) == Ok(r.value) <==> !s.definitions[key].sensitive)
  {
    hide FromPairs, Listed, NamespacedValues;
    assert (s.namespace + key)[|s.namespace|..] == key;
    RoundTripsExactlyWithoutSecrets(s.(values := s.values[key := value]), manifest);
  }

  // ---------------------------------------------------------------- namespaces

  predicate ShareAKey(p: string, q: string, k1: string, k2: string) {
    IsIdentifier(k1, MAX_SETTING_KEY) && IsIdentifier(k2, MAX_SETTING_KEY) && Namespace(p) + k1 == Namespace(q) + k2
  }

  /** `q` is `p` with more identifier parts behind it. */
  predicate Nested(p: string, q: string) {
    |p| + 1 < |q| && p + "." == q[..|p| + 1] && IsLowerAlphanumeric(q[|p| + 1])
  }

  /** The namespaces of two plugins overlap exactly when one identifier continues the other after a dot. */
  lemma NamespacesOverlapExactlyWhenNested(p: string, q: string)
    requires IsIdentifier(p, MAX_PLUGIN_ID) && IsIdentifier(q, MAX_PLUGIN_ID) && p != q
    ensures (exists k1, k2 :: ShareAKey(p, q, k1, k2)) <==> Nested(p, q) || Nested(q, p)
  {
    if Nested(p, q) {
      NestedShareAKey(p, q);
    } else if Nested(q, p) {
      NestedShareAKey(q, p);
      assert ShareAKey(p, q, "a", p[|q| + 1..] + ".a");
    }
    forall k1, k2 | ShareAKey(p, q, k1, k2)
      ensures Nested(p, q) || Nested(q, p)
    {
      if |p| == |q| { SharedMeansSame(p, q, k1, k2); }
      if |p| < |q| { SharedMeansNested(p, q, k1, k2); } else { SharedMeansNested(q, p, k2, k1); }
    }
  }

  lemma SharedMeansSame(p: string, q: string, k1: string, k2: string)
    requires |p| == |q| && ShareAKey(p, q, k1, k2)
    ensures p == q
  {
    var a, b, n := Namespace(p) + k1, Namespace(q) + k2, |"plugin."|;
    assert a[n..n + |p|] == p && b[n..n + |q|] == q;
  }

  lemma NestedShareAKey(p: string, q: string)
    requires IsIdentifier(p, MAX_PLUGIN_ID) && IsIdentifier(q, MAX_PLUGIN_ID) && Nested(p, q)
    ensures ShareAKey(p, q, q[|p| + 1..] + ".a", "a")
  {
    var rest := q[|p| + 1..];
    assert q == p + "." + rest;
    assert Namespace(p) + (rest + ".a") == Namespace(q) + "a";
    assert rest[0] == q[|p| + 1];
  }

  lemma SharedMeansNested(p: string, q: string, k1: string, k2: string)
    requires IsIdentifier(p, MAX_PLUGIN_ID) && IsIdentifier(q, MAX_PLUGIN_ID) && |p| < |q|
    requires ShareAKey(p, q, k1, k2)
    ensures Nested(p, q)
  {
    var a, b := Namespace(p) + k1, Namespace(q) + k2;
    var n := |"plugin."|;
    assert forall i | 0 <= i < |p| :: a[n + i] == p[i];
    assert a[n + |p|] == '.' && a[n + |p| + 1] == k1[0];
    assert forall i | 0 <= i < |q| :: b[n + i] == q[i];
    assert b[n + |q|] == '.' && b[n + |q| + 1] == k2[0];
    assert q[|p|] == '.';
  }
}
