/** The static plugin host: registration with rollback, initialization in order with failure
    isolation, shutdown in reverse order. Callback outcomes are arbitrary. */
module PluginHost {
  import opened Text
  import opened Wrappers
  import opened Seqs
  import opened StableOrder
  import opened PluginDescriptors
  import opened ToolRegistry
  import opened PluginCatalog
  import opened PluginTasks
  import opened PluginLifecycle

  datatype HostPhase = Registering | Running | Closing | Stopped

  datatype Stage = InitializeStage | ShutdownStage

  datatype Plugin = Plugin(descriptor: PluginDescriptor, tools: seq<Tool>, catalogEntries: seq<CatalogEntry>)

  datatype PluginRecord = PluginRecord(plugin: Plugin, context: PluginContext)

  /** The log of callbacks made, with their outcome. */
  datatype Call = InitializeCall(id: string, ok: bool) | ShutdownCall(id: string, ok: bool)

  /** What is not under the host's operation lock: plugins starting and dropping tasks, and users
      changing the order or the visibility of tools. */
  datatype Outside = Activity(record: nat, event: TaskEvent) | Layout(after: seq<ToolEntry>)

  /** What the environment does when it is called back: whether settings load, whether the plugin's
      callbacks succeed, and what they do with tasks meanwhile; and what comes from outside before the
      host turns to a record. */
  datatype Callbacks = Callbacks(
    prepare: string -> bool, initialize: string -> bool, shutdown: string -> bool,
    activity: string -> seq<TaskEvent>, between: nat -> seq<Outside>)

  datatype HostState = HostState(
    phase: HostPhase, records: seq<PluginRecord>, tools: seq<ToolEntry>, catalog: seq<CatalogEntry>,
    failures: map<string, Stage>, rejected: seq<string>, calls: seq<Call>)

  datatype HostError =
    | RegistrationClosed
    | RegistrationFailed(registryCause: RegistrationError)
    | CatalogFailed(catalogCause: CatalogError)

  const EmptyHost := HostState(Registering, [], [], [], map[], [], [])

  function RecordId(record: PluginRecord): string { record.context.pluginId }

  function RecordIds(records: seq<PluginRecord>): seq<string> { Map(records, RecordId) }

  function NewRecord(plugin: Plugin, granted: set<string>): PluginRecord {
    PluginRecord(plugin,
      PluginContext(plugin.descriptor.id, plugin.descriptor.capabilities, granted, Registered, EmptyTable))
  }

  function GroupOf(plugin: Plugin): seq<ToolEntry> {
    GroupFor(plugin.descriptor.EntryDescriptors(), plugin.descriptor, plugin.tools)
  }

  /** Whether a registration is taken: in the registering phase, by the registry and by the catalog. */
  ghost predicate Takes(h: HostState, plugin: Plugin) {
    && h.phase == Registering
    && Accepts(h.tools, plugin.descriptor, plugin.tools) && Fits(h.catalog, plugin.catalogEntries)
  }

  /** A plugin that is taken is appended everywhere; one that is not leaves only a diagnostic. */
  ghost function AfterRegister(h: HostState, plugin: Plugin, granted: set<string>): HostState {
    if Takes(h, plugin) then
      h.(records := h.records + [NewRecord(plugin, granted)], tools := h.tools + GroupOf(plugin),
         catalog := h.catalog + plugin.catalogEntries)
    else h.(rejected := h.rejected + [plugin.descriptor.id])
  }

  function WithContext(h: HostState, i: nat, context: PluginContext): HostState
    requires i < |h.records|
  {
    h.(records := h.records[i := h.records[i].(context := context)])
  }

  predicate IsLayout(tools: seq<ToolEntry>, after: seq<ToolEntry>) {
    multiset(after) == multiset(tools) || FlagsOnly(tools, after)
  }

  function AfterOutside(h: HostState, event: Outside): (r: HostState)
    ensures |r.records| == |h.records| && r.phase == h.phase
  {
    match event
    case Activity(i, e) => if i < |h.records| then WithContext(h, i, h.records[i].context.Perform(e)) else h
    case Layout(after) => if IsLayout(h.tools, after) then h.(tools := after) else h
  }

  function AfterAllOutside(h: HostState, events: seq<Outside>): (r: HostState)
    ensures |r.records| == |h.records| && r.phase == h.phase
    decreases |events|
  {
    if events == [] then h else AfterAllOutside(AfterOutside(h, events[0]), events[1..])
  }

  /** A plugin whose preparation or initialization failed: tasks stopped, tools withdrawn. */
  function Disabled(h: HostState, i: nat): HostState
    requires i < |h.records|
  {
    var context := h.records[i].context;
    WithContext(h, i, context.StopTasks().(state := Failed)).(
      tools := Filter(h.tools, NotOwnedBy(context.pluginId)),
      failures := h.failures[context.pluginId := InitializeStage])
  }

  function AfterInitialize(h: HostState, i: nat, callbacks: Callbacks): HostState
    requires i < |h.records|
  {
    var context := h.records[i].context;
    var id := context.pluginId;
    if context.state != Registered then h
    else
      var started := context.(state := Initializing);
      if !callbacks.prepare(id) then Disabled(WithContext(h, i, started), i)
      else
        var ok := callbacks.initialize(id);
        var called := WithContext(h, i, started.PerformAll(callbacks.activity(id))).(
          calls := h.calls + [InitializeCall(id, ok)]);
        if ok then WithContext(called, i, called.records[i].context.(state := Ready)) else Disabled(called, i)
  }

  function InitializeFrom(h: HostState, i: nat, callbacks: Callbacks): HostState
    requires i <= |h.records|
    decreases |h.records| - i
  {
    if i == |h.records| then h
    else InitializeFrom(AfterInitialize(AfterAllOutside(h, callbacks.between(i)), i, callbacks), i + 1, callbacks)
  }

  function AfterInitializeAll(h: HostState, callbacks: Callbacks): HostState {
    if h.phase != Registering then h else InitializeFrom(h.(phase := Running), 0, callbacks)
  }

  function AfterShutdown(h: HostState, i: nat, callbacks: Callbacks): HostState
    requires i < |h.records|
  {
    var context := h.records[i].context;
    var id := context.pluginId;
    var called := if context.state != Ready then h
      else
        var ok := callbacks.shutdown(id);
        var closing := context.(state := ShuttingDown).StopTasks().PerformAll(callbacks.activity(id));
        WithContext(h, i, closing).(
          calls := h.calls + [ShutdownCall(id, ok)],
          failures := if ok then h.failures else h.failures[id := ShutdownStage]);
    WithContext(called, i, called.records[i].context.MarkUnloaded()).(
      tools := Filter(h.tools, NotOwnedBy(id)), catalog := Filter(h.catalog, ListedBeside(id)))
  }

  function ShutdownDownTo(h: HostState, i: nat, callbacks: Callbacks): HostState
    requires i <= |h.records|
    decreases i
  {
    if i == 0 then h
    else ShutdownDownTo(AfterShutdown(AfterAllOutside(h, callbacks.between(i - 1)), i - 1, callbacks), i - 1, callbacks)
  }

  function AfterShutdownAll(h: HostState, callbacks: Callbacks): HostState {
    if h.phase in {Closing, Stopped} then h
    else ShutdownDownTo(h.(phase := Closing), |h.records|, callbacks).(phase := Stopped)
  }

  // ---------------------------------------------------------------- the log of callbacks

  function IsInitialize(): Call -> bool { (c: Call) => c.InitializeCall? }
  function IsInitialized(): Call -> bool { (c: Call) => c.InitializeCall? && c.ok }
  function IsShutdown(): Call -> bool { (c: Call) => c.ShutdownCall? }
  function CallId(call: Call): string { call.id }
  function IsReady(): PluginRecord -> bool { (r: PluginRecord) => r.context.state == Ready }

  /** The plugins initialized, those initialized successfully, and those shut down, in call order. */
  function InitializedIds(calls: seq<Call>): seq<string> { Map(Filter(calls, IsInitialize()), CallId) }
  function SucceededIds(calls: seq<Call>): seq<string> { Map(Filter(calls, IsInitialized()), CallId) }
  function ShutdownIds(calls: seq<Call>): seq<string> { Map(Filter(calls, IsShutdown()), CallId) }
  function ReadyIds(records: seq<PluginRecord>): seq<string> { Map(Filter(records, IsReady()), RecordId) }

  function Reverse<T>(s: seq<T>): seq<T> {
    if s == [] then [] else Reverse(s[1..]) + [s[0]]
  }

  lemma LogAppend(calls: seq<Call>, call: Call)
    ensures InitializedIds(calls + [call]) == InitializedIds(calls) + (if call.InitializeCall? then [call.id] else [])
    ensures SucceededIds(calls + [call])
      == SucceededIds(calls) + (if call.InitializeCall? && call.ok then [call.id] else [])
    ensures ShutdownIds(calls + [call]) == ShutdownIds(calls) + (if call.ShutdownCall? then [call.id] else [])
  {
    hide Filter;
    FilterAppend(calls, call, IsInitialize());
    FilterAppend(calls, call, IsInitialized());
    FilterAppend(calls, call, IsShutdown());
  }

  lemma ReadyAppend(records: seq<PluginRecord>, i: nat)
    requires i < |records|
    ensures ReadyIds(records[..i + 1])
      == ReadyIds(records[..i]) + (if records[i].context.state == Ready then [RecordId(records[i])] else [])
  {
    hide Filter;
    assert records[..i + 1] == records[..i] + [records[i]];
    FilterAppend(records[..i], records[i], IsReady());
  }

  lemma ReadyPrepend(records: seq<PluginRecord>, i: nat)
    requires i < |records|
    ensures ReadyIds(records[i..])
      == (if records[i].context.state == Ready then [RecordId(records[i])] else []) + ReadyIds(records[i + 1..])
  {
    hide ReadyIds;
    SplitFront(records, i);
    ReadyFront(records[i], records[i + 1..]);
  }

  lemma ReadyFront(record: PluginRecord, rest: seq<PluginRecord>)
    ensures ReadyIds([record] + rest)
      == (if record.context.state == Ready then [RecordId(record)] else []) + ReadyIds(rest)
  {
    hide Filter;
    PushFront(record, rest, IsReady());
    MapFront(record, Filter(rest, IsReady()));
    NothingInFront(ReadyIds(rest));
  }

  lemma MapFront(record: PluginRecord, ready: seq<PluginRecord>)
    ensures Map([record] + ready, RecordId) == [RecordId(record)] + Map(ready, RecordId)
  {
    MapConcat([record], ready, RecordId);
    assert Map([record], RecordId) == [RecordId(record)];
  }

  lemma NothingInFront(ids: seq<string>)
    ensures [] + ids == ids
  {
  }

  // ---------------------------------------------------------------- what always holds

  ghost predicate HoldsTools(state: PluginState) {
    state in {Registered, Initializing, Ready, ShuttingDown}
  }

  /** Records are distinct valid plugins with the default catalog entries. */
  ghost predicate RecordsKnown(h: HostState) {
    && Distinct(RecordIds(h.records))
    && forall i | 0 <= i < |h.records| ::
         var r := h.records[i];
         RecordId(r) == r.plugin.descriptor.id && r.plugin.descriptor.IsValid()
         && r.plugin.catalogEntries == DefaultEntries(r.plugin.descriptor)
  }

  ghost predicate RecordHolds(records: seq<PluginRecord>, id: string) {
    exists i | 0 <= i < |records| :: RecordId(records[i]) == id && HoldsTools(records[i].context.state)
  }

  ghost predicate RecordListed(records: seq<PluginRecord>, id: string) {
    exists i | 0 <= i < |records| :: RecordId(records[i]) == id && records[i].context.state != Unloaded
  }

  /** The registry holds the tools of exactly the plugins that are neither failed nor unloaded. */
  ghost predicate ToolsFollow(h: HostState) {
    WellFormed(h.tools) && forall id :: HasTools(h.tools, id) <==> RecordHolds(h.records, id)
  }

  ghost predicate CatalogFollows(h: HostState) {
    && Distinct(Keys(h.catalog)) && |h.catalog| <= MAX_CATALOG_ENTRIES
    && forall entry | entry in h.catalog :: RecordListed(h.records, entry.pluginId)
  }

  /** No task of a failed or unloaded plugin is left running without being told to stop. */
  ghost predicate TasksFollow(h: HostState) {
    forall i | 0 <= i < |h.records| ::
      var context := h.records[i].context;
      Bounded(context.tasks) && (context.state in {Failed, Unloaded} ==> Closed(context.tasks))
  }

  ghost predicate Invariant(h: HostState) {
    RecordsKnown(h) && ToolsFollow(h) && CatalogFollows(h) && TasksFollow(h)
  }

  lemma InvariantIgnoresLog(h: HostState, g: HostState)
    requires Invariant(h) && g.records == h.records && g.tools == h.tools && g.catalog == h.catalog
    ensures Invariant(g)
  {
  }

  ghost predicate StatesIn(h: HostState, lo: nat, hi: nat, states: set<PluginState>) {
    forall i | lo <= i < hi && i < |h.records| :: h.records[i].context.state in states
  }

  /** The first `i` records have been initialized. */
  ghost predicate InitializedTo(h: HostState, i: nat) {
    && i <= |h.records|
    && StatesIn(h, 0, i, {Ready, Failed}) && StatesIn(h, i, |h.records|, {Registered})
    && Subsequence(InitializedIds(h.calls), RecordIds(h.records[..i]))
    && SucceededIds(h.calls) == ReadyIds(h.records[..i])
    && ShutdownIds(h.calls) == []
  }

  /** What holds between operations, phase by phase. */
  ghost predicate Safe(h: HostState) {
    && Invariant(h)
    && match h.phase
       case Registering => h.calls == [] && StatesIn(h, 0, |h.records|, {Registered})
       case Running => InitializedTo(h, |h.records|)
       case Closing => false
       case Stopped =>
         && StatesIn(h, 0, |h.records|, {Unloaded})
         && Subsequence(InitializedIds(h.calls), RecordIds(h.records))
         && ShutdownIds(h.calls) == Reverse(SucceededIds(h.calls))
  }

  lemma RecordsAreDistinct(h: HostState)
    requires RecordsKnown(h)
    ensures Distinct(RecordIds(h.records))
  {
  }

  /** No plugin is initialized twice, and only registered plugins are. */
  lemma InitializedAtMostOnce(h: HostState)
    requires Safe(h)
    ensures Distinct(InitializedIds(h.calls))
    ensures forall id | id in InitializedIds(h.calls) :: id in RecordIds(h.records)
  {
    if h.phase == Registering {
      EmptyLogs();
    } else {
      assert h.records[..|h.records|] == h.records;
      SubsequenceIsDistinct(InitializedIds(h.calls), RecordIds(h.records));
    }
  }

  /** While running, a plugin has tools in the registry exactly when it is ready. */
  lemma RunningToolsAreReady(h: HostState, i: nat)
    requires Safe(h) && h.phase == Running && i < |h.records|
    ensures HasTools(h.tools, RecordId(h.records[i])) <==> h.records[i].context.state == Ready
  {
    hide Filter, WellFormed, Subsequence, RecordsKnown;
    var id := RecordId(h.records[i]);
    assert Distinct(RecordIds(h.records)) by { assert RecordsKnown(h); RecordsAreDistinct(h); }
    assert HasTools(h.tools, id) <==> RecordHolds(h.records, id);
    if RecordHolds(h.records, id) {
      var j :| 0 <= j < |h.records| && RecordId(h.records[j]) == id && HoldsTools(h.records[j].context.state);
      DistinctPosition(RecordIds(h.records), i, j);
    }
  }

  lemma NothingHeldWhenUnloaded(records: seq<PluginRecord>)
    requires forall i | 0 <= i < |records| :: records[i].context.state == Unloaded
    ensures forall id :: !RecordHolds(records, id) && !RecordListed(records, id)
  {
  }

  lemma EmptyOrHead<T>(s: seq<T>)
    ensures s == [] || s[0] in s
  {
  }

  /** Once stopped, everything is unloaded, and no plugin tool or catalog entry is left. */
  lemma StoppedIsEmpty(h: HostState)
    requires Safe(h) && h.phase == Stopped
    ensures h.catalog == []
    ensures forall entry | entry in h.tools :: entry.plugin.None?
    ensures forall r | r in h.records :: r.context.state == Unloaded && Closed(r.context.tasks)
  {
    NothingHeldWhenUnloaded(h.records);
    assert forall entry | entry in h.catalog :: RecordListed(h.records, entry.pluginId);
    EmptyOrHead(h.catalog);
    forall entry | entry in h.tools
      ensures entry.plugin.Some? ==> HasTools(h.tools, entry.plugin.value.id)
    {
    }
    assert forall id :: !HasTools(h.tools, id);
  }

  // ---------------------------------------------------------------- one record at a time

  lemma SetRecord(h: HostState, i: nat, context: PluginContext)
    requires RecordsKnown(h) && i < |h.records| && context.pluginId == h.records[i].context.pluginId
    ensures var after := WithContext(h, i, context);
      && RecordsKnown(after)
      && RecordIds(after.records) == RecordIds(h.records)
      && (forall id | id != context.pluginId :: RecordHolds(after.records, id) <==> RecordHolds(h.records, id))
      && (forall id | id != context.pluginId :: RecordListed(after.records, id) <==> RecordListed(h.records, id))
      && (RecordHolds(after.records, context.pluginId) <==> HoldsTools(context.state))
      && (RecordListed(after.records, context.pluginId) <==> context.state != Unloaded)
  {
    var after, id := WithContext(h, i, context).records, context.pluginId;
    SetRecordIds(h, i, context);
    forall j | 0 <= j < |after| && j != i
      ensures RecordId(after[j]) != id
    {
      assert RecordIds(h.records)[j] != RecordIds(h.records)[i];
    }
    assert RecordId(after[i]) == id;
    forall other | other != id
      ensures RecordHolds(after, other) <==> RecordHolds(h.records, other)
      ensures RecordListed(after, other) <==> RecordListed(h.records, other)
    {
      OtherRecords(h.records, after, i, other);
      OtherRecords(after, h.records, i, other);
    }
  }

  lemma SetRecordIds(h: HostState, i: nat, context: PluginContext)
    requires RecordsKnown(h) && i < |h.records| && context.pluginId == h.records[i].context.pluginId
    ensures RecordIds(WithContext(h, i, context).records) == RecordIds(h.records)
    ensures RecordsKnown(WithContext(h, i, context))
  {
  }

  lemma OtherRecords(before: seq<PluginRecord>, after: seq<PluginRecord>, i: nat, other: string)
    requires i < |before| == |after| && RecordId(before[i]) != other
    requires forall j | 0 <= j < |before| && j != i :: after[j] == before[j]
    ensures RecordHolds(before, other) ==> RecordHolds(after, other)
    ensures RecordListed(before, other) ==> RecordListed(after, other)
  {
    if RecordHolds(before, other) {
      var j :| 0 <= j < |before| && RecordId(before[j]) == other && HoldsTools(before[j].context.state);
      assert after[j] == before[j];
    }
    if RecordListed(before, other) {
      var j :| 0 <= j < |before| && RecordId(before[j]) == other && before[j].context.state != Unloaded;
      assert after[j] == before[j];
    }
  }

  ghost predicate TasksOk(context: PluginContext) {
    Bounded(context.tasks) && (context.state in {Failed, Unloaded} ==> Closed(context.tasks))
  }

  /** A context change that neither gives up nor regains the tools. */
  lemma ContextKeepsInvariant(h: HostState, i: nat, context: PluginContext)
    requires Invariant(h) && i < |h.records| && context.pluginId == h.records[i].context.pluginId && TasksOk(context)
    requires HoldsTools(context.state) && HoldsTools(h.records[i].context.state)
    ensures Invariant(WithContext(h, i, context))
  {
    hide WellFormed, RecordsKnown, RecordIds, Bounded, Closed;
    SetRecord(h, i, context);
    SetRecord(h, i, h.records[i].context);
    assert WithContext(h, i, h.records[i].context) == h;
  }

  /** Giving up the tools together with the state that holds them. */
  lemma WithdrawalKeepsInvariant(h: HostState, i: nat, context: PluginContext)
    requires Invariant(h) && i < |h.records| && context.pluginId == h.records[i].context.pluginId && TasksOk(context)
    requires context.state == Failed && h.records[i].context.state != Unloaded
    ensures Invariant(WithContext(h, i, context).(tools := Filter(h.tools, NotOwnedBy(context.pluginId))))
  {
    hide WellFormed, Bounded, Closed, Filter;
    SetRecord(h, i, context);
    SetRecord(h, i, h.records[i].context);
    assert WithContext(h, i, h.records[i].context) == h;
    RemovalKeepsWellFormed(h.tools, context.pluginId);
  }

  lemma UnloadingKeepsInvariant(h: HostState, i: nat, context: PluginContext)
    requires Invariant(h) && i < |h.records| && context.pluginId == h.records[i].context.pluginId && TasksOk(context)
    requires context.state == Unloaded
    ensures Invariant(WithContext(h, i, context).(
      tools := Filter(h.tools, NotOwnedBy(context.pluginId)),
      catalog := Filter(h.catalog, ListedBeside(context.pluginId))))
  {
    SetRecord(h, i, context);
    RemovalKeepsWellFormed(h.tools, context.pluginId);
    RemovalKeepsDistinct(h.catalog, ListedBeside(context.pluginId));
  }

  /** `after` differs from `before` in nothing but record `i` and what the host keeps about it. */
  ghost predicate OnlyRecord(before: HostState, after: HostState, i: nat) {
    && |after.records| == |before.records| && after.phase == before.phase
    && RecordIds(after.records) == RecordIds(before.records)
    && forall j | 0 <= j < |before.records| && j != i :: after.records[j] == before.records[j]
  }

  lemma DisablingKeepsInvariant(h: HostState, i: nat)
    requires Invariant(h) && i < |h.records| && HoldsTools(h.records[i].context.state)
    ensures Invariant(Disabled(h, i)) && OnlyRecord(h, Disabled(h, i), i)
    ensures Disabled(h, i).records[i].context.state == Failed && Disabled(h, i).calls == h.calls
  {
    hide Filter;
    var context := h.records[i].context;
    var failed := context.StopTasks().(state := Failed);
    assert Bounded(context.tasks) by { assert TasksFollow(h); }
    CancelCloses(context.tasks);
    hide Invariant, Bounded, Closed;
    assert TasksOk(failed);
    WithdrawalKeepsInvariant(h, i, failed);
    InvariantIgnoresLog(
      WithContext(h, i, failed).(tools := Filter(h.tools, NotOwnedBy(context.pluginId))), Disabled(h, i));
    assert forall j | 0 <= j < |h.records| :: RecordId(Disabled(h, i).records[j]) == RecordIds(h.records)[j];
  }

  lemma ReplacedOnly(h: HostState, i: nat, context: PluginContext)
    requires i < |h.records| && context.pluginId == h.records[i].context.pluginId
    ensures OnlyRecord(h, WithContext(h, i, context), i)
  {
  }

  /** Initializing one record: it is called once its settings loaded, ends ready or failed by the outcome,
      and only a failure is noted. */
  lemma InitializeStep(h: HostState, i: nat, callbacks: Callbacks)
    requires Invariant(h) && i < |h.records| && h.records[i].context.state == Registered
    ensures var after := AfterInitialize(h, i, callbacks);
      var id := RecordId(h.records[i]);
      var ok := callbacks.prepare(id) && callbacks.initialize(id);
      && Invariant(after) && OnlyRecord(h, after, i)
      && after.records[i].context.state == (if ok then Ready else Failed)
      && after.calls == h.calls + (if callbacks.prepare(id) then [InitializeCall(id, ok)] else [])
      && after.failures == (if ok then h.failures else h.failures[id := InitializeStage])
      && after.rejected == h.rejected
  {
    var context := h.records[i].context;
    var id, started := context.pluginId, context.(state := Initializing);
    assert Bounded(context.tasks) by { assert TasksFollow(h); }
    hide Invariant, Closed, Disabled, Filter;
    ContextKeepsInvariant(h, i, started);
    ReplacedOnly(h, i, started);
    if !callbacks.prepare(id) {
      DisablingKeepsInvariant(WithContext(h, i, started), i);
    } else {
      var active := started.PerformAll(callbacks.activity(id));
      ActivityKeepsContext(started, callbacks.activity(id));
      hide PluginContext.PerformAll, Bounded;
      ContextKeepsInvariant(h, i, active);
      ReplacedOnly(h, i, active);
      var called := WithContext(h, i, active).(calls := h.calls + [InitializeCall(id, callbacks.initialize(id))]);
      InvariantIgnoresLog(WithContext(h, i, active), called);
      if callbacks.initialize(id) {
        ContextKeepsInvariant(called, i, active.(state := Ready));
        ReplacedOnly(called, i, active.(state := Ready));
      } else {
        DisablingKeepsInvariant(called, i);
      }
    }
  }

  /** Shutting one record down: it is called if it was ready, ends unloaded, and a failure is noted. */
  lemma ShutdownStep(h: HostState, i: nat, callbacks: Callbacks)
    requires Invariant(h) && i < |h.records|
    ensures var after := AfterShutdown(h, i, callbacks);
      var id, ready := RecordId(h.records[i]), h.records[i].context.state == Ready;
      && Invariant(after) && OnlyRecord(h, after, i)
      && after.records[i].context.state == Unloaded
      && after.calls == h.calls + (if ready then [ShutdownCall(id, callbacks.shutdown(id))] else [])
      && after.failures == (if ready && !callbacks.shutdown(id) then h.failures[id := ShutdownStage] else h.failures)
      && after.rejected == h.rejected
  {
    var context := h.records[i].context;
    var id := context.pluginId;
    assert Bounded(context.tasks) by { assert TasksFollow(h); }
    CancelCloses(context.tasks);
    hide Invariant, Filter;
    if context.state == Ready {
      var stopped := context.(state := ShuttingDown).StopTasks();
      var closing := stopped.PerformAll(callbacks.activity(id));
      ActivityKeepsContext(stopped, callbacks.activity(id));
      CancelCloses(closing.tasks);
      hide PluginContext.PerformAll, Bounded, Closed;
      ContextKeepsInvariant(h, i, closing);
      ReplacedOnly(h, i, closing);
      var called := WithContext(h, i, closing);
      UnloadingKeepsInvariant(called, i, closing.MarkUnloaded());
      ReplacedOnly(called, i, closing.MarkUnloaded());
      InvariantIgnoresLog(
        WithContext(called, i, closing.MarkUnloaded()).(
          tools := Filter(h.tools, NotOwnedBy(id)), catalog := Filter(h.catalog, ListedBeside(id))),
        AfterShutdown(h, i, callbacks));
    } else {
      UnloadingKeepsInvariant(h, i, context.MarkUnloaded());
      ReplacedOnly(h, i, context.MarkUnloaded());
    }
  }

  // ---------------------------------------------------------------- from outside

  /** What comes from outside changes no record's plugin or state, and nothing that is logged. */
  ghost predicate SameProgress(h: HostState, g: HostState) {
    && g.phase == h.phase && g.calls == h.calls && RecordIds(g.records) == RecordIds(h.records)
    && |g.records| == |h.records|
    && forall j | 0 <= j < |h.records| :: g.records[j].context.state == h.records[j].context.state
  }

  lemma OneOutsideKeepsProgress(h: HostState, event: Outside)
    requires Invariant(h)
    ensures Invariant(AfterOutside(h, event)) && SameProgress(h, AfterOutside(h, event))
  {
    hide RecordsKnown, WellFormed, CatalogFollows, TasksFollow, RecordIds, PluginContext.Perform;
    match event
    case Activity(i, e) => if i < |h.records| { ActivityKeepsInvariant(h, i, e); }
    case Layout(after) => if IsLayout(h.tools, after) { LayoutKeepsInvariant(h, after); }
  }

  lemma LayoutStaysWellFormed(tools: seq<ToolEntry>, after: seq<ToolEntry>)
    requires WellFormed(tools) && IsLayout(tools, after)
    ensures WellFormed(after) && forall id :: HasTools(tools, id) <==> HasTools(after, id)
  {
    hide WellFormed, FlagsOnly;
    if multiset(after) == multiset(tools) {
      PermutationKeepsWellFormed(tools, after);
    } else {
      FlagsKeepWellFormed(tools, after);
    }
  }

  lemma LayoutKeepsInvariant(h: HostState, after: seq<ToolEntry>)
    requires Invariant(h) && IsLayout(h.tools, after)
    ensures Invariant(h.(tools := after)) && WellFormed(after)
  {
    LayoutStaysWellFormed(h.tools, after);
    hide WellFormed, HasTools, RecordHolds, RecordListed, RecordIds, Distinct, IsLayout;
  }

  lemma {:induction false} OutsideKeepsProgress(h: HostState, events: seq<Outside>)
    requires Invariant(h)
    ensures Invariant(AfterAllOutside(h, events)) && SameProgress(h, AfterAllOutside(h, events))
    decreases |events|
  {
    hide Invariant, AfterOutside, RecordIds;
    if events != [] {
      OneOutsideKeepsProgress(h, events[0]);
      OutsideKeepsProgress(AfterOutside(h, events[0]), events[1..]);
    }
  }

  lemma OutsideKeepsInitialized(h: HostState, g: HostState, i: nat)
    requires SameProgress(h, g) && InitializedTo(h, i)
    ensures InitializedTo(g, i)
  {
    hide Filter, Subsequence, ReadyIds;
    SameReadyIds(h.records[..i], g.records[..i]);
    forall j | 0 <= j < i
      ensures RecordId(g.records[..i][j]) == RecordId(h.records[..i][j])
    {
      assert RecordIds(g.records)[j] == RecordIds(h.records)[j];
    }
    assert RecordIds(g.records[..i]) == RecordIds(h.records[..i]);
  }

  lemma OutsideKeepsClosed(before: HostState, h: HostState, g: HostState, i: nat)
    requires SameProgress(h, g) && ClosedDownTo(before, h, i)
    ensures ClosedDownTo(before, g, i)
  {
    hide Filter, ReadyIds, InitializedIds, SucceededIds, ShutdownIds;
  }

  lemma {:induction false} SameReadyIds(before: seq<PluginRecord>, after: seq<PluginRecord>)
    requires |after| == |before|
    requires forall j | 0 <= j < |before| :: after[j].context.state == before[j].context.state
    requires forall j | 0 <= j < |before| :: RecordId(after[j]) == RecordId(before[j])
    ensures ReadyIds(after) == ReadyIds(before)
    decreases |before|
  {
    hide ReadyIds;
    if before == [] {
      assert after == before;
    } else {
      var n := |before| - 1;
      SameReadyIds(before[..n], after[..n]);
      ReadyAppend(before, n);
      ReadyAppend(after, n);
      assert before[..n + 1] == before && after[..n + 1] == after;
    }
  }

  // ---------------------------------------------------------------- whole operations

  lemma {:induction false} InitializeRun(h: HostState, i: nat, callbacks: Callbacks)
    requires Invariant(h) && h.phase == Running && InitializedTo(h, i)
    ensures var after := InitializeFrom(h, i, callbacks);
      Invariant(after) && after.phase == Running && InitializedTo(after, |after.records|)
      && RecordIds(after.records) == RecordIds(h.records)
    decreases |h.records| - i
  {
    hide AfterInitialize, Invariant, Subsequence, Filter, AfterAllOutside, InitializedTo;
    assert i <= |h.records| by { InitializedWithin(h, i); }
    if i < |h.records| {
      var g := AfterAllOutside(h, callbacks.between(i));
      OutsideKeepsProgress(h, callbacks.between(i));
      OutsideKeepsInitialized(h, g, i);
      var after := AfterInitialize(g, i, callbacks);
      InitializedNext(g, i);
      InitializeStep(g, i, callbacks);
      InitializedOneMore(g, after, i, callbacks);
      InitializeRun(after, i + 1, callbacks);
    }
  }

  lemma InitializedWithin(h: HostState, i: nat)
    requires InitializedTo(h, i)
    ensures i <= |h.records|
  {
  }

  lemma InitializedNext(h: HostState, i: nat)
    requires InitializedTo(h, i) && i < |h.records|
    ensures h.records[i].context.state == Registered
  {
  }

  lemma InitializedOneMore(h: HostState, after: HostState, i: nat, callbacks: Callbacks)
    requires InitializedTo(h, i) && i < |h.records| && OnlyRecord(h, after, i)
    requires var id := RecordId(h.records[i]);
      var ok := callbacks.prepare(id) && callbacks.initialize(id);
      && after.records[i].context.state == (if ok then Ready else Failed)
      && after.calls == h.calls + (if callbacks.prepare(id) then [InitializeCall(id, ok)] else [])
    ensures InitializedTo(after, i + 1)
  {
    hide Filter, Subsequence, ReadyIds, InitializedIds, SucceededIds, ShutdownIds;
    var id := RecordId(h.records[i]);
    assert after.records[..i] == h.records[..i];
    ReadyAppend(after.records, i);
    PrefixIdsGrow(h.records, after.records, i);
    SubsequenceExtends(InitializedIds(h.calls), RecordIds(h.records[..i]), id);
    if callbacks.prepare(id) {
      LogAppend(h.calls, InitializeCall(id, callbacks.initialize(id)));
    } else {
      assert h.calls + [] == h.calls;
    }
  }

  lemma PrefixIdsGrow(before: seq<PluginRecord>, after: seq<PluginRecord>, i: nat)
    requires |after| == |before| && i < |before| && RecordIds(after) == RecordIds(before)
    ensures RecordIds(after[..i + 1]) == RecordIds(before[..i]) + [RecordId(before[i])]
    ensures RecordId(after[i]) == RecordId(before[i])
  {
    assert forall j | 0 <= j <= i :: RecordIds(after)[j] == RecordIds(before)[j];
  }

  /** Every record from `i` on has been shut down; `before` is the state when closing began. */
  ghost predicate ClosedDownTo(before: HostState, h: HostState, i: nat) {
    && |h.records| == |before.records| && i <= |h.records|
    && RecordIds(h.records) == RecordIds(before.records)
    && (forall j | 0 <= j < i :: h.records[j].context.state == before.records[j].context.state)
    && StatesIn(h, i, |h.records|, {Unloaded})
    && InitializedIds(h.calls) == InitializedIds(before.calls)
    && SucceededIds(h.calls) == SucceededIds(before.calls)
    && ShutdownIds(h.calls) == Reverse(ReadyIds(before.records[i..]))
  }

  lemma {:induction false} ShutdownRun(before: HostState, h: HostState, i: nat, callbacks: Callbacks)
    requires Invariant(h) && h.phase == Closing && i <= |h.records| && ClosedDownTo(before, h, i)
    ensures var after := ShutdownDownTo(h, i, callbacks);
      Invariant(after) && after.phase == Closing && ClosedDownTo(before, after, 0)
    decreases i
  {
    hide AfterShutdown, Invariant, ClosedDownTo, Filter, AfterAllOutside;
    if i > 0 {
      var g := AfterAllOutside(h, callbacks.between(i - 1));
      OutsideKeepsProgress(h, callbacks.between(i - 1));
      OutsideKeepsClosed(before, h, g, i);
      var after := AfterShutdown(g, i - 1, callbacks);
      ShutdownStep(g, i - 1, callbacks);
      ClosedOneMore(before, g, after, i - 1, callbacks);
      ShutdownRun(before, after, i - 1, callbacks);
    }
  }

  lemma ClosedOneMore(before: HostState, h: HostState, after: HostState, i: nat, callbacks: Callbacks)
    requires ClosedDownTo(before, h, i + 1) && OnlyRecord(h, after, i)
    requires after.records[i].context.state == Unloaded
    requires var id, ready := RecordId(h.records[i]), h.records[i].context.state == Ready;
      after.calls == h.calls + (if ready then [ShutdownCall(id, callbacks.shutdown(id))] else [])
    ensures ClosedDownTo(before, after, i)
  {
    hide Filter, ReadyIds, InitializedIds, SucceededIds, ShutdownIds;
    var id := RecordId(h.records[i]);
    assert RecordIds(h.records)[i] == RecordIds(before.records)[i];
    ReadyPrepend(before.records, i);
    LogAppend(h.calls, ShutdownCall(id, callbacks.shutdown(id)));
    assert h.calls + [] == h.calls && InitializedIds(h.calls) + [] == InitializedIds(h.calls);
    var rest := ReadyIds(before.records[i + 1..]);
    assert SucceededIds(h.calls) + [] == SucceededIds(h.calls) && [] + rest == rest;
    assert ([id] + rest)[1..] == rest;
  }

  /** Initializing everything: at most once each, in registration order, with the log and the tools
      following the outcomes. */
  lemma InitializeAllIsSafe(h: HostState, callbacks: Callbacks)
    requires Safe(h)
    ensures Safe(AfterInitializeAll(h, callbacks))
  {
    if h.phase == Registering {
      var begun := h.(phase := Running);
      assert h.records[..0] == [];
      EmptyLogs();
      InitializeRun(begun, 0, callbacks);
      var after := AfterInitializeAll(h, callbacks);
      assert after.records[..|after.records|] == after.records;
    }
  }

  lemma ShutdownAllIsSafe(h: HostState, callbacks: Callbacks)
    requires Safe(h)
    ensures Safe(AfterShutdownAll(h, callbacks))
    ensures AfterShutdownAll(h, callbacks).phase == Stopped
  {
    hide ShutdownDownTo, Invariant, Filter, Subsequence;
    if h.phase != Stopped {
      var begun := h.(phase := Closing);
      InvariantIgnoresLog(h, begun);
      BeginClosing(h, begun);
      ShutdownRun(begun, begun, |h.records|, callbacks);
      var closed := ShutdownDownTo(begun, |h.records|, callbacks);
      InvariantIgnoresLog(closed, closed.(phase := Stopped));
      assert h.records[0..] == h.records;
    }
  }

  lemma BeginClosing(h: HostState, begun: HostState)
    requires Safe(h) && h.phase in {Registering, Running} && begun == h.(phase := Closing)
    ensures ClosedDownTo(begun, begun, |h.records|)
    ensures ShutdownIds(h.calls) == [] && SucceededIds(h.calls) == ReadyIds(h.records)
    ensures Subsequence(InitializedIds(h.calls), RecordIds(h.records))
  {
    var n := |h.records|;
    assert h.records[..n] == h.records && h.records[n..] == [];
    EmptyLogs();
    if h.phase == Registering {
      NoneReady(h.records);
    }
  }

  lemma EmptyLogs()
    ensures InitializedIds([]) == [] && SucceededIds([]) == [] && ShutdownIds([]) == [] && ReadyIds([]) == []
    ensures Reverse<string>([]) == []
  {
  }

  lemma NoneReady(records: seq<PluginRecord>)
    requires forall i | 0 <= i < |records| :: records[i].context.state == Registered
    ensures ReadyIds(records) == []
  {
    FilterNone(records, IsReady());
  }

  /** A plugin that is taken joins registry, catalog and records; one that is refused, by the
      registry or by the catalog after the registry had taken it, leaves all three as they were. */
  lemma RegisterIsSafe(h: HostState, plugin: Plugin, granted: set<string>)
    requires Safe(h) && plugin.catalogEntries == DefaultEntries(plugin.descriptor)
    ensures Safe(AfterRegister(h, plugin, granted))
  {
    hide GroupFor, Filter, DefaultEntries;
    if Takes(h, plugin) {
      RegisteredToolsFollow(h, plugin, granted);
      NewRecordIsKnown(h, plugin, granted);
      var after, record := AfterRegister(h, plugin, granted), NewRecord(plugin, granted);
      forall entry | entry in after.catalog
        ensures RecordListed(after.records, entry.pluginId)
      {
        AddedRecord(h.records, record, entry.pluginId);
        if entry in plugin.catalogEntries { DefaultEntriesNameThePlugin(plugin.descriptor, entry); }
      }
    }
  }

  lemma DefaultEntriesNameThePlugin(descriptor: PluginDescriptor, entry: CatalogEntry)
    requires entry in DefaultEntries(descriptor)
    ensures entry.pluginId == descriptor.id
  {
  }

  lemma RegisteredToolsFollow(h: HostState, plugin: Plugin, granted: set<string>)
    requires Invariant(h) && Takes(h, plugin)
    ensures ToolsFollow(AfterRegister(h, plugin, granted))
  {
    hide GroupFor, Filter, PluginIntact;
    var after, record := AfterRegister(h, plugin, granted), NewRecord(plugin, granted);
    GroupIsForDescriptor(plugin.descriptor, plugin.tools);
    AppendKeepsWellFormed(h.tools, GroupOf(plugin), plugin.descriptor, plugin.tools);
    forall id: string
      ensures HasTools(after.tools, id) <==> RecordHolds(after.records, id)
    {
      AddedRecord(h.records, record, id);
    }
  }

  lemma NewRecordIsKnown(h: HostState, plugin: Plugin, granted: set<string>)
    requires Invariant(h) && h.phase == Registering && StatesIn(h, 0, |h.records|, {Registered}) && Takes(h, plugin)
    requires plugin.catalogEntries == DefaultEntries(plugin.descriptor)
    ensures RecordsKnown(AfterRegister(h, plugin, granted))
  {
    hide DefaultEntries, Distinct, RecordIds, Invariant, RecordsKnown, GroupOf, Accepts, Fits;
    InvariantKnowsRecords(h);
    IdIsNew(h, plugin);
    AcceptedIsValid(h.tools, plugin);
    AppendedIdsAreDistinct(h.records, NewRecord(plugin, granted));
    AppendedRecordIsKnown(h, AfterRegister(h, plugin, granted), NewRecord(plugin, granted));
  }

  lemma AcceptedIsValid(tools: seq<ToolEntry>, plugin: Plugin)
    requires Accepts(tools, plugin.descriptor, plugin.tools)
    ensures plugin.descriptor.IsValid()
  {
  }

  lemma AppendedRecordIsKnown(h: HostState, after: HostState, record: PluginRecord)
    requires RecordsKnown(h) && after.records == h.records + [record] && Distinct(RecordIds(after.records))
    requires RecordId(record) == record.plugin.descriptor.id && record.plugin.descriptor.IsValid()
    requires record.plugin.catalogEntries == DefaultEntries(record.plugin.descriptor)
    ensures RecordsKnown(after)
  {
    hide DefaultEntries, Distinct, RecordIds;
  }

  lemma InvariantKnowsRecords(h: HostState)
    requires Invariant(h)
    ensures RecordsKnown(h)
  {
  }

  lemma IdIsNew(h: HostState, plugin: Plugin)
    requires Invariant(h) && StatesIn(h, 0, |h.records|, {Registered}) && Takes(h, plugin)
    ensures forall i | 0 <= i < |h.records| :: RecordId(h.records[i]) != plugin.descriptor.id
  {
    hide Distinct, RecordsKnown, TasksFollow, CatalogFollows;
    forall i | 0 <= i < |h.records|
      ensures RecordId(h.records[i]) != plugin.descriptor.id
    {
      assert RecordHolds(h.records, RecordId(h.records[i]));
    }
  }

  lemma AppendedIdsAreDistinct(records: seq<PluginRecord>, record: PluginRecord)
    requires Distinct(RecordIds(records)) && forall i | 0 <= i < |records| :: RecordId(records[i]) != RecordId(record)
    ensures Distinct(RecordIds(records + [record]))
  {
    forall i, j | 0 <= i < j < |records| + 1
      ensures RecordIds(records + [record])[i] != RecordIds(records + [record])[j]
    {
      if j < |records| {
        assert RecordIds(records)[i] != RecordIds(records)[j];
      }
    }
  }

  lemma AddedRecord(records: seq<PluginRecord>, record: PluginRecord, id: string)
    ensures RecordHolds(records + [record], id)
      <==> RecordHolds(records, id) || (RecordId(record) == id && HoldsTools(record.context.state))
    ensures RecordListed(records + [record], id)
      <==> RecordListed(records, id) || (RecordId(record) == id && record.context.state != Unloaded)
  {
    var all := records + [record];
    assert all[|records|] == record;
    if RecordHolds(records, id) {
      var j :| 0 <= j < |records| && RecordId(records[j]) == id && HoldsTools(records[j].context.state);
      assert all[j] == records[j];
    }
    if RecordListed(records, id) {
      var j :| 0 <= j < |records| && RecordId(records[j]) == id && records[j].context.state != Unloaded;
      assert all[j] == records[j];
    }
  }

  // ---------------------------------------------------------------- every run

  /** The operations of a host, and what comes from outside. */
  datatype HostEvent =
    | Register(plugin: Plugin, granted: set<string>)
    | InitializeAll(callbacks: Callbacks)
    | ShutdownAll(callbacks: Callbacks)
    | FromOutside(event: Outside)

  ghost function HostStep(h: HostState, event: HostEvent): HostState {
    match event
    case Register(plugin, granted) =>
      if plugin.catalogEntries == DefaultEntries(plugin.descriptor) then AfterRegister(h, plugin, granted) else h
    case InitializeAll(callbacks) => AfterInitializeAll(h, callbacks)
    case ShutdownAll(callbacks) => AfterShutdownAll(h, callbacks)
    case FromOutside(e) => AfterOutside(h, e)
  }

  ghost function HostRun(h: HostState, events: seq<HostEvent>): HostState
    decreases |events|
  {
    if events == [] then h else HostRun(HostStep(h, events[0]), events[1..])
  }

  function PhaseRank(phase: HostPhase): nat {
    match phase case Registering => 0 case Running => 1 case Closing => 2 case Stopped => 3
  }

  lemma OutsideIsSafe(h: HostState, event: Outside)
    requires Safe(h)
    ensures Safe(AfterOutside(h, event))
  {
    hide Filter, Invariant, Subsequence, AfterOutside;
    OneOutsideKeepsProgress(h, event);
    var after := AfterOutside(h, event);
    if h.phase == Running { OutsideKeepsInitialized(h, after, |h.records|); }
  }

  lemma ActivityKeepsInvariant(h: HostState, i: nat, event: TaskEvent)
    requires Invariant(h) && i < |h.records|
    ensures var context := h.records[i].context.Perform(event);
      && Invariant(WithContext(h, i, context))
      && RecordIds(WithContext(h, i, context).records) == RecordIds(h.records)
      && context.state == h.records[i].context.state && context.pluginId == h.records[i].context.pluginId
  {
    hide WellFormed, Step, RecordsKnown, RecordIds, Bounded;
    var before := h.records[i].context;
    var context := before.Perform(event);
    StepKeepsClosed(before.tasks, event);
    SetRecord(h, i, context);
    SetRecord(h, i, before);
    assert WithContext(h, i, before) == h;
  }

  lemma StepIsSafe(h: HostState, event: HostEvent)
    requires Safe(h)
    ensures Safe(HostStep(h, event)) && PhaseRank(h.phase) <= PhaseRank(HostStep(h, event).phase)
  {
    hide Safe, AfterRegister, AfterShutdownAll;
    match event
    case Register(plugin, granted) =>
      if plugin.catalogEntries == DefaultEntries(plugin.descriptor) {
        RegisterIsSafe(h, plugin, granted);
        RegisteringKeepsPhase(h, plugin, granted);
      }
    case InitializeAll(callbacks) =>
      InitializeAllIsSafe(h, callbacks);
      if h.phase == Registering { InitializedPhase(h.(phase := Running), 0, callbacks); }
    case ShutdownAll(callbacks) => ShutdownAllIsSafe(h, callbacks);
    case FromOutside(e) => OutsideIsSafe(h, e);
  }

  lemma RegisteringKeepsPhase(h: HostState, plugin: Plugin, granted: set<string>)
    ensures AfterRegister(h, plugin, granted).phase == h.phase
  {
  }

  lemma {:induction false} InitializedPhase(h: HostState, i: nat, callbacks: Callbacks)
    requires i <= |h.records|
    ensures InitializeFrom(h, i, callbacks).phase == h.phase
    decreases |h.records| - i
  {
    if i < |h.records| {
      InitializedPhase(AfterInitialize(AfterAllOutside(h, callbacks.between(i)), i, callbacks), i + 1, callbacks);
    }
  }

  /** In every run, whatever the callbacks return and whatever plugins and users do in between, the
      host stays safe and its phase only moves forward. */
  lemma {:induction false} EveryRunIsSafe(h: HostState, events: seq<HostEvent>)
    requires Safe(h)
    ensures Safe(HostRun(h, events)) && PhaseRank(h.phase) <= PhaseRank(HostRun(h, events).phase)
    decreases |events|
  {
    if events != [] {
      StepIsSafe(h, events[0]);
      EveryRunIsSafe(HostStep(h, events[0]), events[1..]);
    }
  }

  lemma EmptyHostIsSafe()
    ensures Safe(EmptyHost)
  {
  }

  // ---------------------------------------------------------------- what a plugin may do

  predicate MayRunTasks(context: PluginContext) {
    "task.scoped" in context.declared * context.granted
  }

  /** Identity and rights stay; without the right to run tasks there are none. */
  ghost predicate ContextKept(c: PluginContext, d: PluginContext) {
    && d.pluginId == c.pluginId && d.declared == c.declared && d.granted == c.granted
    && (!MayRunTasks(c) && c.tasks.live == {} ==> d.tasks.live == {})
  }

  ghost predicate HostKept(h: HostState, g: HostState) {
    && |h.records| <= |g.records|
    && forall j | 0 <= j < |h.records| ::
         g.records[j].plugin == h.records[j].plugin && ContextKept(h.records[j].context, g.records[j].context)
  }

  lemma PerformKeepsRights(c: PluginContext, event: TaskEvent)
    ensures ContextKept(c, c.Perform(event))
  {
    if event.Start? { TasksStartExactlyWhenAllowed(c, event.name); }
  }

  lemma {:induction false} PerformAllKeepsRights(c: PluginContext, events: seq<TaskEvent>)
    ensures ContextKept(c, c.PerformAll(events))
    decreases |events|
  {
    if events != [] {
      PerformKeepsRights(c, events[0]);
      PerformAllKeepsRights(c.Perform(events[0]), events[1..]);
    }
  }

  lemma HostKeptTransitive(h: HostState, g: HostState, f: HostState)
    requires HostKept(h, g) && HostKept(g, f)
    ensures HostKept(h, f)
  {
  }

  lemma {:induction false} OutsideKeepsRights(h: HostState, events: seq<Outside>)
    ensures HostKept(h, AfterAllOutside(h, events))
    decreases |events|
  {
    hide PluginContext.Perform, IsLayout;
    if events != [] {
      OneOutsideKeepsRights(h, events[0]);
      OutsideKeepsRights(AfterOutside(h, events[0]), events[1..]);
    }
  }

  lemma OneOutsideKeepsRights(h: HostState, event: Outside)
    ensures HostKept(h, AfterOutside(h, event))
  {
    hide PluginContext.Perform, IsLayout;
    if event.Activity? && event.record < |h.records| {
      PerformKeepsRights(h.records[event.record].context, event.event);
    }
  }

  lemma InitializeKeepsRights(h: HostState, i: nat, callbacks: Callbacks)
    requires i < |h.records|
    ensures HostKept(h, AfterInitialize(h, i, callbacks))
  {
    hide PluginContext.PerformAll, Filter;
    var started := h.records[i].context.(state := Initializing);
    PerformAllKeepsRights(started, callbacks.activity(started.pluginId));
  }

  lemma ShutdownKeepsRights(h: HostState, i: nat, callbacks: Callbacks)
    requires i < |h.records|
    ensures HostKept(h, AfterShutdown(h, i, callbacks))
  {
    hide PluginContext.PerformAll, Filter;
    var stopped := h.records[i].context.(state := ShuttingDown).StopTasks();
    PerformAllKeepsRights(stopped, callbacks.activity(stopped.pluginId));
  }

  lemma {:induction false} InitializeAllKeepsRights(h: HostState, i: nat, callbacks: Callbacks)
    requires i <= |h.records|
    ensures HostKept(h, InitializeFrom(h, i, callbacks))
    decreases |h.records| - i
  {
    hide HostKept, AfterInitialize, AfterAllOutside;
    if i < |h.records| {
      var g := AfterAllOutside(h, callbacks.between(i));
      var f := AfterInitialize(g, i, callbacks);
      OutsideKeepsRights(h, callbacks.between(i));
      InitializeKeepsRights(g, i, callbacks);
      HostKeptTransitive(h, g, f);
      SameLength(g, i, callbacks);
      InitializeAllKeepsRights(f, i + 1, callbacks);
      HostKeptTransitive(h, f, InitializeFrom(f, i + 1, callbacks));
    } else {
      HostKeptReflexive(h);
    }
  }

  lemma {:induction false} ShutdownAllKeepsRights(h: HostState, i: nat, callbacks: Callbacks)
    requires i <= |h.records|
    ensures HostKept(h, ShutdownDownTo(h, i, callbacks))
    decreases i
  {
    hide HostKept, AfterShutdown, AfterAllOutside;
    if i > 0 {
      var g := AfterAllOutside(h, callbacks.between(i - 1));
      var f := AfterShutdown(g, i - 1, callbacks);
      OutsideKeepsRights(h, callbacks.between(i - 1));
      ShutdownKeepsRights(g, i - 1, callbacks);
      HostKeptTransitive(h, g, f);
      SameLengthAfterShutdown(g, i - 1, callbacks);
      ShutdownAllKeepsRights(f, i - 1, callbacks);
      HostKeptTransitive(h, f, ShutdownDownTo(f, i - 1, callbacks));
    } else {
      HostKeptReflexive(h);
    }
  }

  lemma HostKeptReflexive(h: HostState)
    ensures HostKept(h, h)
  {
  }

  lemma HostKeptIgnoresPhase(h: HostState, g: HostState, phase: HostPhase, end: HostPhase)
    requires HostKept(h.(phase := phase), g)
    ensures HostKept(h, g.(phase := end))
  {
  }

  lemma StepKeepsRights(h: HostState, event: HostEvent)
    ensures HostKept(h, HostStep(h, event))
  {
    hide HostKept, InitializeFrom, ShutdownDownTo, AfterOutside, Takes;
    match event
    case Register(plugin, granted) => RegisterKeepsRights(h, plugin, granted); HostKeptReflexive(h);
    case InitializeAll(callbacks) =>
      HostKeptReflexive(h);
      if h.phase == Registering {
        var begun := h.(phase := Running);
        InitializeAllKeepsRights(begun, 0, callbacks);
        InitializedPhase(begun, 0, callbacks);
        HostKeptIgnoresPhase(h, InitializeFrom(begun, 0, callbacks), Running, Running);
      }
    case ShutdownAll(callbacks) =>
      HostKeptReflexive(h);
      if h.phase !in {Closing, Stopped} {
        var begun := h.(phase := Closing);
        ShutdownAllKeepsRights(begun, |h.records|, callbacks);
        HostKeptIgnoresPhase(h, ShutdownDownTo(begun, |h.records|, callbacks), Closing, Stopped);
      }
    case FromOutside(e) => OneOutsideKeepsRights(h, e);
  }

  lemma RegisterKeepsRights(h: HostState, plugin: Plugin, granted: set<string>)
    ensures HostKept(h, AfterRegister(h, plugin, granted))
  {
    hide Takes, GroupOf;
  }

  lemma {:induction false} EveryRunKeepsRights(h: HostState, events: seq<HostEvent>)
    ensures HostKept(h, HostRun(h, events))
    decreases |events|
  {
    hide HostKept, HostStep;
    if events == [] {
      HostKeptReflexive(h);
    } else {
      StepKeepsRights(h, events[0]);
      EveryRunKeepsRights(HostStep(h, events[0]), events[1..]);
      HostKeptTransitive(h, HostStep(h, events[0]), HostRun(HostStep(h, events[0]), events[1..]));
    }
  }

  /** In every run after a registration that was taken: the plugin's record declares the capabilities of
      its manifest and holds the grants it was registered with, no more and no less; and without the
      task capability among both it never has a live task. */
  lemma RightsAreThoseGranted(h: HostState, plugin: Plugin, granted: set<string>, later: seq<HostEvent>)
    requires Takes(h, plugin) && plugin.catalogEntries == DefaultEntries(plugin.descriptor)
    ensures var g := HostRun(HostStep(h, Register(plugin, granted)), later);
      && |h.records| < |g.records|
      && var r := g.records[|h.records|];
      && r.plugin == plugin && r.context.pluginId == plugin.descriptor.id
      && r.context.declared == plugin.descriptor.capabilities && r.context.granted == granted
      && ("task.scoped" !in plugin.descriptor.capabilities || "task.scoped" !in granted ==> r.context.tasks.live == {})
  {
    hide Takes, GroupOf, HostRun, DefaultEntries;
    EveryRunKeepsRights(HostStep(h, Register(plugin, granted)), later);
  }

  /** Such a plugin's entries cannot be executed either. */
  lemma EntriesNeedTheTaskRight(record: PluginRecord, entryId: string, inputBytes: nat, budget: TaskBudget)
    requires !MayRunTasks(record.context)
    ensures SubmitError(record, entryId, inputBytes, budget).Some?
  {
    TasksStartExactlyWhenAllowed(record.context, TaskName(entryId));
  }

  // ---------------------------------------------------------------- executing an entry

  const MAX_TASK_TIMEOUT_MILLIS: nat := 60_000
  const MAX_TASK_RESULT: nat := 1024 * 1024

  datatype TaskBudget = TaskBudget(timeoutMillis: nat, maxResult: nat)
  {
    predicate IsValid() {
      0 < timeoutMillis <= MAX_TASK_TIMEOUT_MILLIS && 0 < maxResult <= MAX_TASK_RESULT
    }
  }

  datatype EntryError =
    | PluginNotFound
    | NotReady(state: PluginState)
    | EntryNotFound
    | InputTooLarge(actual: nat, max: nat)
    | InvalidBudget
    | NoTask(contextCause: ContextError)
    | OperationFailed

  datatype Execution = Execution(task: TaskHandle, budget: TaskBudget)

  function RecordNamed(id: string): PluginRecord -> bool { (r: PluginRecord) => RecordId(r) == id }

  function EntryNamed(id: string): PluginEntry -> bool { (e: PluginEntry) => e.id == id }

  function TaskName(entryId: string): string { "entry:" + entryId }

  function MinBudget(budget: TaskBudget, entry: PluginEntry): TaskBudget {
    budget.(maxResult := Min(budget.maxResult, entry.maxOutput))
  }

  /** Why an entry of a plugin cannot be submitted, up to starting its task. */
  function SubmitError(record: PluginRecord, entryId: string, inputBytes: nat, budget: TaskBudget): Option<EntryError> {
    var entries := record.plugin.descriptor.EntryDescriptors();
    var found := FirstIndex(entries, EntryNamed(entryId));
    if record.context.state != Ready then Some(NotReady(record.context.state))
    else if found.None? then Some(EntryNotFound)
    else if inputBytes > entries[found.value].maxInput then
      Some(InputTooLarge(inputBytes, entries[found.value].maxInput))
    else if !MinBudget(budget, entries[found.value]).IsValid() then Some(InvalidBudget)
    else match record.context.StartTaskError(TaskName(entryId))
      case Some(e) => Some(NoTask(e))
      case None => None
  }

  /** A submission is taken exactly when the plugin is ready, the entry is declared, its input and its
      capped budget are within limits, and the plugin may start a task of that name now. */
  lemma EntryRunsExactlyWhen(record: PluginRecord, entryId: string, inputBytes: nat, budget: TaskBudget)
    requires record.plugin.descriptor.IsValid()
    ensures SubmitError(record, entryId, inputBytes, budget).None? <==>
      && record.context.state == Ready
      && record.context.StartTaskError(TaskName(entryId)).None?
      && exists entry | entry in record.plugin.descriptor.EntryDescriptors() ::
           entry.id == entryId && inputBytes <= entry.maxInput && MinBudget(budget, entry).IsValid()
  {
    hide PluginContext.StartTaskError;
    var entries, ids := record.plugin.descriptor.EntryDescriptors(), record.plugin.descriptor.EntryIds();
    var found := FirstIndex(entries, EntryNamed(entryId));
    if i :| 0 <= i < |entries| && entries[i].id == entryId {
      assert ids[found.value] == ids[i];
      DistinctPosition(ids, found.value, i);
    }
  }

  /** A ready plugin refuses an input for its size exactly when it is over the limit of the entry named. */
  lemma InputIsRefusedExactlyWhenTooLarge(
    record: PluginRecord, i: nat, inputBytes: nat, budget: TaskBudget)
    requires record.plugin.descriptor.IsValid() && record.context.state == Ready
    requires i < |record.plugin.descriptor.EntryDescriptors()|
    ensures var entry := record.plugin.descriptor.EntryDescriptors()[i];
      && (SubmitError(record, entry.id, inputBytes, budget) == Some(InputTooLarge(inputBytes, entry.maxInput))
          <==> inputBytes > entry.maxInput)
      && (SubmitError(record, entry.id, inputBytes, budget).None? ==> inputBytes <= entry.maxInput)
  {
    var entries, ids := record.plugin.descriptor.EntryDescriptors(), record.plugin.descriptor.EntryIds();
    var found := FirstIndex(entries, EntryNamed(entries[i].id));
    assert ids[found.value] == ids[i];
    DistinctPosition(ids, found.value, i);
  }

  /** A budget that was valid stays valid when capped by the entry's output limit. */
  lemma CappedBudgetIsValid(record: PluginRecord, entryId: string, inputBytes: nat, budget: TaskBudget)
    requires record.plugin.descriptor.IsValid() && budget.IsValid()
    ensures SubmitError(record, entryId, inputBytes, budget) != Some(InvalidBudget)
  {
    var entries := record.plugin.descriptor.EntryDescriptors();
    var found := FirstIndex(entries, EntryNamed(entryId));
    if found.Some? {
      assert entries[found.value] in entries;
    }
  }

  /** An identifier may be 128 characters long, and so may a task name; but an entry runs under its id
      with a prefix. A ready plugin with room for a task runs a declared entry, on
      an input and budget within its limits, exactly when the id leaves room for the prefix. */
  lemma EntryRunsExactlyWhenNameFits(record: PluginRecord, i: nat, inputBytes: nat, budget: TaskBudget)
    requires record.plugin.descriptor.IsValid() && budget.IsValid() && record.context.state == Ready
    requires "task.scoped" in record.context.declared * record.context.granted
    requires record.context.tasks.accepting && |record.context.tasks.tasks| < MAX_PLUGIN_TASKS
    requires i < |record.plugin.descriptor.EntryDescriptors()|
    requires inputBytes <= record.plugin.descriptor.EntryDescriptors()[i].maxInput
    ensures var id := record.plugin.descriptor.EntryDescriptors()[i].id;
      SubmitError(record, id, inputBytes, budget).None? <==> |id| <= MAX_PLUGIN_TASK_NAME - |"entry:"|
  {
    var entries, ids := record.plugin.descriptor.EntryDescriptors(), record.plugin.descriptor.EntryIds();
    var id := entries[i].id;
    assert entries[i] in entries;
    var found := FirstIndex(entries, EntryNamed(id));
    assert ids[found.value] == ids[i];
    DistinctPosition(ids, found.value, i);
    CappedBudgetIsValid(record, id, inputBytes, budget);
    forall c | c in TaskName(id)
      ensures !IsControl(c) && c < '\U{0080}'
    {
      assert c in "entry:" || c in id;
    }
    AsciiBytes(TaskName(id));
  }

  /** The state after a submission: the started task is given back when the adapter refuses. */
  function AfterExecute(h: HostState, i: nat, error: Option<EntryError>, adapterOk: bool): HostState
    requires i < |h.records|
  {
    if error.Some? then h
    else
      var context := h.records[i].context;
      var (started, handle) := Started(context.tasks);
      WithContext(h, i, context.(tasks := if adapterOk then started else Dropped(started, handle)))
  }

  /** A submission that fails leaves no task behind. */
  lemma RefusedEntryLeavesNoTask(h: HostState, i: nat)
    requires i < |h.records| && Consistent(h.records[i].context.tasks) && h.records[i].context.tasks.nextId < U64_MAX
    ensures var before, after := h.records[i].context.tasks, AfterExecute(h, i, None, false).records[i].context.tasks;
      after.tasks == before.tasks && after.live == before.live && before.flags <= after.flags
  {
    var t := h.records[i].context.tasks;
    var (started, handle) := Started(t);
    forall id | id in t.tasks
      ensures id <= t.nextId
    {
      assert TaskHandle(id, t.tasks[id]) in t.live;
    }
    assert handle !in t.live;
  }

  // ---------------------------------------------------------------- the host object

  class StaticPluginHost {
    const registry: Registry
    const catalog: Catalog
    var phase: HostPhase
    var records: seq<PluginRecord>
    var failures: map<string, Stage>
    var rejected: seq<string>
    ghost var calls: seq<Call>

    ghost predicate Valid()
      reads this, registry, catalog
    {
      registry.Valid() && catalog.Valid()
    }

    ghost function View(): HostState
      reads this, registry, catalog
    {
      HostState(phase, records, registry.tools, catalog.entries, failures, rejected, calls)
    }

    constructor ()
      ensures Valid() && View() == EmptyHost && fresh(registry) && fresh(catalog)
    {
      registry := new Registry();
      catalog := new Catalog();
      phase, records, failures, rejected, calls := Registering, [], map[], [], [];
    }

    method RegisterPlugin(plugin: Plugin, granted: set<string>) returns (r: Result<(), HostError>)
      requires Valid()
      modifies this, registry, catalog
      ensures Valid() && View() == AfterRegister(old(View()), plugin, granted)
      ensures r.Ok? <==> Takes(old(View()), plugin)
      ensures r == Err(RegistrationClosed) <==> old(phase) != Registering
      ensures r.Err? ==> registry.tools == old(registry.tools) && catalog.entries == old(catalog.entries)
    {
      hide GroupFor, Filter, WellFormed, Accepts, IsGroupFor, HasTools, Fits;
      var pluginId := plugin.descriptor.id;
      if phase != Registering {
        rejected := rejected + [pluginId];
        return Err(RegistrationClosed);
      }
      ghost var before := registry.tools;
      var registered := registry.RegisterPluginEntries(plugin.descriptor, plugin.tools);
      if registered.Err? {
        rejected := rejected + [pluginId];
        return Err(RegistrationFailed(registered.error));
      }
      var listed := catalog.Register(plugin.catalogEntries);
      if listed.Err? {
        GroupIsTakenBack(before, plugin);
        var _ := registry.UnregisterPlugin(pluginId);
        rejected := rejected + [pluginId];
        return Err(CatalogFailed(listed.error));
      }
      records := records + [NewRecord(plugin, granted)];
      return Ok(());
    }

    /** Stops the tasks of a plugin that failed, and takes its tools out of the registry. */
    method Disable(i: nat)
      requires Valid() && i < |records|
      modifies this, registry
      ensures Valid() && View() == Disabled(old(View()), i)
    {
      var context := records[i].context;
      records := records[i := records[i].(context := context.StopTasks().(state := Failed))];
      var _ := registry.UnregisterPlugin(context.pluginId);
      failures := failures[context.pluginId := InitializeStage];
    }

    method InitializeRecord(i: nat, callbacks: Callbacks)
      requires Valid() && i < |records|
      modifies this, registry
      ensures Valid() && View() == AfterInitialize(old(View()), i, callbacks)
    {
      hide Disabled, Filter;
      var context := records[i].context;
      var id := context.pluginId;
      if context.state != Registered {
        return;
      }
      context := context.(state := Initializing);
      records := records[i := records[i].(context := context)];
      if !callbacks.prepare(id) {
        Disable(i);
        return;
      }
      ghost var before := old(View());
      var ok := callbacks.initialize(id);
      context := context.PerformAll(callbacks.activity(id));
      records := records[i := records[i].(context := context)];
      calls := calls + [InitializeCall(id, ok)];
      assert View() == WithContext(before, i, context).(calls := before.calls + [InitializeCall(id, ok)]);
      if ok {
        records := records[i := records[i].(context := context.(state := Ready))];
      } else {
        Disable(i);
      }
    }

    /** What other threads do to contexts and registry while this one holds the operation lock. */
    method Happen(events: seq<Outside>)
      requires Valid()
      modifies this, registry
      ensures Valid() && View() == AfterAllOutside(old(View()), events)
      ensures catalog.entries == old(catalog.entries)
    {
      hide WellFormed, FlagsOnly, PluginContext.Perform;
      ghost var before := View();
      for k := 0 to |events|
        invariant Valid() && catalog.entries == old(catalog.entries)
        invariant AfterAllOutside(View(), events[k..]) == AfterAllOutside(before, events)
      {
        ghost var now := View();
        assert events[k..][0] == events[k] && events[k..][1..] == events[k + 1..];
        match events[k] {
          case Activity(i, e) =>
            if i < |records| {
              records := records[i := records[i].(context := records[i].context.Perform(e))];
            }
          case Layout(after) =>
            if IsLayout(registry.tools, after) {
              LayoutStaysWellFormed(registry.tools, after);
              registry.tools := after;
            }
        }
        assert View() == AfterOutside(now, events[k]);
      }
    }

    /** Initializes in registration order; one plugin's failure does not stop the others. */
    method InitializeAll(callbacks: Callbacks)
      requires Valid()
      modifies this, registry
      ensures Valid() && View() == AfterInitializeAll(old(View()), callbacks)
    {
      hide AfterInitialize, AfterAllOutside;
      if phase != Registering {
        return;
      }
      phase := Running;
      ghost var begun := View();
      var n := |records|;
      for i := 0 to n
        invariant Valid() && |records| == n
        invariant InitializeFrom(View(), i, callbacks) == InitializeFrom(begun, 0, callbacks)
      {
        Happen(callbacks.between(i));
        SameLength(View(), i, callbacks);
        InitializeRecord(i, callbacks);
      }
    }

    method ShutdownRecord(i: nat, callbacks: Callbacks)
      requires Valid() && i < |records|
      modifies this, registry, catalog
      ensures Valid() && View() == AfterShutdown(old(View()), i, callbacks)
    {
      hide Filter, WellFormed, PluginContext.PerformAll;
      var context := records[i].context;
      var id := context.pluginId;
      if context.state == Ready {
        var ok := callbacks.shutdown(id);
        context := context.(state := ShuttingDown).StopTasks().PerformAll(callbacks.activity(id));
        records := records[i := records[i].(context := context)];
        calls := calls + [ShutdownCall(id, ok)];
        if !ok {
          failures := failures[id := ShutdownStage];
        }
      }
      records := records[i := records[i].(context := records[i].context.MarkUnloaded())];
      var _ := registry.UnregisterPlugin(id);
      catalog.RemovePlugin(id);
    }

    /** Shuts down in reverse order; a failing callback still unloads its plugin. */
    method ShutdownAll(callbacks: Callbacks)
      requires Valid()
      modifies this, registry, catalog
      ensures Valid() && View() == AfterShutdownAll(old(View()), callbacks)
    {
      hide AfterShutdown, AfterAllOutside;
      if phase == Closing || phase == Stopped {
        return;
      }
      phase := Closing;
      ghost var begun := View();
      var i: nat := |records|;
      while i > 0
        invariant Valid() && i <= |records|
        invariant ShutdownDownTo(View(), i, callbacks) == ShutdownDownTo(begun, |begun.records|, callbacks)
      {
        i := i - 1;
        Happen(callbacks.between(i));
        SameLengthAfterShutdown(View(), i, callbacks);
        ShutdownRecord(i, callbacks);
      }
      phase := Stopped;
    }

    /** Checks and submits one entry; `adapterOk` says whether the plugin's adapter accepts it. */
    method ExecuteEntry(pluginId: string, entryId: string, inputBytes: nat, budget: TaskBudget, adapterOk: bool)
      returns (r: Result<Execution, EntryError>)
      requires Valid()
      modifies this
      ensures Valid()
      ensures var found := FirstIndex(old(records), RecordNamed(pluginId));
        if found.None? then r == Err(PluginNotFound) && View() == old(View())
        else
          var error := SubmitError(old(records)[found.value], entryId, inputBytes, budget);
          && View() == AfterExecute(old(View()), found.value, error, adapterOk)
          && (error.Some? ==> r == Err(error.value))
          && (error.None? ==> if adapterOk then r.Ok? else r == Err(OperationFailed))
      ensures r.Ok? ==> r.value.budget.IsValid() && r.value.budget.maxResult <= budget.maxResult
      ensures r.Ok? ==>
        exists i | 0 <= i < |records| ::
          && RecordId(records[i]) == pluginId && r.value.task in records[i].context.tasks.live
          && r.value.task.flag == |old(records)[i].context.tasks.flags|
          && exists entry | entry in records[i].plugin.descriptor.EntryDescriptors() ::
               entry.id == entryId && inputBytes <= entry.maxInput
               && r.value.budget == TaskBudget(budget.timeoutMillis, Min(budget.maxResult, entry.maxOutput))
    {
      var found := FirstIndex(records, RecordNamed(pluginId));
      if found.None? {
        return Err(PluginNotFound);
      }
      var i := found.value;
      var record := records[i];
      if record.context.state != Ready {
        return Err(NotReady(record.context.state));
      }
      var entries := record.plugin.descriptor.EntryDescriptors();
      var place := FirstIndex(entries, EntryNamed(entryId));
      if place.None? {
        return Err(EntryNotFound);
      }
      var entry := entries[place.value];
      if inputBytes > entry.maxInput {
        return Err(InputTooLarge(inputBytes, entry.maxInput));
      }
      var taskBudget := MinBudget(budget, entry);
      if !taskBudget.IsValid() {
        return Err(InvalidBudget);
      }
      var noTask := record.context.StartTaskError(TaskName(entryId));
      if noTask.Some? {
        return Err(NoTask(noTask.value));
      }
      var (started, task) := Started(record.context.tasks);
      var tasks := if adapterOk then started else Dropped(started, task);
      records := records[i := record.(context := record.context.(tasks := tasks))];
      return if adapterOk then Ok(Execution(task, taskBudget)) else Err(OperationFailed);
    }
  }

  lemma GroupIsTakenBack(tools: seq<ToolEntry>, plugin: Plugin)
    requires Accepts(tools, plugin.descriptor, plugin.tools)
    ensures Filter(tools + GroupOf(plugin), NotOwnedBy(plugin.descriptor.id)) == tools
  {
    GroupIsForDescriptor(plugin.descriptor, plugin.tools);
    RollbackRestores(tools, GroupOf(plugin), plugin.descriptor.id);
  }

  lemma SameLength(h: HostState, i: nat, callbacks: Callbacks)
    requires i < |h.records|
    ensures |AfterInitialize(h, i, callbacks).records| == |h.records|
  {
  }

  lemma SameLengthAfterShutdown(h: HostState, i: nat, callbacks: Callbacks)
    requires i < |h.records|
    ensures |AfterShutdown(h, i, callbacks).records| == |h.records|
  {
  }
}
