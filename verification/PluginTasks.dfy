/** A plugin's task registry: a bounded table of cancellation flags shared with the handles
    the plugin holds. Flags are shared cells: `flags[k]` is the cell made by the k-th start. */
module PluginTasks {
  import opened Text
  import opened Wrappers

  const MAX_PLUGIN_TASKS: nat := 8
  const MAX_PLUGIN_TASK_NAME: nat := 128
  const U64_MAX: nat := 0xFFFF_FFFF_FFFF_FFFF

  datatype TaskError = EmptyName | NameTooLong | InvalidName | LimitReached | NotAccepting

  datatype TaskHandle = TaskHandle(id: nat, flag: nat)

  datatype TaskTable = TaskTable(
    nextId: nat, accepting: bool, tasks: map<nat, nat>, flags: seq<bool>, live: set<TaskHandle>)

  const EmptyTable := TaskTable(0, true, map[], [], {})

  function ValidateName(name: string): Option<TaskError> {
    if name == [] then Some(EmptyName)
    else if ByteLength(name) > MAX_PLUGIN_TASK_NAME then Some(NameTooLong)
    else if exists c | c in name :: IsControl(c) then Some(InvalidName)
    else None
  }

  function NextId(t: TaskTable): nat {
    Min(t.nextId + 1, U64_MAX)
  }

  function StartError(t: TaskTable, name: string): Option<TaskError> {
    if ValidateName(name).Some? then ValidateName(name)
    else if !t.accepting then Some(NotAccepting)
    else if |t.tasks| >= MAX_PLUGIN_TASKS then Some(LimitReached)
    else None
  }

  function Started(t: TaskTable): (TaskTable, TaskHandle) {
    var handle := TaskHandle(NextId(t), |t.flags|);
    (TaskTable(handle.id, t.accepting, t.tasks[handle.id := handle.flag], t.flags + [false], t.live + {handle}), handle)
  }

  function Dropped(t: TaskTable, handle: TaskHandle): TaskTable {
    t.(tasks := t.tasks - {handle.id}, live := t.live - {handle})
  }

  function Cancelled(t: TaskTable): TaskTable {
    t.(accepting := false, flags := seq(|t.flags|, k requires 0 <= k < |t.flags| => t.flags[k] || Listed(t, k)))
  }

  predicate Listed(t: TaskTable, flag: nat) {
    exists id | id in t.tasks :: t.tasks[id] == flag
  }

  function Raised(t: TaskTable, flag: nat): TaskTable {
    if flag < |t.flags| then t.(flags := t.flags[flag := true]) else t
  }

  // ---------------------------------------------------------------- every interleaving

  /** One atomic step of anybody: the plugin starting a task, a handle being dropped, the host
      cancelling, or a holder of a flag requesting cancellation. */
  datatype TaskEvent = Start(name: string) | Drop(handle: TaskHandle) | CancelAll | RequestCancel(flag: nat)

  function Step(t: TaskTable, event: TaskEvent): TaskTable {
    match event
    case Start(name) => if StartError(t, name).None? then Started(t).0 else t
    case Drop(handle) => if handle in t.live then Dropped(t, handle) else t
    case CancelAll => Cancelled(t)
    case RequestCancel(flag) => Raised(t, flag)
  }

  function Run(t: TaskTable, events: seq<TaskEvent>): TaskTable
    decreases |events|
  {
    if events == [] then t else Run(Step(t, events[0]), events[1..])
  }

  /** The table lists exactly the live handles, at most eight, under distinct ids and with distinct
      flags; once it stopped accepting, every live handle is cancelled. */
  ghost predicate Consistent(t: TaskTable) {
    && |t.live| == |t.tasks| <= MAX_PLUGIN_TASKS
    && (forall h :: h in t.live <==> h.id in t.tasks && t.tasks[h.id] == h.flag)
    && (forall h | h in t.live :: 0 < h.id <= t.nextId && h.flag < |t.flags|)
    && (forall h, g | h in t.live && g in t.live && h.flag == g.flag :: h == g)
    && (!t.accepting ==> forall h | h in t.live :: t.flags[h.flag])
  }

  lemma IdsAreIssued(t: TaskTable)
    requires Consistent(t)
    ensures forall id | id in t.tasks :: 0 < id <= t.nextId && TaskHandle(id, t.tasks[id]) in t.live
  {
    forall id | id in t.tasks
      ensures 0 < id <= t.nextId && TaskHandle(id, t.tasks[id]) in t.live
    {
      assert TaskHandle(id, t.tasks[id]) in t.live;
    }
  }

  lemma FreshIdKeepsConsistent(t: TaskTable)
    requires Consistent(t) && t.accepting && |t.tasks| < MAX_PLUGIN_TASKS && NextId(t) !in t.tasks
    requires t.nextId <= U64_MAX
    ensures Consistent(Started(t).0)
  {
    var after, handle := Started(t).0, Started(t).1;
    IdsAreIssued(t);
    assert handle !in t.live && |after.tasks| == |t.tasks| + 1;
    forall h
      ensures h in after.live <==> h.id in after.tasks && after.tasks[h.id] == h.flag
    {
      if h.id == handle.id && h != handle {
        assert h !in t.live;
      }
    }
  }

  /** A start keeps the table exact precisely when it does not reuse the id of a live task, which
      can only happen once the id counter is saturated. */
  lemma StartKeepsConsistent(t: TaskTable, name: string)
    requires Consistent(t) && StartError(t, name).None? && t.nextId <= U64_MAX
    ensures Consistent(Started(t).0) <==> t.nextId < U64_MAX || U64_MAX !in t.tasks
  {
    hide ValidateName;
    if t.nextId < U64_MAX || U64_MAX !in t.tasks {
      IdsAreIssued(t);
      FreshIdKeepsConsistent(t);
    } else {
      var after := Started(t).0;
      IdsAreIssued(t);
      var shadowed := TaskHandle(U64_MAX, t.tasks[U64_MAX]);
      assert shadowed in after.live;
      assert after.tasks[U64_MAX] == |t.flags|;
    }
  }

  lemma DropKeepsConsistent(t: TaskTable, handle: TaskHandle)
    requires Consistent(t) && handle in t.live
    ensures Consistent(Dropped(t, handle))
  {
    var after := Dropped(t, handle);
    assert after.tasks.Keys == t.tasks.Keys - {handle.id};
    assert |after.tasks| == |after.tasks.Keys| == |t.tasks.Keys| - 1;
  }

  lemma CancelKeepsConsistent(t: TaskTable)
    requires Consistent(t)
    ensures Consistent(Cancelled(t)) && FlagsRise(t, Cancelled(t))
  {
    assert forall h | h in t.live :: Listed(t, h.flag);
  }

  lemma RaiseKeepsConsistent(t: TaskTable, flag: nat)
    requires Consistent(t)
    ensures Consistent(Raised(t, flag)) && FlagsRise(t, Raised(t, flag))
  {
  }

  lemma StepKeepsConsistent(t: TaskTable, event: TaskEvent)
    requires Consistent(t) && t.nextId < U64_MAX
    ensures Consistent(Step(t, event)) && FlagsRise(t, Step(t, event))
    ensures t.nextId <= Step(t, event).nextId <= t.nextId + 1
  {
    hide Consistent, ValidateName, Listed;
    assert FlagsRise(t, t);
    match event
    case Start(name) =>
      if StartError(t, name).None? {
        StartKeepsConsistent(t, name);
        assert FlagsRise(t, Started(t).0);
      }
    case Drop(handle) =>
      if handle in t.live {
        DropKeepsConsistent(t, handle);
        assert FlagsRise(t, Dropped(t, handle));
      }
    case CancelAll => CancelKeepsConsistent(t);
    case RequestCancel(flag) => RaiseKeepsConsistent(t, flag);
  }

  /** A cancellation flag never goes back to false. */
  ghost predicate FlagsRise(before: TaskTable, after: TaskTable) {
    && |before.flags| <= |after.flags|
    && forall k | 0 <= k < |before.flags| :: before.flags[k] ==> after.flags[k]
  }

  /** In every interleaving short of saturating the ids: the table stays exact, flags only rise, and
      nothing is accepted again after it was closed. */
  lemma {:induction false} EveryRunIsConsistent(t: TaskTable, events: seq<TaskEvent>)
    requires Consistent(t) && t.nextId + |events| <= U64_MAX
    ensures Consistent(Run(t, events)) && FlagsRise(t, Run(t, events))
    ensures !t.accepting ==> !Run(t, events).accepting && Run(t, events).live <= t.live
    decreases |events|
  {
    hide Consistent, ValidateName;
    if events != [] {
      StepKeepsConsistent(t, events[0]);
      EveryRunIsConsistent(Step(t, events[0]), events[1..]);
    }
  }

  lemma {:induction false} RunConcat(t: TaskTable, a: seq<TaskEvent>, b: seq<TaskEvent>)
    ensures Run(t, a + b) == Run(Run(t, a), b)
    decreases |a|
  {
    if a == [] {
      assert a + b == b;
    } else {
      assert (a + b)[1..] == a[1..] + b;
      RunConcat(Step(t, a[0]), a[1..], b);
    }
  }

  /** After a cancellation, whatever came before and follows, no start succeeds and every live handle
      is cancelled. */
  lemma NothingSurvivesCancelAll(before: seq<TaskEvent>, later: seq<TaskEvent>, name: string)
    requires |before| + 1 + |later| <= U64_MAX
    ensures var t := Run(EmptyTable, before + [CancelAll] + later);
      && StartError(t, name).Some?
      && forall h | h in t.live :: h.flag < |t.flags| && t.flags[h.flag]
  {
    EveryRunIsConsistent(EmptyTable, before + [CancelAll] + later);
    RunConcat(EmptyTable, before + [CancelAll], later);
    RunConcat(EmptyTable, before, [CancelAll]);
    var closed := Cancelled(Run(EmptyTable, before));
    assert Run(Run(EmptyTable, before), [CancelAll]) == closed;
    EveryRunStaysClosed(closed, later);
  }

  lemma {:induction false} EveryRunStaysClosed(t: TaskTable, events: seq<TaskEvent>)
    requires !t.accepting
    ensures !Run(t, events).accepting
    decreases |events|
  {
    if events != [] {
      EveryRunStaysClosed(Step(t, events[0]), events[1..]);
    }
  }

  /** With a saturated counter the table loses a live task: cancelling no longer reaches it. */
  lemma SaturatedIdsLoseATask()
    ensures var t := TaskTable(U64_MAX, true, map[U64_MAX := 0], [false], {TaskHandle(U64_MAX, 0)});
      var after := Run(t, [Start("task"), CancelAll]);
      Consistent(t) && TaskHandle(U64_MAX, 0) in after.live && after.flags == [false, true]
  {
    var t := TaskTable(U64_MAX, true, map[U64_MAX := 0], [false], {TaskHandle(U64_MAX, 0)});
    assert forall c | c in "task" :: !IsControl(c) && c < '\U{0080}';
    AsciiBytes("task");
    assert StartError(t, "task").None?;
    var started := Started(t).0;
    assert started.tasks == map[U64_MAX := 1];
    assert Listed(started, 1) by { assert started.tasks[U64_MAX] == 1; }
    RunConcat(t, [Start("task")], [CancelAll]);
    assert [Start("task")] + [CancelAll] == [Start("task"), CancelAll];
    assert Run(t, [Start("task")]) == started;
    assert Run(started, [CancelAll]) == Cancelled(started);
  }

  // ---------------------------------------------------------------- the registry object

  class CancelFlag {
    ghost const place: nat
    var cancelled: bool

    constructor (ghost place: nat)
      ensures !cancelled && this.place == place
    {
      this.place := place;
      cancelled := false;
    }
  }

  /** What a plugin holds: the id and the shared flag. */
  datatype PluginTaskHandle = PluginTaskHandle(id: nat, name: string, cancellation: CancelFlag)

  class PluginTaskRegistry {
    var nextId: nat
    var accepting: bool
    var tasks: map<nat, CancelFlag>

    ghost var arena: seq<CancelFlag>
    ghost var live: set<TaskHandle>

    ghost predicate Knows(flag: CancelFlag)
      reads this
    {
      flag.place < |arena| && arena[flag.place] == flag
    }

    ghost predicate Valid()
      reads this
    {
      && nextId <= U64_MAX
      && (forall k | 0 <= k < |arena| :: arena[k].place == k)
      && forall id | id in tasks :: Knows(tasks[id])
    }

    ghost function FlagValues(): (values: seq<bool>)
      reads this, arena
      ensures |values| == |arena|
      ensures forall k | 0 <= k < |arena| :: values[k] == arena[k].cancelled
    {
      seq(|arena|, k requires 0 <= k < |arena| reads this, arena => arena[k].cancelled)
    }

    ghost function View(): TaskTable
      reads this, arena
    {
      TaskTable(nextId, accepting, map id | id in tasks :: tasks[id].place, FlagValues(), live)
    }

    constructor ()
      ensures Valid() && View() == EmptyTable && arena == []
    {
      nextId, accepting, tasks := 0, true, map[];
      arena, live := [], {};
    }

    method Start(name: string) returns (r: Result<PluginTaskHandle, TaskError>)
      requires Valid()
      modifies this
      ensures Valid()
      ensures r.Err? <==> StartError(old(View()), name).Some?
      ensures r.Err? ==> View() == old(View()) && arena == old(arena) && r.error == StartError(old(View()), name).value
      ensures r.Ok? ==> View() == Started(old(View())).0 && arena == old(arena) + [r.value.cancellation]
      ensures r.Ok? ==> r.value.id == NextId(old(View())) && r.value.name == name && fresh(r.value.cancellation)
    {
      hide ValidateName;
      assert tasks.Keys == View().tasks.Keys && |tasks| == |tasks.Keys| && |View().tasks| == |View().tasks.Keys|;
      var invalid := ValidateName(name);
      if invalid.Some? {
        return Err(invalid.value);
      }
      if !accepting {
        return Err(NotAccepting);
      }
      if |tasks| >= MAX_PLUGIN_TASKS {
        return Err(LimitReached);
      }
      var handle := Admit(name);
      return Ok(handle);
    }

    /** Gives out the next id with a fresh flag. */
    method Admit(name: string) returns (handle: PluginTaskHandle)
      requires Valid()
      modifies this
      ensures Valid() && fresh(handle.cancellation)
      ensures View() == Started(old(View())).0 && arena == old(arena) + [handle.cancellation]
      ensures handle.id == NextId(old(View())) && handle.name == name
    {
      ghost var before := View();
      // A saturating increment never yields zero, so the source's reset to one is unreachable.
      nextId := Min(nextId + 1, U64_MAX);
      var id := nextId;
      var cancellation := new CancelFlag(|arena|);
      tasks := tasks[id := cancellation];
      live := live + {TaskHandle(id, |arena|)};
      arena := arena + [cancellation];
      assert FlagValues() == before.flags + [false];
      assert View().tasks == before.tasks[id := |before.flags|];
      handle := PluginTaskHandle(id, name, cancellation);
    }

    /** Dropping a handle frees its place in the table. */
    method Drop(handle: PluginTaskHandle)
      requires Valid() && Knows(handle.cancellation)
      modifies this
      ensures Valid() && arena == old(arena)
      ensures View() == Dropped(old(View()), TaskHandle(handle.id, handle.cancellation.place))
    {
      ghost var before := View();
      tasks := tasks - {handle.id};
      live := live - {TaskHandle(handle.id, handle.cancellation.place)};
      assert View().tasks == before.tasks - {handle.id};
    }

    /** Stops accepting and raises every flag in the table. */
    method CancelAll()
      requires Valid()
      modifies this, arena
      ensures Valid() && arena == old(arena)
      ensures View() == Cancelled(old(View()))
    {
      ghost var before := View();
      accepting := false;
      forall id | id in tasks.Keys {
        tasks[id].cancelled := true;
      }
      forall k | 0 <= k < |arena|
        ensures FlagValues()[k] == Cancelled(before).flags[k]
      {
        if Listed(before, k) {
          var id :| id in before.tasks && before.tasks[id] == k;
          assert tasks[id] == arena[k];
        } else {
          assert forall id | id in tasks :: before.tasks[id] != k;
        }
      }
      assert FlagValues() == Cancelled(before).flags;
    }
  }

  /** A holder of a flag requests cancellation. */
  method RequestCancel(registry: PluginTaskRegistry, handle: PluginTaskHandle)
    requires registry.Valid() && registry.Knows(handle.cancellation)
    modifies handle.cancellation
    ensures registry.Valid() && registry.View() == Raised(old(registry.View()), handle.cancellation.place)
  {
    ghost var before := registry.View();
    handle.cancellation.cancelled := true;
    assert registry.FlagValues() == before.flags[handle.cancellation.place := true];
  }
}
