/** The context a plugin runs in: lifecycle state, capabilities, and its task table. */
module PluginLifecycle {
  import opened Wrappers
  import opened PluginTasks
  import opened Text

  datatype PluginState = Registered | Initializing | Ready | ShuttingDown | Failed | Unloaded

  datatype ContextError =
    | Unavailable(state: PluginState)
    | CapabilityNotDeclared
    | CapabilityNotGranted
    | TaskUnavailable(cause: TaskError)

  datatype PluginContext = PluginContext(
    pluginId: string, declared: set<string>, granted: set<string>, state: PluginState, tasks: TaskTable)
  {
    function EnsureAvailable(): Option<ContextError> {
      if state in {Initializing, Ready, ShuttingDown} then None else Some(Unavailable(state))
    }

    function RequireCapability(capability: string): Option<ContextError> {
      if EnsureAvailable().Some? then EnsureAvailable()
      else if capability !in declared then Some(CapabilityNotDeclared)
      else if capability !in granted then Some(CapabilityNotGranted)
      else None
    }

    /** Why a task may not start now, if it may not. */
    function StartTaskError(name: string): Option<ContextError> {
      if RequireCapability("task.scoped").Some? then RequireCapability("task.scoped")
      else if state == ShuttingDown then Some(TaskUnavailable(NotAccepting))
      else match StartError(tasks, name)
        case Some(e) => Some(TaskUnavailable(e))
        case None => None
    }

    function StopTasks(): PluginContext {
      this.(tasks := Cancelled(tasks))
    }

    function MarkUnloaded(): PluginContext {
      StopTasks().(state := Unloaded)
    }

    /** Anything a plugin or a task holder does through the context. */
    function Perform(event: TaskEvent): PluginContext {
      if event.Start? && StartTaskError(event.name).Some? then this else this.(tasks := Step(tasks, event))
    }

    function PerformAll(events: seq<TaskEvent>): PluginContext
      decreases |events|
    {
      if events == [] then this else Perform(events[0]).PerformAll(events[1..])
    }
  }

  /** Nothing starts any more and every listed task is told to stop. */
  ghost predicate Closed(t: TaskTable) {
    !t.accepting && forall id | id in t.tasks :: t.tasks[id] < |t.flags| && t.flags[t.tasks[id]]
  }

  ghost predicate Bounded(t: TaskTable) {
    forall id | id in t.tasks :: t.tasks[id] < |t.flags|
  }

  lemma CancelCloses(t: TaskTable)
    requires Bounded(t)
    ensures Closed(Cancelled(t)) && Bounded(Cancelled(t))
  {
    assert forall id | id in t.tasks :: Listed(t, t.tasks[id]);
  }

  lemma StepKeepsClosed(t: TaskTable, event: TaskEvent)
    requires Bounded(t)
    ensures Bounded(Step(t, event))
    ensures Closed(t) ==> Closed(Step(t, event))
  {
  }

  /** Activity of a plugin never changes who it is or its lifecycle state, and cannot reopen a closed
      task table. */
  lemma {:induction false} ActivityKeepsContext(context: PluginContext, events: seq<TaskEvent>)
    requires Bounded(context.tasks)
    ensures context.PerformAll(events).(tasks := context.tasks) == context
    ensures Bounded(context.PerformAll(events).tasks)
    ensures Closed(context.tasks) ==> Closed(context.PerformAll(events).tasks)
    decreases |events|
  {
    if events != [] {
      StepKeepsClosed(context.tasks, events[0]);
      ActivityKeepsContext(context.Perform(events[0]), events[1..]);
    }
  }

  /** A task starts exactly for a plugin that is initializing or ready, declares and was granted the
      capability, and whose table is open, under a short name without control characters. */
  lemma TasksStartExactlyWhenAllowed(context: PluginContext, name: string)
    ensures context.StartTaskError(name).None? <==>
      && context.state in {Initializing, Ready}
      && "task.scoped" in context.declared * context.granted
      && context.tasks.accepting && |context.tasks.tasks| < MAX_PLUGIN_TASKS
      && name != [] && ByteLength(name) <= MAX_PLUGIN_TASK_NAME && forall c | c in name :: !IsControl(c)
  {
  }

  /** Each refusal that has to do with rights, exactly when: the state is looked at first, then what the
      manifest declares, then what the host granted. */
  lemma RightsAreCheckedInOrder(context: PluginContext, capability: string)
    ensures var error := context.RequireCapability(capability);
      && (error.None? <==>
            context.state in {Initializing, Ready, ShuttingDown} && capability in context.declared * context.granted)
      && (error == Some(CapabilityNotDeclared) <==>
            context.state in {Initializing, Ready, ShuttingDown} && capability !in context.declared)
      && (error == Some(CapabilityNotGranted) <==>
            context.state in {Initializing, Ready, ShuttingDown} && capability in context.declared - context.granted)
      && (error == Some(Unavailable(context.state)) <==> context.state !in {Initializing, Ready, ShuttingDown})
  {
  }
}
