/** The Linux single-instance protocol: any number of processes run `acquire_at` in interleaved
    steps on one socket path and one startup lock, and may crash at any step. Assumed: connecting to
    a live listener and writing the message to it succeeds. */
module SingleInstance {
  import opened Wrappers

  type Pid = nat
  type SocketId = nat

  /** What the socket path names; a socket stays there when its listener dies. */
  datatype Path = Absent | Socket(id: SocketId) | NotASocket

  /** Where a process is. The startup lock is held from `Holding` up to the return of `acquire_at`. */
  datatype Pc =
    | Waiting
    | Holding
    | AddressInUse
    | Unanswered
    | Removing
    | Cleared
    | Listening(socket: SocketId)
    | ListenerLost
    | Primary(socket: SocketId)
    | Degraded
    | Secondary
    | Dropping

  datatype State = State(
    lock: Option<Pid>, path: Path, procs: map<Pid, Pc>, listeners: map<SocketId, Pid>, nextSocket: SocketId)

  datatype Event =
    | Spawn
    | LockFails | LockTaken
    | BindOk | BindInUse | BindFails
    | Notified | NotifyFails
    | StatSocket | StatAbsent | StatRefused
    | Unlink | UnlinkFails
    | RebindOk | RebindFails
    | ThreadStarts | ThreadFails | RemoveUnused(removed: bool)
    | ListenerStops
    | Crash
    | BeginDrop | FinishDrop

  predicate HoldsLock(pc: Pc) {
    pc in {Holding, AddressInUse, Unanswered, Removing, Cleared, ListenerLost} || pc.Listening?
  }

  predicate HasSocket(pc: Pc) {
    pc.Listening? || pc.Primary?
  }

  predicate At(s: State, p: Pid, pc: Pc) {
    p in s.procs && s.procs[p] == pc
  }

  predicate Answers(s: State) {
    s.path.Socket? && s.path.id in s.listeners
  }

  predicate Enabled(s: State, p: Pid, event: Event) {
    match event
    case Spawn => p !in s.procs
    case LockFails => At(s, p, Waiting)
    case LockTaken => At(s, p, Waiting) && s.lock.None?
    case BindOk => At(s, p, Holding) && s.path.Absent?
    case BindInUse => At(s, p, Holding) && !s.path.Absent?
    case BindFails => At(s, p, Holding)
    case Notified => At(s, p, AddressInUse)
    case NotifyFails => At(s, p, AddressInUse) && !Answers(s)
    case StatSocket => At(s, p, Unanswered) && s.path.Socket?
    case StatAbsent => At(s, p, Unanswered) && s.path.Absent?
    case StatRefused => At(s, p, Unanswered)
    case Unlink => At(s, p, Removing)
    case UnlinkFails => At(s, p, Removing)
    case RebindOk => At(s, p, Cleared) && s.path.Absent?
    case RebindFails => At(s, p, Cleared)
    case ThreadStarts => p in s.procs && s.procs[p].Listening?
    case ThreadFails => p in s.procs && s.procs[p].Listening?
    case RemoveUnused(_) => At(s, p, ListenerLost)
    case ListenerStops => p in s.procs && s.procs[p].Primary?
    case Crash => p in s.procs
    case BeginDrop => p in s.procs && s.procs[p].Primary?
    case FinishDrop => At(s, p, Dropping)
  }

  function Goto(s: State, p: Pid, pc: Pc): State {
    s.(procs := s.procs[p := pc])
  }

  /** Returning from `acquire_at` releases the startup lock. */
  function Return(s: State, p: Pid, pc: Pc): State {
    Goto(s, p, pc).(lock := None)
  }

  function Bound(s: State, p: Pid): State {
    State(s.lock, Socket(s.nextSocket), s.procs[p := Listening(s.nextSocket)],
          s.listeners[s.nextSocket := p], s.nextSocket + 1)
  }

  function WithoutListener(s: State, socket: SocketId): State {
    s.(listeners := s.listeners - {socket})
  }

  /** The kernel closes a dead process's listener and releases its lock; the path stays. */
  function Dead(s: State, p: Pid): State {
    State(if s.lock == Some(p) then None else s.lock, s.path, s.procs - {p},
          map k | k in s.listeners && s.listeners[k] != p :: s.listeners[k], s.nextSocket)
  }

  function Step(s: State, p: Pid, event: Event): State
    requires Enabled(s, p, event)
  {
    match event
    case Spawn => Goto(s, p, Waiting)
    case LockFails => Goto(s, p, Secondary)
    case LockTaken => Goto(s, p, Holding).(lock := Some(p))
    case BindOk => Bound(s, p)
    case BindInUse => Goto(s, p, AddressInUse)
    case BindFails => Return(s, p, Degraded)
    case Notified => Return(s, p, Secondary)
    case NotifyFails => Goto(s, p, Unanswered)
    case StatSocket => Goto(s, p, Removing)
    case StatAbsent => Goto(s, p, Cleared)
    case StatRefused => Return(s, p, Degraded)
    case Unlink => Goto(s, p, Cleared).(path := Absent)
    case UnlinkFails => Return(s, p, Degraded)
    case RebindOk => Bound(s, p)
    case RebindFails => Return(s, p, Degraded)
    case ThreadStarts => Return(s, p, Primary(s.procs[p].socket))
    case ThreadFails => Goto(WithoutListener(s, s.procs[p].socket), p, ListenerLost)
    case RemoveUnused(removed) => Return(s, p, Degraded).(path := if removed then Absent else s.path)
    case ListenerStops => WithoutListener(s, s.procs[p].socket)
    case Crash => Dead(s, p)
    case BeginDrop => Goto(WithoutListener(s, s.procs[p].socket), p, Dropping)
    case FinishDrop => Dead(s, p).(path := Absent)
  }

  /** No process yet; a path left behind by anybody. */
  predicate Initial(s: State) {
    s.lock.None? && s.procs == map[] && s.listeners == map[] && (s.path.Socket? ==> s.path.id < s.nextSocket)
  }

  /** Sockets: fresh, owned by the process that says so, never shared between processes. */
  ghost predicate Ownership(s: State) {
    && (s.path.Socket? ==> s.path.id < s.nextSocket)
    && (forall p | p in s.procs && HasSocket(s.procs[p]) :: s.procs[p].socket < s.nextSocket)
    && (forall p, q | p in s.procs && q in s.procs && HasSocket(s.procs[p]) && HasSocket(s.procs[q]) ::
          s.procs[p].socket == s.procs[q].socket ==> p == q)
    && (forall k | k in s.listeners ::
          s.listeners[k] in s.procs && HasSocket(s.procs[s.listeners[k]]) && s.procs[s.listeners[k]].socket == k)
    && (forall p | p in s.procs && s.procs[p].Listening? ::
          s.procs[p].socket in s.listeners && s.listeners[s.procs[p].socket] == p)
  }

  /** Exactly whoever is between taking the lock and returning holds it; the path names every live
      listener, so there is at most one; whoever found nobody answering can rely on it while it holds
      the lock. */
  ghost predicate Exclusion(s: State) {
    && (s.lock.Some? ==> s.lock.value in s.procs && HoldsLock(s.procs[s.lock.value]))
    && (forall p | p in s.procs && HoldsLock(s.procs[p]) :: s.lock == Some(p))
    && (forall k | k in s.listeners :: s.path == Socket(k))
    && (forall p | p in s.procs && s.procs[p] in {Unanswered, Removing, Cleared, ListenerLost} ::
          forall k :: k !in s.listeners)
  }

  ghost predicate Invariant(s: State) {
    Ownership(s) && Exclusion(s)
  }

  predicate IsPrimary(s: State, p: Pid) {
    p in s.procs && s.procs[p].Primary? && s.procs[p].socket in s.listeners && s.listeners[s.procs[p].socket] == p
  }

  lemma AtMostOnePrimary(s: State, p: Pid, q: Pid)
    requires Invariant(s) && IsPrimary(s, p) && IsPrimary(s, q)
    ensures p == q
  {
  }

  lemma BoundKeepsOwnership(s: State, p: Pid)
    requires Ownership(s) && p in s.procs && !HasSocket(s.procs[p])
    ensures Ownership(Bound(s, p))
  {
  }

  lemma DeadKeepsOwnership(s: State, p: Pid)
    requires Ownership(s) && p in s.procs
    ensures Ownership(Dead(s, p))
  {
  }

  /** Moving on without a socket, at most after giving up one's own listener. */
  lemma LeavingKeepsOwnership(s: State, p: Pid, pc: Pc)
    requires Ownership(s) && !HasSocket(pc)
    requires p in s.procs && HasSocket(s.procs[p])
    ensures Ownership(Goto(WithoutListener(s, s.procs[p].socket), p, pc))
  {
  }

  lemma PassingKeepsOwnership(s: State, p: Pid, pc: Pc)
    requires Ownership(s) && !HasSocket(pc) && (p in s.procs ==> !HasSocket(s.procs[p]))
    ensures Ownership(Goto(s, p, pc))
  {
  }

  lemma KeepingSocketKeepsOwnership(s: State, p: Pid)
    requires Ownership(s) && p in s.procs && HasSocket(s.procs[p])
    ensures Ownership(Goto(s, p, Primary(s.procs[p].socket)))
  {
  }

  lemma SilencedKeepsOwnership(s: State, p: Pid)
    requires Ownership(s) && p in s.procs && s.procs[p].Primary?
    ensures Ownership(WithoutListener(s, s.procs[p].socket))
  {
  }

  lemma OwnershipIgnoresLock(s: State, t: State)
    requires Ownership(s) && t == s.(lock := t.lock, path := t.path) && (t.path == s.path || t.path.Absent?)
    ensures Ownership(t)
  {
  }

  lemma StepKeepsOwnership(s: State, p: Pid, event: Event)
    requires Ownership(s) && Enabled(s, p, event)
    ensures Ownership(Step(s, p, event))
  {
    hide Ownership;
    var after := Step(s, p, event);
    match event
    case BindOk => BoundKeepsOwnership(s, p);
    case RebindOk => BoundKeepsOwnership(s, p);
    case Crash => DeadKeepsOwnership(s, p);
    case FinishDrop => DeadKeepsOwnership(s, p); OwnershipIgnoresLock(Dead(s, p), after);
    case ThreadStarts => KeepingSocketKeepsOwnership(s, p); OwnershipIgnoresLock(Goto(s, p, after.procs[p]), after);
    case ThreadFails => LeavingKeepsOwnership(s, p, ListenerLost);
    case BeginDrop => LeavingKeepsOwnership(s, p, Dropping);
    case ListenerStops => SilencedKeepsOwnership(s, p);
    case _ => PassingKeepsOwnership(s, p, after.procs[p]); OwnershipIgnoresLock(Goto(s, p, after.procs[p]), after);
  }

  lemma LockIsExclusive(s: State, p: Pid, q: Pid)
    requires Exclusion(s) && p in s.procs && q in s.procs && HoldsLock(s.procs[p]) && HoldsLock(s.procs[q])
    ensures p == q
  {
  }

  /** Binding needs a free path, so nobody else listens; the binder holds the lock. */
  lemma BoundKeepsExclusion(s: State, p: Pid)
    requires Exclusion(s) && p in s.procs && HoldsLock(s.procs[p]) && s.path.Absent?
    ensures Exclusion(Bound(s, p))
  {
    assert s.listeners == map[];
    forall q | q in s.procs && q != p && HoldsLock(s.procs[q])
      ensures false
    {
      LockIsExclusive(s, p, q);
    }
  }

  lemma DeadKeepsExclusion(s: State, p: Pid)
    requires Exclusion(s) && p in s.procs
    ensures Exclusion(Dead(s, p))
  {
  }

  /** Leaving `acquire_at` without a socket gives the lock back. */
  lemma ReturnKeepsExclusion(s: State, p: Pid, pc: Pc)
    requires Exclusion(s) && p in s.procs && HoldsLock(s.procs[p]) && !HoldsLock(pc)
    ensures Exclusion(Return(s, p, pc))
  {
  }

  lemma StoppingKeepsExclusion(s: State, p: Pid, socket: SocketId)
    requires Exclusion(s) && p in s.procs && !HoldsLock(s.procs[p])
    ensures Exclusion(WithoutListener(s, socket))
    ensures Exclusion(Goto(WithoutListener(s, socket), p, Dropping))
  {
  }

  lemma FailedThreadKeepsExclusion(s: State, p: Pid)
    requires Invariant(s) && Enabled(s, p, ThreadFails)
    ensures Exclusion(Step(s, p, ThreadFails))
  {
    assert s.path == Socket(s.procs[p].socket);
    assert forall k :: k !in Step(s, p, ThreadFails).listeners;
  }

  predicate Passes(event: Event) {
    event in {Spawn, LockFails, LockTaken, BindInUse, NotifyFails, StatSocket, StatAbsent, Unlink}
  }

  lemma PassingKeepsExclusion(s: State, p: Pid, event: Event)
    requires Invariant(s) && Enabled(s, p, event) && Passes(event)
    ensures Exclusion(Step(s, p, event))
  {
    hide Ownership;
  }

  lemma StepKeepsExclusion(s: State, p: Pid, event: Event)
    requires Invariant(s) && Enabled(s, p, event)
    requires event.FinishDrop? ==> forall k :: k !in s.listeners
    ensures Exclusion(Step(s, p, event))
  {
    match event
    case ThreadFails => FailedThreadKeepsExclusion(s, p);
    case BindOk => BoundKeepsExclusion(s, p);
    case RebindOk => BoundKeepsExclusion(s, p);
    case Crash => DeadKeepsExclusion(s, p);
    case FinishDrop => DeadKeepsExclusion(s, p);
    case BindFails => ReturnKeepsExclusion(s, p, Degraded);
    case Notified => ReturnKeepsExclusion(s, p, Secondary);
    case StatRefused => ReturnKeepsExclusion(s, p, Degraded);
    case UnlinkFails => ReturnKeepsExclusion(s, p, Degraded);
    case RebindFails => ReturnKeepsExclusion(s, p, Degraded);
    case RemoveUnused(_) => ReturnKeepsExclusion(s, p, Degraded);
    case ThreadStarts => ReturnKeepsExclusion(s, p, Primary(s.procs[p].socket));
    case ListenerStops => StoppingKeepsExclusion(s, p, s.procs[p].socket);
    case BeginDrop => StoppingKeepsExclusion(s, p, s.procs[p].socket);
    case _ => PassingKeepsExclusion(s, p, event);
  }

  lemma StepKeepsInvariant(s: State, p: Pid, event: Event)
    requires Invariant(s) && Enabled(s, p, event)
    requires event.FinishDrop? ==> s.listeners == map[]
    ensures Invariant(Step(s, p, event))
  {
    StepKeepsOwnership(s, p, event);
    StepKeepsExclusion(s, p, event);
  }

  // ---------------------------------------------------------------- every interleaving

  datatype Move = Move(pid: Pid, event: Event)

  /** A schedule whose moves are possible one after the other. */
  predicate Possible(s: State, moves: seq<Move>)
    decreases |moves|
  {
    moves == [] || (Enabled(s, moves[0].pid, moves[0].event)
                    && Possible(Step(s, moves[0].pid, moves[0].event), moves[1..]))
  }

  function Run(s: State, moves: seq<Move>): State
    requires Possible(s, moves)
    decreases |moves|
  {
    if moves == [] then s else Run(Step(s, moves[0].pid, moves[0].event), moves[1..])
  }

  /** Every unlink of an orderly exit in the schedule meets a moment when nobody listens. */
  predicate DropsMeetNobody(s: State, moves: seq<Move>)
    requires Possible(s, moves)
    decreases |moves|
  {
    moves == [] ||
      ((moves[0].event.FinishDrop? ==> s.listeners == map[])
       && DropsMeetNobody(Step(s, moves[0].pid, moves[0].event), moves[1..]))
  }

  lemma {:induction false} EveryScheduleIsSafe(s: State, moves: seq<Move>)
    requires Invariant(s) && Possible(s, moves) && DropsMeetNobody(s, moves)
    ensures Invariant(Run(s, moves))
    decreases |moves|
  {
    if moves != [] {
      StepKeepsInvariant(s, moves[0].pid, moves[0].event);
      EveryScheduleIsSafe(Step(s, moves[0].pid, moves[0].event), moves[1..]);
    }
  }

  lemma {:induction false} NoDropNoHarm(s: State, moves: seq<Move>)
    requires Possible(s, moves) && forall m | m in moves :: !m.event.FinishDrop?
    ensures DropsMeetNobody(s, moves)
    decreases |moves|
  {
    if moves != [] {
      NoDropNoHarm(Step(s, moves[0].pid, moves[0].event), moves[1..]);
    }
  }

  /** In every interleaving of any number of processes, with crashes anywhere, at most one live
      process is a listening primary, as long as no orderly exit removes the path. */
  lemma AtMostOnePrimaryInEveryInterleaving(s: State, moves: seq<Move>, p: Pid, q: Pid)
    requires Initial(s) && Possible(s, moves) && forall m | m in moves :: !m.event.FinishDrop?
    requires IsPrimary(Run(s, moves), p) && IsPrimary(Run(s, moves), q)
    ensures p == q
  {
    NoDropNoHarm(s, moves);
    EveryScheduleIsSafe(s, moves);
    AtMostOnePrimary(Run(s, moves), p, q);
  }

  // ---------------------------------------------------------------- which role a process is given

  /** The moves a process has made since it was last started, in order. */
  function OwnEvents(moves: seq<Move>, p: Pid, before: seq<Event>): seq<Event>
    decreases |moves|
  {
    if moves == [] then before
    else
      var m := moves[0];
      OwnEvents(moves[1..], p, if m.pid != p then before else if m.event.Spawn? then [] else before + [m.event])
  }

  /** Something of its own that a process tried did not work, other than being answered. */
  predicate IsFailure(event: Event) {
    event in {BindFails, StatRefused, UnlinkFails, RebindFails, ThreadFails}
  }

  predicate SomeFailure(events: seq<Event>) {
    exists event | event in events :: IsFailure(event)
  }

  /** A process is told to leave exactly when its lock failed or its message was taken; it protects the
      instance exactly when its listener was started; it runs unprotected exactly when something failed
      and it gave up. */
  predicate RoleFits(pc: Pc, events: seq<Event>) {
    && (pc.Secondary? <==> LockFails in events || Notified in events)
    && (pc.Primary? || pc.Dropping? <==> ThreadStarts in events)
    && (pc.Dropping? <==> BeginDrop in events)
    && (pc.Degraded? || pc.ListenerLost? <==> SomeFailure(events))
    && (pc.ListenerLost? ==> ThreadFails in events)
  }

  lemma OneMoreEvent(events: seq<Event>, event: Event)
    ensures SomeFailure(events + [event]) <==> SomeFailure(events) || IsFailure(event)
    ensures forall e :: e in events + [event] <==> e in events || e == event
  {
    assert forall e :: e in events + [event] <==> e in events || e == event;
    if SomeFailure(events) {
      var e :| e in events && IsFailure(e);
      assert e in events + [event];
    }
    if IsFailure(event) { assert event in events + [event]; }
  }

  lemma OthersKeepTheirRole(s: State, p: Pid, event: Event, q: Pid)
    requires Enabled(s, p, event) && q != p && q in Step(s, p, event).procs
    ensures q in s.procs && Step(s, p, event).procs[q] == s.procs[q]
  {
  }

  lemma OwnStepFitsRole(s: State, p: Pid, event: Event, events: seq<Event>)
    requires Enabled(s, p, event) && !event.Spawn? && RoleFits(s.procs[p], events)
    requires p in Step(s, p, event).procs
    ensures RoleFits(Step(s, p, event).procs[p], events + [event])
  {
    hide SomeFailure;
    OneMoreEvent(events, event);
  }

  /** A step keeps the role of its process what its events say, and no other process's role changes. */
  lemma StepFitsRole(s: State, p: Pid, event: Event, q: Pid, events: seq<Event>)
    requires Enabled(s, p, event) && (q in s.procs ==> RoleFits(s.procs[q], events))
    requires q in Step(s, p, event).procs
    ensures RoleFits(Step(s, p, event).procs[q],
                     if p != q then events else if event.Spawn? then [] else events + [event])
  {
    hide RoleFits;
    if p != q {
      OthersKeepTheirRole(s, p, event, q);
    } else if event.Spawn? {
      WaitersFit();
    } else {
      OwnStepFitsRole(s, p, event, events);
    }
  }

  lemma WaitersFit()
    ensures RoleFits(Waiting, [])
  {
    hide SomeFailure;
    NoFailureInNothing();
  }

  lemma NoFailureInNothing()
    ensures !SomeFailure([])
  {
  }

  /** In every schedule, whatever happens: the role of each process follows from its own events. */
  lemma {:induction false} RolesFollowEvents(s: State, moves: seq<Move>, q: Pid, before: seq<Event>)
    requires Possible(s, moves) && (q in s.procs ==> RoleFits(s.procs[q], before))
    requires q in Run(s, moves).procs
    ensures RoleFits(Run(s, moves).procs[q], OwnEvents(moves, q, before))
    decreases |moves|
  {
    hide RoleFits, Step, Enabled;
    if moves != [] {
      var m := moves[0];
      var next := if m.pid != q then before else if m.event.Spawn? then [] else before + [m.event];
      if q in Step(s, m.pid, m.event).procs {
        StepFitsRole(s, m.pid, m.event, q, before);
      }
      RolesFollowEvents(Step(s, m.pid, m.event), moves[1..], q, next);
    }
  }

  lemma {:induction false} OwnEventsAreMoves(moves: seq<Move>, p: Pid, before: seq<Event>)
    ensures forall e | e in OwnEvents(moves, p, before) :: e in before || Move(p, e) in moves
    decreases |moves|
  {
    if moves != [] {
      var m := moves[0];
      var next := if m.pid != p then before else if m.event.Spawn? then [] else before + [m.event];
      OwnEventsAreMoves(moves[1..], p, next);
      assert m in moves && forall x | x in moves[1..] :: x in moves;
    }
  }

  /** The roles in a schedule that starts without processes. */
  lemma RolesAreEarned(s: State, moves: seq<Move>, p: Pid)
    requires Initial(s) && Possible(s, moves) && p in Run(s, moves).procs
    ensures RoleFits(Run(s, moves).procs[p], OwnEvents(moves, p, []))
    ensures Run(s, moves).procs[p].Secondary? ==> Move(p, LockFails) in moves || Move(p, Notified) in moves
    ensures Run(s, moves).procs[p].Degraded? ==> exists m | m in moves :: m.pid == p && IsFailure(m.event)
  {
    hide Run, Possible;
    RolesFollowEvents(s, moves, p, []);
    OwnEventsAreMoves(moves, p, []);
    if Run(s, moves).procs[p].Degraded? {
      var e :| e in OwnEvents(moves, p, []) && IsFailure(e);
      assert Move(p, e) in moves;
    }
  }

  predicate NoFailures(moves: seq<Move>) {
    forall m | m in moves :: !IsFailure(m.event)
  }

  /** Nobody's listener ends other than by a crash of its process. */
  predicate NobodyStops(moves: seq<Move>) {
    forall m | m in moves :: !m.event.ListenerStops? && !m.event.BeginDrop? && !m.event.FinishDrop?
  }

  /** A process that runs as the application, protected or not. */
  predicate IsInstance(s: State, p: Pid) {
    p in s.procs && (s.procs[p].Primary? || s.procs[p].Degraded?)
  }

  predicate PrimariesListen(s: State) {
    forall p | p in s.procs && s.procs[p].Primary? :: IsPrimary(s, p)
  }

  lemma StepKeepsPrimariesListening(s: State, p: Pid, event: Event)
    requires Ownership(s) && PrimariesListen(s) && Enabled(s, p, event)
    requires !IsFailure(event) && !event.ListenerStops? && !event.BeginDrop? && !event.FinishDrop?
    ensures PrimariesListen(Step(s, p, event))
  {
  }

  lemma {:induction false} PrimariesGoOnListening(s: State, moves: seq<Move>)
    requires Ownership(s) && PrimariesListen(s) && Possible(s, moves) && NoFailures(moves) && NobodyStops(moves)
    ensures PrimariesListen(Run(s, moves))
    decreases |moves|
  {
    hide Ownership, PrimariesListen, Step, Enabled;
    if moves != [] {
      var m := moves[0];
      assert m in moves && forall x | x in moves[1..] :: x in moves;
      StepKeepsPrimariesListening(s, m.pid, m.event);
      StepKeepsOwnership(s, m.pid, m.event);
      PrimariesGoOnListening(Step(s, m.pid, m.event), moves[1..]);
    }
  }

  /** What the protocol is for: with nothing failing and nobody stopping, processes starting and crashing
      in any order never run two instances at once, protected or not. */
  lemma OneInstanceWithoutFailures(s: State, moves: seq<Move>, p: Pid, q: Pid)
    requires Initial(s) && Possible(s, moves) && NoFailures(moves) && NobodyStops(moves)
    requires IsInstance(Run(s, moves), p) && IsInstance(Run(s, moves), q)
    ensures p == q
  {
    hide Run, Possible, Invariant, IsPrimary;
    var after := Run(s, moves);
    RolesAreEarned(s, moves, p);
    RolesAreEarned(s, moves, q);
    assert Ownership(s) && PrimariesListen(s);
    PrimariesGoOnListening(s, moves);
    AtMostOnePrimaryInEveryInterleaving(s, moves, p, q);
  }

  // ---------------------------------------------------------------- an orderly exit can break it

  const Empty := State(None, Absent, map[], map[], 0)

  function Moves(p: Pid, events: seq<Event>): (moves: seq<Move>)
    ensures |moves| == |events|
  {
    seq(|events|, i requires 0 <= i < |events| => Move(p, events[i]))
  }

  const Start := [Spawn, LockTaken, BindOk, ThreadStarts]

  const TakeOver := [Spawn, LockTaken, BindInUse, NotifyFails, StatSocket, Unlink, RebindOk, ThreadStarts]

  /** The first process stops listening, a second one takes the path over, the first one then
      unlinks the path it no longer owns, and a third one binds it again: two listening primaries. */
  function DropRace(): seq<Move> {
    Moves(0, Start) + Moves(0, [BeginDrop]) + Moves(1, TakeOver) + Moves(0, [FinishDrop]) + Moves(2, Start)
  }

  lemma {:induction false} RunConcat(s: State, a: seq<Move>, b: seq<Move>)
    requires Possible(s, a) && Possible(Run(s, a), b)
    ensures Possible(s, a + b) && Run(s, a + b) == Run(Run(s, a), b)
    decreases |a|
  {
    if a == [] {
      assert a + b == b;
    } else {
      assert (a + b)[1..] == a[1..] + b;
      RunConcat(Step(s, a[0].pid, a[0].event), a[1..], b);
    }
  }

  /** The state reached by a first move followed by more moves of the same process. */
  lemma FirstMove(s: State, p: Pid, events: seq<Event>)
    requires events != [] && Enabled(s, p, events[0]) && Possible(Step(s, p, events[0]), Moves(p, events[1..]))
    ensures Possible(s, Moves(p, events))
    ensures Run(s, Moves(p, events)) == Run(Step(s, p, events[0]), Moves(p, events[1..]))
  {
    assert Moves(p, events)[1..] == Moves(p, events[1..]);
  }

  lemma OneMove(s: State, p: Pid, event: Event)
    requires Enabled(s, p, event)
    ensures Possible(s, Moves(p, [event])) && Run(s, Moves(p, [event])) == Step(s, p, event)
  {
    assert Moves(p, [event])[1..] == [];
  }

  /** What a process leaves behind that became primary on the next socket. */
  function WithPrimary(s: State, p: Pid): State {
    var k := s.nextSocket;
    State(None, Socket(k), s.procs[p := Primary(k)], s.listeners[k := p], k + 1)
  }

  /** From just before its bind, a process goes on to be primary. */
  lemma BindAndStart(s: State, p: Pid, bind: Event)
    requires s.lock == Some(p) && bind in {BindOk, RebindOk} && Enabled(s, p, bind)
    ensures Possible(s, Moves(p, [bind, ThreadStarts])) && Run(s, Moves(p, [bind, ThreadStarts])) == WithPrimary(s, p)
  {
    var events := [bind, ThreadStarts];
    var bound := Step(s, p, bind);
    assert events[1..] == [ThreadStarts];
    OneMove(bound, p, ThreadStarts);
    FirstMove(s, p, events);
    assert Step(bound, p, ThreadStarts).procs == WithPrimary(s, p).procs;
  }

  /** A fresh process takes the lock. */
  lemma Enter(s: State, p: Pid, later: seq<Event>)
    requires p !in s.procs && s.lock.None?
    requires Possible(Goto(s, p, Holding).(lock := Some(p)), Moves(p, later))
    ensures Possible(s, Moves(p, [Spawn, LockTaken] + later))
    ensures Run(s, Moves(p, [Spawn, LockTaken] + later)) == Run(Goto(s, p, Holding).(lock := Some(p)), Moves(p, later))
  {
    var events := [Spawn, LockTaken] + later;
    assert events[1..] == [LockTaken] + later && ([LockTaken] + later)[1..] == later;
    var spawned := Step(s, p, Spawn);
    assert Step(spawned, p, LockTaken) == Goto(s, p, Holding).(lock := Some(p));
    FirstMove(spawned, p, [LockTaken] + later);
    FirstMove(s, p, events);
  }

  lemma StartReaches(s: State, p: Pid)
    requires p !in s.procs && s.lock.None? && s.path.Absent?
    ensures Possible(s, Moves(p, Start)) && Run(s, Moves(p, Start)) == WithPrimary(s, p)
  {
    var entered := Goto(s, p, Holding).(lock := Some(p));
    BindAndStart(entered, p, BindOk);
    Enter(s, p, [BindOk, ThreadStarts]);
    assert [Spawn, LockTaken] + [BindOk, ThreadStarts] == Start;
    assert WithPrimary(entered, p).procs == WithPrimary(s, p).procs;
  }

  predicate NoDrops(moves: seq<Move>) {
    forall m | m in moves :: !m.event.FinishDrop?
  }

  /** Whatever happens from here on, short of another unlink by an exit, there is one primary at most. */
  ghost predicate OnePrimaryFromHere(s: State) {
    forall moves: seq<Move>, p, q ::
      Possible(s, moves) && NoDrops(moves) && IsPrimary(Run(s, moves), p) && IsPrimary(Run(s, moves), q) ==> p == q
  }

  lemma {:induction false} FreshPid(pids: set<Pid>) returns (pid: Pid)
    ensures forall p | p in pids :: p < pid
  {
    pid := 0;
    if pids != {} {
      var p :| p in pids;
      var above := FreshPid(pids - {p});
      assert forall other | other in pids :: other == p || other in pids - {p};
      pid := if above > p then above else p + 1;
    }
  }

  /** With the path free and the lock free, a newcomer becomes primary beside a primary that listens. */
  lemma NewcomerBesidePrimary(s: State, q: Pid, r: Pid)
    requires Ownership(s) && IsPrimary(s, q) && s.lock.None? && s.path.Absent? && r !in s.procs
    ensures Possible(s, Moves(r, Start)) && NoDrops(Moves(r, Start))
    ensures IsPrimary(Run(s, Moves(r, Start)), q) && IsPrimary(Run(s, Moves(r, Start)), r)
  {
    hide Run, Possible;
    StartReaches(s, r);
    assert forall i | 0 <= i < |Start| :: Moves(r, Start)[i].event == Start[i];
  }

  /** One process's move, then a newcomer. */
  lemma MoveThenNewcomer(s: State, h: Pid, event: Event, q: Pid, r: Pid)
    requires Enabled(s, h, event) && !event.FinishDrop? && r !in Step(s, h, event).procs
    requires Ownership(Step(s, h, event)) && IsPrimary(Step(s, h, event), q)
    requires Step(s, h, event).lock.None? && Step(s, h, event).path.Absent?
    ensures var moves := Moves(h, [event]) + Moves(r, Start);
      && Possible(s, moves) && NoDrops(moves)
      && IsPrimary(Run(s, moves), q) && IsPrimary(Run(s, moves), r)
  {
    hide Run, Possible, Step, Enabled;
    OneMove(s, h, event);
    NewcomerBesidePrimary(Step(s, h, event), q, r);
    RunConcat(s, Moves(h, [event]), Moves(r, Start));
  }

  /** What an unlink leaves while somebody listens: the listener, the lock's holder if there is one, and
      a free path. */
  lemma UnlinkLeavesListener(s: State, p: Pid, k: SocketId)
    requires Invariant(s) && Enabled(s, p, FinishDrop) && k in s.listeners
    ensures var after, q := Step(s, p, FinishDrop), s.listeners[k];
      && Ownership(after) && after.path.Absent? && after.lock == s.lock
      && q != p && q in after.procs && after.procs[q] == s.procs[q] && k in after.listeners && after.listeners[k] == q
      && HasSocket(s.procs[q]) && s.procs[q].socket == k
      && (s.procs[q].Listening? <==> s.lock == Some(q))
      && (s.lock.Some? ==> s.lock.value in after.procs)
  {
    StepKeepsOwnership(s, p, FinishDrop);
  }

  /** After an unlink with a listener alive, at most one more move of the lock's holder lets a newcomer
      become a second primary. */
  lemma UnlinkLetsSecondPrimaryIn(s: State, p: Pid) returns (moves: seq<Move>, q: Pid, r: Pid)
    requires Invariant(s) && Enabled(s, p, FinishDrop) && s.listeners != map[]
    ensures var after := Step(s, p, FinishDrop);
      && Possible(after, moves) && NoDrops(moves) && q != r
      && IsPrimary(Run(after, moves), q) && IsPrimary(Run(after, moves), r)
  {
    var k :| k in s.listeners;
    UnlinkLeavesListener(s, p, k);
    var after := Step(s, p, FinishDrop);
    q := s.listeners[k];
    r := FreshPid(after.procs.Keys);
    hide Run, Possible, Ownership, Exclusion;
    if s.lock.None? {
      NewcomerBesidePrimary(after, q, r);
      moves := Moves(r, Start);
    } else {
      var h := s.lock.value;
      var event := if h == q then ThreadStarts else Crash;
      HolderGivesWay(after, h, event, q);
      MoveThenNewcomer(after, h, event, q, r);
      moves := Moves(h, [event]) + Moves(r, Start);
    }
  }

  /** The holder of the lock starts its listener's thread, or dies. */
  lemma HolderGivesWay(s: State, h: Pid, event: Event, q: Pid)
    requires Ownership(s) && s.path.Absent? && s.lock == Some(h)
    requires h in s.procs && q in s.procs && HasSocket(s.procs[q])
    requires s.procs[q].socket in s.listeners && s.listeners[s.procs[q].socket] == q
    requires if h == q then s.procs[q].Listening? && event == ThreadStarts else s.procs[q].Primary? && event == Crash
    ensures Enabled(s, h, event)
    ensures var after := Step(s, h, event);
      && Ownership(after) && IsPrimary(after, q)
      && after.lock.None? && after.path.Absent? && after.procs.Keys <= s.procs.Keys
  {
    StepKeepsOwnership(s, h, event);
  }

  /** The unlink of an orderly exit is harmless exactly when nobody listens: otherwise, and only then, two
      processes can both become listening primaries afterwards. */
  lemma FinishDropIsSafeExactlyWhenNobodyListens(s: State, p: Pid)
    requires Invariant(s) && Enabled(s, p, FinishDrop)
    ensures OnePrimaryFromHere(Step(s, p, FinishDrop)) <==> s.listeners == map[]
  {
    hide Run, Possible;
    var after := Step(s, p, FinishDrop);
    if s.listeners == map[] {
      StepKeepsInvariant(s, p, FinishDrop);
      hide Invariant, IsPrimary;
      forall moves: seq<Move>, a, b
        | Possible(after, moves) && NoDrops(moves) && IsPrimary(Run(after, moves), a) && IsPrimary(Run(after, moves), b)
        ensures a == b
      {
        NoDropNoHarm(after, moves);
        EveryScheduleIsSafe(after, moves);
        AtMostOnePrimary(Run(after, moves), a, b);
      }
    } else {
      var moves, q, r := UnlinkLetsSecondPrimaryIn(s, p);
    }
  }

  /** A process in the lock finds a socket nobody answers on and clears the path. */
  lemma ClearStale(s: State, p: Pid, later: seq<Event>)
    requires At(s, p, Holding) && s.lock == Some(p) && s.path.Socket? && s.listeners == map[]
    requires Possible(Goto(s, p, Cleared).(path := Absent), Moves(p, later))
    ensures var events := [BindInUse, NotifyFails, StatSocket, Unlink] + later;
      && Possible(s, Moves(p, events))
      && Run(s, Moves(p, events)) == Run(Goto(s, p, Cleared).(path := Absent), Moves(p, later))
  {
    hide Run, Possible, Moves;
    var s2 := Step(Step(s, p, BindInUse), p, NotifyFails);
    var inner := [StatSocket, Unlink] + later;
    assert Goto(s2, p, Cleared).(path := Absent) == Goto(s, p, Cleared).(path := Absent);
    Unlinking(s2, p, later);
    var e1 := [NotifyFails] + inner;
    assert e1[1..] == inner;
    FirstMove(Step(s, p, BindInUse), p, e1);
    var e0 := [BindInUse] + e1;
    assert e0[1..] == e1 && e0 == [BindInUse, NotifyFails, StatSocket, Unlink] + later;
    FirstMove(s, p, e0);
  }

  lemma Unlinking(s: State, p: Pid, later: seq<Event>)
    requires At(s, p, Unanswered) && s.path.Socket?
    requires Possible(Goto(s, p, Cleared).(path := Absent), Moves(p, later))
    ensures Possible(s, Moves(p, [StatSocket, Unlink] + later))
    ensures Run(s, Moves(p, [StatSocket, Unlink] + later)) == Run(Goto(s, p, Cleared).(path := Absent), Moves(p, later))
  {
    hide Run, Possible, Moves;
    var s1 := Step(s, p, StatSocket);
    assert Step(s1, p, Unlink) == Goto(s, p, Cleared).(path := Absent);
    var e1 := [Unlink] + later;
    assert e1[1..] == later;
    FirstMove(s1, p, e1);
    var e0 := [StatSocket, Unlink] + later;
    assert e0[1..] == e1;
    FirstMove(s, p, e0);
  }

  lemma TakeOverReaches(s: State, p: Pid)
    requires p !in s.procs && s.lock.None? && s.path.Socket? && s.listeners == map[]
    ensures Possible(s, Moves(p, TakeOver)) && Run(s, Moves(p, TakeOver)) == WithPrimary(s, p)
  {
    hide Run, Possible, Moves;
    var entered := Goto(s, p, Holding).(lock := Some(p));
    var cleared := Goto(entered, p, Cleared).(path := Absent);
    BindAndStart(cleared, p, RebindOk);
    ClearStale(entered, p, [RebindOk, ThreadStarts]);
    var inside := [BindInUse, NotifyFails, StatSocket, Unlink] + [RebindOk, ThreadStarts];
    Enter(s, p, inside);
    assert [Spawn, LockTaken] + inside == TakeOver;
    assert WithPrimary(cleared, p).procs == WithPrimary(s, p).procs;
  }

  /** Two listening primaries are reachable once orderly exits may unlink outside the lock. */
  lemma OrderlyExitCanLeaveTwoPrimaries()
    ensures Initial(Empty) && Possible(Empty, DropRace())
    ensures IsPrimary(Run(Empty, DropRace()), 1) && IsPrimary(Run(Empty, DropRace()), 2)
  {
    hide Run, Possible, Moves;
    StartReaches(Empty, 0);
    var s1 := WithPrimary(Empty, 0);
    OneMove(s1, 0, BeginDrop);
    RunConcat(Empty, Moves(0, Start), Moves(0, [BeginDrop]));
    var s2 := Step(s1, 0, BeginDrop);
    assert s2.listeners == map[];
    TakeOverReaches(s2, 1);
    RunConcat(Empty, Moves(0, Start) + Moves(0, [BeginDrop]), Moves(1, TakeOver));
    var s3 := WithPrimary(s2, 1);
    OneMove(s3, 0, FinishDrop);
    RunConcat(Empty, Moves(0, Start) + Moves(0, [BeginDrop]) + Moves(1, TakeOver), Moves(0, [FinishDrop]));
    var s4 := Step(s3, 0, FinishDrop);
    StartReaches(s4, 2);
    RunConcat(
      Empty, Moves(0, Start) + Moves(0, [BeginDrop]) + Moves(1, TakeOver) + Moves(0, [FinishDrop]), Moves(2, Start));
  }
}
