/** Opening and closing repositories concurrently: handles by id, ids by path, and a table of
    reference-counted locks, one per path, from which only locks nobody holds are pruned. Threads run
    in interleaved steps and may be cancelled wherever they wait. */
module OpenRepos {
  import opened Wrappers

  type Path = string
  type RepoId = nat
  type LockId = nat
  type ThreadId = nat

  /** Where a thread is. From `Inside` on it holds the mutex of its lock. */
  datatype Pc = Waiting | Inside | Stale | Checked | Inserted(id: RepoId) | Removed

  /** A thread that opens its path, or closes a handle once opened for it. */
  datatype Thread = Thread(path: Path, closing: Option<RepoId>, lock: LockId, pc: Pc)

  /** `paths[id]` is the path a handle was opened for, `lockPaths[lock]` the one a lock was made for,
      `returned[t]` the handle the last open of a thread returned. */
  datatype State = State(
    locks: map<Path, LockId>, owners: map<LockId, ThreadId>, byPath: map<Path, RepoId>, repos: set<RepoId>,
    threads: map<ThreadId, Thread>, paths: seq<Path>, lockPaths: seq<Path>, returned: map<ThreadId, RepoId>)

  const Initial := State(map[], map[], map[], {}, map[], [], [], map[])

  datatype Event =
    | Prune(path: Path)
    | BeginOpen(thread: ThreadId, newPath: Path)
    | BeginClose(thread: ThreadId, id: RepoId)
    | LockMutex(thread: ThreadId)
    | Abandon(thread: ThreadId)
    | CheckMapping(thread: ThreadId)
    | RemoveStale(thread: ThreadId)
    | InsertRepo(thread: ThreadId)
    | InsertMapping(thread: ThreadId)
    | RemoveRepo(thread: ThreadId)
    | RemoveMapping(thread: ThreadId)

  predicate At(s: State, t: ThreadId, pc: Pc) {
    t in s.threads && s.threads[t].pc == pc
  }

  predicate Referenced(s: State, lock: LockId) {
    exists t | t in s.threads :: s.threads[t].lock == lock
  }

  predicate Enabled(s: State, event: Event) {
    match event
    case Prune(path) => path in s.locks && !Referenced(s, s.locks[path])
    case BeginOpen(t, _) => t !in s.threads
    case BeginClose(t, _) => t !in s.threads
    case LockMutex(t) => At(s, t, Waiting) && s.threads[t].lock !in s.owners
    case Abandon(t) => At(s, t, Waiting) || At(s, t, Checked)
    case CheckMapping(t) => At(s, t, Inside) && s.threads[t].closing.None?
    case RemoveStale(t) => At(s, t, Stale)
    case InsertRepo(t) => At(s, t, Checked)
    case InsertMapping(t) => t in s.threads && s.threads[t].pc.Inserted?
    case RemoveRepo(t) => At(s, t, Inside) && s.threads[t].closing.Some?
    case RemoveMapping(t) => At(s, t, Removed) && s.threads[t].closing.Some?
  }

  /** Takes a reference to the path's lock, made if the table has none. */
  function Enter(s: State, t: ThreadId, path: Path, closing: Option<RepoId>): State {
    if path in s.locks then s.(threads := s.threads[t := Thread(path, closing, s.locks[path], Waiting)])
    else s.(locks := s.locks[path := |s.lockPaths|], lockPaths := s.lockPaths + [path],
            threads := s.threads[t := Thread(path, closing, |s.lockPaths|, Waiting)])
  }

  function Goto(s: State, t: ThreadId, pc: Pc): State
    requires t in s.threads
  {
    s.(threads := s.threads[t := s.threads[t].(pc := pc)])
  }

  /** Releases the mutex, if held, and the reference to the lock. */
  function Leave(s: State, t: ThreadId): State
    requires t in s.threads
  {
    var lock := s.threads[t].lock;
    s.(threads := s.threads - {t},
       owners := if lock in s.owners && s.owners[lock] == t then s.owners - {lock} else s.owners)
  }

  /** Closing a handle that is not open returns at once. */
  function Step(s: State, event: Event): State
    requires Enabled(s, event)
  {
    match event
    case Prune(path) => s.(locks := s.locks - {path})
    case BeginOpen(t, path) => Enter(s, t, path, None).(returned := s.returned - {t})
    case BeginClose(t, id) => if id in s.repos && id < |s.paths| then Enter(s, t, s.paths[id], Some(id)) else s
    case LockMutex(t) => Goto(s, t, Inside).(owners := s.owners[s.threads[t].lock := t])
    case Abandon(t) => Leave(s, t)
    case CheckMapping(t) =>
      var path := s.threads[t].path;
      if path !in s.byPath then Goto(s, t, Checked)
      else if s.byPath[path] in s.repos then Leave(s, t).(returned := s.returned[t := s.byPath[path]])
      else Goto(s, t, Stale)
    case RemoveStale(t) => Goto(s, t, Checked).(byPath := s.byPath - {s.threads[t].path})
    case InsertRepo(t) =>
      var id := |s.paths|;
      Goto(s, t, Inserted(id)).(repos := s.repos + {id}, paths := s.paths + [s.threads[t].path])
    case InsertMapping(t) =>
      var id := s.threads[t].pc.id;
      Leave(s, t).(byPath := s.byPath[s.threads[t].path := id], returned := s.returned[t := id])
    case RemoveRepo(t) =>
      var id := s.threads[t].closing.value;
      if id in s.repos then Goto(s, t, Removed).(repos := s.repos - {id}) else Leave(s, t)
    case RemoveMapping(t) =>
      var path, id := s.threads[t].path, s.threads[t].closing.value;
      Leave(s, t).(byPath := if path in s.byPath && s.byPath[path] == id then s.byPath - {path} else s.byPath)
  }

  // ---------------------------------------------------------------- locks

  /** The thread's reference is to the lock in the table; inside, it owns the mutex. */
  predicate HasItsLock(s: State, t: ThreadId)
    requires t in s.threads
  {
    var thread := s.threads[t];
    && thread.path in s.locks && s.locks[thread.path] == thread.lock
    && (!thread.pc.Waiting? ==> thread.lock in s.owners && s.owners[thread.lock] == t)
  }

  predicate OwnerIsInside(s: State, lock: LockId)
    requires lock in s.owners
  {
    var t := s.owners[lock];
    t in s.threads && s.threads[t].lock == lock && !s.threads[t].pc.Waiting?
  }

  predicate LocksOk(s: State) {
    && (forall t | t in s.threads :: HasItsLock(s, t))
    && (forall p | p in s.locks :: s.locks[p] < |s.lockPaths| && s.lockPaths[s.locks[p]] == p)
    && (forall lock | lock in s.owners :: OwnerIsInside(s, lock))
  }

  /** All outstanding locks for one path are the same lock, and one thread at most is inside it. */
  lemma OneLockPerPath(s: State, t: ThreadId, u: ThreadId)
    requires LocksOk(s) && t in s.threads && u in s.threads
    ensures s.threads[t].path == s.threads[u].path <==> s.threads[t].lock == s.threads[u].lock
    ensures s.threads[t].path == s.threads[u].path && !s.threads[t].pc.Waiting? && !s.threads[u].pc.Waiting? ==> t == u
  {
    assert HasItsLock(s, t) && HasItsLock(s, u);
  }

  lemma EnterKeepsLocks(s: State, t: ThreadId, path: Path, closing: Option<RepoId>)
    requires LocksOk(s) && t !in s.threads
    ensures LocksOk(Enter(s, t, path, closing))
  {
    hide HasItsLock, OwnerIsInside, Enter;
    var after := Enter(s, t, path, closing);
    forall u | u in after.threads
      ensures HasItsLock(after, u)
    {
      EnteredHasItsLock(s, t, path, closing, u);
    }
    forall lock | lock in after.owners
      ensures OwnerIsInside(after, lock)
    {
      EnterKeepsOwner(s, t, path, closing, lock);
    }
    EnterKeepsTable(s, t, path, closing);
  }

  lemma EnteredHasItsLock(s: State, t: ThreadId, path: Path, closing: Option<RepoId>, u: ThreadId)
    requires LocksOk(s) && t !in s.threads && u in Enter(s, t, path, closing).threads
    ensures HasItsLock(Enter(s, t, path, closing), u)
  {
    hide OwnerIsInside;
    if u != t { assert HasItsLock(s, u); }
  }

  lemma EnterKeepsOwner(s: State, t: ThreadId, path: Path, closing: Option<RepoId>, lock: LockId)
    requires LocksOk(s) && t !in s.threads && lock in Enter(s, t, path, closing).owners
    ensures OwnerIsInside(Enter(s, t, path, closing), lock)
  {
    assert OwnerIsInside(s, lock);
  }

  lemma EnterKeepsTable(s: State, t: ThreadId, path: Path, closing: Option<RepoId>)
    requires LocksOk(s)
    ensures var after := Enter(s, t, path, closing);
      forall p | p in after.locks :: after.locks[p] < |after.lockPaths| && after.lockPaths[after.locks[p]] == p
  {
    hide HasItsLock, OwnerIsInside;
  }

  lemma LeaveKeepsLocks(s: State, t: ThreadId)
    requires LocksOk(s) && t in s.threads
    ensures LocksOk(Leave(s, t))
  {
    var after := Leave(s, t);
    assert HasItsLock(s, t);
    forall u | u in after.threads
      ensures HasItsLock(after, u)
    {
      assert HasItsLock(s, u);
    }
    forall lock | lock in after.owners
      ensures OwnerIsInside(after, lock)
    {
      assert OwnerIsInside(s, lock);
    }
  }

  lemma GotoKeepsLocks(s: State, t: ThreadId, pc: Pc)
    requires LocksOk(s) && t in s.threads && !pc.Waiting? && !s.threads[t].pc.Waiting?
    ensures LocksOk(Goto(s, t, pc))
  {
    var after := Goto(s, t, pc);
    forall u | u in after.threads
      ensures HasItsLock(after, u)
    {
      assert HasItsLock(s, u);
    }
    forall lock | lock in after.owners
      ensures OwnerIsInside(after, lock)
    {
      assert OwnerIsInside(s, lock);
    }
  }

  lemma LockingKeepsLocks(s: State, t: ThreadId)
    requires LocksOk(s) && Enabled(s, LockMutex(t))
    ensures LocksOk(Step(s, LockMutex(t)))
  {
    var after := Step(s, LockMutex(t));
    forall u | u in after.threads
      ensures HasItsLock(after, u)
    {
      assert HasItsLock(s, u);
    }
    forall lock | lock in after.owners
      ensures OwnerIsInside(after, lock)
    {
      if lock in s.owners { assert OwnerIsInside(s, lock); }
    }
  }

  /** Pruning a path's unreferenced lock leaves every reference pointing to the lock in the table. */
  lemma PruningKeepsLocks(s: State, path: Path)
    requires LocksOk(s) && Enabled(s, Prune(path))
    ensures LocksOk(Step(s, Prune(path)))
  {
    var after := Step(s, Prune(path));
    forall u | u in after.threads
      ensures HasItsLock(after, u)
    {
      assert HasItsLock(s, u);
      assert Referenced(s, s.threads[u].lock);
    }
    forall lock | lock in after.owners
      ensures OwnerIsInside(after, lock)
    {
      assert OwnerIsInside(s, lock);
    }
  }

  lemma SameLocks(s: State, t: State)
    requires LocksOk(s) && t == s.(byPath := t.byPath, repos := t.repos, paths := t.paths, returned := t.returned)
    ensures LocksOk(t)
  {
    forall u | u in t.threads
      ensures HasItsLock(t, u)
    {
      assert HasItsLock(s, u);
    }
    forall lock | lock in t.owners
      ensures OwnerIsInside(t, lock)
    {
      assert OwnerIsInside(s, lock);
    }
  }

  lemma StepKeepsLocks(s: State, event: Event)
    requires LocksOk(s) && Enabled(s, event)
    ensures LocksOk(Step(s, event))
  {
    hide LocksOk, Referenced;
    var after := Step(s, event);
    match event
    case Prune(path) => PruningKeepsLocks(s, path);
    case BeginOpen(t, path) => EnterKeepsLocks(s, t, path, None); SameLocks(Enter(s, t, path, None), after);
    case BeginClose(t, id) => if id in s.repos && id < |s.paths| { EnterKeepsLocks(s, t, s.paths[id], Some(id)); }
    case LockMutex(t) => LockingKeepsLocks(s, t);
    case Abandon(t) => LeaveKeepsLocks(s, t);
    case CheckMapping(t) =>
      LeaveKeepsLocks(s, t);
      GotoKeepsLocks(s, t, Checked);
      GotoKeepsLocks(s, t, Stale);
      SameLocks(Leave(s, t), Leave(s, t).(returned := after.returned));
    case RemoveStale(t) => GotoKeepsLocks(s, t, Checked); SameLocks(Goto(s, t, Checked), after);
    case InsertRepo(t) => GotoKeepsLocks(s, t, after.threads[t].pc); SameLocks(Goto(s, t, after.threads[t].pc), after);
    case InsertMapping(t) => LeaveKeepsLocks(s, t); SameLocks(Leave(s, t), after);
    case RemoveRepo(t) =>
      LeaveKeepsLocks(s, t);
      GotoKeepsLocks(s, t, Removed);
      SameLocks(Goto(s, t, Removed), Goto(s, t, Removed).(repos := after.repos));
    case RemoveMapping(t) => LeaveKeepsLocks(s, t); SameLocks(Leave(s, t), after);
  }

  // ---------------------------------------------------------------- handles

  predicate LiveFor(s: State, id: RepoId, path: Path) {
    id in s.repos && id < |s.paths| && s.paths[id] == path
  }

  /** What a thread can rely on where it is. */
  ghost predicate ThreadOk(s: State, t: Thread) {
    && (t.closing.Some? ==> t.closing.value < |s.paths| && s.paths[t.closing.value] == t.path)
    && (t.pc.Checked? || t.pc.Inserted? ==> t.closing.None? && t.path !in s.byPath)
    && (t.pc.Removed? ==>
          && t.closing.Some? && t.closing.value !in s.repos
          && t.path in s.byPath && s.byPath[t.path] == t.closing.value)
    && (t.pc.Checked? ==> forall id :: !LiveFor(s, id, t.path))
    && (t.pc.Inserted? ==> forall id :: LiveFor(s, id, t.path) <==> id == t.pc.id)
    && !t.pc.Stale?
  }

  ghost predicate Publishing(s: State, id: RepoId) {
    exists t :: At(s, t, Inserted(id))
  }

  ghost predicate Retiring(s: State, id: RepoId) {
    exists t :: At(s, t, Removed) && s.threads[t].closing == Some(id)
  }

  /** A live handle is the one its path maps to, or is just being published; a mapping leads to a live
      handle for that path, or to one just being closed. */
  ghost predicate PathOk(s: State, p: Path) {
    && (forall id | LiveFor(s, id, p) :: (p in s.byPath && s.byPath[p] == id) || Publishing(s, id))
    && (p in s.byPath ==>
          && s.byPath[p] < |s.paths| && s.paths[s.byPath[p]] == p
          && (s.byPath[p] in s.repos || Retiring(s, s.byPath[p])))
  }

  ghost predicate HandlesOk(s: State) {
    && (forall id | id in s.repos :: id < |s.paths|)
    && (forall t | t in s.threads :: ThreadOk(s, s.threads[t]))
    && (forall p :: PathOk(s, p))
  }

  ghost predicate Invariant(s: State) {
    LocksOk(s) && HandlesOk(s)
  }

  /** Who is inside for a path is alone: nobody else publishes or retires one of its handles. */
  lemma AloneInside(s: State, t: ThreadId, id: RepoId)
    requires Invariant(s) && t in s.threads && !s.threads[t].pc.Waiting?
    requires id < |s.paths| && s.paths[id] == s.threads[t].path
    ensures LiveFor(s, id, s.threads[t].path) && Publishing(s, id) ==> s.threads[t].pc == Inserted(id)
    ensures Retiring(s, id) ==> s.threads[t].pc == Removed && s.threads[t].closing == Some(id)
  {
    hide LocksOk;
    if LiveFor(s, id, s.threads[t].path) && Publishing(s, id) {
      var u :| At(s, u, Inserted(id));
      assert ThreadOk(s, s.threads[u]);
      assert LiveFor(s, id, s.threads[u].path);
      OneLockPerPath(s, t, u);
    }
    if Retiring(s, id) {
      var u :| At(s, u, Removed) && s.threads[u].closing == Some(id);
      assert ThreadOk(s, s.threads[u]);
      OneLockPerPath(s, t, u);
    }
  }

  /** A mapping seen inside is never stale, so that branch of opening is never taken. */
  lemma MappingsSeenAreLive(s: State, t: ThreadId)
    requires Invariant(s) && Enabled(s, CheckMapping(t)) && s.threads[t].path in s.byPath
    ensures s.byPath[s.threads[t].path] in s.repos
  {
    hide LocksOk;
    var path := s.threads[t].path;
    assert PathOk(s, path);
    AloneInside(s, t, s.byPath[path]);
  }

  /** Only `t` moves, and only what belongs to `path` changes. */
  ghost predicate ChangesOnly(s: State, after: State, t: ThreadId, path: Path) {
    && |s.paths| <= |after.paths|
    && (forall id | 0 <= id < |after.paths| :: after.paths[id] == if id < |s.paths| then s.paths[id] else path)
    && (forall p | p != path :: p in s.byPath <==> p in after.byPath)
    && (forall p | p != path && p in s.byPath :: after.byPath[p] == s.byPath[p])
    && (forall id :: id in after.repos ==> id in s.repos || (id < |after.paths| && after.paths[id] == path))
    && (forall id :: id in s.repos ==> id in after.repos || (id < |s.paths| && s.paths[id] == path))
    && (forall u | u != t :: u in s.threads <==> u in after.threads)
    && (forall u | u != t && u in s.threads :: after.threads[u] == s.threads[u])
  }

  lemma OtherThreadsStayOk(s: State, after: State, t: ThreadId, u: ThreadId)
    requires Invariant(s) && t in s.threads && !s.threads[t].pc.Waiting? && ChangesOnly(s, after, t, s.threads[t].path)
    requires u in s.threads && u != t
    ensures ThreadOk(after, s.threads[u])
  {
    hide LocksOk, Publishing, Retiring;
    OneLockPerPath(s, t, u);
    assert ThreadOk(s, s.threads[u]);
    var other := s.threads[u].path;
    if other != s.threads[t].path {
      forall id: RepoId
        ensures LiveFor(after, id, other) <==> LiveFor(s, id, other)
      {
        assert id in s.repos ==> id < |s.paths|;
      }
    }
  }

  lemma OtherPathsStayOk(s: State, after: State, t: ThreadId, p: Path)
    requires Invariant(s) && t in s.threads && !s.threads[t].pc.Waiting? && ChangesOnly(s, after, t, s.threads[t].path)
    requires p != s.threads[t].path
    ensures PathOk(after, p)
  {
    hide LocksOk, Publishing, Retiring;
    assert PathOk(s, p);
    forall id: RepoId | LiveFor(after, id, p)
      ensures (p in after.byPath && after.byPath[p] == id) || Publishing(after, id)
    {
      assert id in s.repos && id < |s.paths| && LiveFor(s, id, p);
      if Publishing(s, id) { PublishingGoesOn(s, after, t, id); }
    }
    if p in s.byPath && Retiring(s, s.byPath[p]) { RetiringGoesOn(s, after, t, s.byPath[p]); }
  }

  lemma PublishingGoesOn(s: State, after: State, t: ThreadId, id: RepoId)
    requires Invariant(s) && t in s.threads && ChangesOnly(s, after, t, s.threads[t].path)
    requires Publishing(s, id) && id in s.repos && id < |s.paths| && s.paths[id] != s.threads[t].path
    ensures Publishing(after, id)
  {
    var u :| At(s, u, Inserted(id));
    assert ThreadOk(s, s.threads[u]);
    assert LiveFor(s, id, s.threads[u].path);
    assert At(after, u, Inserted(id));
  }

  lemma RetiringGoesOn(s: State, after: State, t: ThreadId, id: RepoId)
    requires Invariant(s) && t in s.threads && ChangesOnly(s, after, t, s.threads[t].path)
    requires Retiring(s, id) && id < |s.paths| && s.paths[id] != s.threads[t].path
    ensures Retiring(after, id)
  {
    var u :| At(s, u, Removed) && s.threads[u].closing == Some(id);
    assert ThreadOk(s, s.threads[u]);
    assert At(after, u, Removed);
  }

  /** A step of a thread inside is right if it is right for its own path. */
  lemma InsideStep(s: State, after: State, t: ThreadId)
    requires Invariant(s) && t in s.threads && !s.threads[t].pc.Waiting? && ChangesOnly(s, after, t, s.threads[t].path)
    requires PathOk(after, s.threads[t].path) && (t in after.threads ==> ThreadOk(after, after.threads[t]))
    ensures HandlesOk(after)
  {
    hide LocksOk, ThreadOk, PathOk;
    forall u | u in after.threads
      ensures ThreadOk(after, after.threads[u])
    {
      if u != t { OtherThreadsStayOk(s, after, t, u); }
    }
    forall p
      ensures PathOk(after, p)
    {
      if p != s.threads[t].path { OtherPathsStayOk(s, after, t, p); }
    }
  }

  /** A step that only brings a thread in, lets it take the mutex, or lets it give up waiting. */
  lemma OutsideStep(s: State, after: State, t: ThreadId)
    requires HandlesOk(s) && after.byPath == s.byPath && after.repos == s.repos && after.paths == s.paths
    requires forall u | u != t :: u in s.threads <==> u in after.threads
    requires forall u | u != t && u in s.threads :: after.threads[u] == s.threads[u]
    requires t in s.threads ==> s.threads[t].pc.Waiting?
    requires t in after.threads ==> ThreadOk(after, after.threads[t])
    ensures HandlesOk(after)
  {
    hide ThreadOk;
    forall u | u in after.threads
      ensures ThreadOk(after, after.threads[u])
    {
      if u != t { SameThread(s, after, s.threads[u]); }
    }
    forall p
      ensures PathOk(after, p)
    {
      assert PathOk(s, p);
      forall id: RepoId | LiveFor(after, id, p)
        ensures (p in after.byPath && after.byPath[p] == id) || Publishing(after, id)
      {
        assert LiveFor(s, id, p);
        if Publishing(s, id) {
          var u :| At(s, u, Inserted(id));
          assert At(after, u, Inserted(id));
        }
      }
      if p in s.byPath && Retiring(s, s.byPath[p]) {
        var u :| At(s, u, Removed) && s.threads[u].closing == Some(s.byPath[p]);
        assert At(after, u, Removed);
      }
    }
  }

  lemma SameThread(s: State, after: State, thread: Thread)
    requires ThreadOk(s, thread) && after.byPath == s.byPath && after.repos == s.repos && after.paths == s.paths
    ensures ThreadOk(after, thread)
  {
    forall id: RepoId
      ensures LiveFor(after, id, thread.path) <==> LiveFor(s, id, thread.path)
    {
    }
  }

  lemma CheckKeepsHandles(s: State, t: ThreadId)
    requires Invariant(s) && Enabled(s, CheckMapping(t))
    ensures HandlesOk(Step(s, CheckMapping(t)))
  {
    hide LocksOk;
    var after, path := Step(s, CheckMapping(t)), s.threads[t].path;
    assert PathOk(s, path);
    if path in s.byPath {
      MappingsSeenAreLive(s, t);
    }
    forall id: RepoId | LiveFor(after, id, path)
      ensures path in after.byPath && after.byPath[path] == id
    {
      assert LiveFor(s, id, path);
      AloneInside(s, t, id);
    }
    InsideStep(s, after, t);
  }

  lemma GivingUpKeepsHandles(s: State, t: ThreadId)
    requires Invariant(s) && At(s, t, Checked)
    ensures HandlesOk(Leave(s, t))
  {
    hide LocksOk;
    var after, path := Leave(s, t), s.threads[t].path;
    assert ThreadOk(s, s.threads[t]);
    forall id: RepoId
      ensures !LiveFor(after, id, path)
    {
      assert !LiveFor(s, id, path);
    }
    InsideStep(s, after, t);
  }

  lemma InsertRepoKeepsHandles(s: State, t: ThreadId)
    requires Invariant(s) && Enabled(s, InsertRepo(t))
    ensures HandlesOk(Step(s, InsertRepo(t)))
  {
    hide LocksOk;
    var after, path, id := Step(s, InsertRepo(t)), s.threads[t].path, |s.paths|;
    assert ThreadOk(s, s.threads[t]);
    assert At(after, t, Inserted(id));
    forall other: RepoId
      ensures LiveFor(after, other, path) <==> other == id
    {
      assert !LiveFor(s, other, path);
    }
    InsideStep(s, after, t);
  }

  lemma InsertMappingKeepsHandles(s: State, t: ThreadId)
    requires Invariant(s) && Enabled(s, InsertMapping(t))
    ensures HandlesOk(Step(s, InsertMapping(t)))
  {
    hide LocksOk;
    var after, path, id := Step(s, InsertMapping(t)), s.threads[t].path, s.threads[t].pc.id;
    assert ThreadOk(s, s.threads[t]);
    assert LiveFor(s, id, path);
    forall other: RepoId
      ensures LiveFor(after, other, path) <==> other == id
    {
      assert LiveFor(s, other, path) <==> other == id;
    }
    InsideStep(s, after, t);
  }

  lemma RemoveRepoKeepsHandles(s: State, t: ThreadId)
    requires Invariant(s) && Enabled(s, RemoveRepo(t))
    ensures HandlesOk(Step(s, RemoveRepo(t)))
  {
    hide LocksOk;
    var after, path, gone := Step(s, RemoveRepo(t)), s.threads[t].path, s.threads[t].closing.value;
    assert ThreadOk(s, s.threads[t]);
    assert PathOk(s, path);
    forall id: RepoId | LiveFor(s, id, path)
      ensures path in s.byPath && s.byPath[path] == id
    {
      AloneInside(s, t, id);
    }
    assert gone in s.repos ==> LiveFor(s, gone, path);
    assert forall id: RepoId :: LiveFor(after, id, path) ==> LiveFor(s, id, path);
    if path in s.byPath {
      AloneInside(s, t, s.byPath[path]);
      if gone in s.repos && s.byPath[path] == gone { assert At(after, t, Removed) && Retiring(after, gone); }
    }
    InsideStep(s, after, t);
  }

  lemma RemoveMappingKeepsHandles(s: State, t: ThreadId)
    requires Invariant(s) && Enabled(s, RemoveMapping(t))
    ensures HandlesOk(Step(s, RemoveMapping(t)))
  {
    hide LocksOk;
    var after, path, gone := Step(s, RemoveMapping(t)), s.threads[t].path, s.threads[t].closing.value;
    assert ThreadOk(s, s.threads[t]);
    assert PathOk(s, path);
    forall id: RepoId
      ensures !LiveFor(after, id, path)
    {
      if id < |s.paths| && s.paths[id] == path { AloneInside(s, t, id); }
      assert !LiveFor(s, id, path);
    }
    InsideStep(s, after, t);
  }

  lemma EnteringKeepsHandles(s: State, t: ThreadId, path: Path, closing: Option<RepoId>, after: State)
    requires HandlesOk(s) && t !in s.threads && after == Enter(s, t, path, closing).(returned := after.returned)
    requires closing.Some? ==> closing.value < |s.paths| && s.paths[closing.value] == path
    ensures HandlesOk(after)
  {
    hide HandlesOk, LiveFor;
    OutsideStep(s, after, t);
  }

  lemma StepKeepsHandles(s: State, event: Event)
    requires Invariant(s) && Enabled(s, event)
    ensures HandlesOk(Step(s, event))
  {
    hide LocksOk, HandlesOk, Referenced, LiveFor;
    var after := Step(s, event);
    match event
    case Prune(path) => SameHandles(s, after);
    case BeginOpen(t, path) => EnteringKeepsHandles(s, t, path, None, after);
    case BeginClose(t, id) =>
      if id in s.repos && id < |s.paths| { EnteringKeepsHandles(s, t, s.paths[id], Some(id), after); }
    case LockMutex(t) => WaiterIsOk(s, t); OutsideStep(s, after, t);
    case Abandon(t) => if s.threads[t].pc.Waiting? { OutsideStep(s, after, t); } else { GivingUpKeepsHandles(s, t); }
    case CheckMapping(t) => CheckKeepsHandles(s, t);
    case RemoveStale(t) => NobodyIsStale(s, t);
    case InsertRepo(t) => InsertRepoKeepsHandles(s, t);
    case InsertMapping(t) => InsertMappingKeepsHandles(s, t);
    case RemoveRepo(t) => RemoveRepoKeepsHandles(s, t);
    case RemoveMapping(t) => RemoveMappingKeepsHandles(s, t);
  }

  lemma WaiterIsOk(s: State, t: ThreadId)
    requires HandlesOk(s) && At(s, t, Waiting)
    ensures ThreadOk(s, s.threads[t])
  {
  }

  lemma NobodyIsStale(s: State, t: ThreadId)
    requires HandlesOk(s) && t in s.threads
    ensures s.threads[t].pc != Stale
  {
    assert ThreadOk(s, s.threads[t]);
  }

  lemma SameHandles(s: State, after: State)
    requires HandlesOk(s) && after == s.(locks := after.locks)
    ensures HandlesOk(after)
  {
    forall t | t in after.threads
      ensures ThreadOk(after, after.threads[t])
    {
      SameThread(s, after, s.threads[t]);
    }
    forall p
      ensures PathOk(after, p)
    {
      assert PathOk(s, p);
      assert forall id: RepoId :: Publishing(s, id) ==> Publishing(after, id) by { SameRoles(s, after); }
      assert forall id: RepoId :: Retiring(s, id) ==> Retiring(after, id) by { SameRoles(s, after); }
      assert forall id: RepoId :: LiveFor(after, id, p) <==> LiveFor(s, id, p);
    }
  }

  lemma SameRoles(s: State, after: State)
    requires after == s.(locks := after.locks)
    ensures forall id: RepoId :: Publishing(s, id) ==> Publishing(after, id)
    ensures forall id: RepoId :: Retiring(s, id) ==> Retiring(after, id)
  {
    assert forall t, pc :: At(s, t, pc) <==> At(after, t, pc);
  }

  // ---------------------------------------------------------------- every interleaving

  predicate Possible(s: State, events: seq<Event>)
    decreases |events|
  {
    events == [] || (Enabled(s, events[0]) && Possible(Step(s, events[0]), events[1..]))
  }

  function Run(s: State, events: seq<Event>): State
    requires Possible(s, events)
    decreases |events|
  {
    if events == [] then s else Run(Step(s, events[0]), events[1..])
  }

  lemma {:induction false} EveryInterleavingIsSafe(s: State, events: seq<Event>)
    requires Invariant(s) && Possible(s, events)
    ensures Invariant(Run(s, events))
    decreases |events|
  {
    hide LocksOk, HandlesOk;
    if events != [] {
      StepKeepsLocks(s, events[0]);
      StepKeepsHandles(s, events[0]);
      EveryInterleavingIsSafe(Step(s, events[0]), events[1..]);
    }
  }

  /** In every interleaving of opening and closing, with cancellations: whoever asks for the lock of a
      path shares one lock with all others who hold a reference to it, one of them at most is inside,
      and a path never has two live handles. */
  lemma OneHandlePerPath(events: seq<Event>, a: RepoId, b: RepoId, path: Path)
    requires Possible(Initial, events)
    ensures var s := Run(Initial, events);
      LiveFor(s, a, path) && LiveFor(s, b, path) ==> a == b
    ensures var s := Run(Initial, events);
      forall t, u | t in s.threads && u in s.threads && s.threads[t].path == s.threads[u].path ::
        s.threads[t].lock == s.threads[u].lock && (!s.threads[t].pc.Waiting? && !s.threads[u].pc.Waiting? ==> t == u)
  {
    var s := Run(Initial, events);
    NothingOpenIsSafe();
    EveryInterleavingIsSafe(Initial, events);
    if LiveFor(s, a, path) && LiveFor(s, b, path) { LiveHandlesAgree(s, a, b, path); }
    forall t, u | t in s.threads && u in s.threads && s.threads[t].path == s.threads[u].path
      ensures s.threads[t].lock == s.threads[u].lock
      ensures !s.threads[t].pc.Waiting? && !s.threads[u].pc.Waiting? ==> t == u
    {
      OneLockPerPath(s, t, u);
    }
  }

  lemma NothingOpenIsSafe()
    ensures Invariant(Initial)
  {
  }

  lemma PublishedAlone(s: State, id: RepoId, path: Path)
    requires HandlesOk(s) && LiveFor(s, id, path) && Publishing(s, id)
    ensures path !in s.byPath && forall other: RepoId :: LiveFor(s, other, path) <==> other == id
    ensures exists t :: t in s.threads && s.threads[t].path == path && s.threads[t].pc == Inserted(id)
  {
    var t :| At(s, t, Inserted(id));
    assert ThreadOk(s, s.threads[t]);
    assert LiveFor(s, id, s.threads[t].path);
  }

  lemma RetiredInside(s: State, id: RepoId)
    requires HandlesOk(s) && Retiring(s, id)
    ensures exists t ::
      t in s.threads && s.threads[t].pc == Removed && id < |s.paths| && s.threads[t].path == s.paths[id]
  {
    var t :| At(s, t, Removed) && s.threads[t].closing == Some(id);
    assert ThreadOk(s, s.threads[t]);
  }

  lemma LiveHandlesAgree(s: State, a: RepoId, b: RepoId, path: Path)
    requires Invariant(s) && LiveFor(s, a, path) && LiveFor(s, b, path)
    ensures a == b
  {
    hide LocksOk;
    assert PathOk(s, path);
    if Publishing(s, a) { PublishedAlone(s, a, path); }
    if Publishing(s, b) { PublishedAlone(s, b, path); }
  }

  /** Somebody inside is in the middle of opening or closing. */
  ghost predicate Busy(s: State, path: Path) {
    exists t | t in s.threads :: s.threads[t].path == path && (s.threads[t].pc.Inserted? || s.threads[t].pc.Removed?)
  }

  /** When nobody is in the middle of changing a path, the path maps to its live handle and to nothing
      else: no handle is orphaned and no mapping is stale. */
  lemma QuietPathsAreExact(s: State, path: Path)
    requires Invariant(s) && !Busy(s, path)
    ensures forall id: RepoId :: LiveFor(s, id, path) <==> path in s.byPath && s.byPath[path] == id
  {
    hide LocksOk;
    assert PathOk(s, path);
    forall id: RepoId | LiveFor(s, id, path)
      ensures !Publishing(s, id)
    {
      if Publishing(s, id) { PublishedAlone(s, id, path); }
    }
    if path in s.byPath && Retiring(s, s.byPath[path]) { RetiredInside(s, s.byPath[path]); }
  }

  // ---------------------------------------------------------------- what opening and closing achieve

  /** A call of thread `t` that runs to its end with this event. */
  predicate Ends(s: State, event: Event, t: ThreadId) {
    && Enabled(s, event) && event != Abandon(t)
    && t in s.threads && t !in Step(s, event).threads
  }

  /** A handle that was given out is closed: it is not open, and no path leads to it. */
  predicate Gone(s: State, id: RepoId) {
    id < |s.paths| && id !in s.repos && forall p | p in s.byPath :: s.byPath[p] != id
  }

  /** When a close runs to its end, its handle is gone. */
  lemma CloseEnds(s: State, event: Event, t: ThreadId)
    requires Invariant(s) && Ends(s, event, t) && s.threads[t].closing.Some?
    ensures Gone(Step(s, event), s.threads[t].closing.value)
  {
    hide LocksOk;
    var after, id, path := Step(s, event), s.threads[t].closing.value, s.threads[t].path;
    assert ThreadOk(s, s.threads[t]);
    AloneInside(s, t, id);
    forall p | p in after.byPath
      ensures after.byPath[p] != id
    {
      assert PathOk(s, p);
    }
  }

  /** The second removal of a close always finds the mapping of its handle. */
  lemma ClosingFindsItsMapping(s: State, t: ThreadId)
    requires Invariant(s) && Enabled(s, RemoveMapping(t))
    ensures var path := s.threads[t].path; path in s.byPath && s.byPath[path] == s.threads[t].closing.value
  {
    assert ThreadOk(s, s.threads[t]);
  }

  /** Once gone, a handle never comes back. */
  lemma {:induction false} GoneForGood(s: State, events: seq<Event>, id: RepoId)
    requires Invariant(s) && Gone(s, id) && Possible(s, events)
    ensures Gone(Run(s, events), id)
    decreases |events|
  {
    hide Invariant, Gone;
    if events != [] {
      GoneStays(s, events[0], id);
      StepKeepsInvariant(s, events[0]);
      GoneForGood(Step(s, events[0]), events[1..], id);
    }
  }

  lemma StepKeepsInvariant(s: State, event: Event)
    requires Invariant(s) && Enabled(s, event)
    ensures Invariant(Step(s, event))
  {
    hide LocksOk, HandlesOk;
    StepKeepsLocks(s, event);
    StepKeepsHandles(s, event);
  }

  lemma GoneStays(s: State, event: Event, id: RepoId)
    requires Invariant(s) && Gone(s, id) && Enabled(s, event)
    ensures Gone(Step(s, event), id)
  {
    hide LocksOk, PathOk;
    if event.InsertMapping? {
      var t := event.thread;
      assert ThreadOk(s, s.threads[t]);
      assert LiveFor(s, s.threads[t].pc.id, s.threads[t].path);
    }
  }

  /** In every schedule, from the end of a close on, its handle is not open and no path maps to it. */
  lemma ClosedStaysClosed(before: seq<Event>, event: Event, t: ThreadId, later: seq<Event>)
    requires Possible(Initial, before)
    requires var s := Run(Initial, before);
      Ends(s, event, t) && s.threads[t].closing.Some? && Possible(Step(s, event), later)
    ensures var s := Run(Initial, before);
      Gone(Run(Step(s, event), later), s.threads[t].closing.value)
  {
    hide Invariant, Gone, Step;
    var s := Run(Initial, before);
    NothingOpenIsSafe();
    EveryInterleavingIsSafe(Initial, before);
    CloseEnds(s, event, t);
    StepKeepsInvariant(s, event);
    GoneForGood(Step(s, event), later, s.threads[t].closing.value);
  }

  /** A close that finds its handle not open returns at once. The handle stays closed, but a path still
      maps to it exactly when another close of it is between its two removals. */
  lemma SecondCloseReturnsEarly(s: State, t: ThreadId, id: RepoId)
    requires Invariant(s) && Enabled(s, BeginClose(t, id)) && id !in s.repos
    ensures Step(s, BeginClose(t, id)) == s
    ensures (exists p | p in s.byPath :: s.byPath[p] == id) <==> Retiring(s, id)
  {
    hide LocksOk;
    if p :| p in s.byPath && s.byPath[p] == id {
      assert PathOk(s, p);
    }
    if Retiring(s, id) {
      var u :| At(s, u, Removed) && s.threads[u].closing == Some(id);
      assert ThreadOk(s, s.threads[u]);
    }
  }

  /** When an open runs to its end, it returns the handle its path maps to, and that handle is open. A live
      handle found under the lock is that handle, and then nothing is opened or remapped. */
  lemma OpenEnds(s: State, event: Event, t: ThreadId)
    requires Invariant(s) && Ends(s, event, t) && s.threads[t].closing.None?
    ensures var after, path := Step(s, event), s.threads[t].path;
      && t in after.returned && path in after.byPath && after.byPath[path] == after.returned[t]
      && LiveFor(after, after.returned[t], path)
      && (s.threads[t].pc.Inside? ==> after.repos == s.repos && after.byPath == s.byPath)
  {
    hide LocksOk;
    var path := s.threads[t].path;
    assert ThreadOk(s, s.threads[t]) && PathOk(s, path);
    if s.threads[t].pc.Inserted? {
      assert LiveFor(s, s.threads[t].pc.id, path);
    }
  }

  /** A new handle is made only for a path without a live one. */
  lemma OpensOnlyWhenNoneIsLive(s: State, event: Event, id: RepoId)
    requires Invariant(s) && Enabled(s, event) && id !in s.repos && id in Step(s, event).repos
    ensures var after := Step(s, event);
      && id == |s.paths| && event.InsertRepo? && after.paths == s.paths + [s.threads[event.thread].path]
      && forall other: RepoId :: !LiveFor(s, other, after.paths[id])
  {
    hide LocksOk, PathOk;
    assert event.InsertRepo?;
    assert ThreadOk(s, s.threads[event.thread]);
  }

  /** The thread that acts. */
  function Actor(event: Event): Option<ThreadId> {
    if event.Prune? then None else Some(event.thread)
  }

  /** Every step leaves the handles and mappings of all paths but its thread's own as they were; a step of
      a close also leaves all other handles of its own path. */
  lemma StepTouchesOwnPath(s: State, event: Event, path: Path)
    requires Invariant(s) && Enabled(s, event)
    requires event.Prune? || event.thread !in s.threads || s.threads[event.thread].path != path
    ensures var after := Step(s, event);
      && (path in after.byPath <==> path in s.byPath) && (path in s.byPath ==> after.byPath[path] == s.byPath[path])
      && forall id: RepoId :: LiveFor(after, id, path) <==> LiveFor(s, id, path)
  {
    hide LocksOk, PathOk;
    if !event.Prune? && event.thread in s.threads {
      assert ThreadOk(s, s.threads[event.thread]);
    }
  }

  lemma CloseTouchesOwnHandle(s: State, event: Event, t: ThreadId, id: RepoId, path: Path)
    requires Invariant(s) && Enabled(s, event) && Actor(event) == Some(t)
    requires t in s.threads && s.threads[t].closing.Some? && id != s.threads[t].closing.value
    ensures var after := Step(s, event);
      && (id in after.repos <==> id in s.repos)
      && (path in s.byPath && s.byPath[path] == id <==> path in after.byPath && after.byPath[path] == id)
  {
    hide LocksOk, PathOk;
    assert ThreadOk(s, s.threads[t]);
  }
}
