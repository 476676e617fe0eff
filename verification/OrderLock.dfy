/**
  The per-order lock of controller/topup.go: `LockOrder` and `UnlockOrder` over `orderLocks`, `createLock`
  and reference-counted mutex objects that are created on demand, deleted and created again.

  Every statement that touches shared state is one step of the calling thread. A run is any interleaving
  of any number of threads working on any number of orders.
*/
module OrderLock {

  type Order = string

  /** `refCountedMutex`: the mutex bit and the count of users. */
  datatype Mutex = Mutex(locked: bool, refCount: int)

  /** The statement a thread executes next. */
  datatype Stage =
    | Idle
    // LockOrder
    | EnterLock | Lookup | Store | Retain | LeaveLock | Wait
    // between LockOrder and UnlockOrder
    | Holding
    // UnlockOrder
    | Find | Unlock | EnterDrop | Drop | Test | LeaveDrop
    // the Load in UnlockOrder found nothing, so the lock is never released
    | Missed
    // unlock of an unlocked mutex, which Go makes a fatal error
    | Fatal

  /** A thread: its stage, the order it works on, and its variable `rcm`. In `Holding` and `Find` the field
      `obj` only records which object was locked: `UnlockOrder` does not receive it and loads it again. */
  datatype Pc = Pc(stage: Stage, order: Order, obj: nat)

  const IDLE := Pc(Idle, "", 0)

  datatype Owner = Free | Held(thread: nat)

  /** `next` is the first object name never used: a dropped object is not reused while referenced. */
  datatype State = State(
    locks: map<Order, nat>,
    heap: map<nat, Mutex>,
    next: nat,
    create: Owner,
    pc: map<nat, Pc>)

  /** Thread `th` calls LockOrder, calls UnlockOrder, or executes its next statement. */
  datatype Action = CallLock(th: nat, order: Order) | CallUnlock(th: nat) | Advance(th: nat)

  const INIT := State(map[], map[], 0, Free, map[])

  function PcOf(s: State, th: nat): Pc {
    if th in s.pc then s.pc[th] else IDLE
  }

  function Move(s: State, th: nat, p: Pc): State {
    s.(pc := s.pc[th := p])
  }

  function SetMutex(s: State, obj: nat, m: Mutex): State {
    s.(heap := s.heap[obj := m])
  }

  function MutexOf(s: State, obj: nat): Mutex {
    if obj in s.heap then s.heap[obj] else Mutex(false, 0)
  }

  /** One statement of LockOrder. A blocked `Lock()` leaves the state unchanged. */
  function LockStep(s: State, th: nat, p: Pc): State {
    match p.stage
    case EnterLock => if s.create.Free? then Move(s.(create := Held(th)), th, p.(stage := Lookup)) else s
    case Lookup =>
      if p.order in s.locks then Move(s, th, Pc(Retain, p.order, s.locks[p.order]))
      else Move(SetMutex(s, s.next, Mutex(false, 0)).(next := s.next + 1), th, Pc(Store, p.order, s.next))
    case Store => Move(s.(locks := s.locks[p.order := p.obj]), th, p.(stage := Retain))
    case Retain =>
      var m := MutexOf(s, p.obj);
      Move(SetMutex(s, p.obj, m.(refCount := m.refCount + 1)), th, p.(stage := LeaveLock))
    case LeaveLock => Move(s.(create := Free), th, p.(stage := Wait))
    case Wait =>
      var m := MutexOf(s, p.obj);
      if m.locked then s else Move(SetMutex(s, p.obj, m.(locked := true)), th, p.(stage := Holding))
    case _ => s
  }

  /** One statement of UnlockOrder. */
  function UnlockStep(s: State, th: nat, p: Pc): State {
    match p.stage
    case Find =>
      if p.order in s.locks then Move(s, th, Pc(Unlock, p.order, s.locks[p.order]))
      else Move(s, th, p.(stage := Missed))
    case Unlock =>
      var m := MutexOf(s, p.obj);
      if m.locked then Move(SetMutex(s, p.obj, m.(locked := false)), th, p.(stage := EnterDrop))
      else Move(s, th, p.(stage := Fatal))
    case EnterDrop => if s.create.Free? then Move(s.(create := Held(th)), th, p.(stage := Drop)) else s
    case Drop =>
      var m := MutexOf(s, p.obj);
      Move(SetMutex(s, p.obj, m.(refCount := m.refCount - 1)), th, p.(stage := Test))
    case Test =>
      Move(if MutexOf(s, p.obj).refCount == 0 then s.(locks := s.locks - {p.order}) else s, th, p.(stage := LeaveDrop))
    case LeaveDrop => Move(s.(create := Free), th, IDLE)
    case _ => s
  }

  predicate Locking(p: Pc) {
    p.stage.EnterLock? || p.stage.Lookup? || p.stage.Store? || p.stage.Retain? || p.stage.LeaveLock? || p.stage.Wait?
  }

  function Do(s: State, a: Action): State {
    match a
    case CallLock(th, order) => if PcOf(s, th).stage.Idle? then Move(s, th, Pc(EnterLock, order, 0)) else s
    case CallUnlock(th) => if PcOf(s, th).stage.Holding? then Move(s, th, PcOf(s, th).(stage := Find)) else s
    case Advance(th) =>
      var p := PcOf(s, th);
      if Locking(p) then LockStep(s, th, p) else UnlockStep(s, th, p)
  }

  function Run(s: State, actions: seq<Action>): State
    decreases |actions|
  {
    if actions == [] then s else Do(Run(s, actions[..|actions| - 1]), actions[|actions| - 1])
  }

  // ----- what the steps keep -----

  predicate InCreate(p: Pc) {
    p.stage.Lookup? || p.stage.Store? || p.stage.Retain? || p.stage.LeaveLock? || p.stage.Drop? || p.stage.Test? ||
      p.stage.LeaveDrop?
  }

  /** Counted by `refCount`: after the increment, before the decrement. */
  predicate Counted(p: Pc) {
    p.stage.LeaveLock? || p.stage.Wait? || p.stage.Holding? || p.stage.Find? || p.stage.Unlock? || p.stage.EnterDrop? ||
      p.stage.Drop?
  }

  /** Owns the mutex of its object. */
  predicate Critical(p: Pc) {
    p.stage.Holding? || p.stage.Find? || p.stage.Unlock?
  }

  /** Relies on the map entry of its order. */
  predicate Linked(p: Pc) {
    Counted(p) || p.stage.Retain? || p.stage.Test?
  }

  predicate Uses(p: Pc, obj: nat) {
    Counted(p) && p.obj == obj
  }

  predicate Owns(p: Pc, obj: nat) {
    Critical(p) && p.obj == obj
  }

  function Users(pc: map<nat, Pc>, obj: nat): set<nat> {
    set th | th in pc && Uses(pc[th], obj)
  }

  function Owners(pc: map<nat, Pc>, obj: nat): set<nat> {
    set th | th in pc && Owns(pc[th], obj)
  }

  /** Threads anywhere inside LockOrder or UnlockOrder, or between them, for this order. */
  predicate Involved(s: State, th: nat, order: Order) {
    !PcOf(s, th).stage.Idle? && PcOf(s, th).order == order
  }

  ghost predicate CreateOwned(s: State) {
    forall th | th in s.pc :: InCreate(s.pc[th]) <==> s.create == Held(th)
  }

  ghost predicate CreateKnown(s: State) {
    s.create.Held? ==> s.create.thread in s.pc
  }

  ghost predicate ThreadsLinked(s: State) {
    forall th | th in s.pc ::
      var p := s.pc[th];
      && (Linked(p) ==> p.order in s.locks && s.locks[p.order] == p.obj)
      && (p.stage.Store? ==> p.order !in s.locks && p.obj in s.heap && p.obj !in s.locks.Values)
      && !p.stage.Missed? && !p.stage.Fatal?
  }

  ghost predicate TableSane(s: State) {
    && (forall o | o in s.heap :: o < s.next)
    && (forall t | t in s.locks :: s.locks[t] in s.heap)
    && (forall t, u | t in s.locks && u in s.locks && s.locks[t] == s.locks[u] :: t == u)
  }

  ghost predicate CountsExact(s: State) {
    forall o | o in s.heap :: s.heap[o].refCount == |Users(s.pc, o)|
  }

  ghost predicate MutexExact(s: State) {
    && (forall o | o in s.heap :: s.heap[o].locked <==> Owners(s.pc, o) != {})
    && (forall a, b | a in s.pc && b in s.pc && Critical(s.pc[a]) && Critical(s.pc[b]) && s.pc[a].obj == s.pc[b].obj ::
      a == b)
  }

  /** The entry of `t` is in use, or its creator or dropper is still inside `createLock`. */
  ghost predicate EntryInUse(s: State, t: Order)
    requires t in s.locks
  {
    || Users(s.pc, s.locks[t]) != {}
    || (s.create.Held? &&
        var p := PcOf(s, s.create.thread);
        (p.stage.Retain? || p.stage.Test?) && p.order == t)
  }

  ghost predicate NoLeak(s: State) {
    forall t | t in s.locks :: EntryInUse(s, t)
  }

  ghost predicate Structure(s: State) {
    CreateOwned(s) && CreateKnown(s) && ThreadsLinked(s) && TableSane(s)
  }

  ghost predicate Inv(s: State) {
    Structure(s) && CountsExact(s) && MutexExact(s) && NoLeak(s)
  }

  function One(b: bool): int {
    if b then 1 else 0
  }

  /** Only the moving thread's own membership can change. */
  lemma MovedUsers(pc: map<nat, Pc>, th: nat, p: Pc, o: nat)
    ensures var was := th in pc && Uses(pc[th], o);
      && Users(pc[th := p], o) == (if Uses(p, o) then Users(pc, o) + {th} else Users(pc, o) - {th})
      && |Users(pc[th := p], o)| == |Users(pc, o)| + One(Uses(p, o)) - One(was)
  {
    assert Users(pc[th := p], o) == (if Uses(p, o) then Users(pc, o) + {th} else Users(pc, o) - {th});
  }

  lemma MovedOwners(pc: map<nat, Pc>, th: nat, p: Pc, o: nat)
    ensures Owners(pc[th := p], o) == (if Owns(p, o) then Owners(pc, o) + {th} else Owners(pc, o) - {th})
  {
  }

  /** The counts stay exact when each count moves with the thread. */
  lemma CountsKept(s: State, s': State, th: nat, p: Pc)
    requires CountsExact(s) && s'.pc == s.pc[th := p]
    requires forall o | o in s'.heap ::
      && (o !in s.heap ==> Users(s.pc, o) == {})
      && s'.heap[o].refCount == MutexOf(s, o).refCount + One(Uses(p, o)) - One(Uses(PcOf(s, th), o))
    ensures CountsExact(s')
  {
    forall o | o in s'.heap ensures s'.heap[o].refCount == |Users(s'.pc, o)| {
      MovedUsers(s.pc, th, p, o);
    }
  }

  /** The mutex bits stay exact when a thread takes only a free mutex and frees only its own. */
  lemma MutexKept(s: State, s': State, th: nat, p: Pc)
    requires MutexExact(s) && s'.pc == s.pc[th := p]
    requires forall o | o in s'.heap ::
      var before, after := Owns(PcOf(s, th), o), Owns(p, o);
      && (o !in s.heap ==> Owners(s.pc, o) == {})
      && (after && !before ==> !MutexOf(s, o).locked)
      && s'.heap[o].locked == if after == before then MutexOf(s, o).locked else after
    requires Critical(p) ==> p.obj in s'.heap
    ensures MutexExact(s')
  {
    forall o | o in s'.heap ensures s'.heap[o].locked <==> Owners(s'.pc, o) != {} {
      MovedOwners(s.pc, th, p, o);
      if Owns(PcOf(s, th), o) {
        assert th in Owners(s.pc, o);
        assert Owners(s.pc, o) == {th};
      }
    }
    if Critical(p) {
      var o := p.obj;
      assert forall c | c in s.pc && Owns(s.pc[c], o) :: c in Owners(s.pc, o);
      if Owns(PcOf(s, th), o) {
        assert th in Owners(s.pc, o);
      } else if o in s.heap {
        assert Owners(s.pc, o) == {};
      }
    }
  }

  /** The unlocker's mutex is locked, and a count of zero means no other thread relies on the entry. */
  ghost predicate Ready(s: State, th: nat, p: Pc) {
    && (Critical(p) ==> MutexOf(s, p.obj).locked)
    && (p.stage.Test? && MutexOf(s, p.obj).refCount == 0 ==>
          forall c | c in s.pc && c != th && Linked(s.pc[c]) :: s.pc[c].order != p.order)
  }

  lemma ReadyAtStep(s: State, th: nat)
    requires Inv(s) && th in s.pc
    ensures Ready(s, th, s.pc[th])
  {
    var p := s.pc[th];
    assert Critical(p) ==> th in Owners(s.pc, p.obj);
    assert forall c | c in s.pc && Uses(s.pc[c], p.obj) :: c in Users(s.pc, p.obj);
  }

  /** `createLock` stays with the thread inside its section when a thread takes it only free and frees only its own. */
  lemma CreateMoved(s: State, s': State, th: nat, p: Pc)
    requires CreateOwned(s) && CreateKnown(s) && th in s.pc && s'.pc == s.pc[th := p]
    requires s'.create == if InCreate(p) then Held(th) else if InCreate(s.pc[th]) then Free else s.create
    requires InCreate(p) && !InCreate(s.pc[th]) ==> s.create.Free?
    ensures CreateOwned(s') && CreateKnown(s')
  {
  }

  lemma LockCreate(s: State, th: nat)
    requires CreateOwned(s) && CreateKnown(s) && th in s.pc
    ensures var s' := LockStep(s, th, s.pc[th]); CreateOwned(s') && CreateKnown(s')
  {
    var s' := LockStep(s, th, s.pc[th]);
    if s' != s {
      CreateMoved(s, s', th, s'.pc[th]);
    }
  }

  lemma UnlockCreate(s: State, th: nat)
    requires CreateOwned(s) && CreateKnown(s) && th in s.pc
    ensures var s' := UnlockStep(s, th, s.pc[th]); CreateOwned(s') && CreateKnown(s')
  {
    var s' := UnlockStep(s, th, s.pc[th]);
    if s' != s {
      CreateMoved(s, s', th, s'.pc[th]);
    }
  }

  /** `createLock` is held exactly by the thread inside its section. */
  lemma CreateLockKept(s: State, th: nat)
    requires CreateOwned(s) && CreateKnown(s) && th in s.pc
    ensures var s' := Do(s, Advance(th)); CreateOwned(s') && CreateKnown(s')
  {
    LockCreate(s, th);
    UnlockCreate(s, th);
  }

  lemma StoreLinks(s: State, th: nat)
    requires Structure(s) && th in s.pc && s.pc[th].stage.Store?
    ensures ThreadsLinked(LockStep(s, th, s.pc[th]))
  {
  }

  lemma OtherLinks(s: State, th: nat)
    requires Structure(s) && th in s.pc && !s.pc[th].stage.Store?
    ensures ThreadsLinked(LockStep(s, th, s.pc[th]))
  {
  }

  lemma LockTable(s: State, th: nat)
    requires Structure(s) && th in s.pc
    ensures var s' := LockStep(s, th, s.pc[th]); ThreadsLinked(s') && TableSane(s')
  {
    if s.pc[th].stage.Store? {
      StoreLinks(s, th);
    } else {
      OtherLinks(s, th);
    }
  }

  lemma UnlockTable(s: State, th: nat)
    requires Structure(s) && th in s.pc && Ready(s, th, s.pc[th])
    ensures var s' := UnlockStep(s, th, s.pc[th]); ThreadsLinked(s') && TableSane(s')
  {
  }

  /** Steps that leave the mutex objects alone: the users of an object do not change. */
  predicate Quiet(p: Pc) {
    p.stage.EnterLock? || p.stage.Store? || p.stage.LeaveLock?
  }

  lemma QuietCounts(s: State, th: nat)
    requires CountsExact(s) && th in s.pc && Quiet(s.pc[th])
    ensures CountsExact(LockStep(s, th, s.pc[th]))
  {
    var s' := LockStep(s, th, s.pc[th]);
    if s' != s {
      CountsKept(s, s', th, s'.pc[th]);
    }
  }

  lemma LookupCounts(s: State, th: nat)
    requires Structure(s) && CountsExact(s) && th in s.pc && s.pc[th].stage.Lookup?
    ensures CountsExact(LockStep(s, th, s.pc[th]))
  {
    var s' := LockStep(s, th, s.pc[th]);
    assert Users(s.pc, s.next) == {};
    CountsKept(s, s', th, s'.pc[th]);
  }

  lemma ObjectCounts(s: State, th: nat)
    requires Structure(s) && CountsExact(s) && th in s.pc && (s.pc[th].stage.Retain? || s.pc[th].stage.Wait?)
    ensures CountsExact(LockStep(s, th, s.pc[th]))
  {
    var s' := LockStep(s, th, s.pc[th]);
    assert s.pc[th].obj in s.heap;
    if s' != s {
      CountsKept(s, s', th, s'.pc[th]);
    }
  }

  lemma LockCounts(s: State, th: nat)
    requires Structure(s) && CountsExact(s) && th in s.pc
    ensures CountsExact(LockStep(s, th, s.pc[th]))
  {
    match s.pc[th].stage
    case Lookup => LookupCounts(s, th);
    case Retain | Wait => ObjectCounts(s, th);
    case EnterLock | Store | LeaveLock => QuietCounts(s, th);
    case _ =>
  }

  lemma LookupMutex(s: State, th: nat)
    requires Structure(s) && MutexExact(s) && th in s.pc && s.pc[th].stage.Lookup?
    ensures MutexExact(LockStep(s, th, s.pc[th]))
  {
    var s' := LockStep(s, th, s.pc[th]);
    assert Owners(s.pc, s.next) == {};
    MutexKept(s, s', th, s'.pc[th]);
  }

  lemma OtherMutex(s: State, th: nat)
    requires Structure(s) && MutexExact(s) && th in s.pc && !s.pc[th].stage.Lookup?
    ensures MutexExact(LockStep(s, th, s.pc[th]))
  {
    var s' := LockStep(s, th, s.pc[th]);
    if s' != s {
      MutexKept(s, s', th, s'.pc[th]);
    }
  }

  lemma LockMutex(s: State, th: nat)
    requires Structure(s) && MutexExact(s) && th in s.pc
    ensures MutexExact(LockStep(s, th, s.pc[th]))
  {
    if s.pc[th].stage.Lookup? {
      LookupMutex(s, th);
    } else {
      OtherMutex(s, th);
    }
  }

  lemma ReleaseCounts(s: State, th: nat)
    requires Structure(s) && CountsExact(s) && th in s.pc && Ready(s, th, s.pc[th])
    requires s.pc[th].stage.Unlock? || s.pc[th].stage.Drop?
    ensures CountsExact(UnlockStep(s, th, s.pc[th]))
  {
    var s' := UnlockStep(s, th, s.pc[th]);
    assert s.pc[th].obj in s.heap;
    CountsKept(s, s', th, s'.pc[th]);
  }

  lemma FindCounts(s: State, th: nat)
    requires Structure(s) && CountsExact(s) && th in s.pc && s.pc[th].stage.Find?
    ensures CountsExact(UnlockStep(s, th, s.pc[th]))
  {
    var s' := UnlockStep(s, th, s.pc[th]);
    CountsKept(s, s', th, s'.pc[th]);
  }

  lemma DroppingCounts(s: State, th: nat)
    requires CountsExact(s) && th in s.pc
    requires s.pc[th].stage.EnterDrop? || s.pc[th].stage.Test? || s.pc[th].stage.LeaveDrop?
    ensures CountsExact(UnlockStep(s, th, s.pc[th]))
  {
    var s' := UnlockStep(s, th, s.pc[th]);
    if s' != s {
      CountsKept(s, s', th, s'.pc[th]);
    }
  }

  lemma UnlockCounts(s: State, th: nat)
    requires Structure(s) && CountsExact(s) && th in s.pc && Ready(s, th, s.pc[th])
    ensures CountsExact(UnlockStep(s, th, s.pc[th]))
  {
    match s.pc[th].stage
    case Find => FindCounts(s, th);
    case Unlock | Drop => ReleaseCounts(s, th);
    case EnterDrop | Test | LeaveDrop => DroppingCounts(s, th);
    case _ =>
  }

  lemma UnlockMutex(s: State, th: nat)
    requires Structure(s) && MutexExact(s) && th in s.pc && Ready(s, th, s.pc[th])
    ensures MutexExact(UnlockStep(s, th, s.pc[th]))
  {
    var s' := UnlockStep(s, th, s.pc[th]);
    if s' != s {
      MutexKept(s, s', th, s'.pc[th]);
    }
  }

  /** An entry with a user keeps one when the moving thread does not leave it. */
  lemma UserStays(s: State, s': State, th: nat, p: Pc, t: Order)
    requires th in s.pc && s'.pc == s.pc[th := p] && t in s.locks && t in s'.locks && s'.locks[t] == s.locks[t]
    requires Users(s.pc, s.locks[t]) != {} && (Uses(s.pc[th], s.locks[t]) ==> Uses(p, s.locks[t]))
    ensures EntryInUse(s', t)
  {
    MovedUsers(s.pc, th, p, s.locks[t]);
  }

  /** An entry whose creator or dropper is at work stays so when another thread moves, which leaves `createLock`
      alone. */
  lemma CreatorStays(s: State, s': State, th: nat, p: Pc, t: Order)
    requires s'.pc == s.pc[th := p] && t in s.locks && t in s'.locks && s'.create == s.create && s.create != Held(th)
    requires EntryInUse(s, t) && s'.locks[t] == s.locks[t] && Users(s.pc, s.locks[t]) == {}
    ensures EntryInUse(s', t)
  {
  }

  lemma LockEntry(s: State, th: nat, t: Order)
    requires Structure(s) && EntryInUseIf(s, t) && th in s.pc
    requires LockStep(s, th, s.pc[th]) != s && t in LockStep(s, th, s.pc[th]).locks
    ensures EntryInUse(LockStep(s, th, s.pc[th]), t)
  {
    var s' := LockStep(s, th, s.pc[th]);
    var p := s'.pc[th];
    if t in s.locks && Users(s.pc, s.locks[t]) != {} {
      UserStays(s, s', th, p, t);
    } else if t in s.locks && s.create != Held(th) {
      CreatorStays(s, s', th, p, t);
    } else {
      assert p.stage.LeaveLock? || p.stage.Retain?;
      assert p.stage.LeaveLock? ==> th in Users(s'.pc, s'.locks[t]);
    }
  }

  ghost predicate EntryInUseIf(s: State, t: Order) {
    t in s.locks ==> EntryInUse(s, t)
  }

  lemma LockNoLeak(s: State, th: nat)
    requires Structure(s) && NoLeak(s) && th in s.pc
    ensures NoLeak(LockStep(s, th, s.pc[th]))
  {
    forall t | t in LockStep(s, th, s.pc[th]).locks && LockStep(s, th, s.pc[th]) != s
      ensures EntryInUse(LockStep(s, th, s.pc[th]), t)
    {
      LockEntry(s, th, t);
    }
  }

  /** A thread that drops its use goes on to test the entry. */
  lemma DropEntry(s: State, th: nat, t: Order)
    requires Structure(s) && th in s.pc && s.pc[th].stage.Drop? && t in s.locks && EntryInUse(s, t)
    ensures EntryInUse(UnlockStep(s, th, s.pc[th]), t)
  {
    var s' := UnlockStep(s, th, s.pc[th]);
    if s.pc[th].order != t {
      UserStays(s, s', th, s'.pc[th], t);
    }
  }

  /** It leaves an entry only with users. */
  lemma TestEntry(s: State, th: nat, t: Order)
    requires Structure(s) && CountsExact(s) && th in s.pc && s.pc[th].stage.Test? && t in s.locks && EntryInUse(s, t)
    requires t in UnlockStep(s, th, s.pc[th]).locks
    ensures EntryInUse(UnlockStep(s, th, s.pc[th]), t)
  {
    var s' := UnlockStep(s, th, s.pc[th]);
    UserStays(s, s', th, s'.pc[th], t);
  }

  /** The other statements leave the users of every entry and its creator alone. */
  lemma ReleaseEntry(s: State, th: nat, t: Order)
    requires Structure(s) && th in s.pc && Ready(s, th, s.pc[th]) && t in s.locks && EntryInUse(s, t)
    requires !s.pc[th].stage.Drop? && !s.pc[th].stage.Test? && UnlockStep(s, th, s.pc[th]) != s
    ensures EntryInUse(UnlockStep(s, th, s.pc[th]), t)
  {
    var s' := UnlockStep(s, th, s.pc[th]);
    if Users(s.pc, s.locks[t]) == {} {
      CreatorStays(s, s', th, s'.pc[th], t);
    } else {
      UserStays(s, s', th, s'.pc[th], t);
    }
  }

  lemma UnlockEntry(s: State, th: nat, t: Order)
    requires Structure(s) && CountsExact(s) && th in s.pc && Ready(s, th, s.pc[th]) && t in s.locks && EntryInUse(s, t)
    requires UnlockStep(s, th, s.pc[th]) != s && t in UnlockStep(s, th, s.pc[th]).locks
    ensures EntryInUse(UnlockStep(s, th, s.pc[th]), t)
  {
    match s.pc[th].stage
    case Drop => DropEntry(s, th, t);
    case Test => TestEntry(s, th, t);
    case _ => ReleaseEntry(s, th, t);
  }

  lemma UnlockNoLeak(s: State, th: nat)
    requires Structure(s) && NoLeak(s) && CountsExact(s) && th in s.pc && Ready(s, th, s.pc[th])
    ensures NoLeak(UnlockStep(s, th, s.pc[th]))
  {
    forall t | t in UnlockStep(s, th, s.pc[th]).locks && UnlockStep(s, th, s.pc[th]) != s
      ensures EntryInUse(UnlockStep(s, th, s.pc[th]), t)
    {
      UnlockEntry(s, th, t);
    }
  }

  ghost predicate IsCall(s: State, th: nat, p: Pc) {
    || (PcOf(s, th).stage.Idle? && p.stage.EnterLock?)
    || (PcOf(s, th).stage.Holding? && p == PcOf(s, th).(stage := Find))
  }

  lemma CallStructure(s: State, th: nat, p: Pc)
    requires Structure(s) && IsCall(s, th, p)
    ensures Structure(Move(s, th, p))
  {
  }

  lemma CallCounts(s: State, th: nat, p: Pc)
    requires CountsExact(s) && MutexExact(s) && TableSane(s) && ThreadsLinked(s) && IsCall(s, th, p)
    ensures CountsExact(Move(s, th, p)) && MutexExact(Move(s, th, p))
  {
    CountsKept(s, Move(s, th, p), th, p);
    MutexKept(s, Move(s, th, p), th, p);
  }

  lemma CallNoLeak(s: State, th: nat, p: Pc)
    requires NoLeak(s) && CreateOwned(s) && IsCall(s, th, p)
    ensures NoLeak(Move(s, th, p))
  {
    forall t | t in s.locks ensures EntryInUse(Move(s, th, p), t) {
      assert EntryInUse(s, t);
      if Users(s.pc, s.locks[t]) == {} {
        CreatorStays(s, Move(s, th, p), th, p, t);
      } else {
        MovedUsers(s.pc, th, p, s.locks[t]);
      }
    }
  }

  lemma CallKeepsInv(s: State, th: nat, p: Pc)
    requires Inv(s) && IsCall(s, th, p)
    ensures Inv(Move(s, th, p))
  {
    CallStructure(s, th, p);
    CallCounts(s, th, p);
    CallNoLeak(s, th, p);
  }

  lemma AdvanceKeepsInv(s: State, th: nat)
    requires Inv(s) && th in s.pc
    ensures Inv(Do(s, Advance(th)))
  {
    ReadyAtStep(s, th);
    CreateLockKept(s, th);
    if Locking(s.pc[th]) {
      LockTable(s, th);
      LockCounts(s, th);
      LockMutex(s, th);
      LockNoLeak(s, th);
    } else {
      UnlockTable(s, th);
      UnlockCounts(s, th);
      UnlockMutex(s, th);
      UnlockNoLeak(s, th);
    }
  }

  lemma DoKeepsInv(s: State, a: Action)
    requires Inv(s)
    ensures Inv(Do(s, a))
  {
    var p := PcOf(s, a.th);
    match a
    case CallLock(th, order) => if p.stage.Idle? { CallKeepsInv(s, th, Pc(EnterLock, order, 0)); }
    case CallUnlock(th) => if p.stage.Holding? { CallKeepsInv(s, th, p.(stage := Find)); }
    case Advance(th) => if th in s.pc { AdvanceKeepsInv(s, th); }
  }

  lemma {:induction false} RunKeepsInv(actions: seq<Action>)
    ensures Inv(Run(INIT, actions))
  {
    if actions == [] {
    } else {
      RunKeepsInv(actions[..|actions| - 1]);
      DoKeepsInv(Run(INIT, actions[..|actions| - 1]), actions[|actions| - 1]);
    }
  }

  // ----- what callers get, over every run -----

  /** The states some interleaving leads to. */
  ghost predicate Reachable(s: State) {
    exists actions :: s == Run(INIT, actions)
  }

  lemma ReachableInv(s: State)
    requires Reachable(s)
    ensures Inv(s)
  {
    var actions :| s == Run(INIT, actions);
    RunKeepsInv(actions);
  }

  lemma ReachableStep(s: State, a: Action)
    requires Reachable(s)
    ensures Reachable(Do(s, a))
  {
    var actions :| s == Run(INIT, actions);
    assert (actions + [a])[..|actions|] == actions;
    assert Do(s, a) == Run(INIT, actions + [a]);
  }

  /** At most one thread is between LockOrder and UnlockOrder for an order, and every thread that uses the
      order refers to the same object, which is the one in the map. */
  lemma MutualExclusion(s: State, a: nat, b: nat)
    requires Reachable(s)
    requires Linked(PcOf(s, a)) && Linked(PcOf(s, b)) && PcOf(s, a).order == PcOf(s, b).order
    ensures PcOf(s, a).order in s.locks && PcOf(s, a).obj == PcOf(s, b).obj == s.locks[PcOf(s, a).order]
    ensures PcOf(s, a).stage.Holding? && PcOf(s, b).stage.Holding? ==> a == b
  {
    ReachableInv(s);
  }

  /** `refCount` is the number of threads that wait for, hold or still release the object. */
  lemma RefCountIsUserCount(s: State, obj: nat)
    requires Reachable(s) && obj in s.heap
    ensures s.heap[obj].refCount == |Users(s.pc, obj)|
  {
    ReachableInv(s);
  }

  lemma UnlockFindsItsMutex(s: State, th: nat)
    requires ThreadsLinked(s) && th in s.pc && Ready(s, th, s.pc[th])
    ensures s.pc[th].stage.Find? ==> UnlockStep(s, th, s.pc[th]).pc[th] == s.pc[th].(stage := Unlock)
    ensures s.pc[th].stage.Unlock? ==> UnlockStep(s, th, s.pc[th]).pc[th] == s.pc[th].(stage := EnterDrop)
  {
  }

  /** The Load in UnlockOrder always finds the object its caller locked, and no unlocked mutex is unlocked. */
  lemma UnlockNeverMisses(s: State, th: nat)
    requires Reachable(s) && th in s.pc
    ensures !s.pc[th].stage.Missed? && !s.pc[th].stage.Fatal?
    ensures s.pc[th].stage.Find? ==> UnlockStep(s, th, s.pc[th]).pc[th] == s.pc[th].(stage := Unlock)
    ensures s.pc[th].stage.Unlock? ==> UnlockStep(s, th, s.pc[th]).pc[th] == s.pc[th].(stage := EnterDrop)
  {
    ReachableInv(s);
    ReadyAtStep(s, th);
    UnlockFindsItsMutex(s, th);
  }

  /** When no thread is inside or between the two calls for an order, its entry is gone. */
  lemma UnusedOrderHasNoEntry(s: State, order: Order)
    requires Reachable(s) && forall th :: !Involved(s, th, order)
    ensures order !in s.locks
  {
    ReachableInv(s);
    if order in s.locks && Users(s.pc, s.locks[order]) != {} {
      var th :| th in Users(s.pc, s.locks[order]);
      assert Involved(s, th, order);
    } else if order in s.locks {
      assert Involved(s, s.create.thread, order);
    }
  }

  // ----- the course of a call -----

  /** Inside UnlockOrder. */
  predicate Unlocking(p: Pc) {
    p.stage.Find? || p.stage.Unlock? || p.stage.EnterDrop? || p.stage.Drop? || p.stage.Test? || p.stage.LeaveDrop?
  }

  /** How many statements of its call a thread has left. */
  function StatementsLeft(p: Pc): nat {
    match p.stage
    case EnterLock => 6 case Lookup => 5 case Store => 4 case Retain => 3 case LeaveLock => 2 case Wait => 1
    case Find => 6 case Unlock => 5 case EnterDrop => 4 case Drop => 3 case Test => 2 case LeaveDrop => 1
    case _ => 0
  }

  /** A thread moves only by its own calls and statements. */
  lemma OthersStay(s: State, a: Action, th: nat)
    requires a.th != th
    ensures PcOf(Do(s, a), th) == PcOf(s, th)
  {
  }

  lemma LockCourse(s: State, th: nat)
    requires th in s.pc && Locking(s.pc[th])
    ensures var p, s' := s.pc[th], LockStep(s, th, s.pc[th]);
      var blocked := (p.stage.EnterLock? && s.create.Held?) || (p.stage.Wait? && MutexOf(s, p.obj).locked);
      && th in s'.pc && s'.pc[th].order == p.order
      && (if p.stage.Wait? && !blocked then s'.pc[th].stage.Holding? else Locking(s'.pc[th]))
      && if blocked then s' == s else StatementsLeft(s'.pc[th]) < StatementsLeft(p)
  {
  }

  lemma UnlockCourse(s: State, th: nat)
    requires th in s.pc && Unlocking(s.pc[th])
    requires s.pc[th].stage.Find? ==> s.pc[th].order in s.locks
    requires s.pc[th].stage.Unlock? ==> MutexOf(s, s.pc[th].obj).locked
    ensures var p, s' := s.pc[th], UnlockStep(s, th, s.pc[th]);
      var blocked := p.stage.EnterDrop? && s.create.Held?;
      && th in s'.pc && (s'.pc[th] == IDLE || (s'.pc[th].order == p.order && Unlocking(s'.pc[th])))
      && if blocked then s' == s else StatementsLeft(s'.pc[th]) < StatementsLeft(p)
  {
  }

  /** LockOrder is left only by holding the order, and only by the caller's own step, which takes a free mutex. */
  lemma LeftOnlyByHolding(s: State, a: Action, th: nat)
    requires Locking(PcOf(s, th))
    ensures var p, p' := PcOf(s, th), PcOf(Do(s, a), th);
      && p'.order == p.order && (Locking(p') || p'.stage.Holding?)
      && (p'.stage.Holding? ==> a == Advance(th) && p.stage.Wait? && !MutexOf(s, p.obj).locked)
  {
    if a.th != th {
      OthersStay(s, a, th);
    } else if a.Advance? {
      LockCourse(s, th);
    }
  }

  /** An order is held until its holder calls UnlockOrder. */
  lemma HeldUntilUnlock(s: State, a: Action, th: nat)
    requires PcOf(s, th).stage.Holding?
    ensures var p, p' := PcOf(s, th), PcOf(Do(s, a), th);
      if a == CallUnlock(th) then p'.order == p.order && Unlocking(p') else p' == p
  {
    if a.th != th {
      OthersStay(s, a, th);
    }
  }

  lemma CanUnlock(s: State, th: nat)
    requires Reachable(s) && Unlocking(PcOf(s, th))
    ensures var p := PcOf(s, th);
      (p.stage.Find? ==> p.order in s.locks) && (p.stage.Unlock? ==> MutexOf(s, p.obj).locked)
  {
    ReachableInv(s);
    ReadyAtStep(s, th);
  }

  /** UnlockOrder is left only by returning. */
  lemma LeftOnlyByReturning(s: State, a: Action, th: nat)
    requires Reachable(s) && Unlocking(PcOf(s, th))
    ensures var p, p' := PcOf(s, th), PcOf(Do(s, a), th); p' == IDLE || (p'.order == p.order && Unlocking(p'))
  {
    if a.th != th {
      OthersStay(s, a, th);
    } else if a.Advance? {
      CanUnlock(s, th);
      UnlockCourse(s, th);
    }
  }

  /** And a thread that is idle gets into LockOrder only by calling it. */
  lemma EnteredOnlyByCalling(s: State, a: Action, th: nat)
    requires PcOf(s, th).stage.Idle?
    ensures var p' := PcOf(Do(s, a), th);
      if a.CallLock? && a.th == th then Locking(p') && p'.order == a.order else p' == PcOf(s, th)
  {
    if a.th != th {
      OthersStay(s, a, th);
    }
  }

  /** What stops a thread: a taken `createLock`, or another thread between the two calls for its order. */
  ghost predicate Stopped(s: State, th: nat) {
    var p := PcOf(s, th);
    || ((p.stage.EnterLock? || p.stage.EnterDrop?) && s.create.Held?)
    || (p.stage.Wait? && exists c :: c != th && Critical(PcOf(s, c)) && PcOf(s, c).order == p.order)
  }

  lemma WaitsForOwner(s: State, th: nat)
    requires Reachable(s) && PcOf(s, th).stage.Wait?
    ensures MutexOf(s, PcOf(s, th).obj).locked <==> Stopped(s, th)
  {
    ReachableInv(s);
    var p := PcOf(s, th);
    if c :| c != th && Critical(PcOf(s, c)) && PcOf(s, c).order == p.order {
      assert c in Owners(s.pc, p.obj);
    }
    if MutexOf(s, p.obj).locked {
      var c :| c in Owners(s.pc, p.obj);
      assert PcOf(s, c).order == p.order;
    }
  }

  /** In every reachable state a thread inside a call is stopped for one of these reasons, or its next step brings it
      nearer to the end of the call. */
  lemma StoppedOrNearer(s: State, th: nat)
    requires Reachable(s) && (Locking(PcOf(s, th)) || Unlocking(PcOf(s, th)))
    ensures var s' := Do(s, Advance(th));
      if Stopped(s, th) then s' == s else StatementsLeft(PcOf(s', th)) < StatementsLeft(PcOf(s, th))
  {
    if PcOf(s, th).stage.Wait? {
      WaitsForOwner(s, th);
    }
    if Locking(PcOf(s, th)) {
      LockCourse(s, th);
    } else {
      CanUnlock(s, th);
      UnlockCourse(s, th);
    }
  }

  /** A thread is stopped only by a taken `createLock` or a taken mutex. */
  lemma NotBlockedAdvances(s: State, th: nat)
    requires ThreadsLinked(s) && th in s.pc && !s.pc[th].stage.Idle? && !s.pc[th].stage.Holding?
    requires s.pc[th].stage.EnterLock? || s.pc[th].stage.EnterDrop? ==> s.create.Free?
    requires s.pc[th].stage.Wait? ==> !MutexOf(s, s.pc[th].obj).locked
    ensures Do(s, Advance(th)) != s
  {
    assert PcOf(Do(s, Advance(th)), th) != s.pc[th];
  }

  /** No deadlock: while a call is in progress and no caller holds its order, some thread can go on. */
  lemma SomeThreadCanAdvance(s: State, busy: nat)
    requires Reachable(s) && !PcOf(s, busy).stage.Idle? && forall th :: !PcOf(s, th).stage.Holding?
    ensures exists th :: Do(s, Advance(th)) != s
  {
    ReachableInv(s);
    var p := PcOf(s, busy);
    if s.create.Held? {
      assert !PcOf(s, s.create.thread).stage.Holding?;
      NotBlockedAdvances(s, s.create.thread);
    } else if p.stage.Wait? && MutexOf(s, p.obj).locked {
      var owner :| owner in Owners(s.pc, p.obj);
      assert !PcOf(s, owner).stage.Holding?;
      NotBlockedAdvances(s, owner);
    } else {
      NotBlockedAdvances(s, busy);
    }
  }
}
