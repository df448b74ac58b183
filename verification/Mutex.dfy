/** Tasks, the run queue and mutexes of one CPU, as a state machine whose steps are the points
    where the timer can interrupt (cp/include/mutex.h, cp/nucleus/mutex.c, cp/nucleus/sched.c). */
module Mutex {
  import opened Common
  import opened RunQueue

  type Task = Node
  type LockId = nat

  // The idle task, which also runs the boot code, is on no list.
  const IDLE: Task := HEAD
  // HZ / SCHED_SLICE_MS, as the source computes it.
  const TICKS_PER_SLICE := 100 / 30

  /** `word` is 1 when free. `owner`, `arrived` and `granted` record history: who the mutex was
      given to, and who was put on and taken off its queue, in order. */
  datatype Lock = Lock(word: int, spin: Option<Task>, queue: seq<Task>, owner: Option<Task>,
                       arrived: seq<Task>, granted: seq<Task>)

  /** What a task does next. `slow` is the attempt made with the queue lock held; Linking is
      list_add_tail() on the run queue after its end was read, with `done` of its four stores done. */
  datatype Pc =
    | Running
    | Reading(m: LockId, slow: bool)
    | Swapping(m: LockId, seen: int, slow: bool)
    | Spinning(m: LockId)
    | Queueing(m: LockId)
    | Releasing(m: LockId)
    | Leaving(m: LockId)
    | Blocking(m: LockId)
    | Asleep(m: LockId)
    | Unlocking(m: LockId)
    | Checking(m: LockId)
    | Dropping(m: LockId, next: Option<Task>)
    | Waking(task: Task)
    | Linking(task: Task, tail: Node, done: nat)

  /** `list` is the run queue. `runnable`, `queued` and `dispatched` record history: who was put on
      it and not dispatched since, and all who were put on it and dispatched, in order. */
  datatype State = State(current: Task, list: Links, runnable: seq<Task>, live: set<Task>,
                         locks: map<LockId, Lock>, pc: map<Task, Pc>, held: map<Task, set<LockId>>,
                         ticks: nat, sliceEnd: map<Task, nat>, queued: seq<Task>, dispatched: seq<Task>)

  datatype Event =
    | Create(task: Task)
    | Exit
    | Yield
    | Tick
    | LockCall(m: LockId)
    | Read
    | Swap
    | TakeSpin
    | Enqueue
    | DropSpin
    | Block
    | Return
    | UnlockCall(m: LockId)
    | Check
    | Wake
    | Link

  // ---- The scheduler ----

  /** The scheduler puts a task on the run queue; it is not interrupted. */
  function Queued(s: State, t: Task): State {
    s.(list := AddTail(s.list, t), runnable := s.runnable + [t], queued := s.queued + [t])
  }

  /** Run the next task, or the idle task if there is none or `force` asks for it. */
  function Sched(s: State, force: nat): State {
    if force != 0 || First(s.list) == HEAD then s.(current := IDLE)
    else
      var next := First(s.list);
      s.(current := next, list := Delete(s.list, next), runnable := if |s.runnable| > 0 then s.runnable[1..] else [],
         sliceEnd := s.sliceEnd[next := s.ticks + TICKS_PER_SLICE], dispatched := s.dispatched + [next])
  }

  /** A task that gives up the CPU within the tick it got it in hands it to the idle task. */
  function Forced(s: State): nat {
    if s.current != IDLE && s.current in s.sliceEnd && s.sliceEnd[s.current] >= s.ticks + TICKS_PER_SLICE
    then s.sliceEnd[s.current] else 0
  }

  /** The current task goes to the back of the run queue. */
  function Preempt(s: State): State {
    if s.current == IDLE then Sched(s, 0) else Sched(Queued(s, s.current), Forced(s))
  }

  // ---- Steps ----

  predicate Known(s: State) {
    s.current != IDLE && s.current in s.live && s.current in s.pc && s.current in s.held
  }

  predicate At(s: State, p: Pc) {
    Known(s) && s.pc[s.current] == p
  }

  function Go(s: State, p: Pc): State {
    s.(pc := s.pc[s.current := p])
  }

  function SetLock(s: State, m: LockId, l: Lock): State {
    s.(locks := s.locks[m := l])
  }

  /** The current task got mutex `m`. */
  function Acquire(s: State, m: LockId): State
    requires Known(s) && m in s.locks
  {
    SetLock(s, m, s.locks[m].(word := s.locks[m].word - 1, owner := Some(s.current)))
      .(held := s.held[s.current := s.held[s.current] + {m}])
  }

  /** The current task is about to take a step on a mutex. */
  predicate OnMutex(s: State) {
    Known(s) && !Plain(s.pc[s.current]) && s.pc[s.current].m in s.locks
  }

  /** Has nothing to do with any mutex. */
  predicate Plain(p: Pc) { p.Running? || p.Waking? || p.Linking? }

  predicate CanCreate(s: State, t: Task) {
    s.current in s.pc && s.pc[s.current] == Running && t > HEAD && t !in s.pc
  }

  function DoCreate(s: State, t: Task): State {
    s.(live := s.live + {t}, pc := s.pc[t := Running][s.current := Waking(t)],
       held := s.held[t := {}], sliceEnd := s.sliceEnd[t := 0])
  }

  predicate CanExit(s: State) { At(s, Running) && s.held[s.current] == {} }

  function DoExit(s: State): State {
    Sched(s.(live := s.live - {s.current}), Forced(s))
  }

  function DoTick(s: State): State {
    var u := s.(ticks := s.ticks + 1);
    if u.ticks % TICKS_PER_SLICE == 0 then Preempt(u) else u
  }

  predicate CanCall(s: State, m: LockId) { At(s, Running) && m in s.locks }

  // atomic_add_unless(&state, -1, 0): read, then compare and swap until it works or reads 0

  predicate CanRead(s: State) { OnMutex(s) && s.pc[s.current].Reading? }

  function DoRead(s: State): State
    requires CanRead(s)
  {
    var p := s.pc[s.current];
    AfterRead(s, p.m, s.locks[p.m].word, p.slow)
  }

  predicate CanSwap(s: State) { OnMutex(s) && s.pc[s.current].Swapping? }

  function DoSwap(s: State): State
    requires CanSwap(s)
  {
    var p := s.pc[s.current];
    var word := s.locks[p.m].word;
    if word == p.seen then Go(Acquire(s, p.m), if p.slow then Releasing(p.m) else Running)
    else AfterRead(s, p.m, word, p.slow)
  }

  predicate CanTakeSpin(s: State) {
    OnMutex(s) && (s.pc[s.current].Spinning? || s.pc[s.current].Unlocking?) && s.locks[s.pc[s.current].m].spin.None?
  }

  function DoTakeSpin(s: State): State
    requires CanTakeSpin(s)
  {
    var p := s.pc[s.current];
    Go(SetLock(s, p.m, s.locks[p.m].(spin := Some(s.current))),
       if p.Spinning? then Reading(p.m, true) else Checking(p.m))
  }

  predicate CanEnqueue(s: State) { OnMutex(s) && s.pc[s.current].Queueing? }

  function DoEnqueue(s: State): State
    requires CanEnqueue(s)
  {
    var m := s.pc[s.current].m;
    var l := s.locks[m];
    Go(SetLock(s, m, l.(queue := l.queue + [s.current], arrived := l.arrived + [s.current])), Leaving(m))
  }

  predicate CanDropSpin(s: State) {
    OnMutex(s) && (s.pc[s.current].Leaving? || s.pc[s.current].Releasing? || s.pc[s.current].Dropping?)
  }

  function DoDropSpin(s: State): State
    requires CanDropSpin(s)
  {
    var p := s.pc[s.current];
    Go(SetLock(s, p.m, s.locks[p.m].(spin := None)),
       if p.Leaving? then Blocking(p.m) else if p.Releasing? || p.next.None? then Running else Waking(p.next.value))
  }

  predicate CanBlock(s: State) { Known(s) && s.pc[s.current].Blocking? }

  function DoBlock(s: State): State
    requires CanBlock(s)
  {
    Sched(Go(s, Asleep(s.pc[s.current].m)), Forced(s))
  }

  predicate CanReturn(s: State) { Known(s) && s.pc[s.current].Asleep? }

  predicate CanUnlock(s: State, m: LockId) { CanCall(s, m) && m in s.held[s.current] }

  predicate CanCheck(s: State) { OnMutex(s) && s.pc[s.current].Checking? }

  function DoCheck(s: State): State
    requires CanCheck(s)
  {
    var m := s.pc[s.current].m;
    var l := s.locks[m];
    var u := s.(held := s.held[s.current := s.held[s.current] - {m}]);
    if |l.queue| == 0 then Go(SetLock(u, m, l.(word := l.word + 1, owner := None)), Dropping(m, None))
    else
      var t := l.queue[0];
      Go(SetLock(u, m, l.(queue := l.queue[1..], owner := Some(t), granted := l.granted + [t]))
           .(held := u.held[t := (if t in u.held then u.held[t] else {}) + {m}]), Dropping(m, Some(t)))
  }

  predicate CanWake(s: State) { s.current in s.pc && s.pc[s.current].Waking? }

  /** list_add_tail() on the run queue: read its end, then store four times. */
  function DoWake(s: State): State
    requires CanWake(s)
  {
    Go(s, Linking(s.pc[s.current].task, Last(s.list), 0))
  }

  predicate CanLink(s: State) { s.current in s.pc && s.pc[s.current].Linking? }

  function DoLink(s: State): State
    requires CanLink(s)
  {
    var p := s.pc[s.current];
    var u := s.(list := Store(s.list, p.task, p.tail, p.done));
    if p.done < 3 then Go(u, p.(done := p.done + 1))
    else Go(u.(runnable := s.runnable + [p.task], queued := s.queued + [p.task]), Running)
  }

  predicate Enabled(s: State, e: Event) {
    match e
    case Create(t) => CanCreate(s, t)
    case Exit => CanExit(s)
    case Yield => At(s, Running)
    case Tick => true
    case LockCall(m) => CanCall(s, m)
    case Read => CanRead(s)
    case Swap => CanSwap(s)
    case TakeSpin => CanTakeSpin(s)
    case Enqueue => CanEnqueue(s)
    case DropSpin => CanDropSpin(s)
    case Block => CanBlock(s)
    case Return => CanReturn(s)
    case UnlockCall(m) => CanUnlock(s, m)
    case Check => CanCheck(s)
    case Wake => CanWake(s)
    case Link => CanLink(s)
  }

  function Next(s: State, e: Event): State
    requires Enabled(s, e)
  {
    match e
    case Create(t) => DoCreate(s, t)
    case Exit => DoExit(s)
    case Yield => Preempt(s)
    case Tick => DoTick(s)
    case LockCall(m) => Go(s, Reading(m, false))
    case Read => DoRead(s)
    case Swap => DoSwap(s)
    case TakeSpin => DoTakeSpin(s)
    case Enqueue => DoEnqueue(s)
    case DropSpin => DoDropSpin(s)
    case Block => DoBlock(s)
    case Return => Go(s, Running)
    case UnlockCall(m) => Go(s, Unlocking(m))
    case Check => DoCheck(s)
    case Wake => DoWake(s)
    case Link => DoLink(s)
  }

  function AfterRead(s: State, m: LockId, word: int, slow: bool): State {
    Go(s, if word != 0 then Swapping(m, word, slow) else if slow then Queueing(m) else Spinning(m))
  }

  // ---- Runs ----

  ghost predicate Initial(s: State) {
    && s.ticks == 0 && s.current == IDLE && s.list == EMPTY && s.runnable == [] && s.live == {}
    && s.pc == map[IDLE := Running] && s.held == map[] && s.sliceEnd == map[]
    && s.queued == [] && s.dispatched == []
    && forall m :: m in s.locks ==> s.locks[m] == Lock(1, None, [], None, [], [])
  }

  predicate CanRun(s: State, es: seq<Event>)
    decreases |es|
  {
    |es| == 0 || (Enabled(s, es[0]) && CanRun(Next(s, es[0]), es[1..]))
  }

  function Run(s: State, es: seq<Event>): State
    requires CanRun(s, es)
    decreases |es|
  {
    if |es| == 0 then s else Run(Next(s, es[0]), es[1..])
  }

  // ---- The invariant ----

  predicate HoldsSpin(p: Pc, m: LockId) {
    || p == Reading(m, true) || (p.Swapping? && p.m == m && p.slow) || p == Queueing(m) || p == Releasing(m)
    || p == Leaving(m) || p == Checking(m) || (p.Dropping? && p.m == m)
  }

  predicate Waits(p: Pc, m: LockId) {
    p == Leaving(m) || p == Blocking(m) || p == Asleep(m)
  }

  /** On a mutex queue, but still running towards schedule_blocked(). */
  predicate InWindow(p: Pc) { p.Leaving? || p.Blocking? }

  /** On its way to put `t`, which it took off a mutex queue or created, on the run queue. */
  predicate Gives(p: Pc, t: Task) {
    p == Waking(t) || (p.Dropping? && p.next == Some(t)) || (p.Linking? && p.task == t)
  }

  /** The run queue's end is the task to be linked, but going forward does not lead there yet. */
  predicate HalfLinked(p: Pc) { p.Linking? && p.done > 0 }

  /** The run queue holds the tasks it should hold, but for an insertion under way. */
  ghost predicate ListOk(s: State) {
    if s.current in s.pc && HalfLinked(s.pc[s.current]) then
      var p := s.pc[s.current];
      Half(s.list, s.runnable, p.task, p.tail, p.done)
    else Ring(s.list, s.runnable)
  }

  predicate Registered(s: State) {
    && IDLE !in s.live && IDLE in s.pc && Plain(s.pc[IDLE])
    && (forall t {:trigger t in s.live} :: t in s.live ==> t > HEAD && t in s.pc && t in s.held)
    && (forall t {:trigger t in s.runnable} :: t in s.runnable ==> t in s.live)
    && s.queued == s.dispatched + s.runnable
  }

  ghost predicate Tables(s: State) {
    && Registered(s) && (s.current != IDLE ==> s.current in s.live) && s.current !in s.runnable
    && ListOk(s)
  }

  predicate LockOk(s: State, m: LockId)
    requires m in s.locks
  {
    var l := s.locks[m];
    && l.word == (if l.owner.None? then 1 else 0)
    && (l.owner.Some? ==> l.owner.value in s.live)
    && (l.spin.Some? ==> l.spin.value in s.live)
    && (|l.queue| > 0 ==> l.owner.Some?)
    && Unique(l.queue) && (forall t {:trigger t in l.queue} :: t in l.queue ==> t in s.live)
    && l.arrived == l.granted + l.queue
  }

  /** What task `t` and mutex `m` say of each other. */
  predicate Agree(s: State, t: Task, m: LockId)
    requires t in s.pc && t in s.held && m in s.locks
  {
    var p, l := s.pc[t], s.locks[m];
    && (l.spin == Some(t) <==> HoldsSpin(p, m))
    && (l.owner == Some(t) <==> m in s.held[t])
    && (p == Queueing(m) ==> l.word == 0)
    && (p.Swapping? && p.m == m ==> p.seen == 1)
    && (p == Unlocking(m) || p == Checking(m) || p == Releasing(m) ==> l.owner == Some(t))
    && (t in l.queue ==> Waits(p, m))
    && (Waits(p, m) ==> t in l.queue || l.owner == Some(t))
  }

  /** Asleep on a mutex queue. */
  predicate Stuck(s: State, t: Task)
    requires t in s.pc
  {
    s.pc[t].Asleep? && s.pc[t].m in s.locks && t in s.locks[s.pc[t].m].queue
  }

  ghost predicate Handed(s: State, t: Task) {
    exists u :: u in s.pc && Gives(s.pc[u], t)
  }

  ghost predicate PlaceOk(s: State, t: Task)
    requires t in s.pc
  {
    && (InWindow(s.pc[t]) ==> t == s.current && s.pc[t].m in s.locks && t in s.locks[s.pc[t].m].queue)
    && (s.pc[t].Asleep? ==> s.pc[t].m in s.locks)
    && (Stuck(s, t) ==> t != s.current && t !in s.runnable)
    && (t == s.current || t in s.runnable || Stuck(s, t) || Handed(s, t))
  }

  predicate GiveOk(s: State, u: Task, t: Task)
    requires u in s.pc
  {
    Gives(s.pc[u], t) ==>
      && t in s.live && t in s.pc && !Stuck(s, t) && t != s.current && t !in s.runnable
      && (HalfLinked(s.pc[u]) ==> u == s.current) && (s.pc[u].Linking? ==> s.pc[u].done < 4)
      && forall v {:trigger s.pc[v]} :: v in s.pc && Gives(s.pc[v], t) ==> v == u
  }

  ghost predicate Inv(s: State) {
    && Tables(s)
    && (forall m {:trigger LockOk(s, m)} :: m in s.locks ==> LockOk(s, m))
    && (forall t, m {:trigger Agree(s, t, m)} :: t in s.live && m in s.locks ==> Agree(s, t, m))
    && (forall t {:trigger PlaceOk(s, t)} :: t in s.live ==> PlaceOk(s, t))
    && (forall u, t {:trigger GiveOk(s, u, t)} :: u in s.pc ==> GiveOk(s, u, t))
  }

  /** The timer takes the CPU away from a task that is already on a mutex queue, or that has begun
      and not finished to link another into the run queue. */
  predicate SwitchesInWindow(s: State, e: Event) {
    && e.Tick? && s.current in s.pc && (InWindow(s.pc[s.current]) || HalfLinked(s.pc[s.current]))
    && Next(s, e).current != s.current
  }

  /** The end of the run queue, read before the CPU was lost, is not its end any more. */
  predicate StaleTail(s: State, e: Event) {
    e.Link? && CanLink(s) && s.pc[s.current].done == 0 && s.pc[s.current].tail != Last(s.list)
  }

  predicate Bad(s: State, e: Event) { SwitchesInWindow(s, e) || StaleTail(s, e) }

  // ---- Every other step keeps it ----

  lemma UniqueSnoc<T>(q: seq<T>, x: T)
    requires Unique(q) && x !in q
    ensures Unique(q + [x])
  {
  }

  lemma UniqueTail<T>(q: seq<T>)
    requires Unique(q) && |q| > 0
    ensures Unique(q[1..]) && q[0] !in q[1..] && q == [q[0]] + q[1..]
    ensures forall x :: x in q[1..] ==> x in q
  {
  }

  /** Before a task is chosen: the run queue is in order, and nobody is linking into it. */
  ghost predicate Ready(s: State) {
    && Registered(s) && Ring(s.list, s.runnable)
    && !HalfLinked(s.pc[IDLE]) && (s.runnable != [] && s.runnable[0] in s.pc ==> !HalfLinked(s.pc[s.runnable[0]]))
  }

  lemma SchedTables(s: State, force: nat)
    requires Ready(s)
    ensures Tables(Sched(s, force))
    ensures var n := Sched(s, force);
      && n.current == (if force != 0 || s.runnable == [] then IDLE else s.runnable[0])
      && n.runnable == (if force != 0 || s.runnable == [] then s.runnable else s.runnable[1..])
      && (forall t {:trigger t in s.runnable} :: t in s.runnable <==> t in n.runnable || (t == n.current && t != IDLE))
  {
    RingEmpty(s.list, s.runnable);
    if force == 0 && |s.runnable| > 0 {
      UniqueTail(s.runnable);
      DeleteRing(s.list, s.runnable);
      assert s.runnable[0] in s.runnable;
    }
  }

  /** Only the task on the CPU is in the middle of linking another. */
  lemma NoHalf(s: State)
    requires Inv(s)
    ensures s.current != IDLE ==> !HalfLinked(s.pc[IDLE])
    ensures s.runnable != [] ==> s.runnable[0] in s.pc && !HalfLinked(s.pc[s.runnable[0]])
  {
    assert s.pc[IDLE].Linking? ==> GiveOk(s, IDLE, s.pc[IDLE].task);
    if s.runnable != [] {
      var t := s.runnable[0];
      assert t in s.runnable;
      assert s.pc[t].Linking? ==> GiveOk(s, t, s.pc[t].task);
    }
  }

  /** The current task is put behind the others. */
  lemma QueuedReady(s: State)
    requires Inv(s) && s.current != IDLE && s.current in s.pc && !HalfLinked(s.pc[s.current])
    ensures Ready(Queued(s, s.current))
  {
    NoHalf(s);
    AddTailRing(s.list, s.runnable, s.current);
  }

  /** Who was somewhere still is, if what put it there is unchanged. */
  lemma PlaceFrame(s: State, n: State, t: Task)
    requires t in s.pc && t in n.pc && PlaceOk(s, t)
    requires t == s.current || t in s.runnable ==> t in n.runnable || t == n.current
    requires Stuck(s, t) ==> Stuck(n, t)
    requires forall u {:trigger s.pc[u]} :: u in s.pc && Gives(s.pc[u], t) ==> u in n.pc && Gives(n.pc[u], t)
    ensures t == n.current || t in n.runnable || Stuck(n, t) || Handed(n, t)
  {
    if Handed(s, t) {
      var u :| u in s.pc && Gives(s.pc[u], t);
      assert u in n.pc && Gives(n.pc[u], t);
    }
  }

  /** What a choice of the next task, or a step on the run queue, leaves of mutexes. */
  lemma SameLocks(s: State, n: State)
    requires Inv(s) && n.locks == s.locks && n.held == s.held && n.pc.Keys == s.pc.Keys && n.live <= s.live
    requires forall t {:trigger n.pc[t]} :: t in s.pc ==>
      n.pc[t] == s.pc[t] || (s.pc[t].Blocking? && n.pc[t] == Asleep(s.pc[t].m)) || (Plain(s.pc[t]) && Plain(n.pc[t]))
    requires forall t {:trigger t in s.live} :: t in s.live ==> t in n.live || (s.pc[t] == Running && s.held[t] == {})
    ensures forall m {:trigger LockOk(n, m)} :: m in n.locks ==> LockOk(n, m)
    ensures forall t, m {:trigger Agree(n, t, m)} :: t in n.live && m in n.locks ==> Agree(n, t, m)
  {
    forall m | m in n.locks ensures LockOk(n, m) {
      var l := s.locks[m];
      assert LockOk(s, m);
      if l.owner.Some? { assert Agree(s, l.owner.value, m); }
      if l.spin.Some? { assert Agree(s, l.spin.value, m); }
      forall t | t in l.queue ensures t in n.live { assert Agree(s, t, m); }
    }
    forall t, m | t in n.live && m in n.locks ensures Agree(n, t, m) { assert Agree(s, t, m); }
  }

  /** A new task holds and awaits no mutex. */
  lemma CreateLocks(s: State, t0: Task)
    requires Inv(s) && CanCreate(s, t0)
    ensures var n := DoCreate(s, t0);
      && (forall m {:trigger LockOk(n, m)} :: m in n.locks ==> LockOk(n, m))
      && (forall t, m {:trigger Agree(n, t, m)} :: t in n.live && m in n.locks ==>
        t in n.pc && t in n.held && Agree(n, t, m))
  {
    var n := DoCreate(s, t0);
    forall m | m in n.locks ensures LockOk(n, m) { assert LockOk(s, m); }
    forall t, m | t in n.live && m in n.locks ensures t in n.pc && t in n.held && Agree(n, t, m) {
      assert LockOk(s, m) && (t in s.live ==> Agree(s, t, m));
    }
  }

  lemma CreateKeeps(s: State, t0: Task)
    requires Inv(s) && CanCreate(s, t0)
    ensures Inv(DoCreate(s, t0))
  {
    var n := DoCreate(s, t0);
    CreateLocks(s, t0);
    forall t | t in n.live ensures PlaceOk(n, t) {
      if t in s.live { assert PlaceOk(s, t); PlaceFrame(s, n, t); } else { assert Gives(n.pc[s.current], t); }
    }
    forall v | v in s.pc ensures !Gives(s.pc[v], t0) { assert GiveOk(s, v, t0); }
    forall u, t | u in n.pc ensures GiveOk(n, u, t) { assert u in s.pc ==> GiveOk(s, u, t); }
  }

  lemma ExitKeeps(s: State)
    requires Inv(s) && CanExit(s)
    ensures Inv(DoExit(s))
  {
    var n := DoExit(s);
    NoHalf(s);
    SchedTables(s.(live := s.live - {s.current}), Forced(s));
    SameLocks(s, n);
    forall t | t in n.live ensures PlaceOk(n, t) { assert PlaceOk(s, t) && PlaceOk(s, s.current); PlaceFrame(s, n, t); }
    forall u, t | u in n.pc ensures GiveOk(n, u, t) { assert GiveOk(s, u, t) && PlaceOk(s, s.current); }
  }

  /** The current task got the CPU in this tick: its slice ends three ticks from now. */
  predicate InFirstTick(s: State) {
    s.current != IDLE && s.current in s.sliceEnd && s.sliceEnd[s.current] >= s.ticks + 3
  }

  /** The current task is neither queued on a mutex nor linking another, or keeps the CPU anyway. */
  predicate MayLeave(s: State) {
    s.current in s.pc ==>
      && (HalfLinked(s.pc[s.current]) ==> s.current == IDLE && s.runnable == [])
      && (InWindow(s.pc[s.current]) ==> s.runnable == [] && !InFirstTick(s))
  }

  /** Only the CPU and the run queue changed hands. */
  ghost predicate Moved(s: State, n: State) {
    && Tables(n) && n.pc == s.pc && n.locks == s.locks && n.held == s.held && n.live == s.live
    && (n.current == s.current || n.current == IDLE || n.current in s.runnable)
    && (forall t {:trigger t in s.runnable} {:trigger t in n.runnable} :: t != IDLE ==>
          (t == s.current || t in s.runnable <==> t in n.runnable || t == n.current))
    && (s.current in s.pc && (HalfLinked(s.pc[s.current]) || InWindow(s.pc[s.current])) ==> n.current == s.current)
  }

  lemma MovedKeeps(s: State, n: State)
    requires Inv(s) && Moved(s, n)
    ensures Inv(n)
  {
    SameLocks(s, n);
    forall t | t in n.live ensures PlaceOk(n, t) { assert PlaceOk(s, t); PlaceFrame(s, n, t); }
    forall u, t | u in n.pc ensures GiveOk(n, u, t) { assert GiveOk(s, u, t); }
  }

  /** A task that leaves the CPU stays on the run queue or gets the CPU back. */
  lemma PreemptKeeps(s: State)
    requires Inv(s) && MayLeave(s)
    ensures Inv(Preempt(s))
  {
    var n := Preempt(s);
    if s.current == IDLE {
      NoHalf(s);
      if HalfLinked(s.pc[IDLE]) { RingEmpty(s.list, s.runnable); } else { SchedTables(s, 0); }
    } else {
      QueuedReady(s);
      SchedTables(Queued(s, s.current), Forced(s));
      assert forall t :: t in Queued(s, s.current).runnable <==> t == s.current || t in s.runnable;
    }
    MovedKeeps(s, n);
  }

  /** Where the CPU goes when a slice ends. */
  lemma PreemptTo(s: State)
    requires Inv(s)
    ensures var n := Preempt(s);
      n.current == if InFirstTick(s) then IDLE
        else if s.runnable != [] then s.runnable[0]
        else if s.current == IDLE || HalfLinked(s.pc[s.current]) then IDLE else s.current
  {
    if s.current == IDLE {
      RingEmpty(s.list, s.runnable);
    } else if HalfLinked(s.pc[s.current]) {
      var p := s.pc[s.current];
      assert GiveOk(s, s.current, p.task);
      AddBehindHalf(s.list, s.runnable, p.task, p.tail, p.done, s.current);
      RingEmpty(AddTail(s.list, s.current), s.runnable);
    } else {
      QueuedReady(s);
      RingEmpty(AddTail(s.list, s.current), s.runnable + [s.current]);
    }
  }

  lemma TickCounted(s: State)
    requires Inv(s)
    ensures Inv(s.(ticks := s.ticks + 1))
  {
    MovedKeeps(s, s.(ticks := s.ticks + 1));
  }

  lemma TickKeeps(s: State)
    requires Inv(s) && !SwitchesInWindow(s, Tick)
    ensures Inv(DoTick(s))
  {
    var u := s.(ticks := s.ticks + 1);
    TickCounted(s);
    if u.ticks % TICKS_PER_SLICE == 0 {
      PreemptTo(u);
      if u.runnable != [] { assert u.runnable[0] in u.runnable; }
      PreemptKeeps(u);
    }
  }

  lemma BlockKeeps(s: State)
    requires Inv(s) && CanBlock(s)
    ensures Inv(DoBlock(s))
  {
    var n := DoBlock(s);
    NoHalf(s);
    SchedTables(Go(s, Asleep(s.pc[s.current].m)), Forced(s));
    SameLocks(s, n);
    forall t | t in n.live ensures PlaceOk(n, t) {
      assert PlaceOk(s, t) && PlaceOk(s, s.current);
      if t != s.current { PlaceFrame(s, n, t); }
    }
    forall u, t | u in n.pc ensures GiveOk(n, u, t) { assert GiveOk(s, u, t) && PlaceOk(s, s.current); }
  }

  /** The current task's step: it stays on the CPU and nobody else moves. */
  ghost predicate Stays(s: State, n: State) {
    && s.current in s.pc && s.current in n.pc && ListOk(n)
    && n == s.(pc := n.pc, locks := n.locks, held := n.held, list := n.list)
    && n.held.Keys == s.held.Keys && n.locks.Keys == s.locks.Keys
    && n.pc.Keys == s.pc.Keys && (forall t {:trigger n.pc[t]} :: t in s.pc && t != s.current ==> n.pc[t] == s.pc[t])
    && (forall m, t {:trigger t in n.locks[m].queue} :: m in s.locks && t != s.current ==>
      (t in n.locks[m].queue <==> t in s.locks[m].queue))
    && (forall t {:trigger Gives(n.pc[s.current], t)} :: Gives(n.pc[s.current], t) <==> Gives(s.pc[s.current], t))
    && (InWindow(n.pc[s.current]) ==> n.pc[s.current].m in n.locks && s.current in n.locks[n.pc[s.current].m].queue)
    && !n.pc[s.current].Asleep? && (s.current == IDLE ==> Plain(n.pc[IDLE]))
    && (n.pc[s.current].Linking? ==> n.pc[s.current].done < 4)
  }

  lemma StaysKeeps(s: State, n: State)
    requires Inv(s) && Stays(s, n)
    ensures Tables(n) && (forall t {:trigger PlaceOk(n, t)} :: t in n.live ==> PlaceOk(n, t))
    ensures forall u, t {:trigger GiveOk(n, u, t)} :: u in n.pc ==> GiveOk(n, u, t)
  {
    forall t | t in n.live ensures PlaceOk(n, t) { assert PlaceOk(s, t); PlaceFrame(s, n, t); }
    forall u, t | u in n.pc ensures GiveOk(n, u, t) { assert GiveOk(s, u, t); }
  }

  predicate About(p: Pc, m: LockId) {
    match p
    case Running => true
    case Waking(_) => true
    case Linking(_, _, _) => true
    case _ => p.m == m
  }

  /** The step concerns mutex `m0`, and what it leaves of it is in order. */
  ghost predicate OnlyOn(s: State, n: State, m0: LockId) {
    && Stays(s, n) && About(s.pc[s.current], m0) && About(n.pc[s.current], m0)
    && (forall m {:trigger n.locks[m]} :: m in s.locks && m != m0 ==> n.locks[m] == s.locks[m])
    && (forall t, m {:trigger m in n.held[t]} :: t in s.held && m != m0 ==> (m in n.held[t] <==> m in s.held[t]))
    && (m0 in n.locks ==> LockOk(n, m0) && forall t {:trigger Agree(n, t, m0)} :: t in n.live ==>
      t in n.pc && t in n.held && Agree(n, t, m0))
  }

  lemma OnlyOnKeeps(s: State, n: State, m0: LockId)
    requires Inv(s) && OnlyOn(s, n, m0)
    ensures Inv(n)
  {
    StaysKeeps(s, n);
    forall m | m in n.locks ensures LockOk(n, m) { assert LockOk(s, m); }
    forall t, m | t in n.live && m in n.locks ensures Agree(n, t, m) { assert Agree(s, t, m); }
  }

  /** Calls and returns only change what the current task does next. */
  lemma CallKeeps(s: State, p: Pc)
    requires Inv(s) && Known(s)
    requires
      || (At(s, Running) && p.Reading? && !p.slow)
      || (At(s, Running) && p.Unlocking? && CanUnlock(s, p.m))
      || (CanReturn(s) && p == Running)
    ensures Inv(Go(s, p))
  {
    var m, n := if p == Running then s.pc[s.current].m else p.m, Go(s, p);
    assert PlaceOk(s, s.current) && (m in s.locks ==> LockOk(s, m));
    forall t | t in n.live && m in n.locks ensures Agree(n, t, m) { assert Agree(s, t, m); }
    OnlyOnKeeps(s, n, m);
  }

  lemma ReadKeeps(s: State, word: int, slow: bool)
    requires Inv(s) && (CanRead(s) || CanSwap(s)) && slow == s.pc[s.current].slow
    requires word == s.locks[s.pc[s.current].m].word
    ensures Inv(AfterRead(s, s.pc[s.current].m, word, slow))
  {
    var m := s.pc[s.current].m;
    var n := AfterRead(s, m, word, slow);
    assert LockOk(s, m);
    forall t | t in n.live ensures Agree(n, t, m) { assert Agree(s, t, m); }
    OnlyOnKeeps(s, n, m);
  }

  lemma SwapKeeps(s: State)
    requires Inv(s) && CanSwap(s)
    ensures Inv(DoSwap(s))
  {
    var m, n := s.pc[s.current].m, DoSwap(s);
    if s.locks[m].word != s.pc[s.current].seen {
      ReadKeeps(s, s.locks[m].word, s.pc[s.current].slow);
    } else {
      assert LockOk(s, m) && Agree(s, s.current, m);
      forall t | t in n.live ensures Agree(n, t, m) { assert Agree(s, t, m); }
      OnlyOnKeeps(s, n, m);
    }
  }

  lemma TakeSpinKeeps(s: State)
    requires Inv(s) && CanTakeSpin(s)
    ensures Inv(DoTakeSpin(s))
  {
    var m, n := s.pc[s.current].m, DoTakeSpin(s);
    assert LockOk(s, m);
    forall t | t in n.live ensures Agree(n, t, m) { assert Agree(s, t, m); }
    OnlyOnKeeps(s, n, m);
  }

  lemma EnqueueKeeps(s: State)
    requires Inv(s) && CanEnqueue(s)
    ensures Inv(DoEnqueue(s))
  {
    var m, n := s.pc[s.current].m, DoEnqueue(s);
    assert LockOk(s, m) && Agree(s, s.current, m);
    UniqueSnoc(s.locks[m].queue, s.current);
    forall t | t in n.live ensures Agree(n, t, m) { assert Agree(s, t, m); }
    OnlyOnKeeps(s, n, m);
  }

  lemma DropSpinKeeps(s: State)
    requires Inv(s) && CanDropSpin(s)
    ensures Inv(DoDropSpin(s))
  {
    var m, n := s.pc[s.current].m, DoDropSpin(s);
    assert PlaceOk(s, s.current) && LockOk(s, m);
    forall t | t in n.live ensures Agree(n, t, m) { assert Agree(s, t, m) && Agree(s, s.current, m); }
    OnlyOnKeeps(s, n, m);
  }

  /** The task that waited longest, if any, is asleep and gets the mutex. */
  lemma FirstWaiter(s: State)
    requires Inv(s) && CanCheck(s) && |s.locks[s.pc[s.current].m].queue| > 0
    ensures var m := s.pc[s.current].m;
      var t := s.locks[m].queue[0];
      && t in s.live && t in s.pc && Stuck(s, t) && s.pc[t].m == m && t != s.current
      && LockOk(s, m) && Agree(s, t, m) && PlaceOk(s, t) && t !in s.locks[m].queue[1..]
  {
    var m := s.pc[s.current].m;
    var q := s.locks[m].queue;
    assert LockOk(s, m);
    UniqueTail(q);
    assert q[0] in q && Agree(s, q[0], m) && PlaceOk(s, q[0]);
  }

  lemma CheckLock(s: State)
    requires Inv(s) && CanCheck(s)
    ensures s.pc[s.current].m in DoCheck(s).locks && LockOk(DoCheck(s), s.pc[s.current].m)
  {
    var m := s.pc[s.current].m;
    assert LockOk(s, m) && Agree(s, s.current, m);
    if |s.locks[m].queue| > 0 { FirstWaiter(s); UniqueTail(s.locks[m].queue); }
  }

  lemma CheckAgree(s: State, t: Task)
    requires Inv(s) && CanCheck(s) && t in s.live
    ensures var m, n := s.pc[s.current].m, DoCheck(s);
      m in n.locks && t in n.pc && t in n.held && Agree(n, t, m)
  {
    var m := s.pc[s.current].m;
    assert LockOk(s, m) && Agree(s, s.current, m) && Agree(s, t, m);
    if |s.locks[m].queue| > 0 { FirstWaiter(s); UniqueTail(s.locks[m].queue); }
  }

  lemma CheckOther(s: State, m: LockId)
    requires Inv(s) && CanCheck(s) && m in s.locks && m != s.pc[s.current].m
    ensures m in DoCheck(s).locks && LockOk(DoCheck(s), m)
    ensures forall t {:trigger Agree(DoCheck(s), t, m)} :: t in s.live ==>
      t in DoCheck(s).pc && t in DoCheck(s).held && Agree(DoCheck(s), t, m)
  {
    assert LockOk(s, m);
    forall t | t in s.live ensures t in DoCheck(s).pc && t in DoCheck(s).held && Agree(DoCheck(s), t, m) {
      assert Agree(s, t, m);
    }
  }

  lemma CheckLocks(s: State)
    requires Inv(s) && CanCheck(s)
    ensures var n := DoCheck(s);
      && (forall m {:trigger LockOk(n, m)} :: m in n.locks ==> LockOk(n, m))
      && (forall t, m {:trigger Agree(n, t, m)} :: t in n.live && m in n.locks ==>
            t in n.pc && t in n.held && Agree(n, t, m))
  {
    var m0, n := s.pc[s.current].m, DoCheck(s);
    forall m | m in n.locks ensures LockOk(n, m) { if m == m0 { CheckLock(s); } else { CheckOther(s, m); } }
    forall t, m | t in n.live && m in n.locks ensures t in n.pc && t in n.held && Agree(n, t, m) {
      if m == m0 { CheckAgree(s, t); } else { CheckOther(s, m); }
    }
  }

  lemma CheckPlaces(s: State)
    requires Inv(s) && CanCheck(s)
    ensures var n := DoCheck(s);
      && Tables(n) && (forall t {:trigger PlaceOk(n, t)} :: t in n.live ==> t in n.pc && PlaceOk(n, t))
      && (forall u, t {:trigger GiveOk(n, u, t)} :: u in n.pc ==> GiveOk(n, u, t))
  {
    var m0, n := s.pc[s.current].m, DoCheck(s);
    var q := s.locks[m0].queue;
    if |q| > 0 { FirstWaiter(s); UniqueTail(q); }
    forall t | t in n.live ensures t in n.pc && PlaceOk(n, t) {
      assert PlaceOk(s, t);
      if |q| > 0 && q[0] == t { assert s.current in n.pc && Gives(n.pc[s.current], t); } else { PlaceFrame(s, n, t); }
    }
    forall u, t | u in n.pc ensures GiveOk(n, u, t) {
      assert GiveOk(s, u, t);
      if |q| > 0 && q[0] == t { forall v | v in s.pc ensures !Gives(s.pc[v], t) { assert GiveOk(s, v, t); } }
    }
  }

  lemma WakeKeeps(s: State)
    requires Inv(s) && CanWake(s)
    ensures Inv(DoWake(s))
  {
    SameLocks(s, DoWake(s));
    StaysKeeps(s, DoWake(s));
  }

  /** A store of an insertion that leaves another to be done. */
  lemma LinkingKeeps(s: State)
    requires Inv(s) && CanLink(s) && s.pc[s.current].done < 3 && !StaleTail(s, Link)
    ensures Inv(DoLink(s))
  {
    var p, n := s.pc[s.current], DoLink(s);
    assert GiveOk(s, s.current, p.task);
    if p.done == 0 {
      FirstStore(s.list, s.runnable, p.task);
    } else {
      NextStore(s.list, s.runnable, p.task, p.tail, p.done);
    }
    SameLocks(s, n);
    StaysKeeps(s, n);
  }

  /** The last store puts the task on the run queue. */
  lemma LinkedKeeps(s: State)
    requires Inv(s) && CanLink(s) && s.pc[s.current].done == 3
    ensures Inv(DoLink(s))
  {
    var p, n := s.pc[s.current], DoLink(s);
    assert GiveOk(s, s.current, p.task);
    LastStore(s.list, s.runnable, p.task, p.tail);
    SameLocks(s, n);
    forall t | t in n.live ensures PlaceOk(n, t) {
      assert PlaceOk(s, t);
      if t != p.task { PlaceFrame(s, n, t); }
    }
    forall u, t | u in n.pc ensures GiveOk(n, u, t) { assert GiveOk(s, u, t); }
  }

  /** Every step keeps the invariant, except the bad ones. */
  lemma StepKeeps(s: State, e: Event)
    requires Inv(s) && Enabled(s, e) && !Bad(s, e)
    ensures Inv(Next(s, e))
  {
    match e {
      case Create(t) => CreateKeeps(s, t);
      case Exit => ExitKeeps(s);
      case Yield => PreemptKeeps(s);
      case Tick => TickKeeps(s);
      case LockCall(m) => CallKeeps(s, Reading(m, false));
      case Read => ReadKeeps(s, s.locks[s.pc[s.current].m].word, s.pc[s.current].slow);
      case Swap => SwapKeeps(s);
      case TakeSpin => TakeSpinKeeps(s);
      case Enqueue => EnqueueKeeps(s);
      case DropSpin => DropSpinKeeps(s);
      case Block => BlockKeeps(s);
      case Return => CallKeeps(s, Running);
      case UnlockCall(m) => CallKeeps(s, Unlocking(m));
      case Check => CheckLocks(s); CheckPlaces(s);
      case Wake => WakeKeeps(s);
      case Link => if s.pc[s.current].done < 3 { LinkingKeeps(s); } else { LinkedKeeps(s); }
    }
  }

  // ---- Every run ----

  /** No step of the run is a bad one. */
  predicate NoBad(s: State, es: seq<Event>)
    requires CanRun(s, es)
    decreases |es|
  {
    |es| == 0 || (!Bad(s, es[0]) && NoBad(Next(s, es[0]), es[1..]))
  }

  lemma {:induction false} RunKeeps(s: State, es: seq<Event>)
    requires Inv(s) && CanRun(s, es) && NoBad(s, es)
    ensures Inv(Run(s, es))
    decreases |es|
  {
    if |es| > 0 {
      StepKeeps(s, es[0]);
      RunKeeps(Next(s, es[0]), es[1..]);
    }
  }

  ghost function Holders(s: State, m: LockId): set<Task> {
    set t | t in s.live && t in s.held && m in s.held[t]
  }

  /** The lock word and the tasks that hold the mutex, one handed to a waiter included, add up to one. */
  lemma WordAndHolders(s: State, m: LockId)
    requires Inv(s) && m in s.locks
    ensures s.locks[m].word + |Holders(s, m)| == 1
  {
    assert LockOk(s, m);
    forall t | t in s.live ensures t in Holders(s, m) <==> s.locks[m].owner == Some(t) { assert Agree(s, t, m); }
    if s.locks[m].owner.Some? {
      assert Holders(s, m) == {s.locks[m].owner.value};
    } else {
      assert Holders(s, m) == {};
    }
  }

  /** A mutex with waiters is taken, and the next task to get it is the one that waited longest. */
  lemma NoOvertaking(s: State, e: Event, m: LockId)
    requires Inv(s) && Enabled(s, e) && m in s.locks && |s.locks[m].queue| > 0
    ensures s.locks[m].word == 0
    ensures m in Next(s, e).locks
    ensures var l, l' := s.locks[m], Next(s, e).locks[m];
      || l'.owner == l.owner
      || (l'.owner == Some(l.queue[0]) && l'.queue == l.queue[1..] && l'.granted == l.granted + [l.queue[0]])
  {
    assert LockOk(s, m);
    if Known(s) { assert Agree(s, s.current, m); }
  }

  /** Waiters are served in the order they came, over the whole history of a mutex. */
  lemma ServedInOrder(s: State, m: LockId)
    requires Inv(s) && m in s.locks
    ensures s.locks[m].arrived == s.locks[m].granted + s.locks[m].queue && Unique(s.locks[m].queue)
  {
    assert LockOk(s, m);
  }

  /** mutex_lock() returns, on either path, only to the task that has the mutex. */
  lemma LockReturnsToOwner(s: State, e: Event)
    requires Inv(s) && Enabled(s, e) && (e.Return? || e.Swap? || e.DropSpin?) && !s.pc[s.current].Dropping?
    requires Next(s, e).pc[s.current] == Running
    ensures var m := s.pc[s.current].m;
      m in s.locks && Next(s, e).locks[m].owner == Some(s.current) && m in Next(s, e).held[s.current]
  {
    assert PlaceOk(s, s.current);
    assert Agree(s, s.current, s.pc[s.current].m);
  }

  /** No wakeup is lost: a sleeper is queued behind a live holder, or has the mutex and will run. */
  lemma NoLostWakeup(s: State, t: Task)
    requires Inv(s) && t in s.live && s.pc[t].Asleep?
    ensures s.pc[t].m in s.locks
    ensures var l := s.locks[s.pc[t].m];
      if t in l.queue then l.owner.Some? && l.owner.value in s.live
      else l.owner == Some(t) && (t == s.current || t in s.runnable || Handed(s, t))
  {
    assert PlaceOk(s, t);
    assert LockOk(s, s.pc[t].m) && Agree(s, t, s.pc[t].m);
  }

  // ---- Dispatch ----

  /** Nobody's slice ends later than a full slice from now. */
  ghost predicate SlicesOk(s: State) {
    forall t {:trigger s.sliceEnd[t]} :: t in s.sliceEnd ==> s.sliceEnd[t] <= s.ticks + TICKS_PER_SLICE
  }

  lemma SchedSlices(s: State, force: nat)
    requires SlicesOk(s)
    ensures SlicesOk(Sched(s, force))
  {
  }

  lemma StepSlices(s: State, e: Event)
    requires SlicesOk(s) && Enabled(s, e)
    ensures SlicesOk(Next(s, e))
  {
    match e {
      case Exit => SchedSlices(s.(live := s.live - {s.current}), Forced(s));
      case Block => SchedSlices(Go(s, Asleep(s.pc[s.current].m)), Forced(s));
      case Yield => PreemptSlices(s);
      case Tick => PreemptSlices(s.(ticks := s.ticks + 1));
      case _ =>
    }
  }

  lemma PreemptSlices(s: State)
    requires SlicesOk(s)
    ensures SlicesOk(Preempt(s))
  {
    SchedSlices(s, 0);
    SchedSlices(Queued(s, s.current), Forced(s));
  }

  /** The timer gives the CPU to the task that has been runnable longest, never to the idle task
      while another can run, and only every third tick; the run queue is served in order. */
  lemma TimerPicksHead(s: State)
    requires Inv(s) && SlicesOk(s)
    requires s.current in s.pc && HalfLinked(s.pc[s.current]) ==> s.current == IDLE
    ensures var n := Next(s, Tick);
      var q := if s.current == IDLE then s.runnable else s.runnable + [s.current];
      if (s.ticks + 1) % 3 != 0 then n == s.(ticks := s.ticks + 1)
      else if |q| == 0 then n == s.(ticks := s.ticks + 1)
      else n.current == q[0] && n.runnable == q[1..] && n.sliceEnd == s.sliceEnd[q[0] := s.ticks + 4]
    ensures Next(s, Tick).queued == Next(s, Tick).dispatched + Next(s, Tick).runnable
  {
    if s.current in s.sliceEnd { assert s.sliceEnd[s.current] <= s.ticks + TICKS_PER_SLICE; }
    var u := s.(ticks := s.ticks + 1);
    if u.ticks % 3 != 0 { return; }
    RingEmpty(s.list, s.runnable);
    if s.current != IDLE {
      AddTailRing(s.list, s.runnable, s.current);
      RingEmpty(AddTail(s.list, s.current), s.runnable + [s.current]);
    }
    assert Next(s, Tick) == Preempt(u);
  }

  /** A task that gives up the CPU hands it to the task that has been runnable longest; to the idle
      task if there is none, or if it got the CPU in this very tick. */
  lemma SwitchesTo(s: State, e: Event)
    requires Inv(s) && Enabled(s, e) && (e.Yield? || e.Exit? || e.Block?)
    ensures var n, q := Next(s, e), if e.Yield? then s.runnable + [s.current] else s.runnable;
      if (s.current in s.sliceEnd && s.sliceEnd[s.current] >= s.ticks + 3) || q == [] then
        n.current == IDLE && n.runnable == q && n.sliceEnd == s.sliceEnd && Ring(n.list, q)
      else
        n.current == q[0] && n.runnable == q[1..] && n.sliceEnd == s.sliceEnd[q[0] := s.ticks + 3]
        && Ring(n.list, q[1..])
    ensures Next(s, e).live == if e.Exit? then s.live - {s.current} else s.live
    ensures Next(s, e).pc == if e.Block? then s.pc[s.current := Asleep(s.pc[s.current].m)] else s.pc
    ensures Next(s, e).locks == s.locks && Next(s, e).held == s.held && Next(s, e).ticks == s.ticks
  {
    NoHalf(s);
    var u := if e.Yield? then Queued(s, s.current) else s;
    if e.Yield? { QueuedReady(s); }
    RingEmpty(u.list, u.runnable);
    if u.runnable != [] { DeleteRing(u.list, u.runnable); }
  }
}
