/** Runs in which the timer interrupts list_add_tail() on the run queue, or a task between queueing
    itself on a mutex and blocking (cp/nucleus/sched.c, cp/nucleus/mutex.c). */
module LostTasks {
  import opened Common
  import opened RunQueue
  import opened Mutex

  lemma {:induction false} RunSnoc(s: State, es: seq<Event>, e: Event)
    requires CanRun(s, es) && Enabled(Run(s, es), e)
    ensures CanRun(s, es + [e]) && Run(s, es + [e]) == Next(Run(s, es), e)
    decreases |es|
  {
    if |es| > 0 {
      RunSnoc(Next(s, es[0]), es[1..], e);
      assert (es + [e])[1..] == es[1..] + [e];
    } else {
      assert (es + [e])[1..] == [];
    }
  }

  /** The timer takes the CPU from a task between queueing itself on a mutex and blocking. */
  predicate QueueSwitch(s: State, e: Event) {
    SwitchesInWindow(s, e) && InWindow(s.pc[s.current])
  }

  predicate NoQueueSwitch(s: State, es: seq<Event>)
    requires CanRun(s, es)
    decreases |es|
  {
    |es| == 0 || (!QueueSwitch(s, es[0]) && NoQueueSwitch(Next(s, es[0]), es[1..]))
  }

  lemma {:induction false} NoneSnoc(s: State, es: seq<Event>, e: Event)
    requires CanRun(s, es) && Enabled(Run(s, es), e) && NoQueueSwitch(s, es) && !QueueSwitch(Run(s, es), e)
    ensures CanRun(s, es + [e]) && NoQueueSwitch(s, es + [e])
    decreases |es|
  {
    RunSnoc(s, es, e);
    if |es| > 0 {
      NoneSnoc(Next(s, es[0]), es[1..], e);
      assert (es + [e])[1..] == es[1..] + [e];
    } else {
      assert (es + [e])[1..] == [];
    }
  }

  /** There is a run from `s` to `n`; if `calm`, one without a switch between queueing and blocking. */
  ghost predicate Reaches(s: State, n: State, calm: bool) {
    exists es :: CanRun(s, es) && Run(s, es) == n && (calm ==> NoQueueSwitch(s, es))
  }

  lemma ReachStep(s: State, calm: bool, n: State, e: Event)
    requires Reaches(s, n, calm) && Enabled(n, e) && (calm ==> !QueueSwitch(n, e))
    ensures Reaches(s, Next(n, e), calm)
  {
    var es :| CanRun(s, es) && Run(s, es) == n && (calm ==> NoQueueSwitch(s, es));
    RunSnoc(s, es, e);
    if calm { NoneSnoc(s, es, e); }
  }

  lemma ReachNext(s: State, calm: bool, n: State, e: Event)
    requires Reaches(s, n, calm) && Enabled(n, e) && !e.Tick?
    ensures Reaches(s, Next(n, e), calm)
  {
    ReachStep(s, calm, n, e);
  }

  /** A tick that does not end a slice, or not that of a task queued on a mutex. */
  lemma ReachTick(s: State, calm: bool, n: State)
    requires Reaches(s, n, calm)
    requires (n.ticks + 1) % TICKS_PER_SLICE == 0 && calm ==> n.current in n.pc && !InWindow(n.pc[n.current])
    ensures Reaches(s, DoTick(n), calm)
  {
    ReachStep(s, calm, n, Tick);
  }

  lemma ReachThree(s: State, calm: bool, n: State, a: Event, b: Event, c: Event)
    requires Reaches(s, n, calm) && Enabled(n, a) && Enabled(Next(n, a), b) && Enabled(Next(Next(n, a), b), c)
    requires !a.Tick? && !b.Tick? && !c.Tick?
    ensures Reaches(s, Next(Next(Next(n, a), b), c), calm)
  {
    ReachNext(s, calm, n, a);
    ReachNext(s, calm, Next(n, a), b);
    ReachNext(s, calm, Next(Next(n, a), b), c);
  }

  // ---- The steps of the two runs ----

  /** Task `t` runs, `q` are runnable; `l` is mutex 0 with its word, queue and owner. */
  ghost predicate Turn(s: State, t: Task, q: seq<Task>, ticks: nat, p1: Pc, p2: Pc, l: Lock) {
    && s.current == t && s.runnable == q && Ring(s.list, q) && s.ticks == ticks && s.live == {1, 2}
    && IDLE in s.pc && s.pc[IDLE] == Running && 1 in s.pc && s.pc[1] == p1 && 2 in s.pc && s.pc[2] == p2
    && 0 in s.locks && s.locks[0] == l && 1 in s.held && 2 in s.held && (l.owner == Some(1) ==> 0 in s.held[1])
    && (t in s.sliceEnd ==> s.sliceEnd[t] <= ticks + TICKS_PER_SLICE)
  }

  const FREE := Lock(1, None, [], None, [], [])
  const TAKEN := Lock(0, None, [], Some(1), [], [])
  const WAITED := Lock(0, None, [2], Some(1), [2], [])

  /** The four stores of an insertion that is not interrupted. */
  lemma Inserted(s: State, calm: bool, n0: State) returns (n: State)
    requires Reaches(s, n0, calm) && CanWake(n0)
    ensures Reaches(s, n, calm)
    ensures var t := n0.pc[n0.current].task;
      n == n0.(list := AddTail(n0.list, t), pc := n0.pc[n0.current := Running],
               runnable := n0.runnable + [t], queued := n0.queued + [t])
  {
    ReachNext(s, calm, n0, Wake);
    n := DoWake(n0);
    ReachThree(s, calm, n, Link, Link, Link);
    n := DoLink(DoLink(DoLink(n)));
    ReachNext(s, calm, n, Link);
    n := DoLink(n);
    assert n.pc == n0.pc[n0.current := Running];
  }

  /** The boot code creates a task and puts it on the run queue. */
  lemma CreatedOne(s: State, calm: bool, n0: State, t: Task) returns (n: State)
    requires Reaches(s, n0, calm) && CanCreate(n0, t) && n0.current == IDLE && Ring(n0.list, n0.runnable)
    requires t !in n0.runnable
    ensures Reaches(s, n, calm) && Ring(n.list, n.runnable)
    ensures n == n0.(live := n0.live + {t}, list := n.list, runnable := n0.runnable + [t], queued := n0.queued + [t],
                     pc := n0.pc[t := Running], held := n0.held[t := {}], sliceEnd := n0.sliceEnd[t := 0])
  {
    ReachNext(s, calm, n0, Create(t));
    AddTailRing(n0.list, n0.runnable, t);
    n := Inserted(s, calm, DoCreate(n0, t));
    assert n.pc == n0.pc[t := Running];
  }

  lemma Created(s: State, calm: bool) returns (n: State)
    requires Initial(s) && 0 in s.locks
    ensures Reaches(s, n, calm) && Turn(n, IDLE, [1, 2], 0, Running, Running, FREE) && IDLE !in n.sliceEnd
  {
    assert CanRun(s, []) && Run(s, []) == s;
    assert Ring(s.list, []);
    n := CreatedOne(s, calm, s, 1);
    n := CreatedOne(s, calm, n, 2);
  }

  lemma QuietTick(s: State, calm: bool, n0: State)
    requires Reaches(s, n0, calm) && n0.ticks % 3 < 2
    ensures Reaches(s, n0.(ticks := n0.ticks + 1), calm)
  {
    ReachTick(s, calm, n0);
  }

  lemma LastTick(s: State, calm: bool, n0: State, u: Task, q: seq<Task>, p1: Pc, p2: Pc, l: Lock) returns (n: State)
    requires Reaches(s, n0, calm) && Turn(n0, n0.current, [u] + q, n0.ticks, p1, p2, l) && n0.ticks % 3 == 2
    requires u != IDLE
    requires n0.current == IDLE || (n0.current > HEAD && n0.current in n0.sliceEnd && n0.current !in [u] + q)
    requires calm ==> n0.current in n0.pc && !InWindow(n0.pc[n0.current])
    ensures Reaches(s, n, calm) && u in n.sliceEnd
    ensures Turn(n, u, if n0.current == IDLE then q else q + [n0.current], n0.ticks + 1, p1, p2, l)
  {
    ReachTick(s, calm, n0);
    n := DoTick(n0);
    var q0 := [u] + q;
    if n0.current != IDLE {
      AddTailRing(n0.list, q0, n0.current);
      DeleteRing(AddTail(n0.list, n0.current), q0 + [n0.current]);
    } else {
      DeleteRing(n0.list, q0);
    }
    assert q0[1..] == q && (q0 + [n0.current])[1..] == q + [n0.current];
  }

  /** Three ticks end a slice. */
  lemma SliceEnds(s: State, calm: bool, n0: State, u: Task, q: seq<Task>, p1: Pc, p2: Pc, l: Lock) returns (n: State)
    requires Reaches(s, n0, calm) && Turn(n0, n0.current, [u] + q, n0.ticks, p1, p2, l) && n0.ticks % 3 == 0
    requires u != IDLE
    requires n0.current == IDLE || (n0.current > HEAD && n0.current in n0.sliceEnd && n0.current !in [u] + q)
    requires calm ==> n0.current in n0.pc && !InWindow(n0.pc[n0.current])
    ensures Reaches(s, n, calm) && u in n.sliceEnd
    ensures Turn(n, u, if n0.current == IDLE then q else q + [n0.current], n0.ticks + 3, p1, p2, l)
  {
    QuietTick(s, calm, n0);
    QuietTick(s, calm, n0.(ticks := n0.ticks + 1));
    n := LastTick(s, calm, n0.(ticks := n0.ticks + 2), u, q, p1, p2, l);
  }

  lemma Locked(s: State, calm: bool, n0: State) returns (n: State)
    requires Reaches(s, n0, calm) && Turn(n0, 1, [2], 3, Running, Running, FREE) && 1 in n0.sliceEnd
    ensures Reaches(s, n, calm) && Turn(n, 1, [2], 3, Running, Running, TAKEN) && 1 in n.sliceEnd
  {
    ReachThree(s, calm, n0, LockCall(0), Read, Swap);
    n := Next(Next(Next(n0, LockCall(0)), Read), Swap);
  }

  lemma SlowPath(s: State, calm: bool, n0: State) returns (n: State)
    requires Reaches(s, n0, calm) && Turn(n0, 2, [1], 6, Running, Running, TAKEN) && 2 in n0.sliceEnd
    ensures Reaches(s, n, calm) && 2 in n.sliceEnd
    ensures Turn(n, 2, [1], 6, Running, Reading(0, true), TAKEN.(spin := Some(2)))
  {
    ReachThree(s, calm, n0, LockCall(0), Read, TakeSpin);
    n := Next(Next(Next(n0, LockCall(0)), Read), TakeSpin);
  }

  lemma EnqueuedFrom(s: State, calm: bool, n0: State) returns (n: State)
    requires Reaches(s, n0, calm) && 2 in n0.sliceEnd
    requires Turn(n0, 2, [1], 6, Running, Queueing(0), TAKEN.(spin := Some(2)))
    ensures Reaches(s, n, calm) && Turn(n, 2, [1], 6, Running, Blocking(0), WAITED) && 2 in n.sliceEnd
  {
    ReachNext(s, calm, n0, Enqueue);
    n := DoEnqueue(n0);
    ReachNext(s, calm, n, DropSpin);
    n := DoDropSpin(n);
  }

  lemma Enqueued(s: State, calm: bool, n0: State) returns (n: State)
    requires Reaches(s, n0, calm) && 2 in n0.sliceEnd
    requires Turn(n0, 2, [1], 6, Running, Reading(0, true), TAKEN.(spin := Some(2)))
    ensures Reaches(s, n, calm) && Turn(n, 2, [1], 6, Running, Blocking(0), WAITED) && 2 in n.sliceEnd
  {
    ReachNext(s, calm, n0, Read);
    n := DoRead(n0);
    n := EnqueuedFrom(s, calm, n);
  }

  lemma SpinTaken(s: State, calm: bool, n0: State, q: seq<Task>, ticks: nat, p2: Pc) returns (n: State)
    requires Reaches(s, n0, calm) && Turn(n0, 1, q, ticks, Running, p2, WAITED)
    ensures Reaches(s, n, calm) && n.sliceEnd == n0.sliceEnd
    ensures Turn(n, 1, q, ticks, Checking(0), p2, WAITED.(spin := Some(1)))
  {
    ReachNext(s, calm, n0, UnlockCall(0));
    n := Go(n0, Unlocking(0));
    ReachNext(s, calm, n, TakeSpin);
    n := DoTakeSpin(n);
  }

  lemma HandedOver(s: State, calm: bool, n0: State, q: seq<Task>, ticks: nat, p2: Pc) returns (n: State)
    requires Reaches(s, n0, calm) && Turn(n0, 1, q, ticks, Running, p2, WAITED)
    ensures Reaches(s, n, calm) && n.sliceEnd == n0.sliceEnd
    ensures Turn(n, 1, q, ticks, Dropping(0, Some(2)), p2, Lock(0, Some(1), [], Some(2), [2], [2]))
  {
    n := SpinTaken(s, calm, n0, q, ticks, p2);
    ReachNext(s, calm, n, Check);
    n := DoCheck(n);
  }

  /** Task 1 unlocks and takes task 2 off the mutex queue; it is about to put it on the run queue. */
  lemma Unlocked(s: State, calm: bool, n0: State, q: seq<Task>, ticks: nat, p2: Pc) returns (n: State)
    requires Reaches(s, n0, calm) && Turn(n0, 1, q, ticks, Running, p2, WAITED)
    ensures Reaches(s, n, calm) && n.sliceEnd == n0.sliceEnd
    ensures Turn(n, 1, q, ticks, Waking(2), p2, Lock(0, None, [], Some(2), [2], [2]))
  {
    n := HandedOver(s, calm, n0, q, ticks, p2);
    ReachNext(s, calm, n, DropSpin);
    n := DoDropSpin(n);
  }

  /** Task 1 gets the first slice and locks. */
  lemma UntilTaken(s: State, calm: bool) returns (n: State)
    requires Initial(s) && 0 in s.locks
    ensures Reaches(s, n, calm) && Turn(n, 1, [2], 3, Running, Running, TAKEN) && 1 in n.sliceEnd
  {
    n := Created(s, calm);
    assert [1, 2] == [1] + [2];
    n := SliceEnds(s, calm, n, 1, [2], Running, Running, FREE);
    n := Locked(s, calm, n);
  }

  /** Task 2 gets the second one and queues itself. */
  lemma UntilWindow(s: State, calm: bool) returns (n: State)
    requires Initial(s) && 0 in s.locks
    ensures Reaches(s, n, calm) && Turn(n, 2, [1], 6, Running, Blocking(0), WAITED) && 2 in n.sliceEnd
  {
    n := UntilTaken(s, calm);
    assert [2] == [2] + [];
    n := SliceEnds(s, calm, n, 2, [], Running, Running, TAKEN);
    assert [] + [1] == [1];
    n := SlowPath(s, calm, n);
    n := Enqueued(s, calm, n);
  }

  // ---- A task on the run queue twice ----

  /** Linking the only task of the run queue behind itself makes it its own successor. */
  lemma Loop(l: Links)
    requires Ring(l, [2])
    ensures First(AddTail(l, 2)) == 2 && First(Delete(AddTail(l, 2), 2)) == 2
  {
    assert NextAt(l, [2], -1) && NextAt(l, [2], 0) && PrevAt(l, [2], 0);
  }

  /** From the initial state the timer can put a task on the run queue twice: task 2 loses the CPU
      between queueing itself and blocking, and task 1 unlocks. Taking task 2 off leaves it first. */
  lemma QueuedTwice(s: State)
    requires Initial(s) && 0 in s.locks
    ensures exists n ::
      Reaches(s, n, false) && n.runnable == [2, 2] && First(n.list) == 2 && First(Delete(n.list, 2)) == 2
  {
    var n := UntilWindow(s, false);
    assert [1] == [1] + [];
    n := SliceEnds(s, false, n, 1, [], Running, Blocking(0), WAITED);
    assert [] + [2] == [2];
    n := Unlocked(s, false, n, [2], 9, Blocking(0));
    Loop(n.list);
    n := Inserted(s, false, n);
  }

  // ---- All tasks lost ----

  /** Only the idle task runs: going forward the run queue is empty, but its end is a task, and every
      insertion links behind that. */
  predicate Dead(s: State) {
    && s.current == IDLE && IDLE in s.pc && First(s.list) == HEAD && Last(s.list) != HEAD
    && match s.pc[IDLE]
       case Waking(t) => t != HEAD
       case Linking(t, tail, _) => t != HEAD && tail != HEAD
       case p => p == Running
  }

  /** Then nothing but the idle task ever runs again. */
  lemma {:induction false} DeadForever(s: State, es: seq<Event>)
    requires Dead(s) && CanRun(s, es)
    ensures Dead(Run(s, es))
    decreases |es|
  {
    if |es| > 0 { DeadForever(Next(s, es[0]), es[1..]); }
  }

  ghost predicate IdleForever(s: State) {
    forall es :: CanRun(s, es) ==> Run(s, es).current == IDLE
  }

  /** Both tasks are alive, task 2 sleeps, and mutex 0 is as given. */
  predicate LostWith(s: State, l: Lock) {
    Dead(s) && s.live == {1, 2} && 2 in s.pc && s.pc[2] == Asleep(0) && 0 in s.locks && s.locks[0] == l
  }

  /** Task 2 goes to sleep, and task 1 runs alone. */
  lemma Alone(s: State, calm: bool, n0: State) returns (n: State)
    requires Reaches(s, n0, calm) && Turn(n0, 2, [1], 6, Running, Blocking(0), WAITED) && 2 in n0.sliceEnd
    ensures Reaches(s, n, calm) && Turn(n, 1, [], 7, Running, Asleep(0), WAITED) && 1 in n.sliceEnd
  {
    QuietTick(s, calm, n0);
    n := n0.(ticks := 7);
    ReachNext(s, calm, n, Block);
    DeleteRing(n.list, [1]);
    assert [1][1..] == [];
    n := DoBlock(n);
  }

  /** Task 1 does the first store of the insertion. */
  lemma HalfInserted(s: State, calm: bool, n0: State) returns (n: State)
    requires Reaches(s, n0, calm) && n0.pc.Keys >= {n0.current} && n0.pc[n0.current] == Waking(2)
    ensures Reaches(s, n, calm)
    ensures n == n0.(list := Store(n0.list, 2, Last(n0.list), 0),
                     pc := n0.pc[n0.current := Linking(2, Last(n0.list), 1)])
  {
    ReachNext(s, calm, n0, Wake);
    n := DoWake(n0);
    ReachNext(s, calm, n, Link);
    n := DoLink(n);
  }

  /** The slice ends in the middle of the insertion. */
  lemma Interrupted(s: State, calm: bool, n0: State, l: Lock) returns (n: State)
    requires Reaches(s, n0, calm) && Turn(n0, 1, [], 7, Waking(2), Asleep(0), l) && 1 in n0.sliceEnd
    ensures Reaches(s, n, calm) && LostWith(n, l)
  {
    assert NextAt(n0.list, [], -1);
    n := HalfInserted(s, calm, n0);
    QuietTick(s, calm, n);
    n := n.(ticks := 8);
    ReachTick(s, calm, n);
    n := DoTick(n);
  }

  /** From the initial state the timer can lose every task, without a switch between queueing and
      blocking: task 1 unlocks the mutex task 2 sleeps on,
      and its slice ends between the first and the last store that put task 2 on the run queue. Task 2
      was given the mutex, nobody waits for it, and only the idle task runs from then on. */
  lemma AllLost(s: State)
    requires Initial(s) && 0 in s.locks
    ensures exists n :: Reaches(s, n, true) && LostWith(n, Lock(0, None, [], Some(2), [2], [2])) && IdleForever(n)
  {
    var n := UntilWindow(s, true);
    n := Alone(s, true, n);
    n := Unlocked(s, true, n, [], 7, Asleep(0));
    n := Interrupted(s, true, n, Lock(0, None, [], Some(2), [2], [2]));
    assert IdleForever(n) by {
      forall es | CanRun(n, es) ensures Run(n, es).current == IDLE { DeadForever(n, es); }
    }
  }
}
