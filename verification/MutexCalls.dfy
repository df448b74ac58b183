/** What the calls of a mutex do when nothing interrupts them (cp/include/mutex.h, cp/nucleus/mutex.c). */
module MutexCalls {
  import opened Common
  import opened RunQueue
  import opened Mutex

  /** Nobody waits for, holds or asks for a mutex that is not one. */
  ghost predicate OnKnown(s: State) {
    forall t {:trigger s.pc[t]} :: t in s.pc && !Plain(s.pc[t]) ==> s.pc[t].m in s.locks
  }

  lemma StepKnown(s: State, e: Event)
    requires OnKnown(s) && Enabled(s, e)
    ensures OnKnown(Next(s, e))
  {
    if e.Create? || e.Exit? || e.Yield? || e.Tick? || e.Block? || e.Link? { PlainKnown(s, e); } else {
      CallKnown(s, e);
    }
  }

  lemma PlainKnown(s: State, e: Event)
    requires OnKnown(s) && Enabled(s, e)
    requires e.Create? || e.Exit? || e.Yield? || e.Tick? || e.Block? || e.Link?
    ensures OnKnown(Next(s, e))
  {
    SameKnown(s, Next(s, e));
  }

  lemma CallKnown(s: State, e: Event)
    requires OnKnown(s) && Enabled(s, e)
    requires !e.Create? && !e.Exit? && !e.Yield? && !e.Tick? && !e.Block? && !e.Link?
    ensures OnKnown(Next(s, e))
  {
  }

  lemma SameKnown(s: State, n: State)
    requires OnKnown(s) && n.locks == s.locks
    requires forall t {:trigger n.pc[t]} :: t in n.pc ==>
      Plain(n.pc[t]) || (t in s.pc && !Plain(s.pc[t]) && n.pc[t].m == s.pc[t].m)
    ensures OnKnown(n)
  {
  }

  lemma {:induction false} RunKnown(s: State, es: seq<Event>)
    requires OnKnown(s) && CanRun(s, es)
    ensures OnKnown(Run(s, es))
    decreases |es|
  {
    if |es| > 0 { StepKnown(s, es[0]); RunKnown(Next(s, es[0]), es[1..]); }
  }

  /** Only a spin lock that is held stops the task on the CPU, and only the timer takes it away in
      the midst of a call. */
  lemma Progress(s: State)
    requires Inv(s) && OnKnown(s) && s.current != IDLE
    ensures match s.pc[s.current]
      case Running => Enabled(s, Yield)
      case Reading(_, _) => Enabled(s, Read)
      case Swapping(_, _, _) => Enabled(s, Swap)
      case Spinning(m) => m in s.locks && (Enabled(s, TakeSpin) <==> s.locks[m].spin.None?)
      case Queueing(_) => Enabled(s, Enqueue)
      case Releasing(_) => Enabled(s, DropSpin)
      case Leaving(_) => Enabled(s, DropSpin)
      case Blocking(_) => Enabled(s, Block)
      case Asleep(_) => Enabled(s, Return)
      case Unlocking(m) => m in s.locks && (Enabled(s, TakeSpin) <==> s.locks[m].spin.None?)
      case Checking(_) => Enabled(s, Check)
      case Dropping(_, _) => Enabled(s, DropSpin)
      case Waking(_) => Enabled(s, Wake)
      case Linking(_, _, _) => Enabled(s, Link)
  {
  }

  // ---- Whole calls ----

  /** One more step at the end of a run. */
  lemma {:induction false} RunSnoc(s: State, es: seq<Event>, e: Event)
    requires CanRun(s, es) && Enabled(Run(s, es), e)
    ensures CanRun(s, es + [e]) && Run(s, es + [e]) == Next(Run(s, es), e)
    decreases |es|
  {
    assert (es + [e])[0] == if |es| == 0 then e else es[0];
    assert (es + [e])[1..] == if |es| == 0 then [] else es[1..] + [e];
    if |es| > 0 { RunSnoc(Next(s, es[0]), es[1..], e); }
  }

  ghost predicate LeadsTo(s: State, es: seq<Event>, n: State) {
    CanRun(s, es) && Run(s, es) == n
  }

  /** The current task at `p` in a call on mutex `m`, which is now `l`; `h` says who holds what. */
  function View(s: State, m: LockId, l: Lock, h: map<Task, set<LockId>>, p: Pc): State {
    s.(locks := s.locks[m := l], held := h, pc := s.pc[s.current := p])
  }

  predicate In(s: State, m: LockId, h: map<Task, set<LockId>>) {
    Known(s) && m in s.locks && s.current in h
  }

  lemma Reads(s: State, es: seq<Event>, m: LockId, l: Lock, h: map<Task, set<LockId>>, slow: bool)
    requires In(s, m, h) && LeadsTo(s, es, View(s, m, l, h, Reading(m, slow)))
    ensures LeadsTo(s, es + [Read], View(s, m, l, h,
      if l.word != 0 then Swapping(m, l.word, slow) else if slow then Queueing(m) else Spinning(m)))
  {
    RunSnoc(s, es, Read);
    var p := if l.word != 0 then Swapping(m, l.word, slow) else if slow then Queueing(m) else Spinning(m);
    assert View(s, m, l, h, Reading(m, slow)).pc[s.current := p] == s.pc[s.current := p];
  }

  lemma TakesSpin(s: State, es: seq<Event>, m: LockId, l: Lock, h: map<Task, set<LockId>>, p: Pc)
    requires In(s, m, h) && l.spin.None? && (p == Spinning(m) || p == Unlocking(m))
    requires LeadsTo(s, es, View(s, m, l, h, p))
    ensures LeadsTo(s, es + [TakeSpin], View(s, m, l.(spin := Some(s.current)), h,
      if p.Spinning? then Reading(m, true) else Checking(m)))
  {
    RunSnoc(s, es, TakeSpin);
    var x := l.(spin := Some(s.current));
    var q := if p.Spinning? then Reading(m, true) else Checking(m);
    assert s.locks[m := l][m := x] == s.locks[m := x];
    assert s.pc[s.current := p][s.current := q] == s.pc[s.current := q];
  }

  lemma Enqueues(s: State, es: seq<Event>, m: LockId, l: Lock, h: map<Task, set<LockId>>)
    requires In(s, m, h) && LeadsTo(s, es, View(s, m, l, h, Queueing(m)))
    ensures LeadsTo(s, es + [Enqueue],
      View(s, m, l.(queue := l.queue + [s.current], arrived := l.arrived + [s.current]), h, Leaving(m)))
  {
    RunSnoc(s, es, Enqueue);
    var x := l.(queue := l.queue + [s.current], arrived := l.arrived + [s.current]);
    assert s.locks[m := l][m := x] == s.locks[m := x];
    assert s.pc[s.current := Queueing(m)][s.current := Leaving(m)] == s.pc[s.current := Leaving(m)];
  }

  lemma DropsSpin(s: State, es: seq<Event>, m: LockId, l: Lock, h: map<Task, set<LockId>>, p: Pc)
    requires In(s, m, h) && (p == Leaving(m) || (p.Dropping? && p.m == m))
    requires LeadsTo(s, es, View(s, m, l, h, p))
    ensures LeadsTo(s, es + [DropSpin], View(s, m, l.(spin := None), h,
      if p.Leaving? then Blocking(m) else if p.next.None? then Running else Waking(p.next.value)))
  {
    RunSnoc(s, es, DropSpin);
    var x := l.(spin := None);
    var q := if p.Leaving? then Blocking(m) else if p.next.None? then Running else Waking(p.next.value);
    assert s.locks[m := l][m := x] == s.locks[m := x];
    assert s.pc[s.current := p][s.current := q] == s.pc[s.current := q];
  }

  /** Taking a free mutex takes three steps and no spin lock, and makes the task its holder. */
  lemma FastPath(s: State, m: LockId)
    requires CanCall(s, m) && s.locks[m].word == 1
    ensures LeadsTo(s, [LockCall(m), Read, Swap],
      s.(locks := s.locks[m := s.locks[m].(word := 0, owner := Some(s.current))],
         held := s.held[s.current := s.held[s.current] + {m}]))
  {
    var l, n := s.locks[m], Acquire(s, m);
    Called(s, LockCall(m), m, Reading(m, false));
    Reads(s, [LockCall(m)], m, l, s.held, false);
    var b := View(s, m, l, s.held, Swapping(m, 1, false));
    assert [LockCall(m)] + [Read] + [Swap] == [LockCall(m), Read, Swap];
    RunSnoc(s, [LockCall(m)] + [Read], Swap);
    assert b.locks[m := n.locks[m]] == n.locks && b.pc[s.current := Running] == n.pc;
  }

  lemma Called(s: State, e: Event, m: LockId, p: Pc)
    requires (e == LockCall(m) && p == Reading(m, false)) || (e == UnlockCall(m) && p == Unlocking(m))
    requires Enabled(s, e)
    ensures LeadsTo(s, [e], View(s, m, s.locks[m], s.held, p))
  {
    assert [] + [e] == [e];
    RunSnoc(s, [], e);
    assert s.locks[m := s.locks[m]] == s.locks;
  }

  /** A task that finds the mutex taken is last on its queue when it gives up the CPU. */
  lemma SlowPath(s: State, m: LockId)
    requires CanCall(s, m) && s.locks[m].word == 0 && s.locks[m].spin.None?
    ensures var l := s.locks[m];
      LeadsTo(s, [LockCall(m), Read, TakeSpin, Read, Enqueue, DropSpin],
        s.(locks := s.locks[m := l.(queue := l.queue + [s.current], arrived := l.arrived + [s.current])],
           pc := s.pc[s.current := Blocking(m)]))
  {
    var l, t := s.locks[m], s.current;
    var mine := l.(spin := Some(t));
    Called(s, LockCall(m), m, Reading(m, false));
    var es := [LockCall(m)];
    Reads(s, es, m, l, s.held, false);
    TakesSpin(s, es + [Read], m, l, s.held, Spinning(m));
    Reads(s, es + [Read] + [TakeSpin], m, mine, s.held, true);
    Enqueues(s, es + [Read] + [TakeSpin] + [Read], m, mine, s.held);
    DropsSpin(s, es + [Read] + [TakeSpin] + [Read] + [Enqueue], m,
      mine.(queue := l.queue + [t], arrived := l.arrived + [t]), s.held, Leaving(m));
    assert es + [Read] + [TakeSpin] + [Read] + [Enqueue] + [DropSpin]
      == [LockCall(m), Read, TakeSpin, Read, Enqueue, DropSpin];
  }

  /** What the owner leaves of a mutex: free, or given to the task that waited longest. */
  function Left(l: Lock): Lock {
    if l.queue == [] then l.(word := l.word + 1, owner := None)
    else l.(queue := l.queue[1..], owner := Some(l.queue[0]), granted := l.granted + [l.queue[0]])
  }

  function LeftHeld(s: State, m: LockId): map<Task, set<LockId>>
    requires CanUnlock(s, m)
  {
    var l, h := s.locks[m], s.held[s.current := s.held[s.current] - {m}];
    if l.queue == [] then h
    else h[l.queue[0] := (if l.queue[0] in h then h[l.queue[0]] else {}) + {m}]
  }

  lemma Unlocks(s: State, m: LockId)
    requires CanUnlock(s, m) && s.locks[m].spin.None?
    ensures var l := s.locks[m];
      LeadsTo(s, [UnlockCall(m), TakeSpin, Check, DropSpin],
        View(s, m, Left(l), LeftHeld(s, m), if l.queue == [] then Running else Waking(l.queue[0])))
  {
    var l, h := s.locks[m], LeftHeld(s, m);
    var mine := l.(spin := Some(s.current));
    var es := [UnlockCall(m)];
    Called(s, UnlockCall(m), m, Unlocking(m));
    TakesSpin(s, es, m, l, s.held, Unlocking(m));
    var p := Dropping(m, if l.queue == [] then None else Some(l.queue[0]));
    Checks(s, es + [TakeSpin], m);
    DropsSpin(s, es + [TakeSpin] + [Check], m, Left(mine), h, p);
    assert Left(mine).(spin := None) == Left(l);
    assert es + [TakeSpin] + [Check] + [DropSpin] == [UnlockCall(m), TakeSpin, Check, DropSpin];
  }

  lemma Checks(s: State, es: seq<Event>, m: LockId)
    requires CanUnlock(s, m)
    requires LeadsTo(s, es, View(s, m, s.locks[m].(spin := Some(s.current)), s.held, Checking(m)))
    ensures var l := s.locks[m];
      LeadsTo(s, es + [Check], View(s, m, Left(l.(spin := Some(s.current))), LeftHeld(s, m),
        Dropping(m, if l.queue == [] then None else Some(l.queue[0]))))
  {
    RunSnoc(s, es, Check);
    var l := s.locks[m];
    var mine := l.(spin := Some(s.current));
    var p := Dropping(m, if l.queue == [] then None else Some(l.queue[0]));
    assert s.locks[m := mine][m := Left(mine)] == s.locks[m := Left(mine)];
    assert s.pc[s.current := Checking(m)][s.current := p] == s.pc[s.current := p];
  }

  /** Giving up a mutex nobody waits for frees it. */
  lemma FreePath(s: State, m: LockId)
    requires CanUnlock(s, m) && s.locks[m].spin.None? && s.locks[m].queue == []
    ensures LeadsTo(s, [UnlockCall(m), TakeSpin, Check, DropSpin],
      s.(locks := s.locks[m := s.locks[m].(word := s.locks[m].word + 1, owner := None)],
         held := s.held[s.current := s.held[s.current] - {m}]))
  {
    Unlocks(s, m);
    assert s.pc[s.current := Running] == s.pc;
  }

  /** Giving up a mutex hands it to the task that waited longest, which is put behind all others on
      the run queue; the mutex is never free in between. */
  lemma HandOver(s: State, m: LockId)
    requires Inv(s) && CanUnlock(s, m) && s.locks[m].spin.None? && |s.locks[m].queue| > 0
    ensures var l, t := s.locks[m], s.locks[m].queue[0];
      t in s.held && Ring(AddTail(s.list, t), s.runnable + [t])
        && LeadsTo(s, [UnlockCall(m), TakeSpin, Check, DropSpin, Wake, Link, Link, Link, Link],
        s.(locks := s.locks[m := l.(queue := l.queue[1..], owner := Some(t), granted := l.granted + [t])],
           held := s.held[s.current := s.held[s.current] - {m}][t := s.held[t] + {m}],
           list := AddTail(s.list, t), runnable := s.runnable + [t], queued := s.queued + [t]))
  {
    var l, t := s.locks[m], s.locks[m].queue[0];
    WaiterAsleep(s, m);
    AddTailRing(s.list, s.runnable, t);
    Unlocks(s, m);
    var n := s.(locks := s.locks[m := Left(l)], held := LeftHeld(s, m));
    Woken(s, [UnlockCall(m), TakeSpin, Check, DropSpin], n, t);
    assert [UnlockCall(m), TakeSpin, Check, DropSpin] + [Wake, Link, Link, Link, Link]
      == [UnlockCall(m), TakeSpin, Check, DropSpin, Wake, Link, Link, Link, Link];
  }

  lemma WaiterAsleep(s: State, m: LockId)
    requires Inv(s) && At(s, Running) && m in s.locks && |s.locks[m].queue| > 0
    ensures var t := s.locks[m].queue[0]; t in s.held && t in s.live && t != s.current && t !in s.runnable
  {
    var t := s.locks[m].queue[0];
    assert LockOk(s, m) && t in s.locks[m].queue;
    assert Agree(s, t, m) && PlaceOk(s, t);
  }

  lemma LinksOn(s: State, es: seq<Event>, n: State, t: Task, z: Node, k: nat)
    requires LeadsTo(s, es, Go(n, Linking(t, z, k))) && Known(n) && k < 3
    ensures LeadsTo(s, es + [Link], Go(n.(list := Store(n.list, t, z, k)), Linking(t, z, k + 1)))
  {
    RunSnoc(s, es, Link);
    assert Go(n, Linking(t, z, k)).pc[n.current := Linking(t, z, k + 1)] == n.pc[n.current := Linking(t, z, k + 1)];
  }

  /** A task that is not interrupted puts another at the end of the run queue. */
  lemma Woken(s: State, es: seq<Event>, n: State, t: Task)
    requires LeadsTo(s, es, Go(n, Waking(t))) && At(n, Running)
    ensures LeadsTo(s, es + [Wake, Link, Link, Link, Link],
      n.(list := AddTail(n.list, t), runnable := n.runnable + [t], queued := n.queued + [t]))
  {
    var z := Last(n.list);
    var l1 := Store(n.list, t, z, 0);
    var l2 := Store(l1, t, z, 1);
    var l3 := Store(l2, t, z, 2);
    WakeStarts(s, es, n, t);
    LinksOn(s, es + [Wake], n, t, z, 0);
    LinksOn(s, es + [Wake] + [Link], n.(list := l1), t, z, 1);
    LinksOn(s, es + [Wake] + [Link] + [Link], n.(list := l2), t, z, 2);
    WakeEnds(s, es + [Wake] + [Link] + [Link] + [Link], n.(list := l3), t, z);
    assert es + [Wake] + [Link] + [Link] + [Link] + [Link] == es + [Wake, Link, Link, Link, Link];
  }

  lemma WakeStarts(s: State, es: seq<Event>, n: State, t: Task)
    requires LeadsTo(s, es, Go(n, Waking(t))) && Known(n)
    ensures LeadsTo(s, es + [Wake], Go(n, Linking(t, Last(n.list), 0)))
  {
    RunSnoc(s, es, Wake);
    var p := Linking(t, Last(n.list), 0);
    assert Go(n, Waking(t)).pc[n.current := p] == n.pc[n.current := p];
  }

  lemma WakeEnds(s: State, es: seq<Event>, n: State, t: Task, z: Node)
    requires LeadsTo(s, es, Go(n, Linking(t, z, 3))) && At(n, Running)
    ensures LeadsTo(s, es + [Link],
      n.(list := Store(n.list, t, z, 3), runnable := n.runnable + [t], queued := n.queued + [t]))
  {
    RunSnoc(s, es, Link);
    assert Go(n, Linking(t, z, 3)).pc[n.current := Running] == n.pc;
  }
}
