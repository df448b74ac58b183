/** Where each task is, and exactly which runs keep every task in one place
    (cp/nucleus/mutex.c, cp/nucleus/sched.c, include/list.h). */
module Places {
  import opened Common
  import opened RunQueue
  import opened Mutex

  datatype Place = Cpu | OnRunQueue | OnMutexQueue(m: LockId) | Hands(u: Task)

  /** On the run queue is what going forward from its head leads to. On a mutex queue counts once the
      task has left the CPU. A task that is being linked into the run queue is in the hands of the
      task that does it while that one has the CPU and links it behind the last task. */
  ghost predicate IsAt(s: State, t: Task, p: Place) {
    match p
    case Cpu => t == s.current
    case OnRunQueue => OnList(s.list, t)
    case OnMutexQueue(m) => m in s.locks && t in s.locks[m].queue && t != s.current
    case Hands(u) =>
      && u in s.pc && Gives(s.pc[u], t)
      && (HalfLinked(s.pc[u]) ==> u == s.current && AtEnd(s.list, s.pc[u].tail))
  }

  ghost predicate OnePlace(s: State, t: Task) {
    && (exists p :: IsAt(s, t, p))
    && (forall p, p' :: IsAt(s, t, p) && IsAt(s, t, p') ==> p == p')
  }

  ghost predicate AllPlaced(s: State) {
    forall t :: t in s.live ==> OnePlace(s, t)
  }

  /** The run queue's chain is the tasks recorded, whether or not one more is being linked. */
  lemma Chain(s: State, t: Task)
    requires Inv(s)
    ensures Nodes(s.runnable) && Forward(s.list, s.runnable)
    ensures OnList(s.list, t) <==> t in s.runnable
  {
    OnListIs(s.list, s.runnable, t);
  }

  lemma PlacesApart(s: State, t: Task, p: Place, p': Place)
    requires Inv(s) && t in s.live && IsAt(s, t, p) && IsAt(s, t, p')
    ensures p == p'
  {
    Chain(s, t);
    assert PlaceOk(s, t);
    if p.OnMutexQueue? { assert LockOk(s, p.m) && Agree(s, t, p.m); }
    if p'.OnMutexQueue? { assert LockOk(s, p'.m) && Agree(s, t, p'.m); }
    if p.Hands? { assert GiveOk(s, p.u, t); }
    if p'.Hands? { assert GiveOk(s, p'.u, t); }
  }

  lemma InvOnePlace(s: State, t: Task)
    requires Inv(s) && t in s.live
    ensures OnePlace(s, t)
  {
    assert PlaceOk(s, t);
    Chain(s, t);
    if t == s.current { assert IsAt(s, t, Cpu); }
    else if t in s.runnable { assert IsAt(s, t, OnRunQueue); }
    else if Stuck(s, t) { assert IsAt(s, t, OnMutexQueue(s.pc[t].m)); }
    else {
      var u :| u in s.pc && Gives(s.pc[u], t);
      assert GiveOk(s, u, t);
      if HalfLinked(s.pc[u]) { AtEndIs(s.list, s.runnable, s.pc[u].tail); }
      assert IsAt(s, t, Hands(u));
    }
    forall p, p' | IsAt(s, t, p) && IsAt(s, t, p') ensures p == p' { PlacesApart(s, t, p, p'); }
  }

  // ---- What the bad steps do ----

  lemma SwitchIs(s: State)
    requires Inv(s) && SwitchesInWindow(s, Tick)
    ensures var u := s.(ticks := s.ticks + 1);
      Inv(u) && Next(s, Tick) == Preempt(u) && s.runnable == u.runnable && s.list == u.list
  {
    TickCounted(s);
  }

  /** The timer takes a task queued on a mutex off the CPU: it is then on the run queue, too. */
  lemma TwoPlaces(s: State)
    requires Inv(s) && SwitchesInWindow(s, Tick) && InWindow(s.pc[s.current])
    ensures s.current in Next(s, Tick).live && !OnePlace(Next(s, Tick), s.current)
  {
    var t, n, u := s.current, Next(s, Tick), s.(ticks := s.ticks + 1);
    SwitchIs(s);
    assert PlaceOk(s, t);
    QueuedReady(u);
    SchedTables(Queued(u, t), Forced(u));
    assert t in Queued(u, t).runnable;
    OnListIs(n.list, n.runnable, t);
    assert IsAt(n, t, OnRunQueue) && IsAt(n, t, OnMutexQueue(s.pc[t].m));
  }

  /** The run queue after the CPU was lost in the middle of an insertion: going forward leads to no
      task that was not on it before. */
  lemma BehindHalf(s: State)
    requires Inv(s) && s.current in s.pc && HalfLinked(s.pc[s.current])
    ensures forall t {:trigger OnList(Preempt(s).list, t)} :: OnList(Preempt(s).list, t) ==> t in s.runnable
  {
    var p, n := s.pc[s.current], Preempt(s);
    var l := if s.current == IDLE then s.list else AddTail(s.list, s.current);
    assert GiveOk(s, s.current, p.task);
    if s.current != IDLE { AddBehindHalf(s.list, s.runnable, p.task, p.tail, p.done, s.current); }
    RingEmpty(l, s.runnable);
    if n.list != l { DeleteForward(l, s.runnable); }
    var q := if n.list == l then s.runnable else s.runnable[1..];
    forall t | OnList(n.list, t) ensures t in s.runnable { OnListIs(n.list, q, t); }
  }

  /** A task that is neither asleep on a mutex queue nor on its way there is on none. */
  lemma OffMutexQueues(s: State, t: Task)
    requires Inv(s) && t in s.live && !Stuck(s, t) && !InWindow(s.pc[t])
    ensures forall m :: m in s.locks ==> t !in s.locks[m].queue
  {
    forall m | m in s.locks ensures t !in s.locks[m].queue { assert Agree(s, t, m); }
  }

  /** The state after the timer took the CPU from a task that was linking another. */
  lemma AfterHalf(s: State)
    requires Inv(s) && SwitchesInWindow(s, Tick) && HalfLinked(s.pc[s.current])
    ensures var n := Next(s, Tick);
      && n.pc == s.pc && n.locks == s.locks && n.live == s.live && n.current != s.current
      && (n.current == IDLE || n.current in s.runnable) && forall t :: OnList(n.list, t) ==> t in s.runnable
  {
    var u := s.(ticks := s.ticks + 1);
    SwitchIs(s);
    PreemptTo(u);
    BehindHalf(u);
    if u.runnable != [] { assert u.runnable[0] in u.runnable; }
  }

  /** The task that was to be linked is in no place. */
  lemma NowhereLinked(s: State)
    requires Inv(s) && SwitchesInWindow(s, Tick) && HalfLinked(s.pc[s.current])
    ensures var t, n := s.pc[s.current].task, Next(s, Tick);
      t in n.live && !(exists p :: IsAt(n, t, p))
  {
    var t, n := s.pc[s.current].task, Next(s, Tick);
    AfterHalf(s);
    assert GiveOk(s, s.current, t) && PlaceOk(s, t);
    OffMutexQueues(s, t);
    forall p ensures !IsAt(n, t, p) {}
  }

  /** Neither is the one that was linking it, unless it is the idle task. */
  lemma NowhereLinking(s: State)
    requires Inv(s) && SwitchesInWindow(s, Tick) && HalfLinked(s.pc[s.current]) && s.current != IDLE
    ensures s.current in Next(s, Tick).live && !(exists p :: IsAt(Next(s, Tick), s.current, p))
  {
    var n := Next(s, Tick);
    AfterHalf(s);
    OffMutexQueues(s, s.current);
    forall v | v in s.pc ensures !Gives(s.pc[v], s.current) { assert GiveOk(s, v, s.current); }
    forall p ensures !IsAt(n, s.current, p) {}
  }

  /** The first store with an end of the run queue that is not its end any more: the task to be linked
      is in no place. */
  lemma StaleNowhere(s: State)
    requires Inv(s) && StaleTail(s, Link)
    ensures var t, n := s.pc[s.current].task, Next(s, Link);
      t in n.live && !(exists p :: IsAt(n, t, p))
  {
    var pc, n := s.pc[s.current], Next(s, Link);
    var t := pc.task;
    assert GiveOk(s, s.current, t) && PlaceOk(s, t);
    ForwardFrame(s.list, n.list, s.runnable);
    OnListIs(n.list, s.runnable, t);
    AtEndIs(n.list, s.runnable, pc.tail);
    OffMutexQueues(s, t);
    forall v | v in s.pc && v != s.current ensures !Gives(s.pc[v], t) {}
    forall p ensures !IsAt(n, t, p) {}
  }

  /** A step leaves every task in one place exactly when it is not a bad one. */
  lemma OnePlaceIff(s: State, e: Event)
    requires Inv(s) && Enabled(s, e)
    ensures AllPlaced(Next(s, e)) <==> !Bad(s, e)
  {
    var n := Next(s, e);
    if !Bad(s, e) {
      StepKeeps(s, e);
      forall t | t in n.live ensures OnePlace(n, t) { InvOnePlace(n, t); }
    } else if StaleTail(s, e) {
      StaleNowhere(s);
      assert !OnePlace(n, s.pc[s.current].task);
    } else if InWindow(s.pc[s.current]) {
      TwoPlaces(s);
    } else {
      NowhereLinked(s);
      assert !OnePlace(n, s.pc[s.current].task);
    }
  }

  // ---- Runs ----

  /** In every state of the run each task is in one place. */
  ghost predicate PlacedThroughout(s: State, es: seq<Event>)
    requires CanRun(s, es)
    decreases |es|
  {
    AllPlaced(s) && (|es| > 0 ==> PlacedThroughout(Next(s, es[0]), es[1..]))
  }

  lemma {:induction false} PlacedIff(s: State, es: seq<Event>)
    requires Inv(s) && CanRun(s, es)
    ensures PlacedThroughout(s, es) <==> NoBad(s, es)
    decreases |es|
  {
    forall t | t in s.live ensures OnePlace(s, t) { InvOnePlace(s, t); }
    if |es| > 0 {
      OnePlaceIff(s, es[0]);
      if !Bad(s, es[0]) {
        StepKeeps(s, es[0]);
        PlacedIff(Next(s, es[0]), es[1..]);
      }
    }
  }

  lemma InitialInv(s: State)
    requires Initial(s)
    ensures Inv(s)
  {
    assert Ring(s.list, []);
  }

  /** From the initial state, whatever the tasks do: every task is in one place all through the run
      exactly when the run has no bad step; then each mutex's lock word and holders add up to one. */
  lemma EveryRun(s: State, es: seq<Event>)
    requires Initial(s) && CanRun(s, es)
    ensures PlacedThroughout(s, es) <==> NoBad(s, es)
    ensures NoBad(s, es) ==> Inv(Run(s, es))
    ensures NoBad(s, es) ==> forall m {:trigger Holders(Run(s, es), m)} :: m in Run(s, es).locks ==>
      Run(s, es).locks[m].word + |Holders(Run(s, es), m)| == 1
  {
    InitialInv(s);
    PlacedIff(s, es);
    if NoBad(s, es) {
      RunKeeps(s, es);
      var n := Run(s, es);
      forall m | m in n.locks ensures n.locks[m].word + |Holders(n, m)| == 1 { WordAndHolders(n, m); }
    }
  }
}
