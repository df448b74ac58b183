/** A guest's subchannels: start, test and modify subchannel, the status that running a channel
    program leaves, and the guest's I/O interrupts (cp/guest/instruction_priv.c,
    cp/drivers/spooldev.c, cp/guest/exception.c, cp/guest/run.c). */
module Subchannel {
  import opened Common
  import opened Bitmap

  datatype Function = FcStart | FcHalt | FcClear
  datatype Activity = AcResume | AcStart | AcHalt | AcClear | AcSchActive | AcDevActive | AcSuspended
  datatype Status = ScPending | ScSecondary | ScPrimary | ScIntermediate | ScAlert

  /** Subchannel status word: function, activity and status control, and the outcome of the last start. */
  datatype Scsw = Scsw(fc: set<Function>, ac: set<Activity>, sc: set<Status>,
                       addr: nat, dev: byte, sch: byte, count: nat)

  const ZERO := Scsw({}, {}, {}, 0, 0, 0, 0)

  /** Path management control word. MODIFY SUBCHANNEL sets all fields but the last two. */
  datatype Pmcw = Pmcw(param: nat, enabled: bool, isc: nat, multipath: bool, lpm: nat, pom: nat, lm: nat, mm: nat,
                       mbFormat: bool, extended: bool, sense: bool, mbi: nat, valid: bool, devNum: nat)

  datatype Kind = Console | SpoolDevice | Other
  datatype VDev = VDev(kind: Kind, pmcw: Pmcw, scsw: Scsw)
  datatype Interrupt = Interrupt(ssid: nat, param: nat, intid: nat)

  const CHANNEL_END_DEVICE_END: byte := 0x0c
  const EFAULT := 9
  const ENOMEM := 1
  // Subclass number within an interruption identification.
  const ISC_UNIT := 0x800_0000

  /** Subchannel number in general register 1: the low 32 bits, whose upper half must be 1. */
  function Number(r1: nat): nat { r1 % 0x1_0000_0000 }

  predicate NumberOk(r1: nat) { Number(r1) / 0x1_0000 == 1 }

  predicate Busy(s: Scsw) { s.fc != {} }

  /** A start would be accepted. */
  predicate Free(s: Scsw) { ScPending !in s.sc && !Busy(s) }

  /** Status left by a channel program that ended. */
  function Ended(s: Scsw, end: Outcome): Scsw {
    var alert := if end.sch != 0 || end.dev != CHANNEL_END_DEVICE_END then {ScAlert} else {};
    Scsw(s.fc, s.ac - {AcSchActive, AcDevActive}, s.sc + {ScPrimary, ScSecondary, ScPending} + alert,
         end.addr, end.dev, end.sch, end.count)
  }

  /** What TEST SUBCHANNEL leaves of a pending status. */
  function Tested(s: Scsw): Scsw {
    var inter := ScIntermediate in s.sc;
    var functions := {AcResume, AcStart, AcHalt, AcClear};
    s.(fc := if !inter || (FcHalt in s.fc && AcSuspended in s.ac) then {} else s.fc,
       ac := if !inter then s.ac - functions
             else if AcSuspended in s.ac && FcStart in s.fc then
               (if FcHalt in s.fc then s.ac - functions else s.ac - {AcResume})
             else s.ac,
       sc := s.sc - {ScPending})
  }

  /** How a channel program ended. */
  datatype Outcome = Outcome(addr: nat, dev: byte, sch: byte, count: nat)

  /** The guest's devices, pending interrupts of each subclass, condition code, whether it is stopped,
      its PSW and the part of its prefix area that interrupts use. The other fields record what
      happened: every interrupt queued, in order; for each subclass the interrupts queued and those
      taken off; those delivered and dropped; for each subchannel the starts accepted, the tests and
      resets that ended them, and the starts that got no channel buffer or stopped the guest. */
  datatype State = State(devs: map<nat, VDev>, pending: seq<seq<Interrupt>>, cc: nat, stopped: bool,
                         psw: nat, prefix: Prefix,
                         queued: seq<Interrupt>, arrived: seq<seq<Interrupt>>, taken: seq<seq<Interrupt>>,
                         delivered: seq<Interrupt>, dropped: seq<Interrupt>,
                         accepted: map<nat, nat>, cleared: map<nat, nat>, unanswered: map<nat, nat>)

  datatype Prefix = Prefix(oldPsw: nat, newPsw: nat, interrupt: Interrupt)

  predicate DevOk(d: VDev) {
    && d.pmcw.isc < 8 && d.scsw.fc <= {FcStart} && ScIntermediate !in d.scsw.sc
    && (ScPending in d.scsw.sc ==> Busy(d.scsw))
  }

  /** Starts accepted less those ended is one exactly while the subchannel is not free. */
  predicate DevBalanced(s: State, sch: nat) {
    && sch in s.devs && DevOk(s.devs[sch]) && sch in s.accepted && sch in s.cleared
    && s.accepted[sch] == s.cleared[sch] + (if Free(s.devs[sch].scsw) then 0 else 1)
  }

  predicate QueueOk(s: State, i: nat)
    requires i < |s.pending| && i < |s.arrived| && i < |s.taken|
  {
    s.arrived[i] == s.taken[i] + s.pending[i]
  }

  /** How many of the interrupts are for the subchannel. */
  function CountFor(q: seq<Interrupt>, sch: nat): nat {
    if |q| == 0 then 0 else CountFor(q[..|q| - 1], sch) + (if q[|q| - 1].ssid == sch then 1 else 0)
  }

  lemma CountSnoc(q: seq<Interrupt>, p: Interrupt, sch: nat)
    ensures CountFor(q + [p], sch) == CountFor(q, sch) + (if p.ssid == sch then 1 else 0)
  {
    assert (q + [p])[..|q|] == q;
  }

  /** Every start accepted has queued one interrupt or is recorded as unanswered, but for one more of
      the subchannel `open`, whose channel program runs. */
  predicate Answered(s: State, sch: nat, open: Option<nat>) {
    && sch in s.accepted && sch in s.unanswered
    && s.accepted[sch] == CountFor(s.queued, sch) + s.unanswered[sch] + (if open == Some(sch) then 1 else 0)
  }

  ghost predicate ValidBut(s: State, open: Option<nat>) {
    && (forall sch {:trigger DevBalanced(s, sch)} :: sch in s.devs ==> DevBalanced(s, sch))
    && (forall sch {:trigger Answered(s, sch, open)} :: sch in s.devs ==> Answered(s, sch, open))
    && |s.pending| == 8 && |s.arrived| == 8 && |s.taken| == 8
    && (forall i {:trigger QueueOk(s, i)} :: 0 <= i < 8 ==> QueueOk(s, i))
    && (s.dropped != [] ==> s.stopped)
    && |s.queued| == |s.delivered| + |s.dropped| + Total(s.pending, 8)
  }

  ghost predicate Valid(s: State) { ValidBut(s, None) }

  /** Interrupts pending in the first `k` subclasses. */
  function Total(pending: seq<seq<Interrupt>>, k: nat): nat
    requires k <= |pending|
  {
    if k == 0 then 0 else Total(pending, k - 1) + |pending[k - 1]|
  }

  lemma {:induction false} TotalUpdate(pending: seq<seq<Interrupt>>, k: nat, i: nat, q: seq<Interrupt>)
    requires k <= |pending| && i < |pending|
    ensures Total(pending[i := q], k) + (if i < k then |pending[i]| else 0) ==
      Total(pending, k) + (if i < k then |q| else 0)
  {
    if k > 0 { TotalUpdate(pending, k - 1, i, q); }
  }

  function SetDev(s: State, sch: nat, scsw: Scsw, param: nat): State
    requires sch in s.devs
  {
    s.(devs := s.devs[sch := s.devs[sch].(scsw := scsw, pmcw := s.devs[sch].pmcw.(param := param))])
  }

  /** queue_io_interrupt(), with the subclass the device is set to. */
  function Queue(s: State, sch: nat): State
    requires sch in s.devs && DevOk(s.devs[sch]) && |s.pending| == 8 && |s.arrived| == 8
  {
    var p := InterruptOf(s.devs[sch], sch);
    var i := s.devs[sch].pmcw.isc;
    s.(pending := s.pending[i := s.pending[i] + [p]], arrived := s.arrived[i := s.arrived[i] + [p]],
       queued := s.queued + [p])
  }

  function InterruptOf(d: VDev, sch: nat): Interrupt {
    Interrupt(sch, d.pmcw.param, d.pmcw.isc * ISC_UNIT)
  }

  const STARTED := ZERO.(fc := {FcStart}, ac := {AcStart})

  /** An accepted start. */
  function Accept(s: State, sch: nat, param: nat): State
    requires sch in s.devs && sch in s.accepted
  {
    SetDev(s, sch, STARTED, param).(accepted := s.accepted[sch := s.accepted[sch] + 1])
  }

  lemma AcceptKeeps(s: State, sch: nat, param: nat)
    requires Valid(s) && sch in s.devs && Free(s.devs[sch].scsw)
    ensures DevBalanced(s, sch) && Answered(s, sch, None) && ValidBut(Accept(s, sch, param), Some(sch))
  {
    assert DevBalanced(s, sch) && Answered(s, sch, None);
    var n := Accept(s, sch, param);
    forall h | h in n.devs ensures DevBalanced(n, h) { assert DevBalanced(s, h); }
    forall h | h in n.devs ensures Answered(n, h, Some(sch)) { assert Answered(s, h, None); }
    forall i | 0 <= i < 8 ensures QueueOk(n, i) { assert QueueOk(s, i); }
  }

  /** The start got no channel buffer, or stops the guest. */
  function Unanswered(s: State, sch: nat): State
    requires sch in s.unanswered
  {
    s.(unanswered := s.unanswered[sch := s.unanswered[sch] + 1])
  }

  lemma UnansweredKeeps(s: State, sch: nat)
    requires ValidBut(s, Some(sch)) && sch in s.devs
    ensures sch in s.unanswered && Valid(Unanswered(s, sch))
  {
    assert Answered(s, sch, Some(sch));
    var n := Unanswered(s, sch);
    forall h | h in n.devs ensures DevBalanced(n, h) { assert DevBalanced(s, h); }
    forall h | h in n.devs ensures Answered(n, h, None) { assert Answered(s, h, Some(sch)); }
    forall i | 0 <= i < 8 ensures QueueOk(n, i) { assert QueueOk(s, i); }
  }

  /** The end of the channel program of an accepted start. */
  lemma EndKeeps(s: State, sch: nat, end: Outcome)
    requires ValidBut(s, Some(sch)) && sch in s.devs && s.devs[sch].scsw == STARTED
    ensures DevBalanced(s, sch)
    ensures var t := SetDev(s, sch, Ended(STARTED.(ac := {AcSchActive, AcDevActive}), end), s.devs[sch].pmcw.param);
      DevOk(t.devs[sch]) && Valid(Queue(t, sch))
  {
    assert DevBalanced(s, sch);
    var t := SetDev(s, sch, Ended(STARTED.(ac := {AcSchActive, AcDevActive}), end), s.devs[sch].pmcw.param);
    var n, p := Queue(t, sch), InterruptOf(t.devs[sch], sch);
    var i := s.devs[sch].pmcw.isc;
    TotalUpdate(s.pending, 8, i, s.pending[i] + [p]);
    forall h | h in n.devs ensures DevBalanced(n, h) { assert DevBalanced(s, h); }
    forall h | h in n.devs ensures Answered(n, h, None) {
      assert Answered(s, h, Some(sch));
      CountSnoc(s.queued, p, h);
    }
    forall i | 0 <= i < 8 ensures QueueOk(n, i) { assert QueueOk(s, i); }
  }

  lemma TestKeeps(s: State, sch: nat)
    requires Valid(s) && sch in s.devs && ScPending in s.devs[sch].scsw.sc
    ensures DevBalanced(s, sch) && Free(Tested(s.devs[sch].scsw))
    ensures Valid(SetDev(s, sch, Tested(s.devs[sch].scsw), s.devs[sch].pmcw.param)
                    .(cleared := s.cleared[sch := s.cleared[sch] + 1]))
  {
    assert DevBalanced(s, sch);
    var n := SetDev(s, sch, Tested(s.devs[sch].scsw), s.devs[sch].pmcw.param)
               .(cleared := s.cleared[sch := s.cleared[sch] + 1]);
    forall h | h in n.devs ensures DevBalanced(n, h) { assert DevBalanced(s, h); }
    forall h | h in n.devs ensures Answered(n, h, None) { assert Answered(s, h, None); }
    forall i | 0 <= i < 8 ensures QueueOk(n, i) { assert QueueOk(s, i); }
  }

  lemma FlagsKeep(s: State, cc: nat, stopped: bool)
    requires Valid(s) && (s.stopped ==> stopped)
    ensures Valid(s.(cc := cc, stopped := stopped))
  {
    var n := s.(cc := cc, stopped := stopped);
    forall h | h in n.devs ensures DevBalanced(n, h) { assert DevBalanced(s, h); }
    forall h | h in n.devs ensures Answered(n, h, None) { assert Answered(s, h, None); }
    forall i | 0 <= i < 8 ensures QueueOk(n, i) { assert QueueOk(s, i); }
  }

  /** `b` is `a` with perhaps another condition code, or stopped. */
  predicate SameDevs(a: State, b: State) {
    b == a.(cc := b.cc, stopped := b.stopped)
  }

  /** One more start of the subchannel was accepted. */
  predicate OneMore(a: State, b: State, sch: nat) {
    sch in a.accepted && b.accepted == a.accepted[sch := a.accepted[sch] + 1] && b.cleared == a.cleared
  }

  /** Status of a start whose channel program ran: start function, primary and secondary status
      pending, and an alert unless there is only channel end and device end. */
  function EndedStart(end: Outcome): Scsw {
    Scsw({FcStart}, {},
         {ScPrimary, ScSecondary, ScPending} + (if end.sch == 0 && end.dev == 0x0c then {} else {ScAlert}),
         end.addr, end.dev, end.sch, end.count)
  }

  /** What an accepted start leads to: a device of another kind stops the guest; without a buffer the
      start stays pending and nothing is queued; otherwise it ended and its interrupt is queued. */
  predicate StartDone(a: State, b: State, sch: nat, param: nat, buffer: bool, end: Outcome, ret: int) {
    && sch in a.devs && sch in a.unanswered && OneMore(a, b, sch)
    && var d := a.devs[sch];
      var waits := a.devs[sch :=
        d.(scsw := Scsw({FcStart}, {AcStart}, {}, 0, 0, 0, 0), pmcw := d.pmcw.(param := param))];
      var more := a.unanswered[sch := a.unanswered[sch] + 1];
      if d.kind.Other? then
        b == a.(devs := waits, accepted := b.accepted, unanswered := more, stopped := true)
      else if !buffer then
        ret == -ENOMEM && b == a.(devs := waits, accepted := b.accepted, unanswered := more, cc := 0)
      else
        var p := Interrupt(sch, param, d.pmcw.isc * 0x800_0000);
        && ret == 0 && d.pmcw.isc < |a.pending| && d.pmcw.isc < |a.arrived|
        && b == a.(devs := a.devs[sch := d.(scsw := EndedStart(end), pmcw := d.pmcw.(param := param))],
                   accepted := b.accepted, cc := 0, queued := a.queued + [p],
                   pending := a.pending[d.pmcw.isc := a.pending[d.pmcw.isc] + [p]],
                   arrived := a.arrived[d.pmcw.isc := a.arrived[d.pmcw.isc] + [p]])
  }

  /** The subchannel and the operand's address are good. */
  predicate OperandOk(s: State, r1: nat, addr: nat) {
    NumberGood(r1) && addr % 4 == 0 && r1 % 0x1_0000_0000 in s.devs
  }

  predicate NumberGood(r1: nat) { 0x1_0000 <= r1 % 0x1_0000_0000 < 0x2_0000 }

  /** An operand that is not: the guest is stopped for a program exception, or told there is no such
      subchannel; `copy`, when not 0, is the error of reading the operand. */
  function Refused(s: State, r1: nat, addr: nat, copy: int): State {
    if !NumberGood(r1) || addr % 4 != 0 then s.(stopped := true)
    else if r1 % 0x1_0000_0000 !in s.devs then s.(cc := 3)
    else if copy == -EFAULT then s.(stopped := true)
    else s
  }

  class Guest {
    var st: State

    ghost predicate Ok()
      reads this
    {
      Valid(st)
    }

    constructor (devs: map<nat, VDev>, psw: nat, prefix: Prefix)
      requires forall sch :: sch in devs ==> devs[sch].scsw == ZERO && devs[sch].pmcw.isc < 8
      ensures Ok() && st.devs == devs && st.queued == [] && !st.stopped
      ensures st.pending == [[], [], [], [], [], [], [], []] && st.cc == 0 && st.psw == psw && st.prefix == prefix
    {
      var none: seq<seq<Interrupt>> := [[], [], [], [], [], [], [], []];
      var zero := map sch | sch in devs :: 0;
      st := State(devs, none, 0, false, psw, prefix, [], none, none, [], [], zero, zero, zero);
      new;
      forall sch | sch in devs ensures DevBalanced(st, sch) && Answered(st, sch, None) {}
      forall i | 0 <= i < 8 ensures QueueOk(st, i) {}
    }

    /** The common checks of the subchannel instructions; None: the instruction ended here. */
    method Operand(r1: nat, addr: nat) returns (sch: Option<nat>)
      requires Ok()
      modifies this
      ensures Ok() && SameDevs(old(st), st)
      ensures sch.Some? <==> OperandOk(old(st), r1, addr)
      ensures sch.Some? ==> sch.value == r1 % 0x1_0000_0000 && st == old(st)
      ensures sch.None? ==> st == Refused(old(st), r1, addr, 0)
    {
      FlagsKeep(st, st.cc, true);
      FlagsKeep(st, 3, st.stopped);
      if !NumberOk(r1) || addr % 4 != 0 {
        st := st.(stopped := true);
        return None;
      }
      if Number(r1) !in st.devs {
        st := st.(cc := 3);
        return None;
      }
      return Some(Number(r1));
    }

    /** The start went ahead: its operands were good, and the subchannel free. */
    ghost predicate Starts(r1: nat, addr: nat, copy: int)
      reads this
    {
      && OperandOk(st, r1, addr) && copy == 0
      && var scsw := st.devs[r1 % 0x1_0000_0000].scsw; ScPending !in scsw.sc && scsw.fc == {}
    }

    /** START SUBCHANNEL. `param` is the operand's interruption parameter; `buffer`: the channel buffer
        could be allocated; `end`: how the channel program ends. */
    method Ssch(r1: nat, addr: nat, copy: int, param: nat, buffer: bool, end: Outcome) returns (ret: int)
      requires Ok()
      modifies this
      ensures Ok()
      ensures !old(Starts(r1, addr, copy)) ==> SameDevs(old(st), st)
      ensures !OperandOk(old(st), r1, addr) || copy != 0 ==> st == Refused(old(st), r1, addr, copy)
      ensures !old(Starts(r1, addr, copy)) ==>
        ret == if OperandOk(old(st), r1, addr) && copy != -EFAULT then copy else 0
      ensures old(Starts(r1, addr, copy)) ==> StartDone(old(st), st, r1 % 0x1_0000_0000, param, buffer, end, ret)
      ensures OperandOk(old(st), r1, addr) && copy == 0 && !old(Starts(r1, addr, copy)) ==>
        st == old(st).(cc := if ScPending in old(st).devs[r1 % 0x1_0000_0000].scsw.sc then 1 else 2)
    {
      ret := 0;
      var operand := Operand(r1, addr);
      if operand.None? { return; }
      var sch := operand.value;
      if copy != 0 {
        if copy == -EFAULT {
          FlagsKeep(st, st.cc, true);
          st := st.(stopped := true);
          return 0;
        }
        return copy;
      }
      var scsw := st.devs[sch].scsw;
      FlagsKeep(st, 1, st.stopped);
      FlagsKeep(st, 2, st.stopped);
      if ScPending in scsw.sc {
        st := st.(cc := 1);
        return;
      }
      if Busy(scsw) {
        st := st.(cc := 2);
        return;
      }
      ret := Start(sch, param, buffer, end);
    }

    method Start(sch: nat, param: nat, buffer: bool, end: Outcome) returns (ret: int)
      requires Ok() && sch in st.devs && Free(st.devs[sch].scsw)
      modifies this
      ensures Ok() && StartDone(old(st), st, sch, param, buffer, end, ret)
    {
      ghost var a := st;
      AcceptKeeps(st, sch, param);
      var s := Accept(st, sch, param);
      if s.devs[sch].kind.Other? {
        UnansweredKeeps(s, sch);
        s := Unanswered(s, sch);
        FlagsKeep(s, s.cc, true);
        st := s.(stopped := true);
        return 0;
      }
      ghost var b := s;
      ret, s := SpoolExec(s, sch, buffer, end);
      FlagsKeep(s, 0, s.stopped);
      st := s.(cc := 0);
    }

    /** TEST SUBCHANNEL. */
    method Tsch(r1: nat, addr: nat)
      requires Ok()
      modifies this
      ensures Ok()
      ensures !OperandOk(old(st), r1, addr) ==> st == Refused(old(st), r1, addr, 0)
      ensures OperandOk(old(st), r1, addr) ==>
        var sch := r1 % 0x1_0000_0000;
        var d := old(st).devs[sch];
        if ScPending in d.scsw.sc then
          && sch in old(st).cleared
          && st == old(st).(devs := old(st).devs[sch := d.(scsw := Answer(d.scsw))], cc := 0,
                            cleared := old(st).cleared[sch := old(st).cleared[sch] + 1])
        else st == old(st).(cc := 1)
    {
      var operand := Operand(r1, addr);
      if operand.None? { return; }
      var sch := operand.value;
      FlagsKeep(st, 1, st.stopped);
      if ScPending !in st.devs[sch].scsw.sc {
        st := st.(cc := 1);
        return;
      }
      TestKeeps(st, sch);
      var s := SetDev(st, sch, Tested(st.devs[sch].scsw), st.devs[sch].pmcw.param)
                 .(cleared := st.cleared[sch := st.cleared[sch] + 1]);
      FlagsKeep(s, 0, s.stopped);
      st := s.(cc := 0);
    }

    /** MODIFY SUBCHANNEL with the operand `pm`; nothing is altered while the status is pending or the
        subchannel busy, or for an operand that is not marked valid. */
    method Msch(r1: nat, addr: nat, copy: int, pm: Pmcw) returns (ret: int)
      requires Ok() && pm.isc < 8
      modifies this
      ensures Ok()
      ensures OperandOk(old(st), r1, addr) && copy == 0 ==>
        var d := old(st).devs[r1 % 0x1_0000_0000];
        if ScPending in d.scsw.sc then st == old(st).(cc := 1)
        else if d.scsw.fc != {} then st == old(st).(cc := 2)
        else if !pm.valid then st == old(st).(cc := 0)
        else
          var q := Pmcw(pm.param, pm.enabled, pm.isc, pm.multipath, pm.lpm, pm.pom, pm.lm, pm.mm, pm.mbFormat,
                        pm.extended, pm.sense, pm.mbi, d.pmcw.valid, d.pmcw.devNum);
          st == old(st).(cc := 0, devs := old(st).devs[r1 % 0x1_0000_0000 := d.(pmcw := q)])
      ensures !OperandOk(old(st), r1, addr) || copy != 0 ==> st == Refused(old(st), r1, addr, copy)
      ensures ret == if OperandOk(old(st), r1, addr) && copy != -EFAULT then copy else 0
    {
      ret := 0;
      var operand := Operand(r1, addr);
      if operand.None? { return; }
      var sch := operand.value;
      if copy != 0 {
        if copy != -EFAULT { return copy; }
        FlagsKeep(st, st.cc, true);
        st := st.(stopped := true);
        return;
      }
      var d := st.devs[sch];
      FlagsKeep(st, 1, st.stopped);
      FlagsKeep(st, 2, st.stopped);
      if ScPending in d.scsw.sc { st := st.(cc := 1); return; }
      if Busy(d.scsw) { st := st.(cc := 2); return; }
      ModifyKeeps(st, sch, pm);
      var s := if pm.valid then st.(devs := st.devs[sch := d.(pmcw := Modified(d.pmcw, pm))]) else st;
      FlagsKeep(s, 0, s.stopped);
      st := s.(cc := 0);
    }

    /** An I/O reset frees every subchannel; interrupts already queued stay pending. */
    method IoReset()
      requires Ok()
      modifies this
      ensures Ok() && st == old(st).(devs := st.devs, cleared := st.cleared) && st.devs.Keys == old(st).devs.Keys
      ensures forall sch :: sch in st.devs ==>
        var d := old(st).devs[sch];
        st.devs[sch] == VDev(d.kind,
          Pmcw(0, false, 0, false, 0x80, 0xff, 0, 0, false, false, false, 0, d.pmcw.valid, d.pmcw.devNum),
          Scsw({}, {}, {}, 0, 0, 0, 0))
    {
      ResetKeeps(st);
      st := AfterReset(st);
    }

    /** Deliver an interrupt if I/O interrupts are enabled: the oldest of the lowest-numbered subclass
        that control register 6 enables. `mapped`: the guest's first page is there to take it. */
    method IoInt(enabled: bool, cr6: nat, mapped: bool) returns (done: bool)
      requires Ok()
      modifies this
      ensures Ok()
      ensures exists i ::
        && 0 <= i <= 8 && NoneOpen(old(st), cr6, i)
        && if !enabled || i == 8 then !done && st == old(st)
           else Open(old(st), cr6, i) && done == mapped && Delivered(old(st), st, i, mapped)
    {
      ghost var s := st;
      if !enabled {
        assert NoneOpen(s, cr6, 0);
        return false;
      }
      for i := 0 to 8
        invariant st == s && NoneOpen(s, cr6, i)
      {
        DigitIs(cr6, 31 - i);
        if Ready(st, cr6, i) {
          InterruptKeeps(st, i, mapped);
          DeliveredIs(st, i, mapped);
          st := AfterInterrupt(st, i, mapped);
          assert NoneOpen(s, cr6, i);
          return mapped;
        }
      }
      assert NoneOpen(s, cr6, 8);
      return false;
    }
  }

  /** What a test leaves of the status of a start: no function, none of the activities that functions
      stand for, and no status pending; the outcome stays. */
  function Answer(s: Scsw): Scsw {
    Scsw({}, s.ac - {AcResume, AcStart, AcHalt, AcClear}, s.sc - {ScPending}, s.addr, s.dev, s.sch, s.count)
  }

  function Modified(old_: Pmcw, pm: Pmcw): Pmcw {
    pm.(valid := old_.valid, devNum := old_.devNum)
  }

  lemma ModifyKeeps(s: State, sch: nat, pm: Pmcw)
    requires Valid(s) && sch in s.devs && Free(s.devs[sch].scsw) && pm.isc < 8
    ensures Valid(s.(devs := s.devs[sch := s.devs[sch].(pmcw := Modified(s.devs[sch].pmcw, pm))]))
  {
    var n := s.(devs := s.devs[sch := s.devs[sch].(pmcw := Modified(s.devs[sch].pmcw, pm))]);
    assert DevBalanced(s, sch);
    forall h | h in n.devs ensures DevBalanced(n, h) { assert DevBalanced(s, h); }
    forall h | h in n.devs ensures Answered(n, h, None) { assert Answered(s, h, None); }
    forall i | 0 <= i < 8 ensures QueueOk(n, i) { assert QueueOk(s, i); }
  }

  function Reset(d: VDev): VDev {
    d.(scsw := ZERO,
       pmcw := Pmcw(0, false, 0, false, 0x80, 0xff, 0, 0, false, false, false, 0, d.pmcw.valid, d.pmcw.devNum))
  }

  /** All devices reset; a start that was accepted and not ended counts as ended. */
  function AfterReset(s: State): State
    requires forall sch :: sch in s.devs ==> sch in s.accepted
  {
    s.(devs := map sch | sch in s.devs :: Reset(s.devs[sch]), cleared := map sch | sch in s.devs :: s.accepted[sch])
  }

  lemma ResetKeeps(s: State)
    requires Valid(s)
    ensures (forall sch :: sch in s.devs ==> sch in s.accepted) && Valid(AfterReset(s))
  {
    forall sch | sch in s.devs ensures sch in s.accepted { assert DevBalanced(s, sch); }
    var n := AfterReset(s);
    forall h | h in n.devs ensures DevBalanced(n, h) { assert DevBalanced(s, h); }
    forall h | h in n.devs ensures Answered(n, h, None) { assert Answered(s, h, None); }
    forall i | 0 <= i < 8 ensures QueueOk(n, i) { assert QueueOk(s, i); }
  }

  /** Subclass `i` is enabled in control register 6 and has an interrupt pending. */
  predicate Ready(s: State, cr6: nat, i: nat)
    requires i < 8 && |s.pending| == 8
  {
    Digit(cr6, 31 - i) && s.pending[i] != []
  }

  /** The first interrupt of subclass `i` taken off its queue: the PSWs are swapped and the interrupt
      stored, or the guest stops and the interrupt is lost. */
  function AfterInterrupt(s: State, i: nat, mapped: bool): State
    requires i < |s.pending| && i < |s.taken| && s.pending[i] != []
  {
    var p := s.pending[i][0];
    var t := s.(pending := s.pending[i := s.pending[i][1..]], taken := s.taken[i := s.taken[i] + [p]]);
    if mapped then
      t.(psw := s.prefix.newPsw, prefix := s.prefix.(oldPsw := s.psw, interrupt := p), delivered := s.delivered + [p])
    else t.(stopped := true, dropped := s.dropped + [p])
  }

  /** Control register 6 has the bit of subclass `i`, from 0x80000000 for subclass 0 on down, and an
      interrupt of it is pending. */
  predicate Open(s: State, cr6: nat, i: nat)
    requires i < 8 && |s.pending| == 8
  {
    cr6 / Pow2(31 - i) % 2 == 1 && s.pending[i] != []
  }

  predicate NoneOpen(s: State, cr6: nat, k: nat)
    requires k <= 8 && |s.pending| == 8
  {
    forall h :: 0 <= h < k ==> !Open(s, cr6, h)
  }

  lemma DeliveredIs(s: State, i: nat, mapped: bool)
    requires i < |s.pending| && i < |s.taken| && s.pending[i] != []
    ensures Delivered(s, AfterInterrupt(s, i, mapped), i, mapped)
  {
  }

  /** The guest finds the oldest interrupt of the subclass and its old PSW in its prefix area, and goes
      on at the new PSW from there; or it stops, and the interrupt is lost. */
  ghost predicate Delivered(a: State, b: State, i: nat, mapped: bool)
    requires i < |a.pending| && i < |a.taken| && a.pending[i] != []
  {
    var p := a.pending[i][0];
    && |b.pending| == |a.pending| && b.pending == a.pending[i := b.pending[i]] && a.pending[i] == [p] + b.pending[i]
    && b.taken == a.taken[i := a.taken[i] + [p]]
    && if mapped then
         && b.psw == a.prefix.newPsw && b.prefix == Prefix(a.psw, a.prefix.newPsw, p)
         && b == a.(pending := b.pending, taken := b.taken, psw := b.psw, prefix := b.prefix,
                    delivered := a.delivered + [p])
       else
         b == a.(pending := b.pending, taken := b.taken, stopped := true, dropped := a.dropped + [p])
  }

  lemma InterruptKeeps(s: State, i: nat, mapped: bool)
    requires Valid(s) && i < 8 && s.pending[i] != []
    ensures Valid(AfterInterrupt(s, i, mapped))
  {
    var n := AfterInterrupt(s, i, mapped);
    TotalUpdate(s.pending, 8, i, s.pending[i][1..]);
    forall h | h in n.devs ensures DevBalanced(n, h) { assert DevBalanced(s, h); }
    forall h | h in n.devs ensures Answered(n, h, None) { assert Answered(s, h, None); }
    forall h | 0 <= h < 8 ensures QueueOk(n, h) { assert QueueOk(s, h); }
  }

  /** Between two accepted starts of a subchannel there is a successful test or a reset. Each start has
      queued exactly one interrupt for its subchannel, unless it got no buffer or stopped the guest, and
      was ended by a test or a reset, unless the subchannel is not free. */
  lemma StartsSeparated(s: State, sch: nat)
    requires Valid(s) && sch in s.devs
    ensures sch in s.accepted && sch in s.cleared && sch in s.unanswered
    ensures s.accepted[sch] == CountFor(s.queued, sch) + s.unanswered[sch]
    ensures CountFor(s.queued, sch) + s.unanswered[sch] == s.cleared[sch] + (if Free(s.devs[sch].scsw) then 0 else 1)
  {
    assert DevBalanced(s, sch) && Answered(s, sch, None);
  }

  /** Interrupts queued are delivered, pending, or dropped, and dropped only by stopping the guest;
      within a subclass they leave in the order they came. */
  lemma InterruptsConserved(s: State, i: nat)
    requires Valid(s) && i < 8
    ensures |s.queued| == |s.delivered| + |s.dropped| + Total(s.pending, 8)
    ensures s.arrived[i] == s.taken[i] + s.pending[i]
    ensures !s.stopped ==> s.dropped == []
  {
    assert QueueOk(s, i);
  }

  /** A test frees a subchannel that is not free exactly when its status is pending: a start whose
      buffer could not be allocated leaves it busy until an I/O reset. */
  lemma TestFrees(d: VDev)
    requires DevOk(d) && !Free(d.scsw)
    ensures Free(if ScPending in d.scsw.sc then Tested(d.scsw) else d.scsw) <==> ScPending in d.scsw.sc
    ensures !Free(STARTED) && ScPending !in STARTED.sc
  {
  }

  /** spool_exec(): the channel program runs to its end and its interrupt is queued. */
  method SpoolExec(s: State, sch: nat, buffer: bool, end: Outcome) returns (ret: int, n: State)
    requires ValidBut(s, Some(sch)) && sch in s.devs && s.devs[sch].scsw == STARTED
    ensures Valid(n)
    ensures !buffer ==> ret == -ENOMEM && sch in s.unanswered && n == Unanswered(s, sch)
    ensures buffer ==>
      var d := s.devs[sch];
      var p := Interrupt(sch, d.pmcw.param, d.pmcw.isc * 0x800_0000);
      && ret == 0 && d.pmcw.isc < |s.pending| && d.pmcw.isc < |s.arrived|
      && n == s.(devs := s.devs[sch := d.(scsw := EndedStart(end))], queued := s.queued + [p],
                 pending := s.pending[d.pmcw.isc := s.pending[d.pmcw.isc] + [p]],
                 arrived := s.arrived[d.pmcw.isc := s.arrived[d.pmcw.isc] + [p]])
  {
    if !buffer {
      UnansweredKeeps(s, sch);
      return -ENOMEM, Unanswered(s, sch);
    }
    EndKeeps(s, sch, end);
    // the start becomes activity of subchannel and device, and ends
    var scsw := s.devs[sch].scsw;
    scsw := scsw.(ac := scsw.ac - {AcStart} + {AcSchActive, AcDevActive});
    assert scsw == STARTED.(ac := {AcSchActive, AcDevActive});
    assert Ended(scsw, end) == EndedStart(end);
    n := Queue(SetDev(s, sch, Ended(scsw, end), s.devs[sch].pmcw.param), sch);
    return 0, n;
  }
}
