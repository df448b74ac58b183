/** The operations queued on one device and their interrupts (cp/nucleus/io.c). */
module IoQueue {
  import opened Common

  type OpId = nat

  const EBUSY := 2
  const EAGAIN := 3
  const EINVAL := 4
  const EUCHECK := 8

  /** `param` is the interruption parameter in the operation request block. */
  datatype Op = Op(param: nat, err: int, done: bool)

  /** What the channel subsystem answers: a condition code of 0 to 3. */
  type Cc = x: int | 0 <= x < 4

  function StartErr(cc: Cc): int {
    if cc == 0 then 0 else if cc == 3 then -EINVAL else -EBUSY
  }

  function TestErr(cc: Cc): int {
    if cc == 3 then -EINVAL else 0
  }

  /** Unit check and device end in the device status byte. */
  function DefaultErr(status: byte): int {
    if status / 4 % 2 == 1 then 0 else if status / 2 % 2 == 1 then -EUCHECK else -EAGAIN
  }

  /** What an attempt to start the first waiting operation leaves in the operations: a refusal is
      noted, -4 when the subchannel is not there, -2 when it has status pending or is busy. */
  ghost function Tried(ops: map<OpId, Op>, out: seq<OpId>, cc: Cc): map<OpId, Op>
    requires |out| > 0 ==> out[0] in ops
  {
    if |out| > 0 && cc != 0 then ops[out[0] := ops[out[0]].(err := if cc == 3 then -4 else -2)] else ops
  }

  function InFlight(q: Option<OpId>): seq<OpId> {
    if q.Some? then [q.value] else []
  }

  /** The operations of a device in submission order. */
  predicate Ordered(cur: Option<OpId>, out: seq<OpId>, submitted: seq<OpId>, started: seq<OpId>, completed: seq<OpId>) {
    && completed + InFlight(cur) + out == submitted
    && completed + InFlight(cur) == started
    && (forall i, j :: 0 <= i < j < |out| ==> out[i] != out[j])
    && (cur.Some? ==> cur.value !in out)
  }

  /** The operation in flight after one is started from the queue, if the subchannel takes it. */
  function NextUp(out: seq<OpId>, cc: Cc): Option<OpId> {
    if |out| > 0 && cc == 0 then Some(out[0]) else None
  }

  class Device {
    const sch: nat
    var qCur: Option<OpId>
    var qOut: seq<OpId>
    var ops: map<OpId, Op>
    var attention: nat
    // Everything submitted, started on the subchannel, and completed, in order.
    ghost var submitted: seq<OpId>
    ghost var started: seq<OpId>
    ghost var completed: seq<OpId>

    predicate Waiting(id: OpId)
      reads this
    {
      id in qOut || qCur == Some(id)
    }

    ghost predicate Valid()
      reads this
    {
      && Ordered(qCur, qOut, submitted, started, completed)
      && (forall id :: Waiting(id) ==> id in ops)
      && (forall id :: id in ops ==> (ops[id].done <==> !Waiting(id)))
    }

    constructor (sch: nat)
      ensures Valid() && this.sch == sch && submitted == [] && ops == map[]
    {
      this.sch := sch;
      qCur, qOut, ops, attention := None, [], map[], 0;
      submitted, started, completed := [], [], [];
    }

    /** Start the first waiting operation if none is in flight; a refusal is noted and retried later. */
    method StartNext(cc: Cc)
      modifies this`qCur, this`qOut, this`ops, this`started
      requires Ordered(qCur, qOut, submitted, started, completed) && forall id :: id in qOut ==> id in ops
      ensures Ordered(qCur, qOut, submitted, started, completed)
      ensures forall id :: Waiting(id) <==> old(Waiting(id))
      ensures qCur == if old(qCur).Some? || |old(qOut)| == 0 || cc != 0 then old(qCur) else Some(old(qOut)[0])
      ensures qOut == if old(qCur).None? && |old(qOut)| > 0 && cc == 0 then old(qOut)[1..] else old(qOut)
      ensures ops == if old(qCur).Some? then old(ops) else Tried(old(ops), old(qOut), cc)
    {
      if qCur.Some? { return; }
      if |qOut| == 0 { return; }
      var op := qOut[0];
      var err := StartErr(cc);
      if err == 0 {
        qCur, qOut, started := Some(op), qOut[1..], started + [op];
      } else {
        ops := ops[op := ops[op].(err := err)];
      }
    }

    /** Queue an operation behind all the others and try to start the first one. */
    method Submit(id: OpId, param: nat, cc: Cc)
      requires Valid() && !Waiting(id)
      modifies this
      ensures Valid() && submitted == old(submitted) + [id] && completed == old(completed)
      ensures attention == old(attention) && Waiting(id)
      ensures qCur == if old(qCur).Some? then old(qCur) else if cc == 0 then Some((old(qOut) + [id])[0]) else None
      ensures qOut == if old(qCur).None? && cc == 0 then (old(qOut) + [id])[1..] else old(qOut) + [id]
      ensures var all := old(ops)[id := Op(param, 0, false)];
        && (forall o :: o in old(qOut) ==> o in all)
        && ops == if old(qCur).Some? then all else Tried(all, old(qOut) + [id], cc)
    {
      ops, qOut, submitted := ops[id := Op(param, 0, false)], qOut + [id], submitted + [id];
      StartNext(cc);
    }

    /** An I/O interrupt for subchannel `ssid` with interruption parameter `param`. An error of the
        subchannel counts before what the operation's handler leaves, if it has one, and that before
        device end and unit check. */
    method Interrupt(ssid: nat, param: nat, test: Cc, handler: Option<int>, status: byte, cc: Cc)
        returns (matched: bool)
      requires Valid()
      modifies this
      ensures Valid() && submitted == old(submitted)
      ensures matched <==> old(qCur).Some? && old(ops[qCur.value].param) == param && ssid == sch
      ensures !matched ==>
        && attention == old(attention) + 1 && completed == old(completed)
        && qCur == old(qCur) && qOut == old(qOut) && ops == old(ops)
      ensures matched ==>
        var err := if test == 3 then -4 else if handler.Some? then handler.value
          else if status / 4 % 2 == 1 then 0 else if status / 2 % 2 == 1 then -8 else -3;
        var all := old(ops)[old(qCur).value := old(ops[qCur.value]).(err := err, done := err != -3)];
        && (forall o :: o in old(qOut) ==> o in all)
        && if err == -3 then
             completed == old(completed) && qCur == old(qCur) && qOut == old(qOut) && ops == all
           else
             && completed == old(completed) + [old(qCur).value] && qCur == NextUp(old(qOut), cc)
             && qOut == (if qCur.Some? then old(qOut)[1..] else old(qOut)) && ops == Tried(all, old(qOut), cc)
    {
      if qCur.Some? && ops[qCur.value].param == param && ssid == sch {
        var err := TestErr(test);
        if err == 0 { err := if handler.Some? then handler.value else DefaultErr(status); }
        CpuInitiated(qCur.value, err, cc);
        return true;
      }
      attention := attention + 1;
      return false;
    }

    /** The operation in flight got error `err`: it goes on, or it is done and the next one starts. */
    method CpuInitiated(id: OpId, err: int, cc: Cc)
      requires Valid() && qCur == Some(id)
      modifies this
      ensures Valid() && submitted == old(submitted) && attention == old(attention)
      ensures id in old(ops) && forall o :: o in old(qOut) ==> o in old(ops)
      ensures
        var all := old(ops)[id := old(ops)[id].(err := err, done := err != -3)];
        if err == -3 then
          completed == old(completed) && qCur == old(qCur) && qOut == old(qOut) && ops == all
        else
          && completed == old(completed) + [id] && qCur == NextUp(old(qOut), cc)
          && qOut == (if qCur.Some? then old(qOut)[1..] else old(qOut)) && ops == Tried(all, old(qOut), cc)
    {
      assert forall o :: o in qOut ==> Waiting(o);
      ops := ops[id := ops[id].(err := err)];
      if err == -EAGAIN { return; }
      qCur, completed := None, completed + [id];
      assert forall o :: Waiting(o) <==> o in old(qOut);
      StartNext(cc);
      assert forall o :: Waiting(o) <==> o in old(qOut);
      ops := ops[id := ops[id].(done := true)];
    }

    /** Operations complete in the order they were submitted, and the one in flight is the next. */
    lemma InOrder(i: nat)
      requires Valid()
      ensures i < |completed| ==> completed[i] == submitted[i]
      ensures qCur.Some? ==> |completed| < |submitted| && qCur.value == submitted[|completed|]
      ensures |started| <= |completed| + 1 && started <= submitted
    {
      assert submitted == completed + (InFlight(qCur) + qOut);
      assert submitted == started + qOut;
    }

    /** A waiter that sees `done` knows its operation has completed. */
    lemma DoneMeansCompleted(id: OpId)
      requires Valid() && id in submitted && id in ops
      ensures ops[id].done ==> id in completed
      ensures !ops[id].done ==> id in qOut || qCur == Some(id)
    {
      assert id in completed + InFlight(qCur) + qOut;
    }
  }

  /** The default handler keeps an operation in flight exactly while neither unit check nor device end is set. */
  lemma DefaultKeeps(status: byte)
    ensures DefaultErr(status) == -EAGAIN <==> status % 8 < 2
    ensures DefaultErr(status) == 0 <==> status % 8 >= 4
  {
  }
}
