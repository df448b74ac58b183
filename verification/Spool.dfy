/** Spool files: variable-length records packed into a chain of pages (cp/fs/spool.c). */
module Spool {
  import opened Common
  import Ceiling

  datatype Status = Done | EINVAL | ENOENT | ENOMEM

  function Flat(list: seq<Bytes>): Bytes {
    if |list| == 0 then [] else list[0] + Flat(list[1..])
  }

  lemma {:induction false} FlatSnoc(list: seq<Bytes>, page: Bytes)
    ensures Flat(list + [page]) == Flat(list) + page
  {
    if |list| > 0 {
      assert (list + [page])[1..] == list[1..] + [page];
      FlatSnoc(list[1..], page);
    } else {
      assert (list + [page])[1..] == [];
    }
  }

  /** All bytes of the chain but the last `tail`. */
  function UpTo(list: seq<Bytes>, tail: nat): Bytes
    requires tail <= |Flat(list)|
  {
    Flat(list)[..|Flat(list)| - tail]
  }

  // ---- The stream of records ----

  function Header(len: nat): Bytes
    requires len < 0x10000
  {
    [len / 256, len % 256]
  }

  function HeaderLen(b: Bytes): nat
    requires |b| >= 2
  {
    b[0] as int * 256 + b[1] as int
  }

  predicate IsRecord(r: Bytes) { 1 <= |r| < 0x10000 }

  /** Padding to an even length, counted down by twos so that proofs see no division. */
  function Pad(n: nat): (r: nat)
    ensures r < 2
  {
    if n < 2 then n else Pad(n - 2)
  }

  lemma {:induction false} PadIs(n: nat)
    ensures Pad(n) == n % 2
  {
    if n >= 2 { PadIs(n - 2); }
  }

  lemma {:induction false} PadSum(a: nat, b: nat)
    requires Pad(a) == 0
    ensures Pad(a + b) == Pad(b)
  {
    if a >= 2 {
      PadSum(a - 2, b);
      assert a - 2 + b == a + b - 2;
    }
  }

  lemma PadMore(n: nat)
    ensures Pad(n + Pad(n)) == 0
  {
    PadIs(n);
    PadIs(n + Pad(n));
  }

  lemma PadFits(n: nat, size: nat)
    requires n <= size && Pad(size) == 0
    ensures n + Pad(n) <= size && (n < size && Pad(n) == 0 ==> n + 2 <= size)
  {
    PadIs(n);
    PadIs(size);
  }

  lemma PadShift(a: nat, b: nat, n: nat)
    requires Pad(a) == Pad(b)
    ensures Pad(a + n) == Pad(b + n)
  {
    PadIs(a);
    PadIs(b);
    PadIs(a + n);
    PadIs(b + n);
  }

  /** Bytes a record of `len` bytes takes: header, data, padding to an even length. */
  function Taken(len: nat): nat { 2 + len + Pad(len) }

  /** The bytes hold the records one after the other; padding bytes may be anything. */
  predicate Parses(s: Bytes, q: seq<Bytes>) {
    if |q| == 0 then s == []
    else
      && IsRecord(q[0]) && Taken(|q[0]|) <= |s|
      && s[..2] == Header(|q[0]|) && s[2..2 + |q[0]|] == q[0]
      && Parses(s[Taken(|q[0]|)..], q[1..])
  }

  lemma OneRecord(t: Bytes, r: Bytes)
    requires IsRecord(r) && |t| == Taken(|r|) && Header(|r|) + r <= t
    ensures Parses(t, [r])
  {
    assert t[..2 + |r|] == Header(|r|) + r;
    assert t[..2] == Header(|r|) && t[2..2 + |r|] == r;
    assert t[Taken(|r|)..] == [] && [r][1..] == [];
  }

  lemma {:induction false} ParsesSnoc(s: Bytes, q: seq<Bytes>, t: Bytes, r: Bytes)
    requires Parses(s, q) && IsRecord(r) && |t| == Taken(|r|) && Header(|r|) + r <= t
    ensures Parses(s + t, q + [r])
  {
    if |q| == 0 {
      assert s + t == t && q + [r] == [r];
      OneRecord(t, r);
    } else {
      var n := Taken(|q[0]|);
      ParsesSnoc(s[n..], q[1..], t, r);
      FrontSame(s, t, 2 + |q[0]|, n);
      assert (q + [r])[1..] == q[1..] + [r];
    }
  }

  lemma FrontSame(s: Bytes, t: Bytes, m: nat, n: nat)
    requires 2 <= m <= n <= |s|
    ensures (s + t)[..2] == s[..2] && (s + t)[2..m] == s[2..m] && (s + t)[n..] == s[n..] + t
  {
  }

  /** A stream of records holds at most one list of records. */
  lemma {:induction false} ParsesUnique(s: Bytes, q: seq<Bytes>, q': seq<Bytes>)
    requires Parses(s, q) && Parses(s, q')
    ensures q == q'
  {
    if |q| > 0 && |q'| > 0 {
      assert HeaderLen(s[..2]) == |q[0]| && HeaderLen(s[..2]) == |q'[0]|;
      ParsesUnique(s[Taken(|q[0]|)..], q[1..], q'[1..]);
      assert q == [q[0]] + q[1..] && q' == [q'[0]] + q'[1..];
    }
  }

  // ---- What an append stores ----

  /** Byte `i` of the caller's memory, counted from the start of the record. */
  type Memory = int -> byte

  predicate Holds(mem: Memory, r: Bytes) {
    forall i :: 0 <= i < |r| ==> mem(i) == r[i]
  }

  /** Where a later page's data is copied from, with `copied` bytes (header included) stored. */
  function Source(coding: Coding, copied: nat): int {
    if coding.AsWritten? then 2 - copied else copied - 2
  }

  function Read(mem: Memory, from: int, n: nat): (b: Bytes)
    ensures |b| == n
  {
    seq(n, i => mem(from + i))
  }

  /** The data stored in the pages after the first. */
  function StoredFrom(coding: Coding, mem: Memory, len: nat, size: nat, copied: nat): (b: Bytes)
    requires size > 0 && 2 <= copied <= len + 2
    ensures |b| == len + 2 - copied
    decreases len + 2 - copied
  {
    if copied == len + 2 then []
    else
      var n := Min(len + 2 - copied, size);
      Read(mem, Source(coding, copied), n) + StoredFrom(coding, mem, len, size, copied + n)
  }

  /** The record a reader gets back: `room` bytes were left for it in its first page. */
  function Stored(coding: Coding, mem: Memory, len: nat, size: nat, room: nat): (b: Bytes)
    requires size > 0 && room >= 2
    ensures |b| == len
  {
    var first := Min(len, room - 2);
    Read(mem, 0, first) + StoredFrom(coding, mem, len, size, 2 + first)
  }

  lemma ReadIs(mem: Memory, r: Bytes, from: nat, n: nat)
    requires Holds(mem, r) && from + n <= |r|
    ensures Read(mem, from, n) == r[from..from + n]
  {
  }

  lemma SplitAt(r: Bytes, from: nat, n: nat)
    requires from + n <= |r|
    ensures r[from..] == r[from..from + n] + r[from + n..]
  {
  }

  lemma {:induction false} IntendedFrom(mem: Memory, r: Bytes, size: nat, copied: nat)
    requires size > 0 && Holds(mem, r) && 2 <= copied <= |r| + 2
    ensures StoredFrom(Intended, mem, |r|, size, copied) == r[copied - 2..]
    decreases |r| + 2 - copied
  {
    if copied < |r| + 2 {
      var n := Min(|r| + 2 - copied, size);
      IntendedFrom(mem, r, size, copied + n);
      var from: nat := copied - 2;
      ReadIs(mem, r, from, n);
      SplitAt(r, from, n);
    }
  }

  /** With the intended source every record is stored as given. */
  lemma IntendedStores(mem: Memory, r: Bytes, size: nat, room: nat)
    requires size > 0 && room >= 2 && Holds(mem, r)
    ensures Stored(Intended, mem, |r|, size, room) == r
  {
    var first := Min(|r|, room - 2);
    IntendedFrom(mem, r, size, 2 + first);
    assert Read(mem, 0, first) == r[..first];
    assert r == r[..first] + r[first..];
  }

  /** The copies start at the record's first byte: it fits its first page, or that page takes
      only its header and the next one all its data. */
  predicate CopiedInOne(len: nat, size: nat, room: nat) {
    len <= room - 2 || (room == 2 && len <= size)
  }

  /** The caller's memory with `other` everywhere around the record. */
  function Around(r: Bytes, other: byte): Memory {
    (i: int) => if 0 <= i < |r| then r[i] else other
  }

  /** As the repository writes the source, an append stores the record whatever surrounds it in
      memory exactly when it is copied in one piece. */
  lemma AsWrittenStores(r: Bytes, size: nat, room: nat)
    requires size > 0 && room >= 2
    ensures (forall mem: Memory :: Holds(mem, r) ==> Stored(AsWritten, mem, |r|, size, room) == r) <==>
      CopiedInOne(|r|, size, room)
  {
    var first := Min(|r|, room - 2);
    if CopiedInOne(|r|, size, room) {
      forall mem: Memory | Holds(mem, r) ensures Stored(AsWritten, mem, |r|, size, room) == r {
        assert Read(mem, 0, first) == r[..first];
        if first < |r| {
          assert Min(|r| + 2 - 2, size) == |r|;
          assert StoredFrom(AsWritten, mem, |r|, size, 2 + |r|) == [];
          assert Read(mem, 0, |r|) == r;
        }
      }
    } else {
      // The first copy whose source lies before the record.
      var at := if first > 0 then first else size;
      var mem := Around(r, (r[at] as int + 1) % 256);
      assert Holds(mem, r);
      var s := Stored(AsWritten, mem, |r|, size, room);
      var later := StoredFrom(AsWritten, mem, |r|, size, 2 + at);
      assert later[0] == mem(-at);
      assert s[first..] == StoredFrom(AsWritten, mem, |r|, size, 2 + first);
      if first == 0 {
        assert s[at..] == later;
      }
      assert s[at] != r[at];
    }
  }

  /** What is still to be stored when `copied` bytes are. */
  function Pending(header: Bytes, coding: Coding, mem: Memory, len: nat, size: nat, copied: nat): Bytes
    requires size >= 2 && |header| == 2 && copied != 1 && copied <= len + 2
  {
    if copied == 0 then header + Stored(coding, mem, len, size, size)
    else StoredFrom(coding, mem, len, size, copied)
  }

  /** What goes into the next new page. */
  function Chunk(header: Bytes, coding: Coding, mem: Memory, len: nat, size: nat, copied: nat): (c: Bytes)
    requires size >= 2 && |header| == 2 && copied != 1 && copied < len + 2
    ensures 0 < |c| <= size && copied + |c| <= len + 2 && (copied + |c| < len + 2 ==> |c| == size) && copied + |c| > 1
    ensures Pending(header, coding, mem, len, size, copied) == c + Pending(header, coding, mem, len, size, copied + |c|)
  {
    if copied == 0 then header + Read(mem, 0, Min(len, size - 2))
    else Read(mem, Source(coding, copied), Min(len + 2 - copied, size))
  }

  // ---- The spool file ----

  /** The fields of a spool file: its page list, record and page counts, where the first record
      starts in the first page and where the last one ends in the last page. */
  datatype Fields = Fields(list: seq<Bytes>, recs: nat, pages: nat, frecoff: nat, lrecoff: nat) {
    /** Unused bytes at the end of the last page. */
    function Tail(size: nat): nat {
      if |list| == 0 || lrecoff > size then 0 else size - lrecoff
    }

    /** Bytes the next record finds in its first page. */
    function Room(size: nat): nat {
      if pages > 0 && lrecoff + 2 <= size then size - lrecoff else size
    }

    /** Bytes of a record, header included, that go into the last page. */
    function Copied(size: nat, len: nat): nat {
      if pages > 0 && lrecoff + 2 <= size then 2 + Min(len, size - lrecoff - 2) else 0
    }

    /** Bytes left in the last page, if there are at least two. */
    function Left(size: nat): nat {
      if pages > 0 && size >= lrecoff + 2 then size - lrecoff else 0
    }

    /** Pages a record takes that is not empty: what does not go into the last page, header included, in
        whole pages. */
    function NewPages(size: nat, len: nat): nat
      requires size > 0
    {
      if len + 2 <= Left(size) then 0 else (len + 2 - Left(size) + size - 1) / size
    }

    predicate Shape(size: nat) {
      && size >= 2 && Pad(size) == 0
      && AllSized(list, size)
      && pages == |list|
      && Pad(frecoff) == 0 && Pad(lrecoff) == 0 && lrecoff <= size
      && (if |list| == 0 then frecoff == 0 else frecoff < size)
      && frecoff + Tail(size) <= |Flat(list)|
    }

    /** The bytes from the first record to the end of the last. */
    function Stream(size: nat): Bytes
      requires Shape(size)
    {
      UpTo(list, Tail(size))[frecoff..]
    }

    /** The chain holds exactly the records of `queue`. */
    ghost predicate Ok(size: nat, queue: seq<Bytes>) {
      Shape(size) && recs == |queue| && Parses(Stream(size), queue)
    }
  }

  lemma SameOk(f: Fields, list: seq<Bytes>, size: nat, queue: seq<Bytes>)
    requires f.Ok(size, queue) && |list| == |f.list| && AllSized(list, size) && |Flat(list)| == |Flat(f.list)|
    requires f.Tail(size) <= |Flat(list)| && UpTo(list, f.Tail(size)) == UpTo(f.list, f.Tail(size))
    ensures f.(list := list).Ok(size, queue)
  {
    assert f.(list := list).Tail(size) == f.Tail(size);
  }

  class SpoolFile {
    const size: nat
    const coding: Coding
    var f: Fields
    // The records not yet grabbed.
    ghost var queue: seq<Bytes>

    ghost predicate Valid()
      reads this
    {
      f.Ok(size, queue)
    }

    constructor (size: nat, coding: Coding)
      requires size >= 2 && Pad(size) == 0
      ensures Valid() && queue == [] && this.size == size && this.coding == coding
    {
      this.size, this.coding := size, coding;
      f, queue := Fields([], 0, 0, 0, 0), [];
    }

    method NRecs() returns (n: nat)
      requires Valid()
      ensures n == |queue|
    {
      n := f.recs;
    }

    /** Append the `len` bytes at `mem`; `supply` are the pages the allocator can give, whatever they
        hold. Without memory for all the pages it needs the queue stays as it was. */
    method AppendRec(mem: Memory, len: nat, supply: seq<Bytes>) returns (ret: Status)
      requires Valid() && len < 0x10000 && AllSized(supply, size)
      modifies this
      ensures Valid()
      ensures ret ==
        if len == 0 then EINVAL
        else if old(f.NewPages(size, len)) <= |supply| then Done
        else ENOMEM
      ensures ret == Done ==> f.pages == old(f.pages) + old(f.NewPages(size, len)) && f.recs == old(f.recs) + 1
      ensures ret == Done ==> queue == old(queue) + [Stored(coding, mem, len, size, old(f.Room(size)))]
      ensures ret != Done ==> queue == old(queue) && f.recs == old(f.recs) && f.pages == old(f.pages)
    {
      if len == 0 { return EINVAL; }
      NewPagesIs(f, size, len);
      var ok, g := Append(f, size, coding, mem, len, supply, queue);
      if ok { queue := queue + [Stored(coding, mem, len, size, f.Room(size))]; }
      f := g;
      return if ok then Done else ENOMEM;
    }

    /** Take the oldest record: at most `cap` bytes of it are returned, and all of it is dropped. */
    method GrabRec(cap: nat) returns (ret: Status, data: Bytes)
      requires Valid()
      modifies this
      ensures Valid()
      ensures ret == if cap == 0 then EINVAL else if |old(queue)| == 0 then ENOENT else Done
      ensures ret == Done ==> data == old(queue)[0][..Min(cap, |old(queue)[0]|)] && queue == old(queue)[1..]
      ensures ret != Done ==> data == [] && queue == old(queue) && f == old(f)
    {
      if cap == 0 { return EINVAL, []; }
      if f.recs == 0 { return ENOENT, []; }
      f, data := Grab(f, size, cap, queue);
      queue := queue[1..];
      return Done, data;
    }
  }

  method Append(f: Fields, size: nat, coding: Coding, mem: Memory, len: nat, supply: seq<Bytes>,
      ghost queue: seq<Bytes>)
      returns (ok: bool, g: Fields)
    requires f.Ok(size, queue) && 0 < len < 0x10000 && AllSized(supply, size)
    ensures ok <==> PagesFor(len, size, f.Copied(size, len)) <= |supply|
    ensures ok ==> g.Ok(size, queue + [Stored(coding, mem, len, size, f.Room(size))])
    ensures ok ==> g.pages == f.pages + PagesFor(len, size, f.Copied(size, len)) && g.recs == f.recs + 1
    ensures !ok ==> g.Ok(size, queue) && g.recs == f.recs && g.pages == f.pages
  {
    ghost var data := Stored(coding, mem, len, size, f.Room(size));
    var header := Header(len);
    ghost var goal := UpTo(f.list, f.Tail(size)) + header + data;
    var list, copied, loff := FirstPage(f, size, header, coding, mem, len, queue, goal);
    if copied != len + 2 {
      var added: seq<Bytes>;
      ok, added, loff := AddPages(list, size, header, coding, mem, len, copied, supply, goal);
      if !ok { return false, f.(list := list); }
      list := list + added;
    }
    g := Fields(list, f.recs + 1, |list|, f.frecoff, loff + Pad(loff));
    AppendedOk(f, g, size, queue, data, loff);
    ok := true;
  }

  /** Try to fill up the last page. */
  method FirstPage(f: Fields, size: nat, header: Bytes, coding: Coding, mem: Memory, len: nat,
      ghost queue: seq<Bytes>, ghost goal: Bytes)
      returns (list: seq<Bytes>, copied: nat, loff: nat)
    requires f.Ok(size, queue) && |header| == 2 && 0 < len
    requires goal == UpTo(f.list, f.Tail(size)) + header + Stored(coding, mem, len, size, f.Room(size))
    ensures f.(list := list).Ok(size, queue) && copied == f.Copied(size, len)
    ensures copied != 1 && copied <= len + 2 && |list| == |f.list|
    ensures copied == len + 2 ==> |list| > 0 && Pad(loff) == Pad(len)
    ensures copied < len + 2 ==> loff == size && Pad(copied) == 0
    ensures Storing(list, size, loff, Pending(header, coding, mem, len, size, copied), goal)
  {
    list, copied, loff := f.list, 0, size;
    if f.pages > 0 && f.lrecoff + 2 <= size {
      var first := Read(mem, 0, Min(len, size - f.lrecoff - 2));
      Filled(f, size, header, first, StoredFrom(coding, mem, len, size, 2 + |first|), queue, goal);
      FilledTo(f.lrecoff, 2 + |first|, size, len);
      list, copied, loff := FillLast(list, f.lrecoff, header + first), 2 + |first|, f.lrecoff + 2 + |first|;
    } else {
      Unfilled(f, size, header, Stored(coding, mem, len, size, size), queue, goal);
    }
  }

  lemma Filled(f: Fields, size: nat, header: Bytes, first: Bytes, later: Bytes, queue: seq<Bytes>, goal: Bytes)
    requires f.Ok(size, queue) && |header| == 2 && f.pages > 0 && f.lrecoff + 2 + |first| <= size
    requires goal == UpTo(f.list, f.Tail(size)) + header + (first + later)
    ensures var list := FillLast(f.list, f.lrecoff, header + first);
      f.(list := list).Ok(size, queue) && Storing(list, size, f.lrecoff + 2 + |first|, later, goal)
  {
    var chunk := header + first;
    FillsLast(f.list, size, f.lrecoff, chunk);
    SameOk(f, FillLast(f.list, f.lrecoff, chunk), size, queue);
    FirstStored(UpTo(f.list, f.Tail(size)), header, first, later);
  }

  /** A record that fills its first page, or ends in it, ends at an offset of its own parity. */
  lemma FilledTo(off: nat, n: nat, size: nat, len: nat)
    requires Pad(off) == 0 && Pad(size) == 0 && off + n <= size && n <= len + 2
    ensures n == len + 2 ==> Pad(off + n) == Pad(len)
    ensures off + n == size ==> Pad(n) == 0
  {
    PadSum(off, n);
  }

  lemma Unfilled(f: Fields, size: nat, header: Bytes, data: Bytes, queue: seq<Bytes>, goal: Bytes)
    requires f.Ok(size, queue) && !(f.pages > 0 && f.lrecoff + 2 <= size)
    requires goal == UpTo(f.list, f.Tail(size)) + header + data
    ensures Storing(f.list, size, size, header + data, goal)
  {
    PadFits(f.lrecoff, size);
    FirstStored(UpTo(f.list, 0), header, [], data);
  }

  lemma FirstStored(was: Bytes, header: Bytes, first: Bytes, later: Bytes)
    ensures was + header + (first + later) == was + (header + first) + later
    ensures first == [] ==> was + header + later == was + (header + later)
  {
  }

  /** A chain with one more record at its end, padded to an even length. */
  lemma AppendedOk(f: Fields, g: Fields, size: nat, queue: seq<Bytes>, data: Bytes, loff: nat)
    requires f.Ok(size, queue) && IsRecord(data) && AllSized(g.list, size) && |g.list| > 0
    requires g == Fields(g.list, f.recs + 1, |g.list|, f.frecoff, loff + Pad(loff)) && Pad(loff) == Pad(|data|)
    requires Storing(g.list, size, loff, [], UpTo(f.list, f.Tail(size)) + Header(|data|) + data)
    ensures g.Ok(size, queue + [data])
  {
    PadFits(loff, size);
    FinishedStream(g.list, size, loff, UpTo(f.list, f.Tail(size)), f.frecoff, queue, data);
    AppendedShape(f, g, size, loff);
  }

  lemma AppendedShape(f: Fields, g: Fields, size: nat, loff: nat)
    requires f.Shape(size) && AllSized(g.list, size) && |g.list| > 0 && loff <= size
    requires f.frecoff <= |Flat(g.list)| - (size - loff)
    requires g == Fields(g.list, f.recs + 1, |g.list|, f.frecoff, loff + Pad(loff))
    ensures g.Shape(size) && g.Tail(size) == size - loff - Pad(loff) >= 0
  {
    PadMore(loff);
    PadFits(loff, size);
  }

  lemma FinishedStream(chain: seq<Bytes>, size: nat, loff: nat, was: Bytes, off: nat, queue: seq<Bytes>, data: Bytes)
    requires off <= |was| && Parses(was[off..], queue) && IsRecord(data) && loff + Pad(|data|) <= size
    requires Storing(chain, size, loff, [], was + Header(|data|) + data)
    ensures var tail: nat := size - loff - Pad(|data|);
      tail <= |Flat(chain)| && off <= |UpTo(chain, tail)| && Parses(UpTo(chain, tail)[off..], queue + [data])
  {
    Finished(chain, size, loff, was, Header(|data|), data);
    Aligned(was, Header(|data|) + data, chain, size - loff, off, queue, data);
  }

  lemma Finished(chain: seq<Bytes>, size: nat, loff: nat, was: Bytes, header: Bytes, data: Bytes)
    requires Storing(chain, size, loff, [], was + header + data)
    ensures UpTo(chain, size - loff) == was + (header + data)
  {
    FirstStored(was, header, [], data);
    assert UpTo(chain, size - loff) + [] == UpTo(chain, size - loff);
  }

  method Grab(f: Fields, size: nat, cap: nat, ghost queue: seq<Bytes>) returns (g: Fields, data: Bytes)
    requires f.Ok(size, queue) && |queue| > 0 && cap > 0
    ensures g.Ok(size, queue[1..]) && data == queue[0][..Min(cap, |queue[0]|)]
  {
    ghost var rest, tail := After(f.list, f.frecoff), f.Tail(size);
    FirstRecord(f.list, size, f.frecoff, tail, queue);
    var reclen := HeaderLen(f.list[0][f.frecoff..f.frecoff + 2]);
    var list, freed, offset;
    list, freed, offset, data := Extract(f.list, size, f.frecoff, cap, reclen, rest);
    Prefix(rest, queue[0], Min(cap, reclen));
    var last;
    list, last, offset := SkipPadding(list, size, offset, reclen, rest);
    g := Fields(list, f.recs - 1, f.pages - freed - last, offset, f.lrecoff);
    GrabbedOk(f, g, size, queue, rest, tail);
  }

  lemma GrabbedOk(f: Fields, g: Fields, size: nat, queue: seq<Bytes>, rest: Bytes, tail: nat)
    requires f.Ok(size, queue) && |queue| > 0 && |f.list| > 0 && tail == f.Tail(size)
    requires g == Fields(g.list, f.recs - 1, |g.list|, g.frecoff, f.lrecoff) && AllSized(g.list, size)
    requires Pad(g.frecoff) == 0
    requires if |g.list| == 0 then g.frecoff == 0 else g.frecoff < size
    requires Taken(|queue[0]|) + tail <= |rest| && Parses(rest[Taken(|queue[0]|)..|rest| - tail], queue[1..])
    requires g.frecoff <= |Flat(g.list)| && After(g.list, g.frecoff) == rest[Taken(|queue[0]|)..]
    ensures g.Ok(size, queue[1..])
  {
    StreamLeft(g.list, rest, g.frecoff, Taken(|queue[0]|), tail, g.Tail(size));
  }

  /** Step over the padding byte of a record, and free a page that is used up. */
  method SkipPadding(pages: seq<Bytes>, size: nat, start: nat, reclen: nat, ghost rest: Bytes)
      returns (list: seq<Bytes>, freed: nat, offset: nat)
    requires At(pages, size, rest, start, reclen + 2) && Pad(size) == 0 && size > 0 && Taken(reclen) <= |rest|
    ensures AllSized(list, size) && |list| + freed == |pages| && Pad(offset) == 0
    ensures if |list| == 0 then offset == 0 else offset < size
    ensures offset <= |Flat(list)| && After(list, offset) == rest[Taken(reclen)..]
  {
    list, freed, offset := pages, 0, start;
    PadMore(offset);
    PadFits(offset, size);
    if Pad(offset) == 1 {
      Advance(list, size, rest, offset, reclen + 2, 1);
      offset := offset + 1;
    }
    if offset == size {
      LastPage(list, size, rest, Taken(reclen));
      list, freed, offset := list[1..], 1, 0;
    }
  }

  lemma Prefix(rest: Bytes, record: Bytes, n: nat)
    requires |record| + 2 <= |rest| && rest[2..2 + |record|] == record && n <= |record|
    ensures rest[2..2 + n] == record[..n]
  {
    assert rest[2..2 + |record|][..n] == rest[2..2 + n];
  }

  /** New pages needed when `copied` bytes of a record, header included, are stored. */
  function PagesFor(len: nat, size: nat, copied: nat): nat
    requires size > 0
    decreases len + 2 - copied
  {
    if copied >= len + 2 then 0 else 1 + PagesFor(len, size, copied + size)
  }

  lemma {:induction false} PagesForIs(len: nat, size: nat, copied: nat)
    requires size > 0
    ensures PagesFor(len, size, copied) == Ceiling.CeilDiv(if copied < len + 2 then len + 2 - copied else 0, size)
    decreases len + 2 - copied
  {
    if copied < len + 2 { PagesForIs(len, size, copied + size); }
  }

  lemma NewPagesIs(f: Fields, size: nat, len: nat)
    requires size > 0 && len > 0
    ensures f.NewPages(size, len) == PagesFor(len, size, f.Copied(size, len))
  {
    PagesForIs(len, size, f.Copied(size, len));
    if len + 2 > f.Left(size) { Ceiling.CeilIs(len + 2 - f.Left(size), size); }
  }

  /** `copied` bytes of a record are stored, the last `loff` in the last page; with what is
      pending the stream is `goal`. */
  ghost predicate Storing(pages: seq<Bytes>, size: nat, loff: nat, later: Bytes, goal: Bytes) {
    loff <= size && size - loff <= |Flat(pages)| && UpTo(pages, size - loff) + later == goal
  }

  /** Store what is left of a record in new pages; `goal` is the whole stream after that. */
  method AddPages(list: seq<Bytes>, size: nat, header: Bytes, coding: Coding, mem: Memory, len: nat, done: nat,
      supply: seq<Bytes>, ghost goal: Bytes)
      returns (ok: bool, added: seq<Bytes>, loff: nat)
    requires size >= 2 && Pad(size) == 0 && |header| == 2 && done < len + 2 && Pad(done) == 0
    requires Storing(list, size, size, Pending(header, coding, mem, len, size, done), goal)
    requires AllSized(supply, size)
    ensures AllSized(added, size) && (ok <==> PagesFor(len, size, done) <= |supply|)
    ensures ok ==> |added| == PagesFor(len, size, done)
    ensures ok ==>
      |added| > 0 && 0 < loff <= size && Pad(loff) == Pad(len) && Storing(list + added, size, loff, [], goal)
  {
    var copied: nat := done;
    added, loff := [], size;
    assert list + added == list;
    while copied != len + 2
      invariant copied != 1 && copied <= len + 2 && Pad(copied) == Pad(loff) && 0 < loff <= size
      invariant copied == len + 2 ==> |added| > 0
      invariant AllSized(added, size) && |added| <= |supply|
      invariant PagesFor(len, size, done) == |added| + PagesFor(len, size, copied)
      invariant copied < len + 2 ==> loff == size
      invariant Storing(list + added, size, loff, Pending(header, coding, mem, len, size, copied), goal)
      decreases len + 2 - copied
    {
      if |added| == |supply| { return false, added, loff; }
      added, loff := StorePage(list, added, size, header, coding, mem, len, copied, supply[|added|], goal);
      copied := copied + loff;
    }
    ok := true;
  }

  /** Store the next part of a record in one new page. */
  method StorePage(list: seq<Bytes>, was: seq<Bytes>, size: nat, header: Bytes, coding: Coding, mem: Memory, len: nat,
      copied: nat, page: Bytes, ghost goal: Bytes)
      returns (added: seq<Bytes>, loff: nat)
    requires size >= 2 && |header| == 2 && copied < len + 2 && Pad(copied) == 0 && |page| == size && AllSized(was, size)
    requires Storing(list + was, size, size, Pending(header, coding, mem, len, size, copied), goal)
    ensures AllSized(added, size) && |added| == |was| + 1 && 0 < loff <= size
    ensures copied + loff <= len + 2 && copied + loff != 1 && (copied + loff < len + 2 ==> loff == size)
    ensures Pad(copied + loff) == Pad(loff)
    ensures Storing(list + added, size, loff, Pending(header, coding, mem, len, size, copied + loff), goal)
  {
    var chunk := Chunk(header, coding, mem, len, size, copied);
    StoreChunk(list, was, size, page, chunk, Pending(header, coding, mem, len, size, copied + |chunk|), goal);
    PadSum(copied, |chunk|);
    added, loff := was + [Splice(page, 0, chunk)], |chunk|;
  }

  lemma CopiedOut(list: seq<Bytes>, rest: Bytes, off: nat, done: nat, n: nat)
    requires |list| > 0 && off + n <= |list[0]| && 2 <= done && done + n <= |rest|
    requires list[0][off..off + n] == rest[done..done + n]
    ensures rest[2..done] + list[0][off..off + n] == rest[2..done + n]
  {
    Joined(rest, 2, done, n);
  }

  /** Take a record of `reclen` bytes off the front of the chain and copy its first bytes out. */
  method Extract(pages: seq<Bytes>, size: nat, frecoff: nat, cap: nat, reclen: nat, ghost rest: Bytes)
      returns (list: seq<Bytes>, freed: nat, offset: nat, data: Bytes)
    requires At(pages, size, rest, frecoff, 0) && frecoff + 2 <= size && Pad(size) == 0
    requires 0 < cap && 0 < reclen && reclen + 2 <= |rest|
    ensures At(list, size, rest, offset, reclen + 2) && |list| + freed == |pages|
    ensures data == rest[2..2 + Min(cap, reclen)]
  {
    list, freed, offset, data := pages, 0, frecoff + 2, [];
    var rlen := Min(cap, reclen) + 2;
    var copied: nat, processed: nat := 2, 2;
    Advance(list, size, rest, frecoff, 0, 2);
    while reclen + 2 != processed
      invariant 2 <= copied <= rlen && copied <= processed <= reclen + 2 && (copied < rlen ==> copied == processed)
      invariant At(list, size, rest, offset, processed) && |list| + freed == |pages|
      invariant data == rest[2..copied]
      decreases reclen + 2 - processed
    {
      if offset == size {
        NextPage(list, size, rest, processed);
        list, freed, offset := list[1..], freed + 1, 0;
      }
      var left := size - offset;
      var tmp := if rlen != copied then Min(left, rlen - copied) else Min(left, reclen - processed + 2);
      Advance(list, size, rest, offset, processed, tmp);
      if rlen != copied {
        CopiedOut(list, rest, offset, processed, tmp);
        data := data + list[0][offset..offset + tmp];
        copied := copied + tmp;
      }
      processed, offset := processed + tmp, offset + tmp;
    }
  }

  /** The bytes of the chain from `off` on. */
  function After(list: seq<Bytes>, off: nat): Bytes
    requires off <= |Flat(list)|
  {
    Flat(list)[off..]
  }

  /** `off` bytes into the first page, `done` bytes of `rest` have been taken. */
  predicate At(list: seq<Bytes>, size: nat, rest: Bytes, off: nat, done: nat) {
    && AllSized(list, size) && |list| > 0 && off <= size && Pad(off) == Pad(done)
    && done <= |rest| && off <= |Flat(list)| && After(list, off) == rest[done..]
  }

  lemma DropPage(list: seq<Bytes>, size: nat)
    requires |list| > 0 && AllSized(list, size)
    ensures AllSized(list[1..], size) && size <= |Flat(list)| && After(list, size) == After(list[1..], 0)
  {
  }

  lemma Joined(s: Bytes, i: nat, j: nat, n: nat)
    requires i <= j && j + n <= |s|
    ensures s[i..j] + s[j..j + n] == s[i..j + n]
  {
  }

  lemma NextPage(list: seq<Bytes>, size: nat, rest: Bytes, done: nat)
    requires At(list, size, rest, size, done) && done < |rest| && Pad(size) == 0
    ensures At(list[1..], size, rest, 0, done)
  {
    DropPage(list, size);
  }

  lemma Advance(list: seq<Bytes>, size: nat, rest: Bytes, off: nat, done: nat, n: nat)
    requires At(list, size, rest, off, done) && off + n <= size && done + n <= |rest|
    ensures At(list, size, rest, off + n, done + n)
    ensures off + n <= |list[0]| && list[0][off..off + n] == rest[done..done + n]
  {
    PadShift(off, done, n);
    InFirst(list, size, off, n);
    CutOff(rest, done, n);
  }

  /** `n` bytes inside the first page. */
  lemma InFirst(list: seq<Bytes>, size: nat, off: nat, n: nat)
    requires |list| > 0 && AllSized(list, size) && off + n <= size
    ensures size <= |Flat(list)| && off + n <= |list[0]|
    ensures After(list, off)[..n] == list[0][off..off + n] && After(list, off)[n..] == After(list, off + n)
  {
    var first, others := list[0], Flat(list[1..]);
    assert (first + others)[off..][..n] == first[off..off + n];
    assert (first + others)[off..][n..] == (first + others)[off + n..];
  }

  lemma CutOff(rest: Bytes, done: nat, n: nat)
    requires done + n <= |rest|
    ensures rest[done..][..n] == rest[done..done + n] && rest[done..][n..] == rest[done + n..]
  {
  }

  lemma LastPage(list: seq<Bytes>, size: nat, rest: Bytes, done: nat)
    requires At(list, size, rest, size, done)
    ensures AllSized(list[1..], size) && After(list[1..], 0) == rest[done..]
  {
    DropPage(list, size);
  }

  /** What is left of the chain after a grab is the stream without its first record. */
  lemma StreamLeft(list: seq<Bytes>, rest: Bytes, off: nat, done: nat, was: nat, tail: nat)
    requires off <= |Flat(list)| && done + was <= |rest| && After(list, off) == rest[done..]
    requires tail == if |list| == 0 then 0 else was
    ensures off + tail <= |Flat(list)| && UpTo(list, tail)[off..] == rest[done..|rest| - was]
  {
  }

  predicate AllSized(list: seq<Bytes>, size: nat) {
    forall i :: 0 <= i < |list| ==> |list[i]| == size
  }

  /** The chain with `t` written at `off` of its last page. */
  function FillLast(list: seq<Bytes>, off: nat, t: Bytes): seq<Bytes>
    requires |list| > 0 && off + |t| <= |list[|list| - 1]|
  {
    list[|list| - 1 := Splice(list[|list| - 1], off, t)]
  }

  lemma FillsLast(list: seq<Bytes>, size: nat, off: nat, t: Bytes)
    requires |list| > 0 && AllSized(list, size) && off + |t| <= size
    ensures var r := FillLast(list, off, t); AllSized(r, size) && size - off <= |Flat(list)| == |Flat(r)|
    ensures var r := FillLast(list, off, t); UpTo(r, size - off) == UpTo(list, size - off)
    ensures var r := FillLast(list, off, t); UpTo(r, size - off - |t|) == UpTo(list, size - off) + t
  {
    var r := FillLast(list, off, t);
    var init, last := list[..|list| - 1], list[|list| - 1];
    assert list == init + [last] && r == init + [Splice(last, off, t)];
    FlatSnoc(init, last);
    FlatSnoc(init, Splice(last, off, t));
    assert UpTo(list, size - off) == Flat(init) + last[..off];
  }

  lemma StoreChunk(list: seq<Bytes>, added: seq<Bytes>, size: nat, page: Bytes, chunk: Bytes, later: Bytes, goal: Bytes)
    requires |page| == size && |chunk| <= size && AllSized(added, size)
    requires Storing(list + added, size, size, chunk + later, goal)
    ensures AllSized(added + [Splice(page, 0, chunk)], size)
    ensures Storing(list + (added + [Splice(page, 0, chunk)]), size, |chunk|, later, goal)
  {
    var now := list + (added + [Splice(page, 0, chunk)]);
    assert now == list + added + [Splice(page, 0, chunk)];
    AddsPage(list + added, size, page, chunk);
    assert UpTo(list + added, 0) == Flat(list + added);
    assert UpTo(now, size - |chunk|) + later == Flat(list + added) + (chunk + later);
  }

  lemma AddsPage(list: seq<Bytes>, size: nat, page: Bytes, t: Bytes)
    requires |page| == size && |t| <= size
    ensures var r := list + [Splice(page, 0, t)]; size - |t| <= |Flat(r)| && UpTo(r, size - |t|) == Flat(list) + t
  {
    FlatSnoc(list, Splice(page, 0, t));
  }

  /** A finished append, padded to an even length, is one more record of the stream. */
  lemma Aligned(was: Bytes, all: Bytes, chain: seq<Bytes>, tail: nat, off: nat, queue: seq<Bytes>, data: Bytes)
    requires off <= |was| && Parses(was[off..], queue) && IsRecord(data) && all == Header(|data|) + data
    requires Pad(|data|) <= tail <= |Flat(chain)| && UpTo(chain, tail) == was + all
    ensures off <= |UpTo(chain, tail - Pad(|data|))| && Parses(UpTo(chain, tail - Pad(|data|))[off..], queue + [data])
  {
    var s := UpTo(chain, tail - Pad(|data|));
    var t := s[|was|..];
    assert s[..|was| + |all|] == was + all;
    assert s[off..] == was[off..] + t;
    assert t[..|all|] == s[..|was| + |all|][|was|..];
    ParsesSnoc(was[off..], queue, t, data);
  }

  /** The oldest record starts in the first page, and its header does not straddle two pages. */
  lemma FirstRecord(list: seq<Bytes>, size: nat, off: nat, tail: nat, queue: seq<Bytes>)
    requires AllSized(list, size) && Pad(size) == 0 && Pad(off) == 0 && |queue| > 0
    requires (|list| > 0 ==> off < size) && off + tail <= |Flat(list)| && Parses(UpTo(list, tail)[off..], queue)
    ensures |list| > 0 && off + 2 <= size == |list[0]| && HeaderLen(list[0][off..off + 2]) == |queue[0]|
    ensures At(list, size, After(list, off), off, 0)
    ensures var rest := After(list, off);
      && Taken(|queue[0]|) + tail <= |rest| && rest[2..2 + |queue[0]|] == queue[0]
      && Parses(rest[Taken(|queue[0]|)..|rest| - tail], queue[1..])
  {
    PadFits(off, size);
    var rest := After(list, off);
    UpToAfter(list, off, tail);
    PrefixParse(rest, |rest| - tail, queue);
    assert rest[0..] == rest && rest[..2] == rest[0..2];
    InFirst(list, size, off, 2);
  }

  lemma UpToAfter(list: seq<Bytes>, off: nat, tail: nat)
    requires off + tail <= |Flat(list)|
    ensures |After(list, off)| >= tail && UpTo(list, tail)[off..] == After(list, off)[..|After(list, off)| - tail]
  {
  }

  lemma PrefixParse(rest: Bytes, k: nat, queue: seq<Bytes>)
    requires k <= |rest| && |queue| > 0 && Parses(rest[..k], queue)
    ensures var n := |queue[0]|;
      && Taken(n) <= k && HeaderLen(rest[0..2]) == n && rest[2..2 + n] == queue[0]
      && Parses(rest[Taken(n)..k], queue[1..])
  {
    var n := |queue[0]|;
    Cuts(rest, k, Taken(n), k);
    Cuts(rest, k, 2, 2 + n);
    Cuts(rest, k, 0, 2);
    HeaderBack(n);
  }

  lemma HeaderBack(n: nat)
    requires n < 0x10000
    ensures HeaderLen(Header(n)) == n
  {
  }

  lemma Cuts(rest: Bytes, k: nat, i: nat, j: nat)
    requires i <= j <= k <= |rest|
    ensures rest[..k][i..j] == rest[i..j] && rest[..k][i..] == rest[i..k]
  {
  }
}
