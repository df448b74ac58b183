/** Guest address spaces: segment and page tables in allocated page frames, and the guest storage
    mapped through them (cp/mm/dat.c, cp/guest/init.c). Addresses are in pages. */
module Storage {
  import opened Common
  import opened Bitmap
  import opened Ceiling
  import opened Buddy

  // Entries of a segment table and of a page table, and the pages they can map.
  const SEGMENTS := 2048
  const PTES := 256
  const SPACE := 0x8_0000

  /** A table; None is an invalid entry. */
  type Table = seq<Option<nat>>

  /** Storage that holds tables, by the frame number of their first page. */
  type Tables = map<nat, Table>

  function SegmentIndex(virt: nat): (s: nat)
    ensures s < SEGMENTS
  {
    virt / 256 % SEGMENTS
  }

  function PageIndex(virt: nat): (p: nat)
    ensures p < PTES
  {
    virt % 256
  }

  /** The walk translates a page number modulo 2GB: page numbers differ in an index unless they
      agree modulo the size of the space. */
  lemma IndicesSplit(v: nat, w: nat)
    ensures SegmentIndex(v) == SegmentIndex(w) && PageIndex(v) == PageIndex(w) <==> v % SPACE == w % SPACE
  {
    IndexParts(v);
    IndexParts(w);
  }

  lemma IndexParts(v: nat)
    ensures v % SPACE == SegmentIndex(v) * PTES + PageIndex(v)
  {
    var q := v / 256 / SEGMENTS;
    assert v == q * SPACE + SegmentIndex(v) * PTES + PageIndex(v);
    DivUnique(v, SPACE, q);
  }

  function Entry(mem: Tables, table: nat, i: nat): Option<nat> {
    if table in mem && i < |mem[table]| then mem[table][i] else None
  }

  /** Segment table, then page table. */
  function Walk(mem: Tables, seg: Option<nat>, virt: nat): Option<nat> {
    if seg.None? then None
    else
      var pt := Entry(mem, seg.value, SegmentIndex(virt));
      if pt.None? then None else Entry(mem, pt.value, PageIndex(virt))
  }

  // ---- Who uses the allocated blocks ----

  /** Guest `guest`'s segment table, its page table for segment `s`, or its storage page `k`. */
  datatype Use = SegTable(guest: nat) | PageTable(guest: nat, s: nat) | GuestPage(guest: nat, k: nat)

  type Frames = map<Use, nat>

  /** The tables in storage, each guest's segment table, the frame of every use, and the use of
      every table's frame. */
  datatype Space = Space(mem: Tables, segs: seq<Option<nat>>, frames: Frames, useOf: map<nat, Use>) {
    predicate TableAt(f: nat, u: Use, size: nat) {
      f in mem && f in useOf && useOf[f] == u && |mem[f]| == size && u in frames && frames[u] == f
    }

    /** Guest `g`'s table for segment `s` is where its segment table says, or does not exist. */
    predicate SegmentOk(g: nat, s: nat)
      requires g < |segs|
    {
      if segs[g].None? then PageTable(g, s) !in frames
      else
        var pt := Entry(mem, segs[g].value, s);
        if pt.None? then PageTable(g, s) !in frames else TableAt(pt.value, PageTable(g, s), PTES)
    }

    predicate GuestOk(g: nat)
      requires g < |segs|
    {
      if segs[g].None? then SegTable(g) !in frames else TableAt(segs[g].value, SegTable(g), SEGMENTS)
    }

    ghost predicate Ok() {
      && (forall g {:trigger GuestOk(g)} :: 0 <= g < |segs| ==> GuestOk(g))
      && (forall g, s {:trigger SegmentOk(g, s)} :: 0 <= g < |segs| && 0 <= s < SEGMENTS ==> SegmentOk(g, s))
      && (forall u {:trigger u in frames} :: u in frames ==> u.guest < |segs|)
    }

    /** The frame is not a table's. */
    predicate Unused(f: nat) { f !in mem }

    function Translate(g: nat, virt: nat): Option<nat>
      requires g < |segs|
    {
      Walk(mem, segs[g], virt)
    }

    function AddSegTable(g: nat, f: nat): Space
      requires g < |segs|
    {
      Space(mem[f := seq(SEGMENTS, _ => None)], segs[g := Some(f)], frames[SegTable(g) := f], useOf[f := SegTable(g)])
    }

    function AddPageTable(g: nat, s: nat, f: nat): Space
      requires g < |segs| && segs[g].Some? && segs[g].value in mem && s < |mem[segs[g].value]|
    {
      var st := segs[g].value;
      Space(mem[f := seq(PTES, _ => None)][st := mem[st][s := Some(f)]], segs, frames[PageTable(g, s) := f],
        useOf[f := PageTable(g, s)])
    }

    function SetPte(pt: nat, p: nat, phy: nat): Space
      requires pt in mem && p < |mem[pt]|
    {
      this.(mem := mem[pt := mem[pt][p := Some(phy)]])
    }
  }

  lemma SegTableAdded(a: Space, g: nat, f: nat)
    requires a.Ok() && g < |a.segs| && a.segs[g].None? && a.Unused(f) && SegTable(g) !in a.frames
    ensures var b := a.AddSegTable(g, f);
      b.Ok() && forall h, virt: nat {:trigger b.Translate(h, virt)} :: 0 <= h < |a.segs| ==>
        b.Translate(h, virt) == a.Translate(h, virt)
  {
    var b := a.AddSegTable(g, f);
    forall h | 0 <= h < |b.segs| ensures b.GuestOk(h) { assert a.GuestOk(h); }
    forall h, s | 0 <= h < |b.segs| && 0 <= s < SEGMENTS ensures b.SegmentOk(h, s) {
      assert a.SegmentOk(h, s) && a.GuestOk(h);
    }
    forall h, virt: nat | 0 <= h < |a.segs| ensures b.Translate(h, virt) == a.Translate(h, virt) {
      assert a.GuestOk(h) && a.SegmentOk(h, SegmentIndex(virt));
    }
  }

  lemma PageTableAdded(a: Space, g: nat, s: nat, f: nat)
    requires a.Ok() && g < |a.segs| && s < SEGMENTS && a.segs[g].Some? && a.Unused(f)
    requires a.GuestOk(g) && Entry(a.mem, a.segs[g].value, s).None?
    ensures var b := a.AddPageTable(g, s, f);
      b.Ok() && forall h, virt: nat {:trigger b.Translate(h, virt)} :: 0 <= h < |a.segs| ==>
        b.Translate(h, virt) == a.Translate(h, virt)
  {
    var b := a.AddPageTable(g, s, f);
    assert a.SegmentOk(g, s);
    forall h | 0 <= h < |b.segs| ensures b.GuestOk(h) { assert a.GuestOk(h); }
    forall h, t | 0 <= h < |b.segs| && 0 <= t < SEGMENTS ensures b.SegmentOk(h, t) {
      assert a.SegmentOk(h, t) && a.GuestOk(h);
    }
    forall h, virt: nat | 0 <= h < |a.segs| ensures b.Translate(h, virt) == a.Translate(h, virt) {
      assert a.GuestOk(h) && a.SegmentOk(h, SegmentIndex(virt));
    }
  }

  /** Setting a page table entry changes one page of one guest, and that page again every 2GB. */
  lemma PteSet(a: Space, g: nat, virt: nat, phy: nat)
    requires a.Ok() && g < |a.segs| && a.segs[g].Some? && Entry(a.mem, a.segs[g].value, SegmentIndex(virt)).Some?
    ensures var pt := Entry(a.mem, a.segs[g].value, SegmentIndex(virt)).value;
      pt in a.mem && |a.mem[pt]| == PTES &&
      var b := a.SetPte(pt, PageIndex(virt), phy);
      b.Ok() && forall h, w: nat {:trigger b.Translate(h, w)} :: 0 <= h < |a.segs| ==>
        b.Translate(h, w) == if h == g && w % SPACE == virt % SPACE then Some(phy) else a.Translate(h, w)
  {
    assert a.SegmentOk(g, SegmentIndex(virt)) && a.GuestOk(g);
    var pt := Entry(a.mem, a.segs[g].value, SegmentIndex(virt)).value;
    var b := a.SetPte(pt, PageIndex(virt), phy);
    forall h | 0 <= h < |b.segs| ensures b.GuestOk(h) { assert a.GuestOk(h); }
    forall h, t | 0 <= h < |b.segs| && 0 <= t < SEGMENTS ensures b.SegmentOk(h, t) {
      assert a.SegmentOk(h, t) && a.GuestOk(h);
    }
    forall h, w: nat | 0 <= h < |a.segs|
      ensures b.Translate(h, w) == if h == g && w % SPACE == virt % SPACE then Some(phy) else a.Translate(h, w)
    {
      assert a.GuestOk(h) && a.SegmentOk(h, SegmentIndex(w));
      IndicesSplit(virt, w);
    }
  }

  function Put(m: map<nat, nat>, k: nat, v: nat): map<nat, nat> {
    m[k := v]
  }

  /** The last insertion of each page of an address space is what the walk finds. */
  ghost predicate Wanted(a: Space, want: seq<map<nat, nat>>) {
    && |want| == |a.segs|
    && forall g, virt: nat {:trigger a.Translate(g, virt)} :: 0 <= g < |a.segs| ==>
        a.Translate(g, virt) == if virt % SPACE in want[g] then Some(want[g][virt % SPACE]) else None
  }

  /** Page `p` of guest `g` leads to one of the guest's own storage pages. */
  ghost predicate OwnPage(sp: Space, want: seq<map<nat, nat>>, from: seq<map<nat, nat>>, g: nat, p: nat) {
    && g < |want| && g < |from| && p in want[g] && p in from[g]
    && from[g][p] % SPACE == p && GuestPage(g, from[g][p]) in sp.frames
    && want[g][p] == sp.frames[GuestPage(g, from[g][p])]
  }

  /** Every page a guest can reach is one of its own storage pages. */
  ghost predicate OwnPages(sp: Space, want: seq<map<nat, nat>>, from: seq<map<nat, nat>>) {
    && |from| == |want|
    && forall g, p {:trigger OwnPage(sp, want, from, g, p)} :: 0 <= g < |want| && p in want[g] ==>
      OwnPage(sp, want, from, g, p)
  }

  lemma GuestJoins(a: Space, want: seq<map<nat, nat>>, from: seq<map<nat, nat>>)
    requires a.Ok() && Wanted(a, want) && OwnPages(a, want, from)
    ensures var b := a.(segs := a.segs + [None]);
      b.Ok() && Wanted(b, want + [map[]]) && OwnPages(b, want + [map[]], from + [map[]])
  {
    GuestAdded(a);
    forall h, p | 0 <= h <= |want| && p in (want + [map[]])[h]
      ensures OwnPage(a.(segs := a.segs + [None]), want + [map[]], from + [map[]], h, p)
    {
      assert OwnPage(a, want, from, h, p);
    }
  }

  lemma PageOwned(a: Space, b: Space, c: Space, want: seq<map<nat, nat>>, from: seq<map<nat, nat>>, g: nat, k: nat,
      f: nat)
    requires OwnPages(a, want, from) && g < |want| && GuestPage(g, k) !in a.frames
    requires b == a.(frames := a.frames[GuestPage(g, k) := f]) && PagesKept(b, c)
    ensures OwnPages(c, want[g := Put(want[g], k % SPACE, f)], from[g := Put(from[g], k % SPACE, k)])
  {
    var w, m := want[g := Put(want[g], k % SPACE, f)], from[g := Put(from[g], k % SPACE, k)];
    assert GuestPage(g, k) in b.frames;
    forall h, p | 0 <= h < |w| && p in w[h] ensures OwnPage(c, w, m, h, p) {
      if h != g || p != k % SPACE {
        assert OwnPage(a, want, from, h, p);
        assert GuestPage(h, from[h][p]) in b.frames;
      }
    }
  }

  /** A table of eight-byte entries does not reach past the block allocated for it. */
  ghost predicate TableFits(sp: Space, at: map<Use, nat>, live: seq<Block>, f: nat) {
    && f in sp.mem && f in sp.useOf && sp.useOf[f] in at && at[sp.useOf[f]] < |live|
    && 8 * |sp.mem[f]| <= 4096 * Pow2(live[at[sp.useOf[f]]].order)
  }

  /** Page `p` holds part of the table at frame `f`. */
  ghost predicate InTable(sp: Space, f: nat, p: nat) {
    f in sp.mem && f <= p && (p - f) * 4096 < 8 * |sp.mem[f]|
  }

  /** Every use has a block of its own among the live ones, and every table a use and a large enough block. */
  ghost predicate UsesHold(sp: Space, at: map<Use, nat>, live: seq<Block>) {
    && (forall u {:trigger u in sp.frames} :: u in sp.frames ==>
      u in at && at[u] < |live| && live[at[u]].first == sp.frames[u])
    && (forall u, v {:trigger at[u], at[v]} ::
      u in sp.frames && v in sp.frames && u in at && v in at && at[u] == at[v] ==> u == v)
    && (forall f {:trigger f in sp.mem} :: f in sp.mem ==>
      && f in sp.useOf && sp.useOf[f] in sp.frames && sp.frames[sp.useOf[f]] == f && !sp.useOf[f].GuestPage?
      && TableFits(sp, at, live, f))
  }

  /** The new block at the end of the allocator's list is nobody's yet. */
  ghost predicate NewUse(sp: Space, at: map<Use, nat>, live: seq<Block>, f: nat, order: nat) {
    && |live| > 0 && live[|live| - 1] == Block(f, order) && sp.Unused(f)
    && forall v {:trigger v in sp.frames} :: v in sp.frames ==> sp.frames[v] != f && v in at && at[v] < |live| - 1
  }

  /** `b` is `sp` with frame `f` in use for `u`, which needs no more than 2^order pages. */
  ghost predicate Records(sp: Space, u: Use, f: nat, order: nat, b: Space) {
    && b.frames == sp.frames[u := f]
    && forall h {:trigger h in b.mem} :: h in b.mem ==>
        if h == f then !u.GuestPage? && h in b.useOf && b.useOf[h] == u && 8 * |b.mem[h]| <= 4096 * Pow2(order)
        else h in sp.mem && |b.mem[h]| == |sp.mem[h]| && h in sp.useOf && h in b.useOf && b.useOf[h] == sp.useOf[h]
  }

  lemma RecordKeeps(sp: Space, at: map<Use, nat>, live: seq<Block>, u: Use, f: nat, order: nat, b: Space)
    requires UsesHold(sp, at, live) && NewUse(sp, at, live, f, order) && u !in sp.frames
    requires Records(sp, u, f, order, b)
    ensures UsesHold(b, at[u := |live| - 1], live)
  {
    forall h | h in b.mem ensures TableFits(b, at[u := |live| - 1], live, h) {
      if h != f { assert TableFits(sp, at, live, h); }
    }
  }

  class System {
    const pa: PageAllocator
    // The tables in storage, each guest's segment table, and the record of who uses which frame.
    var sp: Space
    // Where each use's block is in the allocator's list of live blocks.
    ghost var at: map<Use, nat>
    // Each guest's last insertion for each page.
    ghost var want: seq<map<nat, nat>>
    // Which storage page of the guest that was.
    ghost var from: seq<map<nat, nat>>

    /** Every use has a live block of its own. */
    ghost predicate UsesOk()
      reads this, pa
    {
      pa.Valid() && UsesHold(sp, at, pa.live)
    }

    ghost predicate Valid()
      reads this, pa
    {
      UsesOk() && sp.Ok() && Wanted(sp, want)
    }

    constructor (pa: PageAllocator)
      requires pa.Valid()
      ensures Valid() && GuestsOk() && this.pa == pa && sp.segs == []
    {
      this.pa := pa;
      sp, at, want, from := Space(map[], [], map[], map[]), map[], [], [];
    }

    /** Different uses have different frames, whatever guests they belong to. */
    lemma FramesApart(u: Use, v: Use)
      requires UsesOk() && u in sp.frames && v in sp.frames && u != v
      ensures sp.frames[u] != sp.frames[v]
    {
      if sp.frames[u] == sp.frames[v] { pa.Disjoint(at[u], at[v], sp.frames[u]); }
    }

    ghost predicate IsNew(f: nat, order: nat)
      reads this, pa
    {
      NewUse(sp, at, pa.live, f, order)
    }

    /** The allocator has no block of that order or a higher one. */
    ghost predicate Starved(order: nat)
      reads pa
    {
      pa.free.Ok() && forall o :: order <= o < NORMAL_ORDERS ==> pa.free.Empty(o, NORMAL)
    }

    /** A block for a new use. */
    method NewBlock(order: nat) returns (f: Option<nat>)
      requires UsesOk() && order < NORMAL_ORDERS
      modifies pa
      ensures UsesOk() && (if f.Some? then IsNew(f.value, order) else Starved(order))
    {
      ghost var taken, was := 0, pa.live;
      f, taken := pa.AllocPages(order, NORMAL);
      if f.Some? {
        forall v | v in sp.frames ensures sp.frames[v] != f.value {
          if sp.frames[v] == f.value { pa.Disjoint(at[v], |pa.live| - 1, f.value); }
        }
        forall h | h in sp.mem ensures TableFits(sp, at, pa.live, h) { assert TableFits(sp, at, was, h); }
      }
    }

    /** Record a use of the new block. */
    method Record(u: Use, f: nat, ghost order: nat, b: Space)
      requires UsesOk() && IsNew(f, order) && u !in sp.frames
      requires Records(sp, u, f, order, b)
      modifies this`at, this`sp
      ensures UsesOk() && sp == b
    {
      RecordKeeps(sp, at, pa.live, u, f, order, b);
      at, sp := at[u := |pa.live| - 1], b;
    }

    /** dat_insert_page(). False: a table could not be allocated, and the system stops. */
    method InsertPage(g: nat, phy: nat, virt: nat) returns (ok: bool)
      requires Valid() && g < |sp.segs|
      modifies this`sp, this`at, this`want, pa
      ensures ok ==>
        Valid() && |sp.segs| == old(|sp.segs|) && want == old(want)[g := Put(old(want)[g], virt % SPACE, phy)]
      ensures ok ==> PagesKept(old(sp), sp)
      ensures !ok ==> Starved(2)
    {
      if sp.segs[g].None? {
        ok := NewSegTable(g);
        if !ok { return; }
      }
      var s := SegmentIndex(virt);
      assert sp.GuestOk(g) && sp.SegmentOk(g, s);
      if Entry(sp.mem, sp.segs[g].value, s).None? {
        ok := NewPageTable(g, s);
        if !ok { return; }
      }
      SetEntry(g, phy, virt);
      ok := true;
    }

    method SetEntry(g: nat, phy: nat, virt: nat)
      requires Valid() && g < |sp.segs| && sp.segs[g].Some? && Entry(sp.mem, sp.segs[g].value, SegmentIndex(virt)).Some?
      modifies this`sp, this`want
      ensures Valid() && sp.segs == old(sp.segs) && sp.frames == old(sp.frames)
      ensures want == old(want)[g := Put(old(want)[g], virt % SPACE, phy)]
    {
      PteSet(sp, g, virt, phy);
      ghost var was := sp;
      sp, want := sp.SetPte(Entry(sp.mem, sp.segs[g].value, SegmentIndex(virt)).value, PageIndex(virt), phy),
                  want[g := Put(want[g], virt % SPACE, phy)];
      forall h | h in sp.mem ensures TableFits(sp, at, pa.live, h) { assert TableFits(was, at, pa.live, h); }
    }

    // ---- Guest storage ----

    ghost predicate GuestsOk()
      reads this
    {
      OwnPages(sp, want, from)
    }

    /** A page frame for storage page `k` of a guest. */
    method NewGuestPage(g: nat, k: nat) returns (f: Option<nat>)
      requires Valid() && g < |sp.segs| && GuestPage(g, k) !in sp.frames
      modifies this`sp, this`at, pa
      ensures Valid() && sp.segs == old(sp.segs)
      ensures f.None? ==> sp == old(sp) && Starved(0)
      ensures f.Some? ==> sp == old(sp).(frames := old(sp).frames[GuestPage(g, k) := f.value])
    {
      var a := sp;
      f := NewBlock(0);
      if f.Some? {
        PageRecorded(a, g, k, f.value);
        Record(GuestPage(g, k), f.value, 0, a.(frames := a.frames[GuestPage(g, k) := f.value]));
      }
    }

    /** A new guest without tables. */
    method NewGuest() returns (g: nat)
      requires Valid() && GuestsOk()
      modifies this`sp, this`want, this`from
      ensures Valid() && GuestsOk() && g == old(|sp.segs|) && |sp.segs| == g + 1
      ensures sp.frames == old(sp.frames) && want == old(want) + [map[]]
    {
      g := |sp.segs|;
      GuestJoins(sp, want, from);
      sp, want, from := sp.(segs := sp.segs + [None]), want + [map[]], from + [map[]];
    }

    /** Allocate storage page `k` of a guest and map it there. */
    method AddPage(g: nat, k: nat) returns (ok: bool)
      requires Valid() && GuestsOk() && g < |sp.segs| && GuestPage(g, k) !in sp.frames
      modifies this, pa
      ensures ok ==> Valid() && GuestsOk() && |sp.segs| == old(|sp.segs|)
      ensures ok ==> forall j :: j != k ==> (GuestPage(g, j) in sp.frames <==> GuestPage(g, j) in old(sp.frames))
      ensures ok ==>
        && from == old(from)[g := Put(old(from)[g], k % SPACE, k)] && |want| == |old(want)|
        && want[g].Keys == old(want)[g].Keys + {k % SPACE}
      ensures !ok ==> Starved(2)
    {
      ghost var a, w, m := sp, want, from;
      var f := NewGuestPage(g, k);
      if f.None? { return false; }
      ghost var b := sp;
      ok := InsertPage(g, f.value, k);
      if ok {
        from := from[g := Put(from[g], k % SPACE, k)];
        PageOwned(a, b, sp, w, m, g, k, f.value);
        assert forall j :: GuestPage(g, j) in sp.frames <==> GuestPage(g, j) in b.frames;
      }
    }

    /** Give a new guest `n` pages, mapped from the last one down. False: out of page frames, or the
        system stopped for want of a table. */
    method AllocGuestStorage(n: nat) returns (ok: bool, g: nat)
      requires Valid() && GuestsOk()
      modifies this, pa
      ensures g == old(|sp.segs|) && (!ok ==> Starved(2))
      ensures ok ==> Valid() && GuestsOk() && |sp.segs| == g + 1
      ensures ok ==> forall v: nat :: v < n && v < SPACE ==>
        GuestPage(g, v) in sp.frames && sp.Translate(g, v) == Some(sp.frames[GuestPage(g, v)])
    {
      g := NewGuest();
      var pages := n;
      while pages > 0
        invariant Valid() && GuestsOk() && |sp.segs| == g + 1 && pages <= n
        invariant forall k: nat :: k < pages ==> GuestPage(g, k) !in sp.frames
        invariant forall v :: pages <= v < n && v < SPACE ==> v in want[g] && v in from[g] && from[g][v] == v
      {
        pages := pages - 1;
        ok := AddPage(g, pages);
        if !ok { return; }
      }
      forall v: nat | v < n && v < SPACE
        ensures GuestPage(g, v) in sp.frames && sp.Translate(g, v) == Some(sp.frames[GuestPage(g, v)])
      {
        assert v in want[g] && OwnPage(sp, want, from, g, v);
      }
      ok := true;
    }

    /** A use's block holds no part of another use's table. */
    lemma TableApart(f: nat, u: Use, p: nat)
      requires UsesOk() && InTable(sp, f, p) && u in sp.frames && (f in sp.useOf ==> sp.useOf[f] != u)
      ensures p != sp.frames[u]
    {
      assert TableFits(sp, at, pa.live, f);
      var t := sp.useOf[f];
      var b := pa.live[at[t]];
      assert Covers(b.first, b.order, p) == 1;
      pa.Disjoint(at[t], at[u], p);
    }

    /** Two tables have no page in common. */
    lemma TablesApart(f: nat, h: nat, p: nat)
      requires UsesOk() && InTable(sp, f, p) && InTable(sp, h, p)
      ensures f == h
    {
      assert TableFits(sp, at, pa.live, f) && TableFits(sp, at, pa.live, h);
      var t, u := sp.useOf[f], sp.useOf[h];
      if t != u {
        var b, c := pa.live[at[t]], pa.live[at[u]];
        assert Covers(b.first, b.order, p) == 1 && Covers(c.first, c.order, p) == 1;
        pa.Disjoint(at[t], at[u], p);
      }
    }

    /** No frame can be reached by two guests, or by one guest through two pages of its space, and
        none holds any part of a table: eight bytes for each entry, from the table's first page on. */
    lemma Isolated(g: nat, v: nat, h: nat, w: nat, f: nat)
      requires Valid() && GuestsOk() && g < |sp.segs| && h < |sp.segs|
      requires sp.Translate(g, v).Some? && sp.Translate(g, v) == sp.Translate(h, w)
      ensures g == h && v % SPACE == w % SPACE
      ensures f in sp.mem ==>
        var p := sp.Translate(g, v).value; p < f || (p - f) * 4096 >= 8 * |sp.mem[f]|
    {
      var p, q := v % SPACE, w % SPACE;
      assert OwnPage(sp, want, from, g, p) && OwnPage(sp, want, from, h, q);
      var a, b := GuestPage(g, from[g][p]), GuestPage(h, from[h][q]);
      if a != b { FramesApart(a, b); }
      if InTable(sp, f, sp.frames[a]) { TableApart(f, a, sp.frames[a]); }
    }

    method NewSegTable(g: nat) returns (ok: bool)
      requires Valid() && g < |sp.segs| && sp.segs[g].None?
      modifies this`sp, this`at, pa
      ensures ok ==> Valid() && |sp.segs| == old(|sp.segs|) && sp.segs[g].Some? && PagesKept(old(sp), sp)
      ensures !ok ==> Starved(2)
    {
      var a := sp;
      assert a.GuestOk(g);
      var f := NewBlock(2);
      if f.None? { return false; }
      SegTableAdded(a, g, f.value);
      assert Pow2(2) == 4;
      Record(SegTable(g), f.value, 2, a.AddSegTable(g, f.value));
      return true;
    }

    method NewPageTable(g: nat, s: nat) returns (ok: bool)
      requires Valid() && g < |sp.segs| && s < SEGMENTS && sp.segs[g].Some? && sp.GuestOk(g)
      requires Entry(sp.mem, sp.segs[g].value, s).None?
      modifies this`sp, this`at, pa
      ensures ok ==>
        Valid() && sp.segs == old(sp.segs) && Entry(sp.mem, sp.segs[g].value, s).Some? && PagesKept(old(sp), sp)
      ensures !ok ==> Starved(2)
    {
      var a := sp;
      assert a.SegmentOk(g, s);
      var f := NewBlock(0);
      if f.None? { return false; }
      PageTableAdded(a, g, s, f.value);
      PageTableRecorded(a, g, s, f.value);
      Record(PageTable(g, s), f.value, 0, a.AddPageTable(g, s, f.value));
      return true;
    }
  }

  lemma PageTableRecorded(a: Space, g: nat, s: nat, f: nat)
    requires g < |a.segs| && s < SEGMENTS && a.segs[g].Some? && a.segs[g].value in a.mem && s < |a.mem[a.segs[g].value]|
    requires a.Unused(f) && forall h {:trigger h in a.mem} :: h in a.mem ==> h in a.useOf
    ensures Records(a, PageTable(g, s), f, 0, a.AddPageTable(g, s, f))
  {
  }

  lemma PageRecorded(a: Space, g: nat, k: nat, f: nat)
    requires a.Ok() && g < |a.segs|
    ensures var b := a.(frames := a.frames[GuestPage(g, k) := f]);
      b.Ok() && forall h, virt: nat {:trigger b.Translate(h, virt)} :: 0 <= h < |a.segs| ==>
        b.Translate(h, virt) == a.Translate(h, virt)
  {
    var b := a.(frames := a.frames[GuestPage(g, k) := f]);
    forall h | 0 <= h < |b.segs| ensures b.GuestOk(h) { assert a.GuestOk(h); }
    forall h, t | 0 <= h < |b.segs| && 0 <= t < SEGMENTS ensures b.SegmentOk(h, t) {
      assert a.SegmentOk(h, t) && a.GuestOk(h);
    }
  }

  lemma GuestAdded(a: Space)
    requires a.Ok()
    ensures var b := a.(segs := a.segs + [None]);
      && b.Ok()
      && (forall h, virt: nat {:trigger b.Translate(h, virt)} :: 0 <= h < |a.segs| ==>
        b.Translate(h, virt) == a.Translate(h, virt))
      && forall virt: nat :: b.Translate(|a.segs|, virt).None?
  {
    var b := a.(segs := a.segs + [None]);
    forall h | 0 <= h < |b.segs| ensures b.GuestOk(h) { if h < |a.segs| { assert a.GuestOk(h); } }
    forall h, t | 0 <= h < |b.segs| && 0 <= t < SEGMENTS ensures b.SegmentOk(h, t) {
      if h < |a.segs| { assert a.SegmentOk(h, t) && a.GuestOk(h); }
    }
  }

  /** The storage pages of guests are as before. */
  ghost predicate PagesKept(a: Space, b: Space) {
    forall u: Use {:trigger u in b.frames} {:trigger u in a.frames} :: u.GuestPage? ==>
      (u in b.frames <==> u in a.frames) && (u in a.frames ==> b.frames[u] == a.frames[u])
  }
}
