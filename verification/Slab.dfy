/** Slab caches: equal objects packed into pages behind a header and a bitmap (cp/mm/slab.c). */
module Slab {
  import opened Common
  import opened Bitmap
  import opened Ceiling
  import Buddy

  const PAGE := 4096
  const HEADER := 40

  /** The layout of a cache's pages: object size, objects per page, offset of the first object. */
  datatype Layout = Layout(objsize: nat, count: nat, startoff: nat) {
    /** Where the bitmap ends when it has a bit for every object. */
    function BitmapEnd(): nat { HEADER + (count + 7) / 8 }

    /** The objects fit the page. */
    predicate Fits() { startoff + count * objsize <= PAGE }
  }

  function RoundUp(n: nat, align: nat): (r: nat)
    requires align > 0
    ensures n <= r < n + align && r % align == 0
  {
    if n % align == 0 then n
    else
      assert n + align - n % align == (n / align + 1) * align;
      MulMod(n / align + 1, align);
      n + align - n % align
  }

  lemma MulMod(q: nat, d: nat)
    requires d > 0
    ensures q * d % d == 0
  {
    DivUnique(q * d, d, q);
  }

  function ObjectCount(objsize: nat): nat { Div(8 * (PAGE - HEADER), 8 * objsize + 1) }

  /** Bytes reserved for the bitmap: the source rounds up by 4, not 7. */
  function BitmapBytes(coding: Coding, count: nat): nat {
    if coding.AsWritten? then (count + 4) / 8 else (count + 7) / 8
  }

  /** Layout for objects of `objsize` bytes after rounding up to the alignment. */
  function LayoutOf(coding: Coding, objsize: nat, align: nat): Layout
    requires align > 0
  {
    var count := ObjectCount(objsize);
    var start := HEADER + BitmapBytes(coding, count);
    var aligned := RoundUp(start, align);
    if start % align == 0 then Layout(objsize, count, start)
    else if aligned + count * objsize > PAGE && count > 0 then Layout(objsize, count - 1, aligned)
    else Layout(objsize, count, aligned)
  }

  lemma CountBound(objsize: nat)
    ensures ObjectCount(objsize) * (8 * objsize + 1) <= 8 * (PAGE - HEADER)
  {
    DivIs(8 * (PAGE - HEADER), 8 * objsize + 1);
  }

  lemma CountIs(objsize: nat, c: nat)
    requires c * (8 * objsize + 1) <= 8 * (PAGE - HEADER) < (c + 1) * (8 * objsize + 1)
    ensures ObjectCount(objsize) == c
  {
    DivIs(8 * (PAGE - HEADER), 8 * objsize + 1);
    DivUnique(8 * (PAGE - HEADER), 8 * objsize + 1, c);
  }

  /** The header, the whole bitmap and the objects fit a page before alignment; with one object more
      header, bits and objects would not. */
  lemma CountFits(objsize: nat)
    requires objsize > 0
    ensures var c := ObjectCount(objsize);
      40 + (c + 7) / 8 + c * objsize <= 4096 && 8 * 40 + (c + 1) * (8 * objsize + 1) > 8 * 4096
  {
    var c := ObjectCount(objsize);
    CountBound(objsize);
    DivIs(8 * (PAGE - HEADER), 8 * objsize + 1);
    MulStep(c, 8 * objsize + 1);
    assert c * (8 * objsize + 1) == 8 * (c * objsize) + c;
  }

  /** Where dropping an object is needed, it is enough. */
  lemma DropFits(start: nat, aligned: nat, align: nat, count: nat, objsize: nat)
    requires start + count * objsize <= PAGE && aligned < start + align && align <= objsize && aligned <= PAGE
    ensures count > 0 ==> aligned + (count - 1) * objsize <= PAGE
    ensures aligned + count * objsize > PAGE ==> count > 0
  {
    if count > 0 { MulStep(count - 1, objsize); }
  }

  /** For every object size and alignment all the objects of a page fit it, aligned. */
  lemma ObjectsFit(coding: Coding, objsize: nat, align: nat)
    requires 0 < align < 0x100 && objsize > 0 && objsize % align == 0
    ensures var l := LayoutOf(coding, objsize, align);
      && l.Fits() && l.startoff % align == 0 && l.startoff >= HEADER
      && ObjectCount(objsize) - 1 <= l.count <= ObjectCount(objsize) && l.objsize == objsize
  {
    CountFits(objsize);
    var c := ObjectCount(objsize);
    var start := HEADER + BitmapBytes(coding, c);
    if objsize < align { DivUnique(objsize, align, 0); }
    DropSmall(objsize);
    DropFits(start, RoundUp(start, align), align, c, objsize);
  }

  /** create_slab() rounds the size up to the alignment first. */
  lemma CreateFits(coding: Coding, size: nat, align: nat)
    requires 0 < align < 0x100 && size > 0
    ensures var l := LayoutOf(coding, RoundUp(size, align), align);
      l.Fits() && l.startoff % align == 0 && l.objsize >= size && l.objsize % align == 0
  {
    ObjectsFit(coding, RoundUp(size, align), align);
  }

  lemma DropSmall(objsize: nat)
    requires objsize > 0
    ensures HEADER + (ObjectCount(objsize) + 7) / 8 + 0x100 <= PAGE
  {
    var c := ObjectCount(objsize);
    CountBound(objsize);
    MulMono(9, 8 * objsize + 1, c);
  }

  /** The bitmap ends before the first object exactly when the source's rounding loses no byte, or
      the alignment adds one. */
  lemma BitmapApart(coding: Coding, objsize: nat, align: nat)
    requires align > 0 && objsize > 0
    ensures var l := LayoutOf(coding, objsize, align);
      var c := ObjectCount(objsize);
      l.BitmapEnd() <= l.startoff <==>
        coding.Intended? || c % 8 == 0 || c % 8 > 3 || (HEADER + BitmapBytes(coding, c)) % align != 0
  {
  }

  /** The cache for 1024-byte objects: three objects, and their bitmap is object 0's first byte. */
  lemma KilobyteOverlaps()
    ensures LayoutOf(AsWritten, 1024, 8) == Layout(1024, 3, 40) && LayoutOf(AsWritten, 1024, 8).BitmapEnd() == 41
    ensures LayoutOf(Intended, 1024, 8).BitmapEnd() <= LayoutOf(Intended, 1024, 8).startoff
  {
    CountIs(1024, 3);
    BitmapApart(Intended, 1024, 8);
  }

  /** The caches malloc() uses, as (object size, alignment). */
  const CACHES: seq<(nat, nat)> := [(16, 4), (32, 4), (64, 4), (128, 4), (256, 8), (512, 8), (1024, 8)]

  /** Their layouts. As written, bitmap and objects are apart in every cache but the last. */
  lemma CachesApart(k: nat)
    requires k < |CACHES|
    ensures var l := LayoutOf(AsWritten, CACHES[k].0, CACHES[k].1);
      && l == [Layout(16, 251, 72), Layout(32, 126, 56), Layout(64, 63, 48), Layout(128, 31, 44), Layout(256, 15, 48),
               Layout(512, 7, 48), Layout(1024, 3, 40)][k]
      && (l.BitmapEnd() <= l.startoff <==> k < 6)
  {
    CountIs(16, 251);
    CountIs(32, 126);
    CountIs(64, 63);
    CountIs(128, 31);
    CountIs(256, 15);
    CountIs(512, 7);
    CountIs(1024, 3);
    BitmapApart(AsWritten, CACHES[k].0, CACHES[k].1);
  }

  // ---- The bitmap ----

  predicate Bit(bits: Bytes, i: nat) {
    i / 8 < |bits| && IsSet(bits[i / 8], i % 8)
  }

  function SetBit(bits: Bytes, i: nat, on: bool): (r: Bytes)
    requires i / 8 < |bits|
    ensures |r| == |bits| && forall j: nat :: Bit(r, j) <==> if j == i then on else Bit(bits, j)
  {
    bits[i / 8 := WithBit(bits[i / 8], i % 8, on)]
  }

  /** How many of the first `n` bits are set. */
  function Ones(bits: Bytes, n: nat): (r: nat)
    ensures r <= n
  {
    if n == 0 then 0 else Ones(bits, n - 1) + (if Bit(bits, n - 1) then 1 else 0)
  }

  lemma {:induction false} OnesAfter(bits: Bytes, n: nat, i: nat, on: bool)
    requires i / 8 < |bits| && Bit(bits, i) != on
    ensures Ones(SetBit(bits, i, on), n) == Ones(bits, n) + (if i >= n then 0 else if on then 1 else -1)
  {
    if n > 0 { OnesAfter(bits, n - 1, i, on); }
  }

  lemma {:induction false} OnesFull(bits: Bytes, n: nat)
    requires forall i: nat :: i < n ==> Bit(bits, i)
    ensures Ones(bits, n) == n
  {
    if n > 0 { OnesFull(bits, n - 1); }
  }

  // ---- Objects ----

  /** One page of a cache: its page number, its count of used objects and its bitmap. */
  datatype SlabPage = SlabPage(number: nat, used: nat, bitmap: Bytes)

  function ObjectAddr(l: Layout, number: nat, i: nat): nat {
    number * PAGE + l.startoff + l.objsize * i
  }

  lemma NextObject(objsize: nat, i: nat, j: nat)
    requires i < j
    ensures objsize * i + objsize <= objsize * j == j * objsize
  {
    MulMono(i + 1, j, objsize);
    MulStep(i, objsize);
  }

  lemma ObjectInside(l: Layout, i: nat)
    requires l.Fits() && i < l.count
    ensures l.startoff + l.objsize * i + l.objsize <= PAGE
  {
    NextObject(l.objsize, i, l.count);
  }

  /** free() finds the page and the index an object was allocated with. */
  lemma FreeRecovers(l: Layout, number: nat, i: nat)
    requires l.Fits() && l.objsize > 0 && i < l.count
    ensures var ptr := ObjectAddr(l, number, i);
      ptr / PAGE == number && ptr - number * PAGE >= l.startoff && (ptr - number * PAGE - l.startoff) / l.objsize == i
  {
    ObjectInside(l, i);
    DivUnique(l.objsize * i, l.objsize, i);
  }

  /** Ranges inside pages, at different pages or at a distance. */
  lemma RangesApart(n: nat, x: nat, m: nat, y: nat, size: nat, a: nat)
    requires x + size <= PAGE && y + size <= PAGE && (n != m || x + size <= y || y + size <= x)
    requires n * PAGE + x <= a < n * PAGE + x + size
    ensures !(m * PAGE + y <= a < m * PAGE + y + size)
  {
  }

  /** Distinct objects have no byte in common. */
  lemma ObjectsApart(l: Layout, n: nat, i: nat, m: nat, j: nat, a: nat)
    requires l.Fits() && i < l.count && j < l.count && (n != m || i != j)
    requires ObjectAddr(l, n, i) <= a < ObjectAddr(l, n, i) + l.objsize
    ensures !(ObjectAddr(l, m, j) <= a < ObjectAddr(l, m, j) + l.objsize)
  {
    ObjectInside(l, i);
    ObjectInside(l, j);
    if i < j { NextObject(l.objsize, i, j); }
    if j < i { NextObject(l.objsize, j, i); }
    RangesApart(n, l.startoff + l.objsize * i, m, l.startoff + l.objsize * j, l.objsize, a);
  }

  /** A page with a byte stored in it at address `a`. */
  function Stored(p: SlabPage, a: nat, x: byte): SlabPage {
    var at := a - p.number * PAGE - HEADER;
    if 0 <= at < |p.bitmap| then p.(bitmap := p.bitmap[at := x]) else p
  }

  predicate InObject(l: Layout, number: nat, i: nat, a: nat) {
    i < l.count && ObjectAddr(l, number, i) <= a < ObjectAddr(l, number, i) + l.objsize
  }

  lemma StoredBehind(l: Layout, p: SlabPage, i: nat, a: nat, x: byte)
    requires l.BitmapEnd() <= l.startoff && |p.bitmap| == (l.count + 7) / 8 && InObject(l, p.number, i, a)
    ensures Stored(p, a, x) == p
  {
    var at: nat := l.objsize * i;
    assert ObjectAddr(l, p.number, i) == p.number * PAGE + l.startoff + at;
  }

  /** Storing in objects leaves the bitmap alone, whatever is stored where, exactly when it ends before
      the first of them. */
  lemma UseSparesBitmap(l: Layout, p: SlabPage)
    requires l.objsize > 0 && l.count > 0 && l.startoff >= HEADER && |p.bitmap| == (l.count + 7) / 8
    ensures (forall i: nat, a: nat, x: byte :: InObject(l, p.number, i, a) ==> Stored(p, a, x) == p)
       <==> l.BitmapEnd() <= l.startoff
  {
    if l.BitmapEnd() <= l.startoff {
      forall i: nat, a: nat, x: byte | InObject(l, p.number, i, a) ensures Stored(p, a, x) == p {
        StoredBehind(l, p, i, a, x);
      }
    } else {
      var a: nat := p.number * PAGE + l.startoff;
      var x: byte := (p.bitmap[l.startoff - HEADER] as int + 1) % 256;
      assert InObject(l, p.number, 0, a) && Stored(p, a, x).bitmap[l.startoff - HEADER] == x;
    }
  }

  class Slab {
    const layout: Layout
    // The cache's first page and the pages added to it.
    var pages: seq<SlabPage>
    // Objects handed out: page index and object index.
    ghost var live: set<(nat, nat)>

    predicate PageOk(p: SlabPage) {
      && |p.bitmap| == (layout.count + 7) / 8
      && p.used == Ones(p.bitmap, layout.count)
    }

    ghost predicate Valid()
      reads this
    {
      && layout.objsize > 0 && layout.Fits()
      && (forall k :: 0 <= k < |pages| ==> PageOk(pages[k]))
      && (forall k, h :: 0 <= k < h < |pages| ==> pages[k].number != pages[h].number)
      && (forall k: nat, i: nat {:trigger (k, i) in live} ::
        (k, i) in live <==> k < |pages| && i < layout.count && Bit(pages[k].bitmap, i))
    }

    constructor (layout: Layout, number: nat)
      requires layout.objsize > 0 && layout.Fits()
      ensures Valid() && this.layout == layout && live == {}
      ensures |pages| == 1 && pages[0].number == number && pages[0].used == 0
    {
      this.layout := layout;
      var bits := Zeros((layout.count + 7) / 8);
      ZeroBits(bits, layout.count);
      pages, live := [SlabPage(number, 0, bits)], {};
    }

    predicate HasRoom(p: SlabPage, zone: Buddy.Zone) {
      p.used < layout.count && Buddy.ZoneOf(p.number) == zone
    }

    /** Allocate an object: the first clear bit of the first page of the zone with room, or of a new
        page. None only if no page has room and there is no new page (or it has room for no object). */
    method AllocObj(zone: Buddy.Zone, newPage: Option<nat>) returns (r: Option<nat>, ghost at: (nat, nat))
      requires Valid() && (newPage.Some? ==> forall k :: 0 <= k < |pages| ==> pages[k].number != newPage.value)
      modifies this
      ensures Valid()
      ensures |old(pages)| <= |pages| && forall k :: 0 <= k < |old(pages)| ==> pages[k].number == old(pages)[k].number
      ensures r.None? <==> (newPage.None? || layout.count == 0) && forall k :: 0 <= k < |old(pages)| ==>
        old(pages)[k].used == layout.count || (old(pages)[k].number < 0x8_0000) != zone.LOW?
      ensures r.None? ==> live == old(live)
      ensures r.Some? ==> at !in old(live) && live == old(live) + {at} && at.1 < layout.count && at.0 < |pages|
      ensures r.Some? ==> r.value == ObjectAddr(layout, pages[at.0].number, at.1)
      ensures r.Some? ==> forall h :: 0 <= h < at.0 && h < |old(pages)| ==>
        old(pages)[h].used == layout.count || (old(pages)[h].number < 0x8_0000) != zone.LOW?
      ensures r.Some? ==>
        if at.0 < |old(pages)| then
          (pages[at.0].number < 0x8_0000) == zone.LOW? && pages[at.0].used == old(pages)[at.0].used + 1
        else newPage == Some(pages[at.0].number) && |pages| == |old(pages)| + 1 && pages[at.0].used == 1
      ensures r.Some? ==> forall h :: 0 <= h < |old(pages)| && h != at.0 ==> pages[h] == old(pages)[h]
      ensures r.Some? ==> forall j: nat :: j < at.1 ==> (at.0, j) in old(live)
    {
      at := (0, 0);
      var k := FirstWithRoom(zone);
      forall h | 0 <= h < |pages|
        ensures HasRoom(pages[h], zone) <==> pages[h].used != layout.count && (pages[h].number < 0x8_0000) == zone.LOW?
      {
        assert PageOk(pages[h]);
      }
      if k == |pages| {
        if newPage.None? { return None, at; }
        var bits := Zeros((layout.count + 7) / 8);
        ZeroBits(bits, layout.count);
        pages := pages + [SlabPage(newPage.value, 0, bits)];
      }
      r, at := AllocFrom(k);
    }

    /** Take the first clear bit of page `k`. */
    method AllocFrom(k: nat) returns (r: Option<nat>, ghost at: (nat, nat))
      requires Valid() && k < |pages|
      modifies this
      ensures Valid() && (r.None? <==> old(pages)[k].used == layout.count)
      ensures r.None? ==> live == old(live) && pages == old(pages)
      ensures r.Some? ==> at !in old(live) && live == old(live) + {at} && at.0 == k && at.1 < layout.count
      ensures |pages| == |old(pages)| && forall h :: 0 <= h < |pages| ==> pages[h].number == old(pages)[h].number
      ensures r.Some? ==> r.value == ObjectAddr(layout, pages[k].number, at.1)
      ensures r.Some? ==> pages[k].used == old(pages)[k].used + 1 && pages == old(pages)[k := pages[k]]
      ensures r.Some? ==> forall j: nat :: j < at.1 ==> (k, j) in old(live)
    {
      var p := pages[k];
      var i := FirstClear(p.bitmap, layout.count);
      at := (k, i);
      if i == layout.count {
        OnesFull(p.bitmap, layout.count);
        return None, at;
      }
      OnesAfter(p.bitmap, layout.count, i, true);
      pages := pages[k := p.(used := p.used + 1, bitmap := SetBit(p.bitmap, i, true))];
      live := live + {at};
      return Some(ObjectAddr(layout, p.number, i)), at;
    }

    method FirstWithRoom(zone: Buddy.Zone) returns (k: nat)
      ensures k <= |pages| && (k < |pages| ==> HasRoom(pages[k], zone))
      ensures forall h :: 0 <= h < k ==> !HasRoom(pages[h], zone)
    {
      k := 0;
      while k < |pages| && !HasRoom(pages[k], zone)
        invariant k <= |pages| && forall h :: 0 <= h < k ==> !HasRoom(pages[h], zone)
      {
        k := k + 1;
      }
    }

    /** Free the object at `ptr`, which lies in page `page`. */
    method FreeObj(ptr: nat, page: nat, ghost i: nat)
      requires Valid() && (page, i) in live && ptr == ObjectAddr(layout, pages[page].number, i)
      modifies this
      ensures Valid() && live == old(live) - {(page, i)}
      ensures |pages| == |old(pages)| && forall k :: 0 <= k < |pages| ==> pages[k].number == old(pages)[k].number
      ensures pages == old(pages)[page := pages[page]] && pages[page].used == old(pages)[page].used - 1
    {
      var p := pages[page];
      FreeRecovers(layout, p.number, i);
      var base := ptr / PAGE * PAGE;
      var objidx := (ptr - base - layout.startoff) / layout.objsize;
      OnesAfter(p.bitmap, layout.count, objidx, false);
      pages := pages[page := p.(used := p.used - 1, bitmap := SetBit(p.bitmap, objidx, false))];
      live := live - {(page, i)};
    }

    /** The owner of a live object stores a byte in it. Where objects lie behind the bitmap that changes
        nothing of the cache; otherwise it changes the bitmap when it hits it. */
    method Use(page: nat, ghost i: nat, a: nat, x: byte)
      requires Valid() && (page, i) in live && InObject(layout, pages[page].number, i, a)
      modifies this
      ensures live == old(live) && pages == old(pages)[page := Stored(old(pages)[page], a, x)]
      ensures layout.BitmapEnd() <= layout.startoff ==> Valid() && pages == old(pages)
    {
      if layout.BitmapEnd() <= layout.startoff { StoredBehind(layout, pages[page], i, a, x); }
      pages := pages[page := Stored(pages[page], a, x)];
    }

    /** Live objects do not overlap, whatever pages they are in. */
    lemma LiveApart(x: (nat, nat), y: (nat, nat), a: nat)
      requires Valid() && x in live && y in live && x != y
      ensures x.0 < |pages| && y.0 < |pages|
      ensures var ax, ay := ObjectAddr(layout, pages[x.0].number, x.1), ObjectAddr(layout, pages[y.0].number, y.1);
        !(ax <= a < ax + layout.objsize && ay <= a < ay + layout.objsize)
    {
      assert (x.0, x.1) in live && (y.0, y.1) in live;
      var n, m := pages[x.0].number, pages[y.0].number;
      if ObjectAddr(layout, n, x.1) <= a < ObjectAddr(layout, n, x.1) + layout.objsize {
        ObjectsApart(layout, n, x.1, m, y.1, a);
      }
    }
  }

  /** The first clear bit among the first `count`. */
  method FirstClear(bits: Bytes, count: nat) returns (i: nat)
    requires count <= 8 * |bits|
    ensures i <= count && (forall j: nat :: j < i ==> Bit(bits, j)) && (i < count ==> !Bit(bits, i))
  {
    i := 0;
    while i < count && IsSet(bits[i / 8], i % 8)
      invariant i <= count && forall j: nat :: j < i ==> Bit(bits, j)
    {
      i := i + 1;
    }
  }

  lemma {:induction false} ZeroBits(bits: Bytes, n: nat)
    requires forall i :: 0 <= i < |bits| ==> bits[i] == 0
    ensures Ones(bits, n) == 0 && forall i: nat :: !Bit(bits, i)
  {
    forall i: nat ensures !Bit(bits, i) { if i / 8 < |bits| { ZeroDigits(7 - i % 8); } }
    if n > 0 { ZeroBits(bits, n - 1); }
  }

  lemma {:induction false} ZeroDigits(j: nat)
    ensures !Digit(0, j)
  {
    if j > 0 { ZeroDigits(j - 1); }
  }
}
