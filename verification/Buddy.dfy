/** The page allocator: free blocks of 2^order pages on lists for storage below and above 2GB
    (cp/mm/buddy.c). Pages are named by their numbers. */
module Buddy {
  import opened Common
  import opened Bitmap
  import Ceiling

  // Page number of the 2GB boundary, and the orders each zone has lists for.
  const LOW_PAGES := 0x8_0000
  const LOW_ORDERS := 19
  const NORMAL_ORDERS := 52

  datatype Zone = LOW | NORMAL
  function ZoneOf(page: nat): Zone {
    if page < LOW_PAGES then LOW else NORMAL
  }

  datatype Block = Block(first: nat, order: nat)

  /** For each order the free blocks, first to be used first. */
  type Orders = seq<seq<nat>>

  function Covers(first: nat, order: nat, page: nat): nat {
    if first <= page < first + Pow2(order) then 1 else 0
  }

  /** How many of the blocks of one list contain the page. */
  function ListCover(list: seq<nat>, order: nat, page: nat): nat {
    if |list| == 0 then 0 else Covers(list[0], order, page) + ListCover(list[1..], order, page)
  }

  /** How many free blocks of the first `k` orders contain the page. */
  function Cover(orders: Orders, k: nat, page: nat): nat
    requires k <= |orders|
  {
    if k == 0 then 0 else Cover(orders, k - 1, page) + ListCover(orders[k - 1], k - 1, page)
  }

  function LiveCover(live: seq<Block>, page: nat): nat {
    if |live| == 0 then 0 else Covers(live[0].first, live[0].order, page) + LiveCover(live[1..], page)
  }

  lemma {:induction false} CoverUpdate(orders: Orders, k: nat, i: nat, list: seq<nat>, page: nat)
    requires k <= |orders| && i < |orders|
    ensures Cover(orders[i := list], k, page) + (if i < k then ListCover(orders[i], i, page) else 0)
         == Cover(orders, k, page) + (if i < k then ListCover(list, i, page) else 0)
  {
    if k > 0 { CoverUpdate(orders, k - 1, i, list, page); }
  }

  lemma {:induction false} LiveAdd(live: seq<Block>, b: Block, page: nat)
    ensures LiveCover(live + [b], page) == LiveCover(live, page) + Covers(b.first, b.order, page)
  {
    if |live| > 0 {
      assert (live + [b])[1..] == live[1..] + [b];
      LiveAdd(live[1..], b, page);
    } else {
      assert (live + [b])[1..] == [];
    }
  }

  lemma {:induction false} LiveRemove(live: seq<Block>, i: nat, page: nat)
    requires i < |live|
    ensures LiveCover(live, page) ==
      LiveCover(live[..i] + live[i + 1..], page) + Covers(live[i].first, live[i].order, page)
  {
    if i == 0 {
      assert live[..0] + live[1..] == live[1..];
    } else {
      LiveRemove(live[1..], i - 1, page);
      assert (live[..i] + live[i + 1..])[1..] == live[1..][..i - 1] + live[1..][i..];
    }
  }

  lemma {:induction false} LiveAtLeast(live: seq<Block>, i: nat, page: nat)
    requires i < |live|
    ensures LiveCover(live, page) >= Covers(live[i].first, live[i].order, page)
  {
    LiveRemove(live, i, page);
  }

  // ---- What the lists hold ----

  predicate LowOk(orders: Orders) {
    |orders| == LOW_ORDERS && forall o, i :: 0 <= o < LOW_ORDERS && 0 <= i < |orders[o]| ==>
      orders[o][i] + Pow2(o) <= LOW_PAGES
  }

  predicate NormalOk(orders: Orders) {
    |orders| == NORMAL_ORDERS && forall o, i :: 0 <= o < NORMAL_ORDERS && 0 <= i < |orders[o]| ==>
      orders[o][i] >= LOW_PAGES
  }

  /** A block lies in one zone. */
  predicate InZone(b: Block) {
    (b.order < LOW_ORDERS && b.first + Pow2(b.order) <= LOW_PAGES) || (b.order < NORMAL_ORDERS && b.first >= LOW_PAGES)
  }

  // ---- Initialisation ----

  /** `pages` with only its lowest `k` binary digits. */
  function LowPart(pages: nat, k: nat): nat {
    if k == 0 then 0 else LowPart(pages, k - 1) + (if Digit(pages, k - 1) then Pow2(k - 1) else 0)
  }

  lemma {:induction false} LowPartHalf(pages: nat, k: nat)
    ensures LowPart(pages, k + 1) == pages % 2 + 2 * LowPart(pages / 2, k)
  {
    if k > 0 { LowPartHalf(pages, k - 1); }
  }

  lemma {:induction false} LowPartAll(pages: nat, k: nat)
    ensures pages < Pow2(k) ==> LowPart(pages, k) == pages
    ensures LowPart(pages, k) < Pow2(k)
  {
    if k > 0 {
      LowPartHalf(pages, k - 1);
      LowPartAll(pages / 2, k - 1);
    }
  }

  /** A power of two has no lower digits. */
  lemma {:induction false} LowPartPower(j: nat, k: nat)
    requires k <= j
    ensures LowPart(Pow2(j), k) == 0
  {
    if k > 0 {
      LowPartHalf(Pow2(j), k - 1);
      LowPartPower(j - 1, k - 1);
    }
  }

  lemma {:induction false} LowPartIs(pages: nat, k: nat)
    ensures LowPart(pages, k) == pages % Pow2(k)
  {
    if k > 0 {
      LowPartIs(pages, k - 1);
      DigitIs(pages, k - 1);
      DivHalf(pages, Pow2(k - 1));
    }
  }

  /** One block for each binary digit of the page count that is 1, in the order of their sizes. */
  ghost predicate Binary(orders: Orders, base: nat, pages: nat) {
    forall o :: 0 <= o < |orders| ==> orders[o] == DigitBlock(base, pages, o)
  }

  ghost function DigitBlock(base: nat, pages: nat, o: nat): seq<nat> {
    if pages / Pow2(o) % 2 == 1 then [base + pages % Pow2(o)] else []
  }

  /** Lists for `pages` free pages from `base` on: one block for each binary digit. */
  method InitLists(base: nat, pages: nat, maxOrder: nat) returns (orders: Orders)
    ensures |orders| == maxOrder && Binary(orders, base, pages)
    ensures forall page: nat ::
      Cover(orders, maxOrder, page) == if base <= page < base + LowPart(pages, maxOrder) then 1 else 0
    ensures forall o, i :: 0 <= o < maxOrder && 0 <= i < |orders[o]| ==>
      base <= orders[o][i] && orders[o][i] + Pow2(o) <= base + LowPart(pages, maxOrder)
  {
    orders := [];
    var at := base;
    for order := 0 to maxOrder
      invariant |orders| == order && at == base + LowPart(pages, order) && Binary(orders, base, pages)
      invariant forall page: nat :: Cover(orders, order, page) == if base <= page < at then 1 else 0
      invariant forall o, i :: 0 <= o < order && 0 <= i < |orders[o]| ==>
        base <= orders[o][i] && orders[o][i] + Pow2(o) <= at
    {
      var list := if Digit(pages, order) then [at] else [];
      LowPartIs(pages, order);
      DigitIs(pages, order);
      forall page: nat
        ensures Cover(orders + [list], order + 1, page) == Cover(orders, order, page) + ListCover(list, order, page)
      {
        CoverPrefix(orders, [list], order, page);
        assert (orders + [list])[order] == list;
      }
      ghost var was := at;
      orders := orders + [list];
      if Digit(pages, order) {
        at := at + Pow2(order);
        forall page: nat ensures ListCover(list, order, page) == Covers(was, order, page) { assert list[1..] == []; }
      }
    }
  }

  lemma {:induction false} CoverPrefix(orders: Orders, more: Orders, k: nat, page: nat)
    requires k <= |orders|
    ensures Cover(orders + more, k, page) == Cover(orders, k, page)
  {
    if k > 0 { CoverPrefix(orders, more, k - 1, page); }
  }

  // ---- Splitting ----

  function Push(orders: Orders, order: nat, first: nat): Orders
    requires order < |orders|
  {
    orders[order := [first] + orders[order]]
  }

  lemma PushCover(orders: Orders, order: nat, first: nat, page: nat)
    requires order < |orders|
    ensures Cover(Push(orders, order, first), |orders|, page) ==
      Cover(orders, |orders|, page) + Covers(first, order, page)
  {
    CoverUpdate(orders, |orders|, order, [first] + orders[order], page);
    assert ([first] + orders[order])[1..] == orders[order];
  }

  lemma PopCover(orders: Orders, order: nat, page: nat)
    requires order < |orders| && |orders[order]| > 0
    ensures Cover(orders, |orders|, page) ==
      Cover(orders[order := orders[order][1..]], |orders|, page) + Covers(orders[order][0], order, page)
  {
    CoverUpdate(orders, |orders|, order, orders[order][1..], page);
  }

  /** The second half of a block, the second quarter and so on are first on their lists. */
  ghost predicate Chipped(orders: Orders, r: Orders, first: nat, actual: nat, wanted: nat) {
    |r| == |orders| && forall o :: 0 <= o < |r| ==>
      r[o] == if wanted <= o < actual then WithHalf(orders[o], first, o) else orders[o]
  }

  /** The list with the upper half of a block of the next higher order in front. */
  ghost function WithHalf(list: seq<nat>, first: nat, order: nat): seq<nat> {
    [first + Pow2(order)] + list
  }

  /** The first block of order `taken` is off its list, and what it has beyond a block of order
      `wanted` is on the lists as halves. */
  ghost predicate Split(orders: Orders, r: Orders, first: nat, taken: nat, wanted: nat) {
    |r| == |orders| && forall o :: 0 <= o < |r| ==>
      if o == taken then orders[o] == [first] + r[o]
      else r[o] == if wanted <= o < taken then WithHalf(orders[o], first, o) else orders[o]
  }

  /** The halves lie inside the block. */
  lemma ChippedInside(orders: Orders, r: Orders, first: nat, actual: nat, wanted: nat)
    requires Chipped(orders, r, first, actual, wanted)
    ensures forall o, i :: 0 <= o < |r| && 0 <= i < |r[o]| ==>
      r[o][i] in orders[o] || (first <= r[o][i] && r[o][i] + Pow2(o) <= first + Pow2(actual))
  {
    forall o, i | 0 <= o < |r| && 0 <= i < |r[o]|
      ensures r[o][i] in orders[o] || (first <= r[o][i] && r[o][i] + Pow2(o) <= first + Pow2(actual))
    {
      if wanted <= o < actual { HalfInside(orders[o], first, o, actual, i); }
    }
  }

  lemma HalfInside(list: seq<nat>, first: nat, order: nat, actual: nat, i: nat)
    requires order < actual && i < |WithHalf(list, first, order)|
    ensures var x := WithHalf(list, first, order)[i];
      x in list || (first <= x && x + Pow2(order) <= first + Pow2(actual))
  {
    PowMono(order + 1, actual);
    if i > 0 { assert WithHalf(list, first, order)[i] == list[i - 1]; }
  }

  lemma ChipOne(orders: Orders, r: Orders, first: nat, actual: nat, order: nat)
    requires order < actual <= |orders| && Chipped(orders, r, first, actual, order + 1)
    ensures Chipped(orders, Push(r, order, first + Pow2(order)), first, actual, order)
  {
  }

  lemma ChipCover(r: Orders, first: nat, order: nat)
    requires order < |r|
    ensures forall page: nat ::
      Cover(Push(r, order, first + Pow2(order)), |r|, page) + Covers(first, order, page) ==
      Cover(r, |r|, page) + Covers(first, order + 1, page)
  {
    forall page: nat
      ensures Cover(Push(r, order, first + Pow2(order)), |r|, page) + Covers(first, order, page) ==
        Cover(r, |r|, page) + Covers(first, order + 1, page)
    {
      PushCover(r, order, first + Pow2(order), page);
    }
  }

  /** Return to the lists what a block of order `actual` has beyond a block of order `wanted`. */
  method ChipPages(orders: Orders, first: nat, actual: nat, wanted: nat) returns (r: Orders)
    requires wanted <= actual <= |orders|
    ensures Chipped(orders, r, first, actual, wanted)
    ensures forall page: nat ::
      Cover(r, |r|, page) + Covers(first, wanted, page) == Cover(orders, |orders|, page) + Covers(first, actual, page)
  {
    r := orders;
    var order := actual;
    while order > wanted
      invariant wanted <= order <= actual && Chipped(orders, r, first, actual, order)
      invariant forall page: nat ::
        Cover(r, |r|, page) + Covers(first, order, page) == Cover(orders, |orders|, page) + Covers(first, actual, page)
    {
      ChipCover(r, first, order - 1);
      ChipOne(orders, r, first, actual, order - 1);
      r := Push(r, order - 1, first + Pow2(order - 1));
      order := order - 1;
    }
  }

  // ---- The allocator ----

  datatype Free = Free(low: Orders, normal: Orders) {
    predicate Ok() { LowOk(low) && NormalOk(normal) }

    function Covering(page: nat): nat
      requires Ok()
    {
      Cover(low, LOW_ORDERS, page) + Cover(normal, NORMAL_ORDERS, page)
    }

    /** The list a request of this order and type is served from; the lists for storage below 2GB
        end at order 18, and higher ones count as empty. */
    function ListFor(order: nat, zone: Zone): seq<nat>
      requires Ok() && order < NORMAL_ORDERS
    {
      if zone == NORMAL && normal[order] != [] then normal[order] else if order < LOW_ORDERS then low[order] else []
    }

    predicate Empty(order: nat, zone: Zone)
      requires Ok()
    {
      order < NORMAL_ORDERS ==> ListFor(order, zone) == []
    }
  }

  /** Only the lists of the block's own zone changed, and those by splitting it. */
  ghost predicate Served(f: Free, g: Free, first: nat, taken: nat, wanted: nat) {
    if first < LOW_PAGES then g.normal == f.normal && Split(f.low, g.low, first, taken, wanted)
    else g.low == f.low && Split(f.normal, g.normal, first, taken, wanted)
  }

  /** Take the first block of the given order. */
  method TakeBlock(f: Free, order: nat, zone: Zone) returns (r: Option<nat>, g: Free)
    requires f.Ok() && order < NORMAL_ORDERS
    ensures g.Ok() && (r.None? <==> f.Empty(order, zone)) && (r.None? ==> g == f)
    ensures r.Some? ==>
      && r.value == f.ListFor(order, zone)[0] && InZone(Block(r.value, order))
      && (zone == LOW ==> r.value + Pow2(order) <= LOW_PAGES)
    ensures r.Some? ==> Served(f, g, r.value, order, order)
    ensures r.Some? ==> forall page: nat :: f.Covering(page) == g.Covering(page) + Covers(r.value, order, page)
  {
    if zone == NORMAL && |f.normal[order]| > 0 {
      g := f.(normal := f.normal[order := f.normal[order][1..]]);
      forall page: nat ensures f.Covering(page) == g.Covering(page) + Covers(f.normal[order][0], order, page) {
        PopCover(f.normal, order, page);
      }
      return Some(f.normal[order][0]), g;
    }
    if order < LOW_ORDERS && |f.low[order]| > 0 {
      g := f.(low := f.low[order := f.low[order][1..]]);
      forall page: nat ensures f.Covering(page) == g.Covering(page) + Covers(f.low[order][0], order, page) {
        PopCover(f.low, order, page);
      }
      return Some(f.low[order][0]), g;
    }
    return None, f;
  }

  /** Put the rest of a block of order `actual` back on the lists of its zone. */
  method ChipZone(f: Free, first: nat, actual: nat, wanted: nat) returns (g: Free)
    requires f.Ok() && InZone(Block(first, actual)) && wanted <= actual
    ensures g.Ok() && InZone(Block(first, wanted))
    ensures if first < LOW_PAGES then g.normal == f.normal && Chipped(f.low, g.low, first, actual, wanted)
      else g.low == f.low && Chipped(f.normal, g.normal, first, actual, wanted)
    ensures forall page: nat ::
      g.Covering(page) + Covers(first, wanted, page) == f.Covering(page) + Covers(first, actual, page)
  {
    PowMono(wanted, actual);
    if first < LOW_PAGES {
      var low := ChipPages(f.low, first, actual, wanted);
      ChippedInside(f.low, low, first, actual, wanted);
      g := f.(low := low);
    } else {
      var normal := ChipPages(f.normal, first, actual, wanted);
      ChippedInside(f.normal, normal, first, actual, wanted);
      g := f.(normal := normal);
    }
  }

  lemma PowValues()
    ensures Pow2(19) == LOW_PAGES && Pow2(31) == 0x8000_0000
  {
    assert Pow2(8) == 0x100;
    assert Pow2(16) == 0x1_0000;
    assert Pow2(24) == 0x100_0000;
  }

  /** Taken off its list and then chipped, a block is split. */
  lemma TakenChipped(f: Free, h: Free, g: Free, first: nat, taken: nat, wanted: nat)
    requires wanted <= taken && Served(f, h, first, taken, taken)
    requires if first < LOW_PAGES then g.normal == h.normal && Chipped(h.low, g.low, first, taken, wanted)
      else g.low == h.low && Chipped(h.normal, g.normal, first, taken, wanted)
    ensures Served(f, g, first, taken, wanted)
  {
  }

  /** Look for a block order by order, and split the one found. */
  method Search(f: Free, order: nat, zone: Zone) returns (r: Option<nat>, g: Free, ghost taken: nat)
    requires f.Ok() && order < NORMAL_ORDERS
    ensures g.Ok() && (r.None? ==> g == f)
    ensures r.None? <==> forall o :: order <= o < NORMAL_ORDERS ==> f.Empty(o, zone)
    ensures r.Some? ==> InZone(Block(r.value, order)) && (zone == LOW ==> r.value + Pow2(order) <= LOW_PAGES)
    ensures r.Some? ==>
      order <= taken < NORMAL_ORDERS && f.ListFor(taken, zone) != [] && r.value == f.ListFor(taken, zone)[0]
    ensures r.Some? ==> (forall o :: order <= o < taken ==> f.Empty(o, zone)) && Served(f, g, r.value, taken, order)
    ensures r.Some? ==> forall n: nat :: g.Covering(n) + Covers(r.value, order, n) == f.Covering(n)
  {
    taken := order;
    r, g := TakeBlock(f, order, zone);
    if r.Some? { return; }
    var maxOrder := if zone == LOW then LOW_ORDERS else NORMAL_ORDERS;
    var gord := order + 1;
    while gord < maxOrder
      invariant order < gord && (gord <= maxOrder || gord == order + 1)
      invariant g == f && forall o :: order <= o < gord ==> f.Empty(o, zone)
    {
      taken := gord;
      r, g := TakeBlock(f, gord, zone);
      if r.Some? {
        PowMono(order, gord);
        ghost var h := g;
        g := ChipZone(g, r.value, gord, order);
        TakenChipped(f, h, g, r.value, gord, order);
        return;
      }
      gord := gord + 1;
    }
    r := None;
  }

  lemma {:induction false} PowMono(a: nat, b: nat)
    requires a <= b
    ensures Pow2(a) <= Pow2(b)
  {
    if a < b { PowMono(a, b - 1); }
  }

  class PageAllocator {
    var free: Free
    // Blocks handed out and not freed, and the pages there are: `first` up to `end`.
    ghost var live: seq<Block>
    ghost const first: nat
    ghost const end: nat

    ghost predicate Valid()
      reads this
    {
      && free.Ok()
      && (forall i :: 0 <= i < |live| ==> InZone(live[i]))
      && (forall page: nat :: free.Covering(page) + LiveCover(live, page) == if first <= page < end then 1 else 0)
    }

    /** All storage from page `start` on is free, but for one case: when none below 2GB is reserved, its
        page count needs the order that low storage has no list for, and all of it is lost. The count of
        pages above 2GB is an int in the source. */
    constructor (start: nat, memPages: nat)
      requires start <= memPages && start < LOW_PAGES && memPages < LOW_PAGES + 0x8000_0000
      ensures Valid() && live == [] && end == memPages
      ensures first == if start == 0 && memPages >= LOW_PAGES then LOW_PAGES else start
      ensures Binary(free.low, start, Min(memPages, LOW_PAGES) - start)
      ensures Binary(free.normal, LOW_PAGES, if memPages > LOW_PAGES then memPages - LOW_PAGES else 0)
    {
      var lowPages := if memPages > LOW_PAGES then LOW_PAGES - start else memPages - start;
      var normalPages := memPages - start - lowPages;
      var low := InitLists(start, lowPages, LOW_ORDERS);
      var normal := InitLists(LOW_PAGES, normalPages, NORMAL_ORDERS);
      PowValues();
      PowMono(31, NORMAL_ORDERS);
      LowPartAll(lowPages, LOW_ORDERS);
      LowPartAll(normalPages, NORMAL_ORDERS);
      if start == 0 && memPages >= LOW_PAGES { LowPartPower(LOW_ORDERS, LOW_ORDERS); }
      free := Free(low, normal);
      live, first, end := [], if start == 0 && memPages >= LOW_PAGES then LOW_PAGES else start, memPages;
    }

    /** Allocate 2^order pages: the first block of the smallest order that has one, split. None exactly
        when no block of that order or higher is free in the zones allowed. */
    method AllocPages(order: nat, zone: Zone) returns (r: Option<nat>, ghost taken: nat)
      requires Valid() && order < NORMAL_ORDERS
      modifies this
      ensures Valid()
      ensures r.None? <==> forall o :: order <= o < NORMAL_ORDERS ==> old(free).Empty(o, zone)
      ensures r.None? ==> live == old(live) && free == old(free)
      ensures r.Some? ==>
        live == old(live) + [Block(r.value, order)] && (zone == LOW ==> r.value + Pow2(order) <= LOW_PAGES)
      ensures r.Some? ==>
        && order <= taken < NORMAL_ORDERS && old(free).ListFor(taken, zone) != []
        && r.value == old(free).ListFor(taken, zone)[0]
      ensures r.Some? ==> forall o :: order <= o < taken ==> old(free).Empty(o, zone)
      ensures r.Some? ==> Served(old(free), free, r.value, taken, order)
    {
      var f;
      r, f, taken := Search(free, order, zone);
      if r.Some? {
        forall n: nat
          ensures LiveCover(live + [Block(r.value, order)], n) == LiveCover(live, n) + Covers(r.value, order, n)
        {
          LiveAdd(live, Block(r.value, order), n);
        }
        free, live := f, live + [Block(r.value, order)];
      }
    }

    /** Free the block that was allocated as `live[i]`. */
    method FreePages(b: Block, ghost i: nat)
      requires Valid() && i < |live| && live[i] == b
      modifies this
      ensures Valid() && live == old(live)[..i] + old(live)[i + 1..]
      ensures b.order < |if b.first < LOW_PAGES then old(free).low else old(free).normal|
      ensures free == if b.first < LOW_PAGES
        then old(free).(low := old(free).low[b.order := [b.first] + old(free).low[b.order]])
        else old(free).(normal := old(free).normal[b.order := [b.first] + old(free).normal[b.order]])
    {
      ghost var was := free;
      if b.first < LOW_PAGES {
        free := free.(low := Push(free.low, b.order, b.first));
      } else {
        free := free.(normal := Push(free.normal, b.order, b.first));
      }
      forall n: nat ensures free.Covering(n) == was.Covering(n) + Covers(b.first, b.order, n) {
        if b.first < LOW_PAGES {
          PushCover(was.low, b.order, b.first, n);
        } else {
          PushCover(was.normal, b.order, b.first, n);
        }
      }
      forall n: nat
        ensures LiveCover(live, n) == LiveCover(live[..i] + live[i + 1..], n) + Covers(b.first, b.order, n)
      {
        LiveRemove(live, i, n);
      }
      live := live[..i] + live[i + 1..];
    }

    /** Live allocations never overlap each other or a free block, and lie inside the storage given. */
    lemma Disjoint(i: nat, j: nat, page: nat)
      requires Valid() && i < |live| && j < |live| && i != j && Covers(live[i].first, live[i].order, page) == 1
      ensures first <= page < end && Covers(live[j].first, live[j].order, page) == 0 && free.Covering(page) == 0
    {
      LiveRemove(live, i, page);
      LiveAtLeast(live, i, page);
      var rest := live[..i] + live[i + 1..];
      var k := if j < i then j else j - 1;
      assert rest[k] == live[j];
      LiveAtLeast(rest, k, page);
    }
  }

  /** The source looks past the 19 lists for storage below 2GB exactly when a request for any
      storage finds nothing before order 19 is reached. */
  ghost predicate LooksBeyond(f: Free, order: nat, zone: Zone)
    requires f.Ok()
  {
    exists o :: order <= o < NORMAL_ORDERS && o >= LOW_ORDERS && Consults(f, order, zone, o)
  }

  /** The search gets to the lists for storage below 2GB at order `o`. */
  ghost predicate Consults(f: Free, order: nat, zone: Zone, o: nat)
    requires f.Ok() && order <= o < NORMAL_ORDERS
  {
    && (o == order || zone == NORMAL || o < LOW_ORDERS)
    && (zone == NORMAL ==> f.normal[o] == [])
    && forall i :: order <= i < o ==> f.Empty(i, zone)
  }

  lemma BeyondIff(f: Free, order: nat, zone: Zone)
    requires f.Ok() && order < NORMAL_ORDERS
    ensures var o := if order < LOW_ORDERS then LOW_ORDERS else order;
      LooksBeyond(f, order, zone) <==>
        if zone == LOW then order >= LOW_ORDERS
        else f.normal[o] == [] && forall i :: order <= i < LOW_ORDERS ==> f.normal[i] == [] && f.low[i] == []
  {
    var o := if order < LOW_ORDERS then LOW_ORDERS else order;
    if LooksBeyond(f, order, zone) {
      var h :| order <= h < NORMAL_ORDERS && h >= LOW_ORDERS && Consults(f, order, zone, h);
      if zone == NORMAL {
        assert o < h ==> f.Empty(o, zone);
        forall i | order <= i < LOW_ORDERS ensures f.normal[i] == [] && f.low[i] == [] { assert f.Empty(i, zone); }
      }
    }
    if zone == LOW && order >= LOW_ORDERS { assert Consults(f, order, zone, order); }
    if
      && zone == NORMAL && f.normal[o] == []
      && (forall i :: order <= i < LOW_ORDERS ==> f.normal[i] == [] && f.low[i] == [])
    {
      assert Consults(f, order, zone, o);
    }
  }
}
