/** The pointer tree of a file inside the block map, and the steps of the append loop. */
module EdfGrow {
  import opened Common
  import opened Words
  import opened Ceiling
  import opened EdfVolume
  import opened EdfTree

  ghost function ViewOf(v: Vol, origin: Disk, f: FileId): View {
    View((l, b) => LbaAt(v, Key(f, l, b)),
         (l, c, j) => Word(Content(v, Key(f, l, c)), j),
         (l, c, j) => Word(DiskAt(origin, LbaAt(v, Key(f, l, c))), j))
  }

  /** A file's mapped blocks are those its data block count calls for. */
  ghost predicate Mapped(v: Vol, p: nat, f: FileId, n: nat, nlvl: nat)
    requires p >= 1
  {
    forall k: Key :: k.file == f ==> (k in v.bm <==> k.level <= nlvl && k.blk < BlocksAt(n, p, k.level))
  }

  ghost predicate Tree(v: Vol, g: Geo, origin: Disk, f: FileId, fst: Fst)
    requires g.ptrs > 0
  {
    if fst.adbc == 0 then forall k: Key :: k in v.bm ==> k.file != f
    else
      && Mapped(v, g.ptrs, f, fst.adbc, fst.nlvl)
      && TopIsSingle(fst.adbc, g.ptrs, fst.nlvl)
      && LbaAt(v, Key(f, fst.nlvl, 0)) == fst.fop
      && Linked(ViewOf(v, origin, f), g, fst.adbc, fst.nlvl)
  }

  // ---- Frames ----

  ghost predicate LbasKept(v: Vol, w: Vol) {
    forall k {:trigger k in w.bm} {:trigger w.bm[k]} :: k in v.bm ==> k in w.bm && w.bm[k].lba == v.bm[k].lba
  }

  /** The same keys and places, and the same pointer blocks, for one file. */
  ghost predicate SameTree(v: Vol, w: Vol, f: FileId) {
    && (forall k: Key :: k.file == f ==> (k in v.bm <==> k in w.bm))
    && (forall k: Key :: k.file == f && k in v.bm ==> w.bm[k].lba == v.bm[k].lba)
    && (forall k: Key {:trigger Content(w, k)} :: k.file == f && k in v.bm && k.level > 0 ==>
      Content(w, k) == Content(v, k))
  }

  lemma LinkedFrame(s: View, t: View, g: Geo, n: nat, nlvl: nat)
    requires g.ptrs > 0 && Linked(s, g, n, nlvl)
    requires forall l, b :: s.lba(l, b) == t.lba(l, b)
    requires forall l, c, j :: l > 0 ==> s.word(l, c, j) == t.word(l, c, j)
    requires forall l, c, j :: s.stale(l, c, j) == t.stale(l, c, j)
    ensures Linked(t, g, n, nlvl)
  {
    forall l: nat, b: nat | l < nlvl && HasParent(g, n, l, b) ensures SlotOk(t, g, n, l, b) {
      assert SlotOk(s, g, n, l, b);
    }
  }

  lemma TreeFrame(v: Vol, w: Vol, g: Geo, origin: Disk, f: FileId, fst: Fst)
    requires g.ptrs > 0 && Tree(v, g, origin, f, fst) && SameTree(v, w, f)
    ensures Tree(w, g, origin, f, fst)
  {
    if fst.adbc > 0 {
      forall k: Key | k.file == f
        ensures LbaAt(w, k) == LbaAt(v, k) && (k.level > 0 ==> Content(w, k) == Content(v, k)) {}
      LinkedFrame(ViewOf(v, origin, f), ViewOf(w, origin, f), g, fst.adbc, fst.nlvl);
    }
  }

  // ---- Pointers in a buffer ----

  function PutPtr(g: Geo, c: Bytes, slot: int, ptr: nat): Bytes
    requires |c| == g.Size() && slot < g.ptrs && ptr < WORD_LIMIT
  {
    if slot >= 0 then PutWord(c, slot, ptr) else c
  }

  lemma PutPtrWord(g: Geo, c: Bytes, slot: int, ptr: nat, j: nat)
    requires |c| == g.Size() && slot < g.ptrs && ptr < WORD_LIMIT && j < g.ptrs
    ensures Word(PutPtr(g, c, slot, ptr), j) == if j == slot then ptr else Word(c, j)
  {
    if slot >= 0 { WordAfterPut(c, slot, ptr, j); }
  }

  lemma PutPtrBeyond(g: Geo, c: Bytes, slot: int, ptr: nat, j: nat)
    requires |c| == g.Size() && slot < g.ptrs && ptr < WORD_LIMIT && j >= g.ptrs
    ensures Word(PutPtr(g, c, slot, ptr), j) == Word(c, j)
  {
  }

  // ---- The append loop ----

  function NewKey(g: Geo, f: FileId, n: nat, l: nat): Key
    requires g.ptrs > 0
  {
    Key(f, l, BlocksAt(n, g.ptrs, l))
  }

  /** The block map gained the chain's blocks below `lvl`. */
  ghost predicate GrownKeys(v: Vol, w: Vol, g: Geo, f: FileId, n: nat, lvl: nat)
    requires g.ptrs > 0
  {
    forall k :: k in w.bm <==> k in v.bm || (k.file == f && k.level < lvl && k.blk == BlocksAt(n, g.ptrs, k.level))
  }

  ghost predicate OldContents(v: Vol, w: Vol) {
    forall k {:trigger Content(w, k)} :: k in v.bm && k.file != ALLOCMAP ==> Content(w, k) == Content(v, k)
  }

  /** State of the append loop at level `lvl`; `prev` is the block just added below. */
  ghost predicate Growing(v: Vol, w: Vol, g: Geo, origin: Disk, f: FileId, n: nat, lvl: nat, prev: nat)
    requires g.ptrs > 0
  {
    && GrownKeys(v, w, g, f, n, lvl) && LbasKept(v, w) && OldContents(v, w)
    && Chain(ViewOf(w, origin, f), g, n, lvl)
    && (lvl > 0 ==> prev == LbaAt(w, NewKey(g, f, n, lvl - 1)))
  }

  /** `x` is `w` with block `k` added; above level 0 its first slot points to `prev`,
      the other slots show what the disk held at mount time. */
  ghost predicate Added(w: Vol, x: Vol, g: Geo, origin: Disk, k: Key, lba: nat, prev: nat) {
    && (forall y :: y in x.bm <==> y in w.bm || y == k)
    && LbasKept(w, x) && OldContents(w, x) && LbaAt(x, k) == lba
    && (k.level > 0 ==> forall j: nat :: j < g.ptrs ==> NewWord(x, g, origin, k, prev, j))
  }

  predicate NewWord(x: Vol, g: Geo, origin: Disk, k: Key, prev: nat, j: nat) {
    Word(Content(x, k), j) == if j == 0 then prev else Word(DiskAt(origin, LbaAt(x, k)), j)
  }

  /** The last block of level `lvl` is mapped exactly when that level need not grow. */
  lemma LastBlock(v: Vol, w: Vol, g: Geo, f: FileId, n: nat, nlvl: nat, lvl: nat)
    requires g.ptrs > 0 && n > 0 && lvl <= nlvl
    requires GrownKeys(v, w, g, f, n, lvl) && Mapped(v, g.ptrs, f, n, nlvl)
    ensures BlocksAt(n + 1, g.ptrs, lvl) > 0
    ensures var k := Key(f, lvl, BlocksAt(n + 1, g.ptrs, lvl) - 1);
      if k in w.bm then k in v.bm && lvl > 0 && BlocksAt(n + 1, g.ptrs, lvl) == BlocksAt(n, g.ptrs, lvl)
      else k == NewKey(g, f, n, lvl) && Grew(n, g.ptrs, lvl)
  {
    BlocksAtPositive(n + 1, g.ptrs, lvl);
    BlocksAtGrow(n, g.ptrs, lvl);
  }

  lemma ChainKept(v: Vol, w: Vol, x: Vol, g: Geo, origin: Disk, f: FileId, n: nat, lvl: nat)
    requires g.ptrs > 0 && f != ALLOCMAP && GrownKeys(v, w, g, f, n, lvl) && LbasKept(w, x)
    requires Chain(ViewOf(w, origin, f), g, n, lvl)
    requires forall l: nat {:trigger NewKey(g, f, n, l)} :: l < lvl ==>
      Content(x, NewKey(g, f, n, l)) == Content(w, NewKey(g, f, n, l))
    ensures Chain(ViewOf(x, origin, f), g, n, lvl)
  {
    var s, t := ViewOf(w, origin, f), ViewOf(x, origin, f);
    forall l: nat | l < lvl
      ensures SameBlock(s, t, l, BlocksAt(n, g.ptrs, l)) && SameWords(s, t, l, BlocksAt(n, g.ptrs, l))
    {
      assert NewKey(g, f, n, l) in w.bm;
    }
    ChainFrame(s, t, g, n, lvl);
  }

  /** Adding a block at level `lvl`, linked to the one below, makes the chain longer. */
  lemma GrowStep(v: Vol, w: Vol, x: Vol, g: Geo, origin: Disk, f: FileId, n: nat, lvl: nat, prev: nat, lba: nat)
    requires g.ptrs > 0 && f != ALLOCMAP && Growing(v, w, g, origin, f, n, lvl, prev)
    requires Grew(n, g.ptrs, lvl) && NewKey(g, f, n, lvl) !in w.bm
    requires Added(w, x, g, origin, NewKey(g, f, n, lvl), lba, prev)
    ensures Growing(v, x, g, origin, f, n, lvl + 1, lba)
  {
    var k := NewKey(g, f, n, lvl);
    forall l: nat | l < lvl ensures Content(x, NewKey(g, f, n, l)) == Content(w, NewKey(g, f, n, l)) {
      assert NewKey(g, f, n, l) in w.bm;
    }
    ChainKept(v, w, x, g, origin, f, n, lvl);
    if lvl > 0 {
      assert NewKey(g, f, n, lvl - 1) in w.bm;
      ChainTop(x, g, origin, f, n, lvl, prev);
    }
  }

  lemma ChainTop(x: Vol, g: Geo, origin: Disk, f: FileId, n: nat, lvl: nat, prev: nat)
    requires g.ptrs > 0 && lvl > 0 && Grew(n, g.ptrs, lvl)
    requires Chain(ViewOf(x, origin, f), g, n, lvl) && prev == LbaAt(x, NewKey(g, f, n, lvl - 1))
    requires forall j: nat :: j < g.ptrs ==> NewWord(x, g, origin, NewKey(g, f, n, lvl), prev, j)
    ensures Chain(ViewOf(x, origin, f), g, n, lvl + 1)
  {
    var s := ViewOf(x, origin, f);
    forall l: nat, j: nat | l < lvl && j < g.ptrs ensures ChainSlot(s, g, n, l, j) {
      if l + 1 < lvl {
        assert ChainSlot(s, g, n, l, j);
      } else {
        assert NewWord(x, g, origin, NewKey(g, f, n, lvl), prev, j);
        assert NewKey(g, f, n, lvl) == Key(f, l + 1, BlocksAt(n, g.ptrs, l + 1));
        assert NewKey(g, f, n, lvl - 1) == Key(f, l, BlocksAt(n, g.ptrs, l));
      }
    }
  }

  lemma OldBlocksKept(v: Vol, x: Vol, g: Geo, origin: Disk, f: FileId, n: nat, nlvl: nat)
    requires g.ptrs > 0 && Mapped(v, g.ptrs, f, n, nlvl) && LbasKept(v, x)
    ensures OldKept(ViewOf(v, origin, f), ViewOf(x, origin, f), g, n, nlvl)
  {
    var s, t := ViewOf(v, origin, f), ViewOf(x, origin, f);
    forall l: nat, b: nat | l <= nlvl && b < BlocksAt(n, g.ptrs, l) ensures SameBlock(s, t, l, b) {
      assert Key(f, l, b) in v.bm;
    }
  }

  // ---- The loop stops at level `lvl`, whose last block `k` takes the pointer ----

  /** `x` is `w` with slot `slot` of pointer block `k` set to `prev`. */
  ghost predicate Pointed(w: Vol, x: Vol, g: Geo, k: Key, slot: int, prev: nat) {
    && x.bm.Keys == w.bm.Keys && LbasKept(w, x)
    && (forall y: Key :: y != k && y.file != ALLOCMAP ==> Content(x, y) == Content(w, y))
    && (forall j: nat :: Word(Content(x, k), j) == if j == slot then prev else Word(Content(w, k), j))
  }

  lemma PointedState(v: Vol, w: Vol, x: Vol, g: Geo, origin: Disk, f: FileId, n: nat, nlvl: nat, lvl: nat, prev: nat,
      k: Key)
    requires g.ptrs > 0 && Growing(v, w, g, origin, f, n, lvl, prev) && f != ALLOCMAP && 1 <= lvl <= nlvl
    requires Mapped(v, g.ptrs, f, n, nlvl) && BlocksAt(n, g.ptrs, lvl - 1) > 1
    requires BlocksAt(n + 1, g.ptrs, lvl) == BlocksAt(n, g.ptrs, lvl) && k.file == f && k.level == lvl
    requires k.blk == Div(BlocksAt(n, g.ptrs, lvl - 1), g.ptrs) && k in v.bm
    requires Pointed(w, x, g, k, Slot(g, BlocksAt(n, g.ptrs, lvl - 1) + 1), prev)
    ensures FoundState(ViewOf(v, origin, f), ViewOf(x, origin, f), g, n, nlvl, lvl, k.blk)
  {
    var s, t := ViewOf(v, origin, f), ViewOf(x, origin, f);
    forall l: nat | l < lvl ensures Content(x, NewKey(g, f, n, l)) == Content(w, NewKey(g, f, n, l)) {}
    ChainKept(v, w, x, g, origin, f, n, lvl);
    OldBlocksKept(v, x, g, origin, f, n, nlvl);
    forall l: nat, d: nat | l <= nlvl && d < BlocksAt(n, g.ptrs, l) && (l != lvl || d != k.blk)
      ensures SameWords(s, t, l, d) {
      assert Key(f, l, d) in v.bm;
    }
    assert NewKey(g, f, n, lvl - 1) in w.bm;
  }

  lemma MappedAfter(v: Vol, x: Vol, g: Geo, f: FileId, n: nat, nlvl: nat, lvl: nat)
    requires g.ptrs > 0 && Mapped(v, g.ptrs, f, n, nlvl) && lvl <= nlvl && GrownKeys(v, x, g, f, n, lvl)
    requires forall l: nat :: l < lvl ==> Grew(n, g.ptrs, l)
    requires BlocksAt(n + 1, g.ptrs, lvl) == BlocksAt(n, g.ptrs, lvl)
    ensures Mapped(x, g.ptrs, f, n + 1, nlvl)
  {
    forall k: Key | k.file == f
      ensures k in x.bm <==> k.level <= nlvl && k.blk < BlocksAt(n + 1, g.ptrs, k.level)
    {
      if k.level >= lvl { BlocksAtStable(n, g.ptrs, lvl, k.level); } else { assert Grew(n, g.ptrs, k.level); }
    }
  }

  lemma CountsWhenFound(n: nat, p: nat, nlvl: nat, lvl: nat)
    requires p >= 1 && n > 0 && TopIsSingle(n, p, nlvl) && 1 <= lvl <= nlvl
    requires BlocksAt(n + 1, p, lvl) == BlocksAt(n, p, lvl) && Grew(n, p, lvl - 1)
    ensures TopIsSingle(n + 1, p, nlvl) && BlocksAt(n, p, lvl - 1) > 1
    ensures BlocksAt(n + 1, p, lvl) - 1 == Div(BlocksAt(n, p, lvl - 1), p)
  {
    BelowTop(n, p, nlvl, lvl - 1);
    ParentOfNew(n, p, lvl - 1);
    BlocksAtStable(n, p, lvl, nlvl);
    BlocksAtGrow(n, p, nlvl - 1);
  }

  lemma FoundLinks(v: Vol, w: Vol, x: Vol, g: Geo, origin: Disk, f: FileId, fst: Fst, prev: nat, k: Key, slot: int)
    requires g.ptrs >= 2 && f != ALLOCMAP && k.file == f && 1 <= k.level <= fst.nlvl && k in v.bm
    requires Growing(v, w, g, origin, f, fst.adbc, k.level, prev) && Pointed(w, x, g, k, slot, prev)
    requires fst.adbc > 0 && Tree(v, g, origin, f, fst)
    requires BlocksAt(fst.adbc + 1, g.ptrs, k.level) == BlocksAt(fst.adbc, g.ptrs, k.level) == k.blk + 1
    requires BlocksAt(fst.adbc + 1, g.ptrs, k.level - 1) > 0
    requires slot == Slot(g, BlocksAt(fst.adbc + 1, g.ptrs, k.level - 1))
    ensures Linked(ViewOf(x, origin, f), g, fst.adbc + 1, fst.nlvl) && TopIsSingle(fst.adbc + 1, g.ptrs, fst.nlvl)
  {
    var n, lvl := fst.adbc, k.level;
    assert Grew(n, g.ptrs, lvl - 1);
    CountsWhenFound(n, g.ptrs, fst.nlvl, lvl);
    PointedState(v, w, x, g, origin, f, n, fst.nlvl, lvl, prev, k);
    FoundLinked(ViewOf(v, origin, f), ViewOf(x, origin, f), g, n, fst.nlvl, lvl, k.blk);
  }

  lemma FoundTree(v: Vol, w: Vol, x: Vol, g: Geo, origin: Disk, f: FileId, fst: Fst, prev: nat, k: Key, slot: int)
    requires g.ptrs >= 2 && f != ALLOCMAP && k.file == f && 1 <= k.level <= fst.nlvl && k in v.bm
    requires Growing(v, w, g, origin, f, fst.adbc, k.level, prev) && Pointed(w, x, g, k, slot, prev)
    requires fst.adbc > 0 && Tree(v, g, origin, f, fst)
    requires BlocksAt(fst.adbc + 1, g.ptrs, k.level) == BlocksAt(fst.adbc, g.ptrs, k.level) == k.blk + 1
    requires BlocksAt(fst.adbc + 1, g.ptrs, k.level - 1) > 0
    requires slot == Slot(g, BlocksAt(fst.adbc + 1, g.ptrs, k.level - 1))
    ensures Tree(x, g, origin, f, fst.(adbc := fst.adbc + 1))
  {
    FoundLinks(v, w, x, g, origin, f, fst, prev, k, slot);
    MappedAfter(v, x, g, f, fst.adbc, fst.nlvl, k.level);
    assert Key(f, fst.nlvl, 0) in v.bm;
  }

  // ---- No level had room: block `t` becomes the new top ----

  /** `x` is `w` with a new top block `t` pointing to the old top and the end of the chain. */
  ghost predicate Topped(w: Vol, x: Vol, g: Geo, origin: Disk, t: Key, lba: nat, fop: nat, prev: nat) {
    && (forall y :: y in x.bm <==> y in w.bm || y == t)
    && LbasKept(w, x) && OldContents(w, x) && LbaAt(x, t) == lba
    && (forall j: nat :: j < g.ptrs ==> TopWord(x, origin, t, fop, prev, j))
  }

  predicate TopWord(x: Vol, origin: Disk, t: Key, fop: nat, prev: nat, j: nat) {
    Word(Content(x, t), j) == if j == 0 then fop else if j == 1 then prev else Word(DiskAt(origin, LbaAt(x, t)), j)
  }

  lemma ToppedWords(v: Vol, w: Vol, x: Vol, g: Geo, origin: Disk, f: FileId, n: nat, nlvl: nat, fop: nat, prev: nat,
      lba: nat, j: nat)
    requires g.ptrs > 0 && Growing(v, w, g, origin, f, n, nlvl + 1, prev) && j < g.ptrs
    requires Mapped(v, g.ptrs, f, n, nlvl) && BlocksAt(n, g.ptrs, nlvl) == 1 && LbaAt(v, Key(f, nlvl, 0)) == fop
    requires LbasKept(w, x) && TopWord(x, origin, Key(f, nlvl + 1, 0), fop, prev, j)
    ensures TopPointer(ViewOf(x, origin, f), nlvl, j)
  {
    assert NewKey(g, f, n, nlvl) in w.bm && Key(f, nlvl, 0) in v.bm;
  }

  lemma ToppedChain(v: Vol, w: Vol, x: Vol, g: Geo, origin: Disk, f: FileId, n: nat, nlvl: nat, prev: nat)
    requires g.ptrs > 0 && Growing(v, w, g, origin, f, n, nlvl + 1, prev) && f != ALLOCMAP
    requires LbasKept(w, x) && OldContents(w, x)
    ensures Chain(ViewOf(x, origin, f), g, n, nlvl + 1)
  {
    forall l: nat | l < nlvl + 1 ensures Content(x, NewKey(g, f, n, l)) == Content(w, NewKey(g, f, n, l)) {
      assert NewKey(g, f, n, l) in w.bm;
    }
    ChainKept(v, w, x, g, origin, f, n, nlvl + 1);
  }

  lemma ToppedState(v: Vol, w: Vol, x: Vol, g: Geo, origin: Disk, f: FileId, n: nat, nlvl: nat, fop: nat, prev: nat,
      lba: nat)
    requires g.ptrs > 0 && Growing(v, w, g, origin, f, n, nlvl + 1, prev) && f != ALLOCMAP
    requires Mapped(v, g.ptrs, f, n, nlvl) && BlocksAt(n, g.ptrs, nlvl) == 1 && LbaAt(v, Key(f, nlvl, 0)) == fop
    requires Topped(w, x, g, origin, Key(f, nlvl + 1, 0), lba, fop, prev)
    ensures TopState(ViewOf(v, origin, f), ViewOf(x, origin, f), g, n, nlvl)
  {
    var s, t := ViewOf(v, origin, f), ViewOf(x, origin, f);
    ToppedChain(v, w, x, g, origin, f, n, nlvl, prev);
    OldBlocksKept(v, x, g, origin, f, n, nlvl);
    assert OldContents(v, x);
    forall l: nat, d: nat | l <= nlvl && d < BlocksAt(n, g.ptrs, l) ensures SameWords(s, t, l, d) {
      assert Key(f, l, d) in v.bm;
    }
    forall j: nat | j < g.ptrs ensures TopPointer(t, nlvl, j) {
      ToppedWords(v, w, x, g, origin, f, n, nlvl, fop, prev, lba, j);
    }
  }

  lemma MappedTop(v: Vol, w: Vol, x: Vol, g: Geo, f: FileId, n: nat, nlvl: nat)
    requires g.ptrs >= 2 && Mapped(v, g.ptrs, f, n, nlvl) && BlocksAt(n, g.ptrs, nlvl) == 1
    requires GrownKeys(v, w, g, f, n, nlvl + 1) && forall y :: y in x.bm <==> y in w.bm || y == Key(f, nlvl + 1, 0)
    requires forall l: nat :: l < nlvl + 1 ==> Grew(n, g.ptrs, l)
    ensures Mapped(x, g.ptrs, f, n + 1, nlvl + 1) && TopIsSingle(n + 1, g.ptrs, nlvl + 1)
  {
    assert Grew(n, g.ptrs, nlvl);
    TopCounts(n, g.ptrs, nlvl);
    forall k: Key | k.file == f
      ensures k in x.bm <==> k.level <= nlvl + 1 && k.blk < BlocksAt(n + 1, g.ptrs, k.level)
    {
      if k.level <= nlvl { assert Grew(n, g.ptrs, k.level); }
    }
  }

  lemma TopTree(v: Vol, w: Vol, x: Vol, g: Geo, origin: Disk, f: FileId, fst: Fst, prev: nat, lba: nat)
    requires g.ptrs >= 2 && Growing(v, w, g, origin, f, fst.adbc, fst.nlvl + 1, prev) && f != ALLOCMAP
    requires fst.adbc > 0 && Tree(v, g, origin, f, fst)
    requires Topped(w, x, g, origin, Key(f, fst.nlvl + 1, 0), lba, fst.fop, prev)
    ensures Tree(x, g, origin, f, fst.(adbc := fst.adbc + 1, nlvl := fst.nlvl + 1, fop := lba))
  {
    ToppedState(v, w, x, g, origin, f, fst.adbc, fst.nlvl, fst.fop, prev, lba);
    TopLinked(ViewOf(v, origin, f), ViewOf(x, origin, f), g, fst.adbc, fst.nlvl);
    MappedTop(v, w, x, g, f, fst.adbc, fst.nlvl);
  }

  // ---- What one more block changes ----

  /** The volume after a block was appended to file `f`: nothing written to disk, new blocks only in
      `f`, and only pointer blocks of `f` (and the allocation map) changed. */
  ghost predicate Extends(v: Vol, x: Vol, f: FileId) {
    && x.disk == v.disk && LbasKept(v, x)
    && (forall k :: k in x.bm && k !in v.bm ==> k.file == f)
    && (forall k {:trigger Content(x, k)} :: k in v.bm && k.file != ALLOCMAP && (k.file != f || k.level == 0) ==>
      Content(x, k) == Content(v, k))
  }

  lemma GrowStart(v: Vol, g: Geo, origin: Disk, f: FileId, n: nat, prev: nat)
    requires g.ptrs > 0
    ensures Growing(v, v, g, origin, f, n, 0, prev)
  {
  }

  /** Writing a pointer changes one slot of one block. */
  lemma PointedByStore(w: Vol, g: Geo, k: Key, slot: int, prev: nat)
    requires g.ptrs > 0 && k in w.bm && |Content(w, k)| == g.Size() && slot < g.ptrs && prev < WORD_LIMIT
    ensures Pointed(w, Store(w, k, PutPtr(g, Content(w, k), slot, prev)), g, k, slot, prev)
  {
    var c := PutPtr(g, Content(w, k), slot, prev);
    StoreView(w, g, k, c);
    forall j: nat ensures Word(c, j) == if j == slot then prev else Word(Content(w, k), j) {
      if j < g.ptrs {
        PutPtrWord(g, Content(w, k), slot, prev, j);
      } else {
        PutPtrBeyond(g, Content(w, k), slot, prev, j);
      }
    }
  }

  /** The new top block: added with one pointer, then given its second. */
  lemma ToppedFrom(w: Vol, y: Vol, x: Vol, g: Geo, origin: Disk, t: Key, lba: nat, fop: nat, prev: nat)
    requires g.ptrs >= 2 && t.level > 0 && t.file != ALLOCMAP && t !in w.bm
    requires Added(w, y, g, origin, t, lba, fop) && Pointed(y, x, g, t, 1, prev)
    ensures Topped(w, x, g, origin, t, lba, fop, prev)
  {
    forall j: nat | j < g.ptrs ensures TopWord(x, origin, t, fop, prev, j) {
      assert NewWord(y, g, origin, t, fop, j);
      assert LbaAt(x, t) == LbaAt(y, t);
    }
    forall k | k in w.bm && k.file != ALLOCMAP ensures Content(x, k) == Content(w, k) {
      assert k != t && Content(y, k) == Content(w, k);
    }
  }
}
