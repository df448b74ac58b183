/** The pointer tree of one file: what the installer builds level by level, and what a
    reader that walks down from the file origin finds. */
module EdfTree {
  import opened Common
  import opened Ceiling
  import opened EdfVolume

  /** File status: origin pointer, data block count, item count, pointer levels, record length. */
  datatype Fst = Fst(fop: nat, adbc: nat, aic: nat, nlvl: nat, lrecl: nat)

  // ---- How many blocks a level has ----

  function Pow(p: nat, l: nat): (r: nat)
    requires p >= 1
    ensures r >= 1
  {
    if l == 0 then 1 else Pow(p, l - 1) * p
  }

  /** Each level has one block for every `p` blocks of the level below. */
  function BlocksAt(n: nat, p: nat, l: nat): nat
    requires p >= 1
  {
    if l == 0 then n else CeilDiv(BlocksAt(n, p, l - 1), p)
  }

  lemma NestedBounds(n: int, q: nat, p: nat, a: int, b: int)
    requires (a - 1) * q < n <= a * q && (b - 1) * p < a <= b * p
    ensures (b - 1) * (q * p) < n <= b * (q * p)
  {
    MulMono(a, b * p, q);
    MulMono((b - 1) * p, a - 1, q);
    assert b * p * q == b * (q * p);
    assert (b - 1) * p * q == (b - 1) * (q * p);
  }

  lemma CeilNested(n: nat, q: nat, p: nat)
    requires q > 0 && p > 0
    ensures q * p > 0 && CeilDiv(n, q * p) == CeilDiv(CeilDiv(n, q), p)
  {
    MulMono(1, q, p);
    if n > 0 {
      CeilBounds(n, q);
      CeilBounds(CeilDiv(n, q), p);
      NestedBounds(n, q, p, CeilDiv(n, q), CeilDiv(CeilDiv(n, q), p));
      CeilUnique(n, q * p, CeilDiv(CeilDiv(n, q), p));
    }
  }

  /** The source rounds the data block count up to a power of `p` in one division. */
  lemma {:induction false} BlocksAtClosedForm(n: nat, p: nat, l: nat)
    requires p >= 1
    ensures CeilDiv(n, Pow(p, l)) == BlocksAt(n, p, l)
  {
    if l == 0 {
      DivIs(n, 1);
      CeilIs(n, 1);
    } else {
      BlocksAtClosedForm(n, p, l - 1);
      assert Pow(p, l) == Pow(p, l - 1) * p;
      CeilNested(n, Pow(p, l - 1), p);
    }
  }

  lemma {:induction false} BlocksAtPositive(n: nat, p: nat, l: nat)
    requires p >= 1 && n > 0
    ensures BlocksAt(n, p, l) > 0
  {
    if l > 0 {
      BlocksAtPositive(n, p, l - 1);
      var m := BlocksAt(n, p, l - 1);
      CeilSucc(m - 1, p);
    }
  }

  /** Adding a data block adds a block at level `l` or leaves that level and all above alone. */
  lemma {:induction false} BlocksAtGrow(n: nat, p: nat, l: nat)
    requires p >= 1
    ensures BlocksAt(n + 1, p, l) == BlocksAt(n, p, l) || BlocksAt(n + 1, p, l) == BlocksAt(n, p, l) + 1
  {
    if l > 0 {
      BlocksAtGrow(n, p, l - 1);
      CeilSucc(BlocksAt(n, p, l - 1), p);
    }
  }

  lemma {:induction false} BlocksAtStable(n: nat, p: nat, l: nat, h: nat)
    requires p >= 1 && l <= h && BlocksAt(n + 1, p, l) == BlocksAt(n, p, l)
    ensures BlocksAt(n + 1, p, h) == BlocksAt(n, p, h)
  {
    if l < h { BlocksAtStable(n, p, l, h - 1); }
  }

  /** The parent of the block a level gained: a new block at slot 0, or the last old one. */
  lemma ParentOfNew(n: nat, p: nat, l: nat)
    requires p >= 1 && BlocksAt(n + 1, p, l) == BlocksAt(n, p, l) + 1
    ensures BlocksAt(n + 1, p, l + 1) == Div(BlocksAt(n, p, l), p) + 1
    ensures Mod(BlocksAt(n, p, l), p) == 0 ==> BlocksAt(n, p, l + 1) == Div(BlocksAt(n, p, l), p)
    ensures Mod(BlocksAt(n, p, l), p) != 0 ==> BlocksAt(n, p, l + 1) == Div(BlocksAt(n, p, l), p) + 1
  {
    CeilSucc(BlocksAt(n, p, l), p);
  }

  lemma ParentInRange(n: nat, p: nat, l: nat, b: nat)
    requires p >= 1 && b < BlocksAt(n, p, l)
    ensures Div(b, p) < BlocksAt(n, p, l + 1)
  {
    DivMono(b, BlocksAt(n, p, l) - 1, p);
  }

  // ---- The tree of one file, seen through three functions ----

  /** `lba(l, b)`: where block `b` of level `l` is; `word(l, c, j)`: pointer slot `j` of pointer
      block (l, c); `stale(l, c, j)`: what the disk held there at mount time. */
  datatype View = View(lba: (nat, nat) -> nat, word: (nat, nat, nat) -> nat, stale: (nat, nat, nat) -> nat)

  /** Slot written by the repository's expression `n % ptrs - 1`; -1 means before the buffer. */
  function Slot(g: Geo, n: nat): int
    requires g.ptrs > 0 && n > 0
  {
    if g.coding.AsWritten? then Mod(n, g.ptrs) - 1 else Mod(n - 1, g.ptrs)
  }

  /** Blocks whose pointer is written before the start of its pointer block.
      Block 1 of a level is linked when a new top is built, which uses a constant slot. */
  predicate Lost(g: Geo, b: nat)
    requires g.ptrs > 0
  {
    g.coding.AsWritten? && Mod(b, g.ptrs) == g.ptrs - 1 && b != 1
  }

  /** Slot `b % ptrs` of block (l+1, b/ptrs) holds the lba of block (l, b) if that block exists
      and was linked, otherwise what the disk held there at mount time. */
  predicate SlotOk(s: View, g: Geo, n: nat, l: nat, b: nat)
    requires g.ptrs > 0
  {
    s.word(l + 1, Div(b, g.ptrs), Mod(b, g.ptrs)) ==
    if b < BlocksAt(n, g.ptrs, l) && !Lost(g, b) then s.lba(l, b) else s.stale(l + 1, Div(b, g.ptrs), Mod(b, g.ptrs))
  }

  /** Slot `b % ptrs` of block (l+1, b/ptrs) exists. */
  predicate HasParent(g: Geo, n: nat, l: nat, b: nat)
    requires g.ptrs > 0
  {
    Div(b, g.ptrs) < BlocksAt(n, g.ptrs, l + 1)
  }

  ghost predicate Linked(s: View, g: Geo, n: nat, nlvl: nat)
    requires g.ptrs > 0
  {
    forall l: nat, b: nat {:trigger SlotOk(s, g, n, l, b)} :: l < nlvl && HasParent(g, n, l, b) ==>
      SlotOk(s, g, n, l, b)
  }

  predicate TopIsSingle(n: nat, p: nat, nlvl: nat)
    requires p >= 1
  {
    BlocksAt(n, p, nlvl) == 1 && (nlvl > 0 ==> BlocksAt(n, p, nlvl - 1) > 1)
  }

  /** Every level below the top has more than one block. */
  lemma {:induction false} BelowTop(n: nat, p: nat, nlvl: nat, l: nat)
    requires p >= 1 && l < nlvl && n > 0 && TopIsSingle(n, p, nlvl)
    ensures BlocksAt(n, p, l) > 1
    decreases nlvl - l
  {
    if l + 1 < nlvl {
      BelowTop(n, p, nlvl, l + 1);
      BlocksAtPositive(n, p, l);
      CeilSucc(0, p);
      assert BlocksAt(n, p, l) != 1;
    }
  }

  // ---- Growing by one data block ----

  /** Adding data block number `n` adds a block at level `l`. */
  predicate Grew(n: nat, p: nat, l: nat)
    requires p >= 1
  {
    BlocksAt(n + 1, p, l) == BlocksAt(n, p, l) + 1
  }

  predicate ChainSlot(s: View, g: Geo, n: nat, l: nat, j: nat)
    requires g.ptrs > 0
  {
    var up := BlocksAt(n, g.ptrs, l + 1);
    s.word(l + 1, up, j) == if j == 0 then s.lba(l, BlocksAt(n, g.ptrs, l)) else s.stale(l + 1, up, j)
  }

  /** Levels below `lvl` gained a block each; each new pointer block holds one pointer. */
  ghost predicate Chain(s: View, g: Geo, n: nat, lvl: nat)
    requires g.ptrs > 0
  {
    && (forall l: nat :: l < lvl ==> Grew(n, g.ptrs, l))
    && (forall l: nat, j: nat {:trigger ChainSlot(s, g, n, l, j)} :: l + 1 < lvl && j < g.ptrs ==>
      ChainSlot(s, g, n, l, j))
  }

  ghost predicate SameBlock(s: View, t: View, l: nat, b: nat) {
    s.lba(l, b) == t.lba(l, b) && forall j: nat :: s.stale(l, b, j) == t.stale(l, b, j)
  }

  ghost predicate SameWords(s: View, t: View, l: nat, c: nat) {
    forall j: nat :: s.word(l, c, j) == t.word(l, c, j)
  }

  /** The blocks a file of `n` data blocks has are where they were. */
  ghost predicate OldKept(s: View, t: View, g: Geo, n: nat, nlvl: nat)
    requires g.ptrs > 0
  {
    forall l: nat, b: nat {:trigger SameBlock(s, t, l, b)} :: l <= nlvl && b < BlocksAt(n, g.ptrs, l) ==>
      SameBlock(s, t, l, b)
  }

  lemma ChainFrame(s: View, t: View, g: Geo, n: nat, lvl: nat)
    requires g.ptrs > 0 && Chain(s, g, n, lvl)
    requires forall l: nat {:trigger Grew(n, g.ptrs, l)} :: l < lvl ==>
        SameBlock(s, t, l, BlocksAt(n, g.ptrs, l)) && SameWords(s, t, l, BlocksAt(n, g.ptrs, l))
    ensures Chain(t, g, n, lvl)
  {
    forall l: nat, j: nat | l + 1 < lvl && j < g.ptrs ensures ChainSlot(t, g, n, l, j) {
      assert ChainSlot(s, g, n, l, j) && Grew(n, g.ptrs, l) && Grew(n, g.ptrs, l + 1);
    }
  }

  lemma SameSplit(b: nat, b': nat, p: nat)
    requires p >= 1 && Div(b, p) == Div(b', p) && Mod(b, p) == Mod(b', p)
    ensures b == b'
  {
    DivIs(b, p);
    DivIs(b', p);
  }

  /** The repository's slot is the right one, except that it is -1 for a lost block. */
  lemma SlotOfLast(g: Geo, c: nat)
    requires g.ptrs >= 2 && c > 1
    ensures Slot(g, c + 1) == if Lost(g, c) then -1 else Mod(c, g.ptrs)
  {
    DivSucc(c, g.ptrs);
  }

  /** A slot of an unchanged old pointer block, if it is not the new block's slot. */
  lemma OldSlot(s: View, t: View, g: Geo, n: nat, nlvl: nat, l: nat, b: nat)
    requires g.ptrs > 0 && l < nlvl && HasParent(g, n, l, b) && Linked(s, g, n, nlvl) && OldKept(s, t, g, n, nlvl)
    requires SameWords(s, t, l + 1, Div(b, g.ptrs))
    requires b < BlocksAt(n + 1, g.ptrs, l) <==> b < BlocksAt(n, g.ptrs, l)
    ensures SlotOk(t, g, n + 1, l, b)
  {
    assert SlotOk(s, g, n, l, b);
    assert SameBlock(s, t, l + 1, Div(b, g.ptrs));
    assert b < BlocksAt(n, g.ptrs, l) ==> SameBlock(s, t, l, b);
  }

  /** A slot of a pointer block the chain added. */
  lemma NewSlot(t: View, g: Geo, n: nat, l: nat, b: nat)
    requires g.ptrs >= 2 && ChainSlot(t, g, n, l, Mod(b, g.ptrs))
    requires Div(b, g.ptrs) == BlocksAt(n, g.ptrs, l + 1) && Grew(n, g.ptrs, l) && Grew(n, g.ptrs, l + 1)
    ensures SlotOk(t, g, n + 1, l, b)
  {
    var c := BlocksAt(n, g.ptrs, l);
    ParentOfNew(n, g.ptrs, l);
    DivIs(b, g.ptrs);
    DivIs(c, g.ptrs);
    assert b == c + Mod(b, g.ptrs);
  }

  /** Below the top of the chain every slot is right for `n + 1` data blocks. */
  lemma ChainLinked(s: View, t: View, g: Geo, n: nat, nlvl: nat, lvl: nat, l: nat, b: nat)
    requires g.ptrs >= 2 && lvl <= nlvl + 1 && l + 1 < lvl && HasParent(g, n + 1, l, b)
    requires Linked(s, g, n, nlvl) && OldKept(s, t, g, n, nlvl) && Chain(t, g, n, lvl)
    requires Div(b, g.ptrs) < BlocksAt(n, g.ptrs, l + 1) ==> SameWords(s, t, l + 1, Div(b, g.ptrs))
    ensures SlotOk(t, g, n + 1, l, b)
  {
    assert Grew(n, g.ptrs, l) && Grew(n, g.ptrs, l + 1);
    if Div(b, g.ptrs) == BlocksAt(n, g.ptrs, l + 1) {
      assert ChainSlot(t, g, n, l, Mod(b, g.ptrs));
      NewSlot(t, g, n, l, b);
    } else {
      ParentOfNew(n, g.ptrs, l);
      OldSlot(s, t, g, n, nlvl, l, b);
    }
  }

  // ---- The loop stops at a level that did not grow ----

  /** Pointer block (lvl, c) took the new pointer; the other old pointer blocks are unchanged. */
  ghost predicate FoundState(s: View, t: View, g: Geo, n: nat, nlvl: nat, lvl: nat, c: nat)
    requires g.ptrs > 0
  {
    && lvl > 0 && Chain(t, g, n, lvl) && OldKept(s, t, g, n, nlvl)
    && BlocksAt(n + 1, g.ptrs, lvl) == BlocksAt(n, g.ptrs, lvl) && BlocksAt(n, g.ptrs, lvl - 1) > 1
    && c == Div(BlocksAt(n, g.ptrs, lvl - 1), g.ptrs)
    && (forall l: nat, d: nat {:trigger SameWords(s, t, l, d)} ::
          l <= nlvl && d < BlocksAt(n, g.ptrs, l) && (l != lvl || d != c) ==> SameWords(s, t, l, d))
    && (forall j: nat {:trigger t.word(lvl, c, j)} :: j < g.ptrs ==>
          t.word(lvl, c, j) == if j == Slot(g, BlocksAt(n, g.ptrs, lvl - 1) + 1)
                               then t.lba(lvl - 1, BlocksAt(n, g.ptrs, lvl - 1)) else s.word(lvl, c, j))
  }

  lemma FoundInside(s: View, t: View, g: Geo, n: nat, nlvl: nat, lvl: nat, c: nat, b: nat)
    requires g.ptrs >= 2 && FoundState(s, t, g, n, nlvl, lvl, c) && lvl <= nlvl && Linked(s, g, n, nlvl)
    requires Div(b, g.ptrs) == c && HasParent(g, n, lvl - 1, b)
    ensures SlotOk(t, g, n + 1, lvl - 1, b)
  {
    var l := lvl - 1;
    var last := BlocksAt(n, g.ptrs, l);
    SlotOfLast(g, last);
    assert Grew(n, g.ptrs, l);
    assert SlotOk(s, g, n, l, b);
    assert SameBlock(s, t, lvl, c);
    assert b < last ==> SameBlock(s, t, l, b);
    if Mod(b, g.ptrs) == Mod(last, g.ptrs) { SameSplit(b, last, g.ptrs); }
  }

  lemma FoundLinked(s: View, t: View, g: Geo, n: nat, nlvl: nat, lvl: nat, c: nat)
    requires g.ptrs >= 2 && FoundState(s, t, g, n, nlvl, lvl, c) && lvl <= nlvl && Linked(s, g, n, nlvl)
    ensures Linked(t, g, n + 1, nlvl)
  {
    var m := n + 1;
    assert Grew(n, g.ptrs, lvl - 1);
    forall l: nat, b: nat | l < nlvl && HasParent(g, m, l, b)
      ensures SlotOk(t, g, m, l, b)
    {
      if l + 1 < lvl {
        ChainLinked(s, t, g, n, nlvl, lvl, l, b);
      } else {
        BlocksAtStable(n, g.ptrs, lvl, l + 1);
        if l + 1 > lvl {
          BlocksAtStable(n, g.ptrs, lvl, l);
          OldSlot(s, t, g, n, nlvl, l, b);
        } else if Div(b, g.ptrs) != c {
          OldSlot(s, t, g, n, nlvl, l, b);
        } else {
          FoundInside(s, t, g, n, nlvl, lvl, c, b);
        }
      }
    }
  }

  // ---- Every level grew: a new top block over the two blocks of the old top level ----

  ghost predicate TopState(s: View, t: View, g: Geo, n: nat, nlvl: nat)
    requires g.ptrs > 0
  {
    && Chain(t, g, n, nlvl + 1) && OldKept(s, t, g, n, nlvl)
    && (forall l: nat, d: nat {:trigger SameWords(s, t, l, d)} :: l <= nlvl && d < BlocksAt(n, g.ptrs, l) ==>
      SameWords(s, t, l, d))
    && (forall j: nat :: j < g.ptrs ==> TopPointer(t, nlvl, j))
  }

  predicate TopPointer(t: View, nlvl: nat, j: nat) {
    t.word(nlvl + 1, 0, j) == if j < 2 then t.lba(nlvl, j) else t.stale(nlvl + 1, 0, j)
  }

  lemma TopCounts(n: nat, p: nat, nlvl: nat)
    requires p >= 2 && BlocksAt(n, p, nlvl) == 1 && Grew(n, p, nlvl)
    ensures BlocksAt(n + 1, p, nlvl + 1) == 1
  {
    ParentOfNew(n, p, nlvl);
  }

  lemma TopSlot(t: View, g: Geo, n: nat, nlvl: nat, b: nat)
    requires g.ptrs >= 2 && BlocksAt(n + 1, g.ptrs, nlvl) == 2 && Div(b, g.ptrs) == 0
    requires TopPointer(t, nlvl, Mod(b, g.ptrs))
    ensures SlotOk(t, g, n + 1, nlvl, b)
  {
    DivIs(b, g.ptrs);
  }

  lemma TopLinked(s: View, t: View, g: Geo, n: nat, nlvl: nat)
    requires g.ptrs >= 2 && TopState(s, t, g, n, nlvl) && Linked(s, g, n, nlvl) && BlocksAt(n, g.ptrs, nlvl) == 1
    ensures Linked(t, g, n + 1, nlvl + 1)
  {
    var m := n + 1;
    assert Grew(n, g.ptrs, nlvl);
    TopCounts(n, g.ptrs, nlvl);
    forall l: nat, b: nat | l < nlvl + 1 && HasParent(g, m, l, b)
      ensures SlotOk(t, g, m, l, b)
    {
      if l < nlvl {
        ChainLinked(s, t, g, n, nlvl, nlvl + 1, l, b);
      } else {
        TopSlot(t, g, n, nlvl, b);
      }
    }
  }
}
