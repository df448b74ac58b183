/** The installer's writer: block map, buffers, block allocation, record append and write-back. */
module EdfInstaller {
  import opened Common
  import opened Words
  import opened Bitmap
  import opened Ceiling
  import opened EdfVolume
  import opened EdfTree
  import opened EdfGrow
  import opened EdfRecords
  import opened EdfFiles
  import opened EdfDirectory

  /** A block was claimed in the allocation map; nothing else that a file can see changed. */
  ghost predicate Claimed(v: Vol, w: Vol, g: Geo, lba: nat)
    requires g.ptrs > 0
  {
    && w.disk == v.disk && LbasKept(v, w) && w.bm.Keys == v.bm.Keys
    && (forall k: Key {:trigger Content(w, k)} :: k.file != ALLOCMAP ==> Content(w, k) == Content(v, k))
    && InRange(g, lba) && !Used(v, g, lba)
    && (forall l: nat :: Used(w, g, l) <==> l == lba || Used(v, g, l))
    && MapByte(w, g, lba) == MapByte(v, g, lba) + Pow2(7 - (lba - 1) % 8)
  }

  /** Every block below `m` has its bit set in the allocation map. */
  ghost predicate BitsSetBelow(v: Vol, g: Geo, m: nat)
    requires g.ptrs > 0
  {
    forall l: nat {:trigger MapByte(v, g, l)} :: 0 < l < m ==> MapByte(v, g, l) / Pow2(7 - (l - 1) % 8) % 2 == 1
  }

  lemma BelowIs(v: Vol, g: Geo, m: nat)
    requires g.ptrs > 0
    ensures UsedBelow(v, g, m) <==> BitsSetBelow(v, g, m)
  {
    forall l: nat | 0 < l < m
      ensures Used(v, g, l) <==> MapByte(v, g, l) / Pow2(7 - (l - 1) % 8) % 2 == 1
    {
      UsedIs(v, g, l);
    }
    if BitsSetBelow(v, g, m) {
      forall l: nat | 0 < l < m ensures Used(v, g, l) { assert MapByte(v, g, l) >= 0; }
    }
  }

  /** Every block of the volume is in use. */
  ghost predicate Full(v: Vol, g: Geo)
    requires g.ptrs > 0
  {
    UsedBelow(v, g, g.Cap() + 1)
  }

  /** File `f` went from `a` to `b` by one data block. */
  ghost predicate Appended(v: Vol, x: Vol, g: Geo, origin: Disk, f: FileId, a: Fst, b: Fst)
    requires g.ptrs > 0
  {
    && Tree(x, g, origin, f, b) && b.adbc == a.adbc + 1 && b.aic == a.aic && b.lrecl == a.lrecl
    && Extends(v, x, f)
  }

  class Installer {
    const g: Geo
    // Directory entries per block, and the directory's first block, as the volume's label gives them.
    const nfst: nat
    const dop: nat
    // The block map with its buffers, and the disk.
    var vol: Vol
    var fsts: Fsts
    // What the disk held at mount time, and the records given to each file.
    ghost const origin: Disk
    ghost var recs: Recs

    ghost predicate VOk()
      reads this
    {
      VolOk(vol, g, origin)
    }

    /** Blocks and files are in order. */
    ghost predicate Filed()
      reads this
    {
      VOk() && FilesOk(vol, g, origin, fsts, recs)
    }

    ghost predicate Valid()
      reads this
    {
      Filed() && DirectoryOk(vol, g, nfst, dop, fsts, recs)
    }

    /** A mounted volume: the data blocks of the allocation map and of a one-block directory are mapped. */
    constructor (geo: Geo, nfst: nat, disk: Disk, amap: seq<nat>, dop: nat)
      requires MountOk(geo, nfst, disk, amap, dop)
      ensures Valid() && g == geo && this.nfst == nfst && this.dop == dop && origin == disk
      ensures vol == Mounted(disk, amap, dop) && fsts.Keys == {DIRECTOR}
    {
      var fst := GetFst(SlotAt(DiskAt(disk, dop), 0));
      MountedOk(geo, nfst, disk, amap, dop);
      g, this.nfst, this.dop, origin, vol := geo, nfst, dop, disk, Mounted(disk, amap, dop);
      fsts, recs := map[DIRECTOR := fst], map[DIRECTOR := Entries(DiskAt(disk, dop), fst.aic)];
    }

    /** Look a file up by name. Found exactly when an entry has the name, also one beyond the entries
        in use; a file of the volume is found with its status. */
    method FindFile(f: FileId) returns (r: Option<Fst>)
      requires Valid()
      modifies this`vol
      ensures Valid() && SameView(old(vol), vol)
      ensures f in fsts ==> r == Some(Truncated(fsts[f]))
      ensures r.None? ==> !Listed(recs[DIRECTOR], f)
      ensures r.Some? <==> exists b: nat, m: nat :: b < fsts[DIRECTOR].adbc && m < nfst && VolSlot(vol, b, m, f)
    {
      ghost var v := vol;
      var at, e := ScanDirectory(f);
      FileScanned(v, vol, g, origin, nfst, dop, fsts, recs, f, at);
      if at.None? { return None; }
      assert VolSlot(vol, at.value.0, at.value.1, f);
      r := Some(GetFst(e));
    }

    /** The first entry with the name, block by block. */
    method ScanDirectory(f: FileId) returns (r: Option<(nat, nat)>, e: Bytes)
      requires Filed() && DirShape(vol, g, nfst, dop, fsts, recs)
      modifies this`vol
      ensures VOk() && SameView(old(vol), vol)
      ensures FirstNamed(vol, nfst, f, fsts[DIRECTOR].adbc, r)
      ensures r.Some? ==> e == SlotAt(Content(vol, Key(DIRECTOR, 0, r.value.0)), r.value.1)
    {
      ghost var v := vol;
      assert HasFile(v, g, origin, fsts, recs, DIRECTOR);
      TreeBlocks(v, g, origin, DIRECTOR, fsts[DIRECTOR]);
      for blk := 0 to fsts[DIRECTOR].adbc
        invariant VOk() && SameView(v, vol) && NoneBefore(v, nfst, f, blk, 0)
      {
        ghost var w := vol;
        assert Key(DIRECTOR, 0, blk) in v.bm;
        var buf := ReadFileBlk(Key(DIRECTOR, 0, blk));
        var m := ScanEntries(buf, nfst, f);
        SameSlots(v, vol, nfst, f, blk, m);
        if m < nfst { return Some((blk, m)), SlotAt(buf, m); }
      }
      SameSlots(v, vol, nfst, f, fsts[DIRECTOR].adbc, 0);
      return None, [];
    }

    /** Store a file's status in its entry, number `i`. */
    method UpdateDirectory(f: FileId, fst: Fst, ghost i: nat)
      requires Filed() && DirShape(vol, g, nfst, dop, fsts, recs)
      requires f in fsts && fsts[f] == fst && Names(recs[DIRECTOR], i, f) && DirOk(recs[DIRECTOR], fsts - {f})
      modifies this`vol, this`recs
      ensures Valid() && vol.disk == old(vol.disk)
      ensures recs == old(recs)[DIRECTOR := old(recs)[DIRECTOR][i := PutFst(old(recs)[DIRECTOR][i], fst)]]
    {
      ghost var v := vol;
      var at, _ := ScanDirectory(f);
      ghost var w := vol;
      EntryFound(v, w, g, origin, nfst, dop, fsts, recs, i, f, at);
      DirectoryUpdated(v, w, g, origin, nfst, dop, fsts, recs, i, f);
      PutEntry(at.value.0, at.value.1, fst, i);
    }

    /** Overwrite entry `m` of directory block `blk`, which is record `i`. */
    method PutEntry(blk: nat, m: nat, fst: Fst, ghost i: nat)
      requires Filed() && DIRECTOR in fsts && DIRECTOR in recs && fsts[DIRECTOR].lrecl == ENTRY
      requires IsEntry(recs[DIRECTOR], i)
      requires DirectoryOk(vol, g, nfst, dop, fsts,
        recs[DIRECTOR := recs[DIRECTOR][i := PutFst(recs[DIRECTOR][i], fst)]])
      requires blk < fsts[DIRECTOR].adbc && m < nfst
      requires SlotAt(Content(vol, Key(DIRECTOR, 0, blk)), m) == recs[DIRECTOR][i]
      requires i * ENTRY == blk * g.Size() + ENTRY * m
      modifies this`vol, this`recs
      ensures Valid() && vol.disk == old(vol.disk)
      ensures recs == old(recs)[DIRECTOR := old(recs)[DIRECTOR][i := PutFst(old(recs)[DIRECTOR][i], fst)]]
    {
      ghost var w := vol;
      assert HasFile(w, g, origin, fsts, recs, DIRECTOR);
      TreeBlocks(w, g, origin, DIRECTOR, fsts[DIRECTOR]);
      assert Key(DIRECTOR, 0, blk) in w.bm;
      var e := SlotAt(Content(vol, Key(DIRECTOR, 0, blk)), m);
      StoreBytes(DIRECTOR, blk, ENTRY * m, PutFst(e, fst), fsts[DIRECTOR].adbc, i * ENTRY);
      EntryStored(w, vol, g, origin, fsts, recs, i, PutFst(e, fst));
      recs := recs[DIRECTOR := recs[DIRECTOR][i := PutFst(e, fst)]];
    }

    /** Add a file to the directory. False: the directory needed a block, and the volume is full. */
    method CreateFile(f: FileId, lrecl: nat) returns (ok: bool)
      requires Valid() && !Listed(recs[DIRECTOR], f) && NameSized(f) && 1 <= lrecl <= g.Size()
      modifies this
      ensures vol.disk == old(vol.disk)
      ensures !ok ==> Full(vol, g)
      ensures ok ==> Valid() && f != DIRECTOR && f != ALLOCMAP && f !in old(fsts)
      ensures ok ==> fsts == old(fsts)[f := Fst(0, 0, 0, 0, lrecl)][DIRECTOR := fsts[DIRECTOR]]
      ensures ok ==> recs == old(recs)[f := []][DIRECTOR := recs[DIRECTOR]]
    {
      ok := EnterFile(f, Fst(0, 0, 0, 0, lrecl));
      if ok { UpdateDirectory(DIRECTOR, fsts[DIRECTOR], 0); }
    }

    /** Append a new file's entry to the directory. */
    method EnterFile(f: FileId, fst: Fst) returns (ok: bool)
      requires Valid() && !Listed(recs[DIRECTOR], f) && NameSized(f)
      requires 1 <= fst.lrecl <= g.Size() && fst.adbc == 0 && fst.aic == 0
      modifies this
      ensures vol.disk == old(vol.disk)
      ensures !ok ==> Full(vol, g)
      ensures ok ==> Filed() && DirShape(vol, g, nfst, dop, fsts, recs) && DirOk(recs[DIRECTOR], fsts - {DIRECTOR})
      ensures ok ==>
        f != DIRECTOR && f != ALLOCMAP && f !in old(fsts) && fsts == old(fsts)[DIRECTOR := fsts[DIRECTOR]][f := fst]
      ensures ok ==> recs == old(recs)[DIRECTOR := recs[DIRECTOR]][f := []]
    {
      var e := NewEntry(f, fst);
      ok := AppendData(DIRECTOR, e);
      if !ok { return; }
      FileEntered(old(vol), vol, g, origin, nfst, dop, old(fsts), old(recs), fsts, recs, e, f, fst);
      fsts, recs := fsts[f := fst], recs[f := []];
    }

    /** Append a record and note the file's new status in the directory. False: the volume is full,
        and the disk is as it was. */
    method AppendRecord(f: FileId, rec: Bytes) returns (ok: bool)
      requires Valid() && f in fsts && f != DIRECTOR && |rec| == fsts[f].lrecl
      modifies this
      ensures vol.disk == old(vol.disk)
      ensures !ok ==> Full(vol, g)
      ensures ok ==> Valid() && recs == old(recs)[f := old(recs[f]) + [rec]][DIRECTOR := recs[DIRECTOR]]
      ensures ok ==> f in fsts && fsts == old(fsts)[f := fsts[f]] && fsts[f].lrecl == old(fsts[f].lrecl)
    {
      assert Listed(recs[DIRECTOR], f);
      ghost var i :| Names(recs[DIRECTOR], i, f);
      ok := AppendData(f, rec);
      if !ok { return; }
      DirOkLess(recs[DIRECTOR], old(fsts), fsts - {f});
      ShapeKept(old(vol), vol, g, origin, nfst, dop, old(fsts), fsts, old(recs), recs);
      UpdateDirectory(f, fsts[f], i);
    }

    /** Put a record behind the others: into the room left in the last block, a new block, or split
        over both. */
    method AppendData(f: FileId, rec: Bytes) returns (ok: bool)
      requires Filed() && f in fsts && |rec| == fsts[f].lrecl
      modifies this
      ensures vol.disk == old(vol.disk)
      ensures !ok ==> Full(vol, g)
      ensures ok ==> Filed() && LbasKept(old(vol), vol) && recs == old(recs)[f := old(recs[f]) + [rec]]
      ensures ok ==>
        f in fsts && fsts == old(fsts)[f := fsts[f]] && fsts[f].lrecl == old(fsts[f].lrecl) && fsts[f].adbc > 0
    {
      ghost var v := vol;
      var fst := fsts[f];
      assert HasFile(v, g, origin, fsts, recs, f);
      var foff := fst.aic * fst.lrecl;
      var rem := fst.adbc * g.Size() - foff;
      var grown := fst;
      if rem < fst.lrecl {
        var r := AppendBlock(f, fst);
        if r.None? { return false; }
        grown := r.value;
      }
      ghost var w := vol;
      PutRecord(f, rec, foff, rem, fst, grown);
      RecordAdded(v, w, vol, g, origin, fsts, recs, f, grown, rec);
      fsts := fsts[f := grown.(aic := grown.aic + 1)];
      recs := recs[f := recs[f] + [rec]];
      return true;
    }

    /** Copy a record to offset `foff` of the file's data; `rem` bytes were free before it grew. */
    method PutRecord(f: FileId, rec: Bytes, foff: nat, rem: int, ghost was: Fst, fst: Fst)
      requires VOk() && f != ALLOCMAP && Tree(vol, g, origin, f, fst) && 1 <= |rec| <= g.Size()
      requires was.adbc == CeilDiv(foff, g.Size()) && rem == was.adbc * g.Size() - foff
      requires fst.adbc == if rem < |rec| then was.adbc + 1 else was.adbc
      modifies this`vol
      ensures VOk() && Retouched(old(vol), vol, f) && BlocksSized(vol, g.Size(), f, fst.adbc)
      ensures foff + |rec| <= |DataBytes(old(vol), f, fst.adbc)|
      ensures DataBytes(vol, f, fst.adbc) == Splice(DataBytes(old(vol), f, fst.adbc), foff, rec)
    {
      ghost var w := vol;
      TreeBlocks(w, g, origin, f, fst);
      RecordPlace(foff, g.Size(), |rec|, rem, fst.adbc);
      var blk := Div(foff, g.Size());
      var off := Mod(foff, g.Size());
      if rem == 0 || rem >= |rec| {
        StoreBytes(f, blk, off, rec, fst.adbc, foff);
      } else {
        StoreBytes(f, blk, off, rec[..rem], fst.adbc, foff);
        ghost var x := vol;
        assert Key(f, 0, blk + 1) in w.bm;
        StoreBytes(f, blk + 1, 0, rec[rem..], fst.adbc, foff + rem);
        RetouchedTrans(w, x, vol, f);
        SpliceTwice(DataBytes(w, f, fst.adbc), foff, rec, rem);
      }
    }

    /** Write inside one data block's buffer. */
    method StoreBytes(f: FileId, blk: nat, off: nat, t: Bytes, ghost n: nat, ghost at: nat)
      requires VOk() && f != ALLOCMAP && Key(f, 0, blk) in vol.bm
      requires BlocksSized(vol, g.Size(), f, n) && blk < n && off + |t| <= g.Size()
      requires at == blk * g.Size() + off
      modifies this`vol
      ensures VOk() && Retouched(old(vol), vol, f) && BlocksSized(vol, g.Size(), f, n)
      ensures at + |t| <= |DataBytes(old(vol), f, n)|
      ensures DataBytes(vol, f, n) == Splice(DataBytes(old(vol), f, n), at, t)
    {
      ghost var v := vol;
      var k := Key(f, 0, blk);
      var buf := ReadFileBlk(k);
      buf := Splice(buf, off, t);
      StoreKeeps(vol, g, origin, k, buf);
      vol := Store(vol, k, buf);
      StoredData(v, vol, g, f, n, blk, off, t, at);
    }

    /** Write every dirty buffer to its block. */
    method WritebackBuffers()
      requires Valid()
      modifies this`vol
      ensures Valid() && Synced(vol) && vol.bm == old(vol.bm)
      ensures forall lba {:trigger DiskAt(vol.disk, lba)} :: MappedOnlyIn(vol, {}, lba) ==>
        DiskAt(vol.disk, lba) == DiskAt(old(vol.disk), lba)
      ensures forall k :: Content(vol, k) == Content(old(vol), k)
    {
      ghost var v := vol;
      var disk: Disk := vol.disk;
      var todo := vol.bm.Keys;
      while todo != {}
        invariant todo <= v.bm.Keys && vol == v && WrittenBut(v, disk, todo)
      {
        var k :| k in todo;
        ghost var d: Disk := disk;
        assert EntryOk(v, g, k);
        if vol.bm[k].dirty {
          disk := disk[vol.bm[k].lba := vol.bm[k].buf.value];
        }
        WriteOne(v, g, d, disk, todo, k);
        todo := todo - {k};
      }
      vol := vol.(disk := disk);
      OnlyMapped(v, vol);
      WrittenView(v, vol, g);
      WrittenOk(v, vol, g, origin, fsts, recs);
    }

    method ReadFileBlk(k: Key) returns (buf: Bytes)
      requires VOk() && k in vol.bm
      modifies this`vol
      ensures VOk() && SameView(old(vol), vol)
      ensures vol == Load(old(vol), k) && buf == Content(old(vol), k) && |buf| == g.Size()
    {
      LoadKeeps(vol, g, origin, k);
      ContentSized(vol, g, k);
      buf := Content(vol, k);
      if vol.bm[k].buf.None? {
        vol := Load(vol, k);
      } else {
      }
    }

    method ClaimBit(lba: nat, buf: Bytes)
      requires VOk() && InRange(g, lba) && AmapKey(g, lba) in vol.bm && !Used(vol, g, lba)
      requires buf == Content(vol, AmapKey(g, lba)) && AmapByte(g, lba) < |buf|
      modifies this`vol
      ensures VOk() && Claimed(old(vol), vol, g, lba)
    {
      ClaimKeeps(vol, g, origin, lba);
      ClaimedView(vol, Claim(vol, g, lba), g, lba);
      var i := AmapByte(g, lba);
      vol := Store(vol, AmapKey(g, lba), buf[i := WithBit(buf[i], (lba - 1) % 8, true)]);
    }

    /** Scan one block of the allocation map; claim its first clear bit. */
    method TryMapBlock(blk: nat) returns (r: Option<nat>)
      requires VOk() && blk < g.amapBlocks && UsedBelow(vol, g, LbaOf(g, blk, 0, 0))
      modifies this`vol
      ensures VOk()
      ensures r.Some? ==> Claimed(old(vol), vol, g, r.value) && UsedBelow(old(vol), g, r.value)
      ensures r.None? ==> SameView(old(vol), vol) && UsedBelow(old(vol), g, LbaOf(g, blk + 1, 0, 0))
    {
      ghost var v := vol;
      assert Key(ALLOCMAP, 0, blk) in vol.bm;
      var buf := ReadFileBlk(Key(ALLOCMAP, 0, blk));
      var i, bit := ScanBlock(buf);
      ScannedUsed(v, g, blk, i, bit);
      if i == |buf| {
        return None;
      }
      var lba := LbaOf(g, blk, i, bit);
      ghost var w := vol;
      CanClaim(w, g, blk, i, bit);
      ClaimBit(lba, buf);
      ClaimedTrans(v, w, vol, g, lba);
      return Some(lba);
    }

    /** Scan the allocation map for its first clear bit, set it, and return its block number: the byte
        grows by the bit's weight, and the bits of all lower blocks were set. */
    method GetFreeBlock() returns (r: Option<nat>)
      requires VOk()
      modifies this`vol
      ensures VOk()
      ensures r.Some? ==> Claimed(old(vol), vol, g, r.value) && BitsSetBelow(old(vol), g, r.value)
      ensures r.Some? ==> MapByte(old(vol), g, r.value) / Pow2(7 - (r.value - 1) % 8) % 2 == 0
      ensures r.Some? ==> MapByte(vol, g, r.value) == MapByte(old(vol), g, r.value) + Pow2(7 - (r.value - 1) % 8)
      ensures r.None? ==> SameView(old(vol), vol) && Full(vol, g)
    {
      ghost var v := vol;
      for blk := 0 to g.amapBlocks
        invariant VOk() && SameView(v, vol) && UsedBelow(v, g, LbaOf(g, blk, 0, 0))
      {
        ghost var w := vol;
        SameViewUsed(v, w, g);
        r := TryMapBlock(blk);
        if r.Some? {
          FreeFound(v, w, vol, g, r.value);
          return;
        }
      }
      SameViewUsed(v, vol, g);
      return None;
    }

    /** Claim a free block and map it as block `k` of its file; above level 0, point its first
        slot to `prev`. None: the volume is full. */
    method AddBlock(k: Key, prev: nat) returns (r: Option<nat>)
      requires VOk() && k !in vol.bm && k.file != ALLOCMAP && prev < WORD_LIMIT
      modifies this`vol
      ensures VOk() && vol.disk == old(vol.disk)
      ensures r.None? ==> Full(vol, g)
      ensures r.Some? ==> InRange(g, r.value) && k in vol.bm
      ensures r.Some? ==> Added(old(vol), vol, g, origin, k, r.value, prev)
      ensures r.Some? && prev == 0 && k.level == 0 ==> Content(vol, k) == DiskAt(origin, r.value)
    {
      ghost var v := vol;
      r := GetFreeBlock();
      if r.Some? {
        FreshBlock(v, vol, g, origin, k, r.value);
        AddKeeps(vol, g, origin, k, r.value);
        ghost var w := vol;
        vol := Add(vol, k, r.value);
        ContentSized(vol, g, k);
        if k.level > 0 {
          PutPointer(k, 0, prev);
        }
        AddedFrom(v, w, vol, g, origin, k, r.value, prev);
      }
    }

    /** Store a pointer in a pointer block's buffer; slot -1 is before the buffer and changes nothing in it. */
    method PutPointer(k: Key, slot: int, ptr: nat)
      requires VOk() && k in vol.bm && k.file != ALLOCMAP && slot < g.ptrs && ptr < WORD_LIMIT
      modifies this`vol
      ensures |Content(old(vol), k)| == g.Size()
      ensures VOk() && vol == Store(old(vol), k, PutPtr(g, Content(old(vol), k), slot, ptr))
    {
      var buf := ReadFileBlk(k);
      buf := PutPtr(g, buf, slot, ptr);
      StoreKeeps(vol, g, origin, k, buf);
      vol := Store(vol, k, buf);
    }

    method FileBlocksAtLevel(adbc: nat, level: nat) returns (blks: nat)
      requires g.ptrs > 0
      ensures blks == BlocksAt(adbc, g.ptrs, level)
    {
      var size := 1;
      for i := 0 to level
        invariant size == Pow(g.ptrs, i)
      {
        size := size * g.ptrs;
      }
      BlocksAtClosedForm(adbc, g.ptrs, level);
      CeilIs(adbc, size);
      blks := (adbc + size - 1) / size;
    }

    /** Add a data block to a file, growing its pointer tree. None: the volume is full. */
    method AppendBlock(f: FileId, fst: Fst) returns (r: Option<Fst>)
      requires VOk() && f != ALLOCMAP && Tree(vol, g, origin, f, fst)
      modifies this`vol
      ensures VOk() && vol.disk == old(vol.disk)
      ensures r.None? ==> Full(vol, g)
      ensures r.Some? ==> Appended(old(vol), vol, g, origin, f, fst, r.value)
    {
      if fst.adbc == 0 {
        ghost var v := vol;
        var lba := AddBlock(Key(f, 0, 0), 0);
        if lba.None? { return None; }
        return Some(fst.(adbc := 1, nlvl := 0, fop := lba.value));
      }
      r := AppendNext(f, fst);
    }

    method AppendNext(f: FileId, fst: Fst) returns (r: Option<Fst>)
      requires VOk() && f != ALLOCMAP && Tree(vol, g, origin, f, fst) && fst.adbc > 0
      modifies this`vol
      ensures VOk() && vol.disk == old(vol.disk)
      ensures r.None? ==> Full(vol, g)
      ensures r.Some? ==> Appended(old(vol), vol, g, origin, f, fst, r.value)
    {
      ghost var v := vol;
      var prev: nat, lvl: nat := 0, 0;
      ContentSized(v, g, Key(f, fst.nlvl, 0));
      GrowStart(v, g, origin, f, fst.adbc, prev);
      while lvl <= fst.nlvl
        invariant VOk() && vol.disk == v.disk && prev < WORD_LIMIT && lvl <= fst.nlvl + 1
        invariant Growing(v, vol, g, origin, f, fst.adbc, lvl, prev)
      {
        var blks := FileBlocksAtLevel(fst.adbc + 1, lvl);
        LastBlock(v, vol, g, f, fst.adbc, fst.nlvl, lvl);
        var k := Key(f, lvl, blks - 1);
        if k in vol.bm {
          PointTo(k, prev, v, fst);
          return Some(fst.(adbc := fst.adbc + 1));
        }
        var lba := GrowLevel(k, prev, v, fst);
        if lba.None? { return None; }
        lvl, prev := lvl + 1, lba.value;
      }
      var top := AddTop(f, prev, v, fst);
      if top.None? { return None; }
      return Some(fst.(adbc := fst.adbc + 1, nlvl := fst.nlvl + 1, fop := top.value));
    }

    /** The level of block `k` grows by that block. */
    method GrowLevel(k: Key, prev: nat, ghost v: Vol, fst: Fst) returns (r: Option<nat>)
      requires VOk() && prev < WORD_LIMIT && k.file != ALLOCMAP && v.disk == vol.disk
      requires Growing(v, vol, g, origin, k.file, fst.adbc, k.level, prev) && k !in vol.bm
      requires k == NewKey(g, k.file, fst.adbc, k.level) && Grew(fst.adbc, g.ptrs, k.level)
      modifies this`vol
      ensures VOk() && vol.disk == old(vol.disk)
      ensures r.None? ==> Full(vol, g)
      ensures r.Some? ==> r.value < WORD_LIMIT && Growing(v, vol, g, origin, k.file, fst.adbc, k.level + 1, r.value)
    {
      ghost var w := vol;
      r := AddBlock(k, prev);
      if r.Some? {
        GrowStep(v, w, vol, g, origin, k.file, fst.adbc, k.level, prev, r.value);
      }
    }

    /** The level of block `k` need not grow: its last block takes the pointer. */
    method PointTo(k: Key, prev: nat, ghost v: Vol, fst: Fst)
      requires VOk() && prev < WORD_LIMIT && fst.adbc > 0 && k.file != ALLOCMAP && 1 <= k.level <= fst.nlvl
      requires Tree(v, g, origin, k.file, fst) && v.disk == vol.disk
      requires Growing(v, vol, g, origin, k.file, fst.adbc, k.level, prev) && k in v.bm
      requires BlocksAt(fst.adbc + 1, g.ptrs, k.level) == BlocksAt(fst.adbc, g.ptrs, k.level) == k.blk + 1
      modifies this`vol
      ensures VOk() && vol.disk == old(vol.disk)
      ensures Tree(vol, g, origin, k.file, fst.(adbc := fst.adbc + 1)) && Extends(v, vol, k.file)
    {
      ghost var w := vol;
      var x := FileBlocksAtLevel(fst.adbc + 1, k.level - 1);
      BlocksAtPositive(fst.adbc + 1, g.ptrs, k.level - 1);
      var slot := Slot(g, x);
      assert k in vol.bm;
      ContentSized(vol, g, k);
      PointedByStore(w, g, k, slot, prev);
      PutPointer(k, slot, prev);
      FoundTree(v, w, vol, g, origin, k.file, fst, prev, k, slot);
    }

    /** Every level grew: a new top block points to the old top and to the new block below it. */
    method AddTop(f: FileId, prev: nat, ghost v: Vol, fst: Fst) returns (r: Option<nat>)
      requires VOk() && prev < WORD_LIMIT && fst.adbc > 0 && f != ALLOCMAP && fst.fop < WORD_LIMIT
      requires Tree(v, g, origin, f, fst) && v.disk == vol.disk
      requires Growing(v, vol, g, origin, f, fst.adbc, fst.nlvl + 1, prev)
      modifies this`vol
      ensures VOk() && vol.disk == old(vol.disk)
      ensures r.None? ==> Full(vol, g)
      ensures r.Some? ==> Extends(v, vol, f)
      ensures r.Some? ==> Tree(vol, g, origin, f, fst.(adbc := fst.adbc + 1, nlvl := fst.nlvl + 1, fop := r.value))
    {
      ghost var w := vol;
      var t := Key(f, fst.nlvl + 1, 0);
      assert t !in vol.bm;
      r := AddBlock(t, fst.fop);
      if r.Some? {
        ghost var y := vol;
        ContentSized(vol, g, t);
        PointedByStore(y, g, t, 1, prev);
        PutPointer(t, 1, prev);
        ToppedFrom(w, y, vol, g, origin, t, r.value, fst.fop, prev);
        TopTree(v, w, vol, g, origin, f, fst, prev, r.value);
      }
    }
  }

  /** What was found in the blocks seen so far stays true when more of them are loaded. */
  lemma SameSlots(v: Vol, w: Vol, nfst: nat, f: FileId, b: nat, m: nat)
    requires SameView(v, w) && NoneBefore(v, nfst, f, b, 0) && m <= nfst
    requires forall j: nat :: j < m ==> !SlotNamed(Content(w, Key(DIRECTOR, 0, b)), j, f)
    ensures NoneBefore(w, nfst, f, b, m) && (m == nfst ==> NoneBefore(v, nfst, f, b + 1, 0))
  {
    assert forall k: Key :: Content(w, k) == Content(v, k);
    forall c: nat, j: nat | (c < b && j < nfst) || (c == b && j < m)
      ensures !VolSlot(w, c, j, f) && !VolSlot(v, c, j, f) {
      if c < b { assert !VolSlot(v, c, j, f); } else { assert !SlotNamed(Content(w, Key(DIRECTOR, 0, b)), j, f); }
    }
  }

  lemma EmptyFile(v: Vol, g: Geo, origin: Disk, fsts: Fsts, recs: Recs, f: FileId, fst: Fst)
    requires VolOk(v, g, origin) && FilesOk(v, g, origin, fsts, recs) && f !in fsts && f != ALLOCMAP
    requires fst.adbc == 0 && fst.aic == 0 && 1 <= fst.lrecl <= g.Size()
    ensures FilesOk(v, g, origin, fsts[f := fst], recs[f := []])
  {
    CeilIs(0, g.Size());
    FilesAfter(v, v, g, origin, fsts, recs, f, fst, []);
  }

  /** A new file's entry is in the directory; the directory's own is not yet up to date. */
  lemma FileEntered(v: Vol, w: Vol, g: Geo, origin: Disk, nfst: nat, dop: nat, a: Fsts, r: Recs, b: Fsts, s: Recs,
      e: Bytes, f: FileId, fst: Fst)
    requires VolOk(w, g, origin) && FilesOk(v, g, origin, a, r) && FilesOk(w, g, origin, b, s) && LbasKept(v, w)
    requires DirectoryOk(v, g, nfst, dop, a, r) && EntryFor(e, f, fst) && !Listed(r[DIRECTOR], f)
    requires DIRECTOR in b && b == a[DIRECTOR := b[DIRECTOR]] && b[DIRECTOR].lrecl == ENTRY && b[DIRECTOR].adbc > 0
    requires s == r[DIRECTOR := r[DIRECTOR] + [e]] && 1 <= fst.lrecl <= g.Size() && fst.adbc == 0 && fst.aic == 0
    ensures f !in a && f != DIRECTOR && f != ALLOCMAP
    ensures b[f := fst] == a[DIRECTOR := b[f := fst][DIRECTOR]][f := fst]
    ensures s[f := []] == r[DIRECTOR := s[f := []][DIRECTOR]][f := []]
    ensures FilesOk(w, g, origin, b[f := fst], s[f := []]) && DirShape(w, g, nfst, dop, b[f := fst], s[f := []])
    ensures DirOk(s[DIRECTOR], b[f := fst] - {DIRECTOR})
  {
    EntryAdded(r[DIRECTOR], a, e, f, fst);
    EmptyFile(w, g, origin, b, s, f, fst);
    DirOkLess(s[DIRECTOR], a[f := fst], b[f := fst] - {DIRECTOR});
    ShapeKept(v, w, g, origin, nfst, dop, a, b[f := fst], r, s[f := []]);
  }

  lemma RecordAdded(v: Vol, w: Vol, x: Vol, g: Geo, origin: Disk, fsts: Fsts, recs: Recs, f: FileId, b: Fst, rec: Bytes)
    requires FilesOk(v, g, origin, fsts, recs) && f in fsts && f in recs && |rec| == fsts[f].lrecl
    requires g.ptrs > 0 && Tree(w, g, origin, f, b) && Extends(v, w, f) && Retouched(w, x, f)
    requires b.aic == fsts[f].aic && b.lrecl == fsts[f].lrecl
    requires b.adbc ==
      if fsts[f].adbc * g.Size() - fsts[f].aic * fsts[f].lrecl < fsts[f].lrecl then fsts[f].adbc + 1 else fsts[f].adbc
    requires BlocksSized(x, g.Size(), f, b.adbc) && fsts[f].aic * fsts[f].lrecl + |rec| <= |DataBytes(w, f, b.adbc)|
    requires DataBytes(x, f, b.adbc) == Splice(DataBytes(w, f, b.adbc), fsts[f].aic * fsts[f].lrecl, rec)
    ensures FilesOk(x, g, origin, fsts[f := b.(aic := b.aic + 1)], recs[f := recs[f] + [rec]]) && LbasKept(v, x)
  {
    assert HasFile(v, g, origin, fsts, recs, f);
    FileAfter(v, w, x, g, origin, f, fsts[f], b, recs[f], rec);
    FilesAfter(v, x, g, origin, fsts, recs, f, b.(aic := b.aic + 1), recs[f] + [rec]);
  }

  /** Where the scan finds a listed file's entry. */
  lemma EntryFound(v: Vol, w: Vol, g: Geo, origin: Disk, nfst: nat, dop: nat, fsts: Fsts, recs: Recs, i: nat,
      f: FileId, at: Option<(nat, nat)>)
    requires FilesOk(v, g, origin, fsts, recs) && DirShape(v, g, nfst, dop, fsts, recs) && SameView(v, w)
    requires VolOk(w, g, origin)
    requires Names(recs[DIRECTOR], i, f) && DirOk(recs[DIRECTOR], fsts - {f})
    requires FirstNamed(w, nfst, f, fsts[DIRECTOR].adbc, at)
    ensures FilesOk(w, g, origin, fsts, recs)
    ensures at.Some? && at.value.0 < fsts[DIRECTOR].adbc && at.value.1 < nfst && Key(DIRECTOR, 0, at.value.0) in w.bm
    ensures SlotAt(Content(w, Key(DIRECTOR, 0, at.value.0)), at.value.1) == recs[DIRECTOR][i]
    ensures i * ENTRY == at.value.0 * g.Size() + ENTRY * at.value.1
    ensures BlocksSized(w, g.Size(), DIRECTOR, fsts[DIRECTOR].adbc)
  {
    var dir, rs := fsts[DIRECTOR], recs[DIRECTOR];
    SameFiles(v, w, g, origin, fsts, recs);
    assert HasFile(w, g, origin, fsts, recs, DIRECTOR);
    FirstSlot(w, g, dir, rs, fsts - {f}, nfst, f, i, at);
    SlotIsRecord(w, g, dir, rs, nfst, i);
    PlaceOfRecord(i, nfst);
    TreeBlocks(w, g, origin, DIRECTOR, dir);
    assert Key(DIRECTOR, 0, at.value.0) in w.bm;
  }

  /** What a scan for a name tells. */
  lemma FileScanned(v: Vol, w: Vol, g: Geo, origin: Disk, nfst: nat, dop: nat, fsts: Fsts, recs: Recs, f: FileId,
      at: Option<(nat, nat)>)
    requires FilesOk(v, g, origin, fsts, recs) && DirectoryOk(v, g, nfst, dop, fsts, recs) && SameView(v, w)
    requires VolOk(w, g, origin)
    requires FirstNamed(w, nfst, f, fsts[DIRECTOR].adbc, at)
    ensures FilesOk(w, g, origin, fsts, recs) && DirectoryOk(w, g, nfst, dop, fsts, recs)
    ensures at.None? ==> !Listed(recs[DIRECTOR], f)
    ensures f in fsts ==>
      at.Some? && GetFst(SlotAt(Content(w, Key(DIRECTOR, 0, at.value.0)), at.value.1)) == Truncated(fsts[f])
  {
    var rs := recs[DIRECTOR];
    SameFiles(v, w, g, origin, fsts, recs);
    ShapeKept(v, w, g, origin, nfst, dop, fsts, fsts, recs, recs);
    assert f in fsts ==> Listed(rs, f);
    if Listed(rs, f) {
      var i :| Names(rs, i, f);
      DirOkLess(rs, fsts, fsts - {f});
      EntryFound(v, w, g, origin, nfst, dop, fsts, recs, i, f, at);
      assert UpToDate(rs, i, fsts);
    }
  }

  lemma DirectoryUpdated(v: Vol, x: Vol, g: Geo, origin: Disk, nfst: nat, dop: nat, fsts: Fsts, recs: Recs, i: nat,
      f: FileId)
    requires FilesOk(v, g, origin, fsts, recs) && DirShape(v, g, nfst, dop, fsts, recs) && LbasKept(v, x)
    requires f in fsts && Names(recs[DIRECTOR], i, f) && DirOk(recs[DIRECTOR], fsts - {f})
    ensures DirectoryOk(x, g, nfst, dop, fsts,
      recs[DIRECTOR := recs[DIRECTOR][i := PutFst(recs[DIRECTOR][i], fsts[f])]])
  {
    var rs := recs[DIRECTOR];
    EntryUpdated(rs, fsts, i, f, fsts[f]);
    assert fsts[f := fsts[f]] == fsts;
    ShapeKept(v, x, g, origin, nfst, dop, fsts, fsts, recs, recs[DIRECTOR := rs[i := PutFst(rs[i], fsts[f])]]);
  }

  // ---- Mounting ----

  /** The first `n` entries of a directory block. */
  function Entries(c: Bytes, n: nat): (rs: seq<Bytes>)
    ensures |rs| == n
  {
    seq(n, i requires i >= 0 => SlotAt(c, i))
  }

  /** A volume with a directory of one block and an allocation map: both mark their blocks as used,
      and the directory lists itself first, then the allocation map, and no name twice. */
  ghost predicate MountOk(g: Geo, nfst: nat, disk: Disk, amap: seq<nat>, dop: nat) {
    && g.Ok() && g.Size() == ENTRY * nfst && nfst >= 2 && DiskOk(disk, g) && |amap| == g.amapBlocks && InRange(g, dop)
    && (forall i :: 0 <= i < |amap| ==>
      amap[i] != dop && InRange(g, amap[i]) && Used(Mounted(disk, amap, dop), g, amap[i]))
    && (forall i, j :: 0 <= i < j < |amap| ==> amap[i] != amap[j])
    && Used(Mounted(disk, amap, dop), g, dop)
    && DirBlockOk(DiskAt(disk, dop), nfst, dop)
  }

  ghost predicate DirBlockOk(c: Bytes, nfst: nat, dop: nat) {
    && |c| == ENTRY * nfst && SlotNamed(c, 0, DIRECTOR) && SlotAt(c, 0)[30] == FIXED
    && SlotNamed(c, 1, ALLOCMAP) && SlotAt(c, 1)[30] == FIXED
    && var fst := GetFst(SlotAt(c, 0));
    && fst == Fst(dop, 1, fst.aic, 0, ENTRY) && 2 <= fst.aic <= nfst
    && forall i, j, f :: Names(Entries(c, fst.aic), i, f) && Names(Entries(c, fst.aic), j, f) ==> i == j
  }

  function Mounted(disk: Disk, amap: seq<nat>, dop: nat): Vol {
    var bm := map i | 0 <= i < |amap| :: Key(ALLOCMAP, 0, i) := Entry(amap[i], None, false);
    Vol(bm[Key(DIRECTOR, 0, 0) := Entry(dop, None, false)], disk)
  }

  lemma MountedPlaces(disk: Disk, amap: seq<nat>, dop: nat, k: Key, lba: nat)
    requires MappedAt(Mounted(disk, amap, dop), k, lba)
    ensures if k == Key(DIRECTOR, 0, 0) then lba == dop
      else k.blk < |amap| && k == Key(ALLOCMAP, 0, k.blk) && lba == amap[k.blk]
  {
  }

  lemma MountedUsed(g: Geo, nfst: nat, disk: Disk, amap: seq<nat>, dop: nat)
    requires MountOk(g, nfst, disk, amap, dop)
    ensures var v := Mounted(disk, amap, dop); AllUsed(v, g) && EntriesOk(v, g)
  {
    var v := Mounted(disk, amap, dop);
    forall k, lba | MappedAt(v, k, lba) ensures Used(v, g, lba) && InRange(g, lba) {
      MountedPlaces(disk, amap, dop, k, lba);
    }
    forall k | k in v.bm ensures EntryOk(v, g, k) { assert MappedAt(v, k, v.bm[k].lba); }
  }

  lemma MountedApart(g: Geo, nfst: nat, disk: Disk, amap: seq<nat>, dop: nat)
    requires MountOk(g, nfst, disk, amap, dop)
    ensures NoAlias(Mounted(disk, amap, dop))
  {
    var v := Mounted(disk, amap, dop);
    forall k, k', lba | MappedAt(v, k, lba) && MappedAt(v, k', lba) ensures k == k' {
      MountedPlaces(disk, amap, dop, k, lba);
      MountedPlaces(disk, amap, dop, k', lba);
    }
  }

  lemma {:induction false} EntriesAre(c: Bytes, nfst: nat, n: nat)
    requires |c| == ENTRY * nfst && n <= nfst
    ensures (forall i :: 0 <= i < n ==> |Entries(c, n)[i]| == ENTRY) && Concat(Entries(c, n)) == c[..ENTRY * n]
  {
    if n > 0 {
      EntriesAre(c, nfst, n - 1);
      assert Entries(c, n)[..n - 1] == Entries(c, n - 1);
      assert c[..ENTRY * n] == c[..ENTRY * (n - 1)] + SlotAt(c, n - 1);
    }
  }

  lemma MountedDirectory(v: Vol, g: Geo, origin: Disk, nfst: nat, dop: nat, c: Bytes, fst: Fst)
    requires g.Ok() && g.Size() == ENTRY * nfst && DirBlockOk(c, nfst, dop) && fst == GetFst(SlotAt(c, 0))
    requires forall k: Key :: k.file == DIRECTOR ==> (k in v.bm <==> k == Key(DIRECTOR, 0, 0))
    requires LbaAt(v, Key(DIRECTOR, 0, 0)) == dop && Content(v, Key(DIRECTOR, 0, 0)) == c
    ensures FileOk(v, g, origin, DIRECTOR, fst, Entries(c, fst.aic))
  {
    EntriesAre(c, nfst, fst.aic);
    assert DataBytes(v, DIRECTOR, 0) == [];
    assert DataBytes(v, DIRECTOR, 1) == c;
    CeilUnique(fst.aic * ENTRY, g.Size(), 1);
  }

  lemma MountedOk(g: Geo, nfst: nat, disk: Disk, amap: seq<nat>, dop: nat)
    requires MountOk(g, nfst, disk, amap, dop)
    ensures var v, fst := Mounted(disk, amap, dop), GetFst(SlotAt(DiskAt(disk, dop), 0));
      var fsts, recs := map[DIRECTOR := fst], map[DIRECTOR := Entries(DiskAt(disk, dop), fst.aic)];
      VolOk(v, g, disk) && FilesOk(v, g, disk, fsts, recs) && DirectoryOk(v, g, nfst, dop, fsts, recs)
  {
    var v, c := Mounted(disk, amap, dop), DiskAt(disk, dop);
    var fst := GetFst(SlotAt(c, 0));
    var fsts: Fsts, recs: Recs := map[DIRECTOR := fst], map[DIRECTOR := Entries(c, fst.aic)];
    MountedUsed(g, nfst, disk, amap, dop);
    MountedApart(g, nfst, disk, amap, dop);
    assert FreeUntouched(v, g, disk);
    MountedDirectory(v, g, disk, nfst, dop, c, fst);
    assert HasFile(v, g, disk, fsts, recs, DIRECTOR);
    EntriesAre(c, nfst, fst.aic);
    assert FixedEntry(recs[DIRECTOR], 0, DIRECTOR) && FixedEntry(recs[DIRECTOR], 1, ALLOCMAP);
    forall i | IsEntry(recs[DIRECTOR], i) ensures UpToDate(recs[DIRECTOR], i, fsts) {
      if NameOf(recs[DIRECTOR][i]) == DIRECTOR { assert Names(recs[DIRECTOR], i, DIRECTOR); }
    }
  }

  /** A file's data blocks are mapped and full-sized. */
  lemma TreeBlocks(v: Vol, g: Geo, origin: Disk, f: FileId, fst: Fst)
    requires VolOk(v, g, origin) && Tree(v, g, origin, f, fst)
    ensures BlocksSized(v, g.Size(), f, fst.adbc)
    ensures forall b: nat {:trigger Key(f, 0, b)} :: b < fst.adbc ==> Key(f, 0, b) in v.bm
  {
    forall b: nat | b < fst.adbc ensures Key(f, 0, b) in v.bm && |Content(v, Key(f, 0, b))| == g.Size() {
      assert Key(f, 0, b).level <= fst.nlvl;
      ContentSized(v, g, Key(f, 0, b));
    }
  }

  lemma FreshBlock(v: Vol, w: Vol, g: Geo, origin: Disk, k: Key, lba: nat)
    requires VolOk(v, g, origin) && Claimed(v, w, g, lba)
    ensures forall x :: !MappedAt(w, x, lba)
    ensures DiskAt(w.disk, lba) == DiskAt(origin, lba)
  {
    forall x ensures !MappedAt(w, x, lba) { assert !MappedAt(v, x, lba); }
    assert UntouchedAt(v, origin, lba);
  }

  lemma AddedFrom(v: Vol, w: Vol, x: Vol, g: Geo, origin: Disk, k: Key, lba: nat, prev: nat)
    requires g.Ok() && Claimed(v, w, g, lba) && k !in w.bm && DiskAt(w.disk, lba) == DiskAt(origin, lba)
    requires prev < WORD_LIMIT && k in Add(w, k, lba).bm && |Content(Add(w, k, lba), k)| == g.Size()
    requires x == if k.level == 0 then Add(w, k, lba)
                  else Store(Add(w, k, lba), k, PutPtr(g, Content(Add(w, k, lba), k), 0, prev))
    ensures Added(v, x, g, origin, k, lba, prev)
    ensures k.level == 0 ==> Content(x, k) == DiskAt(origin, lba)
  {
    var y := Add(w, k, lba);
    assert Content(y, k) == DiskAt(origin, lba);
    forall i | i in v.bm && i.file != ALLOCMAP ensures Content(y, i) == Content(v, i) {
      assert Content(y, i) == Content(w, i);
    }
    if k.level > 0 {
      StoreView(y, g, k, PutPtr(g, Content(y, k), 0, prev));
      forall j: nat | j < g.ptrs ensures NewWord(x, g, origin, k, prev, j) {
        PutPtrWord(g, Content(y, k), 0, prev, j);
      }
    }
  }

  ghost predicate UsedBelow(v: Vol, g: Geo, m: nat)
    requires g.ptrs > 0
  {
    forall l: nat :: 0 < l < m ==> Used(v, g, l)
  }

  lemma SameViewUsed(v: Vol, w: Vol, g: Geo)
    requires g.ptrs > 0 && SameView(v, w)
    ensures forall l: nat :: Used(v, g, l) <==> Used(w, g, l)
  {
    assert forall k: Key :: Content(w, k) == Content(v, k);
  }

  lemma ClaimedTrans(v: Vol, w: Vol, x: Vol, g: Geo, lba: nat)
    requires g.ptrs > 0 && SameView(v, w) && Claimed(w, x, g, lba)
    ensures Claimed(v, x, g, lba)
  {
    SameViewUsed(v, w, g);
    assert forall k: Key :: Content(w, k) == Content(v, k);
  }

  lemma FreeFound(v: Vol, w: Vol, x: Vol, g: Geo, lba: nat)
    requires g.ptrs > 0 && lba > 0 && SameView(v, w) && Claimed(w, x, g, lba) && UsedBelow(w, g, lba)
    ensures Claimed(v, x, g, lba) && BitsSetBelow(v, g, lba)
    ensures MapByte(v, g, lba) / Pow2(7 - (lba - 1) % 8) % 2 == 0
    ensures MapByte(x, g, lba) == MapByte(v, g, lba) + Pow2(7 - (lba - 1) % 8)
  {
    ClaimedTrans(v, w, x, g, lba);
    SameViewUsed(v, w, g);
    BelowIs(v, g, lba);
    UsedIs(v, g, lba);
  }

  /** First clear bit of an allocation map block, in byte `i`: the byte starts with `bit` ones and a zero
      where 0x80 comes first. `i == |buf|` when there is none. */
  method ScanBlock(buf: Bytes) returns (i: nat, bit: nat)
    ensures i <= |buf| && bit < 8
    ensures forall j :: 0 <= j < i ==> buf[j] == 0xff
    ensures i < |buf| ==> !IsSet(buf[i], bit) && forall k :: 0 <= k < bit ==> IsSet(buf[i], k)
    ensures i < |buf| ==> buf[i] / Pow2(7 - bit) == Pow2(bit + 1) - 2
  {
    i, bit := 0, 0;
    while i < |buf|
      invariant i <= |buf| && bit == 0 && forall j :: 0 <= j < i ==> buf[j] == 0xff
    {
      if buf[i] != 0xff {
        bit := FirstClear(buf[i]);
        return;
      }
      i := i + 1;
    }
  }

  /** The first clear bit of a byte. */
  method FirstClear(x: byte) returns (bit: nat)
    requires x != 0xff
    ensures bit < 8 && !IsSet(x, bit) && forall k :: 0 <= k < bit ==> IsSet(x, k)
    ensures x / Pow2(7 - bit) == Pow2(bit + 1) - 2
  {
    ByteBits(x);
    FullByte(x);
    bit := if x / 0x80 % 2 == 0 then 0
      else if x / 0x40 % 2 == 0 then 1
      else if x / 0x20 % 2 == 0 then 2
      else if x / 0x10 % 2 == 0 then 3
      else if x / 0x08 % 2 == 0 then 4
      else if x / 0x04 % 2 == 0 then 5
      else if x / 0x02 % 2 == 0 then 6
      else 7;
    TopZero(x, bit);
  }

  /** The bits of a byte by their masks. */
  lemma ByteBits(x: byte)
    ensures Pow2(1) == 0x02 && Pow2(2) == 0x04 && Pow2(3) == 0x08 && Pow2(4) == 0x10
    ensures Pow2(5) == 0x20 && Pow2(6) == 0x40 && Pow2(7) == 0x80 && Pow2(8) == 0x100
    ensures (IsSet(x, 0) <==> x / 0x80 % 2 == 1) && (IsSet(x, 1) <==> x / 0x40 % 2 == 1)
    ensures (IsSet(x, 2) <==> x / 0x20 % 2 == 1) && (IsSet(x, 3) <==> x / 0x10 % 2 == 1)
    ensures (IsSet(x, 4) <==> x / 0x08 % 2 == 1) && (IsSet(x, 5) <==> x / 0x04 % 2 == 1)
    ensures (IsSet(x, 6) <==> x / 0x02 % 2 == 1) && (IsSet(x, 7) <==> x % 2 == 1)
  {
    assert Pow2(4) == 16;
    assert Pow2(8) == 256;
    BitIs(x, 0); BitIs(x, 1); BitIs(x, 2); BitIs(x, 3);
    BitIs(x, 4); BitIs(x, 5); BitIs(x, 6); BitIs(x, 7);
  }

  /** Block number of bit `bit` of byte `i` of allocation map block `blk`; blocks count from 1. */
  function LbaOf(g: Geo, blk: nat, i: nat, bit: nat): nat {
    var first: nat := blk * g.Size();
    (first + i) * 8 + bit + 1
  }

  lemma LbaPlace(g: Geo, blk: nat, i: nat, bit: nat)
    requires g.ptrs > 0 && i < g.Size() && bit < 8
    ensures var lba := LbaOf(g, blk, i, bit);
      AmapKey(g, lba) == Key(ALLOCMAP, 0, blk) && AmapByte(g, lba) == i && (lba - 1) % 8 == bit
    ensures blk < g.amapBlocks ==> InRange(g, LbaOf(g, blk, i, bit))
  {
    DivPair(blk, i, g.Size());
    MulMono(blk + 1, g.amapBlocks, g.Size());
    assert (blk + 1) * g.Size() == blk * g.Size() + g.Size();
    assert ((blk * g.Size() + i) * 8 + bit) / 8 == blk * g.Size() + i;
  }

  lemma CanClaim(v: Vol, g: Geo, blk: nat, i: nat, bit: nat)
    requires blk < g.amapBlocks && i < g.Size() && bit < 8
    requires var c := Content(v, Key(ALLOCMAP, 0, blk)); i < |c| && !IsSet(c[i], bit)
    ensures var lba := LbaOf(g, blk, i, bit);
      InRange(g, lba) && AmapKey(g, lba) == Key(ALLOCMAP, 0, blk) && AmapByte(g, lba) == i && !Used(v, g, lba)
  {
    LbaPlace(g, blk, i, bit);
  }

  /** All the bits before byte `i`, bit `bit` of map block `blk` are set. */
  lemma ScannedUsed(v: Vol, g: Geo, blk: nat, i: nat, bit: nat)
    requires g.ptrs > 0 && i <= g.Size() == |Content(v, Key(ALLOCMAP, 0, blk))| && bit < 8
    requires UsedBelow(v, g, LbaOf(g, blk, 0, 0))
    requires forall j :: 0 <= j < i ==> Content(v, Key(ALLOCMAP, 0, blk))[j] == 0xff
    requires i < g.Size() ==> forall k :: 0 <= k < bit ==> IsSet(Content(v, Key(ALLOCMAP, 0, blk))[i], k)
    ensures i < g.Size() ==> UsedBelow(v, g, LbaOf(g, blk, i, bit))
    ensures i == g.Size() ==> UsedBelow(v, g, LbaOf(g, blk + 1, 0, 0))
  {
    var s := g.Size();
    assert (blk + 1) * s == blk * s + s;
    forall l: nat | blk * s * 8 < l <= (blk * s + i) * 8 + (if i < s then bit else 0)
      ensures Used(v, g, l)
    {
      var m := l - 1 - blk * s * 8;
      LbaPlace(g, blk, m / 8, m % 8);
      assert l == LbaOf(g, blk, m / 8, m % 8);
      FullByte(Content(v, Key(ALLOCMAP, 0, blk))[m / 8]);
    }
  }

  lemma ClaimedView(v: Vol, x: Vol, g: Geo, lba: nat)
    requires g.ptrs > 0 && InRange(g, lba) && !Used(v, g, lba)
    requires AmapKey(g, lba) in v.bm && AmapByte(g, lba) < |Content(v, AmapKey(g, lba))| && x == Claim(v, g, lba)
    ensures Claimed(v, x, g, lba)
  {
    forall l: nat
      ensures Used(x, g, l) <==> l == lba || Used(v, g, l)
    {
      ClaimUsed(v, g, lba, l);
    }
    DivIs((lba - 1) / 8, g.Size());
    BitIs(Content(v, AmapKey(g, lba))[AmapByte(g, lba)], (lba - 1) % 8);
    WithBitIs(Content(v, AmapKey(g, lba))[AmapByte(g, lba)], (lba - 1) % 8, true);
  }
}
