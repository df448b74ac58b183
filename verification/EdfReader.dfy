/** The hypervisor's reader: the walk from the file origin, the block cache over it, and
    record reads (cp/fs/bcache.c, cp/fs/edf.c). */
module EdfReader {
  import opened Common
  import opened Words
  import opened Ceiling
  import opened EdfVolume
  import opened EdfTree
  import opened EdfGrow
  import opened EdfRecords
  import opened EdfFiles
  import opened EdfDirectory
  import opened EdfInstaller

  datatype Error = EINVAL | ENOMEM | EIO | ENOENT | ECORRUPT
  datatype Result<T> = Ok(value: T) | Err(error: Error)

  // ---- The walk without a cache ----

  function DevRead(d: Disk, lba: nat): Result<Bytes> {
    if lba < 1 || lba >= LBA_LIMIT then Err(EINVAL) else Ok(DiskAt(d, lba))
  }

  /** Where block `blk` of level `level` is, going by the pointers on the disk. */
  function Find(d: Disk, p: nat, fst: Fst, level: nat, blk: nat): Result<nat>
    requires p > 0 && level <= fst.nlvl
    decreases fst.nlvl - level, 0
  {
    if level == fst.nlvl then Ok(fst.fop)
    else
      match ReadBlk(d, p, fst, level + 1, Div(blk, p))
      case Err(e) => Err(e)
      case Ok(b) => Ok(Word(b, Mod(blk, p)))
  }

  function ReadBlk(d: Disk, p: nat, fst: Fst, level: nat, blk: nat): Result<Bytes>
    requires p > 0 && level <= fst.nlvl
    decreases fst.nlvl - level, 1
  {
    match Find(d, p, fst, level, blk)
    case Err(e) => Err(e)
    case Ok(lba) => DevRead(d, lba)
  }

  // ---- The cache ----

  datatype CacheEntry = CacheEntry(level: nat, blk: nat, lba: nat, data: Option<Bytes>)

  predicate Agrees(e: CacheEntry, d: Disk, p: nat, fst: Fst)
    requires p > 0
  {
    && e.level <= fst.nlvl && (e.level == fst.nlvl ==> e.blk == 0) && Find(d, p, fst, e.level, e.blk) == Ok(e.lba)
    && (e.data.Some? ==> DevRead(d, e.lba) == Ok(e.data.value))
  }

  predicate SamePlace(e: CacheEntry, h: CacheEntry) {
    e.level == h.level && e.blk == h.blk && e.lba == h.lba && (e.data.Some? ==> h.data == e.data)
  }

  /** An allocation or channel program failed. */
  predicate Failed<T>(r: Result<T>) {
    r == Err(ENOMEM) || r == Err(EIO)
  }

  class File {
    const fst: Fst
    const p: nat
    const disk: Disk
    var bcache: seq<CacheEntry>

    ghost predicate Valid()
      reads this
    {
      p > 0 && forall i :: 0 <= i < |bcache| ==> Agrees(bcache[i], disk, p, fst)
    }

    constructor (fst: Fst, p: nat, disk: Disk)
      requires p > 0
      ensures Valid() && this.fst == fst && this.p == p && this.disk == disk && bcache == []
    {
      this.fst, this.p, this.disk, bcache := fst, p, disk, [];
    }

    method Lookup(level: nat, blk: nat) returns (r: Option<nat>)
      requires Valid() && level <= fst.nlvl
      ensures r.Some? ==> r.value < |bcache| && bcache[r.value].level == level && bcache[r.value].blk == blk
      ensures r.None? ==> forall i :: 0 <= i < |bcache| ==> bcache[i].level != level || bcache[i].blk != blk
    {
      for i := 0 to |bcache|
        invariant forall j :: 0 <= j < i ==> bcache[j].level != level || bcache[j].blk != blk
      {
        if bcache[i].level == level && bcache[i].blk == blk { return Some(i); }
      }
      return None;
    }

    /** Cache entries stay where they are and never change what they say. */
    twostate predicate Grown()
      reads this
    {
      && |old(bcache)| <= |bcache|
      && forall i :: 0 <= i < |old(bcache)| ==> SamePlace(old(bcache[i]), bcache[i])
    }

    /** An entry with the block's contents. */
    ghost predicate Holds(level: nat, blk: nat)
      reads this
    {
      exists i :: 0 <= i < |bcache| && bcache[i].level == level && bcache[i].blk == blk && bcache[i].data.Some?
    }

    /** `healthy`: memory can be allocated. */
    method CacheAdd(level: nat, blk: nat, lba: nat, healthy: bool) returns (r: Result<nat>)
      requires Valid() && level <= fst.nlvl && (level == fst.nlvl ==> blk == 0)
      requires Find(disk, p, fst, level, blk) == Ok(lba)
      modifies this
      ensures Valid() && Grown() && (r.Err? ==> r.error == ENOMEM && !healthy)
      ensures r.Ok? ==> r.value < |bcache| && bcache[r.value] == CacheEntry(level, blk, lba, None)
    {
      var noMemory: bool := *;
      if !healthy && noMemory { return Err(ENOMEM); }
      bcache := bcache + [CacheEntry(level, blk, lba, None)];
      return Ok(|bcache| - 1);
    }

    /** A cached read gives what the walk gives, unless an allocation or the device fails, which
        `healthy` excludes; a block once read stays cached. */
    method Read(level: nat, blk: nat, healthy: bool) returns (r: Result<Bytes>)
      requires Valid() && level <= fst.nlvl
      modifies this
      ensures Valid() && Grown()
      ensures r == ReadBlk(disk, p, fst, level, blk) || (Failed(r) && !healthy)
      ensures r.Ok? ==> Holds(level, if level == fst.nlvl then 0 else blk)
      decreases fst.nlvl - level
    {
      var cur := Lookup(level, blk);
      var e: nat;
      if cur.Some? {
        e := cur.value;
      } else if level == fst.nlvl {
        var added := CacheAdd(level, 0, fst.fop, healthy);
        if added.Err? { return Err(added.error); }
        e := added.value;
      } else {
        var ptrs := Read(level + 1, Div(blk, p), healthy);
        if ptrs.Err? { return ptrs; }
        var added := CacheAdd(level, blk, Word(ptrs.value, Mod(blk, p)), healthy);
        if added.Err? { return Err(added.error); }
        e := added.value;
      }
      if bcache[e].data.Some? { return Ok(bcache[e].data.value); }
      var noMemory: bool, ioFails: bool := *, *;
      if !healthy && noMemory { return Err(ENOMEM); }
      if !healthy && ioFails { return Err(EIO); }
      r := DevRead(disk, bcache[e].lba);
      if r.Ok? {
        bcache := bcache[e := bcache[e].(data := Some(r.value))];
        assert bcache[e].data.Some?;
      }
    }

    /** Read one fixed-length record through the cache. */
    method ReadRec(recno: nat, size: nat, healthy: bool) returns (r: Result<Bytes>)
      requires Valid() && size > 0
      modifies this
      ensures Valid() && Grown()
      ensures r == RecordAt(disk, p, size, fst, recno) || (Failed(r) && !healthy)
    {
      if fst.nlvl != 0 || fst.lrecl > size || recno >= fst.aic { return Err(EINVAL); }
      var blk := Div(recno * fst.lrecl, size);
      var off := Mod(recno * fst.lrecl, size);
      var first := Read(0, blk, healthy);
      if first.Err? { return first; }
      if off + fst.lrecl > size {
        var second := Read(0, blk + 1, healthy);
        if second.Err? { return second; }
        return Ok(Cut(first.value, off, size - off) + Cut(second.value, 0, fst.lrecl - (size - off)));
      }
      return Ok(Cut(first.value, off, fst.lrecl));
    }
  }

  function Cut(b: Bytes, off: nat, len: nat): Bytes {
    if off + len <= |b| then b[off..off + len] else []
  }

  /** The record read without a cache; files with pointer blocks are refused. */
  function RecordAt(d: Disk, p: nat, size: nat, fst: Fst, recno: nat): Result<Bytes>
    requires p > 0 && size > 0
  {
    if fst.nlvl != 0 || fst.lrecl > size || recno >= fst.aic then Err(EINVAL)
    else
      var off := Mod(recno * fst.lrecl, size);
      var blk := Div(recno * fst.lrecl, size);
      match ReadBlk(d, p, fst, 0, blk)
      case Err(e) => Err(e)
      case Ok(a) =>
        if off + fst.lrecl > size then
          match ReadBlk(d, p, fst, 0, blk + 1)
          case Err(e) => Err(e)
          case Ok(b) => Ok(Cut(a, off, size - off) + Cut(b, 0, fst.lrecl - (size - off)))
        else Ok(Cut(a, off, fst.lrecl))
  }

  /** A record is `lrecl` bytes from its place on, also where they go on in the next block. */
  lemma RecordSpans(d: Disk, p: nat, size: nat, fst: Fst, recno: nat, a: Bytes, b: Bytes)
    requires p > 0 && size > 0 && fst.nlvl == 0 && fst.lrecl <= size && recno < fst.aic && |a| == size && |b| == size
    requires ReadBlk(d, p, fst, 0, Div(recno * fst.lrecl, size)) == Ok(a)
    requires ReadBlk(d, p, fst, 0, Div(recno * fst.lrecl, size) + 1) == Ok(b)
    ensures var off := Mod(recno * fst.lrecl, size);
      RecordAt(d, p, size, fst, recno) == Ok((a + b)[off..off + fst.lrecl])
  {
    CutSpan(a, b, size, Mod(recno * fst.lrecl, size), fst.lrecl);
  }

  lemma CutSpan(a: Bytes, b: Bytes, size: nat, off: nat, len: nat)
    requires |a| == size && |b| == size && len <= size && off < size
    ensures (a + b)[off..off + len] ==
      if off + len > size then Cut(a, off, size - off) + Cut(b, 0, len - (size - off)) else Cut(a, off, len)
  {
  }

  // ---- Reading what the installer wrote ----

  /** The block, or a pointer block on its way from the top, was never linked. */
  predicate LostAbove(g: Geo, l: nat, b: nat, nlvl: nat)
    requires g.ptrs > 0
    decreases nlvl - l
  {
    l < nlvl && (Lost(g, b) || LostAbove(g, l + 1, Div(b, g.ptrs), nlvl))
  }

  lemma {:induction false} IntendedNeverLost(g: Geo, l: nat, b: nat, nlvl: nat)
    requires g.ptrs > 0 && g.coding.Intended?
    ensures !LostAbove(g, l, b, nlvl)
    decreases nlvl - l
  {
    if l < nlvl { IntendedNeverLost(g, l + 1, Div(b, g.ptrs), nlvl); }
  }

  /** After write-back the reader's pointers lead to the block the installer mapped. */
  lemma {:induction false} FindsBlock(v: Vol, g: Geo, origin: Disk, f: FileId, fst: Fst, l: nat, b: nat)
    requires VolOk(v, g, origin) && Synced(v) && fst.adbc > 0 && Tree(v, g, origin, f, fst)
    requires l <= fst.nlvl && b < BlocksAt(fst.adbc, g.ptrs, l) && !LostAbove(g, l, b, fst.nlvl)
    ensures Key(f, l, b) in v.bm && Find(v.disk, g.ptrs, fst, l, b) == Ok(LbaAt(v, Key(f, l, b)))
    ensures ReadBlk(v.disk, g.ptrs, fst, l, b) == Ok(Content(v, Key(f, l, b)))
    decreases fst.nlvl - l
  {
    var k := Key(f, l, b);
    assert k in v.bm;
    ContentSized(v, g, k);
    if l < fst.nlvl {
      ParentInRange(fst.adbc, g.ptrs, l, b);
      FindsBlock(v, g, origin, f, fst, l + 1, Div(b, g.ptrs));
      assert HasParent(g, fst.adbc, l, b) && SlotOk(ViewOf(v, origin, f), g, fst.adbc, l, b);
    }
  }

  /** A lost block's slot leads to whatever the disk held there at mount time. */
  lemma LostFindsStale(v: Vol, g: Geo, origin: Disk, f: FileId, fst: Fst, l: nat, b: nat)
    requires VolOk(v, g, origin) && Synced(v) && fst.adbc > 0 && Tree(v, g, origin, f, fst)
    requires l < fst.nlvl && b < BlocksAt(fst.adbc, g.ptrs, l) && Lost(g, b)
    requires !LostAbove(g, l + 1, Div(b, g.ptrs), fst.nlvl)
    ensures var up := LbaAt(v, Key(f, l + 1, Div(b, g.ptrs)));
      Find(v.disk, g.ptrs, fst, l, b) == Ok(Word(DiskAt(origin, up), Mod(b, g.ptrs)))
  {
    ParentInRange(fst.adbc, g.ptrs, l, b);
    FindsBlock(v, g, origin, f, fst, l + 1, Div(b, g.ptrs));
    assert HasParent(g, fst.adbc, l, b) && SlotOk(ViewOf(v, origin, f), g, fst.adbc, l, b);
  }

  ghost predicate AllReadable(v: Vol, g: Geo, f: FileId, fst: Fst)
    requires g.ptrs > 0
  {
    forall b: nat {:trigger Key(f, 0, b)} :: b < fst.adbc ==>
      ReadBlk(v.disk, g.ptrs, fst, 0, b) == Ok(Content(v, Key(f, 0, b)))
  }

  /** With the intended slot every data block of every file is readable, at every depth. */
  lemma IntendedReadable(v: Vol, g: Geo, origin: Disk, f: FileId, fst: Fst)
    requires VolOk(v, g, origin) && Synced(v) && Tree(v, g, origin, f, fst) && g.coding.Intended?
    ensures AllReadable(v, g, f, fst)
  {
    forall b: nat | b < fst.adbc ensures ReadBlk(v.disk, g.ptrs, fst, 0, b) == Ok(Content(v, Key(f, 0, b))) {
      IntendedNeverLost(g, 0, b, fst.nlvl);
      FindsBlock(v, g, origin, f, fst, 0, b);
    }
  }

  /** First data block the repository's slot expression loses. */
  function FirstLost(p: nat): nat
    requires p >= 2
  {
    if p == 2 then 3 else p - 1
  }

  lemma SmallFile(g: Geo, n: nat, nlvl: nat, b: nat)
    requires g.ptrs >= 2 && b < n <= FirstLost(g.ptrs) && TopIsSingle(n, g.ptrs, nlvl)
    ensures !LostAbove(g, 0, b, nlvl)
  {
    var p := g.ptrs;
    assert BlocksAt(n, p, 1) == CeilDiv(n, p);
    assert BlocksAt(n, p, 2) == CeilDiv(BlocksAt(n, p, 1), p);
    if p > 2 {
      if nlvl > 1 { BelowTop(n, p, nlvl, 1); }
      assert !LostAbove(g, 1, Div(b, p), nlvl);
    } else {
      if nlvl > 2 { BelowTop(n, p, nlvl, 2); }
      assert !LostAbove(g, 2, Div(Div(b, p), p), nlvl);
    }
  }

  lemma {:induction false} ZeroNeverLost(g: Geo, l: nat, nlvl: nat)
    requires g.ptrs >= 2
    ensures !LostAbove(g, l, 0, nlvl)
    decreases nlvl - l
  {
    if l < nlvl { ZeroNeverLost(g, l + 1, nlvl); }
  }

  lemma FirstLostIsLost(g: Geo, n: nat, nlvl: nat)
    requires g.ptrs >= 2 && g.coding.AsWritten? && FirstLost(g.ptrs) < n && TopIsSingle(n, g.ptrs, nlvl)
    ensures nlvl > 0 && Lost(g, FirstLost(g.ptrs)) && !LostAbove(g, 1, Div(FirstLost(g.ptrs), g.ptrs), nlvl)
  {
    var b := FirstLost(g.ptrs);
    if g.ptrs == 2 {
      assert Mod(3, 2) == 1 && Div(3, 2) == 1 && Div(1, 2) == 0;
      ZeroNeverLost(g, 2, nlvl);
    } else {
      ZeroNeverLost(g, 1, nlvl);
    }
  }

  /** The file's pointer blocks were all zero when they were allocated. */
  ghost predicate FreshZero(v: Vol, origin: Disk, f: FileId) {
    forall k: Key, j: nat {:trigger Word(DiskAt(origin, LbaAt(v, k)), j)} ::
      k in v.bm && k.file == f ==> Word(DiskAt(origin, LbaAt(v, k)), j) == 0
  }

  /** As the repository writes the slot, on zero-filled blocks: a file is readable exactly when
      it has at most `FirstLost` data blocks (1023 for 4096-byte blocks). */
  lemma AsWrittenReadable(v: Vol, g: Geo, origin: Disk, f: FileId, fst: Fst)
    requires VolOk(v, g, origin) && Synced(v) && fst.adbc > 0 && Tree(v, g, origin, f, fst) && g.coding.AsWritten?
    requires FreshZero(v, origin, f)
    ensures AllReadable(v, g, f, fst) <==> fst.adbc <= FirstLost(g.ptrs)
  {
    if fst.adbc <= FirstLost(g.ptrs) {
      forall b: nat | b < fst.adbc ensures ReadBlk(v.disk, g.ptrs, fst, 0, b) == Ok(Content(v, Key(f, 0, b))) {
        SmallFile(g, fst.adbc, fst.nlvl, b);
        FindsBlock(v, g, origin, f, fst, 0, b);
      }
    } else {
      var b := FirstLost(g.ptrs);
      FirstLostIsLost(g, fst.adbc, fst.nlvl);
      LostFindsStale(v, g, origin, f, fst, 0, b);
      var up := Key(f, 1, Div(b, g.ptrs));
      ParentInRange(fst.adbc, g.ptrs, 0, b);
      assert up in v.bm;
      assert Word(DiskAt(origin, LbaAt(v, up)), Mod(b, g.ptrs)) == 0;
      assert ReadBlk(v.disk, g.ptrs, fst, 0, b) == Err(EINVAL);
      assert Key(f, 0, b).blk == b;
    }
  }

  // ---- Records read back ----

  /** The file's data, block by block. */
  function ReadData(d: Disk, p: nat, fst: Fst, n: nat): Result<Bytes>
    requires p > 0
  {
    if n == 0 then Ok([])
    else
      match ReadData(d, p, fst, n - 1)
      case Err(e) => Err(e)
      case Ok(a) =>
        match ReadBlk(d, p, fst, 0, n - 1)
        case Err(e) => Err(e)
        case Ok(b) => Ok(a + b)
  }

  lemma {:induction false} ReadDataIs(v: Vol, g: Geo, f: FileId, fst: Fst, n: nat)
    requires g.ptrs > 0 && AllReadable(v, g, f, fst) && n <= fst.adbc
    ensures ReadData(v.disk, g.ptrs, fst, n) == Ok(DataBytes(v, f, n))
  {
    if n > 0 {
      ReadDataIs(v, g, f, fst, n - 1);
      assert ReadBlk(v.disk, g.ptrs, fst, 0, n - 1) == Ok(Content(v, Key(f, 0, n - 1)));
    }
  }

  /** The records given to the installer are the first bytes the reader finds. */
  lemma RecordsReadBack(v: Vol, g: Geo, origin: Disk, f: FileId, fst: Fst, rs: seq<Bytes>)
    requires VolOk(v, g, origin) && Synced(v) && FileOk(v, g, origin, f, fst, rs)
    requires g.coding.Intended? || (fst.adbc <= FirstLost(g.ptrs) && (fst.adbc > 0 ==> FreshZero(v, origin, f)))
    ensures var r := ReadData(v.disk, g.ptrs, fst, fst.adbc); r.Ok? && Concat(rs) <= r.value
  {
    if fst.adbc > 0 {
      if g.coding.Intended? {
        IntendedReadable(v, g, origin, f, fst);
      } else {
        AsWrittenReadable(v, g, origin, f, fst);
      }
    }
    ReadDataIs(v, g, f, fst, fst.adbc);
  }

  /** Records that fit one block lie where the reader looks for them. */
  lemma RecordInBlock(rs: seq<Bytes>, len: nat, r: nat, c: Bytes)
    requires len > 0 && (forall i :: 0 <= i < |rs| ==> |rs[i]| == len) && r < |rs| && Concat(rs) <= c
    ensures |c| > 0 && Div(r * len, |c|) == 0 && Mod(r * len, |c|) == r * len
    ensures r * len + len <= |c| && Cut(c, r * len, len) == rs[r]
  {
    ConcatAt(rs, len, r);
    var at: nat := r * len;
    assert at + len <= |Concat(rs)|;
    assert c[at..at + len] == Concat(rs)[at..at + len];
  }

  lemma OneBlock(v: Vol, g: Geo, origin: Disk, f: FileId, fst: Fst, rs: seq<Bytes>)
    requires VolOk(v, g, origin) && FileOk(v, g, origin, f, fst, rs) && fst.nlvl == 0 && |rs| > 0
    ensures fst.adbc == 1 && Concat(rs) <= Content(v, Key(f, 0, 0))
  {
    ConcatAt(rs, fst.lrecl, 0);
    assert DataBytes(v, f, 0) == [];
    if fst.adbc > 0 {
      assert DataBytes(v, f, 1) == Content(v, Key(f, 0, 0));
    }
  }

  /** For a file without pointer blocks the reader returns every record as it was appended. */
  lemma RecordReadBack(v: Vol, g: Geo, origin: Disk, f: FileId, fst: Fst, rs: seq<Bytes>, r: nat)
    requires VolOk(v, g, origin) && Synced(v) && FileOk(v, g, origin, f, fst, rs) && fst.nlvl == 0 && r < |rs|
    ensures RecordAt(v.disk, g.ptrs, g.Size(), fst, r) == Ok(rs[r])
  {
    OneBlock(v, g, origin, f, fst, rs);
    assert Key(f, 0, 0) in v.bm;
    ContentSized(v, g, Key(f, 0, 0));
    RecordInBlock(rs, fst.lrecl, r, Content(v, Key(f, 0, 0)));
    FindsBlock(v, g, origin, f, fst, 0, 0);
  }

  // ---- From the directory to the records ----

  /** First entry of a directory block, from number `m` on, with the name. */
  function ScanFrom(c: Bytes, nfst: nat, f: FileId, m: nat): (r: Option<nat>)
    ensures r.None? ==> forall j: nat :: m <= j < nfst ==> !SlotNamed(c, j, f)
    ensures r.Some? ==> m <= r.value < nfst && SlotNamed(c, r.value, f)
    ensures r.Some? ==> forall j: nat :: m <= j < r.value ==> !SlotNamed(c, j, f)
    decreases nfst - m
  {
    if m >= nfst then None else if SlotNamed(c, m, f) then Some(m) else ScanFrom(c, nfst, f, m + 1)
  }

  /** The status a lookup by name finds from directory block `blk` on. */
  function LookupFrom(d: Disk, p: nat, nfst: nat, dir: Fst, f: FileId, blk: nat): Result<Fst>
    requires p > 0
    decreases dir.adbc - blk
  {
    if blk >= dir.adbc then Err(ENOENT)
    else
      match ReadBlk(d, p, dir, 0, blk)
      case Err(e) => Err(e)
      case Ok(c) =>
        var m := ScanFrom(c, nfst, f, 0);
        if m.Some? then Ok(GetFst(SlotAt(c, m.value))) else LookupFrom(d, p, nfst, dir, f, blk + 1)
  }

  /** The directory's status, in the first entry of the block the label points to. */
  function RootFst(d: Disk, dop: nat): Result<Fst> {
    match DevRead(d, dop)
    case Err(e) => Err(e)
    case Ok(c) =>
      if
        && SlotNamed(c, 0, DIRECTOR) && SlotAt(c, 0)[30] == FIXED
        && SlotNamed(c, 1, ALLOCMAP) && SlotAt(c, 1)[30] == FIXED
      then Ok(GetFst(SlotAt(c, 0))) else Err(ECORRUPT)
  }

  class FileSystem {
    const p: nat
    const nfst: nat
    const disk: Disk
    const dir: File
    var files: seq<(FileId, Fst)>

    ghost predicate Valid()
      reads this, dir
    {
      && p > 0 && dir.Valid() && dir.p == p && dir.disk == disk
      && forall i {:trigger files[i]} :: 0 <= i < |files| ==>
        LookupFrom(disk, p, nfst, dir.fst, files[i].0, 0) == Ok(files[i].1)
    }

    /** The directory's first block is known from the label. */
    constructor (p: nat, nfst: nat, disk: Disk, root: Fst, dop: nat)
      requires p > 0 && Find(disk, p, root, 0, 0) == Ok(dop)
      ensures Valid() && this.p == p && this.nfst == nfst && this.disk == disk && dir.fst == root && files == []
      ensures fresh(dir)
    {
      var d := new File(root, p, disk);
      d.bcache := [CacheEntry(0, 0, dop, None)];
      this.p, this.nfst, this.disk, dir, files := p, nfst, disk, d, [];
    }

    /** Look a file up: among those found before, then in the directory. */
    method Lookup(f: FileId, healthy: bool) returns (r: Result<Fst>)
      requires Valid()
      modifies this, dir
      ensures Valid() && (r == LookupFrom(disk, p, nfst, dir.fst, f, 0) || (Failed(r) && !healthy))
      ensures r.Ok? ==> (f, r.value) in files
    {
      for i := 0 to |files| {
        if files[i].0 == f { return Ok(files[i].1); }
      }
      r := Search(f, healthy);
      if r.Ok? { files := files + [(f, r.value)]; }
    }

    method Search(f: FileId, healthy: bool) returns (r: Result<Fst>)
      requires Valid()
      modifies dir
      ensures Valid() && (r == LookupFrom(disk, p, nfst, dir.fst, f, 0) || (Failed(r) && !healthy))
    {
      var noMemory: bool := *;
      if !healthy && noMemory { return Err(ENOMEM); }
      for blk := 0 to dir.fst.adbc
        invariant Valid() && LookupFrom(disk, p, nfst, dir.fst, f, 0) == LookupFrom(disk, p, nfst, dir.fst, f, blk)
      {
        var c := dir.Read(0, blk, healthy);
        if c.Err? { return Err(c.error); }
        var m := FindEntry(c.value, nfst, f);
        if m < nfst { return Ok(GetFst(SlotAt(c.value, m))); }
      }
      return Err(ENOENT);
    }
  }

  method FindEntry(c: Bytes, nfst: nat, f: FileId) returns (m: nat)
    ensures m <= nfst && ScanFrom(c, nfst, f, 0) == if m < nfst then Some(m) else None
  {
    m := 0;
    while m < nfst && !SlotNamed(c, m, f)
      invariant m <= nfst && ScanFrom(c, nfst, f, 0) == ScanFrom(c, nfst, f, m)
    {
      m := m + 1;
    }
  }

  /** Files below 4 GB: the fields of an entry, and the byte offsets the source computes, have 32 bits. */
  predicate Small(s: Fst) { s == Truncated(s) && s.aic * s.lrecl < WORD_LIMIT }

  /** The lookup stops at a file's own entry. */
  lemma {:induction false} LookupFinds(v: Vol, g: Geo, nfst: nat, fst: Fst, rs: seq<Bytes>, fsts: Fsts, f: FileId,
      i: nat, blk: nat)
    requires RecordsOk(v, g, DIRECTOR, fst, rs) && fst.lrecl == ENTRY && g.Size() == ENTRY * nfst
    requires DirOk(rs, fsts) && Names(rs, i, f) && AllReadable(v, g, DIRECTOR, fst)
    requires NoneBefore(v, nfst, f, blk, 0) && blk <= Div(i, nfst)
    ensures LookupFrom(v.disk, g.ptrs, nfst, fst, f, blk) == Ok(GetFst(rs[i]))
    decreases fst.adbc - blk
  {
    SlotIsRecord(v, g, fst, rs, nfst, i);
    assert Key(DIRECTOR, 0, blk).blk == blk;
    var c := Content(v, Key(DIRECTOR, 0, blk));
    var m := ScanFrom(c, nfst, f, 0);
    forall j: nat | j < nfst && (m.None? || j < m.value) ensures !VolSlot(v, blk, j, f) {}
    if m.Some? {
      assert NoneBefore(v, nfst, f, blk, m.value) && VolSlot(v, blk, m.value, f);
      FirstSlot(v, g, fst, rs, fsts, nfst, f, i, Some((blk, m.value)));
    } else {
      if blk == Div(i, nfst) { assert VolSlot(v, blk, Mod(i, nfst), f); }
      LookupFinds(v, g, nfst, fst, rs, fsts, f, i, blk + 1);
    }
  }

  /** What a lookup needs: the intended slot expression, or files of few blocks on a zeroed disk. */
  ghost predicate Reaches(inst: Installer, f: FileId)
    reads inst
  {
    f in inst.fsts && Small(inst.fsts[f]) &&
    (inst.g.coding.Intended?
      || (inst.g.ptrs >= 2 && inst.fsts[f].adbc <= FirstLost(inst.g.ptrs) && FreshZero(inst.vol, inst.origin, f)))
  }

  lemma ReachesReadable(inst: Installer, f: FileId)
    requires inst.Valid() && Synced(inst.vol) && Reaches(inst, f)
    ensures AllReadable(inst.vol, inst.g, f, inst.fsts[f])
  {
    assert HasFile(inst.vol, inst.g, inst.origin, inst.fsts, inst.recs, f);
    if inst.g.coding.Intended? {
      IntendedReadable(inst.vol, inst.g, inst.origin, f, inst.fsts[f]);
    } else if inst.fsts[f].adbc > 0 {
      AsWrittenReadable(inst.vol, inst.g, inst.origin, f, inst.fsts[f]);
    }
  }

  /** Once the buffers are written back, the disk leads to the directory. */
  lemma RootFound(inst: Installer)
    requires inst.Valid() && Synced(inst.vol) && Reaches(inst, DIRECTOR)
    ensures RootFst(inst.vol.disk, inst.dop) == Ok(inst.fsts[DIRECTOR])
    ensures Find(inst.vol.disk, inst.g.ptrs, inst.fsts[DIRECTOR], 0, 0) == Ok(inst.dop)
  {
    var v, g, dir, rs := inst.vol, inst.g, inst.fsts[DIRECTOR], inst.recs[DIRECTOR];
    assert HasFile(v, g, inst.origin, inst.fsts, inst.recs, DIRECTOR);
    var k := Key(DIRECTOR, 0, 0);
    assert k in v.bm;
    ContentSized(v, g, k);
    SlotIsRecord(v, g, dir, rs, inst.nfst, 0);
    SlotIsRecord(v, g, dir, rs, inst.nfst, 1);
    assert UpToDate(rs, 0, inst.fsts);
    ZeroNeverLost(g, 0, dir.nlvl);
    FindsBlock(v, g, inst.origin, DIRECTOR, dir, 0, 0);
  }

  /** The directory leads to every file. */
  lemma FileFound(inst: Installer, f: FileId)
    requires inst.Valid() && Synced(inst.vol) && Reaches(inst, DIRECTOR) && Reaches(inst, f)
    ensures LookupFrom(inst.vol.disk, inst.g.ptrs, inst.nfst, inst.fsts[DIRECTOR], f, 0) == Ok(inst.fsts[f])
  {
    var rs := inst.recs[DIRECTOR];
    assert HasFile(inst.vol, inst.g, inst.origin, inst.fsts, inst.recs, DIRECTOR);
    ReachesReadable(inst, DIRECTOR);
    assert Listed(rs, f);
    var i :| Names(rs, i, f);
    LookupFinds(inst.vol, inst.g, inst.nfst, inst.fsts[DIRECTOR], rs, inst.fsts, f, i, 0);
    assert UpToDate(rs, i, inst.fsts);
  }

  /** Whatever files were created and records appended in whatever order: once the buffers are written
      back, someone who knows only the disk and where its directory starts finds every file by its
      name, all its data blocks, and its records. */
  lemma InstalledReadsBack(inst: Installer, f: FileId)
    requires inst.Valid() && Synced(inst.vol) && Reaches(inst, DIRECTOR) && Reaches(inst, f)
    ensures f in inst.recs
    ensures var d, p, rs := inst.vol.disk, inst.g.ptrs, inst.recs[f];
      var dir := RootFst(d, inst.dop);
      dir.Ok? &&
      var fst := LookupFrom(d, p, inst.nfst, dir.value, f, 0);
      fst.Ok? &&
      var data := ReadData(d, p, fst.value, fst.value.adbc);
      && data.Ok? && Concat(rs) <= data.value && |rs| == fst.value.aic
      && (fst.value.nlvl == 0 ==> forall r: nat :: r < |rs| ==>
        RecordAt(d, p, inst.g.Size(), fst.value, r) == Ok(rs[r]))
  {
    var v, g, fst, rs := inst.vol, inst.g, inst.fsts[f], inst.recs[f];
    RootFound(inst);
    FileFound(inst, f);
    assert HasFile(v, g, inst.origin, inst.fsts, inst.recs, f);
    RecordsReadBack(v, g, inst.origin, f, fst, rs);
    if fst.nlvl == 0 {
      forall r: nat | r < |rs| ensures RecordAt(v.disk, g.ptrs, g.Size(), fst, r) == Ok(rs[r]) {
        RecordReadBack(v, g, inst.origin, f, fst, rs, r);
      }
    }
  }
}
