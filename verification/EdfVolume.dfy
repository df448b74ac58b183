/** The installer's view of an EDF volume: a block map with cached buffers over a disk,
    and the on-disk allocation map (installer/edf.c). */
module EdfVolume {
  import opened Common
  import opened Words
  import opened Bitmap
  import opened Ceiling

  /** EBCDIC file name and file type, eight bytes each in the source. */
  datatype FileId = FileId(fn: Bytes, ft: Bytes)

  const ALLOCMAP := FileId([0, 0, 0, 2, 0, 0, 0, 0], [0xc1, 0xd3, 0xd3, 0xd6, 0xc3, 0xd4, 0xc1, 0xd7])

  datatype Key = Key(file: FileId, level: nat, blk: nat)
  datatype Entry = Entry(lba: nat, buf: Option<Bytes>, dirty: bool)

  type Disk = map<nat, Bytes>
  datatype Vol = Vol(bm: map<Key, Entry>, disk: Disk)

  // Block numbers fit the int the reader passes to the device.
  const LBA_LIMIT := 0x8000_0000

  /** `ptrs` four-byte pointers per block; `amapBlocks` blocks of allocation map;
      `coding` selects the pointer slot expression used when a pointer block already exists. */
  datatype Geo = Geo(ptrs: nat, amapBlocks: nat, coding: Coding) {
    function Size(): nat { 4 * ptrs }
    function Cap(): nat { amapBlocks * Size() * 8 }
    predicate Ok() { ptrs >= 2 && Cap() < LBA_LIMIT }
  }

  function DiskAt(d: Disk, lba: nat): Bytes {
    if lba in d then d[lba] else []
  }

  function Word(b: Bytes, i: nat): nat {
    if 4 * i + 4 <= |b| then GetWord(b, i) else 0
  }

  /** What the installer sees in a mapped block: its buffer, or the disk block if not loaded. */
  function Content(v: Vol, k: Key): Bytes {
    if k !in v.bm then []
    else if v.bm[k].buf.Some? then v.bm[k].buf.value
    else DiskAt(v.disk, v.bm[k].lba)
  }

  function LbaAt(v: Vol, k: Key): nat {
    if k in v.bm then v.bm[k].lba else 0
  }

  // Position of the allocation-map bit of a block.
  function AmapKey(g: Geo, lba: nat): Key
    requires g.ptrs > 0 && lba > 0
  {
    Key(ALLOCMAP, 0, Div((lba - 1) / 8, g.Size()))
  }

  function AmapByte(g: Geo, lba: nat): nat
    requires g.ptrs > 0 && lba > 0
  {
    Mod((lba - 1) / 8, g.Size())
  }

  predicate Used(v: Vol, g: Geo, lba: nat)
    requires g.ptrs > 0
  {
    lba > 0 &&
    var c := Content(v, AmapKey(g, lba));
    var i := AmapByte(g, lba);
    i < |c| && IsSet(c[i], (lba - 1) % 8)
  }

  /** The byte of the allocation map that has the bit of a block: blocks count from 1, eight to a byte. */
  function MapByte(v: Vol, g: Geo, lba: nat): nat
    requires g.ptrs > 0 && lba > 0
  {
    DivIs((lba - 1) / 8, g.Size());
    var c := Content(v, Key(ALLOCMAP, 0, (lba - 1) / 8 / g.Size()));
    var i := (lba - 1) / 8 % g.Size();
    if i < |c| then c[i] else 0
  }

  /** The bit of the first of the eight has weight 0x80, that of the last weight 1. */
  lemma UsedIs(v: Vol, g: Geo, lba: nat)
    requires g.ptrs > 0 && lba > 0
    ensures Used(v, g, lba) <==> MapByte(v, g, lba) / Pow2(7 - (lba - 1) % 8) % 2 == 1
  {
    DivIs((lba - 1) / 8, g.Size());
    var c, i := Content(v, AmapKey(g, lba)), AmapByte(g, lba);
    if i < |c| { BitIs(c[i], (lba - 1) % 8); } else { ZeroDiv(Pow2(7 - (lba - 1) % 8)); }
  }

  lemma ZeroDiv(d: nat)
    requires d > 0
    ensures 0 / d == 0
  {
  }

  // ---- Volume invariant ----

  predicate InRange(g: Geo, lba: nat) { 1 <= lba <= g.Cap() }

  predicate EntryOk(v: Vol, g: Geo, k: Key)
    requires k in v.bm
  {
    var e := v.bm[k];
    && InRange(g, e.lba)
    && (e.buf.Some? ==> |e.buf.value| == g.Size())
    && (e.dirty ==> e.buf.Some?)
    && (e.buf.Some? && !e.dirty ==> e.buf.value == DiskAt(v.disk, e.lba))
  }

  ghost predicate EntriesOk(v: Vol, g: Geo) {
    forall k {:trigger EntryOk(v, g, k)} :: k in v.bm ==> EntryOk(v, g, k)
  }

  predicate MappedAt(v: Vol, k: Key, lba: nat) {
    k in v.bm && v.bm[k].lba == lba
  }

  /** No block of the disk serves two mapped blocks, whatever their file or level. */
  ghost predicate NoAlias(v: Vol) {
    forall k, k', lba :: MappedAt(v, k, lba) && MappedAt(v, k', lba) ==> k == k'
  }

  /** Every mapped block is marked used. */
  ghost predicate AllUsed(v: Vol, g: Geo)
    requires g.ptrs > 0
  {
    forall k, lba {:trigger MappedAt(v, k, lba)} :: MappedAt(v, k, lba) ==> Used(v, g, lba)
  }

  predicate SizedAt(d: Disk, g: Geo, lba: nat) {
    |DiskAt(d, lba)| == g.Size()
  }

  ghost predicate DiskOk(d: Disk, g: Geo) {
    forall l: nat {:trigger SizedAt(d, g, l)} :: InRange(g, l) ==> SizedAt(d, g, l)
  }

  predicate UntouchedAt(v: Vol, origin: Disk, lba: nat) {
    DiskAt(v.disk, lba) == DiskAt(origin, lba)
  }

  /** Blocks the allocation map calls free still hold what they held at mount time. */
  ghost predicate FreeUntouched(v: Vol, g: Geo, origin: Disk)
    requires g.ptrs > 0
  {
    forall l: nat {:trigger UntouchedAt(v, origin, l)} :: InRange(g, l) && !Used(v, g, l) ==> UntouchedAt(v, origin, l)
  }

  ghost predicate AmapMapped(v: Vol, g: Geo) {
    forall i: nat :: i < g.amapBlocks ==> Key(ALLOCMAP, 0, i) in v.bm
  }

  ghost predicate VolOk(v: Vol, g: Geo, origin: Disk) {
    && g.Ok()
    && EntriesOk(v, g)
    && NoAlias(v)
    && AllUsed(v, g)
    && DiskOk(v.disk, g)
    && FreeUntouched(v, g, origin)
    && AmapMapped(v, g)
  }

  /** Same mapped blocks at the same places with the same visible contents. */
  ghost predicate SameView(v: Vol, w: Vol) {
    && v.disk == w.disk
    && v.bm.Keys == w.bm.Keys
    && (forall k :: k in v.bm ==> v.bm[k].lba == w.bm[k].lba)
    && (forall k :: k in v.bm ==> Content(v, k) == Content(w, k))
  }

  // ---- The elementary changes of the block map ----

  function Load(v: Vol, k: Key): Vol
    requires k in v.bm
  {
    v.(bm := v.bm[k := v.bm[k].(buf := Some(Content(v, k)))])
  }

  function Store(v: Vol, k: Key, c: Bytes): Vol
    requires k in v.bm
  {
    v.(bm := v.bm[k := v.bm[k].(buf := Some(c), dirty := true)])
  }

  function Add(v: Vol, k: Key, lba: nat): Vol {
    v.(bm := v.bm[k := Entry(lba, None, false)])
  }

  /** The invariant needs of the entries only that they are well formed and stay in place. */
  lemma MovedView(v: Vol, w: Vol, g: Geo, origin: Disk)
    requires VolOk(v, g, origin) && w.disk == v.disk && EntriesOk(w, g)
    requires w.bm.Keys == v.bm.Keys && forall k :: k in v.bm ==> w.bm[k].lba == v.bm[k].lba
    requires forall l: nat :: Used(v, g, l) ==> Used(w, g, l)
    ensures VolOk(w, g, origin)
  {
    assert forall k, lba {:trigger MappedAt(w, k, lba)} :: MappedAt(w, k, lba) ==> MappedAt(v, k, lba);
    assert forall l: nat {:trigger UntouchedAt(w, origin, l)} ::
      UntouchedAt(w, origin, l) <==> UntouchedAt(v, origin, l);
  }

  lemma ContentSized(v: Vol, g: Geo, k: Key)
    requires EntriesOk(v, g) && DiskOk(v.disk, g) && k in v.bm
    ensures |Content(v, k)| == g.Size() && InRange(g, v.bm[k].lba)
  {
    assert EntryOk(v, g, k);
    assert SizedAt(v.disk, g, v.bm[k].lba);
  }

  lemma LoadView(v: Vol, g: Geo, k: Key)
    requires EntriesOk(v, g) && DiskOk(v.disk, g) && k in v.bm
    ensures EntriesOk(Load(v, k), g) && SameView(v, Load(v, k))
  {
    var w := Load(v, k);
    ContentSized(v, g, k);
    forall x | x in w.bm ensures EntryOk(w, g, x) { assert EntryOk(v, g, x); }
    assert w.bm.Keys == v.bm.Keys;
  }

  lemma LoadKeeps(v: Vol, g: Geo, origin: Disk, k: Key)
    requires VolOk(v, g, origin) && k in v.bm
    ensures VolOk(Load(v, k), g, origin) && SameView(v, Load(v, k))
  {
    LoadView(v, g, k);
    MovedView(v, Load(v, k), g, origin);
  }

  lemma StoreView(v: Vol, g: Geo, k: Key, c: Bytes)
    requires k in v.bm
    ensures Store(v, k, c).bm.Keys == v.bm.Keys && Content(Store(v, k, c), k) == c
    ensures forall x :: x in v.bm ==> Store(v, k, c).bm[x].lba == v.bm[x].lba
    ensures forall x :: x != k ==> Content(Store(v, k, c), x) == Content(v, x)
    ensures EntriesOk(v, g) && |c| == g.Size() ==> EntriesOk(Store(v, k, c), g)
  {
    var w := Store(v, k, c);
    if EntriesOk(v, g) && |c| == g.Size() {
      forall x | x in w.bm ensures EntryOk(w, g, x) { assert EntryOk(v, g, x); }
    }
  }

  lemma StoreKeeps(v: Vol, g: Geo, origin: Disk, k: Key, c: Bytes)
    requires VolOk(v, g, origin) && k in v.bm && k.file != ALLOCMAP && |c| == g.Size()
    ensures VolOk(Store(v, k, c), g, origin)
  {
    StoreView(v, g, k, c);
    MovedView(v, Store(v, k, c), g, origin);
  }

  lemma AddView(v: Vol, g: Geo, k: Key, lba: nat)
    requires EntriesOk(v, g) && NoAlias(v) && k !in v.bm && InRange(g, lba)
    requires forall x :: !MappedAt(v, x, lba)
    ensures EntriesOk(Add(v, k, lba), g) && NoAlias(Add(v, k, lba))
    ensures Content(Add(v, k, lba), k) == DiskAt(v.disk, lba)
    ensures forall x :: x != k ==> Content(Add(v, k, lba), x) == Content(v, x)
  {
    var w := Add(v, k, lba);
    forall x | x in w.bm ensures EntryOk(w, g, x) { assert x == k || EntryOk(v, g, x); }
    forall x, y, l | MappedAt(w, x, l) && MappedAt(w, y, l) ensures x == y {
      assert x == k || MappedAt(v, x, l);
      assert y == k || MappedAt(v, y, l);
    }
  }

  lemma AddKeeps(v: Vol, g: Geo, origin: Disk, k: Key, lba: nat)
    requires VolOk(v, g, origin) && k !in v.bm && k.file != ALLOCMAP
    requires InRange(g, lba) && Used(v, g, lba)
    requires forall x :: !MappedAt(v, x, lba)
    ensures VolOk(Add(v, k, lba), g, origin)
  {
    var w := Add(v, k, lba);
    AddView(v, g, k, lba);
    assert forall x, l {:trigger MappedAt(w, x, l)} :: MappedAt(w, x, l) ==> l == lba || MappedAt(v, x, l);
    assert forall l: nat {:trigger UntouchedAt(w, origin, l)} ::
      UntouchedAt(w, origin, l) <==> UntouchedAt(v, origin, l);
  }

  // ---- Allocation ----

  /** Distinct block numbers have distinct bits of the allocation map. */
  lemma BitInjective(g: Geo, l: nat, m: nat)
    requires g.ptrs > 0 && l > 0 && m > 0
    requires AmapKey(g, l) == AmapKey(g, m) && AmapByte(g, l) == AmapByte(g, m) && (l - 1) % 8 == (m - 1) % 8
    ensures l == m
  {
    DivIs((l - 1) / 8, g.Size());
    DivIs((m - 1) / 8, g.Size());
  }

  /** The volume after the allocation map's bit for `lba` is set. */
  function Claim(v: Vol, g: Geo, lba: nat): Vol
    requires g.ptrs > 0 && lba > 0 && AmapKey(g, lba) in v.bm
    requires AmapByte(g, lba) < |Content(v, AmapKey(g, lba))|
  {
    var c := Content(v, AmapKey(g, lba));
    var i := AmapByte(g, lba);
    Store(v, AmapKey(g, lba), c[i := WithBit(c[i], (lba - 1) % 8, true)])
  }

  lemma ClaimUsed(v: Vol, g: Geo, lba: nat, l: nat)
    requires g.ptrs > 0 && lba > 0 && AmapKey(g, lba) in v.bm
    requires AmapByte(g, lba) < |Content(v, AmapKey(g, lba))|
    ensures Used(Claim(v, g, lba), g, l) <==> l == lba || Used(v, g, l)
  {
    var w := Claim(v, g, lba);
    if l > 0 {
      if AmapKey(g, l) == AmapKey(g, lba) {
        if AmapByte(g, l) == AmapByte(g, lba) && (l - 1) % 8 == (lba - 1) % 8 { BitInjective(g, l, lba); }
      } else {
        assert Content(w, AmapKey(g, l)) == Content(v, AmapKey(g, l));
      }
    }
  }

  lemma ClaimKeeps(v: Vol, g: Geo, origin: Disk, lba: nat)
    requires VolOk(v, g, origin) && InRange(g, lba)
    requires AmapKey(g, lba) in v.bm && AmapByte(g, lba) < |Content(v, AmapKey(g, lba))|
    ensures VolOk(Claim(v, g, lba), g, origin)
    ensures forall k: Key :: k.file != ALLOCMAP ==> Content(Claim(v, g, lba), k) == Content(v, k)
  {
    var w := Claim(v, g, lba);
    var a := AmapKey(g, lba);
    ContentSized(v, g, a);
    StoreView(v, g, a, Content(w, a));
    forall l: nat | Used(v, g, l) ensures Used(w, g, l) { ClaimUsed(v, g, lba, l); }
    MovedView(v, w, g, origin);
  }
}
