/** The directory: a file of 64-byte entries, one for each file of the volume, itself included. */
module EdfDirectory {
  import opened Common
  import opened Words
  import opened Ceiling
  import opened EdfVolume
  import opened EdfTree
  import opened EdfGrow
  import opened EdfRecords
  import opened EdfFiles

  const DIRECTOR := FileId([0, 0, 0, 1, 0, 0, 0, 0], [0xc4, 0xc9, 0xd9, 0xc5, 0xc3, 0xe3, 0xd6, 0xd9])

  // Size of an entry, and the record format of every file here.
  const ENTRY := 64
  const FIXED: byte := 0xc6

  // ---- Entries ----

  function NameOf(e: Bytes): FileId
    requires |e| == ENTRY
  {
    FileId(e[..8], e[8..16])
  }

  /** Origin pointer, block, item and level counts and record length where an entry has them. */
  function GetFst(e: Bytes): Fst
    requires |e| == ENTRY
  {
    Fst(GetWord(e, 10), GetWord(e, 11), GetWord(e, 12), e[52], GetWord(e, 8))
  }

  /** The 32-bit number at `i`, most significant byte first. */
  function Field(e: Bytes, i: nat): nat
    requires i + 4 <= |e|
  {
    ((e[i] as int * 256 + e[i + 1]) * 256 + e[i + 2]) * 256 + e[i + 3]
  }

  /** Where an entry has its fields, in bytes. */
  lemma EntryFields(e: Bytes)
    requires |e| == ENTRY
    ensures GetFst(e) == Fst(Field(e, 40), Field(e, 44), Field(e, 48), e[52], Field(e, 32))
    ensures NameOf(e) == FileId(e[0..8], e[8..16])
  {
    WordIs(e, 8);
    WordIs(e, 10);
    WordIs(e, 11);
    WordIs(e, 12);
  }

  function Cut32(n: nat): (w: nat)
    ensures w < WORD_LIMIT && (n < WORD_LIMIT ==> w == n)
  {
    n % WORD_LIMIT
  }

  /** What the fields of an entry can hold of a file status. */
  function Truncated(s: Fst): Fst {
    Fst(Cut32(s.fop), Cut32(s.adbc), Cut32(s.aic), s.nlvl % 256, Cut32(s.lrecl))
  }

  function PutFst(e: Bytes, s: Fst): (r: Bytes)
    requires |e| == ENTRY
    ensures |r| == ENTRY
  {
    var origin := PutWord(PutWord(e, 8, Cut32(s.lrecl)), 10, Cut32(s.fop));
    PutWord(PutWord(origin, 11, Cut32(s.adbc)), 12, Cut32(s.aic))[52 := s.nlvl % 256]
  }

  lemma WordKeepsName(e: Bytes, i: nat, w: nat)
    requires |e| == ENTRY && 8 <= i < 13 && w < WORD_LIMIT
    ensures NameOf(PutWord(e, i, w)) == NameOf(e) && PutWord(e, i, w)[30] == e[30] && PutWord(e, i, w)[53] == e[53]
  {
    var r := PutWord(e, i, w);
    assert ByteLimit(4) == WORD_LIMIT;
    assert |ToBytes(w, 4)| == 4;
    assert r[..16] == e[..16];
    assert r[..8] == r[..16][..8] && r[8..16] == r[..16][8..16];
    assert e[..8] == e[..16][..8] && e[8..16] == e[..16][8..16];
  }

  lemma ByteKeeps(e: Bytes, x: byte)
    requires |e| == ENTRY
    ensures NameOf(e[52 := x]) == NameOf(e)
    ensures forall i: nat :: i < 13 ==> GetWord(e[52 := x], i) == GetWord(e, i)
  {
    var r := e[52 := x];
    assert r[..8] == e[..8] && r[8..16] == e[8..16];
    forall i: nat | i < 13 ensures GetWord(r, i) == GetWord(e, i) {
      assert r[4 * i..4 * i + 4] == e[4 * i..4 * i + 4];
    }
  }

  /** An entry read back says what was stored, in as many bits as it has, of the same file, whose
      record format and pointer size stay. */
  lemma EntryReadBack(e: Bytes, s: Fst)
    requires |e| == ENTRY
    ensures PutFst(e, s)[30] == e[30] && PutFst(e, s)[53] == e[53]
    ensures NameOf(PutFst(e, s)) == NameOf(e) && GetFst(PutFst(e, s)) == Truncated(s)
  {
    var l, f, a, c := Cut32(s.lrecl), Cut32(s.fop), Cut32(s.adbc), Cut32(s.aic);
    var e1 := PutWord(e, 8, l);
    var e2 := PutWord(e1, 10, f);
    var e3 := PutWord(e2, 11, a);
    var e4 := PutWord(e3, 12, c);
    WordKeepsName(e, 8, l);
    WordKeepsName(e1, 10, f);
    WordKeepsName(e2, 11, a);
    WordKeepsName(e3, 12, c);
    ByteKeeps(e4, s.nlvl % 256);
    WordAfterPut(e, 8, l, 8);
    WordAfterPut(e1, 10, f, 8);
    WordAfterPut(e1, 10, f, 10);
    WordAfterPut(e2, 11, a, 8);
    WordAfterPut(e2, 11, a, 10);
    WordAfterPut(e2, 11, a, 11);
    WordAfterPut(e3, 12, c, 8);
    WordAfterPut(e3, 12, c, 10);
    WordAfterPut(e3, 12, c, 11);
    WordAfterPut(e3, 12, c, 12);
  }

  lemma WordOnly(b: Bytes, i: nat, w: nat)
    requires 4 * i + 4 <= |b| && w < WORD_LIMIT
    ensures forall j :: 0 <= j < |b| && !(4 * i <= j < 4 * i + 4) ==> PutWord(b, i, w)[j] == b[j]
  {
    assert ByteLimit(4) == WORD_LIMIT;
    assert |ToBytes(w, 4)| == 4;
  }

  /** Storing a status changes nothing else of an entry. */
  lemma StatusOnly(e: Bytes, s: Fst)
    requires |e| == ENTRY
    ensures forall j :: 0 <= j < ENTRY && !(32 <= j < 36) && !(40 <= j <= 52) ==> PutFst(e, s)[j] == e[j]
  {
    var e1 := PutWord(e, 8, Cut32(s.lrecl));
    var e2 := PutWord(e1, 10, Cut32(s.fop));
    var e3 := PutWord(e2, 11, Cut32(s.adbc));
    WordOnly(e, 8, Cut32(s.lrecl));
    WordOnly(e1, 10, Cut32(s.fop));
    WordOnly(e2, 11, Cut32(s.adbc));
    WordOnly(e3, 12, Cut32(s.aic));
  }

  predicate NameSized(f: FileId) { |f.fn| == 8 && |f.ft| == 8 }

  /** What an entry must say of a file. */
  predicate EntryFor(e: Bytes, f: FileId, s: Fst) {
    |e| == ENTRY && NameOf(e) == f && GetFst(e) == Truncated(s)
  }

  /** No field of a new file's entry is stored there. */
  predicate Unset(j: int) {
    16 <= j < 24 || 26 <= j < 30 || j == 31 || 36 <= j < 40 || 54 <= j < 64
  }

  /** What does not change in a new entry when its status is stored: mode A1, fixed record format,
      four-byte pointers, and zeros. */
  predicate IsNew(e: Bytes) {
    && |e| == ENTRY && e[24] == 0xc1 && e[25] == 0xf1 && e[30] == 0xc6 && e[53] == 4
    && forall j :: 0 <= j < ENTRY && Unset(j) ==> e[j] == 0
  }

  method NamedEntry(f: FileId) returns (e: Bytes)
    requires NameSized(f)
    ensures IsNew(e) && NameOf(e) == f
  {
    SpliceAt(Zeros(ENTRY), 0, f.fn);
    e := Splice(Zeros(ENTRY), 0, f.fn);
    SpliceAt(e, 8, f.ft);
    e := Splice(e, 8, f.ft)[24 := 0xc1][25 := 0xf1][30 := FIXED][53 := 4];
    assert e[..8] == f.fn && e[8..16] == f.ft;
  }

  /** The entry of a new file. */
  method NewEntry(f: FileId, s: Fst) returns (e: Bytes)
    requires NameSized(f)
    ensures EntryFor(e, f, s) && IsNew(e)
  {
    e := NamedEntry(f);
    EntryReadBack(e, s);
    StatusOnly(e, s);
    e := PutFst(e, s);
  }

  // ---- The entries of a volume ----

  predicate IsEntry(rs: seq<Bytes>, i: int) {
    0 <= i < |rs| && |rs[i]| == ENTRY
  }

  predicate Names(rs: seq<Bytes>, i: int, f: FileId) {
    IsEntry(rs, i) && NameOf(rs[i]) == f
  }

  ghost predicate Listed(rs: seq<Bytes>, f: FileId) {
    exists i :: Names(rs, i, f)
  }

  /** The entries of `r` are still there, with their names, formats and pointer sizes. */
  ghost predicate Stay(r: seq<Bytes>, s: seq<Bytes>) {
    forall i {:trigger IsEntry(r, i)} {:trigger IsEntry(s, i)} :: IsEntry(r, i) ==>
      IsEntry(s, i) && NameOf(s[i]) == NameOf(r[i]) && s[i][30] == r[i][30] && s[i][53] == r[i][53]
  }

  /** The entry is up to date, if its file is one of `fsts`. */
  predicate UpToDate(rs: seq<Bytes>, i: int, fsts: Fsts)
    requires IsEntry(rs, i)
  {
    NameOf(rs[i]) in fsts ==> GetFst(rs[i]) == Truncated(fsts[NameOf(rs[i])])
  }

  /** Every file has one entry, and it says what the file's status is. */
  ghost predicate DirOk(rs: seq<Bytes>, fsts: Fsts) {
    && (forall i :: 0 <= i < |rs| ==> |rs[i]| == ENTRY)
    && (forall i, j, f :: Names(rs, i, f) && Names(rs, j, f) ==> i == j)
    && (forall f {:trigger Listed(rs, f)} :: f in fsts ==> Listed(rs, f))
    && (forall i {:trigger UpToDate(rs, i, fsts)} :: IsEntry(rs, i) ==> UpToDate(rs, i, fsts))
  }

  lemma EntryAdded(rs: seq<Bytes>, fsts: Fsts, e: Bytes, f: FileId, fst: Fst)
    requires DirOk(rs, fsts) && EntryFor(e, f, fst) && !Listed(rs, f)
    ensures DirOk(rs + [e], fsts[f := fst])
    ensures Stay(rs, rs + [e])
  {
    var n, g := rs + [e], fsts[f := fst];
    forall i, h | Names(n, i, h) ensures if i < |rs| then Names(rs, i, h) && h != f else h == f {
      if i < |rs| { assert Names(rs, i, h); }
    }
    forall h | h in g ensures Listed(n, h) {
      if h == f {
        assert Names(n, |rs|, f);
      } else {
        assert Listed(rs, h);
        var i :| Names(rs, i, h);
        assert Names(n, i, h);
      }
    }
    forall i | IsEntry(n, i) ensures UpToDate(n, i, g) {
      if i < |rs| { assert Names(rs, i, NameOf(rs[i])) && UpToDate(rs, i, fsts); }
    }
  }

  lemma EntryUpdated(rs: seq<Bytes>, fsts: Fsts, i: nat, f: FileId, fst: Fst)
    requires Names(rs, i, f) && DirOk(rs, fsts - {f})
    ensures DirOk(rs[i := PutFst(rs[i], fst)], fsts[f := fst])
    ensures Stay(rs, rs[i := PutFst(rs[i], fst)])
  {
    var n, g := rs[i := PutFst(rs[i], fst)], fsts[f := fst];
    EntryReadBack(rs[i], fst);
    forall j, h | Names(n, j, h) ensures Names(rs, j, h) {}
    forall h | h in g ensures Listed(n, h) {
      if h != f { assert h in fsts - {f} && Listed(rs, h); }
      var j :| Names(rs, j, h);
      assert Names(n, j, h);
    }
    forall j | IsEntry(n, j) ensures UpToDate(n, j, g) {
      assert Names(rs, j, NameOf(rs[j])) && UpToDate(rs, j, fsts - {f});
    }
  }

  lemma DirOkLess(rs: seq<Bytes>, a: Fsts, b: Fsts)
    requires DirOk(rs, a) && forall f :: f in b ==> f in a && b[f] == a[f]
    ensures DirOk(rs, b)
  {
    forall i | IsEntry(rs, i) ensures UpToDate(rs, i, b) { assert UpToDate(rs, i, a); }
    forall f | f in b ensures Listed(rs, f) { assert f in a; }
  }

  // ---- Entries in the directory's blocks ----

  /** Entry `m` of a directory block. */
  function SlotAt(c: Bytes, m: nat): Bytes {
    if ENTRY * m + ENTRY <= |c| then c[ENTRY * m..ENTRY * m + ENTRY] else []
  }

  predicate SlotNamed(c: Bytes, m: nat, f: FileId) {
    |SlotAt(c, m)| == ENTRY && NameOf(SlotAt(c, m)) == f
  }

  predicate VolSlot(v: Vol, b: nat, m: nat, f: FileId) {
    SlotNamed(Content(v, Key(DIRECTOR, 0, b)), m, f)
  }

  /** No entry before entry `m` of block `b` has the name. */
  ghost predicate NoneBefore(v: Vol, nfst: nat, f: FileId, b: nat, m: nat) {
    forall c: nat, j: nat {:trigger VolSlot(v, c, j, f)} :: (c < b && j < nfst) || (c == b && j < m) ==>
      !VolSlot(v, c, j, f)
  }

  /** Block and number of the first entry with the name in the first `n` blocks, if there is one. */
  ghost predicate FirstNamed(v: Vol, nfst: nat, f: FileId, n: nat, r: Option<(nat, nat)>) {
    match r
    case None => NoneBefore(v, nfst, f, n, 0)
    case Some((b, m)) => b < n && m < nfst && VolSlot(v, b, m, f) && NoneBefore(v, nfst, f, b, m)
  }

  lemma PlaceOfRecord(i: nat, nfst: nat)
    requires nfst > 0
    ensures Mod(i, nfst) < nfst && i * ENTRY == Div(i, nfst) * (ENTRY * nfst) + ENTRY * Mod(i, nfst)
  {
    DivIs(i, nfst);
    var q := Div(i, nfst);
    assert q * nfst * ENTRY == q * (ENTRY * nfst);
  }

  lemma SizeOfRecords(aic: nat, lrecl: nat, size: nat, i: nat)
    requires size > 0 && i < aic
    ensures i * lrecl + lrecl <= aic * lrecl <= CeilDiv(aic * lrecl, size) * size
  {
    MulMono(i + 1, aic, lrecl);
    MulStep(i, lrecl);
    if aic * lrecl > 0 { CeilBounds(aic * lrecl, size); }
  }

  /** Record `i` of the directory is entry `i % nfst` of block `i / nfst`. */
  lemma SlotIsRecord(v: Vol, g: Geo, fst: Fst, rs: seq<Bytes>, nfst: nat, i: nat)
    requires RecordsOk(v, g, DIRECTOR, fst, rs) && fst.lrecl == ENTRY && g.Size() == ENTRY * nfst && i < |rs|
    ensures nfst > 0 && Div(i, nfst) < fst.adbc && Mod(i, nfst) < nfst
    ensures SlotAt(Content(v, Key(DIRECTOR, 0, Div(i, nfst))), Mod(i, nfst)) == rs[i]
  {
    var q, m, s := Div(i, nfst), Mod(i, nfst), g.Size();
    PlaceOfRecord(i, nfst);
    SizeOfRecords(fst.aic, ENTRY, s, i);
    ConcatAt(rs, ENTRY, i);
    DataAt(v, s, DIRECTOR, fst.adbc, q, ENTRY * m, ENTRY, i * ENTRY);
  }

  /** The first entry with a listed name is the file's record. */
  lemma FirstSlot(v: Vol, g: Geo, fst: Fst, rs: seq<Bytes>, fsts: Fsts, nfst: nat, f: FileId, i: nat,
      r: Option<(nat, nat)>)
    requires RecordsOk(v, g, DIRECTOR, fst, rs) && fst.lrecl == ENTRY && g.Size() == ENTRY * nfst
    requires DirOk(rs, fsts) && Names(rs, i, f)
    requires FirstNamed(v, nfst, f, fst.adbc, r)
    ensures nfst > 0 && r == Some((Div(i, nfst), Mod(i, nfst)))
  {
    SlotIsRecord(v, g, fst, rs, nfst, i);
    var q, m := Div(i, nfst), Mod(i, nfst);
    assert VolSlot(v, q, m, f);
    var k := NotAfter(r.value.0, r.value.1, i, nfst);
    SlotIsRecord(v, g, fst, rs, nfst, k);
    assert Names(rs, k, f);
  }

  /** The number of an entry that is not after number `i`. */
  lemma NotAfter(b: nat, j: nat, i: nat, nfst: nat) returns (k: nat)
    requires j < nfst && (b < Div(i, nfst) || (b == Div(i, nfst) && j <= Mod(i, nfst)))
    ensures k <= i && Div(k, nfst) == b && Mod(k, nfst) == j
  {
    DivIs(i, nfst);
    MulMono(b + 1, Div(i, nfst), nfst);
    MulStep(b, nfst);
    DivPair(b, j, nfst);
    k := b * nfst + j;
  }

  /** First entry of a block with the name. */
  method ScanEntries(buf: Bytes, nfst: nat, f: FileId) returns (m: nat)
    requires |buf| == ENTRY * nfst
    ensures m <= nfst && (m < nfst ==> SlotNamed(buf, m, f))
    ensures forall j: nat :: j < m ==> !SlotNamed(buf, j, f)
  {
    m := 0;
    while m < nfst
      invariant m <= nfst && forall j: nat :: j < m ==> !SlotNamed(buf, j, f)
    {
      if buf[ENTRY * m..ENTRY * m + 8] == f.fn && buf[ENTRY * m + 8..ENTRY * m + 16] == f.ft {
        SlotName(buf, m);
        return;
      }
      SlotName(buf, m);
      m := m + 1;
    }
  }

  lemma SlotName(c: Bytes, m: nat)
    requires ENTRY * m + ENTRY <= |c|
    ensures NameOf(SlotAt(c, m)) == FileId(c[ENTRY * m..ENTRY * m + 8], c[ENTRY * m + 8..ENTRY * m + 16])
  {
    var at: nat := ENTRY * m;
    assert SlotAt(c, m) == c[at..at + ENTRY];
    assert c[at..at + ENTRY][..8] == c[at..at + 8] && c[at..at + ENTRY][8..16] == c[at + 8..at + 16];
  }

  // ---- The directory as one of the files ----

  predicate FixedEntry(rs: seq<Bytes>, i: int, f: FileId) {
    Names(rs, i, f) && rs[i][30] == FIXED
  }

  /** The directory's first entry is its own, the second the allocation map's, its first block is where
      the volume's label says, and its entries are up to date. */
  ghost predicate DirectoryOk(v: Vol, g: Geo, nfst: nat, dop: nat, fsts: Fsts, recs: Recs) {
    DirShape(v, g, nfst, dop, fsts, recs) && DirOk(recs[DIRECTOR], fsts)
  }

  ghost predicate DirShape(v: Vol, g: Geo, nfst: nat, dop: nat, fsts: Fsts, recs: Recs) {
    && DIRECTOR in fsts && DIRECTOR in recs && fsts[DIRECTOR].lrecl == ENTRY && fsts[DIRECTOR].adbc > 0
    && g.Size() == ENTRY * nfst && nfst >= 2 && LbaAt(v, Key(DIRECTOR, 0, 0)) == dop
    && FixedEntry(recs[DIRECTOR], 0, DIRECTOR) && FixedEntry(recs[DIRECTOR], 1, ALLOCMAP)
  }

  /** The directory keeps its place while files grow. */
  lemma ShapeKept(v: Vol, x: Vol, g: Geo, origin: Disk, nfst: nat, dop: nat, a: Fsts, b: Fsts, r: Recs, s: Recs)
    requires FilesOk(v, g, origin, a, r) && DirShape(v, g, nfst, dop, a, r) && LbasKept(v, x)
    requires DIRECTOR in b && DIRECTOR in s && b[DIRECTOR].lrecl == ENTRY && b[DIRECTOR].adbc > 0
    requires Stay(r[DIRECTOR], s[DIRECTOR])
    ensures DirShape(x, g, nfst, dop, b, s)
  {
    assert HasFile(v, g, origin, a, r, DIRECTOR);
    assert Key(DIRECTOR, 0, 0) in v.bm;
    assert IsEntry(s[DIRECTOR], 0) && IsEntry(s[DIRECTOR], 1);
  }

  /** Looking at blocks changes no file. */
  lemma SameFiles(v: Vol, w: Vol, g: Geo, origin: Disk, fsts: Fsts, recs: Recs)
    requires FilesOk(v, g, origin, fsts, recs) && SameView(v, w)
    ensures FilesOk(w, g, origin, fsts, recs)
  {
    assert forall k: Key :: Content(w, k) == Content(v, k) && LbaAt(w, k) == LbaAt(v, k);
    forall f | f in fsts ensures HasFile(w, g, origin, fsts, recs, f) {
      assert HasFile(v, g, origin, fsts, recs, f);
      TreeFrame(v, w, g, origin, f, fsts[f]);
      RecordsFrame(v, w, g, f, fsts[f], recs[f]);
    }
  }

  /** An entry overwritten in its block. */
  lemma EntryStored(v: Vol, x: Vol, g: Geo, origin: Disk, fsts: Fsts, recs: Recs, i: nat, e: Bytes)
    requires FilesOk(v, g, origin, fsts, recs) && DIRECTOR in fsts && DIRECTOR in recs && fsts[DIRECTOR].lrecl == ENTRY
    requires i < |recs[DIRECTOR]| && |e| == ENTRY && Retouched(v, x, DIRECTOR)
    requires BlocksSized(x, g.Size(), DIRECTOR, fsts[DIRECTOR].adbc)
    requires i * ENTRY + ENTRY <= |DataBytes(v, DIRECTOR, fsts[DIRECTOR].adbc)|
    requires DataBytes(x, DIRECTOR, fsts[DIRECTOR].adbc) ==
      Splice(DataBytes(v, DIRECTOR, fsts[DIRECTOR].adbc), i * ENTRY, e)
    ensures FilesOk(x, g, origin, fsts, recs[DIRECTOR := recs[DIRECTOR][i := e]])
  {
    var fst, rs := fsts[DIRECTOR], recs[DIRECTOR];
    assert HasFile(v, g, origin, fsts, recs, DIRECTOR);
    RecordReplaced(v, x, g, DIRECTOR, fst, rs, i, e, i * ENTRY);
    RetouchedTree(v, x, g, origin, DIRECTOR, fst);
    FilesAfter(v, x, g, origin, fsts, recs, DIRECTOR, fst, rs[i := e]);
    assert fsts[DIRECTOR := fst] == fsts;
  }
}
