/** Writing an unloaded file to the volume as fixed-length records (installer/cpio.c, save_file). */
module SaveFile {
  import opened Common
  import opened Ceiling
  import opened EdfVolume
  import opened EdfTree
  import opened EdfRecords
  import opened EdfDirectory
  import opened EdfInstaller

  function Convert(data: Bytes, text: bool, ebcdic: byte -> byte): (r: Bytes)
    ensures |r| == |data|
  {
    if text then seq(|data|, i requires 0 <= i < |data| => ebcdic(data[i])) else data
  }

  /** `data` filled up with zeros to whole records. */
  function Padded(data: Bytes, lrecl: nat): Bytes
    requires lrecl > 0
  {
    if Mod(|data|, lrecl) == 0 then data else data + Zeros(lrecl - Mod(|data|, lrecl))
  }

  /** The bytes a file of that record length gets: the contents, each byte converted if they are text,
      and as few zeros as make whole records. */
  ghost predicate Holds(data: Bytes, lrecl: nat, contents: Bytes, text: bool, ebcdic: byte -> byte)
    requires lrecl > 0
  {
    && |contents| <= |data| < |contents| + lrecl && |data| % lrecl == 0
    && (forall i :: 0 <= i < |contents| ==> data[i] == if text then ebcdic(contents[i]) else contents[i])
    && (forall i :: |contents| <= i < |data| ==> data[i] == 0)
  }

  lemma PaddedHolds(lrecl: nat, contents: Bytes, text: bool, ebcdic: byte -> byte)
    requires lrecl > 0
    ensures Holds(Padded(Convert(contents, text, ebcdic), lrecl), lrecl, contents, text, ebcdic)
  {
    var n := |contents|;
    var d := Padded(Convert(contents, text, ebcdic), lrecl);
    DivIs(n, lrecl);
    var q := if Mod(n, lrecl) == 0 then Div(n, lrecl) else Div(n, lrecl) + 1;
    MulStep(Div(n, lrecl), lrecl);
    MulStep(q, lrecl);
    assert |d| == q * lrecl;
    DivUnique(|d|, lrecl, q);
  }

  lemma RecordBounds(n: nat, size: nat, lrecl: nat)
    requires lrecl > 0 && n < Div(size, lrecl)
    ensures n * lrecl + lrecl <= size && (n + 1) * lrecl == n * lrecl + lrecl
  {
    DivIs(size, lrecl);
    MulMono(n + 1, Div(size, lrecl), lrecl);
    MulStep(n, lrecl);
  }

  /** The records of all files are as in `others`, but for file `f` and the directory. */
  ghost predicate Beside(recs: map<FileId, seq<Bytes>>, others: map<FileId, seq<Bytes>>, f: FileId) {
    recs.Keys == others.Keys + {f} && forall h :: h in others && h != f && h != DIRECTOR ==> recs[h] == others[h]
  }

  /** File `f` holds `data`, and the other files are as in `others`. */
  ghost predicate Saved(inst: Installer, f: FileId, lrecl: nat, others: map<FileId, seq<Bytes>>, data: Bytes)
    reads inst
  {
    && inst.Valid() && f in inst.fsts && f in inst.recs && f != DIRECTOR && inst.fsts[f].lrecl == lrecl
    && Beside(inst.recs, others, f) && Concat(inst.recs[f]) == data
  }

  /** An entry of the directory's blocks has the name. */
  ghost predicate Named(inst: Installer, f: FileId)
    reads inst
  {
    DIRECTOR in inst.fsts && exists b: nat, m: nat ::
      b < inst.fsts[DIRECTOR].adbc && m < inst.nfst && VolSlot(inst.vol, b, m, f)
  }

  method AppendPart(inst: Installer, f: FileId, lrecl: nat, rec: Bytes, ghost others: map<FileId, seq<Bytes>>,
      ghost data: Bytes)
      returns (ok: bool)
    requires Saved(inst, f, lrecl, others, data) && |rec| == lrecl
    modifies inst
    ensures inst.vol.disk == old(inst.vol.disk)
    ensures ok ==> Saved(inst, f, lrecl, others, data + rec)
    ensures !ok ==> inst.g.ptrs > 0 && Full(inst.vol, inst.g)
  {
    ConcatSnoc(inst.recs[f], rec);
    ok := inst.AppendRecord(f, rec);
  }

  /** The record at `at` of the data. */
  method AppendSlice(inst: Installer, f: FileId, lrecl: nat, data: Bytes, at: nat,
      ghost others: map<FileId, seq<Bytes>>) returns (ok: bool)
    requires at + lrecl <= |data| && Saved(inst, f, lrecl, others, data[..at])
    modifies inst
    ensures inst.vol.disk == old(inst.vol.disk)
    ensures ok ==> Saved(inst, f, lrecl, others, data[..at + lrecl])
    ensures !ok ==> inst.g.ptrs > 0 && Full(inst.vol, inst.g)
  {
    assert data[..at] + data[at..at + lrecl] == data[..at + lrecl];
    ok := AppendPart(inst, f, lrecl, data[at..at + lrecl], others, data[..at]);
  }

  /** The whole records. */
  method AppendWhole(inst: Installer, f: FileId, lrecl: nat, data: Bytes, ghost others: map<FileId, seq<Bytes>>)
      returns (ok: bool)
    requires Saved(inst, f, lrecl, others, []) && lrecl > 0
    modifies inst
    ensures inst.vol.disk == old(inst.vol.disk)
    ensures ok ==> Saved(inst, f, lrecl, others, data[..|data| - Mod(|data|, lrecl)])
    ensures !ok ==> inst.g.ptrs > 0 && Full(inst.vol, inst.g)
  {
    DivIs(|data|, lrecl);
    var at := 0;
    for rec := 0 to Div(|data|, lrecl)
      invariant at == rec * lrecl <= |data| && inst.vol.disk == old(inst.vol.disk)
      invariant Saved(inst, f, lrecl, others, data[..at])
    {
      RecordBounds(rec, |data|, lrecl);
      ok := AppendSlice(inst, f, lrecl, data, at, others);
      if !ok { return; }
      at := at + lrecl;
    }
    ok := true;
  }

  /** Create the file and append the contents record by record, the last one filled up with zeros.
      False: the name was found in the directory, or the volume is full; nothing was written to the disk. */
  method Save(inst: Installer, f: FileId, lrecl: nat, contents: Bytes, text: bool, ebcdic: byte -> byte)
      returns (ok: bool)
    requires inst.Valid() && NameSized(f) && 1 <= lrecl <= inst.g.Size()
    modifies inst
    ensures inst.vol.disk == old(inst.vol.disk)
    ensures ok ==>
      f !in old(inst.fsts) && Saved(inst, f, lrecl, old(inst.recs), Padded(Convert(contents, text, ebcdic), lrecl))
    ensures ok ==> Holds(Concat(inst.recs[f]), lrecl, contents, text, ebcdic)
    ensures !ok ==> (Named(inst, f) && inst.recs == old(inst.recs)) || (inst.g.ptrs > 0 && Full(inst.vol, inst.g))
  {
    var found := inst.FindFile(f);
    if found.Some? { return false; }
    ghost var others := inst.recs;
    PaddedHolds(lrecl, contents, text, ebcdic);
    ok := inst.CreateFile(f, lrecl);
    if !ok { return; }
    ok := AppendAll(inst, f, lrecl, Convert(contents, text, ebcdic), others);
  }

  method AppendAll(inst: Installer, f: FileId, lrecl: nat, data: Bytes, ghost others: map<FileId, seq<Bytes>>)
      returns (ok: bool)
    requires Saved(inst, f, lrecl, others, []) && lrecl > 0
    modifies inst
    ensures inst.vol.disk == old(inst.vol.disk)
    ensures ok ==> Saved(inst, f, lrecl, others, Padded(data, lrecl))
    ensures !ok ==> inst.g.ptrs > 0 && Full(inst.vol, inst.g)
  {
    ok := AppendWhole(inst, f, lrecl, data, others);
    if !ok { return; }
    var rest := Mod(|data|, lrecl);
    DivIs(|data|, lrecl);
    var at := |data| - rest;
    assert data[..at] + data[at..] == data;
    if rest != 0 {
      assert data[..at] + (data[at..] + Zeros(lrecl - rest)) == data + Zeros(lrecl - rest);
      ok := AppendPart(inst, f, lrecl, data[at..] + Zeros(lrecl - rest), others, data[..at]);
    }
  }
}
