/** The installer's whole work: unload an archive from cards, save its files, write the volume back;
    and what the hypervisor then reads (installer/cpio.c, installer/edf.c, cp/fs/edf.c). */
module Unload {
  import opened Common
  import opened Ceiling
  import opened EdfVolume
  import opened EdfRecords
  import opened EdfDirectory
  import opened EdfFiles
  import opened EdfInstaller
  import opened SaveFile
  import Cpio
  import EdfReader

  /** Where an archive member goes: the file, its record length, and whether it is text. */
  datatype Target = Target(file: FileId, lrecl: nat, text: bool)

  /** The installer's table, as the choice it makes for each member. */
  type Table = Cpio.Member -> Option<Target>

  ghost predicate TableOk(table: Table, size: nat) {
    forall m :: table(m).Some? ==> NameSized(table(m).value.file) && 1 <= table(m).value.lrecl <= size
  }

  /** The contents a member's file gets. */
  function Contents(m: Cpio.Member, t: Target, ebcdic: byte -> byte): (data: Bytes)
    requires t.lrecl > 0
    ensures Holds(data, t.lrecl, m.contents, t.text, ebcdic)
  {
    PaddedHolds(t.lrecl, m.contents, t.text, ebcdic);
    Padded(Convert(m.contents, t.text, ebcdic), t.lrecl)
  }

  /** If the table selects the member its file is there, and has its contents. */
  ghost predicate IsSaved(inst: Installer, m: Cpio.Member, table: Table, ebcdic: byte -> byte)
    reads inst
  {
    table(m).Some? ==>
      var t := table(m).value;
      && t.lrecl > 0 && t.file in inst.fsts && t.file in inst.recs && t.file != DIRECTOR
      && Concat(inst.recs[t.file]) == Contents(m, t, ebcdic)
  }

  ghost predicate AllSaved(inst: Installer, ms: seq<Cpio.Member>, table: Table, ebcdic: byte -> byte)
    reads inst
  {
    inst.Valid() && forall i :: 0 <= i < |ms| ==> IsSaved(inst, ms[i], table, ebcdic)
  }

  /** Save one member, if the table selects it. */
  method SaveMember(inst: Installer, m: Cpio.Member, table: Table, ebcdic: byte -> byte, ghost ms: seq<Cpio.Member>)
      returns (ok: bool)
    requires AllSaved(inst, ms, table, ebcdic) && TableOk(table, inst.g.Size())
    modifies inst
    ensures inst.vol.disk == old(inst.vol.disk)
    ensures ok ==> AllSaved(inst, ms + [m], table, ebcdic)
  {
    if table(m).None? { return true; }
    var t := table(m).value;
    ok := Save(inst, t.file, t.lrecl, m.contents, t.text, ebcdic);
    if !ok { return; }
    assert forall i :: 0 <= i < |ms| ==> old(IsSaved(inst, ms[i], table, ebcdic));
    forall i | 0 <= i < |ms| + 1 ensures IsSaved(inst, (ms + [m])[i], table, ebcdic) {}
  }

  /** Card by card, each member is saved as it is read, until the trailer. */
  method SaveAll(inst: Installer, coding: Coding, stream: Bytes, table: Table, ebcdic: byte -> byte) returns (ok: bool)
    requires inst.Valid() && Mod(|stream|, Cpio.CARD) == 0 && TableOk(table, inst.g.Size())
    modifies inst
    ensures inst.vol.disk == old(inst.vol.disk)
    ensures ok ==> Cpio.Parse(coding, stream).Some? && AllSaved(inst, Cpio.Parse(coding, stream).value, table, ebcdic)
  {
    var pos, buf := 0, [];
    ghost var used, visited: seq<Cpio.Member> := 0, [];
    assert stream[0..] == stream;
    Cpio.PrependUnits(visited, Cpio.Parse(coding, stream));
    while true
      invariant Cpio.Buffered(stream, used, pos, buf) && inst.vol.disk == old(inst.vol.disk)
      invariant Cpio.Parse(coding, stream) == Cpio.Prepend(visited, Cpio.Parse(coding, stream[used..]))
      invariant AllSaved(inst, visited, table, ebcdic)
      decreases |stream| - used
    {
      var r;
      r, pos, buf := Cpio.ReadMember(coding, stream, used, pos, buf);
      if r.Short? { return false; }
      if r.End? {
        Cpio.PrependUnits(visited, None);
        return true;
      }
      assert stream[used..][r.taken..] == stream[used + r.taken..];
      Cpio.Visit(visited, r.member, Cpio.Parse(coding, stream[used + r.taken..]));
      ok := SaveMember(inst, r.member, table, ebcdic, visited);
      if !ok { return; }
      visited, used := visited + [r.member], used + r.taken;
    }
  }

  /** Save everything, then write the buffers back. False: the cards ran out, a name was there already,
      or the volume is full; the disk is unchanged. */
  method UnloadVolume(inst: Installer, coding: Coding, stream: Bytes, table: Table, ebcdic: byte -> byte)
      returns (ok: bool)
    requires inst.Valid() && Mod(|stream|, Cpio.CARD) == 0 && TableOk(table, inst.g.Size())
    modifies inst
    ensures ok ==> Cpio.Parse(coding, stream).Some? && Synced(inst.vol)
    ensures ok ==> AllSaved(inst, Cpio.Parse(coding, stream).value, table, ebcdic)
    ensures !ok ==> inst.vol.disk == old(inst.vol.disk)
    ensures forall lba {:trigger DiskAt(inst.vol.disk, lba)} :: MappedOnlyIn(inst.vol, {}, lba) ==>
      DiskAt(inst.vol.disk, lba) == DiskAt(old(inst.vol.disk), lba)
  {
    ok := SaveAll(inst, coding, stream, table, ebcdic);
    if ok { inst.WritebackBuffers(); }
  }

  /** What the reader finds of an archive member on the volume: from the disk and the directory's place
      alone it finds the member's file, and its data starts with the member's contents. */
  lemma UnloadedReadsBack(inst: Installer, ms: seq<Cpio.Member>, i: nat, table: Table, ebcdic: byte -> byte)
    requires AllSaved(inst, ms, table, ebcdic) && Synced(inst.vol) && i < |ms| && table(ms[i]).Some?
    requires EdfReader.Reaches(inst, DIRECTOR) && EdfReader.Reaches(inst, table(ms[i]).value.file)
    ensures var t, d, p := table(ms[i]).value, inst.vol.disk, inst.g.ptrs;
      var dir := EdfReader.RootFst(d, inst.dop);
      dir.Ok? &&
      var fst := EdfReader.LookupFrom(d, p, inst.nfst, dir.value, t.file, 0);
      fst.Ok? &&
      var data := EdfReader.ReadData(d, p, fst.value, fst.value.adbc);
      data.Ok? && t.lrecl > 0 && Contents(ms[i], t, ebcdic) <= data.value
  {
    assert IsSaved(inst, ms[i], table, ebcdic);
    EdfReader.InstalledReadsBack(inst, table(ms[i]).value.file);
  }
}
