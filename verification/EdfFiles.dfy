/** All the files of a volume together: every file has its tree and its records, and changing
    one file leaves the others as they were. */
module EdfFiles {
  import opened Common
  import opened Ceiling
  import opened EdfVolume
  import opened EdfTree
  import opened EdfGrow
  import opened EdfRecords

  type Fsts = map<FileId, Fst>
  type Recs = map<FileId, seq<Bytes>>

  ghost predicate FileOk(v: Vol, g: Geo, origin: Disk, f: FileId, fst: Fst, rs: seq<Bytes>) {
    g.Ok() && f != ALLOCMAP && Tree(v, g, origin, f, fst) && RecordsOk(v, g, f, fst, rs)
  }

  ghost predicate HasFile(v: Vol, g: Geo, origin: Disk, fsts: Fsts, recs: Recs, f: FileId)
    requires f in fsts && f in recs
  {
    FileOk(v, g, origin, f, fsts[f], recs[f])
  }

  ghost predicate FilesOk(v: Vol, g: Geo, origin: Disk, fsts: Fsts, recs: Recs) {
    && recs.Keys == fsts.Keys
    && (forall f {:trigger HasFile(v, g, origin, fsts, recs, f)} :: f in fsts ==> HasFile(v, g, origin, fsts, recs, f))
    && (forall k {:trigger k in v.bm} :: k in v.bm ==> k.file == ALLOCMAP || k.file in fsts)
  }

  /** Only file `f` and the allocation map changed, and only in the block map. */
  ghost predicate OnlyFile(v: Vol, x: Vol, f: FileId) {
    && x.disk == v.disk && LbasKept(v, x)
    && (forall k {:trigger k in x.bm} :: k in x.bm && k !in v.bm ==> k.file == f)
    && (forall k: Key {:trigger Content(x, k)} :: k in v.bm && k.file != f && k.file != ALLOCMAP ==>
      Content(x, k) == Content(v, k))
  }

  lemma RetouchedTree(w: Vol, x: Vol, g: Geo, origin: Disk, f: FileId, fst: Fst)
    requires g.ptrs > 0 && Tree(w, g, origin, f, fst) && Retouched(w, x, f)
    ensures Tree(x, g, origin, f, fst)
  {
    TreeFrame(w, x, g, origin, f, fst);
  }

  /** A file is untouched by what happens to another one. */
  lemma OtherFile(v: Vol, x: Vol, g: Geo, origin: Disk, f: FileId, h: FileId, fst: Fst, rs: seq<Bytes>)
    requires FileOk(v, g, origin, h, fst, rs) && OnlyFile(v, x, f) && h != f
    ensures FileOk(x, g, origin, h, fst, rs)
  {
    TreeFrame(v, x, g, origin, h, fst);
    forall b: nat | b < fst.adbc ensures Content(x, Key(h, 0, b)) == Content(v, Key(h, 0, b)) {
      assert Key(h, 0, b) in v.bm;
    }
    RecordsFrame(v, x, g, h, fst, rs);
  }

  /** Changing one file keeps all the others. */
  lemma FilesAfter(v: Vol, x: Vol, g: Geo, origin: Disk, fsts: Fsts, recs: Recs, f: FileId, fst: Fst, rs: seq<Bytes>)
    requires FilesOk(v, g, origin, fsts, recs) && OnlyFile(v, x, f)
    requires FileOk(x, g, origin, f, fst, rs)
    ensures FilesOk(x, g, origin, fsts[f := fst], recs[f := rs])
  {
    var fs, cs := fsts[f := fst], recs[f := rs];
    forall h | h in fs ensures HasFile(x, g, origin, fs, cs, h) {
      if h != f {
        assert HasFile(v, g, origin, fsts, recs, h);
        OtherFile(v, x, g, origin, f, h, fsts[h], recs[h]);
      }
    }
    forall k | k in x.bm ensures k.file == ALLOCMAP || k.file in fs { assert k in v.bm || k.file == f; }
  }

  /** After the appended record's bytes are in place the file has one record more. */
  lemma FileAfter(v: Vol, w: Vol, x: Vol, g: Geo, origin: Disk, f: FileId, a: Fst, b: Fst, rs: seq<Bytes>, rec: Bytes)
    requires FileOk(v, g, origin, f, a, rs) && |rec| == a.lrecl
    requires Tree(w, g, origin, f, b) && Extends(v, w, f) && Retouched(w, x, f) && b.aic == a.aic && b.lrecl == a.lrecl
    requires b.adbc == if a.adbc * g.Size() - a.aic * a.lrecl < a.lrecl then a.adbc + 1 else a.adbc
    requires BlocksSized(x, g.Size(), f, b.adbc) && a.aic * a.lrecl + |rec| <= |DataBytes(w, f, b.adbc)|
    requires DataBytes(x, f, b.adbc) == Splice(DataBytes(w, f, b.adbc), a.aic * a.lrecl, rec)
    ensures FileOk(x, g, origin, f, b.(aic := b.aic + 1), rs + [rec])
  {
    forall i: nat | i < a.adbc ensures Content(w, Key(f, 0, i)) == Content(v, Key(f, 0, i)) {
      assert Key(f, 0, i) in v.bm;
    }
    DataGrows(v, w, f, a.adbc, b.adbc);
    RecordsExtend(v, x, g, f, a, rs, rec, b.adbc, DataBytes(w, f, b.adbc), a.aic * a.lrecl);
    RetouchedTree(w, x, g, origin, f, b);
  }

  // ---- Write-back ----

  ghost predicate MappedOnlyIn(v: Vol, todo: set<Key>, lba: nat) {
    forall k {:trigger MappedAt(v, k, lba)} :: MappedAt(v, k, lba) ==> k in todo
  }

  /** All blocks but those of `todo` are on the disk as they are seen in the block map; blocks
      of the disk that none of the others is mapped to are unchanged. */
  ghost predicate WrittenBut(v: Vol, d: Disk, todo: set<Key>) {
    && (forall k {:trigger Content(v, k)} :: k in v.bm && k !in todo ==> DiskAt(d, v.bm[k].lba) == Content(v, k))
    && (forall lba {:trigger DiskAt(d, lba)} :: MappedOnlyIn(v, todo, lba) ==> DiskAt(d, lba) == DiskAt(v.disk, lba))
  }

  /** The disk holds what the block map shows. */
  ghost predicate Synced(v: Vol) {
    forall k {:trigger Content(v, k)} :: k in v.bm ==> DiskAt(v.disk, v.bm[k].lba) == Content(v, k)
  }

  lemma WriteOne(v: Vol, g: Geo, d: Disk, e: Disk, todo: set<Key>, k: Key)
    requires EntriesOk(v, g) && NoAlias(v) && WrittenBut(v, d, todo) && k in todo && k in v.bm
    requires if v.bm[k].dirty then v.bm[k].buf.Some? && e == d[v.bm[k].lba := v.bm[k].buf.value] else e == d
    ensures WrittenBut(v, e, todo - {k})
  {
    var lba := v.bm[k].lba;
    assert EntryOk(v, g, k) && MappedAt(v, k, lba);
    forall x | x in v.bm && x !in todo - {k} ensures DiskAt(e, v.bm[x].lba) == Content(v, x) {
      assert MappedAt(v, x, v.bm[x].lba);
      if x == k && !v.bm[k].dirty {
        assert MappedOnlyIn(v, todo, lba);
        assert DiskAt(d, lba) == DiskAt(v.disk, lba);
      }
    }
    forall l | MappedOnlyIn(v, todo - {k}, l) ensures DiskAt(e, l) == DiskAt(v.disk, l) {
      assert l != lba;
      assert MappedOnlyIn(v, todo, l);
      assert DiskAt(d, l) == DiskAt(v.disk, l);
    }
  }

  lemma OnlyMapped(v: Vol, x: Vol)
    requires x.bm == v.bm && WrittenBut(v, x.disk, {})
    ensures forall lba {:trigger DiskAt(x.disk, lba)} :: MappedOnlyIn(x, {}, lba) ==>
      DiskAt(x.disk, lba) == DiskAt(v.disk, lba)
  {
    forall lba | MappedOnlyIn(x, {}, lba) ensures DiskAt(x.disk, lba) == DiskAt(v.disk, lba) {
      forall k ensures MappedAt(v, k, lba) <==> MappedAt(x, k, lba) {}
      assert MappedOnlyIn(v, {}, lba);
    }
  }

  lemma WrittenView(v: Vol, x: Vol, g: Geo)
    requires EntriesOk(v, g) && x.bm == v.bm && WrittenBut(v, x.disk, {})
    ensures forall k :: Content(x, k) == Content(v, k)
    ensures Synced(x) && EntriesOk(x, g)
  {
    forall k ensures Content(x, k) == Content(v, k) {}
    forall k | k in x.bm ensures EntryOk(x, g, k) {
      assert EntryOk(v, g, k) && Content(v, k) == DiskAt(x.disk, v.bm[k].lba);
    }
  }

  lemma WrittenDisk(v: Vol, x: Vol, g: Geo, origin: Disk)
    requires VolOk(v, g, origin) && x.bm == v.bm && WrittenBut(v, x.disk, {})
    ensures DiskOk(x.disk, g) && FreeUntouched(x, g, origin)
  {
    WrittenView(v, x, g);
    forall l: nat | InRange(g, l) ensures SizedAt(x.disk, g, l) && (!Used(x, g, l) ==> UntouchedAt(x, origin, l)) {
      if k :| MappedAt(v, k, l) {
        ContentSized(v, g, k);
        assert Content(v, k) == DiskAt(x.disk, l);
      } else {
        assert MappedOnlyIn(v, {}, l);
        assert SizedAt(v.disk, g, l) && DiskAt(x.disk, l) == DiskAt(v.disk, l);
        assert !Used(v, g, l) ==> UntouchedAt(v, origin, l);
      }
    }
  }

  /** Writing back changes nothing that the files see. */
  lemma WrittenOk(v: Vol, x: Vol, g: Geo, origin: Disk, fsts: Fsts, recs: Recs)
    requires VolOk(v, g, origin) && FilesOk(v, g, origin, fsts, recs)
    requires x.bm == v.bm && WrittenBut(v, x.disk, {})
    ensures VolOk(x, g, origin) && FilesOk(x, g, origin, fsts, recs) && Synced(x)
  {
    WrittenView(v, x, g);
    WrittenDisk(v, x, g, origin);
    assert AllUsed(x, g) && NoAlias(x) by {
      assert forall k, lba {:trigger MappedAt(x, k, lba)} :: MappedAt(x, k, lba) <==> MappedAt(v, k, lba);
    }
    forall f | f in fsts ensures HasFile(x, g, origin, fsts, recs, f) {
      assert HasFile(v, g, origin, fsts, recs, f);
      TreeFrame(v, x, g, origin, f, fsts[f]);
      RecordsFrame(v, x, g, f, fsts[f], recs[f]);
    }
  }
}
