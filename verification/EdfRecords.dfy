/** Fixed-length records laid over the data blocks of a file. */
module EdfRecords {
  import opened Common
  import opened Ceiling
  import opened EdfVolume
  import opened EdfTree

  /** The first `n` data blocks of a file, end to end. */
  function DataBytes(v: Vol, f: FileId, n: nat): Bytes {
    if n == 0 then [] else DataBytes(v, f, n - 1) + Content(v, Key(f, 0, n - 1))
  }

  function Concat(rs: seq<Bytes>): Bytes {
    if |rs| == 0 then [] else Concat(rs[..|rs| - 1]) + rs[|rs| - 1]
  }

  ghost predicate BlocksSized(v: Vol, s: nat, f: FileId, n: nat) {
    forall b: nat :: b < n ==> |Content(v, Key(f, 0, b))| == s
  }

  /** The file's data starts with its records and has no more blocks than they need. */
  ghost predicate RecordsOk(v: Vol, g: Geo, f: FileId, fst: Fst, rs: seq<Bytes>) {
    g.ptrs > 0 && Laid(v, g.Size(), f, fst, rs, fst.aic * fst.lrecl)
  }

  /** The records' `len` bytes in blocks of `s` bytes. */
  ghost predicate Laid(v: Vol, s: nat, f: FileId, fst: Fst, rs: seq<Bytes>, len: nat) {
    && 1 <= fst.lrecl <= s
    && |rs| == fst.aic && (forall r :: 0 <= r < |rs| ==> |rs[r]| == fst.lrecl)
    && BlocksSized(v, s, f, fst.adbc)
    && fst.adbc == CeilDiv(len, s)
    && |Concat(rs)| == len
    && Concat(rs) <= DataBytes(v, f, fst.adbc)
  }

  lemma {:induction false} DataSize(v: Vol, s: nat, f: FileId, n: nat)
    requires BlocksSized(v, s, f, n)
    ensures |DataBytes(v, f, n)| == n * s
  {
    if n > 0 {
      DataSize(v, s, f, n - 1);
      assert n * s == (n - 1) * s + s;
    }
  }

  lemma {:induction false} DataFrame(v: Vol, w: Vol, f: FileId, n: nat)
    requires forall b: nat :: b < n ==> Content(w, Key(f, 0, b)) == Content(v, Key(f, 0, b))
    ensures DataBytes(w, f, n) == DataBytes(v, f, n)
  {
    if n > 0 { DataFrame(v, w, f, n - 1); }
  }

  /** Adding a block adds bytes at the end. */
  lemma DataGrows(v: Vol, w: Vol, f: FileId, n: nat, m: nat)
    requires n <= m <= n + 1
    requires forall b: nat {:trigger Key(f, 0, b)} :: b < n ==> Content(w, Key(f, 0, b)) == Content(v, Key(f, 0, b))
    ensures DataBytes(v, f, n) <= DataBytes(w, f, m)
  {
    DataFrame(v, w, f, n);
  }

  lemma SplicePrefix(a: Bytes, c: Bytes, off: nat, t: Bytes)
    requires off + |t| <= |a|
    ensures Splice(a, off, t) + c == Splice(a + c, off, t)
  {
    assert (a + c)[..off] == a[..off];
    assert (a + c)[off + |t|..] == a[off + |t|..] + c;
  }

  lemma SpliceSuffix(a: Bytes, c: Bytes, off: nat, t: Bytes)
    requires off + |t| <= |c|
    ensures a + Splice(c, off, t) == Splice(a + c, |a| + off, t)
  {
    assert (a + c)[..|a| + off] == a + c[..off];
    assert (a + c)[|a| + off + |t|..] == c[off + |t|..];
  }

  /** `w` is `v` with `t` written at `off` in data block `b` of file `f`. */
  ghost predicate Wrote(v: Vol, w: Vol, f: FileId, n: nat, b: nat, off: nat, t: Bytes) {
    && off + |t| <= |Content(v, Key(f, 0, b))|
    && Content(w, Key(f, 0, b)) == Splice(Content(v, Key(f, 0, b)), off, t)
    && (forall i: nat {:trigger Key(f, 0, i)} :: i < n && i != b ==>
      Content(w, Key(f, 0, i)) == Content(v, Key(f, 0, i)))
  }

  lemma DataWriteLast(v: Vol, w: Vol, s: nat, f: FileId, b: nat, off: nat, t: Bytes)
    requires BlocksSized(v, s, f, b) && Wrote(v, w, f, b + 1, b, off, t)
    ensures b * s + off + |t| <= |DataBytes(v, f, b + 1)|
    ensures DataBytes(w, f, b + 1) == Splice(DataBytes(v, f, b + 1), b * s + off, t)
  {
    DataSize(v, s, f, b);
    DataFrame(v, w, f, b);
    SpliceSuffix(DataBytes(v, f, b), Content(v, Key(f, 0, b)), off, t);
  }

  /** Writing inside one block writes at the corresponding place `at` of the file's data. */
  lemma {:induction false} DataWrite(v: Vol, w: Vol, s: nat, f: FileId, n: nat, b: nat, off: nat, t: Bytes, at: nat)
    requires BlocksSized(v, s, f, n) && b < n && off + |t| <= s && at == b * s + off
    requires Wrote(v, w, f, n, b, off, t)
    ensures at + |t| <= |DataBytes(v, f, n)| && DataBytes(w, f, n) == Splice(DataBytes(v, f, n), at, t)
  {
    if b == n - 1 {
      DataWriteLast(v, w, s, f, b, off, t);
    } else {
      DataWrite(v, w, s, f, n - 1, b, off, t, at);
      SplicePrefix(DataBytes(v, f, n - 1), Content(v, Key(f, 0, n - 1)), at, t);
    }
  }

  lemma ConcatSnoc(rs: seq<Bytes>, r: Bytes)
    ensures Concat(rs + [r]) == Concat(rs) + r
  {
    assert (rs + [r])[..|rs|] == rs;
  }

  lemma {:induction false} ConcatAt(rs: seq<Bytes>, len: nat, r: nat)
    requires (forall i :: 0 <= i < |rs| ==> |rs[i]| == len) && r < |rs|
    ensures |Concat(rs)| == |rs| * len && r * len + len <= |rs| * len && Concat(rs)[r * len..r * len + len] == rs[r]
  {
    var m := |rs| - 1;
    ConcatSize(rs[..m], len);
    MulStep(m, len);
    if r < m {
      ConcatAt(rs[..m], len, r);
    }
  }

  lemma {:induction false} ConcatSize(rs: seq<Bytes>, len: nat)
    requires forall i :: 0 <= i < |rs| ==> |rs[i]| == len
    ensures |Concat(rs)| == |rs| * len
  {
    if |rs| > 0 {
      ConcatSize(rs[..|rs| - 1], len);
      MulStep(|rs| - 1, len);
    }
  }

  /** Replacing a record writes at its place. */
  lemma {:induction false} ConcatReplace(rs: seq<Bytes>, len: nat, r: nat, e: Bytes)
    requires (forall i :: 0 <= i < |rs| ==> |rs[i]| == len) && r < |rs| && |e| == len
    ensures r * len + len <= |Concat(rs)| && Concat(rs[r := e]) == Splice(Concat(rs), r * len, e)
  {
    var m := |rs| - 1;
    var init := rs[..m];
    var at: nat := r * len;
    ConcatAt(rs, len, r);
    if r == m {
      assert rs[r := e][..m] == init;
      ConcatSize(init, len);
      SpliceSuffix(Concat(init), rs[m], 0, e);
      assert Splice(rs[m], 0, e) == e;
    } else {
      assert rs[r := e][..m] == init[r := e];
      ConcatReplace(init, len, r, e);
      SplicePrefix(Concat(init), rs[m], at, e);
    }
  }

  lemma SpliceInPrefix(c: Bytes, d: Bytes, at: nat, e: Bytes)
    requires c <= d && at + |e| <= |c|
    ensures Splice(c, at, e) <= Splice(d, at, e)
  {
    assert d == c + d[|c|..];
    SplicePrefix(c, d[|c|..], at, e);
  }

  /** Bytes inside one block are at the corresponding place `at` of the file's data. */
  lemma {:induction false} DataAt(v: Vol, s: nat, f: FileId, n: nat, b: nat, off: nat, len: nat, at: nat)
    requires BlocksSized(v, s, f, n) && b < n && off + len <= s && at == b * s + off
    ensures at + len <= |DataBytes(v, f, n)|
    ensures DataBytes(v, f, n)[at..at + len] == Content(v, Key(f, 0, b))[off..off + len]
  {
    DataSize(v, s, f, n - 1);
    if b < n - 1 {
      DataAt(v, s, f, n - 1, b, off, len, at);
    }
  }

  /** Room left after `foff` bytes in `CeilDiv(foff, s)` blocks, and where the next byte goes. */
  lemma NextPlace(foff: nat, s: nat)
    requires s > 0
    ensures var n := CeilDiv(foff, s);
      && 0 <= n * s - foff < s
      && (foff == n * s ==> foff / s == n && foff % s == 0)
      && (foff < n * s ==> n > 0 && foff / s == n - 1 && foff % s == s - (n * s - foff))
  {
    var n := CeilDiv(foff, s);
    assert (n + 1) * s == n * s + s && (n - 1) * s == n * s - s;
    if foff == 0 {
      DivUnique(0, s, 0);
    } else {
      CeilBounds(foff, s);
      DivUnique(foff, s, if foff == n * s then n else n - 1);
    }
  }

  /** Where a record of `len` bytes goes: `rem` bytes are left in the file's blocks, and a block
      more is added when they are too few. */
  lemma RecordPlace(foff: nat, s: nat, len: nat, rem: int, n: nat)
    requires 1 <= len <= s && rem == CeilDiv(foff, s) * s - foff
    requires n == if rem < len then CeilDiv(foff, s) + 1 else CeilDiv(foff, s)
    ensures rem >= 0 && Div(foff, s) < n && Div(foff, s) * s + Mod(foff, s) == foff
    ensures rem == 0 || rem >= len ==> Mod(foff, s) + len <= s
    ensures 0 < rem < len ==> Mod(foff, s) + rem == s && Div(foff, s) + 1 < n && (Div(foff, s) + 1) * s == foff + rem
  {
    NextPlace(foff, s);
    DivIs(foff, s);
    MulStep(Div(foff, s), s);
  }

  lemma CountAfter(foff: nat, s: nat, len: nat, n: nat)
    requires 1 <= len <= s
    requires n == if CeilDiv(foff, s) * s - foff < len then CeilDiv(foff, s) + 1 else CeilDiv(foff, s)
    ensures n == CeilDiv(foff + len, s) && foff + len <= n * s
  {
    NextPlace(foff, s);
    var m := CeilDiv(foff, s);
    MulStep(m, s);
    MulStep(n - 1, s);
    CeilUnique(foff + len, s, n);
  }

  lemma SpliceExtends(before: Bytes, c: Bytes, t: Bytes)
    requires c <= before && |c| + |t| <= |before|
    ensures c + t <= Splice(before, |c|, t)
  {
    assert before[..|c|] == c;
  }

  /** A record written where the last one ended, at `foff`, extends the records by one. */
  lemma RecordsExtend(v: Vol, x: Vol, g: Geo, f: FileId, fst: Fst, rs: seq<Bytes>, rec: Bytes, n: nat, before: Bytes,
      foff: nat)
    requires RecordsOk(v, g, f, fst, rs) && |rec| == fst.lrecl && foff == fst.aic * fst.lrecl
    requires n == if fst.adbc * g.Size() - foff < fst.lrecl then fst.adbc + 1 else fst.adbc
    requires BlocksSized(x, g.Size(), f, n)
    requires DataBytes(v, f, fst.adbc) <= before && foff + |rec| <= |before|
    requires DataBytes(x, f, n) == Splice(before, foff, rec)
    ensures RecordsOk(x, g, f, fst.(aic := fst.aic + 1, adbc := n), rs + [rec])
  {
    CountAfter(foff, g.Size(), fst.lrecl, n);
    MulStep(fst.aic, fst.lrecl);
    LaidExtend(v, x, g.Size(), f, fst, rs, rec, n, before, foff);
  }

  lemma LaidExtend(v: Vol, x: Vol, s: nat, f: FileId, fst: Fst, rs: seq<Bytes>, rec: Bytes, n: nat, before: Bytes,
      foff: nat)
    requires Laid(v, s, f, fst, rs, foff) && |rec| == fst.lrecl && n == CeilDiv(foff + |rec|, s)
    requires BlocksSized(x, s, f, n) && DataBytes(v, f, fst.adbc) <= before && foff + |rec| <= |before|
    requires DataBytes(x, f, n) == Splice(before, foff, rec)
    ensures Laid(x, s, f, fst.(aic := fst.aic + 1, adbc := n), rs + [rec], foff + |rec|)
  {
    ConcatSnoc(rs, rec);
    SpliceExtends(before, Concat(rs), rec);
  }

  lemma RecordsFrame(v: Vol, w: Vol, g: Geo, f: FileId, fst: Fst, rs: seq<Bytes>)
    requires RecordsOk(v, g, f, fst, rs)
    requires forall b: nat {:trigger Key(f, 0, b)} :: b < fst.adbc ==>
      Content(w, Key(f, 0, b)) == Content(v, Key(f, 0, b))
    ensures RecordsOk(w, g, f, fst, rs)
  {
    DataFrame(v, w, f, fst.adbc);
    assert BlocksSized(w, g.Size(), f, fst.adbc) by {
      forall b: nat | b < fst.adbc ensures |Content(w, Key(f, 0, b))| == g.Size() {
        assert |Content(v, Key(f, 0, b))| == g.Size();
      }
    }
  }

  // ---- Writing one record ----

  /** Only data blocks of file `f` changed. */
  ghost predicate Retouched(v: Vol, x: Vol, f: FileId) {
    && x.disk == v.disk && x.bm.Keys == v.bm.Keys
    && (forall k {:trigger x.bm[k]} :: k in x.bm ==> x.bm[k].lba == v.bm[k].lba)
    && (forall k: Key {:trigger Content(x, k)} :: k.file != f || k.level > 0 ==> Content(x, k) == Content(v, k))
  }

  lemma RetouchedTrans(v: Vol, w: Vol, x: Vol, f: FileId)
    requires Retouched(v, w, f) && Retouched(w, x, f)
    ensures Retouched(v, x, f)
  {
    forall k: Key | k.file != f || k.level > 0 ensures Content(x, k) == Content(v, k) {
      assert Content(w, k) == Content(v, k);
    }
  }

  lemma StoredData(v: Vol, x: Vol, g: Geo, f: FileId, n: nat, b: nat, off: nat, t: Bytes, at: nat)
    requires BlocksSized(v, g.Size(), f, n) && b < n && off + |t| <= g.Size() && Key(f, 0, b) in v.bm
    requires at == b * g.Size() + off
    requires x == Store(v, Key(f, 0, b), Splice(Content(v, Key(f, 0, b)), off, t))
    ensures BlocksSized(x, g.Size(), f, n) && Retouched(v, x, f)
    ensures at + |t| <= |DataBytes(v, f, n)| && DataBytes(x, f, n) == Splice(DataBytes(v, f, n), at, t)
  {
    StoreView(v, g, Key(f, 0, b), Splice(Content(v, Key(f, 0, b)), off, t));
    DataWrite(v, x, g.Size(), f, n, b, off, t, at);
  }

  lemma SpliceTwice(a: Bytes, off: nat, t: Bytes, m: nat)
    requires off + |t| <= |a| && m <= |t|
    ensures Splice(Splice(a, off, t[..m]), off + m, t[m..]) == Splice(a, off, t)
  {
    var b := Splice(a, off, t[..m]);
    assert b[..off + m] == a[..off] + t[..m];
    assert b[off + |t|..] == a[off + |t|..];
    assert t[..m] + t[m..] == t;
  }

  lemma ReplacedPrefix(rs: seq<Bytes>, len: nat, r: nat, e: Bytes, d: Bytes, at: nat)
    requires (forall i :: 0 <= i < |rs| ==> |rs[i]| == len) && r < |rs| && |e| == len && at == r * len
    requires Concat(rs) <= d
    ensures at + len <= |Concat(rs)| == |Concat(rs[r := e])| && Concat(rs[r := e]) <= Splice(d, at, e)
  {
    ConcatReplace(rs, len, r, e);
    SpliceInPrefix(Concat(rs), d, at, e);
  }

  /** Overwriting record `r`, which is at `at` of the file's data, replaces it. */
  lemma RecordReplaced(v: Vol, x: Vol, g: Geo, f: FileId, fst: Fst, rs: seq<Bytes>, r: nat, e: Bytes, at: nat)
    requires RecordsOk(v, g, f, fst, rs) && r < |rs| && |e| == fst.lrecl && at == r * fst.lrecl
    requires BlocksSized(x, g.Size(), f, fst.adbc) && at + |e| <= |DataBytes(v, f, fst.adbc)|
    requires DataBytes(x, f, fst.adbc) == Splice(DataBytes(v, f, fst.adbc), at, e)
    ensures RecordsOk(x, g, f, fst, rs[r := e])
  {
    ReplacedPrefix(rs, fst.lrecl, r, e, DataBytes(v, f, fst.adbc), at);
  }
}
