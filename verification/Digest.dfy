/** Message digests in pieces: a buffer of less than a block between calls (lib/digest.c).
    The compression function is any function of a chaining value and a 64-byte block. */
module Digest {
  import opened Common
  import opened Ceiling
  import Words

  const BLOCK := 64
  const WIDTH := 0x1_0000_0000_0000_0000

  /** The chaining value after whole blocks of data. */
  function Fold<H>(compress: (H, Bytes) -> H, h: H, data: Bytes): H
    decreases |data|
  {
    if |data| < BLOCK then h else Fold(compress, compress(h, data[..BLOCK]), data[BLOCK..])
  }

  predicate Whole(n: nat) { Mod(n, BLOCK) == 0 }

  /** A 64-bit count of the bits of `n` bytes. */
  function Bits(n: nat): nat { Mod(8 * n, WIDTH) }

  /** The count when `n` more bytes are added to it. */
  function MoreBits(bits: nat, n: nat): nat { Mod(bits + 8 * n, WIDTH) }

  lemma {:induction false} ModAdd(a: nat, b: nat, d: nat)
    requires d > 0
    ensures Mod(Mod(a, d) + b, d) == Mod(a + b, d)
  {
    if a >= d { ModAdd(a - d, b, d); }
  }

  lemma BitsAdd(m: nat, n: nat)
    ensures MoreBits(Bits(m), n) == Bits(m + n)
  {
    ModAdd(8 * m, 8 * n, WIDTH);
  }

  lemma WholeAdd(a: nat, b: nat)
    requires Whole(a)
    ensures Mod(a + b, BLOCK) == Mod(b, BLOCK)
  {
    ModAdd(a, b, BLOCK);
  }

  lemma TailOf(n: nat)
    ensures Mod(n, BLOCK) <= n && Whole(n - Mod(n, BLOCK))
  {
    DivIs(n, BLOCK);
    DivPair(Div(n, BLOCK), 0, BLOCK);
  }

  lemma {:induction false} FoldConcat<H>(compress: (H, Bytes) -> H, h: H, a: Bytes, b: Bytes)
    requires Whole(|a|)
    ensures Fold(compress, h, a + b) == Fold(compress, Fold(compress, h, a), b)
    decreases |a|
  {
    if |a| == 0 {
      assert a + b == b;
    } else {
      assert (a + b)[..BLOCK] == a[..BLOCK] && (a + b)[BLOCK..] == a[BLOCK..] + b;
      FoldConcat(compress, compress(h, a[..BLOCK]), a[BLOCK..], b);
    }
  }

  /** Eight bytes of a bit count, most significant first. */
  function Count(bits: nat, n: nat): (b: Bytes)
    ensures |b| == n
  {
    if n == 0 then [] else Count(bits / 256, n - 1) + [bits % 256]
  }

  /** Padding of section 5.1.1 of FIPS 180-4 for a message of `len` bytes and `bits` bits. */
  function Padding(len: nat, bits: nat): Bytes {
    [0x80] + Zeros(Mod(119 - Mod(len, BLOCK), BLOCK)) + Count(bits, 8)
  }

  /** A padded message is whole blocks. */
  lemma PaddedWhole(len: nat, bits: nat)
    ensures Whole(len + |Padding(len, bits)|)
  {
    DivIs(len, BLOCK);
    var k := 119 - Mod(len, BLOCK);
    DivIs(k, BLOCK);
    DivIs(len + |Padding(len, bits)|, BLOCK);
  }

  lemma {:induction false} CountIs(bits: nat, n: nat)
    requires bits < Words.ByteLimit(n)
    ensures Words.BigEndian(Count(bits, n)) == bits
  {
    if n > 0 {
      CountIs(bits / 256, n - 1);
      assert Count(bits, n)[..n - 1] == Count(bits / 256, n - 1);
    }
  }

  /** Padding is a bit 1, as few zeros as make whole blocks, and the message's length in bits, modulo
      2^64, in eight bytes with the most significant first. */
  lemma PaddingIs(len: nat)
    ensures var p := Padding(len, Bits(len));
      && 9 <= |p| <= 72 && (len + |p|) % 64 == 0 && p[0] == 0x80 && (forall i :: 1 <= i < |p| - 8 ==> p[i] == 0)
      && Words.BigEndian(p[|p| - 8..]) == 8 * len % 0x1_0000_0000_0000_0000
  {
    var p := Padding(len, Bits(len));
    PaddedWhole(len, Bits(len));
    DivIs(len + |p|, BLOCK);
    DivIs(8 * len, WIDTH);
    assert Words.ByteLimit(8) == WIDTH by { assert Words.ByteLimit(4) == 0x1_0000_0000; }
    CountIs(Bits(len), 8);
    assert p[|p| - 8..] == Count(Bits(len), 8);
  }

  /** The digest of a whole message. */
  function OneShot<H>(compress: (H, Bytes) -> H, h: H, message: Bytes): H {
    Fold(compress, h, message + Padding(|message|, Bits(|message|)))
  }

  /** The KLMD instruction: whole blocks, then the rest with its padding. */
  function Klmd<H>(compress: (H, Bytes) -> H, h: H, data: Bytes, bits: nat): H {
    Fold(compress, h, data + Padding(|data|, bits))
  }

  /** Padding after some whole blocks is padding after all of the message. */
  lemma Last<H>(compress: (H, Bytes) -> H, h: H, before: Bytes, data: Bytes)
    requires Whole(|before|)
    ensures Klmd(compress, Fold(compress, h, before), data, Bits(|before + data|)) ==
      OneShot(compress, h, before + data)
  {
    WholeAdd(|before|, |data|);
    var p := Padding(|data|, Bits(|before + data|));
    FoldConcat(compress, h, before, data + p);
    assert before + (data + p) == before + data + p;
  }

  class Context<H(0)> {
    const compress: (H, Bytes) -> H
    const init: H
    var h: H
    var mbl: nat
    var buflen: nat
    const buf: array<byte>
    // All the data given so far.
    ghost var fed: Bytes

    /** The chaining value is the fold over the whole blocks given, the buffer holds the rest, and
        the bit count is that of the whole blocks. */
    ghost predicate Valid()
      reads this, buf
    {
      && buf.Length == BLOCK && buflen < BLOCK && buflen <= |fed|
      && Holds(compress, init, h, mbl, fed[..|fed| - buflen])
      && buf[..buflen] == fed[|fed| - buflen..]
    }

    constructor (compress: (H, Bytes) -> H, init: H)
      ensures Valid() && fresh(buf) && fed == [] && this.compress == compress && this.init == init
    {
      this.compress, this.init, h, mbl, buflen, fed := compress, init, init, 0, 0, [];
      buf := new byte[BLOCK];
    }

    /** Top up the buffer; when it is full, hash it. `rest` is what did not go into the buffer. */
    method FillBuffer(data: Bytes) returns (rest: Bytes)
      requires Valid() && buflen > 0
      modifies this`h, this`mbl, this`buflen, this`fed, buf
      ensures Valid() && |rest| <= |data| && fed == old(fed) + data[..|data| - |rest|]
      ensures rest == data[|data| - |rest|..]
      ensures buflen > 0 ==> rest == []
    {
      var copy := Min(BLOCK - buflen, |data|);
      ghost var done := fed[..|fed| - buflen];
      ghost var part := fed[|fed| - buflen..];
      forall i | 0 <= i < copy { buf[buflen + i] := data[i]; }
      assert buf[..buflen + copy] == part + data[..copy];
      Appended(fed, buflen, data[..copy]);
      rest := data[copy..];
      if buflen + copy == BLOCK {
        assert buf[..] == part + data[..copy];
        Grows(compress, init, h, mbl, done, buf[..]);
        var r := Kimd(compress, h, buf[..]);
        Whole0(fed, done, part, data[..copy]);
        h, mbl, buflen, fed := r, MoreBits(mbl, BLOCK), 0, fed + data[..copy];
      } else {
        buflen, fed := buflen + copy, fed + data[..copy];
      }
    }

    method Update(data: Bytes)
      requires Valid()
      modifies this, buf
      ensures Valid() && fed == old(fed) + data
    {
      var rest := data;
      if buflen > 0 {
        rest := FillBuffer(data);
      }
      assert fed + rest == old(fed) + data;
      Store(rest);
    }

    /** Hash the whole blocks and keep the tail. */
    method Store(rest: Bytes)
      requires Valid() && (buflen > 0 ==> rest == [])
      modifies this, buf
      ensures Valid() && fed == old(fed) + rest
    {
      var tail := Mod(|rest|, BLOCK);
      TailOf(|rest|);
      var len := |rest| - tail;
      Grows(compress, init, h, mbl, fed[..|fed| - buflen], rest[..len]);
      var r := Kimd(compress, h, rest[..len]);
      Split(fed, rest, len);
      if tail != 0 {
        forall i | 0 <= i < tail { buf[i] := rest[len + i]; }
        assert buf[..tail] == rest[len..];
        h, mbl, buflen, fed := r, MoreBits(mbl, len), tail, fed + rest;
      } else {
        if buflen > 0 { Nothing(fed, fed[..|fed| - buflen], rest); }
        h, mbl, fed := r, MoreBits(mbl, len), fed + rest;
      }
    }

    /** The digest is that of all the data, however it was divided among the calls. */
    method Finalize(data: Bytes)
      requires Valid()
      modifies this, buf
      ensures h == OneShot(compress, init, old(fed) + data)
    {
      var rest := data;
      if buflen > 0 {
        rest := FillBuffer(data);
        if buflen > 0 {
          rest := buf[..buflen];
        }
      }
      ghost var done := fed[..|fed| - buflen];
      assert done + rest == old(fed) + data;
      Last(compress, init, done, rest);
      BitsAdd(|done|, |rest|);
      h, mbl := Klmd(compress, h, rest, MoreBits(mbl, |rest|)), MoreBits(mbl, |rest|);
    }
  }

  /** The KIMD instruction: hash whole blocks. */
  method Kimd<H>(compress: (H, Bytes) -> H, h: H, data: Bytes) returns (r: H)
    requires Whole(|data|)
    ensures r == Fold(compress, h, data)
  {
    r := h;
    var rest := data;
    while |rest| > 0
      invariant Whole(|rest|) && Fold(compress, r, rest) == Fold(compress, h, data)
      decreases |rest|
    {
      r := compress(r, rest[..BLOCK]);
      rest := rest[BLOCK..];
    }
  }

  lemma Whole0(fed: Bytes, done: Bytes, part: Bytes, more: Bytes)
    requires fed == done + part
    ensures (fed + more)[..|fed + more| - 0] == done + (part + more) && (fed + more)[|fed + more|..] == []
  {
  }

  lemma Nothing(fed: Bytes, done: Bytes, rest: Bytes)
    requires rest == []
    ensures fed + rest == fed && forall n :: 0 <= n <= |rest| ==> done + rest[..n] == done
  {
  }

  lemma Split(fed: Bytes, rest: Bytes, len: nat)
    requires len <= |rest|
    ensures var all := fed + rest;
      && all[..|all| - (|rest| - len)] == fed[..|fed| - 0] + rest[..len] && all[|all| - (|rest| - len)..] == rest[len..]
  {
  }

  lemma Appended(fed: Bytes, keep: nat, more: Bytes)
    requires keep <= |fed|
    ensures (fed + more)[|fed| - keep..] == fed[|fed| - keep..] + more
    ensures (fed + more)[..|fed| - keep] == fed[..|fed| - keep]
  {
  }

  lemma Counts(done: Bytes, more: Bytes)
    requires Whole(|done|) && Whole(|more|)
    ensures Whole(|done + more|) && Bits(|done + more|) == MoreBits(Bits(|done|), |more|)
  {
    BitsAdd(|done|, |more|);
    WholeAdd(|done|, |more|);
  }

  /** More whole blocks. */
  lemma Grows<H>(compress: (H, Bytes) -> H, init: H, h: H, mbl: nat, done: Bytes, more: Bytes)
    requires Holds(compress, init, h, mbl, done) && Whole(|more|)
    ensures Holds(compress, init, Fold(compress, h, more), MoreBits(mbl, |more|), done + more)
  {
    FoldConcat(compress, init, done, more);
    Counts(done, more);
  }

  /** `h` and `mbl` after the whole blocks `done`. */
  ghost predicate Holds<H>(compress: (H, Bytes) -> H, init: H, h: H, mbl: nat, done: Bytes) {
    Whole(|done|) && h == Fold(compress, init, done) && mbl == Bits(|done|)
  }
}
