/** Data shared by several components: optional values, bytes, words, bitmap bytes. */
module Common {
  datatype Option<+T> = None | Some(value: T)

  /** Which of two source expressions a step uses: the one in the repository,
      or the one the surrounding code shows was meant. */
  datatype Coding = AsWritten | Intended

  type byte = x: int | 0 <= x < 256

  type Bytes = seq<byte>

  function Min(a: int, b: int): int {
    if a < b then a else b
  }

  function Zeros(n: nat): (z: Bytes)
    ensures |z| == n && forall i :: 0 <= i < n ==> z[i] == 0
  {
    seq(n, i => 0)
  }

  /** `s` with the bytes from `off` on replaced by `t`. */
  function Splice<T>(s: seq<T>, off: nat, t: seq<T>): (r: seq<T>)
    requires off + |t| <= |s|
    ensures |r| == |s|
  {
    s[..off] + t + s[off + |t|..]
  }

  lemma SpliceAt<T>(s: seq<T>, off: nat, t: seq<T>)
    requires off + |t| <= |s|
    ensures forall i :: 0 <= i < |s| ==> Splice(s, off, t)[i] == if off <= i < off + |t| then t[i - off] else s[i]
  {
  }
}

/** Big-endian 32-bit words stored in a block. */
module Words {
  import opened Common

  const WORD_LIMIT := 0x1_0000_0000

  function ByteLimit(n: nat): nat {
    if n == 0 then 1 else ByteLimit(n - 1) * 256
  }

  function BigEndian(b: Bytes): (w: nat)
    ensures w < ByteLimit(|b|)
  {
    if |b| == 0 then 0 else BigEndian(b[..|b| - 1]) * 256 + b[|b| - 1]
  }

  function ToBytes(w: nat, n: nat): (b: Bytes)
    requires w < ByteLimit(n)
    ensures |b| == n && BigEndian(b) == w
  {
    if n == 0 then []
    else
      var b := ToBytes(w / 256, n - 1);
      assert (b + [w % 256])[..n - 1] == b;
      b + [w % 256]
  }

  function GetWord(b: Bytes, i: nat): (w: nat)
    requires 4 * i + 4 <= |b|
    ensures w < WORD_LIMIT
  {
    assert ByteLimit(4) == WORD_LIMIT;
    BigEndian(b[4 * i..4 * i + 4])
  }

  function PutWord(b: Bytes, i: nat, w: nat): (r: Bytes)
    requires 4 * i + 4 <= |b| && w < WORD_LIMIT
    ensures |r| == |b|
  {
    assert ByteLimit(4) == WORD_LIMIT;
    Splice(b, 4 * i, ToBytes(w, 4))
  }

  /** The first byte of a word counts most. */
  lemma WordIs(b: Bytes, i: nat)
    requires 4 * i + 4 <= |b|
    ensures GetWord(b, i) == ((b[4 * i] as int * 256 + b[4 * i + 1]) * 256 + b[4 * i + 2]) * 256 + b[4 * i + 3]
  {
    var w := b[4 * i..4 * i + 4];
    assert w[..3][..2] == w[..2] && w[..2][..1] == w[..1] && w[..1][..0] == [];
    assert BigEndian(w[..1]) == w[0];
    assert BigEndian(w[..2]) == BigEndian(w[..1]) * 256 + w[1];
    assert BigEndian(w[..3]) == BigEndian(w[..2]) * 256 + w[2];
  }

  lemma WordAfterPut(b: Bytes, i: nat, w: nat, j: nat)
    requires 4 * i + 4 <= |b| && 4 * j + 4 <= |b| && w < WORD_LIMIT
    ensures GetWord(PutWord(b, i, w), j) == if i == j then w else GetWord(b, j)
  {
    assert ByteLimit(4) == WORD_LIMIT;
    var r := PutWord(b, i, w);
    assert r[4 * j..4 * j + 4] == if i == j then ToBytes(w, 4) else b[4 * j..4 * j + 4];
  }
}

/** Bitmap bytes: bit 0 is the most significant one. */
module Bitmap {
  import opened Common
  import Ceiling

  function Pow2(k: nat): (r: nat)
    ensures r >= 1
  {
    if k == 0 then 1 else 2 * Pow2(k - 1)
  }

  /** Binary digit `j` of `x`, counted from the least significant one. */
  predicate Digit(x: nat, j: nat) {
    if j == 0 then x % 2 == 1 else Digit(x / 2, j - 1)
  }

  /** `x` or `x & ~m`, `x | m` for the one-digit mask m = 2^j. */
  function WithDigit(x: nat, j: nat, on: bool): (r: nat) {
    if j == 0 then (if on then x - x % 2 + 1 else x - x % 2)
    else 2 * WithDigit(x / 2, j - 1, on) + x % 2
  }

  lemma {:induction false} DigitAfterWith(x: nat, j: nat, on: bool, i: nat)
    ensures Digit(WithDigit(x, j, on), i) <==> if i == j then on else Digit(x, i)
  {
    if i > 0 && j > 0 {
      DigitAfterWith(x / 2, j - 1, on, i - 1);
      assert WithDigit(x, j, on) / 2 == WithDigit(x / 2, j - 1, on);
    } else if i > 0 {
      assert WithDigit(x, j, on) / 2 == x / 2;
    }
  }

  lemma HalfBound(x: nat, n: nat)
    requires n > 0 && x < Pow2(n)
    ensures x / 2 < Pow2(n - 1) && 2 * Pow2(n - 1) == Pow2(n)
  {
  }

  lemma {:induction false} WithDigitBound(x: nat, j: nat, on: bool, n: nat)
    requires j < n && x < Pow2(n)
    ensures WithDigit(x, j, on) < Pow2(n)
  {
    HalfBound(x, n);
    if j > 0 {
      WithDigitBound(x / 2, j - 1, on, n - 1);
    }
  }

  /** Setting a clear digit adds its mask, clearing a set one subtracts it. */
  lemma {:induction false} WithDigitIsMask(x: nat, j: nat, on: bool)
    ensures WithDigit(x, j, on) == if Digit(x, j) == on then x else if on then x + Pow2(j) else x - Pow2(j)
  {
    if j > 0 {
      WithDigitIsMask(x / 2, j - 1, on);
    }
  }

  /** A binary digit by its weight. */
  lemma {:induction false} DigitIs(x: nat, j: nat)
    ensures Digit(x, j) <==> x / Pow2(j) % 2 == 1
  {
    if j > 0 {
      DigitIs(x / 2, j - 1);
      DivTwice(x, Pow2(j - 1));
    }
  }

  lemma DivTwice(x: nat, p: nat)
    requires p > 0
    ensures x / (2 * p) == x / 2 / p
  {
    var d, q := 2 * p, x / 2 / p;
    Ceiling.DivIs(x / 2, p);
    Ceiling.DivUnique(x / 2, p, q);
    assert q * d == 2 * (q * p) && (q + 1) * d == 2 * ((q + 1) * p);
    Ceiling.DivUnique(x, d, q);
  }

  lemma DivHalf(x: nat, p: nat)
    requires p > 0
    ensures x / (2 * p) == x / p / 2 && x % (2 * p) == x % p + (if x / p % 2 == 1 then p else 0)
  {
    var q, r := x / p, x % p;
    var h, rest := q / 2, if q % 2 == 1 then p + r else r;
    Ceiling.DivIs(x, p);
    Regroup(q, h, p);
    Ceiling.DivPair(h, rest, 2 * p);
    Ceiling.DivIs(x, 2 * p);
  }

  lemma Regroup(q: nat, h: nat, p: nat)
    requires q == 2 * h || q == 2 * h + 1
    ensures q * p == h * (2 * p) + (if q == 2 * h then 0 else p)
  {
  }

  /** Bit `k` of a byte has weight 0x80 >> k. */
  lemma BitIs(x: byte, k: nat)
    requires k < 8
    ensures IsSet(x, k) <==> x / Pow2(7 - k) % 2 == 1
  {
    DigitIs(x, 7 - k);
  }

  predicate IsSet(x: byte, k: nat)
    requires k < 8
  {
    Digit(x, 7 - k)
  }

  /** `x | (0x80 >> k)` when `on`, `x & ~(0x80 >> k)` otherwise. */
  function WithBit(x: byte, k: nat, on: bool): (r: byte)
    requires k < 8
    ensures forall i :: 0 <= i < 8 ==> (IsSet(r, i) <==> if i == k then on else IsSet(x, i))
  {
    assert Pow2(8) == 256;
    WithDigitBound(x, 7 - k, on, 8);
    assert forall i :: 0 <= i < 8 ==> (IsSet(WithDigit(x, 7 - k, on), i) <==> if i == k then on else IsSet(x, i)) by {
      forall i | 0 <= i < 8
        ensures IsSet(WithDigit(x, 7 - k, on), i) <==> if i == k then on else IsSet(x, i)
      {
        DigitAfterWith(x, 7 - k, on, 7 - i);
      }
    }
    WithDigit(x, 7 - k, on)
  }

  /** Bit `k` has weight 0x80 >> k also where it is set or cleared. */
  lemma WithBitIs(x: byte, k: nat, on: bool)
    requires k < 8
    ensures WithBit(x, k, on) ==
      if (x / Pow2(7 - k) % 2 == 1) == on then x else if on then x + Pow2(7 - k) else x - Pow2(7 - k)
  {
    WithDigitIsMask(x, 7 - k, on);
    BitIs(x, k);
  }

  /** A byte that starts with `k` ones. */
  lemma {:induction false} TopOnes(x: byte, k: nat)
    requires k <= 8 && forall j :: 0 <= j < k ==> IsSet(x, j)
    ensures x / Pow2(8 - k) == Pow2(k) - 1
  {
    if k == 0 {
      assert Pow2(8) == 256;
    } else {
      TopOnes(x, k - 1);
      assert IsSet(x, k - 1);
      BitIs(x, k - 1);
      DivHalf(x, Pow2(8 - k));
    }
  }

  /** A byte that starts with `k` ones and a zero. */
  lemma TopZero(x: byte, k: nat)
    requires k < 8 && !IsSet(x, k) && forall j :: 0 <= j < k ==> IsSet(x, j)
    ensures x / Pow2(7 - k) == Pow2(k + 1) - 2
  {
    TopOnes(x, k);
    BitIs(x, k);
    DivHalf(x, Pow2(7 - k));
  }

  predicate AllDigits(x: nat, n: nat) {
    forall j :: 0 <= j < n ==> Digit(x, j)
  }

  lemma {:induction false} FullDigits(x: nat, n: nat)
    requires x < Pow2(n)
    ensures x == Pow2(n) - 1 <==> AllDigits(x, n)
  {
    if n > 0 {
      FullDigits(x / 2, n - 1);
      assert AllDigits(x, n) <==> x % 2 == 1 && AllDigits(x / 2, n - 1) by {
        if AllDigits(x, n) {
          assert Digit(x, 0);
          forall j | 0 <= j < n - 1 ensures Digit(x / 2, j) { assert Digit(x, j + 1); }
        }
        if x % 2 == 1 && AllDigits(x / 2, n - 1) {
          forall j | 0 <= j < n ensures Digit(x, j) {}
        }
      }
      assert x == Pow2(n) - 1 <==> x / 2 == Pow2(n - 1) - 1 && x % 2 == 1;
    }
  }

  /** A byte is 0xff exactly when it has no clear bit. */
  lemma FullByte(x: byte)
    ensures x == 0xff <==> forall k :: 0 <= k < 8 ==> IsSet(x, k)
  {
    assert Pow2(8) == 256;
    FullDigits(x, 8);
    if forall k :: 0 <= k < 8 ==> IsSet(x, k) {
      forall j | 0 <= j < 8 ensures Digit(x, j) { assert IsSet(x, 7 - j); }
    }
  }
}

/** Division by a symbolic divisor, written as repeated subtraction so that no proof about
    trees and maps has to reason about nonlinear arithmetic; the lemmas tie it to `/` and `%`. */
module Ceiling {
  function Div(n: nat, d: nat): nat
    requires d > 0
  {
    if n < d then 0 else 1 + Div(n - d, d)
  }

  function Mod(n: nat, d: nat): (r: nat)
    requires d > 0
    ensures r < d
  {
    if n < d then n else Mod(n - d, d)
  }

  /** Number of groups of `d` that hold `n` items. */
  function CeilDiv(n: nat, d: nat): nat
    requires d > 0
  {
    if n == 0 then 0 else 1 + Div(n - 1, d)
  }

  lemma MulMono(a: int, b: int, d: nat)
    ensures a <= b ==> a * d <= b * d
  {
  }

  lemma MulStep(a: int, d: int)
    ensures (a + 1) * d == a * d + d
  {
  }

  /** Division is determined by its bounds. */
  lemma DivUnique(n: nat, d: nat, q: nat)
    requires d > 0 && q * d <= n < (q + 1) * d
    ensures n / d == q && n % d == n - q * d
  {
    var q' := n / d;
    assert n == q' * d + n % d;
    MulMono(q' + 1, q, d);
    MulMono(q + 1, q', d);
  }

  lemma {:induction false} DivIs(n: nat, d: nat)
    requires d > 0
    ensures Div(n, d) == n / d && Mod(n, d) == n % d && n == Div(n, d) * d + Mod(n, d)
  {
    if n < d {
      DivUnique(n, d, 0);
    } else {
      DivIs(n - d, d);
      var q := Div(n - d, d);
      assert (q + 1) * d == q * d + d;
      assert (q + 2) * d == q * d + d + d;
      DivUnique(n, d, q + 1);
    }
  }

  lemma CeilIs(n: nat, d: nat)
    requires d > 0
    ensures CeilDiv(n, d) == (n + d - 1) / d
  {
    if n == 0 {
      DivUnique(d - 1, d, 0);
    } else {
      DivIs(n - 1, d);
      assert Div(n - 1 + d, d) == 1 + Div(n - 1, d);
      DivIs(n - 1 + d, d);
    }
  }

  lemma {:induction false} DivMono(m: nat, n: nat, d: nat)
    requires d > 0 && m <= n
    ensures Div(m, d) <= Div(n, d)
  {
    if m >= d { DivMono(m - d, n - d, d); }
  }

  lemma {:induction false} DivSucc(n: nat, d: nat)
    requires d > 0
    ensures Mod(n + 1, d) == if Mod(n, d) == d - 1 then 0 else Mod(n, d) + 1
    ensures Div(n + 1, d) == if Mod(n, d) == d - 1 then Div(n, d) + 1 else Div(n, d)
  {
    if n >= d { DivSucc(n - d, d); }
  }

  lemma {:induction false} DivPair(q: nat, r: nat, d: nat)
    requires r < d
    ensures Div(q * d + r, d) == q && Mod(q * d + r, d) == r
  {
    if q > 0 {
      DivPair(q - 1, r, d);
      assert q * d + r == (q - 1) * d + r + d;
    }
  }

  lemma CeilBounds(n: nat, d: nat)
    requires d > 0 && n > 0
    ensures CeilDiv(n, d) > 0 && (CeilDiv(n, d) - 1) * d < n <= CeilDiv(n, d) * d
  {
    DivIs(n - 1, d);
    var q := Div(n - 1, d);
    assert (q + 1) * d == q * d + d;
  }

  lemma CeilUnique(n: nat, d: nat, c: nat)
    requires d > 0 && n > 0 && (c - 1) * d < n <= c * d
    ensures CeilDiv(n, d) == c
  {
    CeilBounds(n, d);
    var e := CeilDiv(n, d);
    MulMono(c, e - 1, d);
    MulMono(e, c - 1, d);
  }

  /** Adding one item opens a new group exactly when the groups were full. */
  lemma CeilSucc(n: nat, d: nat)
    requires d > 0
    ensures CeilDiv(n + 1, d) == Div(n, d) + 1
    ensures CeilDiv(n, d) == if Mod(n, d) == 0 then Div(n, d) else Div(n, d) + 1
  {
    if n > 0 { DivSucc(n - 1, d); }
  }
}
