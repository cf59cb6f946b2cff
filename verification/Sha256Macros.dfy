/** The word macros of the C code: shifts and bitwise operations that make rotations and bytes. */
module Sha256Macros {
  import opened Common
  import F = Fips180

  const EITHER: (bool, bool) -> bool := (p, q) => p || q

  function Or(x: F.Word, y: F.Word): F.Word {
    F.BitwiseBound(EITHER, x, y, 32);
    F.Pow2Of32();
    F.Bitwise(EITHER, x, y, 32)
  }

  /** A left shift drops what leaves the word. */
  function Shl(x: F.Word, n: nat): F.Word {
    if n == 0 then x else 2 * Shl(x, n - 1) % 0x1_0000_0000
  }

  function RotRight(x: F.Word, n: nat): F.Word
    requires n <= 32
  {
    Or(F.Shr(x, n), Shl(x, 32 - n))
  }

  function Ep0(x: F.Word): F.Word {
    F.Xor(F.Xor(RotRight(x, 2), RotRight(x, 13)), RotRight(x, 22))
  }

  function Ep1(x: F.Word): F.Word {
    F.Xor(F.Xor(RotRight(x, 6), RotRight(x, 11)), RotRight(x, 25))
  }

  function Sig0(x: F.Word): F.Word {
    F.Xor(F.Xor(RotRight(x, 7), RotRight(x, 18)), F.Shr(x, 3))
  }

  function Sig1(x: F.Word): F.Word {
    F.Xor(F.Xor(RotRight(x, 17), RotRight(x, 19)), F.Shr(x, 10))
  }

  /** Four bytes shifted into place. */
  function WordOf(a: uint8, b: uint8, c: uint8, d: uint8): F.Word {
    Or(Or(Or(Shl(a as int, 24), Shl(b as int, 16)), Shl(c as int, 8)), d as int)
  }

  /** One byte shifted down and masked. */
  function ByteAt(w: F.Word, i: nat): (b: uint8)
    requires i < 4
    ensures b == F.ByteOf(w, i)
  {
    MaskIsRemainder(F.Shr(w, 24 - 8 * i));
    F.And(F.Shr(w, 24 - 8 * i), 0xff) as uint8
  }

  // ---------------------------------------------------------------- bits of numbers

  /** A number and another one above its k bits. */
  lemma {:induction false} BitSplit(high: nat, low: nat, k: nat, i: nat)
    requires low < F.Pow2(k)
    ensures F.Bit(high * F.Pow2(k) + low, i) == if i < k then F.Bit(low, i) else F.Bit(high, i - k)
    decreases k
  {
    if k > 0 {
      var p := F.Pow2(k - 1);
      assert high * F.Pow2(k) == 2 * (high * p);
      assert (high * F.Pow2(k) + low) / 2 == high * p + low / 2;
      if i > 0 {
        BitSplit(high, low / 2, k - 1, i - 1);
      }
    }
  }

  lemma {:induction false} NoHighBits(x: nat, n: nat, i: nat)
    requires x < F.Pow2(n) && n <= i
    ensures !F.Bit(x, i)
    decreases i
  {
    if n > 0 {
      NoHighBits(x / 2, n - 1, i - 1);
    } else if i > 0 {
      NoHighBits(0, 0, i - 1);
    }
  }

  /** The low n bits determine a number below 2^n. */
  lemma {:induction false} SameBits(x: nat, y: nat, n: nat)
    requires x < F.Pow2(n) && y < F.Pow2(n)
    requires forall i: nat :: i < n ==> F.Bit(x, i) == F.Bit(y, i)
    ensures x == y
  {
    if n > 0 {
      assert F.Bit(x, 0) == F.Bit(y, 0);
      forall i: nat | i < n - 1 ensures F.Bit(x / 2, i) == F.Bit(y / 2, i) {
        assert F.Bit(x, i + 1) == F.Bit(y, i + 1);
      }
      SameBits(x / 2, y / 2, n - 1);
    }
  }

  lemma SameWords(x: F.Word, y: F.Word)
    requires forall i: nat :: i < 32 ==> F.Bit(x, i) == F.Bit(y, i)
    ensures x == y
  {
    F.Pow2Of32();
    SameBits(x, y, 32);
  }

  lemma {:induction false} OnesBit(n: nat, x: nat, i: nat)
    requires x < F.Pow2(n) && i < n
    ensures F.Bit(F.Pow2(n) - 1 - x, i) == !F.Bit(x, i)
    decreases n
  {
    assert (F.Pow2(n) - 1 - x) / 2 == F.Pow2(n - 1) - 1 - x / 2;
    if i > 0 {
      OnesBit(n - 1, x / 2, i - 1);
    }
  }

  // ---------------------------------------------------------------- bits of the operations

  lemma NotBit(x: F.Word, i: nat)
    requires i < 32
    ensures F.Bit(F.Not(x), i) == !F.Bit(x, i)
  {
    F.Pow2Of32();
    OnesBit(32, x, i);
  }

  lemma {:induction false} ShrBit(x: F.Word, n: nat, i: nat)
    ensures F.Bit(F.Shr(x, n), i) == F.Bit(x, i + n)
    decreases n
  {
    if n > 0 {
      ShrBit(x, n - 1, i + 1);
    }
  }

  lemma DoubledBit(y: F.Word, i: nat)
    requires i < 32
    ensures F.Bit(2 * y % 0x1_0000_0000, i) == (i > 0 && F.Bit(y, i - 1))
  {
    F.Pow2Of32();
    var r := 2 * y % 0x1_0000_0000;
    assert 2 * y == 2 * y / 0x1_0000_0000 * F.Pow2(32) + r;
    BitSplit(2 * y / 0x1_0000_0000, r, 32, i);
    assert F.Bit(2 * y, i) == (i > 0 && F.Bit(y, i - 1));
  }

  lemma {:induction false} ShlBit(x: F.Word, n: nat, i: nat)
    requires i < 32
    ensures F.Bit(Shl(x, n), i) == (i >= n && F.Bit(x, i - n))
    decreases n
  {
    if n > 0 {
      DoubledBit(Shl(x, n - 1), i);
      if i > 0 {
        ShlBit(x, n - 1, i - 1);
      }
    }
  }

  lemma RotateOnce(y: F.Word, i: nat)
    requires i < 32
    ensures F.Bit(y / 2 + y % 2 * 0x8000_0000, i) == F.Bit(y, (i + 1) % 32)
  {
    F.Pow2Of32();
    assert F.Pow2(31) == 0x8000_0000;
    BitSplit(y % 2, y / 2, 31, i);
  }

  /** Rotating moves every bit n places down, and those that leave come in again at the top. */
  lemma {:induction false} RotrBit(x: F.Word, n: nat, i: nat)
    requires i < 32
    ensures F.Bit(F.Rotr(x, n), i) == F.Bit(x, (i + n) % 32)
    decreases n
  {
    if n > 0 {
      RotateOnce(F.Rotr(x, n - 1), i);
      RotrBit(x, n - 1, (i + 1) % 32);
      assert ((i + 1) % 32 + (n - 1)) % 32 == (i + n) % 32;
    }
  }

  lemma OrBit(x: F.Word, y: F.Word, i: nat)
    requires i < 32
    ensures F.Bit(Or(x, y), i) == (F.Bit(x, i) || F.Bit(y, i))
  {
    F.BitwiseBit(EITHER, x, y, 32, i);
  }

  lemma NothingAbove(x: F.Word, i: nat)
    requires i >= 32
    ensures !F.Bit(x, i)
  {
    F.Pow2Of32();
    NoHighBits(x, 32, i);
  }

  lemma ShiftedBits(x: F.Word, right: F.Word, left: F.Word, n: nat, m: nat, i: nat)
    requires n + m == 32 && i < 32 && right == F.Shr(x, n) && left == Shl(x, m)
    ensures (F.Bit(right, i) || F.Bit(left, i)) == if i < m then F.Bit(x, i + n) else F.Bit(x, i - m)
  {
    ShrBit(x, n, i);
    ShlBit(x, m, i);
    if i >= m {
      NothingAbove(x, i + n);
    }
  }

  lemma Wrapped(n: nat, m: nat, i: nat)
    requires n + m == 32 && i < 32
    ensures (i + n) % 32 == if i < m then i + n else i - m
  {
  }

  /** Two shifts and an or are a rotation. */
  lemma RotRightIsRotr(x: F.Word, n: nat)
    requires n <= 32
    ensures RotRight(x, n) == F.Rotr(x, n)
  {
    var right, left := F.Shr(x, n), Shl(x, 32 - n);
    forall i: nat | i < 32 ensures F.Bit(Or(right, left), i) == F.Bit(F.Rotr(x, n), i) {
      OrBit(right, left, i);
      ShiftedBits(x, right, left, n, 32 - n, i);
      RotrBit(x, n, i);
      Wrapped(n, 32 - n, i);
    }
    SameWords(Or(right, left), F.Rotr(x, n));
  }

  /** The macros are the functions of section 4.1.2 of FIPS 180-4. */
  lemma MacrosAreFunctions(x: F.Word)
    ensures Ep0(x) == F.BigSigma0(x) && Ep1(x) == F.BigSigma1(x)
    ensures Sig0(x) == F.Sigma0(x) && Sig1(x) == F.Sigma1(x)
  {
    RotRightIsRotr(x, 2);
    RotRightIsRotr(x, 13);
    RotRightIsRotr(x, 22);
    RotRightIsRotr(x, 6);
    RotRightIsRotr(x, 11);
    RotRightIsRotr(x, 25);
    RotRightIsRotr(x, 7);
    RotRightIsRotr(x, 18);
    RotRightIsRotr(x, 17);
    RotRightIsRotr(x, 19);
  }

  // ---------------------------------------------------------------- bytes

  lemma {:induction false} ShlSmall(x: F.Word, n: nat)
    requires x * F.Pow2(n) < 0x1_0000_0000
    ensures Shl(x, n) == x * F.Pow2(n)
  {
    if n > 0 {
      assert x * F.Pow2(n) == 2 * (x * F.Pow2(n - 1));
      ShlSmall(x, n - 1);
    }
  }

  /** Or of numbers that have no bit in common is their sum. */
  lemma OrIsSum(high: nat, k: nat, x: F.Word, y: F.Word)
    requires x == high * F.Pow2(k) && y < F.Pow2(k) && x + y < 0x1_0000_0000
    ensures Or(x, y) == x + y
  {
    forall i: nat | i < 32 ensures F.Bit(Or(x, y), i) == F.Bit(x + y, i) {
      OrBit(x, y, i);
      BitSplit(high, y, k, i);
      BitSplit(high, 0, k, i);
      if i >= k {
        NoHighBits(y, k, i);
      } else {
        NoHighBits(0, 0, i);
      }
    }
    SameWords(Or(x, y), x + y);
  }

  lemma Powers()
    ensures F.Pow2(8) == 0x100 && F.Pow2(16) == 0x1_0000 && F.Pow2(24) == 0x100_0000
  {
    assert F.Pow2(8) == 0x100;
    assert F.Pow2(16) == 0x1_0000 by { assert F.Pow2(12) == 0x1000; }
    assert F.Pow2(24) == 0x100_0000 by { assert F.Pow2(20) == 0x10_0000; }
  }

  /** Four numbers, each below the lowest place of the one before it. */
  lemma Stacked(a: uint8, b: uint8, c: uint8, p: F.Word, q: F.Word, r: F.Word, s: F.Word)
    requires p == a as int * 0x100_0000 && q == b as int * 0x1_0000 && r == c as int * 0x100 && s < 0x100
    ensures Or(Or(Or(p, q), r), s) == p + q + r + s
  {
    Powers();
    OrIsSum(a as int, 24, p, q);
    OrIsSum(a as int * 0x100 + b as int, 16, p + q, r);
    OrIsSum(a as int * 0x1_0000 + b as int * 0x100 + c as int, 8, p + q + r, s);
  }

  lemma WordOfIsBeWord(a: uint8, b: uint8, c: uint8, d: uint8)
    ensures WordOf(a, b, c, d) == F.BeWord(a, b, c, d)
  {
    Powers();
    ShlSmall(a as int, 24);
    ShlSmall(b as int, 16);
    ShlSmall(c as int, 8);
    Stacked(a, b, c, Shl(a as int, 24), Shl(b as int, 16), Shl(c as int, 8), d as int);
  }

  lemma MaskIsRemainder(x: F.Word)
    ensures F.And(x, 0xff) == x % 0x100
  {
    Powers();
    forall i: nat | i < 32 ensures F.Bit(F.And(x, 0xff), i) == F.Bit(x % 0x100, i) {
      F.BitwiseBit(F.BOTH, x, 0xff, 32, i);
      BitSplit(x / 0x100, x % 0x100, 8, i);
      if i < 8 {
        OnesBit(8, 0, i);
        NoHighBits(0, 0, i);
      } else {
        NoHighBits(0xff, 8, i);
        NoHighBits(x % 0x100, 8, i);
      }
    }
    SameWords(F.And(x, 0xff), x % 0x100);
  }
}
