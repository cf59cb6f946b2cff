/** SHA-256 as FIPS 180-4 defines it: sections 2.2.2, 3.2, 4.1.2, 4.2.2, 5.1.1, 5.2.1, 5.3.3 and 6.2.2. */
module Fips180 {
  import opened Common

  /** A 32-bit word as the number it stands for. */
  type Word = x: int | 0 <= x < 0x1_0000_0000 witness 0

  const BLOCK := 64

  /** Addition modulo 2^32. */
  function Add(x: Word, y: Word): Word {
    (x + y) % 0x1_0000_0000
  }

  /** The lowest n bits of two numbers combined bit by bit. */
  function Bitwise(op: (bool, bool) -> bool, x: nat, y: nat, n: nat): nat {
    if n == 0 then 0
    else (if op(x % 2 == 1, y % 2 == 1) then 1 else 0) + 2 * Bitwise(op, x / 2, y / 2, n - 1)
  }

  function Pow2(n: nat): nat {
    if n == 0 then 1 else 2 * Pow2(n - 1)
  }

  lemma {:induction false} BitwiseBound(op: (bool, bool) -> bool, x: nat, y: nat, n: nat)
    ensures Bitwise(op, x, y, n) < Pow2(n)
  {
    if n > 0 {
      BitwiseBound(op, x / 2, y / 2, n - 1);
    }
  }

  const BOTH: (bool, bool) -> bool := (p, q) => p && q
  const DIFFER: (bool, bool) -> bool := (p, q) => p != q

  lemma Pow2Of32()
    ensures Pow2(32) == 0x1_0000_0000
  {
    assert Pow2(8) == 0x100;
    assert Pow2(16) == 0x1_0000 by { assert Pow2(12) == 0x1000; }
    assert Pow2(24) == 0x100_0000 by { assert Pow2(20) == 0x10_0000; }
    assert Pow2(28) == 0x1000_0000;
  }

  function And(x: Word, y: Word): Word {
    BitwiseBound(BOTH, x, y, 32);
    Pow2Of32();
    Bitwise(BOTH, x, y, 32)
  }

  function Xor(x: Word, y: Word): Word {
    BitwiseBound(DIFFER, x, y, 32);
    Pow2Of32();
    Bitwise(DIFFER, x, y, 32)
  }

  /** Bit i of a number, counted from the least significant one. */
  function Bit(x: nat, i: nat): bool {
    if i == 0 then x % 2 == 1 else Bit(x / 2, i - 1)
  }

  /** Bitwise really combines the bits at each position. */
  lemma {:induction false} BitwiseBit(op: (bool, bool) -> bool, x: nat, y: nat, n: nat, i: nat)
    requires i < n
    ensures Bit(Bitwise(op, x, y, n), i) == op(Bit(x, i), Bit(y, i))
  {
    var rest := Bitwise(op, x / 2, y / 2, n - 1);
    assert Bitwise(op, x, y, n) / 2 == rest;
    if i > 0 {
      BitwiseBit(op, x / 2, y / 2, n - 1, i - 1);
    }
  }

  function Not(x: Word): Word {
    0xffff_ffff - x
  }

  function Shr(x: Word, n: nat): Word {
    if n == 0 then x else Shr(x, n - 1) / 2
  }

  /** Rotation to the right, one bit at a time. */
  function Rotr(x: Word, n: nat): Word {
    if n == 0 then x else Rotr(x, n - 1) / 2 + Rotr(x, n - 1) % 2 * 0x8000_0000
  }

  // ---------------------------------------------------------------- section 4.1.2

  function Ch(x: Word, y: Word, z: Word): Word {
    Xor(And(x, y), And(Not(x), z))
  }

  function Maj(x: Word, y: Word, z: Word): Word {
    Xor(Xor(And(x, y), And(x, z)), And(y, z))
  }

  function BigSigma0(x: Word): Word {
    Xor(Xor(Rotr(x, 2), Rotr(x, 13)), Rotr(x, 22))
  }

  function BigSigma1(x: Word): Word {
    Xor(Xor(Rotr(x, 6), Rotr(x, 11)), Rotr(x, 25))
  }

  function Sigma0(x: Word): Word {
    Xor(Xor(Rotr(x, 7), Rotr(x, 18)), Shr(x, 3))
  }

  function Sigma1(x: Word): Word {
    Xor(Xor(Rotr(x, 17), Rotr(x, 19)), Shr(x, 10))
  }

  // ---------------------------------------------------------------- section 4.2.2

  const K0: seq<Word> := [
    0x428a2f98, 0x71374491, 0xb5c0fbcf, 0xe9b5dba5, 0x3956c25b, 0x59f111f1, 0x923f82a4, 0xab1c5ed5,
    0xd807aa98, 0x12835b01, 0x243185be, 0x550c7dc3, 0x72be5d74, 0x80deb1fe, 0x9bdc06a7, 0xc19bf174]
  const K1: seq<Word> := [
    0xe49b69c1, 0xefbe4786, 0x0fc19dc6, 0x240ca1cc, 0x2de92c6f, 0x4a7484aa, 0x5cb0a9dc, 0x76f988da,
    0x983e5152, 0xa831c66d, 0xb00327c8, 0xbf597fc7, 0xc6e00bf3, 0xd5a79147, 0x06ca6351, 0x14292967]
  const K2: seq<Word> := [
    0x27b70a85, 0x2e1b2138, 0x4d2c6dfc, 0x53380d13, 0x650a7354, 0x766a0abb, 0x81c2c92e, 0x92722c85,
    0xa2bfe8a1, 0xa81a664b, 0xc24b8b70, 0xc76c51a3, 0xd192e819, 0xd6990624, 0xf40e3585, 0x106aa070]
  const K3: seq<Word> := [
    0x19a4c116, 0x1e376c08, 0x2748774c, 0x34b0bcb5, 0x391c0cb3, 0x4ed8aa4a, 0x5b9cca4f, 0x682e6ff3,
    0x748f82ee, 0x78a5636f, 0x84c87814, 0x8cc70208, 0x90befffa, 0xa4506ceb, 0xbef9a3f7, 0xc67178f2]
  const K: seq<Word> := K0 + K1 + K2 + K3

  // ---------------------------------------------------------------- section 5.1.1

  /** Zero bytes between the 0x80 byte and the length field. */
  function ZeroBytes(len: nat): (k: nat)
    ensures (len + 1 + k) % BLOCK == 56
  {
    (119 - len % BLOCK) % BLOCK
  }

  /** It is the smallest number that leaves room for exactly the length field. */
  lemma ZeroBytesLeast(len: nat, j: nat)
    requires (len + 1 + j) % BLOCK == 56
    ensures ZeroBytes(len) <= j
  {
    var q, r := len / BLOCK, len % BLOCK;
    assert len + 1 + j == q * BLOCK + (r + 1 + j);
  }

  /** A 64-bit value, most significant byte first. */
  function Be64(n: nat): (b: Bytes)
    ensures |b| == 8
  {
    [(n / 0x100_0000_0000_0000 % 0x100) as uint8, (n / 0x1_0000_0000_0000 % 0x100) as uint8,
     (n / 0x100_0000_0000 % 0x100) as uint8, (n / 0x1_0000_0000 % 0x100) as uint8,
     (n / 0x100_0000 % 0x100) as uint8, (n / 0x1_0000 % 0x100) as uint8,
     (n / 0x100 % 0x100) as uint8, (n % 0x100) as uint8]
  }

  function Zeros(n: nat): (z: Bytes)
    ensures |z| == n && forall i :: 0 <= i < n ==> z[i] == 0
  {
    seq(n, i => 0)
  }

  function Padding(len: nat): Bytes {
    [0x80] + Zeros(ZeroBytes(len)) + Be64(8 * len)
  }

  // ---------------------------------------------------------------- sections 5.2.1 and 6.2.2

  /** A word from four bytes, most significant first. */
  function BeWord(a: uint8, b: uint8, c: uint8, d: uint8): Word {
    a as int * 0x100_0000 + b as int * 0x1_0000 + c as int * 0x100 + d as int
  }

  function NextWord(w2: Word, w7: Word, w15: Word, w16: Word): Word {
    Add(Add(Add(Sigma1(w2), w7), Sigma0(w15)), w16)
  }

  /** The first n words of the message schedule. */
  function Schedule(block: Bytes, n: nat): (w: seq<Word>)
    requires |block| == BLOCK
    ensures |w| == n
  {
    if n == 0 then []
    else
      var w, t := Schedule(block, n - 1), n - 1;
      w + [if t < 16 then BeWord(block[4 * t], block[4 * t + 1], block[4 * t + 2], block[4 * t + 3])
           else NextWord(w[t - 2], w[t - 7], w[t - 15], w[t - 16])]
  }

  datatype State = State(a: Word, b: Word, c: Word, d: Word, e: Word, f: Word, g: Word, h: Word)

  // section 5.3.3
  const H0 := State(0x6a09e667, 0xbb67ae85, 0x3c6ef372, 0xa54ff53a, 0x510e527f, 0x9b05688c, 0x1f83d9ab, 0x5be0cd19)

  function T1(e: Word, f: Word, g: Word, h: Word, k: Word, w: Word): Word {
    Add(Add(Add(Add(h, BigSigma1(e)), Ch(e, f, g)), k), w)
  }

  function T2(a: Word, b: Word, c: Word): Word {
    Add(BigSigma0(a), Maj(a, b, c))
  }

  function Round(s: State, k: Word, w: Word): State {
    var t1 := T1(s.e, s.f, s.g, s.h, k, w);
    var t2 := T2(s.a, s.b, s.c);
    State(Add(t1, t2), s.a, s.b, s.c, Add(s.d, t1), s.e, s.f, s.g)
  }

  /** The working variables after the first t rounds. */
  function Rounds(s: State, w: seq<Word>, t: nat): State
    requires t <= 64 == |w|
  {
    if t == 0 then s else Round(Rounds(s, w, t - 1), K[t - 1], w[t - 1])
  }

  function Plus(x: State, y: State): State {
    State(Add(x.a, y.a), Add(x.b, y.b), Add(x.c, y.c), Add(x.d, y.d),
          Add(x.e, y.e), Add(x.f, y.f), Add(x.g, y.g), Add(x.h, y.h))
  }

  function Compress(s: State, block: Bytes): State
    requires |block| == BLOCK
  {
    Plus(s, Rounds(s, Schedule(block, 64), 64))
  }

  function Block(m: Bytes, i: nat): (b: Bytes)
    requires BLOCK * (i + 1) <= |m|
    ensures |b| == BLOCK
  {
    m[BLOCK * i..BLOCK * (i + 1)]
  }

  type Compression = (State, Bytes) -> State

  /** The i-th hash value: i blocks of `m` absorbed one after the other. */
  function HashValue(f: Compression, m: Bytes, i: nat): State
    requires BLOCK * i <= |m|
  {
    if i == 0 then H0 else f(HashValue(f, m, i - 1), Block(m, i - 1))
  }

  const COMPRESS: Compression := (s, block) => if |block| == BLOCK then Compress(s, block) else s

  /** Byte i of a word, counted from the most significant one. */
  function ByteOf(w: Word, i: nat): uint8
    requires i < 4
  {
    (Shr(w, 24 - 8 * i) % 0x100) as uint8
  }

  function BeBytes(w: Word): (b: Bytes)
    ensures |b| == 4
  {
    [ByteOf(w, 0), ByteOf(w, 1), ByteOf(w, 2), ByteOf(w, 3)]
  }

  function Output(s: State): (b: Bytes)
    ensures |b| == 32
  {
    BeBytes(s.a) + BeBytes(s.b) + BeBytes(s.c) + BeBytes(s.d) + BeBytes(s.e) + BeBytes(s.f) + BeBytes(s.g) + BeBytes(s.h)
  }

  /** The digest of a message of fewer than 2^64 bits. */
  function Sha256(m: Bytes): (digest: Bytes)
    ensures |digest| == 32
  {
    var padded := m + Padding(|m|);
    Output(HashValue(COMPRESS, padded, |padded| / BLOCK))
  }
}
