/**
 * The streaming hash: a 64-byte buffer, a bit counter and eight state words updated in place,
 * proved to give the one-shot digest of everything it was fed.
 */
module Sha256 {
  import opened Common
  import F = Fips180

  // ---------------------------------------------------------------- streams as values

  const U64 := 0x1_0000_0000_0000_0000

  /** The hash value so far, the bytes not yet absorbed, and the bits absorbed modulo 2^64. */
  datatype Stream = Stream(value: F.State, tail: Bytes, bits: nat)

  const FRESH := Stream(F.H0, [], 0)

  function Pushed(f: F.Compression, s: Stream, x: uint8): Stream {
    var tail := s.tail + [x];
    if |tail| == F.BLOCK then Stream(f(s.value, tail), [], (s.bits + 512) % U64) else s.(tail := tail)
  }

  function PushedAll(f: F.Compression, s: Stream, chunk: Bytes): Stream {
    if chunk == [] then s
    else
      var n := |chunk| - 1;
      Pushed(f, PushedAll(f, s, chunk[..n]), chunk[n])
  }

  function Length(s: Stream): nat {
    (s.bits + 8 * |s.tail|) % U64
  }

  /** The hash value after padding: one more block, or two when the length does not fit. */
  function Finished(f: F.Compression, s: Stream): F.State
    requires |s.tail| < F.BLOCK
  {
    if |s.tail| < 56 then
      f(s.value, s.tail + [0x80] + F.Zeros(55 - |s.tail|) + F.Be64(Length(s)))
    else
      f(f(s.value, s.tail + [0x80] + F.Zeros(63 - |s.tail|)), F.Zeros(56) + F.Be64(Length(s)))
  }

  /** `s` is the stream of a message. */
  ghost predicate Streams(f: F.Compression, s: Stream, m: Bytes) {
    var k := |m| / F.BLOCK;
    && s.value == F.HashValue(f, m, k)
    && s.tail == m[F.BLOCK * k..]
    && s.bits == 512 * k % U64
  }

  /** A hash value depends on the blocks before it only. */
  lemma {:induction false} HashPrefix(f: F.Compression, m: Bytes, n: Bytes, i: nat)
    requires F.BLOCK * i <= |m| && m <= n
    ensures F.HashValue(f, n, i) == F.HashValue(f, m, i)
  {
    if i > 0 {
      HashPrefix(f, m, n, i - 1);
      assert F.Block(n, i - 1) == F.Block(m, i - 1);
    }
  }

  /** One more byte behind k whole blocks and n bytes. */
  lemma BlocksAfter(k: nat, n: nat)
    requires n < F.BLOCK
    ensures (F.BLOCK * k + n) / F.BLOCK == k
    ensures (F.BLOCK * k + n + 1) / F.BLOCK == if n + 1 == F.BLOCK then k + 1 else k
    ensures (512 * k % U64 + 512) % U64 == 512 * (k + 1) % U64
  {
  }

  lemma PushStreams(f: F.Compression, s: Stream, m: Bytes, x: uint8)
    requires Streams(f, s, m)
    ensures Streams(f, Pushed(f, s, x), m + [x])
  {
    var k, n := |m| / F.BLOCK, m + [x];
    BlocksAfter(k, |m| % F.BLOCK);
    HashPrefix(f, m, n, k);
    assert s.tail + [x] == n[F.BLOCK * k..];
    if |s.tail| + 1 == F.BLOCK {
      assert F.Block(n, k) == s.tail + [x];
    }
  }

  /** However a message is cut into chunks, the stream is that of the whole. */
  lemma {:induction false} PushAllStreams(f: F.Compression, s: Stream, m: Bytes, chunk: Bytes)
    requires Streams(f, s, m)
    ensures Streams(f, PushedAll(f, s, chunk), m + chunk)
  {
    if chunk == [] {
      assert m + chunk == m;
    } else {
      var n := |chunk| - 1;
      PushAllStreams(f, s, m, chunk[..n]);
      PushStreams(f, PushedAll(f, s, chunk[..n]), m + chunk[..n], chunk[n]);
      assert m + chunk == m + chunk[..n] + [chunk[n]];
    }
  }

  /** One more block behind whole ones. */
  lemma AppendBlock(f: F.Compression, whole: Bytes, k: nat, b: Bytes)
    requires |whole| == F.BLOCK * k && |b| == F.BLOCK
    ensures |whole + b| == F.BLOCK * (k + 1)
    ensures F.HashValue(f, whole + b, k + 1) == f(F.HashValue(f, whole, k), b)
  {
    var n := whole + b;
    HashPrefix(f, whole, n, k);
    assert F.Block(n, k) == b;
  }

  /** The two padding branches give the blocks of the padded message. */
  lemma PaddingBranches(m: Bytes, k: nat, tail: Bytes)
    requires k == |m| / F.BLOCK && tail == m[F.BLOCK * k..]
    ensures
      var whole, len := m[..F.BLOCK * k], F.Be64(8 * |m|);
      m + F.Padding(|m|) ==
        if |tail| < 56 then whole + (tail + [0x80] + F.Zeros(55 - |tail|) + len)
        else whole + (tail + [0x80] + F.Zeros(63 - |tail|)) + (F.Zeros(56) + len)
  {
    var whole, len, n := m[..F.BLOCK * k], F.Be64(8 * |m|), |tail|;
    assert |m| % F.BLOCK == n;
    assert m == whole + tail;
    if n < 56 {
      assert F.ZeroBytes(|m|) == 55 - n;
    } else {
      assert F.ZeroBytes(|m|) == 119 - n;
      assert F.Zeros(119 - n) == F.Zeros(63 - n) + F.Zeros(56);
    }
  }

  /** The padded message is absorbed block by block as finishing does. */
  lemma FinishedAbsorbs(f: F.Compression, s: Stream, whole: Bytes, k: nat, len: Bytes)
    requires |whole| == F.BLOCK * k && s.value == F.HashValue(f, whole, k)
    requires |s.tail| < F.BLOCK && len == F.Be64(Length(s))
    ensures
      var n := |s.tail|;
      var padded := if n < 56 then whole + (s.tail + [0x80] + F.Zeros(55 - n) + len)
                    else whole + (s.tail + [0x80] + F.Zeros(63 - n)) + (F.Zeros(56) + len);
      |padded| % F.BLOCK == 0 && Finished(f, s) == F.HashValue(f, padded, |padded| / F.BLOCK)
  {
    var n := |s.tail|;
    if n < 56 {
      AppendBlock(f, whole, k, s.tail + [0x80] + F.Zeros(55 - n) + len);
    } else {
      var b := s.tail + [0x80] + F.Zeros(63 - n);
      AppendBlock(f, whole, k, b);
      AppendBlock(f, whole + b, k + 1, F.Zeros(56) + len);
    }
  }

  /** The counter and the fill count give the length in bits while that is below 2^64. */
  lemma LengthIsExact(f: F.Compression, s: Stream, m: Bytes)
    requires Streams(f, s, m) && 8 * |m| < U64
    ensures Length(s) == 8 * |m| && |s.tail| < F.BLOCK
  {
    var k := |m| / F.BLOCK;
    assert |s.tail| == |m| - F.BLOCK * k;
    assert 512 * k <= 8 * |m|;
  }

  /** Finishing the stream of a message of fewer than 2^64 bits gives its padded hash value. */
  lemma FinishedIsDigest(f: F.Compression, s: Stream, m: Bytes)
    requires Streams(f, s, m) && 8 * |m| < U64
    ensures
      var padded := m + F.Padding(|m|);
      |s.tail| < F.BLOCK && Finished(f, s) == F.HashValue(f, padded, |padded| / F.BLOCK)
  {
    var k := |m| / F.BLOCK;
    var whole := m[..F.BLOCK * k];
    LengthIsExact(f, s, m);
    PaddingBranches(m, k, s.tail);
    HashPrefix(f, whole, m, k);
    FinishedAbsorbs(f, s, whole, k, F.Be64(8 * |m|));
  }
}
