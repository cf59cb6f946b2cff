/** The hash context as the object it is: byte buffer, fill count, bit counter, state words. */
module Sha256Context {
  import opened Common
  import F = Fips180
  import M = Sha256Macros
  import S = Sha256

  lemma RoundsStep(s: F.State, w: seq<F.Word>, t: nat, v: F.State)
    requires t < 64 == |w| && v == F.Rounds(s, w, t)
    ensures F.Rounds(s, w, t + 1) == F.Round(v, F.K[t], w[t])
  {
  }

  function Words(s: F.State): (w: seq<F.Word>)
    ensures |w| == 8
  {
    [s.a, s.b, s.c, s.d, s.e, s.f, s.g, s.h]
  }

  /** Byte k of the output is a byte of word k / 4. */
  lemma OutputAt(s: F.State, k: nat)
    requires k < 32
    ensures F.Output(s)[k] == F.ByteOf(Words(s)[k / 4], k % 4)
  {
  }

  lemma BytesAreOutput(out: Bytes, s: F.State)
    requires |out| == 32
    requires forall k :: 0 <= k < 32 ==> out[k] == F.ByteOf(Words(s)[k / 4], k % 4)
    ensures out == F.Output(s)
  {
    forall k | 0 <= k < 32 ensures out[k] == F.Output(s)[k] {
      OutputAt(s, k);
    }
  }

  lemma FourWritten(before: Bytes, after: Bytes, four: Bytes, i: nat, from: nat)
    requires i < 4 == |four| && 4 * from + i + 12 < |before|
    requires
      var p := 4 * from + i;
      after == before[p := four[0]][p + 4 := four[1]][p + 8 := four[2]][p + 12 := four[3]]
    ensures |after| == |before|
    ensures forall k :: 0 <= k < |before| ==>
      after[k] == if k % 4 == i && from <= k / 4 < from + 4 then four[k / 4 - from] else before[k]
  {
  }

  class Context {
    const data: array<uint8>
    const state: array<F.Word>
    var datalen: nat
    var bitlen: nat

    ghost predicate Valid()
      reads this
    {
      data.Length == F.BLOCK && state.Length == 8 && datalen < F.BLOCK
    }

    ghost function Value(): F.State
      requires Valid()
      reads this, state
    {
      F.State(state[0], state[1], state[2], state[3], state[4], state[5], state[6], state[7])
    }

    /** The stream the context stands for; bytes of the buffer past the fill count are junk. */
    ghost function Stream(): S.Stream
      requires Valid()
      reads this, data, state
    {
      S.Stream(Value(), data[..datalen], bitlen)
    }

    constructor ()
      ensures Valid() && fresh(data) && fresh(state) && Stream() == S.FRESH
    {
      data := new uint8[F.BLOCK];
      state := new F.Word[8];
      datalen, bitlen := 0, 0;
      new;
      state[0], state[1], state[2], state[3] := 0x6a09e667, 0xbb67ae85, 0x3c6ef372, 0xa54ff53a;
      state[4], state[5], state[6], state[7] := 0x510e527f, 0x9b05688c, 0x1f83d9ab, 0x5be0cd19;
    }

    method Schedule() returns (m: array<F.Word>)
      requires Valid()
      ensures fresh(m) && m[..] == F.Schedule(data[..], 64)
    {
      m := new F.Word[64];
      ghost var block := data[..];
      var i, j := 0, 0;
      while i < 16
        invariant 0 <= i <= 16 && j == 4 * i
        invariant m[..i] == F.Schedule(block, i)
      {
        m[i] := M.WordOf(data[j], data[j + 1], data[j + 2], data[j + 3]);
        M.WordOfIsBeWord(data[j], data[j + 1], data[j + 2], data[j + 3]);
        assert m[..i + 1] == m[..i] + [m[i]];
        i, j := i + 1, j + 4;
      }
      while i < 64
        invariant 16 <= i <= 64
        invariant m[..i] == F.Schedule(block, i)
      {
        ghost var w := m[..i];
        m[i] := F.Add(F.Add(F.Add(M.Sig1(m[i - 2]), m[i - 7]), M.Sig0(m[i - 15])), m[i - 16]);
        M.MacrosAreFunctions(w[i - 2]);
        M.MacrosAreFunctions(w[i - 15]);
        assert m[i] == F.NextWord(w[i - 2], w[i - 7], w[i - 15], w[i - 16]);
        assert m[..i + 1] == w + [m[i]];
        i := i + 1;
      }
      assert m[..] == m[..64];
    }

    /** One block: the schedule, then 64 rounds, then the sum with the old state. */
    method Transform()
      requires Valid()
      modifies state
      ensures Value() == F.COMPRESS(old(Value()), data[..])
    {
      ghost var before := Value();
      var m := Schedule();
      ghost var w, v := m[..], before;
      var a, b, c, d := state[0], state[1], state[2], state[3];
      var e, f, g, h := state[4], state[5], state[6], state[7];
      for i := 0 to 64
        invariant v == F.Rounds(before, w, i)
        invariant F.State(a, b, c, d, e, f, g, h) == v
        invariant m[..] == w && Value() == before
      {
        RoundsStep(before, w, i, v);
        v := F.Round(v, F.K[i], w[i]);
        M.MacrosAreFunctions(e);
        M.MacrosAreFunctions(a);
        var t1 := F.Add(F.Add(F.Add(F.Add(h, M.Ep1(e)), F.Ch(e, f, g)), F.K[i]), m[i]);
        var t2 := F.Add(M.Ep0(a), F.Maj(a, b, c));
        h := g;
        g := f;
        f := e;
        e := F.Add(d, t1);
        d := c;
        c := b;
        b := a;
        a := F.Add(t1, t2);
      }
      state[0] := F.Add(state[0], a);
      state[1] := F.Add(state[1], b);
      state[2] := F.Add(state[2], c);
      state[3] := F.Add(state[3], d);
      state[4] := F.Add(state[4], e);
      state[5] := F.Add(state[5], f);
      state[6] := F.Add(state[6], g);
      state[7] := F.Add(state[7], h);
      assert Value() == F.Plus(before, v);
    }

    method Push(x: uint8)
      requires Valid()
      modifies this, data, state
      ensures Valid() && Stream() == S.Pushed(F.COMPRESS, old(Stream()), x)
    {
      ghost var tail := data[..datalen];
      data[datalen] := x;
      assert data[..datalen + 1] == tail + [x];
      if datalen + 1 == F.BLOCK {
        assert data[..] == tail + [x];
        Transform();
        bitlen := (bitlen + 512) % S.U64;
        datalen := 0;
      } else {
        datalen := datalen + 1;
      }
    }

    /** The loop counter has 32 bits, so a longer chunk would never end. */
    method Update(chunk: Bytes)
      requires Valid() && |chunk| < 0x1_0000_0000
      modifies this, data, state
      ensures Valid() && Stream() == S.PushedAll(F.COMPRESS, old(Stream()), chunk)
    {
      for i := 0 to |chunk|
        invariant Valid() && Stream() == S.PushedAll(F.COMPRESS, old(Stream()), chunk[..i])
      {
        assert chunk[..i + 1][..i] == chunk[..i];
        Push(chunk[i]);
      }
      assert chunk[..|chunk|] == chunk;
    }

    /** Zero bytes from position `from` up to `to`. */
    method Fill(from: nat, to: nat)
      requires Valid() && from <= to <= F.BLOCK
      modifies data
      ensures data[..to] == old(data[..from]) + F.Zeros(to - from)
    {
      var i := from;
      while i < to
        invariant from <= i <= to
        invariant data[..i] == old(data[..from]) + F.Zeros(i - from)
      {
        data[i] := 0;
        assert data[..i + 1] == data[..i] + [0];
        assert F.Zeros(i + 1 - from) == F.Zeros(i - from) + [0];
        i := i + 1;
      }
    }

    /** The bit length into the last eight bytes, most significant byte first. */
    method StoreLength()
      requires Valid()
      modifies data
      ensures data[..] == old(data[..56]) + F.Be64(bitlen)
    {
      data[63] := (bitlen % 0x100) as uint8;
      data[62] := (bitlen / 0x100 % 0x100) as uint8;
      data[61] := (bitlen / 0x1_0000 % 0x100) as uint8;
      data[60] := (bitlen / 0x100_0000 % 0x100) as uint8;
      data[59] := (bitlen / 0x1_0000_0000 % 0x100) as uint8;
      data[58] := (bitlen / 0x100_0000_0000 % 0x100) as uint8;
      data[57] := (bitlen / 0x1_0000_0000_0000 % 0x100) as uint8;
      data[56] := (bitlen / 0x100_0000_0000_0000 % 0x100) as uint8;
    }

    /** The marker and the zero bytes; a block that leaves no room for the length goes through first. */
    method Pad()
      requires Valid()
      modifies data, state
      ensures
        var s := old(Stream());
        var n := |s.tail|;
        if n < 56 then
          Value() == s.value && data[..56] == s.tail + [0x80] + F.Zeros(55 - n)
        else
          Value() == F.COMPRESS(s.value, s.tail + [0x80] + F.Zeros(63 - n)) && data[..56] == F.Zeros(56)
    {
      ghost var tail := data[..datalen];
      var i := datalen;
      data[i] := 0x80;
      assert data[..i + 1] == tail + [0x80];
      if datalen < 56 {
        Fill(i + 1, 56);
      } else {
        Fill(i + 1, 64);
        ghost var full := tail + [0x80] + F.Zeros(63 - |tail|);
        assert data[..] == data[..64] == full;
        Transform();
        assert Value() == F.COMPRESS(old(Value()), full);
        Fill(0, 56);
        assert data[..56] == F.Zeros(56);
      }
    }

    /** Everything but the output: the last block or two go through. */
    method Absorb()
      requires Valid()
      modifies this, data, state
      ensures Valid() && Value() == S.Finished(F.COMPRESS, old(Stream()))
    {
      ghost var s := Stream();
      Pad();
      ghost var value, front := Value(), data[..56];
      bitlen := (bitlen + datalen * 8) % S.U64;
      assert bitlen == S.Length(s);
      StoreLength();
      assert data[..] == front + F.Be64(S.Length(s));
      Transform();
      assert Value() == F.COMPRESS(value, front + F.Be64(S.Length(s)));
    }

    /** Pads, appends the length and writes the state out, most significant bytes first. */
    method Final(hash: array<uint8>)
      requires Valid() && hash.Length >= 32 && hash != data
      modifies this, data, state, hash
      ensures hash[..32] == F.Output(S.Finished(F.COMPRESS, old(Stream())))
      ensures hash[32..] == old(hash[32..])
    {
      Absorb();
      WriteOut(hash);
    }

    method WriteOut(hash: array<uint8>)
      requires Valid() && hash.Length >= 32
      modifies hash
      ensures hash[..32] == F.Output(Value())
      ensures hash[32..] == old(hash[32..])
    {
      ghost var words := Words(Value());
      for i := 0 to 4
        invariant forall k :: 0 <= k < 32 && k % 4 < i ==> hash[k] == F.ByteOf(words[k / 4], k % 4)
        invariant hash[32..] == old(hash[32..])
      {
        WriteRow(hash, i);
      }
      BytesAreOutput(hash[..32], Value());
    }

    /** Byte i of all eight words. */
    method WriteRow(hash: array<uint8>, i: nat)
      requires Valid() && hash.Length >= 32 && i < 4
      modifies hash
      ensures forall k :: 0 <= k < 32 ==>
        hash[k] == if k % 4 == i then F.ByteOf(Words(Value())[k / 4], i) else old(hash[k])
      ensures hash[32..] == old(hash[32..])
    {
      WriteFour(hash, i, 0);
      WriteFour(hash, i, 4);
    }

    /** Byte i of four words. */
    method WriteFour(hash: array<uint8>, i: nat, from: nat)
      requires Valid() && hash.Length >= 32 && i < 4 && from <= 4
      modifies hash
      ensures forall k :: 0 <= k < hash.Length ==>
        hash[k] == if k % 4 == i && from <= k / 4 < from + 4 then F.ByteOf(Words(Value())[k / 4], i) else old(hash[k])
    {
      ghost var before, p := hash[..], 4 * from + i;
      hash[4 * from + i] := M.ByteAt(state[from], i);
      hash[4 * from + i + 4] := M.ByteAt(state[from + 1], i);
      hash[4 * from + i + 8] := M.ByteAt(state[from + 2], i);
      hash[4 * from + i + 12] := M.ByteAt(state[from + 3], i);
      ghost var four := [hash[p], hash[p + 4], hash[p + 8], hash[p + 12]];
      assert hash[..] == before[p := four[0]][p + 4 := four[1]][p + 8 := four[2]][p + 12 := four[3]];
      FourWritten(before, hash[..], four, i, from);
    }
  }

  function Joined(chunks: seq<Bytes>): Bytes {
    if chunks == [] then [] else Joined(chunks[..|chunks| - 1]) + chunks[|chunks| - 1]
  }

  /**
   * Init, any sequence of updates, final: the digest of FIPS 180-4 of everything fed in, for
   * every way of cutting a message of fewer than 2^64 bits into chunks.
   */
  method Digest(chunks: seq<Bytes>) returns (digest: Bytes)
    requires forall i :: 0 <= i < |chunks| ==> |chunks[i]| < 0x1_0000_0000
    requires 8 * |Joined(chunks)| < S.U64
    ensures digest == F.Sha256(Joined(chunks))
  {
    var ctx := new Context();
    for i := 0 to |chunks|
      invariant ctx.Valid() && S.Streams(F.COMPRESS, ctx.Stream(), Joined(chunks[..i]))
    {
      assert chunks[..i + 1][..i] == chunks[..i];
      S.PushAllStreams(F.COMPRESS, ctx.Stream(), Joined(chunks[..i]), chunks[i]);
      ctx.Update(chunks[i]);
    }
    assert chunks[..|chunks|] == chunks;
    S.FinishedIsDigest(F.COMPRESS, ctx.Stream(), Joined(chunks));
    var hash := new uint8[32];
    ctx.Final(hash);
    digest := hash[..32];
  }
}
