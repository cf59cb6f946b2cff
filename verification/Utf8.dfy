/** The conversions between code points and UTF-8 that the TOML engine uses. */
module Utf8 {
  import opened Common

  const LIMIT := 0x1F_FFFF

  /** A continuation byte: the lowest six bits. */
  function Tail(code: nat): uint8 {
    (0x80 + code % 0x40) as uint8
  }

  function Tails(code: nat, n: nat): (b: Bytes)
    ensures |b| == n
  {
    if n == 0 then [] else Tails(code / 0x40, n - 1) + [Tail(code)]
  }

  /** What is left for the first byte when n continuation bytes follow. */
  function Head(code: nat, n: nat): nat {
    if n == 0 then code else Head(code / 0x40, n - 1)
  }

  /** How many continuation bytes a code point takes. */
  function Width(code: nat): (n: nat)
    ensures n <= 3
  {
    if code <= 0x7F then 0 else if code <= 0x7FF then 1 else if code <= 0xFFFF then 2 else 3
  }

  function Mark(n: nat): int
    requires n <= 3
  {
    if n == 0 then 0 else if n == 1 then 0xC0 else if n == 2 then 0xE0 else 0xF0
  }

  /** How much fits into the first byte. */
  function Room(n: nat): nat
    requires n <= 3
  {
    if n == 0 then 0x80 else if n == 1 then 0x20 else if n == 2 then 0x10 else 0x08
  }

  lemma HeadIs(v: nat)
    ensures Head(v, 1) == v / 0x40 && Head(v, 2) == v / 0x40 / 0x40 && Head(v, 3) == v / 0x40 / 0x40 / 0x40
  {
    var a, b, c := v / 0x40, v / 0x40 / 0x40, v / 0x40 / 0x40 / 0x40;
    assert Head(a, 0) == a && Head(b, 0) == b && Head(c, 0) == c;
    assert Head(a, 1) == b && Head(b, 1) == c;
    assert Head(a, 2) == c;
  }

  lemma HeadFits(code: nat)
    requires code <= LIMIT
    ensures Head(code, Width(code)) < Room(Width(code))
  {
    HeadIs(code);
  }

  /** The bytes of a code point; code points past the limit have none. Surrogates are not special. */
  function Encode(code: nat): Option<Bytes> {
    if code > LIMIT then None
    else
      HeadFits(code);
      var n := Width(code);
      Some([(Mark(n) + Head(code, n)) as uint8] + Tails(code, n))
  }

  datatype Decoded = Decoded(code: nat, used: nat)

  /** The value of n continuation bytes after a head, or none when one of them is not. */
  function Continued(head: nat, b: Bytes, n: nat): Option<nat>
    requires n <= |b|
  {
    if n == 0 then Some(head)
    else
      match Continued(head, b, n - 1)
      case None => None
      case Some(v) => if b[n - 1] as int / 0x40 == 2 then Some(v * 0x40 + b[n - 1] as int % 0x40) else None
  }

  function DecodeTail(head: nat, b: Bytes, n: nat): Option<Decoded>
  {
    if |b| < n + 1 then None
    else
      match Continued(head, b[1..], n)
      case None => None
      case Some(v) => Some(Decoded(v, n + 1))
  }

  /** The code point at the front of a text, and the bytes it takes. */
  function Decode(b: Bytes): Option<Decoded> {
    if b == [] then None
    else
      var i := b[0] as int;
      if i / 0x80 == 0 then Some(Decoded(i, 1))
      else if i / 0x20 == 0x6 then DecodeTail(i % 0x20, b, 1)
      else if i / 0x10 == 0xE then DecodeTail(i % 0x10, b, 2)
      else if i / 0x08 == 0x1E then DecodeTail(i % 0x08, b, 3)
      else None
  }

  /** Reading continuation bytes undoes writing them. */
  lemma {:induction false} TailsContinue(code: nat, n: nat, b: Bytes)
    requires n <= |b| && b[..n] == Tails(code, n)
    ensures Continued(Head(code, n), b, n) == Some(code)
  {
    if n > 0 {
      assert b[..n - 1] == Tails(code, n)[..n - 1] == Tails(code / 0x40, n - 1);
      assert b[n - 1] == Tails(code, n)[n - 1];
      TailsContinue(code / 0x40, n - 1, b);
    }
  }

  lemma {:induction false} ContinuedAreTails(head: nat, b: Bytes, n: nat)
    requires n <= |b| && Continued(head, b, n).Some?
    ensures
      var v := Continued(head, b, n).value;
      head == Head(v, n) && b[..n] == Tails(v, n)
  {
    if n > 0 {
      ContinuedAreTails(head, b, n - 1);
      assert b[..n] == b[..n - 1] + [b[n - 1]];
    }
  }

  /** Every code point up to the limit reads back as itself, whatever follows it. */
  lemma RoundTrip(code: nat, rest: Bytes)
    requires code <= LIMIT
    ensures Encode(code).Some?
    ensures Decode(Encode(code).value + rest) == Some(Decoded(code, |Encode(code).value|))
  {
    var n := Width(code);
    var e := Encode(code).value;
    var b := e + rest;
    HeadFits(code);
    assert b[1..][..n] == e[1..] == Tails(code, n);
    TailsContinue(code, n, b[1..]);
  }

  lemma HeadNarrow(v: nat, n: nat)
    requires n <= 3 && Head(v, n) < Room(n)
    ensures v <= LIMIT && Width(v) <= n
  {
    HeadIs(v);
  }

  /** The encoding of a decoded code point is never longer, and when it is as long it is the same bytes. */
  lemma DecodedIsEncoded(b: Bytes)
    requires Decode(b).Some?
    ensures
      var d := Decode(b).value;
      && d.code <= LIMIT && 0 < d.used <= |b| && |Encode(d.code).value| <= d.used
      && (|Encode(d.code).value| == d.used ==> b[..d.used] == Encode(d.code).value)
  {
    var d := Decode(b).value;
    var n := d.used - 1;
    if n > 0 {
      ContinuedAreTails(b[0] as int % Room(n), b[1..], n);
      assert b[1..][..n] == b[1..d.used];
    }
    HeadNarrow(d.code, n);
    assert b[..d.used] == [b[0]] + b[1..d.used];
  }

  /** The bytes written out. */
  lemma EncodedBytes(code: nat)
    ensures Encode(code) ==
      if code <= 0x7F then Some([code as uint8])
      else if code <= 0x7FF then Some([(0xC0 + code / 0x40) as uint8, (0x80 + code % 0x40) as uint8])
      else if code <= 0xFFFF then
        Some([(0xE0 + code / 0x1000) as uint8, (0x80 + code / 0x40 % 0x40) as uint8, (0x80 + code % 0x40) as uint8])
      else if code <= LIMIT then
        Some([(0xF0 + code / 0x4_0000) as uint8, (0x80 + code / 0x1000 % 0x40) as uint8,
              (0x80 + code / 0x40 % 0x40) as uint8, (0x80 + code % 0x40) as uint8])
      else None
  {
    var c1, c2 := code / 0x40, code / 0x40 / 0x40;
    assert c2 == code / 0x1000 && c2 / 0x40 == code / 0x4_0000;
    assert Tails(code, 1) == [Tail(code)] by { assert Tails(c1, 0) == []; }
    assert Tails(c1, 1) == [Tail(c1)] by { assert Tails(c2, 0) == []; }
    assert Tails(code, 2) == [Tail(c1), Tail(code)];
    assert Tails(c2, 1) == [Tail(c2)] by { assert Tails(c2 / 0x40, 0) == []; }
    assert Tails(c1, 2) == [Tail(c2), Tail(c1)];
    assert Tails(code, 3) == [Tail(c2), Tail(c1), Tail(code)];
    HeadIs(code);
    assert Head(code, 0) == code && Tails(code, 0) == [];
    assert Head(code, 3) == code / 0x4_0000 && Head(code, 2) == code / 0x1000;
    assert Tail(c2) == (0x80 + code / 0x1000 % 0x40) as uint8 && Tail(c1) == (0x80 + code / 0x40 % 0x40) as uint8;
    if code <= LIMIT {
      HeadFits(code);
      var x := (Mark(Width(code)) + Head(code, Width(code))) as uint8;
      assert [x] + [] == [x] && [x] + [Tail(code)] == [x, Tail(code)];
      assert [x] + [Tail(c1), Tail(code)] == [x, Tail(c1), Tail(code)];
      assert [x] + [Tail(c2), Tail(c1), Tail(code)] == [x, Tail(c2), Tail(c1), Tail(code)];
    }
  }

  /** Writes a code point at position `at`; fails, writing nothing, past the limit. */
  method EncodeAt(code: nat, buf: array<uint8>, at: nat) returns (n: int)
    requires Encode(code).Some? ==> at + |Encode(code).value| <= buf.Length
    modifies buf
    ensures Encode(code).None? ==> n == -1 && buf[..] == old(buf[..])
    ensures Encode(code).Some? ==>
      && n == |Encode(code).value|
      && buf[..] == old(buf[..at]) + Encode(code).value + old(buf[at + n..])
  {
    EncodedBytes(code);
    if code <= 0x7F {
      buf[at] := code as uint8;
      return 1;
    }
    if code <= 0x7FF {
      buf[at] := (0xC0 + code / 0x40) as uint8;
      buf[at + 1] := (0x80 + code % 0x40) as uint8;
      return 2;
    }
    if code <= 0xFFFF {
      buf[at] := (0xE0 + code / 0x1000) as uint8;
      buf[at + 1] := (0x80 + code / 0x40 % 0x40) as uint8;
      buf[at + 2] := (0x80 + code % 0x40) as uint8;
      return 3;
    }
    if code <= 0x1F_FFFF {
      buf[at] := (0xF0 + code / 0x4_0000) as uint8;
      buf[at + 1] := (0x80 + code / 0x1000 % 0x40) as uint8;
      buf[at + 2] := (0x80 + code / 0x40 % 0x40) as uint8;
      buf[at + 3] := (0x80 + code % 0x40) as uint8;
      return 4;
    }
    return -1;
  }
}
