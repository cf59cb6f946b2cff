/**
 * The wire format of the IPC channel: a type byte, the payload size in four bytes and the
 * payload, with at most one file descriptor riding on the first byte of a frame.
 */
module Framing {
  import opened Common

  const HEADER_SIZE := 5
  const BUFFER_SIZE := 4096
  const MAX_PAYLOAD := 1048576

  /** A byte in flight, with the descriptor attached to it by SCM_RIGHTS. */
  datatype Cell = Cell(value: uint8, fd: Option<int>)

  datatype Message = Message(kind: uint8, payload: Bytes, fd: Option<int>)

  /** What the incremental JSON decoder makes of the bytes fed to it since its last reset. */
  datatype Status = More | Done | Bad

  type Tokener = Bytes -> Status

  /** A uint32 in memory, least significant byte first. */
  function Le32(n: int): (b: Bytes)
    ensures |b| == 4
  {
    [(n % 0x100) as uint8, (n / 0x100 % 0x100) as uint8,
     (n / 0x1_0000 % 0x100) as uint8, (n / 0x100_0000 % 0x100) as uint8]
  }

  function FromLe32(b: Bytes): nat
    requires |b| == 4
  {
    b[0] as int + 0x100 * b[1] as int + 0x1_0000 * b[2] as int + 0x100_0000 * b[3] as int
  }

  lemma ShiftByte(n: nat, k: nat)
    requires k == 0x100 || k == 0x1_0000
    ensures n / (k * 0x100) == n / k / 0x100
  {
    var q, r := n / k / 0x100, n / k % 0x100;
    assert n / k == q * 0x100 + r;
  }

  lemma Le32RoundTrip(n: nat)
    requires n < 0x1_0000_0000
    ensures FromLe32(Le32(n)) == n
  {
    var b, c, d := n / 0x100, n / 0x1_0000, n / 0x100_0000;
    ShiftByte(n, 0x100);
    ShiftByte(n, 0x1_0000);
    assert n == n % 0x100 + 0x100 * b;
    assert b == b % 0x100 + 0x100 * c;
    assert c == c % 0x100 + 0x100 * d;
    assert d < 0x100;
  }

  /** The lowest byte comes first. */
  lemma LowestFirst(n: nat)
    requires n < 0x100
    ensures Le32(n) == [n as uint8, 0, 0, 0] && Le32(0x100 * n) == [0, n as uint8, 0, 0]
    ensures Le32(0x1_0000 * n) == [0, 0, n as uint8, 0] && Le32(0x100_0000 * n) == [0, 0, 0, n as uint8]
  {
  }

  function Encode(m: Message): Bytes {
    [m.kind] + Le32(|m.payload|) + m.payload
  }

  /** Bytes `off` to `off + n` of a message, the first carrying `fd`. */
  function Piece(data: Bytes, off: nat, n: nat, fd: Option<int>): (c: seq<Cell>)
    requires off + n <= |data|
    ensures |c| == n
  {
    seq(n, i requires 0 <= i < n => Cell(data[off + i], if i == 0 then fd else None))
  }

  lemma PieceSplits(data: Bytes, off: nat, n: nat, w: nat, fd: Option<int>)
    requires 0 < w <= n && off + n <= |data|
    ensures Piece(data, off, n, fd) == Piece(data, off, w, fd) + Piece(data, off + w, n - w, None)
  {
  }

  function Frame(m: Message): (f: seq<Cell>)
    ensures |f| == HEADER_SIZE + |m.payload|
  {
    Piece(Encode(m), 0, |Encode(m)|, m.fd)
  }

  function Stream(ms: seq<Message>): seq<Cell> {
    if ms == [] then [] else Frame(ms[0]) + Stream(ms[1..])
  }

  lemma {:induction false} StreamAppend(ms: seq<Message>, m: Message)
    ensures Stream(ms + [m]) == Stream(ms) + Frame(m)
  {
    if ms == [] {
      assert [m][1..] == [];
    } else {
      assert (ms + [m])[1..] == ms[1..] + [m];
      StreamAppend(ms[1..], m);
    }
  }

  /** A complete JSON value: nothing shorter is one, and its end is seen at the final NUL. */
  ghost predicate Complete(tok: Tokener, p: Bytes) {
    && tok(p + [0]) == Done
    && forall k :: 0 <= k < |p| ==> tok(p[..k]) == More
  }

  predicate Oversized(m: Message) {
    |m.payload| > MAX_PAYLOAD
  }

  ghost predicate Sendable(tok: Tokener, m: Message) {
    0 < |m.payload| < 0x1_0000_0000 && Complete(tok, m.payload)
  }

  function Values(c: seq<Cell>): (b: Bytes)
    ensures |b| == |c|
  {
    seq(|c|, i requires 0 <= i < |c| => c[i].value)
  }

  lemma FrameValues(m: Message, off: nat, n: nat)
    requires off + n <= |Frame(m)|
    ensures |Encode(m)| == |Frame(m)|
    ensures Values(Frame(m)[off..off + n]) == Encode(m)[off..off + n]
  {
  }

  lemma EncodeHeader(m: Message)
    requires |m.payload| < 0x1_0000_0000
    ensures Encode(m)[0] == m.kind && FromLe32(Encode(m)[..HEADER_SIZE][1..]) == |m.payload|
  {
    Le32RoundTrip(|m.payload|);
    assert Encode(m)[..HEADER_SIZE][1..] == Le32(|m.payload|);
  }

  lemma EncodeBody(m: Message, a: nat, b: nat)
    requires a <= b <= |m.payload|
    ensures Encode(m)[HEADER_SIZE + a..HEADER_SIZE + b] == m.payload[a..b]
  {
  }

  /** The stream determines the messages, so framing loses nothing. */
  lemma {:induction false} StreamInjective(a: seq<Message>, b: seq<Message>)
    requires forall m :: m in a || m in b ==> |m.payload| < 0x1_0000_0000
    requires Stream(a) == Stream(b)
    ensures a == b
    decreases |a|
  {
    if a != [] && b != [] {
      var x, y, s := a[0], b[0], Stream(a);
      FirstFrame(a, b);
      assert Frame(x) == s[..|Frame(x)|] == Frame(y);
      FrameInjective(x, y);
      assert Stream(a[1..]) == s[|Frame(x)|..] == Stream(b[1..]);
      StreamInjective(a[1..], b[1..]);
      assert a == [x] + a[1..] && b == [y] + b[1..];
    }
  }

  lemma {:induction false} FrameInjective(x: Message, y: Message)
    requires Frame(x) == Frame(y)
    ensures x == y
  {
    FrameValues(x, 0, |Frame(x)|);
    FrameValues(y, 0, |Frame(y)|);
    assert Frame(x)[0..|Frame(x)|] == Frame(y)[0..|Frame(y)|];
    assert Encode(x) == Encode(x)[0..|Frame(x)|] == Encode(y)[0..|Frame(y)|] == Encode(y);
    EncodeBody(x, 0, |x.payload|);
    EncodeBody(y, 0, |y.payload|);
    assert Frame(x)[0].fd == x.fd && Frame(y)[0].fd == y.fd;
  }

  /** Two streams that agree start with frames of the same length. */
  lemma {:induction false} FirstFrame(a: seq<Message>, b: seq<Message>)
    requires a != [] && b != [] && Stream(a) == Stream(b)
    requires |a[0].payload| < 0x1_0000_0000 && |b[0].payload| < 0x1_0000_0000
    ensures |Frame(a[0])| == |Frame(b[0])|
  {
    var x, y, s := a[0], b[0], Stream(a);
    EncodeHeader(x);
    EncodeHeader(y);
    var h := s[0..HEADER_SIZE];
    assert h == Frame(x)[0..HEADER_SIZE] == Frame(y)[0..HEADER_SIZE];
    FrameValues(x, 0, HEADER_SIZE);
    FrameValues(y, 0, HEADER_SIZE);
    assert Encode(x)[0..HEADER_SIZE] == Encode(x)[..HEADER_SIZE];
    assert Encode(y)[0..HEADER_SIZE] == Encode(y)[..HEADER_SIZE];
  }
}
