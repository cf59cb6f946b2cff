/**
 * The IPC channel as a state machine: a queue of messages written in pieces, a socket, and a
 * reader that collects a header, then feeds the body to the JSON decoder chunk by chunk. How
 * many bytes each send and receive moves is up to a schedule.
 */
module Channel {
  import opened Common
  import opened Framing

  /** For every queued message, the cells that have not gone out yet. */
  type Queue = seq<seq<Cell>>

  function Queued(q: Queue): seq<Cell> {
    if q == [] then [] else q[0] + Queued(q[1..])
  }

  lemma {:induction false} QueuedAppend(q: Queue, p: seq<Cell>)
    ensures Queued(q + [p]) == Queued(q) + p
  {
    if q == [] {
      assert (q + [p])[1..] == [];
      assert p + [] == [] + p;
    } else {
      assert (q + [p])[1..] == q[1..] + [p];
      QueuedAppend(q[1..], p);
      Assoc(q[0], Queued(q[1..]), p);
    }
  }

  /** The queue after the first `n` cells of its head have gone out. */
  function AfterSend(q: Queue, n: nat): Queue
    requires q != [] && n <= |q[0]|
  {
    if n == |q[0]| then q[1..] else [q[0][n..]] + q[1..]
  }

  lemma {:induction false} SendTakesPrefix(q: Queue, n: nat)
    requires q != [] && n <= |q[0]|
    ensures Queued(q) == q[0][..n] + Queued(AfterSend(q, n))
  {
    var others := Queued(q[1..]);
    if n == |q[0]| {
      assert q[0][..n] == q[0];
    } else {
      assert ([q[0][n..]] + q[1..])[1..] == q[1..];
      assert q[0] == q[0][..n] + q[0][n..];
      Assoc(q[0][..n], q[0][n..], others);
    }
  }

  /** Descriptors in a stretch of the stream, in order. */
  function Fds(c: seq<Cell>): seq<int> {
    if c == [] then [] else (if c[0].fd.Some? then [c[0].fd.value] else []) + Fds(c[1..])
  }

  lemma {:induction false} FdsConcat(a: seq<Cell>, b: seq<Cell>)
    ensures Fds(a + b) == Fds(a) + Fds(b)
  {
    if a == [] {
      assert a + b == b;
    } else {
      assert (a + b)[1..] == a[1..] + b;
      FdsConcat(a[1..], b);
      var x := if a[0].fd.Some? then [a[0].fd.value] else [];
      var y, z := Fds(a[1..]), Fds(b);
      assert Fds(a) == x + y;
      assert Fds(a + b) == x + (y + z);
      assert x + (y + z) == (x + y) + z;
    }
  }

  lemma {:induction false} FdsOfPiece(data: Bytes, off: nat, n: nat, fd: Option<int>)
    requires 0 < n && off + n <= |data|
    ensures Fds(Piece(data, off, n, fd)) == if fd.Some? then [fd.value] else []
    decreases n
  {
    var c := Piece(data, off, n, fd);
    if n == 1 {
      assert c[1..] == [];
    } else {
      assert c[1..] == Piece(data, off + 1, n - 1, None);
      FdsOfPiece(data, off + 1, n - 1, None);
    }
  }

  // ---------------------------------------------------------------- sending

  datatype Flushed = Flushed(queue: Queue, out: seq<Cell>)

  /** Sends until the queue is empty, the schedule ends, or it says 0 for EAGAIN. */
  function Flush(q: Queue, schedule: seq<nat>): Flushed
    decreases |schedule|
  {
    if q == [] || schedule == [] || schedule[0] == 0 then Flushed(q, [])
    else
      var n := if schedule[0] < |q[0]| then schedule[0] else |q[0]|;
      var rest := Flush(AfterSend(q, n), schedule[1..]);
      rest.(out := q[0][..n] + rest.out)
  }

  /** The bytes that leave are exactly a prefix of what was queued. */
  lemma {:induction false} FlushTakesPrefix(q: Queue, schedule: seq<nat>)
    ensures Queued(q) == Flush(q, schedule).out + Queued(Flush(q, schedule).queue)
    decreases |schedule|
  {
    if q != [] && schedule != [] && schedule[0] > 0 {
      var n := if schedule[0] < |q[0]| then schedule[0] else |q[0]|;
      var rest := Flush(AfterSend(q, n), schedule[1..]);
      SendTakesPrefix(q, n);
      FlushTakesPrefix(AfterSend(q, n), schedule[1..]);
      Assoc(q[0][..n], rest.out, Queued(rest.queue));
    }
  }

  // ---------------------------------------------------------------- receiving

  /** The reader between two receives; `got` are the bytes of an unfinished header. */
  datatype Reader = Reader(inHeader: bool, kind: uint8, pending: nat, got: Bytes, fed: Bytes, fd: Option<int>)

  const IDLE := Reader(true, 0, HEADER_SIZE, [], [], None)

  /** A descriptor is taken only when one is wanted and none is waiting. */
  function TakeFd(fd: Option<int>, wantFd: bool, cells: seq<Cell>): Option<int> {
    if wantFd && fd.None? && Fds(cells) != [] then Some(Fds(cells)[0]) else fd
  }

  /** One turn of the read loop; `again` unless it returns to the event loop. */
  datatype Turn = Turn(reader: Reader, seen: seq<Message>, ok: bool, again: bool)

  function TurnHeader(r: Reader, chunk: Bytes, fd: Option<int>): Turn
    requires |chunk| <= r.pending
  {
    var got := r.got + chunk;
    if |chunk| < r.pending || |got| != HEADER_SIZE then
      Turn(r.(pending := r.pending - |chunk|, got := got, fd := fd), [], true, false)
    else if FromLe32(got[1..]) > MAX_PAYLOAD then
      Turn(Reader(true, 0, HEADER_SIZE, [], r.fed, fd), [], false, false)
    else
      Turn(Reader(false, got[0], FromLe32(got[1..]), [], r.fed, fd), [], true, true)
  }

  /** The last chunk of a body gets a NUL; any answer of the decoder but More resets it. */
  function TurnBody(tok: Tokener, r: Reader, chunk: Bytes, fd: Option<int>): Turn
    requires |chunk| <= r.pending
  {
    var whole := |chunk| == r.pending;
    var text := r.fed + if whole then chunk + [0] else chunk;
    var next := if whole then Reader(true, 0, HEADER_SIZE, [], [], fd) else r.(pending := r.pending - |chunk|, fd := fd);
    match tok(text)
    case More => Turn(next.(fed := text), [], true, true)
    case Bad => Turn(next.(fed := []), [], true, true)
    case Done =>
      Turn(next.(fed := [], fd := None), [Message(r.kind, if whole then r.fed + chunk else text, fd)], true, true)
  }

  function Turned(tok: Tokener, wantFd: bool, r: Reader, cells: seq<Cell>): Turn
    requires |cells| <= r.pending
  {
    var fd := TakeFd(r.fd, wantFd, cells);
    if r.inHeader then TurnHeader(r, Values(cells), fd) else TurnBody(tok, r, Values(cells), fd)
  }

  /** How much one recvmsg takes: what is asked for, what is there, what the kernel gives. */
  function Portion(r: Reader, available: nat, limit: nat): (n: nat)
    ensures n <= r.pending && n <= available && n < BUFFER_SIZE
  {
    var want := if BUFFER_SIZE - 1 < r.pending then BUFFER_SIZE - 1 else r.pending;
    var n := if limit < want then limit else want;
    if n < available then n else available
  }

  datatype Polled = Polled(reader: Reader, sock: seq<Cell>, seen: seq<Message>, ok: bool)

  /** Reads until the socket would block, the schedule ends, or a header is left unfinished. */
  function Poll(tok: Tokener, wantFd: bool, r: Reader, sock: seq<Cell>, schedule: seq<nat>): Polled
    decreases |schedule|, 0
  {
    if schedule == [] || sock == [] then Polled(r, sock, [], true)
    else
      var n := Portion(r, |sock|, schedule[0]);
      Resume(tok, wantFd, Turned(tok, wantFd, r, sock[..n]), sock[n..], schedule[1..])
  }

  function Resume(tok: Tokener, wantFd: bool, t: Turn, sock: seq<Cell>, schedule: seq<nat>): Polled
    decreases |schedule|, 1
  {
    if !t.ok || !t.again then Polled(t.reader, sock, t.seen, t.ok)
    else
      var rest := Poll(tok, wantFd, t.reader, sock, schedule);
      rest.(seen := t.seen + rest.seen)
  }

  // ---------------------------------------------------------------- a reader within a frame

  /** The reader `off` cells into the frame of `m`. */
  function Standing(m: Message, off: nat, wantFd: bool): Reader
    requires off < |Frame(m)|
  {
    var fd := if wantFd then m.fd else None;
    if off == 0 then IDLE
    else if off < HEADER_SIZE then Reader(true, 0, HEADER_SIZE - off, Encode(m)[..off], [], fd)
    else Reader(false, m.kind, |Frame(m)| - off, [], m.payload[..off - HEADER_SIZE], fd)
  }

  /** What the callback is given for a message. */
  function Shown(m: Message, wantFd: bool): Message {
    if wantFd then m else m.(fd := None)
  }

  function Seen(ms: seq<Message>, wantFd: bool): seq<Message> {
    if ms == [] then [] else [Shown(ms[0], wantFd)] + Seen(ms[1..], wantFd)
  }

  /** In a frame only the first cell can carry a descriptor. */
  lemma FdsInFrame(m: Message, off: nat, n: nat)
    requires off + n <= |Frame(m)|
    ensures Fds(Frame(m)[off..off + n]) == if off == 0 && n > 0 && m.fd.Some? then [m.fd.value] else []
  {
    if n > 0 {
      var fd := if off == 0 then m.fd else None;
      assert Frame(m)[off..off + n] == Piece(Encode(m), off, n, fd);
      FdsOfPiece(Encode(m), off, n, fd);
    }
  }

  lemma HeaderPart(m: Message, off: nat, n: nat, wantFd: bool)
    requires off + n < HEADER_SIZE
    ensures TurnHeader(Standing(m, off, wantFd), Encode(m)[off..off + n], if off + n > 0 && wantFd then m.fd else None)
            == Turn(Standing(m, off + n, wantFd), [], true, false)
  {
    Join(Encode(m), off, off + n, []);
  }

  lemma HeaderEnd(m: Message, off: nat, wantFd: bool)
    requires off < HEADER_SIZE && 0 < |m.payload| < 0x1_0000_0000
    ensures
      var fd := if wantFd then m.fd else None;
      TurnHeader(Standing(m, off, wantFd), Encode(m)[off..HEADER_SIZE], fd)
      == if Oversized(m) then Turn(IDLE.(fd := fd), [], false, false)
         else Turn(Standing(m, HEADER_SIZE, wantFd), [], true, true)
  {
    Join(Encode(m), off, HEADER_SIZE, []);
    EncodeHeader(m);
    assert Encode(m)[..off] + Encode(m)[off..HEADER_SIZE] == Encode(m)[..HEADER_SIZE];
  }

  lemma BodyTurn(tok: Tokener, m: Message, off: nat, n: nat, wantFd: bool)
    requires HEADER_SIZE <= off < |Frame(m)| && off + n <= |Frame(m)| && Sendable(tok, m)
    ensures
      var t := TurnBody(tok, Standing(m, off, wantFd), Encode(m)[off..off + n], if wantFd then m.fd else None);
      t == if off + n < |Frame(m)| then Turn(Standing(m, off + n, wantFd), [], true, true)
           else Turn(IDLE, [Shown(m, wantFd)], true, true)
  {
    var a := off - HEADER_SIZE;
    EncodeBody(m, a, a + n);
    Join(m.payload, a, a + n, [0]);
    if off + n == |Frame(m)| {
      var p, chunk := m.payload, Encode(m)[off..off + n];
      assert chunk == p[a..];
      assert p[..a] + (chunk + [0]) == p + [0];
      assert p[..a] + chunk == p;
    }
  }

  /** A receive inside a frame moves the reader along it, and delivers the message at its end. */
  lemma FrameTurn(tok: Tokener, m: Message, off: nat, n: nat, wantFd: bool)
    requires Sendable(tok, m) && off < |Frame(m)| && n <= Standing(m, off, wantFd).pending
    requires off + n <= |Frame(m)|
    ensures
      var t := Turned(tok, wantFd, Standing(m, off, wantFd), Frame(m)[off..off + n]);
      t == if off + n < HEADER_SIZE then Turn(Standing(m, off + n, wantFd), [], true, false)
           else if off < HEADER_SIZE && Oversized(m) then Turn(IDLE.(fd := if wantFd then m.fd else None), [], false, false)
           else if off + n < |Frame(m)| then Turn(Standing(m, off + n, wantFd), [], true, true)
           else Turn(IDLE, [Shown(m, wantFd)], true, true)
  {
    FdsInFrame(m, off, n);
    FrameValues(m, off, n);
    if off < HEADER_SIZE {
      if off + n < HEADER_SIZE {
        HeaderPart(m, off, n, wantFd);
      } else {
        HeaderEnd(m, off, wantFd);
      }
    } else {
      BodyTurn(tok, m, off, n, wantFd);
    }
  }

  // ---------------------------------------------------------------- a reader behind a stream

  /** Taking `n` more cells of the current frame out of the stream. */
  lemma {:induction false} TakeCells(ms: seq<Message>, off: nat, cells: seq<Cell>, rest: seq<Cell>, n: nat)
    requires ms != [] && n <= |cells| && off + n <= |Frame(ms[0])|
    requires Stream(ms)[off..] == cells + rest
    ensures cells[..n] == Frame(ms[0])[off..off + n]
    ensures off + n < |Frame(ms[0])| ==> Stream(ms)[off + n..] == cells[n..] + rest
    ensures off + n == |Frame(ms[0])| ==> Stream(ms[1..])[0..] == cells[n..] + rest
  {
    var s := Stream(ms);
    assert s == Frame(ms[0]) + Stream(ms[1..]);
    forall i | 0 <= i < n ensures cells[i] == Frame(ms[0])[off + i] {
      assert s[off..][i] == cells[i];
    }
    assert s[off + n..] == s[off..][n..];
    assert (cells + rest)[n..] == cells[n..] + rest;
    if off + n == |Frame(ms[0])| {
      assert s[off + n..] == Stream(ms[1..]);
    }
  }

  /** `cells` and `rest` are the stream of `ms` from cell `off` of its first frame on; a body is entered only if it fits. */
  ghost predicate Ahead(ms: seq<Message>, off: nat, cells: seq<Cell>, rest: seq<Cell>) {
    && (if ms == [] then off == 0 else off < |Frame(ms[0])| && (off >= HEADER_SIZE ==> !Oversized(ms[0])))
    && Stream(ms)[off..] == cells + rest
  }

  function StandingAt(ms: seq<Message>, off: nat, wantFd: bool): Reader
    requires ms == [] || off < |Frame(ms[0])|
  {
    if ms == [] then IDLE else Standing(ms[0], off, wantFd)
  }

  /** None of the first k is over the limit. */
  ghost predicate Fit(ms: seq<Message>, k: nat)
    requires k <= |ms|
  {
    forall i :: 0 <= i < k ==> !Oversized(ms[i])
  }

  ghost predicate AllSendable(tok: Tokener, ms: seq<Message>) {
    forall i :: 0 <= i < |ms| ==> Sendable(tok, ms[i])
  }

  lemma {:induction false} TurnAhead(tok: Tokener, wantFd: bool, ms: seq<Message>, off: nat,
                                     sock: seq<Cell>, rest: seq<Cell>, n: nat)
    returns (k: nat, next: nat)
    requires AllSendable(tok, ms) && Ahead(ms, off, sock, rest) && sock != []
    requires n <= StandingAt(ms, off, wantFd).pending && n <= |sock|
    ensures ms != [] && k <= 1 && Fit(ms, k)
    ensures
      var t := Turned(tok, wantFd, StandingAt(ms, off, wantFd), sock[..n]);
      && t.seen == Seen(ms[..k], wantFd)
      && (t.ok ==> Ahead(ms[k..], next, sock[n..], rest) && t.reader == StandingAt(ms[k..], next, wantFd))
      && (!t.ok ==> k == 0 && Oversized(ms[0]))
  {
    assert |Stream(ms)[off..]| > 0;
    TakeCells(ms, off, sock, rest, n);
    FrameTurn(tok, ms[0], off, n, wantFd);
    if off + n < |Frame(ms[0])| {
      assert ms[0..] == ms;
      return 0, off + n;
    }
    assert ms[..1][1..] == [] && Seen(ms[..1], wantFd) == [Shown(ms[0], wantFd)];
    return 1, 0;
  }

  lemma {:induction false} SeenConcat(a: seq<Message>, b: seq<Message>, wantFd: bool)
    ensures Seen(a + b, wantFd) == Seen(a, wantFd) + Seen(b, wantFd)
  {
    if a == [] {
      assert a + b == b;
    } else {
      assert (a + b)[1..] == a[1..] + b;
      SeenConcat(a[1..], b, wantFd);
      Assoc([Shown(a[0], wantFd)], Seen(a[1..], wantFd), Seen(b, wantFd));
    }
  }

  lemma SeenSplit(ms: seq<Message>, j: nat, k: nat, wantFd: bool)
    requires j + k <= |ms|
    ensures ms[j..][k..] == ms[j + k..] && Seen(ms[..j + k], wantFd) == Seen(ms[..j], wantFd) + Seen(ms[j..][..k], wantFd)
  {
    assert ms[..j + k] == ms[..j] + ms[j..][..k];
    SeenConcat(ms[..j], ms[j..][..k], wantFd);
  }

  lemma SendableTail(tok: Tokener, ms: seq<Message>, k: nat)
    requires AllSendable(tok, ms) && k <= |ms|
    ensures AllSendable(tok, ms[k..])
  {
  }

  /** The outcome of a poll: `k` messages delivered, the reader `next` cells into the one after. */
  ghost predicate Delivers(wantFd: bool, ms: seq<Message>, rest: seq<Cell>, p: Polled, k: nat, next: nat) {
    && k <= |ms| && Fit(ms, k) && p.seen == Seen(ms[..k], wantFd)
    && if p.ok then Ahead(ms[k..], next, p.sock, rest) && p.reader == StandingAt(ms[k..], next, wantFd)
       else k < |ms| && Oversized(ms[k])
  }

  lemma DeliversMore(wantFd: bool, ms: seq<Message>, rest: seq<Cell>, j: nat, p: Polled, k: nat, next: nat)
    requires j <= |ms| && Fit(ms, j) && Delivers(wantFd, ms[j..], rest, p, k, next)
    ensures Delivers(wantFd, ms, rest, p.(seen := Seen(ms[..j], wantFd) + p.seen), j + k, next)
  {
    SeenSplit(ms, j, k, wantFd);
    assert forall i :: j <= i < j + k ==> ms[i] == ms[j..][i - j];
  }

  lemma {:induction false} ResumeDelivers(tok: Tokener, wantFd: bool, ms: seq<Message>, t: Turn,
                                          sock: seq<Cell>, rest: seq<Cell>, schedule: seq<nat>, j: nat, off: nat)
    returns (k: nat, next: nat)
    requires AllSendable(tok, ms) && Delivers(wantFd, ms, rest, Polled(t.reader, sock, t.seen, t.ok), j, off)
    ensures Delivers(wantFd, ms, rest, Resume(tok, wantFd, t, sock, schedule), k, next)
    decreases |schedule|, 1
  {
    k, next := j, off;
    if t.ok && t.again {
      var more := 0;
      SendableTail(tok, ms, j);
      more, next := PollDelivers(tok, wantFd, ms[j..], off, sock, rest, schedule);
      DeliversMore(wantFd, ms, rest, j, Poll(tok, wantFd, t.reader, sock, schedule), more, next);
      k := j + more;
    }
  }

  /**
   * Polling a reader that stands at cell `off` of the messages still to come delivers the
   * first of them, whole and in order, and leaves the reader standing exactly behind them;
   * only a payload over the limit ends the connection. The schedule is arbitrary.
   */
  lemma {:induction false} PollDelivers(tok: Tokener, wantFd: bool, ms: seq<Message>, off: nat,
                                        sock: seq<Cell>, rest: seq<Cell>, schedule: seq<nat>)
    returns (k: nat, next: nat)
    requires AllSendable(tok, ms) && Ahead(ms, off, sock, rest)
    ensures Delivers(wantFd, ms, rest, Poll(tok, wantFd, StandingAt(ms, off, wantFd), sock, schedule), k, next)
    decreases |schedule|, 0
  {
    if schedule == [] || sock == [] {
      assert ms[0..] == ms;
      return 0, off;
    }
    var r := StandingAt(ms, off, wantFd);
    var n := Portion(r, |sock|, schedule[0]);
    k, next := TurnAhead(tok, wantFd, ms, off, sock, rest, n);
    k, next := ResumeDelivers(tok, wantFd, ms, Turned(tok, wantFd, r, sock[..n]), sock[n..], rest, schedule[1..], k, next);
  }

  // ---------------------------------------------------------------- whole connections

  /** What the event loops of the two ends do to one direction of a connection. */
  datatype Op =
    | Posting(m: Message)
    | Flushing(schedule: seq<nat>)
    | Polling(schedule: seq<nat>)

  /** `closed` are the descriptors the sender has closed after sending them. */
  datatype World = World(queue: Queue, sock: seq<Cell>, reader: Reader,
                         delivered: seq<Message>, closed: seq<int>, alive: bool)

  const QUIET := World([], [], IDLE, [], [], true)

  /** A message of 2^32 bytes or more is dropped, and its descriptor closed. */
  function Enqueued(q: Queue, m: Message): Queue {
    if |m.payload| < 0x1_0000_0000 then q + [Frame(m)] else q
  }

  function Step(tok: Tokener, wantFd: bool, w: World, op: Op): World {
    match op
    case Posting(m) =>
      w.(queue := Enqueued(w.queue, m),
         closed := if |m.payload| >= 0x1_0000_0000 && m.fd.Some? then w.closed + [m.fd.value] else w.closed)
    case Flushing(schedule) =>
      var f := Flush(w.queue, schedule);
      w.(queue := f.queue, sock := w.sock + f.out, closed := w.closed + Fds(f.out))
    case Polling(schedule) =>
      if !w.alive then w
      else
        var p := Poll(tok, wantFd, w.reader, w.sock, schedule);
        w.(reader := p.reader, sock := p.sock, delivered := w.delivered + p.seen, alive := p.ok)
  }

  function Steps(tok: Tokener, wantFd: bool, w: World, script: seq<Op>): World
    decreases |script|
  {
    if script == [] then w else Steps(tok, wantFd, Step(tok, wantFd, w, script[0]), script[1..])
  }

  function Posted(script: seq<Op>): seq<Message> {
    if script == [] then []
    else (if script[0].Posting? then [script[0].m] else []) + Posted(script[1..])
  }

  /** The descriptors of the messages, in order. */
  function Attached(ms: seq<Message>): seq<int> {
    if ms == [] then []
    else (if ms[0].fd.Some? then [ms[0].fd.value] else []) + Attached(ms[1..])
  }

  lemma {:induction false} StreamFds(ms: seq<Message>)
    ensures Fds(Stream(ms)) == Attached(ms)
  {
    if ms != [] {
      StreamFds(ms[1..]);
      FdsConcat(Frame(ms[0]), Stream(ms[1..]));
      FdsOfPiece(Encode(ms[0]), 0, |Encode(ms[0])|, ms[0].fd);
    }
  }

  /** Of the stream of `posted`, `out` has left the queue, and its descriptors with it. */
  ghost predicate SendInv(w: World, posted: seq<Message>, out: seq<Cell>) {
    Stream(posted) == out + Queued(w.queue) && w.closed == Fds(out)
  }

  /** `k` messages and `off` cells have been read, unless an oversized header came. */
  ghost predicate ReadInv(wantFd: bool, w: World, posted: seq<Message>, k: nat, off: nat) {
    && k <= |posted| && Fit(posted, k) && w.delivered == Seen(posted[..k], wantFd)
    && if w.alive then
         Ahead(posted[k..], off, w.sock, Queued(w.queue)) && w.reader == StandingAt(posted[k..], off, wantFd)
       else k < |posted| && Oversized(posted[k])
  }

  ghost predicate Inv(tok: Tokener, wantFd: bool, w: World, posted: seq<Message>, out: seq<Cell>, k: nat, off: nat) {
    AllSendable(tok, posted) && SendInv(w, posted, out) && ReadInv(wantFd, w, posted, k, off)
  }

  lemma PostedAhead(posted: seq<Message>, m: Message, k: nat, off: nat, cells: seq<Cell>, rest: seq<Cell>)
    requires k <= |posted| && Ahead(posted[k..], off, cells, rest)
    ensures
      var ms := (posted + [m])[k..];
      && ms == posted[k..] + [m]
      && Ahead(ms, off, cells, rest + Frame(m))
  {
    var ms := posted[k..];
    assert (posted + [m])[k..] == ms + [m];
    StreamAppend(ms, m);
    Assoc(cells, rest, Frame(m));
    assert (Stream(ms) + Frame(m))[off..] == Stream(ms)[off..] + Frame(m);
  }

  lemma PostKeeps(tok: Tokener, wantFd: bool, w: World, m: Message, posted: seq<Message>, out: seq<Cell>, k: nat, off: nat)
    requires Inv(tok, wantFd, w, posted, out, k, off) && Sendable(tok, m)
    ensures Inv(tok, wantFd, Step(tok, wantFd, w, Posting(m)), posted + [m], out, k, off)
  {
    var next := Step(tok, wantFd, w, Posting(m));
    QueuedAppend(w.queue, Frame(m));
    assert Queued(next.queue) == Queued(w.queue) + Frame(m);
    assert SendInv(next, posted + [m], out) by {
      StreamAppend(posted, m);
      Assoc(out, Queued(w.queue), Frame(m));
    }
    assert ReadInv(wantFd, next, posted + [m], k, off) by {
      assert (posted + [m])[..k] == posted[..k];
      if w.alive {
        PostedAhead(posted, m, k, off, w.sock, Queued(w.queue));
        assert posted[k..] != [] ==> (posted + [m])[k..][0] == posted[k..][0];
      }
    }
  }

  lemma FlushKeeps(tok: Tokener, wantFd: bool, w: World, schedule: seq<nat>, posted: seq<Message>, out: seq<Cell>, k: nat, off: nat)
    requires Inv(tok, wantFd, w, posted, out, k, off)
    ensures Inv(tok, wantFd, Step(tok, wantFd, w, Flushing(schedule)), posted, out + Flush(w.queue, schedule).out, k, off)
  {
    var f := Flush(w.queue, schedule);
    FlushTakesPrefix(w.queue, schedule);
    Assoc(out, f.out, Queued(f.queue));
    Assoc(w.sock, f.out, Queued(f.queue));
    FdsConcat(out, f.out);
  }

  lemma PollKeeps(tok: Tokener, wantFd: bool, w: World, schedule: seq<nat>, posted: seq<Message>, k: nat, off: nat)
    returns (j: nat, next: nat)
    requires AllSendable(tok, posted) && ReadInv(wantFd, w, posted, k, off)
    ensures ReadInv(wantFd, Step(tok, wantFd, w, Polling(schedule)), posted, j, next)
  {
    j, next := k, off;
    if w.alive {
      var ms, rest, more := posted[k..], Queued(w.queue), 0;
      SendableTail(tok, posted, k);
      more, next := PollDelivers(tok, wantFd, ms, off, w.sock, rest, schedule);
      DeliversMore(wantFd, posted, rest, k, Poll(tok, wantFd, w.reader, w.sock, schedule), more, next);
      j := k + more;
    }
  }

  /** The channel keeps its invariant over every script. */
  lemma {:induction false} StepsKeep(tok: Tokener, wantFd: bool, w: World, script: seq<Op>,
                                     posted: seq<Message>, out: seq<Cell>, k: nat, off: nat)
    returns (sent: seq<Cell>, j: nat, next: nat)
    requires Inv(tok, wantFd, w, posted, out, k, off) && AllSendable(tok, Posted(script))
    ensures Inv(tok, wantFd, Steps(tok, wantFd, w, script), posted + Posted(script), sent, j, next)
    decreases |script|
  {
    sent, j, next := out, k, off;
    if script == [] {
      assert posted + [] == posted;
    } else {
      var now, before := [], posted;
      match script[0] {
        case Posting(m) =>
          assert m == Posted(script)[0];
          PostKeeps(tok, wantFd, w, m, posted, out, k, off);
          now := [m];
        case Flushing(schedule) =>
          FlushKeeps(tok, wantFd, w, schedule, posted, out, k, off);
          sent := out + Flush(w.queue, schedule).out;
          assert posted + now == posted;
        case Polling(schedule) =>
          j, next := PollKeeps(tok, wantFd, w, schedule, posted, k, off);
          assert posted + now == posted;
      }
      assert AllSendable(tok, Posted(script[1..])) by {
        forall i | 0 <= i < |Posted(script[1..])| ensures Sendable(tok, Posted(script[1..])[i]) {
          assert Posted(script)[|now| + i] == Posted(script[1..])[i];
        }
      }
      Assoc(posted, now, Posted(script[1..]));
      sent, j, next := StepsKeep(tok, wantFd, Step(tok, wantFd, w, script[0]), script[1..], posted + now, sent, j, next);
    }
  }

  lemma {:induction false} SeenLength(ms: seq<Message>, wantFd: bool)
    ensures |Seen(ms, wantFd)| == |ms|
  {
    if ms != [] {
      SeenLength(ms[1..], wantFd);
    }
  }

  lemma QuietIsInv(tok: Tokener, wantFd: bool)
    ensures Inv(tok, wantFd, QUIET, [], [], 0, 0)
  {
  }

  lemma ClosedArePosted(w: World, posted: seq<Message>, out: seq<Cell>)
    requires SendInv(w, posted, out)
    ensures w.closed <= Attached(posted)
    ensures w.queue == [] ==> w.closed == Attached(posted)
  {
    StreamFds(posted);
    FdsConcat(out, Queued(w.queue));
    if w.queue == [] {
      assert out + [] == out;
    }
  }

  lemma DeliveredArePosted(wantFd: bool, w: World, posted: seq<Message>, k: nat, off: nat)
    requires ReadInv(wantFd, w, posted, k, off)
    ensures |w.delivered| == k && w.delivered == Seen(posted[..k], wantFd) && Fit(posted, k)
    ensures !w.alive ==> k < |posted| && Oversized(posted[k])
    ensures w.alive && w.queue == [] && w.sock == [] ==> k == |posted| && posted[..k] == posted
  {
    SeenLength(posted[..k], wantFd);
    if w.alive && w.queue == [] && w.sock == [] {
      assert |Stream(posted[k..])| == off;
    }
  }

  /**
   * Any interleaving of posting, flushing and polling, under any schedule of partial sends and
   * receives: what the callback has seen is what was posted first, in order, with its types,
   * payloads and descriptors; the descriptors closed by the sender are those of the first
   * messages, each once; when queue and socket are empty everything has arrived; and only a
   * payload over the limit stops the reader.
   */
  lemma RoundTrip(tok: Tokener, wantFd: bool, script: seq<Op>)
    requires AllSendable(tok, Posted(script))
    ensures
      var w, all := Steps(tok, wantFd, QUIET, script), Posted(script);
      && |w.delivered| <= |all| && w.delivered == Seen(all[..|w.delivered|], wantFd) && Fit(all, |w.delivered|)
      && w.closed <= Attached(all)
      && (w.alive && w.queue == [] && w.sock == [] ==> w.delivered == Seen(all, wantFd) && w.closed == Attached(all))
      && (!w.alive ==> |w.delivered| < |all| && Oversized(all[|w.delivered|]))
  {
    QuietIsInv(tok, wantFd);
    var sent, k, off := StepsKeep(tok, wantFd, QUIET, script, [], [], 0, 0);
    assert [] + Posted(script) == Posted(script);
    var w := Steps(tok, wantFd, QUIET, script);
    ClosedArePosted(w, Posted(script), sent);
    DeliveredArePosted(wantFd, w, Posted(script), k, off);
  }
}
