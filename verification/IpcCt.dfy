/**
 * One end of an IPC connection as the object the daemon and the client share: its receive
 * buffer, the fields of a half-read message, and its write queue. The two loops are tied to
 * Poll and Flush of Channel, which the round trip is proved about.
 */
module IpcCt {
  import opened Common
  import opened Framing
  import opened Channel

  datatype Outgoing = Outgoing(data: Bytes, remaining: nat, fd: Option<int>)

  /** A queued message is never fully sent. */
  type IpcWrite = p: Outgoing | 0 < p.remaining <= |p.data| witness Outgoing([0], 1, None)

  function Unsent(p: IpcWrite): (c: seq<Cell>)
    ensures |c| == p.remaining
  {
    Piece(p.data, |p.data| - p.remaining, p.remaining, p.fd)
  }

  function Left(q: seq<IpcWrite>): (r: Queue)
    ensures |r| == |q|
  {
    seq(|q|, i requires 0 <= i < |q| => Unsent(q[i]))
  }

  class Socket {
    var cells: seq<Cell>

    constructor ()
      ensures cells == []
    {
      cells := [];
    }
  }

  class IpcCt {
    const tok: Tokener
    const wantFd: bool
    const buf: array<uint8>

    var pendingHeader: bool
    var pendingType: uint8
    var pendingSize: nat
    var scmFd: Option<int>
    var fed: Bytes
    var delivered: seq<Message>

    var writeQueue: seq<IpcWrite>
    var closed: seq<int>

    ghost predicate Valid()
      reads this
    {
      buf.Length == BUFFER_SIZE && (pendingHeader ==> pendingSize <= HEADER_SIZE)
    }

    /** The half-read message; only the header bytes already there matter in the buffer. */
    ghost function Reading(): Reader
      requires Valid()
      reads this, buf
    {
      if pendingHeader then Reader(true, 0, pendingSize, buf[..HEADER_SIZE - pendingSize], fed, scmFd)
      else Reader(false, pendingType, pendingSize, [], fed, scmFd)
    }

    constructor (tok: Tokener, wantFd: bool)
      ensures this.tok == tok && this.wantFd == wantFd
      ensures fresh(buf) && Valid() && Reading() == IDLE && Left(writeQueue) == []
      ensures delivered == [] && closed == []
    {
      this.tok, this.wantFd := tok, wantFd;
      buf := new uint8[BUFFER_SIZE];
      pendingHeader, pendingType, pendingSize := true, 0, HEADER_SIZE;
      scmFd, fed, delivered, writeQueue, closed := None, [], [], [], [];
    }

    // -------------------------------------------------------- writing

    method WriteMsg(m: Message)
      modifies `writeQueue, `closed
      ensures Left(writeQueue) == Enqueued(old(Left(writeQueue)), m)
      ensures closed == if |m.payload| >= 0x1_0000_0000 && m.fd.Some? then old(closed) + [m.fd.value] else old(closed)
    {
      if |m.payload| > 0xFFFF_FFFF {
        if m.fd.Some? {
          closed := closed + [m.fd.value];
        }
        return;
      }
      var data := [m.kind];
      data := data + Le32(|m.payload|);
      data := data + m.payload;
      writeQueue := writeQueue + [Outgoing(data, |data|, m.fd)];
    }

    /** One sendmsg on the head of the queue; its descriptor goes with its first byte, once. */
    method SendHead(sock: Socket, limit: nat)
      requires writeQueue != [] && limit > 0
      modifies `writeQueue, `closed, sock
      ensures
        var q := old(Left(writeQueue));
        var n := if limit < |q[0]| then limit else |q[0]|;
        && Left(writeQueue) == AfterSend(q, n)
        && sock.cells == old(sock.cells) + q[0][..n]
        && closed == old(closed) + Fds(q[0][..n])
    {
      var wr: Outgoing := writeQueue[0];
      var off := |wr.data| - wr.remaining;
      var w := if limit < wr.remaining then limit else wr.remaining;
      var piece := Piece(wr.data, off, w, wr.fd);
      FdsOfPiece(wr.data, off, w, wr.fd);
      PieceSplits(wr.data, off, wr.remaining, w, wr.fd);
      sock.cells := sock.cells + piece;
      if wr.fd.Some? {
        closed := closed + [wr.fd.value];
        wr := wr.(fd := None);
      }
      wr := wr.(remaining := wr.remaining - w);
      if wr.remaining == 0 {
        writeQueue := writeQueue[1..];
      } else {
        writeQueue := writeQueue[0 := wr];
      }
    }

    /** Each number of the schedule is what one sendmsg takes, 0 standing for EAGAIN. */
    method Write(sock: Socket, schedule: seq<nat>) returns (ok: bool, needPoll: bool)
      modifies `writeQueue, `closed, sock
      ensures
        var f := Flush(old(Left(writeQueue)), schedule);
        && Left(writeQueue) == f.queue
        && sock.cells == old(sock.cells) + f.out
        && closed == old(closed) + Fds(f.out)
      ensures ok <==> writeQueue == []
      ensures !ok ==> needPoll
    {
      ok, needPoll := true, false;
      var i := 0;
      ghost var out := [];
      ghost var total := Flush(Left(writeQueue), schedule);
      assert schedule[0..] == schedule;
      while |writeQueue| > 0
        invariant 0 <= i <= |schedule| && ok && !needPoll
        invariant sock.cells == old(sock.cells) + out
        invariant closed == old(closed) + Fds(out)
        invariant total == var f := Flush(Left(writeQueue), schedule[i..]); f.(out := out + f.out)
        decreases |schedule| - i
      {
        assert out + [] == out;
        if i == |schedule| || schedule[i] == 0 {
          return false, true;
        }
        ghost var q := Left(writeQueue);
        ghost var n := if schedule[i] < |q[0]| then schedule[i] else |q[0]|;
        SendHead(sock, schedule[i]);
        ghost var piece := q[0][..n];
        FdsConcat(out, piece);
        Assoc(old(closed), Fds(out), Fds(piece));
        Assoc(old(sock.cells), out, piece);
        assert schedule[i..][1..] == schedule[i + 1..];
        Assoc(out, piece, Flush(Left(writeQueue), schedule[i + 1..]).out);
        out := out + piece;
        i := i + 1;
      }
      assert out + [] == out;
    }

    // -------------------------------------------------------- reading

    method Reset()
      modifies `pendingHeader, `pendingSize
      ensures pendingHeader && pendingSize == HEADER_SIZE
    {
      pendingHeader, pendingSize := true, HEADER_SIZE;
    }

    /** recvmsg into the buffer at `base`, taking the descriptor found if one is wanted and none waits. */
    method Recv(sock: Socket, base: nat, n: nat)
      requires base + n <= buf.Length && n <= |sock.cells|
      modifies buf, sock, `scmFd
      ensures sock.cells == old(sock.cells)[n..]
      ensures buf[..base] == old(buf[..base]) && buf[base..base + n] == Values(old(sock.cells)[..n])
      ensures scmFd == TakeFd(old(scmFd), wantFd, old(sock.cells)[..n])
    {
      var got := sock.cells[..n];
      forall i | 0 <= i < n {
        buf[base + i] := got[i].value;
      }
      sock.cells := sock.cells[n..];
      if wantFd && scmFd.None? && Fds(got) != [] {
        scmFd := Some(Fds(got)[0]);
      }
    }

    method ReadHeader(sock: Socket, n: nat) returns (ok: bool, again: bool)
      requires Valid() && pendingHeader && n <= pendingSize && n <= |sock.cells|
      modifies this, buf, sock
      ensures Valid() && sock.cells == old(sock.cells)[n..] && delivered == old(delivered)
      ensures writeQueue == old(writeQueue) && closed == old(closed)
      ensures Turn(Reading(), [], ok, again) == Turned(tok, wantFd, old(Reading()), old(sock.cells)[..n])
    {
      ghost var before := buf[..HEADER_SIZE - pendingSize];
      var base := HEADER_SIZE - pendingSize;
      Recv(sock, base, n);
      assert buf[..base + n] == before + buf[base..base + n];
      pendingSize := pendingSize - n;
      if pendingSize > 0 {
        return true, false;
      }
      pendingType := buf[0];
      pendingSize := FromLe32(buf[1..HEADER_SIZE]);
      assert buf[1..HEADER_SIZE] == buf[..HEADER_SIZE][1..] && buf[0] == buf[..HEADER_SIZE][0];
      if pendingSize > MAX_PAYLOAD {
        Reset();
        return false, false;
      }
      pendingHeader := false;
      return true, true;
    }

    method ReadBody(sock: Socket, n: nat)
      requires Valid() && !pendingHeader && n <= pendingSize && n < BUFFER_SIZE && n <= |sock.cells|
      modifies this, buf, sock
      ensures Valid() && sock.cells == old(sock.cells)[n..]
      ensures writeQueue == old(writeQueue) && closed == old(closed)
      ensures
        var t := Turned(tok, wantFd, old(Reading()), old(sock.cells)[..n]);
        t.ok && t.again && Reading() == t.reader && delivered == old(delivered) + t.seen
    {
      Recv(sock, 0, n);
      ghost var chunk := Values(old(sock.cells)[..n]);
      assert buf[..n] == buf[0..0 + n] == chunk;
      pendingSize := pendingSize - n;
      var len := n;
      var whole := pendingSize == 0;
      if whole {
        buf[n] := 0;
        len := n + 1;
        Reset();
        assert buf[..len] == chunk + [0];
      }
      var text := fed + buf[..len];
      Assoc(fed, chunk, [0]);
      var status := tok(text);
      fed := if status == More then text else [];
      if status == Done {
        var document := if whole then text[..|text| - 1] else text;
        delivered := delivered + [Message(pendingType, document, scmFd)];
        scmFd := None;
      }
    }

    /** One turn of the read loop, on a socket that has something. */
    method TurnOnce(sock: Socket, limit: nat) returns (ok: bool, again: bool)
      requires Valid() && sock.cells != []
      modifies this, buf, sock
      ensures Valid() && writeQueue == old(writeQueue) && closed == old(closed)
      ensures
        var n := Portion(old(Reading()), |old(sock.cells)|, limit);
        var t := Turned(tok, wantFd, old(Reading()), old(sock.cells)[..n]);
        && sock.cells == old(sock.cells)[n..] && delivered == old(delivered) + t.seen
        && Turn(Reading(), t.seen, ok, again) == t
    {
      var want := if BUFFER_SIZE - 1 < pendingSize then BUFFER_SIZE - 1 else pendingSize;
      var n := if limit < want then limit else want;
      n := if n < |sock.cells| then n else |sock.cells|;
      if pendingHeader {
        ok, again := ReadHeader(sock, n);
      } else {
        ok, again := true, true;
        ReadBody(sock, n);
      }
    }

    /** Each number of the schedule bounds one recvmsg; an empty socket would block. */
    method Read(sock: Socket, schedule: seq<nat>) returns (ok: bool)
      requires Valid()
      modifies this, buf, sock
      ensures Valid() && writeQueue == old(writeQueue) && closed == old(closed)
      ensures
        var p := Poll(tok, wantFd, old(Reading()), old(sock.cells), schedule);
        Polled(Reading(), sock.cells, p.seen, ok) == p && delivered == old(delivered) + p.seen
    {
      ok := true;
      var i, again := 0, true;
      ghost var seen: seq<Message> := [];
      ghost var total := Poll(tok, wantFd, Reading(), sock.cells, schedule);
      assert schedule[0..] == schedule;
      while again && i < |schedule| && |sock.cells| > 0
        invariant 0 <= i <= |schedule| && Valid()
        invariant writeQueue == old(writeQueue) && closed == old(closed)
        invariant delivered == old(delivered) + seen
        invariant again ==> ok && total == Onward(seen, Poll(tok, wantFd, Reading(), sock.cells, schedule[i..]))
        invariant !again ==> total == Polled(Reading(), sock.cells, seen, ok)
        decreases |schedule| - i
      {
        ghost var r, cells, limits := Reading(), sock.cells, schedule[i..];
        assert limits[0] == schedule[i] && limits[1..] == schedule[i + 1..];
        ok, again := TurnOnce(sock, schedule[i]);
        ghost var t := Turned(tok, wantFd, r, cells[..Portion(r, |cells|, schedule[i])]);
        OnwardTurn(tok, wantFd, seen, t, sock.cells, limits[1..]);
        Assoc(old(delivered), seen, t.seen);
        seen := seen + t.seen;
        i := i + 1;
      }
      assert seen + [] == seen;
    }
  }

  function Onward(seen: seq<Message>, p: Polled): Polled {
    p.(seen := seen + p.seen)
  }

  lemma OnwardTurn(tok: Tokener, wantFd: bool, seen: seq<Message>, t: Turn, sock: seq<Cell>, schedule: seq<nat>)
    ensures Onward(seen, Resume(tok, wantFd, t, sock, schedule)) ==
            if t.ok && t.again then Onward(seen + t.seen, Poll(tok, wantFd, t.reader, sock, schedule))
            else Polled(t.reader, sock, seen + t.seen, t.ok)
  {
    if t.ok && t.again {
      Assoc(seen, t.seen, Poll(tok, wantFd, t.reader, sock, schedule).seen);
    }
  }
}
