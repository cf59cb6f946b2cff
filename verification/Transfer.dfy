/** Bytes in and bytes out: receiving an offer's data, and pasting stored data into a pipe. */
module Transfer {
  import opened Common
  import F = Fips180
  import S = Sha256
  import C = Sha256Context

  // ---------------------------------------------------------------- receiving

  const U32_MAX := 0xFFFF_FFFF
  const SIZE_MAX := 0xFFFF_FFFF_FFFF_FFFF

  /** What `read` returns: some bytes, an interruption, an error, or the end. */
  datatype Read = Chunk(bytes: Bytes) | Again | Broken | End

  /** What `poll` returns; a hang-up without data to read comes alone. */
  datatype Poll = Interrupted | PollFailed | TimedOut | HungUp | Idle | Readable(read: Read)

  datatype Progress = Reading(data: Bytes) | Received(data: Bytes) | Failed

  /** The new length as the code adds it up: -1 is added like any other result, in 64 bits. */
  function Total(len: nat, r: Read): nat {
    match r
    case Chunk(bytes) => len + |bytes|
    case End => len
    case _ => if len == 0 then SIZE_MAX else len - 1
  }

  function Polled(data: Bytes, p: Poll, max: nat): Progress {
    match p
    case Interrupted => Reading(data)
    case PollFailed => Failed
    case TimedOut => Failed
    case HungUp => if data == [] then Failed else Received(data)
    case Idle => Reading(data)
    case Readable(r) =>
      if Total(|data|, r) > max || Total(|data|, r) > U32_MAX then Failed
      else
        match r
        case Chunk(bytes) => Reading(data + bytes)
        case Again => Reading(data)
        case Broken => Failed
        case End => Received(data)
  }

  /** Where a sequence of polls leads; polls after the end are not made. */
  function Reads(polls: seq<Poll>, max: nat): Progress {
    if polls == [] then Reading([])
    else
      var r := Reads(polls[..|polls| - 1], max);
      if r.Reading? then Polled(r.data, polls[|polls| - 1], max) else r
  }

  /** All the bytes that were read. */
  function Gathered(polls: seq<Poll>): Bytes {
    if polls == [] then []
    else
      var last := polls[|polls| - 1];
      Gathered(polls[..|polls| - 1]) + if last.Readable? && last.read.Chunk? then last.read.bytes else []
  }

  /** The digest context, when there is one, is the one of the bytes so far. */
  ghost predicate Hashes(sha: C.Context?, data: Bytes)
    reads if sha == null then {} else {sha, sha.data, sha.state}
  {
    sha != null ==> sha.Valid() && S.Streams(F.COMPRESS, sha.Stream(), data)
  }

  /** Reads until the end, an error, or the end of the schedule. */
  method IoRead(polls: seq<Poll>, max: nat, sha: C.Context?) returns (r: Progress)
    requires Hashes(sha, [])
    modifies if sha == null then {} else {sha, sha.data, sha.state}
    ensures r == Reads(polls, max)
    ensures r.Received? ==> Hashes(sha, r.data)
  {
    var data: Bytes := [];
    for i := 0 to |polls|
      invariant Reads(polls[..i], max) == Reading(data) && Hashes(sha, data)
    {
      assert polls[..i + 1][..i] == polls[..i];
      var p := polls[i];
      ghost var next := Polled(data, p, max);
      Settles(polls, i + 1, max);
      match p {
        case Interrupted =>
        case Idle =>
        case HungUp => {
          if |data| == 0 {
            return Failed;
          }
          return Received(data);
        }
        case Readable(read) => {
          var total := match read
            case Chunk(bytes) => |data| + |bytes|
            case End => |data|
            case _ => if |data| == 0 then SIZE_MAX else |data| - 1;
          if total > max || total > U32_MAX {
            return Failed;
          }
          match read {
            case Chunk(bytes) => {
              if sha != null {
                S.PushAllStreams(F.COMPRESS, sha.Stream(), data, bytes);
                sha.Update(bytes);
              }
              data := data + bytes;
            }
            case Again =>
            case Broken => return Failed;
            case End => return Received(data);
          }
        }
        case _ => return Failed;
      }
    }
    assert polls[..|polls|] == polls;
    return Reading(data);
  }

  /** Once over, it stays over. */
  lemma {:induction false} Settles(polls: seq<Poll>, n: nat, max: nat)
    requires n <= |polls|
    ensures !Reads(polls[..n], max).Reading? ==> Reads(polls, max) == Reads(polls[..n], max)
    decreases |polls|
  {
    if n == |polls| {
      assert polls[..n] == polls;
    } else {
      var front := polls[..|polls| - 1];
      Settles(front, n, max);
      assert front[..n] == polls[..n];
    }
  }

  lemma {:induction false} ReadingIsGathered(polls: seq<Poll>, max: nat)
    ensures Reads(polls, max).Reading? ==> Reads(polls, max).data == Gathered(polls)
    ensures !Reads(polls, max).Failed? ==> |Reads(polls, max).data| <= max && |Reads(polls, max).data| <= U32_MAX
  {
    if polls != [] {
      ReadingIsGathered(polls[..|polls| - 1], max);
    }
  }

  ghost predicate Over(p: Poll) {
    p == HungUp || p == Readable(End)
  }

  /** What is received is all that was read up to the end of the data, and within both limits. */
  lemma {:induction false} ReceivedIsGathered(polls: seq<Poll>, max: nat) returns (n: nat)
    requires Reads(polls, max).Received?
    ensures 0 < n <= |polls| && Over(polls[n - 1])
    ensures Reads(polls, max).data == Gathered(polls[..n])
    ensures |Reads(polls, max).data| <= max && |Reads(polls, max).data| <= U32_MAX
  {
    var front := polls[..|polls| - 1];
    ReadingIsGathered(polls, max);
    ReadingIsGathered(front, max);
    if Reads(front, max).Received? {
      n := ReceivedIsGathered(front, max);
      assert polls[..n] == front[..n];
    } else {
      n := |polls|;
      assert polls[..n] == polls;
      assert Gathered(polls) == Gathered(front) + [];
    }
  }

  /** Polls that bring data or nothing. */
  predicate Harmless(p: Poll) {
    p.Interrupted? || p.Idle? || (p.Readable? && p.read.Chunk?)
  }

  ghost predicate AllHarmless(polls: seq<Poll>) {
    forall i :: 0 <= i < |polls| ==> Harmless(polls[i])
  }

  lemma {:induction false} WithinLimitGoesOn(polls: seq<Poll>, max: nat)
    requires AllHarmless(polls)
    ensures Reads(polls, max) ==
      if |Gathered(polls)| <= max && |Gathered(polls)| <= U32_MAX then Reading(Gathered(polls)) else Failed
  {
    if polls != [] {
      var front, last := polls[..|polls| - 1], polls[|polls| - 1];
      WithinLimitGoesOn(front, max);
      assert Harmless(last);
      assert Gathered(front) + [] == Gathered(front);
    }
  }

  /** Data that comes in pieces and then ends is received just when all of it is within both limits. */
  lemma EndedIsReceived(polls: seq<Poll>, max: nat)
    requires AllHarmless(polls)
    ensures Reads(polls + [Readable(End)], max) ==
      if |Gathered(polls)| <= max && |Gathered(polls)| <= U32_MAX then Received(Gathered(polls)) else Failed
  {
    WithinLimitGoesOn(polls, max);
    assert (polls + [Readable(End)])[..|polls|] == polls;
  }

  /** An interrupted read is tried again just when some data is already there. */
  lemma InterruptionsNeedData(data: Bytes, max: nat)
    requires |data| <= max && |data| <= U32_MAX
    ensures Polled(data, Readable(Again), max) == Reading(data) <==> data != []
    ensures Polled(data, Readable(Again), max) == Failed <==> data == []
  {
  }

  /** Receives and hashes: the id of the data is the digest of exactly what is stored. */
  method ReceiveData(polls: seq<Poll>, max: nat) returns (data: Option<Bytes>, id: Bytes)
    ensures data.Some? <==> Reads(polls, max).Received?
    ensures data.Some? ==> data.value == Reads(polls, max).data && id == F.Sha256(data.value)
  {
    var sha := new C.Context();
    assert F.HashValue(F.COMPRESS, [], 0) == F.H0;
    var r := IoRead(polls, max, sha);
    if !r.Received? {
      return None, [];
    }
    ReadingIsGathered(polls, max);
    S.FinishedIsDigest(F.COMPRESS, sha.Stream(), r.data);
    var hash := new uint8[32];
    sha.Final(hash);
    return Some(r.data), hash[..32];
  }

  // ---------------------------------------------------------------- sending

  const CHUNK := 4096

  /** What `write` returns: some of the bytes taken, an interruption, no room, or an error. */
  type Positive = x: int | 0 < x witness 1

  datatype Write = Wrote(n: Positive) | Retry | Full | Fault

  datatype Outcome = Waiting | Complete | Aborted

  lemma Moves(sent: Bytes, source: Bytes, ptr: nat, n: nat, w: nat)
    requires w <= n && ptr + n <= |source|
    ensures (sent + source[ptr..ptr + w]) + source[ptr + w..ptr + n] == sent + source[ptr..ptr + n]
  {
    assert source[ptr..ptr + w] + source[ptr + w..ptr + n] == source[ptr..ptr + n];
    Assoc(sent, source[ptr..ptr + w], source[ptr + w..ptr + n]);
  }

  ghost predicate AllTaken(writes: seq<Write>) {
    forall i :: 0 <= i < |writes| ==> writes[i].Wrote?
  }

  /** An interrupted write is made again. */
  method Insist(writes: seq<Write>, from: nat) returns (i: nat)
    requires from <= |writes|
    ensures from <= i <= |writes| && (i < |writes| ==> writes[i] != Retry)
    ensures forall k :: from <= k < i ==> writes[k] == Retry
  {
    i := from;
    while i < |writes| && writes[i] == Retry
      invariant from <= i <= |writes|
      invariant forall k :: from <= k < i ==> writes[k] == Retry
    {
      i := i + 1;
    }
  }

  /**
   * One paste under way, of a stored blob or of transient data. `sent` is what the pipe got.
   * The window, of `remaining` bytes from `ptr`, lies in the buffer or in the transient data.
   */
  class SendContext {
    const blob: Option<Bytes>
    const transient: Bytes
    const buf: array<uint8>
    var ptr: nat
    var remaining: nat
    var off: nat
    var sent: Bytes

    ghost function Content(): Bytes {
      if blob.Some? then blob.value else transient
    }

    ghost function Window(): Bytes
      requires ptr + remaining <= if blob.Some? then buf.Length else |transient|
      reads this, buf
    {
      if blob.Some? then buf[ptr..ptr + remaining] else transient[ptr..ptr + remaining]
    }

    /** What went out and what is in the window make up what has been loaded. */
    ghost predicate Valid()
      reads this, buf
    {
      && buf.Length == CHUNK
      && off <= |Content()| && (blob.None? ==> off == |transient|)
      && ptr + remaining <= (if blob.Some? then CHUNK else |transient|)
      && sent + Window() == Content()[..off]
    }

    constructor OfBlob(bytes: Bytes)
      ensures Valid() && fresh(buf) && Content() == bytes && sent == [] && blob.Some?
    {
      blob, transient := Some(bytes), [];
      buf := new uint8[CHUNK];
      ptr, remaining, off, sent := 0, 0, 0, [];
    }

    /** Transient data is never empty: nothing is stored for an empty receive. */
    constructor OfTransient(bytes: Bytes)
      ensures Valid() && fresh(buf) && Content() == bytes && sent == [] && remaining == |bytes|
    {
      blob, transient := None, bytes;
      buf := new uint8[CHUNK];
      ptr, remaining, off, sent := 0, |bytes|, |bytes|, [];
    }

    /** The next piece of the blob into the buffer. */
    method Refill()
      requires Valid() && blob.Some? && remaining == 0 && off < |blob.value|
      modifies this, buf
      ensures Valid() && sent == old(sent) && remaining > 0 && off == old(off) + remaining
    {
      var len := if |blob.value| - off < CHUNK then |blob.value| - off else CHUNK;
      ghost var loaded := sent;
      assert loaded + [] == loaded;
      forall i | 0 <= i < len {
        buf[i] := blob.value[off + i];
      }
      assert buf[..len] == blob.value[off..off + len];
      assert blob.value[..off + len] == blob.value[..off] + blob.value[off..off + len];
      ptr, remaining, off := 0, len, off + len;
    }

    /** The pipe takes some of the window. */
    method Advance(w: nat)
      requires Valid() && w <= remaining
      modifies this
      ensures Valid() && old(sent) <= sent && |sent| == |old(sent)| + w
      ensures remaining == old(remaining) - w && off == old(off)
    {
      var source := if blob.Some? then buf[..] else transient;
      ghost var window := Window();
      assert window == source[ptr..ptr + remaining];
      var more := sent + source[ptr..ptr + w];
      Moves(sent, source, ptr, remaining, w);
      ghost var left := source[ptr + w..ptr + remaining];
      assert more + left == sent + window;
      sent, ptr, remaining := more, ptr + w, remaining - w;
      assert Window() == left;
    }

    /** The pipe is writable; `writes` are the answers it gives, no room once they run out. */
    method WriteCallback(hangup: bool, loads: bool, writes: seq<Write>) returns (r: Outcome)
      requires Valid() && (blob.None? ==> remaining > 0)
      modifies this, buf
      ensures Valid() && old(sent) <= sent <= Content()
      ensures r == Complete ==> sent == Content()
      ensures r == Waiting ==> (blob.None? ==> remaining > 0)
      ensures r == Aborted ==> hangup || !loads || Fault in writes
      ensures r == Waiting && AllTaken(writes) ==> |sent| >= |old(sent)| + |writes|
    {
      SentIsPrefix();
      if hangup {
        return Aborted;
      }
      var i := 0;
      while true
        invariant i <= |writes| && Valid() && old(sent) <= sent <= Content() && (blob.None? ==> remaining > 0)
        invariant AllTaken(writes) ==> |sent| >= |old(sent)| + i
        decreases |writes| - i
      {
        if blob.Some? && remaining == 0 {
          if off == |blob.value| {
            SentIsAll();
            return Complete;
          }
          if !loads {
            return Aborted;
          }
          Refill();
        }
        ghost var at := i;
        i := Insist(writes, i);
        assert i > at ==> writes[at] == Retry;
        if i == |writes| || writes[i] == Full {
          return Waiting;
        }
        if writes[i] == Fault {
          return Aborted;
        }
        Advance(if writes[i].n > remaining then remaining else writes[i].n);
        SentIsPrefix();
        i := i + 1;
        if blob.None? && remaining == 0 {
          SentIsAll();
          return Complete;
        }
      }
    }

    lemma SentIsPrefix()
      requires Valid()
      ensures sent <= Content()
    {
      assert sent == (sent + Window())[..|sent|];
    }

    lemma SentIsAll()
      requires Valid() && remaining == 0 && off == |Content()|
      ensures sent == Content()
    {
      assert Window() == [];
      assert sent + [] == sent;
      assert Content()[..|Content()|] == Content();
    }
  }

  /** How a wake-up goes: hung up or not, blob readable or not, and the answers to the writes. */
  datatype Wakeup = Wakeup(hangup: bool, loads: bool, writes: seq<Write>)

  /** The pipe is open and takes something. */
  ghost predicate Good(w: Wakeup) {
    !w.hangup && w.loads && w.writes != [] && AllTaken(w.writes)
  }

  /**
   * A whole paste over any schedule: the receiver gets a prefix of the content, and all of it,
   * nothing more and nothing twice, when the paste completes; which it does when the pipe keeps
   * taking something.
   */
  method Paste(content: Bytes, stored: bool, wakeups: seq<Wakeup>) returns (r: Outcome, received: Bytes)
    requires stored || content != []
    ensures received <= content
    ensures r == Complete ==> received == content
    ensures (forall w :: w in wakeups ==> Good(w)) && |wakeups| > |content| ==> r == Complete
  {
    var ctx: SendContext;
    if stored {
      ctx := new SendContext.OfBlob(content);
    } else {
      ctx := new SendContext.OfTransient(content);
    }
    r := Waiting;
    var i := 0;
    while i < |wakeups| && r == Waiting
      invariant ctx.Valid() && ctx.Content() == content && ctx.sent <= content && fresh(ctx) && fresh(ctx.buf)
      invariant r == Complete ==> ctx.sent == content
      invariant r == Waiting && ctx.blob.None? ==> ctx.remaining > 0
      invariant i <= |wakeups|
      invariant (forall w :: w in wakeups ==> Good(w)) ==> r != Aborted && (r == Waiting ==> |ctx.sent| >= i)
    {
      assert wakeups[i] in wakeups;
      r := ctx.WriteCallback(wakeups[i].hangup, wakeups[i].loads, wakeups[i].writes);
      i := i + 1;
    }
    return r, ctx.sent;
  }
}
