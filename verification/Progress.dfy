/** The channel moves: what is queued goes out, and what is on the socket arrives, whenever the kernel takes part. */
module Progress {
  import opened Common
  import opened Framing
  import opened Channel

  // ---------------------------------------------------------------- sending

  /** Every send takes something. */
  predicate Takes(schedule: seq<nat>) {
    forall i :: 0 <= i < |schedule| ==> schedule[i] > 0
  }

  predicate NoneSpent(q: Queue) {
    forall i :: 0 <= i < |q| ==> q[i] != []
  }

  /** One send that takes something moves at least one cell, and exactly what it takes of the first message. */
  lemma SendMoves(q: Queue, limit: nat)
    requires q != [] && limit > 0 && NoneSpent(q)
    ensures
      var n := if limit < |q[0]| then limit else |q[0]|;
      && 0 < n && NoneSpent(AfterSend(q, n)) && |Queued(AfterSend(q, n))| == |Queued(q)| - n
      && Flush(q, [limit]) == Flushed(AfterSend(q, n), q[0][..n])
  {
    var n := if limit < |q[0]| then limit else |q[0]|;
    SendTakesPrefix(q, n);
    var later := AfterSend(q, n);
    forall i | 0 <= i < |later| ensures later[i] != [] {
      assert i > 0 || n == |q[0]| ==> later[i] == q[if n == |q[0]| then i + 1 else i];
    }
    assert [limit][1..] == [];
    assert q[0][..n] + [] == q[0][..n];
  }

  lemma {:induction false} FlushKeepsNoneSpent(q: Queue, schedule: seq<nat>)
    requires NoneSpent(q)
    ensures NoneSpent(Flush(q, schedule).queue)
    decreases |schedule|
  {
    if q != [] && schedule != [] && schedule[0] > 0 {
      SendMoves(q, schedule[0]);
      FlushKeepsNoneSpent(AfterSend(q, if schedule[0] < |q[0]| then schedule[0] else |q[0]|), schedule[1..]);
    }
  }

  lemma SomethingQueued(q: Queue)
    requires NoneSpent(q) && q != []
    ensures Queued(q) != []
  {
    assert |Queued(q)| >= |q[0]|;
  }

  /** As many sends that take something as there are cells to go empty the queue. */
  lemma {:induction false} FlushEmpties(q: Queue, schedule: seq<nat>)
    requires NoneSpent(q) && Takes(schedule) && |schedule| >= |Queued(q)|
    ensures Flush(q, schedule) == Flushed([], Queued(q))
    decreases |schedule|
  {
    FlushTakesPrefix(q, schedule);
    if q != [] {
      SomethingQueued(q);
      var n := if schedule[0] < |q[0]| then schedule[0] else |q[0]|;
      SendMoves(q, schedule[0]);
      SendTakesPrefix(q, n);
      FlushEmpties(AfterSend(q, n), schedule[1..]);
    }
  }

  // ---------------------------------------------------------------- receiving

  lemma {:induction false} PollShrinks(tok: Tokener, wantFd: bool, r: Reader, sock: seq<Cell>, schedule: seq<nat>)
    ensures |Poll(tok, wantFd, r, sock, schedule).sock| <= |sock|
    decreases |schedule|
  {
    if schedule != [] && sock != [] {
      var n := Portion(r, |sock|, schedule[0]);
      var t := Turned(tok, wantFd, r, sock[..n]);
      if t.ok && t.again {
        PollShrinks(tok, wantFd, t.reader, sock[n..], schedule[1..]);
      }
    }
  }

  /** A poll whose first receive may take something takes something, if there is anything. */
  lemma PollMoves(tok: Tokener, wantFd: bool, r: Reader, sock: seq<Cell>, schedule: seq<nat>)
    requires r.pending > 0 && sock != [] && schedule != [] && schedule[0] > 0
    ensures |Poll(tok, wantFd, r, sock, schedule).sock| < |sock|
  {
    var n := Portion(r, |sock|, schedule[0]);
    var t := Turned(tok, wantFd, r, sock[..n]);
    assert n > 0;
    if t.ok && t.again {
      PollShrinks(tok, wantFd, t.reader, sock[n..], schedule[1..]);
    }
  }

  /** Polls, each of which may receive something. */
  predicate Receives(polls: seq<Op>) {
    forall i :: 0 <= i < |polls| ==> polls[i].Polling? && polls[i].schedule != [] && polls[i].schedule[0] > 0
  }

  /** As many such polls as there are cells empty the socket, unless the reader gives up. */
  lemma {:induction false} PollsEmpty(tok: Tokener, wantFd: bool, w: World, polls: seq<Op>, posted: seq<Message>, k: nat, off: nat)
    requires AllSendable(tok, posted) && ReadInv(wantFd, w, posted, k, off) && Receives(polls)
    ensures
      var end := Steps(tok, wantFd, w, polls);
      && end.queue == w.queue && end.closed == w.closed
      && (end.alive && |polls| >= |w.sock| ==> end.sock == [])
    decreases |polls|
  {
    if polls != [] {
      var next := Step(tok, wantFd, w, polls[0]);
      var j, n := PollKeeps(tok, wantFd, w, polls[0].schedule, posted, k, off);
      if w.alive && w.sock != [] {
        PollMoves(tok, wantFd, w.reader, w.sock, polls[0].schedule);
      }
      PollsEmpty(tok, wantFd, next, polls[1..], posted, j, n);
      DeadStaysDead(tok, wantFd, next, polls[1..]);
    }
  }

  lemma {:induction false} DeadStaysDead(tok: Tokener, wantFd: bool, w: World, script: seq<Op>)
    ensures !w.alive ==> !Steps(tok, wantFd, w, script).alive
    decreases |script|
  {
    if script != [] {
      DeadStaysDead(tok, wantFd, Step(tok, wantFd, w, script[0]), script[1..]);
    }
  }

  // ---------------------------------------------------------------- whole connections

  lemma {:induction false} StepsConcat(tok: Tokener, wantFd: bool, w: World, a: seq<Op>, b: seq<Op>)
    ensures Steps(tok, wantFd, w, a + b) == Steps(tok, wantFd, Steps(tok, wantFd, w, a), b)
    ensures Posted(a + b) == Posted(a) + Posted(b)
    decreases |a|
  {
    if a == [] {
      assert a + b == b;
    } else {
      assert (a + b)[1..] == a[1..] + b;
      StepsConcat(tok, wantFd, Step(tok, wantFd, w, a[0]), a[1..], b);
      Assoc(if a[0].Posting? then [a[0].m] else [], Posted(a[1..]), Posted(b));
    }
  }

  lemma {:induction false} NothingPosted(script: seq<Op>)
    requires forall i :: 0 <= i < |script| ==> !script[i].Posting?
    ensures Posted(script) == []
  {
    if script != [] {
      NothingPosted(script[1..]);
    }
  }

  lemma {:induction false} StepsKeepNoneSpent(tok: Tokener, wantFd: bool, w: World, script: seq<Op>)
    requires NoneSpent(w.queue)
    ensures NoneSpent(Steps(tok, wantFd, w, script).queue)
    decreases |script|
  {
    if script != [] {
      if script[0].Flushing? {
        FlushKeepsNoneSpent(w.queue, script[0].schedule);
      }
      StepsKeepNoneSpent(tok, wantFd, Step(tok, wantFd, w, script[0]), script[1..]);
    }
  }

  /** How many messages come before the first that is over the limit. */
  function Deliverable(ms: seq<Message>): (k: nat)
    ensures k <= |ms| && Fit(ms, k) && (k < |ms| ==> Oversized(ms[k]))
  {
    if ms == [] || Oversized(ms[0]) then 0 else 1 + Deliverable(ms[1..])
  }

  /** A queue flushed and a socket polled often enough. */
  ghost predicate Drains(w: World, schedule: seq<nat>, polls: seq<Op>) {
    && Takes(schedule) && |schedule| >= |Queued(w.queue)|
    && Receives(polls) && |polls| >= |w.sock| + |Queued(w.queue)|
  }

  lemma DrainedWorld(tok: Tokener, wantFd: bool, w: World, schedule: seq<nat>, polls: seq<Op>,
                     posted: seq<Message>, out: seq<Cell>, k: nat, off: nat)
    requires Inv(tok, wantFd, w, posted, out, k, off) && NoneSpent(w.queue) && Drains(w, schedule, polls)
    ensures
      var end := Steps(tok, wantFd, w, [Flushing(schedule)] + polls);
      end.queue == [] && (end.alive ==> end.sock == [])
  {
    var flushed := Step(tok, wantFd, w, Flushing(schedule));
    FlushEmpties(w.queue, schedule);
    FlushKeeps(tok, wantFd, w, schedule, posted, out, k, off);
    assert ([Flushing(schedule)] + polls)[1..] == polls;
    PollsEmpty(tok, wantFd, flushed, polls, posted, k, off);
  }

  /**
   * Whatever has happened on a connection: flushing the queue and polling the socket, with sends
   * and receives that move at least one byte each, often enough, sends everything and closes each
   * descriptor; and delivers the messages in front of the first oversized one, which are all of
   * them just when the reader is still alive.
   */
  lemma EverythingArrives(tok: Tokener, wantFd: bool, script: seq<Op>, schedule: seq<nat>, polls: seq<Op>)
    requires AllSendable(tok, Posted(script)) && Drains(Steps(tok, wantFd, QUIET, script), schedule, polls)
    ensures
      var all := Posted(script);
      var end := Steps(tok, wantFd, QUIET, script + ([Flushing(schedule)] + polls));
      && end.queue == [] && end.closed == Attached(all)
      && end.delivered == Seen(all[..Deliverable(all)], wantFd)
      && (end.alive <==> Deliverable(all) == |all|) && (end.alive ==> end.sock == [])
  {
    var all, later := Posted(script), [Flushing(schedule)] + polls;
    var w, end := Steps(tok, wantFd, QUIET, script), Steps(tok, wantFd, QUIET, script + later);
    StepsConcat(tok, wantFd, QUIET, script, later);
    NothingPosted(later);
    assert Posted(script + later) == all;
    QuietIsInv(tok, wantFd);
    var out, k, off := StepsKeep(tok, wantFd, QUIET, script, [], [], 0, 0);
    assert [] + all == all;
    StepsKeepNoneSpent(tok, wantFd, QUIET, script);
    DrainedWorld(tok, wantFd, w, schedule, polls, all, out, k, off);
    EndOfAll(tok, wantFd, script + later);
  }

  lemma EndOfAll(tok: Tokener, wantFd: bool, script: seq<Op>)
    requires AllSendable(tok, Posted(script))
    requires
      var end := Steps(tok, wantFd, QUIET, script);
      end.queue == [] && (end.alive ==> end.sock == [])
    ensures
      var all, end := Posted(script), Steps(tok, wantFd, QUIET, script);
      && end.closed == Attached(all) && end.delivered == Seen(all[..Deliverable(all)], wantFd)
      && (end.alive <==> Deliverable(all) == |all|)
  {
    var all, end := Posted(script), Steps(tok, wantFd, QUIET, script);
    QuietIsInv(tok, wantFd);
    var out, k, off := StepsKeep(tok, wantFd, QUIET, script, [], [], 0, 0);
    assert [] + all == all;
    ClosedArePosted(end, all, out);
    DeliveredArePosted(wantFd, end, all, k, off);
    assert k == Deliverable(all);
  }

  /** So every connection can be brought to an end, from wherever it is. */
  lemma CanDrain(w: World) returns (schedule: seq<nat>, polls: seq<Op>)
    ensures Drains(w, schedule, polls)
  {
    schedule := seq(|Queued(w.queue)|, i => 1);
    polls := seq(|w.sock| + |Queued(w.queue)|, i => Polling([1]));
  }
}
