/**
 * A subscribed client's copy of the history, end to end: the daemon's state and one of its
 * connections in one system, where requests change the state when their batch runs.
 */
module Subscriber {
  import opened Common
  import opened Tables
  import opened History
  import opened Hold
  import opened Replica

  /** A request on the wire: to hold others, to change the history, or only to be answered. */
  datatype Call = Holding(n: int) | Acting(tick: Tick) | Asking(acts: seq<Act>)

  /** A request of this client, a message that is none, or anything else the daemon does. */
  datatype Cause = Message(call: Option<Call>) | Elsewhere(tick: Tick)

  /** `waiting` are the calls behind the held messages; what they will do is not decided yet. */
  datatype System = System(state: State, client: Client, waiting: seq<Call>)

  // ---------------------------------------------------------------- requests and their effect

  function Raises(es: seq<Event>): (acts: seq<Act>)
    ensures |acts| == |es|
  {
    seq(|es|, i requires 0 <= i < |es| => Raise(es[i]))
  }

  /** What the callback does for a call in a state, in the order of its branches. */
  function Done(s: State, call: Call): Request
    requires call.Acting? ==> !call.tick.action.Selection?
  {
    match call
    case Holding(n) => HoldRequests(n)
    case Asking(acts) => Other(acts)
    case Acting(tick) =>
      var es := RequestEvents(s, tick.action, tick.now);
      if History.Answer(s, tick.action) != Success then Other([Respond(Error)])
      else if tick.action.DeleteEntry? then Other([Respond(Ok)] + Raises(es))
      else Other(Raises(es) + [Respond(Ok)])
  }

  /** Calls that change the history are requests; the others raise nothing and keep the subscription. */
  ghost predicate Proper(call: Call) {
    match call
    case Holding(_) => true
    case Acting(tick) => !tick.action.Selection?
    case Asking(acts) => forall a :: a in acts ==> !a.Raise? && (a.Subscribe? ==> a.kinds == EVERY)
  }

  ghost predicate AllProper(calls: seq<Call>) {
    forall i :: 0 <= i < |calls| ==> Proper(calls[i])
  }

  function TicksOf(calls: seq<Call>): seq<Tick> {
    if calls == [] then [] else (if calls[0].Acting? then [calls[0].tick] else []) + TicksOf(calls[1..])
  }

  /** What each of some calls does when they run one after the other. */
  ghost function AllDone(h: Hash, s: State, calls: seq<Call>): (rs: seq<Request>)
    requires AllProper(calls)
    ensures |rs| == |calls|
    decreases |calls|
  {
    if calls == [] then []
    else [Done(s, calls[0])] + AllDone(h, if calls[0].Acting? then Next(h, s, calls[0].tick) else s, calls[1..])
  }

  // ---------------------------------------------------------------- steps of the system

  /** The calls that run when one arrives. */
  function Running(sys: System, call: Call): seq<Call> {
    if sys.client.hold == 0 then [call] else if sys.client.hold == 1 then sys.waiting + [call] else []
  }

  /**
   * A call arrives. If calls run, the connection gets a message on top of what it holds, each
   * standing for what its call does at its turn; otherwise the message just waits.
   */
  ghost function Called(h: Hash, sys: System, call: Call): System
    requires AllProper(sys.waiting) && Proper(call)
  {
    var batch := Running(sys, call);
    if batch == [] then
      System(sys.state, Arrived(sys.client, Other([])).(held := []), sys.waiting + [call])
    else
      assert AllProper(batch);
      var rs := AllDone(h, sys.state, batch);
      var n := |rs| - 1;
      System(Final(h, sys.state, TicksOf(batch)), Arrived(sys.client.(held := rs[..n]), rs[n]), [])
  }

  /** Events from outside reach the connection one after the other. */
  function EmittedAll(c: Client, es: seq<Event>): Client
    decreases |es|
  {
    if es == [] then c else EmittedAll(Emitted(c, es[0]), es[1..])
  }

  ghost predicate Admits(sys: System, cause: Cause) {
    cause.Message? && cause.call.Some? ==> AllProper(sys.waiting) && Proper(cause.call.value)
  }

  ghost function Stepped(h: Hash, sys: System, cause: Cause): System
    requires Admits(sys, cause)
  {
    match cause
    case Message(None) => sys.(client := Flushed(sys.client))
    case Message(Some(call)) => Called(h, sys, call)
    case Elsewhere(tick) =>
      System(Next(h, sys.state, tick), EmittedAll(sys.client, Emits(h, sys.state, tick)), sys.waiting)
  }

  /** The ticks of the daemon that a step consists of. */
  function Ticks(sys: System, cause: Cause): seq<Tick> {
    match cause
    case Message(None) => []
    case Message(Some(call)) => TicksOf(Running(sys, call))
    case Elsewhere(tick) => [tick]
  }

  ghost predicate Admissible(h: Hash, sys: System, run: seq<Cause>)
    decreases |run|
  {
    run != [] ==> Admits(sys, run[0]) && Admissible(h, Stepped(h, sys, run[0]), run[1..])
  }

  ghost function Run(h: Hash, sys: System, run: seq<Cause>): System
    requires Admissible(h, sys, run)
    decreases |run|
  {
    if run == [] then sys else Run(h, Stepped(h, sys, run[0]), run[1..])
  }

  /** The ticks of the daemon that a run consists of, in the order in which they happen. */
  ghost function AllTicks(h: Hash, sys: System, run: seq<Cause>): seq<Tick>
    requires Admissible(h, sys, run)
    decreases |run|
  {
    if run == [] then [] else Ticks(sys, run[0]) + AllTicks(h, Stepped(h, sys, run[0]), run[1..])
  }

  // ---------------------------------------------------------------- what is raised is what is logged

  lemma {:induction false} RaisedConcat(a: seq<Act>, b: seq<Act>)
    ensures Hold.Raised(a + b) == Hold.Raised(a) + Hold.Raised(b)
  {
    if b == [] {
      assert a + b == a;
    } else {
      var n := |b| - 1;
      assert (a + b)[..|a| + n] == a + b[..n];
      RaisedConcat(a, b[..n]);
      Assoc(Hold.Raised(a), Hold.Raised(b[..n]), if b[n].Raise? then [b[n].event] else []);
    }
  }

  lemma {:induction false} RaisedRaises(es: seq<Event>)
    ensures Hold.Raised(Raises(es)) == es
  {
    if es != [] {
      var n := |es| - 1;
      assert Raises(es)[..n] == Raises(es[..n]);
      RaisedRaises(es[..n]);
      assert es == es[..n] + [es[n]];
    }
  }

  lemma {:induction false} NothingRaised(acts: seq<Act>)
    requires forall a :: a in acts ==> !a.Raise?
    ensures Hold.Raised(acts) == []
  {
    if acts != [] {
      NothingRaised(acts[..|acts| - 1]);
      assert acts[|acts| - 1] in acts;
    }
  }

  /** A call raises exactly what its tick emits. */
  lemma CallRaises(h: Hash, s: State, call: Call)
    requires Proper(call) && (call.Acting? ==> Legal(h, s, call.tick))
    ensures Hold.Raised(Script(Done(s, call))) == if call.Acting? then Emits(h, s, call.tick) else []
  {
    match call
    case Holding(n) => NothingRaised(Script(Done(s, call)));
    case Asking(acts) => NothingRaised(acts);
    case Acting(tick) =>
      var es := RequestEvents(s, tick.action, tick.now);
      ElementsOf(tick.trimmed, 0);
      assert Deletions(tick.trimmed) == [] && es + [] == es;
      NothingRaised([Respond(Ok)]);
      NothingRaised([Respond(Error)]);
      RaisedRaises(es);
      RaisedConcat([Respond(Ok)], Raises(es));
      RaisedConcat(Raises(es), [Respond(Ok)]);
  }

  ghost predicate Faithful(acts: seq<Act>) {
    forall a :: a in acts && a.Subscribe? ==> a.kinds == EVERY
  }

  lemma CallIsFaithful(s: State, call: Call)
    requires Proper(call)
    ensures Faithful(Script(Done(s, call)))
  {
  }

  /** A client subscribed to everything that stays so hears everything. */
  lemma {:induction false} EverythingHeard(acts: seq<Act>)
    requires Faithful(acts)
    ensures KindsAfter(EVERY, acts) == EVERY && Heard(EVERY, acts) == Hold.Raised(acts)
  {
    if acts != [] {
      var n := |acts| - 1;
      EverythingHeard(acts[..n]);
      assert acts[n] in acts;
    }
  }

  lemma {:induction false} LegalConcat(h: Hash, s: State, a: seq<Tick>, b: seq<Tick>)
    ensures LegalRun(h, s, a + b) <==> LegalRun(h, s, a) && LegalRun(h, Final(h, s, a), b)
    ensures Final(h, s, a + b) == Final(h, Final(h, s, a), b)
    decreases |a|
  {
    if a == [] {
      assert a + b == b;
    } else {
      assert (a + b)[1..] == a[1..] + b;
      LegalConcat(h, Next(h, s, a[0]), a[1..], b);
    }
  }

  lemma {:induction false} LogConcat(h: Hash, s: State, a: seq<Tick>, b: seq<Tick>)
    ensures Log(h, s, a + b) == Log(h, s, a) + Log(h, Final(h, s, a), b)
    decreases |a|
  {
    if a == [] {
      assert a + b == b;
    } else {
      var next := Next(h, s, a[0]);
      assert (a + b)[1..] == a[1..] + b;
      LogConcat(h, next, a[1..], b);
      Assoc(Emits(h, s, a[0]), Log(h, next, a[1..]), Log(h, Final(h, s, a), b));
    }
  }

  /** A batch raises exactly the log of its ticks. */
  lemma {:induction false} BatchRaisesLog(h: Hash, s: State, calls: seq<Call>)
    requires AllProper(calls) && LegalRun(h, s, TicksOf(calls))
    ensures Hold.Raised(Scripts(AllDone(h, s, calls))) == Log(h, s, TicksOf(calls))
    ensures Faithful(Scripts(AllDone(h, s, calls)))
    decreases |calls|
  {
    if calls != [] {
      var call, later := calls[0], calls[1..];
      var mine := if call.Acting? then [call.tick] else [];
      var s1 := if call.Acting? then Next(h, s, call.tick) else s;
      var r, rs := Done(s, call), AllDone(h, s1, later);
      assert AllDone(h, s, calls) == [r] + rs && TicksOf(calls) == mine + TicksOf(later);
      LegalConcat(h, s, mine, TicksOf(later));
      LogConcat(h, s, mine, TicksOf(later));
      OneTick(h, s, call);
      assert AllProper(later);
      BatchRaisesLog(h, s1, later);
      CallRaises(h, s, call);
      CallIsFaithful(s, call);
      ScriptsConcat([r], rs);
      OneScript(r);
      RaisedConcat(Script(r), Scripts(rs));
    }
  }

  lemma OneTick(h: Hash, s: State, call: Call)
    ensures
      var mine := if call.Acting? then [call.tick] else [];
      && (LegalRun(h, s, mine) ==> call.Acting? ==> Legal(h, s, call.tick))
      && Final(h, s, mine) == (if call.Acting? then Next(h, s, call.tick) else s)
      && Log(h, s, mine) == (if call.Acting? then Emits(h, s, call.tick) else [])
  {
    if call.Acting? {
      assert [call.tick][1..] == [];
      assert Emits(h, s, call.tick) + [] == Emits(h, s, call.tick);
    }
  }

  lemma OneScript(r: Request)
    ensures Scripts([r]) == Script(r)
  {
    assert [r][..0] == [];
    assert [] + Script(r) == Script(r);
  }

  // ---------------------------------------------------------------- runs

  /** The connection of a client subscribed to everything, between messages. */
  ghost predicate Ready(sys: System) {
    Listening(sys.client) && AllProper(sys.waiting)
  }

  lemma {:induction false} EmittedAllOut(c: Client, es: seq<Event>)
    requires c.events == EVERY && !c.handling
    ensures EmittedAll(c, es) == c.(out := c.out + Announcements(es))
    decreases |es|
  {
    if es == [] {
      assert c.out + [] == c.out;
    } else {
      EmittedAllOut(Emitted(c, es[0]), es[1..]);
      assert Announcements(es) == [Announced(es[0])] + Announcements(es[1..]);
      Assoc(c.out, [Announced(es[0])], Announcements(es[1..]));
    }
  }

  /** A client subscribed to everything, between messages, with nothing held. */
  ghost predicate Listening(c: Client) {
    Idle(c) && c.held == [] && c.events == EVERY
  }

  /** The batch that the request `r` completes sends what its requests raise. */
  lemma BatchSends(c: Client, front: seq<Request>, r: Request)
    requires Listening(c) && (c.hold == 1 || (c.hold == 0 && front == [])) && Faithful(Scripts(front + [r]))
    ensures
      var next := Arrived(c.(held := front), r);
      Listening(next) && EventsIn(next.out) == EventsIn(c.out) + Hold.Raised(Scripts(front + [r]))
  {
    var acts := Scripts(front + [r]);
    assert [] + [r] == [r];
    assert Batch(c.(held := front), r) == front + [r];
    ArrivedShape(c.(held := front), r);
    EverythingHeard(acts);
    NothingLeft(front + [r], Arrived(c.(held := front), r).held);
    SendsInOrder(c.out, acts, Heard(EVERY, acts));
  }

  lemma NothingLeft<T>(a: seq<T>, b: seq<T>)
    ensures a + b == a ==> b == []
  {
    assert |a + b| == |a| + |b|;
  }

  /** A message that waits sends nothing. */
  lemma WaitSends(c: Client, r: Request)
    requires Listening(c) && c.hold > 1
    ensures
      var next := Arrived(c, r).(held := []);
      Listening(next) && EventsIn(next.out) == EventsIn(c.out)
  {
    ArrivedShape(c, r);
    StepSends(c, Arrival(Some(r)));
    assert Scripts(Started(c, Arrival(Some(r)))) == [];
    assert EventsIn(c.out) + [] == EventsIn(c.out);
  }

  lemma CallSends(h: Hash, sys: System, call: Call)
    requires Ready(sys) && Proper(call) && LegalRun(h, sys.state, TicksOf(Running(sys, call)))
    ensures
      var next, ticks := Called(h, sys, call), TicksOf(Running(sys, call));
      && Ready(next) && next.state == Final(h, sys.state, ticks)
      && EventsIn(next.client.out) == EventsIn(sys.client.out) + Log(h, sys.state, ticks)
  {
    var batch := Running(sys, call);
    if batch == [] {
      WaitSends(sys.client, Other([]));
      assert EventsIn(sys.client.out) + [] == EventsIn(sys.client.out);
    } else {
      assert AllProper(batch);
      BatchRaisesLog(h, sys.state, batch);
      var rs := AllDone(h, sys.state, batch);
      var n := |rs| - 1;
      assert rs[..n] + [rs[n]] == rs;
      BatchSends(sys.client, rs[..n], rs[n]);
    }
  }

  lemma StepSendsLog(h: Hash, sys: System, cause: Cause)
    requires Ready(sys) && Admits(sys, cause) && LegalRun(h, sys.state, Ticks(sys, cause))
    ensures
      var next := Stepped(h, sys, cause);
      && Ready(next) && next.state == Final(h, sys.state, Ticks(sys, cause))
      && EventsIn(next.client.out) == EventsIn(sys.client.out) + Log(h, sys.state, Ticks(sys, cause))
  {
    match cause
    case Message(None) =>
      StepSends(sys.client, Arrival(None));
      assert EventsIn(sys.client.out) + [] == EventsIn(sys.client.out);
    case Message(Some(call)) => CallSends(h, sys, call);
    case Elsewhere(tick) =>
      var es := Emits(h, sys.state, tick);
      EmittedAllOut(sys.client, es);
      InConcat(sys.client.out, Announcements(es));
      InAnnouncements(es);
      OneTick(h, sys.state, Acting(tick));
  }

  /** The events a client gets over a run are the log of the daemon over it, however batches fell. */
  lemma {:induction false} RunSendsLog(h: Hash, sys: System, run: seq<Cause>)
    requires Ready(sys) && Admissible(h, sys, run) && LegalRun(h, sys.state, AllTicks(h, sys, run))
    ensures
      var end := Run(h, sys, run);
      && Ready(end) && end.state == Final(h, sys.state, AllTicks(h, sys, run))
      && EventsIn(end.client.out) == EventsIn(sys.client.out) + Log(h, sys.state, AllTicks(h, sys, run))
    decreases |run|
  {
    if run == [] {
      assert EventsIn(sys.client.out) + [] == EventsIn(sys.client.out);
    } else {
      var next := Stepped(h, sys, run[0]);
      var mine, later := Ticks(sys, run[0]), AllTicks(h, next, run[1..]);
      LegalConcat(h, sys.state, mine, later);
      LogConcat(h, sys.state, mine, later);
      StepSendsLog(h, sys, run[0]);
      RunSendsLog(h, next, run[1..]);
      Assoc(EventsIn(sys.client.out), Log(h, sys.state, mine), Log(h, next.state, later));
    }
  }

  /**
   * A client that holds a snapshot of the history and is subscribed to everything has, at the
   * end of every run, the history list: whatever requests it and others made, however its own
   * were held and batched, and whatever was copied in between.
   */
  lemma SubscriberReplays(h: Hash, sys: System, run: seq<Cause>, snapshot: seq<int>) returns (received: seq<Event>)
    requires Ready(sys) && Admissible(h, sys, run) && LegalRun(h, sys.state, AllTicks(h, sys, run))
    requires Wf(sys.state.db) && IsHistory(sys.state.db.entries, snapshot)
    ensures
      var end := Run(h, sys, run);
      && EventsIn(end.client.out) == EventsIn(sys.client.out) + received
      && IsHistory(end.state.db.entries, Replay(snapshot, received))
  {
    var ticks := AllTicks(h, sys, run);
    received := Log(h, sys.state, ticks);
    RunSendsLog(h, sys, run);
    RunReplays(h, sys.state, ticks, snapshot);
  }
}
