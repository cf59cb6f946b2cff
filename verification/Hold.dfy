/**
 * The daemon's side of one IPC connection: requests held back and run as a batch, and events
 * kept until the responses of the batch are queued.
 */
module Hold {
  import opened Common
  import opened History

  const U32 := 0x1_0000_0000

  datatype Kind = OnAdd | OnMove | OnDelete | OnUpdate | OnState

  const EVERY: set<Kind> := {OnAdd, OnMove, OnDelete, OnUpdate, OnState}

  function KindOfEvent(e: Event): Kind {
    match e
    case EntryAdd(_) => OnAdd
    case EntryMove(_, _, _) => OnMove
    case EntryDelete(_) => OnDelete
    case EntryUpdate(_, _, _) => OnUpdate
    case EntryState(_, _) => OnState
  }

  datatype Answer = Ok | Error | Response(body: Bytes)

  datatype Sent = Reply(answer: Answer) | Announced(event: Event)

  /** What the request callback does while it serves a request. */
  datatype Act = Respond(answer: Answer) | Raise(event: Event) | Subscribe(kinds: set<Kind>)

  /** A request to hold others, or any other request with all the callback did for it. */
  datatype Request = HoldRequests(n: int) | Other(acts: seq<Act>)

  /** One client as the daemon sees it; `out` is everything put into its write queue. */
  datatype Client = Client(
    events: set<Kind>, hold: nat, held: seq<Request>, pending: seq<Event>, handling: bool, out: seq<Sent>)

  function Emitted(c: Client, e: Event): Client {
    if KindOfEvent(e) !in c.events then c
    else if c.handling then c.(pending := c.pending + [e])
    else c.(out := c.out + [Announced(e)])
  }

  function Acted(c: Client, a: Act): Client {
    match a
    case Respond(answer) => c.(out := c.out + [Reply(answer)])
    case Raise(e) => Emitted(c, e)
    case Subscribe(kinds) => c.(events := kinds)
  }

  function Performed(c: Client, acts: seq<Act>): Client {
    if acts == [] then c
    else
      var n := |acts| - 1;
      Acted(Performed(c, acts[..n]), acts[n])
  }

  /** What a hold request adds to the 32-bit counter; a negative count wraps around. */
  function Grant(r: Request): nat {
    if r.HoldRequests? && r.n < U32 then r.n % U32 else 0
  }

  function Called(c: Client, r: Request): Client {
    match r
    case HoldRequests(n) =>
      if n >= U32 then Acted(c, Respond(Error))
      else Acted(c.(hold := (c.hold + Grant(r)) % U32), Respond(Ok))
    case Other(acts) => Performed(c, acts)
  }

  function Handled(c: Client, r: Request): Client {
    Called(c.(handling := true), r).(handling := false)
  }

  function HandledAll(c: Client, rs: seq<Request>): Client {
    if rs == [] then c
    else
      var n := |rs| - 1;
      Handled(HandledAll(c, rs[..n]), rs[n])
  }

  function Announcements(es: seq<Event>): (s: seq<Sent>)
    ensures |s| == |es|
  {
    seq(|es|, i requires 0 <= i < |es| => Announced(es[i]))
  }

  function Flushed(c: Client): Client {
    c.(out := c.out + Announcements(c.pending), pending := [])
  }

  /** A request arrives: it runs, or it waits, or it completes a batch. */
  function Arrived(c: Client, r: Request): Client {
    Flushed(
      if c.hold == 0 then Handled(c, r)
      else
        var c1 := c.(held := c.held + [r], hold := c.hold - 1);
        if c1.hold == 0 then HandledAll(c1, c1.held).(held := []) else c1)
  }

  // ---------------------------------------------------------------- the connection as an object

  class Connection {
    var events: set<Kind>
    var hold: nat
    var held: seq<Request>
    var pending: seq<Event>
    var handling: bool
    var out: seq<Sent>

    ghost function Value(): Client
      reads this
    {
      Client(events, hold, held, pending, handling, out)
    }

    constructor ()
      ensures Value() == Client({}, 0, [], [], false, [])
    {
      events, hold, held, pending, handling, out := {}, 0, [], [], false, [];
    }

    method Send(m: Sent)
      modifies this`out
      ensures out == old(out) + [m]
    {
      out := out + [m];
    }

    method Emit(e: Event)
      modifies this`pending, this`out
      ensures Value() == Emitted(old(Value()), e)
    {
      if KindOfEvent(e) in events {
        if handling {
          pending := pending + [e];
        } else {
          Send(Announced(e));
        }
      }
    }

    method FlushEvents()
      modifies this`pending, this`out
      ensures Value() == Flushed(old(Value()))
    {
      for i := 0 to |pending|
        invariant pending == old(pending)
        invariant out == old(out) + Announcements(pending[..i])
      {
        assert Announcements(pending[..i + 1]) == Announcements(pending[..i]) + [Announced(pending[i])];
        Send(Announced(pending[i]));
      }
      assert pending[..|pending|] == pending;
      pending := [];
    }

    /** The request callback. */
    method Callback(r: Request)
      modifies this`events, this`hold, this`pending, this`out
      ensures Value() == Called(old(Value()), r)
    {
      match r
      case HoldRequests(n) => {
        if n >= U32 {
          Send(Reply(Error));
        } else {
          hold := (hold + n % U32) % U32;
          Send(Reply(Ok));
        }
      }
      case Other(acts) => {
        for i := 0 to |acts|
          invariant Value() == Performed(old(Value()), acts[..i])
        {
          assert acts[..i + 1][..i] == acts[..i];
          match acts[i]
          case Respond(answer) => Send(Reply(answer));
          case Raise(e) => Emit(e);
          case Subscribe(kinds) => events := kinds;
        }
        assert acts[..|acts|] == acts;
      }
    }

    method Handle(r: Request)
      modifies this`events, this`hold, this`pending, this`out, this`handling
      ensures Value() == Handled(old(Value()), r)
    {
      handling := true;
      Callback(r);
      handling := false;
    }

    /** Runs what was held, in arrival order. */
    method HandleHeld()
      modifies this`events, this`hold, this`pending, this`out, this`handling
      ensures Value() == HandledAll(old(Value()), held)
    {
      for i := 0 to |held|
        invariant held == old(held)
        invariant Value() == HandledAll(old(Value()), held[..i])
      {
        assert held[..i + 1][..i] == held[..i];
        Handle(held[i]);
      }
      assert held[..|held|] == held;
    }

    /** One message off the wire; None stands for a message that is not a request. */
    method MessageCallback(message: Option<Request>)
      modifies this
      ensures Value() == if message.Some? then Arrived(old(Value()), message.value) else Flushed(old(Value()))
    {
      if message.Some? {
        if hold > 0 {
          held := held + [message.value];
          hold := hold - 1;
          if hold == 0 {
            HandleHeld();
            held := [];
          }
        } else {
          Handle(message.value);
        }
      }
      FlushEvents();
    }
  }

  /** An event goes to every connection. */
  method EmitEvent(connections: seq<Connection>, e: Event)
    requires Distinct(connections)
    modifies connections
    ensures forall i :: 0 <= i < |connections| ==> connections[i].Value() == Emitted(old(connections[i].Value()), e)
  {
    for i := 0 to |connections|
      invariant forall j :: 0 <= j < i ==> connections[j].Value() == Emitted(old(connections[j].Value()), e)
      invariant forall j :: i <= j < |connections| ==> connections[j].Value() == old(connections[j].Value())
    {
      connections[i].Emit(e);
    }
  }

  // ---------------------------------------------------------------- what a batch does

  /** The requests that run when `r` arrives. */
  function Batch(c: Client, r: Request): seq<Request> {
    if c.hold == 0 then [r] else if c.hold == 1 then c.held + [r] else []
  }

  function Answers(acts: seq<Act>): seq<Sent> {
    if acts == [] then []
    else
      var n := |acts| - 1;
      Answers(acts[..n]) + if acts[n].Respond? then [Reply(acts[n].answer)] else []
  }

  function KindsAfter(kinds: set<Kind>, acts: seq<Act>): set<Kind> {
    if acts == [] then kinds
    else
      var n := |acts| - 1;
      if acts[n].Subscribe? then acts[n].kinds else KindsAfter(kinds, acts[..n])
  }

  /** The events raised, in order, that the client was subscribed to when they were raised. */
  function Heard(kinds: set<Kind>, acts: seq<Act>): seq<Event> {
    if acts == [] then []
    else
      var n := |acts| - 1;
      Heard(kinds, acts[..n])
      + if acts[n].Raise? && KindOfEvent(acts[n].event) in KindsAfter(kinds, acts[..n]) then [acts[n].event] else []
  }

  /** Everything the callback does for a request, a hold request included. */
  function Script(r: Request): seq<Act> {
    match r
    case HoldRequests(n) => [Respond(if n >= U32 then Error else Ok)]
    case Other(acts) => acts
  }

  function Scripts(rs: seq<Request>): seq<Act> {
    if rs == [] then [] else Scripts(rs[..|rs| - 1]) + Script(rs[|rs| - 1])
  }

  function Grants(rs: seq<Request>): nat {
    if rs == [] then 0 else Grants(rs[..|rs| - 1]) + Grant(rs[|rs| - 1])
  }

  /** While a request is handled, responses are queued at once and events wait. */
  lemma {:induction false} PerformedShape(c: Client, acts: seq<Act>)
    requires c.handling
    ensures Performed(c, acts) == c.(events := KindsAfter(c.events, acts),
                                     out := c.out + Answers(acts),
                                     pending := c.pending + Heard(c.events, acts))
  {
    if acts != [] {
      PerformedShape(c, acts[..|acts| - 1]);
    }
  }

  lemma {:induction false} KindsConcat(kinds: set<Kind>, a: seq<Act>, b: seq<Act>)
    ensures KindsAfter(kinds, a + b) == KindsAfter(KindsAfter(kinds, a), b)
  {
    if b == [] {
      assert a + b == a;
    } else {
      var n := |b| - 1;
      assert (a + b)[..|a| + n] == a + b[..n];
      KindsConcat(kinds, a, b[..n]);
    }
  }

  lemma {:induction false} AnswersConcat(a: seq<Act>, b: seq<Act>)
    ensures Answers(a + b) == Answers(a) + Answers(b)
  {
    if b == [] {
      assert a + b == a;
      assert Answers(a) + [] == Answers(a);
    } else {
      var n := |b| - 1;
      assert (a + b)[..|a| + n] == a + b[..n];
      AnswersConcat(a, b[..n]);
      Assoc(Answers(a), Answers(b[..n]), if b[n].Respond? then [Reply(b[n].answer)] else []);
    }
  }

  lemma {:induction false} HeardConcat(kinds: set<Kind>, a: seq<Act>, b: seq<Act>)
    ensures Heard(kinds, a + b) == Heard(kinds, a) + Heard(KindsAfter(kinds, a), b)
  {
    var later := KindsAfter(kinds, a);
    if b == [] {
      assert a + b == a;
      assert Heard(kinds, a) + [] == Heard(kinds, a);
    } else {
      var n := |b| - 1;
      assert (a + b)[..|a| + n] == a + b[..n];
      HeardConcat(kinds, a, b[..n]);
      KindsConcat(kinds, a, b[..n]);
      Assoc(Heard(kinds, a), Heard(later, b[..n]),
            if b[n].Raise? && KindOfEvent(b[n].event) in KindsAfter(later, b[..n]) then [b[n].event] else []);
    }
  }

  /** What a client has become, by how much each part of it grew. */
  function Grown(c: Client, kinds: set<Kind>, grant: nat, out: seq<Sent>, pending: seq<Event>): Client {
    c.(events := kinds, hold := (c.hold + grant) % U32, out := c.out + out, pending := c.pending + pending)
  }

  lemma GrownTwice(c: Client, k1: set<Kind>, g1: nat, o1: seq<Sent>, p1: seq<Event>,
                   k2: set<Kind>, g2: nat, o2: seq<Sent>, p2: seq<Event>)
    ensures Grown(Grown(c, k1, g1, o1, p1), k2, g2, o2, p2) == Grown(c, k2, g1 + g2, o1 + o2, p1 + p2)
  {
    Assoc(c.out, o1, o2);
    Assoc(c.pending, p1, p2);
    assert ((c.hold + g1) % U32 + g2) % U32 == (c.hold + g1 + g2) % U32;
  }

  /** What a client has become after the acts `a` and the grants that came with them. */
  function After(c: Client, a: seq<Act>, grant: nat): Client {
    Grown(c, KindsAfter(c.events, a), grant, Answers(a), Heard(c.events, a))
  }

  lemma AfterTwice(c: Client, a: seq<Act>, g1: nat, b: seq<Act>, g2: nat)
    ensures After(After(c, a, g1), b, g2) == After(c, a + b, g1 + g2)
  {
    var kinds := KindsAfter(c.events, a);
    KindsConcat(c.events, a, b);
    AnswersConcat(a, b);
    HeardConcat(c.events, a, b);
    GrownTwice(c, kinds, g1, Answers(a), Heard(c.events, a), KindsAfter(kinds, b), g2, Answers(b), Heard(kinds, b));
  }

  lemma HandledShape(c: Client, r: Request)
    requires !c.handling && c.hold < U32
    ensures Handled(c, r) == After(c, Script(r), Grant(r))
  {
    PerformedShape(c.(handling := true), Script(r));
    if r.HoldRequests? {
      var reply := Script(r)[0];
      assert Script(r)[..0] == [];
      assert Answers(Script(r)) == [Reply(reply.answer)];
      assert Heard(c.events, Script(r)) == [];
      assert c.pending + [] == c.pending;
    }
  }

  lemma {:induction false} HandledAllShape(c: Client, rs: seq<Request>)
    requires !c.handling && c.hold < U32
    ensures HandledAll(c, rs) == After(c, Scripts(rs), Grants(rs))
  {
    if rs == [] {
      assert c.out + [] == c.out && c.pending + [] == c.pending;
    } else {
      var front, r := rs[..|rs| - 1], rs[|rs| - 1];
      HandledAllShape(c, front);
      HandledShape(HandledAll(c, front), r);
      AfterTwice(c, Scripts(front), Grants(front), Script(r), Grant(r));
    }
  }

  // ---------------------------------------------------------------- runs

  /** Between messages nothing is pending, and requests wait only while more are to come. */
  ghost predicate Idle(c: Client) {
    !c.handling && c.pending == [] && c.hold < U32 && (c.held != [] ==> c.hold > 0)
  }

  /** A batch that runs: all its responses, in order, then the events raised during it, in order. */
  lemma BatchShape(c: Client, rs: seq<Request>)
    requires !c.handling && c.pending == [] && c.hold == 0
    ensures
      var acts, c1 := Scripts(rs), Flushed(HandledAll(c, rs));
      && c1.out == c.out + Answers(acts) + Announcements(Heard(c.events, acts))
      && c1.events == KindsAfter(c.events, acts)
      && c1.hold == Grants(rs) % U32
      && !c1.handling && c1.pending == [] && c1.held == c.held
  {
    HandledAllShape(c, rs);
    assert [] + Heard(c.events, Scripts(rs)) == Heard(c.events, Scripts(rs));
  }

  lemma ArrivedIsBatch(c: Client, r: Request)
    requires Idle(c)
    ensures c.hold > 1 ==> Arrived(c, r) == c.(held := c.held + [r], hold := c.hold - 1)
    ensures c.hold == 1 ==>
      Arrived(c, r) == Flushed(HandledAll(c.(held := c.held + [r], hold := 0), Batch(c, r))).(held := [])
    ensures c.hold == 0 ==> Arrived(c, r) == Flushed(HandledAll(c, Batch(c, r)))
  {
    if c.hold == 0 {
      assert [r][..0] == [];
      assert HandledAll(c, [r]) == Handled(HandledAll(c, []), r);
    } else if c.hold > 1 {
      assert c.out + Announcements([]) == c.out;
    }
  }

  /** What one arrival does to the client, in terms of the batch it sets off. */
  lemma ArrivedShape(c: Client, r: Request)
    requires Idle(c)
    ensures
      var acts, c1 := Scripts(Batch(c, r)), Arrived(c, r);
      && Idle(c1)
      && c1.out == c.out + Answers(acts) + Announcements(Heard(c.events, acts))
      && c1.events == KindsAfter(c.events, acts)
      && c1.hold == (if c.hold == 0 then 0 else c.hold - 1) + Grants(Batch(c, r)) % U32
      && Batch(c, r) + c1.held == c.held + [r]
  {
    ArrivedIsBatch(c, r);
    if c.hold == 0 {
      BatchShape(c, [r]);
    } else if c.hold == 1 {
      BatchShape(c.(held := c.held + [r], hold := 0), c.held + [r]);
    } else {
      assert Answers([]) == [] && Announcements(Heard(c.events, [])) == [];
    }
  }

  /** A message of this client, or an event raised for another reason. */
  datatype Input = Arrival(message: Option<Request>) | Outside(event: Event)

  function Step(c: Client, i: Input): Client {
    match i
    case Arrival(None) => Flushed(c)
    case Arrival(Some(r)) => Arrived(c, r)
    case Outside(e) => Emitted(c, e)
  }

  function Run(c: Client, run: seq<Input>): Client
    decreases |run|
  {
    if run == [] then c else Run(Step(c, run[0]), run[1..])
  }

  function Requests(run: seq<Input>): seq<Request> {
    if run == [] then []
    else (if run[0].Arrival? && run[0].message.Some? then [run[0].message.value] else []) + Requests(run[1..])
  }

  function Started(c: Client, i: Input): seq<Request> {
    if i.Arrival? && i.message.Some? then Batch(c, i.message.value) else []
  }

  /** A batch by itself, unless it is empty. */
  function Alone<T>(s: seq<T>): seq<seq<T>> {
    if |s| == 0 then [] else [s]
  }

  /** The batches a run sets off. */
  function Batches(c: Client, run: seq<Input>): seq<seq<Request>>
    decreases |run|
  {
    if run == [] then []
    else Alone(Started(c, run[0])) + Batches(Step(c, run[0]), run[1..])
  }

  function Flat<T>(ss: seq<seq<T>>): seq<T> {
    if ss == [] then [] else ss[0] + Flat(ss[1..])
  }

  lemma StepKeepsIdle(c: Client, i: Input)
    requires Idle(c)
    ensures Idle(Step(c, i))
  {
    if i.Arrival? && i.message.Some? {
      ArrivedShape(c, i.message.value);
    }
  }

  lemma {:induction false} RunKeepsIdle(c: Client, run: seq<Input>)
    requires Idle(c)
    ensures Idle(Run(c, run))
    decreases |run|
  {
    if run != [] {
      StepKeepsIdle(c, run[0]);
      RunKeepsIdle(Step(c, run[0]), run[1..]);
    }
  }

  /** Requests run exactly once each and in arrival order; those still held are the rest. */
  lemma {:induction false} RunConserves(c: Client, run: seq<Input>)
    requires Idle(c)
    ensures Flat(Batches(c, run)) + Run(c, run).held == c.held + Requests(run)
    decreases |run|
  {
    if run == [] {
      assert c.held + [] == c.held && [] + c.held == c.held;
    } else {
      var i, c1, now := run[0], Step(c, run[0]), Started(c, run[0]);
      var mine: seq<Request> := if i.Arrival? && i.message.Some? then [i.message.value] else [];
      StepKeepsIdle(c, i);
      RunConserves(c1, run[1..]);
      if mine != [] {
        ArrivedShape(c, mine[0]);
      }
      assert now + c1.held == c.held + mine;
      FlatCons(now, Batches(c1, run[1..]));
      Assoc(now, Flat(Batches(c1, run[1..])), Run(c, run).held);
      Assoc(now, c1.held, Requests(run[1..]));
      Assoc(c.held, mine, Requests(run[1..]));
    }
  }

  lemma FlatCons<T>(s: seq<T>, ss: seq<seq<T>>)
    ensures Flat(Alone(s) + ss) == s + Flat(ss)
  {
    if s == [] {
      assert [] + ss == ss;
      assert s + Flat(ss) == Flat(ss);
    } else {
      assert ([s] + ss)[1..] == ss;
    }
  }

  /**
   * How requests group by the protocol: with nothing to hold a request stands alone; after
   * holds for n requests the next n run together, and holds among them count from then on.
   */
  function Grouping(credit: nat, rs: seq<Request>): seq<seq<Request>>
    decreases |rs|
  {
    if rs == [] then []
    else if credit == 0 then [rs[..1]] + Grouping(Grants(rs[..1]) % U32, rs[1..])
    else if |rs| < credit then []
    else [rs[..credit]] + Grouping(Grants(rs[..credit]) % U32, rs[credit..])
  }

  lemma GroupingTakes(rs: seq<Request>, rest: seq<Request>)
    requires rs != []
    ensures Grouping(|rs|, rs + rest) == [rs] + Grouping(Grants(rs) % U32, rest)
    ensures |rs| == 1 ==> Grouping(0, rs + rest) == [rs] + Grouping(Grants(rs) % U32, rest)
  {
    assert (rs + rest)[..|rs|] == rs && (rs + rest)[|rs|..] == rest;
  }

  /** The size the group being gathered will have, if one is. */
  function Credit(c: Client): nat {
    if c.hold == 0 then 0 else |c.held| + c.hold
  }

  /** The last request of a group, or one that is not held. */
  lemma CompletedGroups(c: Client, r: Request, later: seq<Request>)
    requires Idle(c) && c.hold <= 1
    ensures
      var batch := c.held + [r];
      && Batch(c, r) == batch && Arrived(c, r).held == [] && Credit(Arrived(c, r)) == Grants(batch) % U32
      && Grouping(Credit(c), batch + later) == [batch] + Grouping(Grants(batch) % U32, later)
  {
    ArrivedShape(c, r);
    GroupingTakes(c.held + [r], later);
  }

  lemma ArrivalGroups(c: Client, r: Request, later: seq<Request>)
    requires Idle(c)
    ensures Grouping(Credit(c), c.held + ([r] + later)) ==
      Alone(Batch(c, r)) + Grouping(Credit(Arrived(c, r)), Arrived(c, r).held + later)
  {
    Assoc(c.held, [r], later);
    if c.hold <= 1 {
      CompletedGroups(c, r, later);
      assert [] + later == later;
    } else {
      ArrivedShape(c, r);
      assert Credit(Arrived(c, r)) == Credit(c);
      EmptyBatch(Grouping(Credit(c), c.held + [r] + later));
    }
  }

  lemma EmptyBatch(gs: seq<seq<Request>>)
    ensures Alone([]) + gs == gs
  {
  }

  /** The requests run in exactly these groups, whatever else arrives in between. */
  lemma {:induction false} RunGroups(c: Client, run: seq<Input>)
    requires Idle(c)
    ensures Batches(c, run) == Grouping(Credit(c), c.held + Requests(run))
    decreases |run|
  {
    if run == [] {
      assert c.held + [] == c.held;
    } else {
      var i, c1, later := run[0], Step(c, run[0]), Requests(run[1..]);
      StepKeepsIdle(c, i);
      RunGroups(c1, run[1..]);
      if i.Arrival? && i.message.Some? {
        ArrivalGroups(c, i.message.value, later);
      } else {
        assert c1.held == c.held && Credit(c1) == Credit(c);
        assert [] + later == later;
      }
    }
  }

  // ---------------------------------------------------------------- what the client receives

  function RepliesIn(out: seq<Sent>): seq<Sent> {
    if out == [] then [] else (if out[0].Reply? then [out[0]] else []) + RepliesIn(out[1..])
  }

  function EventsIn(out: seq<Sent>): seq<Event> {
    if out == [] then [] else (if out[0].Announced? then [out[0].event] else []) + EventsIn(out[1..])
  }

  lemma {:induction false} InConcat(a: seq<Sent>, b: seq<Sent>)
    ensures RepliesIn(a + b) == RepliesIn(a) + RepliesIn(b)
    ensures EventsIn(a + b) == EventsIn(a) + EventsIn(b)
  {
    if a == [] {
      assert a + b == b;
    } else {
      assert (a + b)[1..] == a[1..] + b;
      InConcat(a[1..], b);
      var head := a[0];
      Assoc(if head.Reply? then [head] else [], RepliesIn(a[1..]), RepliesIn(b));
      Assoc(if head.Announced? then [head.event] else [], EventsIn(a[1..]), EventsIn(b));
    }
  }

  lemma {:induction false} InAnnouncements(es: seq<Event>)
    ensures RepliesIn(Announcements(es)) == [] && EventsIn(Announcements(es)) == es
  {
    if es != [] {
      assert Announcements(es)[1..] == Announcements(es[1..]);
      InAnnouncements(es[1..]);
    }
  }

  lemma {:induction false} InAnswers(acts: seq<Act>)
    ensures RepliesIn(Answers(acts)) == Answers(acts) && EventsIn(Answers(acts)) == []
  {
    if acts != [] {
      var n := |acts| - 1;
      var last: seq<Sent> := if acts[n].Respond? then [Reply(acts[n].answer)] else [];
      InAnswers(acts[..n]);
      InConcat(Answers(acts[..n]), last);
      assert last != [] ==> last[1..] == [];
    }
  }

  /** The events a script raises, whoever is subscribed. */
  function Raised(acts: seq<Act>): seq<Event> {
    if acts == [] then []
    else
      var n := |acts| - 1;
      Raised(acts[..n]) + if acts[n].Raise? then [acts[n].event] else []
  }

  /** The events of one input that the client was subscribed to when they were raised. */
  function Wanted(c: Client, i: Input): seq<Event> {
    match i
    case Outside(e) => if KindOfEvent(e) in c.events then [e] else []
    case Arrival(_) => Heard(c.events, Scripts(Started(c, i)))
  }

  function RunWanted(c: Client, run: seq<Input>): seq<Event>
    decreases |run|
  {
    if run == [] then [] else Wanted(c, run[0]) + RunWanted(Step(c, run[0]), run[1..])
  }

  lemma StepGrows(c: Client, i: Input)
    requires Idle(c)
    ensures Step(c, i).out == c.out + Answers(Scripts(Started(c, i))) + Announcements(Wanted(c, i))
  {
    if i.Arrival? && i.message.Some? {
      ArrivedShape(c, i.message.value);
    } else {
      assert Answers(Scripts(Started(c, i))) == [];
      assert Step(c, i).out == c.out + Announcements(Wanted(c, i));
      assert c.out + [] == c.out;
    }
  }

  lemma StepSends(c: Client, i: Input)
    requires Idle(c)
    ensures RepliesIn(Step(c, i).out) == RepliesIn(c.out) + Answers(Scripts(Started(c, i)))
    ensures EventsIn(Step(c, i).out) == EventsIn(c.out) + Wanted(c, i)
  {
    var acts, es := Scripts(Started(c, i)), Wanted(c, i);
    StepGrows(c, i);
    SendsInOrder(c.out, acts, es);
  }

  lemma SendsInOrder(out: seq<Sent>, acts: seq<Act>, es: seq<Event>)
    ensures RepliesIn(out + Answers(acts) + Announcements(es)) == RepliesIn(out) + Answers(acts)
    ensures EventsIn(out + Answers(acts) + Announcements(es)) == EventsIn(out) + es
  {
    InConcat(out + Answers(acts), Announcements(es));
    InConcat(out, Answers(acts));
    InAnswers(acts);
    InAnnouncements(es);
  }

  /** The events a client gets are those it asked for, in the order in which they were raised. */
  lemma {:induction false} RunSendsEvents(c: Client, run: seq<Input>)
    requires Idle(c)
    ensures EventsIn(Run(c, run).out) == EventsIn(c.out) + RunWanted(c, run)
    decreases |run|
  {
    if run != [] {
      StepKeepsIdle(c, run[0]);
      StepSends(c, run[0]);
      var c1 := Step(c, run[0]);
      RunSendsEvents(c1, run[1..]);
      Assoc(EventsIn(c.out), Wanted(c, run[0]), RunWanted(c1, run[1..]));
    }
  }

  lemma {:induction false} ScriptsConcat(a: seq<Request>, b: seq<Request>)
    ensures Scripts(a + b) == Scripts(a) + Scripts(b)
  {
    if b == [] {
      assert a + b == a;
    } else {
      var n := |b| - 1;
      assert (a + b)[..|a| + n] == a + b[..n];
      ScriptsConcat(a, b[..n]);
      Assoc(Scripts(a), Scripts(b[..n]), Script(b[n]));
    }
  }

  /** The responses a client gets are those of the requests that ran, in arrival order. */
  lemma {:induction false} RunSendsReplies(c: Client, run: seq<Input>)
    requires Idle(c)
    ensures RepliesIn(Run(c, run).out) == RepliesIn(c.out) + Answers(Scripts(Flat(Batches(c, run))))
    decreases |run|
  {
    if run != [] {
      var c1, now := Step(c, run[0]), Started(c, run[0]);
      var later := Flat(Batches(c1, run[1..]));
      StepKeepsIdle(c, run[0]);
      StepSends(c, run[0]);
      RunSendsReplies(c1, run[1..]);
      FlatCons(now, Batches(c1, run[1..]));
      ScriptsConcat(now, later);
      AnswersConcat(Scripts(now), Scripts(later));
      Assoc(RepliesIn(c.out), Answers(Scripts(now)), Answers(Scripts(later)));
    }
  }
}
