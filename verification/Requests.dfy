/** What requests do to the rows, and what a subscriber learns of it: pins and the current entry. */
module Requests {
  import opened Common
  import opened Tables
  import opened History
  import Hold
  import Replica

  // ---------------------------------------------------------------- pins

  /** Which entries are pinned. */
  function PinsOf(es: map<int, Entry>): map<int, bool> {
    map id | id in es :: es[id].pinned
  }

  /** How a subscriber keeps track of it. */
  function Followed(m: map<int, bool>, e: Event): map<int, bool> {
    match e
    case EntryAdd(id) => m[id := false]
    case EntryDelete(id) => if id == -1 then map[] else m - {id}
    case EntryUpdate(id, _, Some(pin)) => if id in m then m[id := pin] else m
    case _ => m
  }

  function FollowedAll(m: map<int, bool>, es: seq<Event>): map<int, bool>
    decreases |es|
  {
    if es == [] then m else FollowedAll(Followed(m, es[0]), es[1..])
  }

  lemma {:induction false} FollowedConcat(m: map<int, bool>, a: seq<Event>, b: seq<Event>)
    ensures FollowedAll(m, a + b) == FollowedAll(FollowedAll(m, a), b)
    decreases |a|
  {
    if a == [] {
      assert a + b == b;
    } else {
      assert (a + b)[1..] == a[1..] + b;
      FollowedConcat(Followed(m, a[0]), a[1..], b);
    }
  }

  lemma {:induction false} FollowedDeletions(m: map<int, bool>, ids: seq<int>)
    requires -1 !in ids
    ensures FollowedAll(m, Deletions(ids)) == m - Elements(ids)
    decreases |ids|
  {
    if ids == [] {
      assert m - Elements(ids) == m;
    } else {
      assert ids[0] in ids && Deletions(ids)[1..] == Deletions(ids[1..]);
      FollowedDeletions(m - {ids[0]}, ids[1..]);
      assert Elements(ids) == {ids[0]} + Elements(ids[1..]);
      assert m - {ids[0]} - Elements(ids[1..]) == m - Elements(ids);
    }
  }

  /** Events of the current entry do not matter to it. */
  lemma StateEventsPass(m: map<int, bool>, first: seq<Event>, before: int, after: int)
    ensures FollowedAll(m, first + StateEvents(before, after)) == FollowedAll(m, first)
  {
    var es := StateEvents(before, after);
    FollowedConcat(m, first, es);
    StatesPass(FollowedAll(m, first), es);
  }

  lemma {:induction false} StatesPass(m: map<int, bool>, es: seq<Event>)
    requires forall i :: 0 <= i < |es| ==> es[i].EntryState?
    ensures FollowedAll(m, es) == m
    decreases |es|
  {
    if es != [] {
      StatesPass(m, es[1..]);
    }
  }

  lemma ShortRuns(m: map<int, bool>, a: Event, b: Event)
    ensures FollowedAll(m, [a]) == Followed(m, a) && FollowedAll(m, [a, b]) == Followed(Followed(m, a), b)
  {
    FollowedConcat(m, [a], [b]);
    assert [a] + [b] == [a, b] && [a][1..] == [] && [b][1..] == [];
    assert FollowedAll(m, [a]) == Followed(m, a);
  }

  lemma MovedPins(t: Tables, id: int, pos: nat, now: int, current: int)
    requires id in t.entries
    ensures PinsOf(MovedUp(t, id, now).entries) ==
      FollowedAll(PinsOf(t.entries), [EntryUpdate(id, now, None), EntryMove(id, pos, 0)] + StateEvents(current, id))
  {
    var m, update, move := PinsOf(t.entries), EntryUpdate(id, now, None), EntryMove(id, pos, 0);
    StateEventsPass(m, [update, move], current, id);
    ShortRuns(m, update, move);
    assert PinsOf(MovedUp(t, id, now).entries) == m;
  }

  lemma AddedPins(h: Hash, t: Tables, items: seq<Item>, now: int, current: int)
    ensures
      var id := t.lastId + 1;
      PinsOf(Added(h, t, items, now).entries) == FollowedAll(PinsOf(t.entries), [EntryAdd(id)] + StateEvents(current, id))
  {
    var m, id := PinsOf(t.entries), t.lastId + 1;
    StateEventsPass(m, [EntryAdd(id)], current, id);
    ShortRuns(m, EntryAdd(id), EntryAdd(id));
    assert PinsOf(Added(h, t, items, now).entries) == m[id := false];
  }

  /** A selection event before the trim: a new row is not pinned, a moved one stays as it is. */
  lemma SelectionPins(c: Config, h: Hash, s: State, offer: Offer, now: int)
    requires Wf(s.db) && !Ignorable(offer) && !offer.transient
    ensures PinsOf(Received(c, h, s, offer, now).db.entries) == FollowedAll(PinsOf(s.db.entries), SelectionEvents(c, h, s, offer, now))
  {
    if !offer.failed {
      var v := Judge(c.dedup, s.db.entries, EntryHash(h, offer.items));
      if v.Move? {
        MovedPins(s.db, v.id, v.oldPos, now, s.current);
      } else if v.Fresh? {
        AddedPins(h, s.db, offer.items, now, s.current);
      }
    }
  }

  /** A request: pinned, unpinned or the other way round; or the row goes. */
  lemma RequestPins(s: State, a: Action, now: int)
    requires !a.Selection? && IdsOk(s.db)
    ensures PinsOf(Served(s, a, now).db.entries) == FollowedAll(PinsOf(s.db.entries), RequestEvents(s, a, now))
  {
    var m := PinsOf(s.db.entries);
    if Answer(s, a) == Success {
      match a
      case SetClipboard(id) =>
        StateEventsPass(m, [], s.current, id);
        FollowedConcat(m, StateEvents(s.current, id), [EntryUpdate(id, now, None)]);
        assert [] + StateEvents(s.current, id) == StateEvents(s.current, id);
        ShortRuns(m, EntryUpdate(id, now, None), EntryUpdate(id, now, None));
        assert PinsOf(Touched(s.db.entries, id, now, None)) == m;
      case DeleteEntry(id) =>
        ShortRuns(m, EntryDelete(id), EntryDelete(id));
        assert PinsOf(Served(s, a, now).db.entries) == if id == -1 then map[] else m - {id};
      case PinEntry(id, mode) =>
        var pin := PinValue(s, id, mode);
        ShortRuns(m, EntryUpdate(id, now, Some(pin)), EntryUpdate(id, now, Some(pin)));
        assert PinsOf(Touched(s.db.entries, id, now, Some(pin))) == m[id := pin];
    }
  }

  lemma StepPins(h: Hash, s: State, tick: Tick)
    requires Wf(s.db) && Legal(h, s, tick)
    ensures PinsOf(Next(h, s, tick).db.entries) == FollowedAll(PinsOf(s.db.entries), Emits(h, s, tick))
  {
    var m, ids := PinsOf(s.db.entries), tick.trimmed;
    match tick.action
    case Selection(offer) =>
      var es := SelectionEvents(tick.config, h, s, offer, tick.now);
      FollowedConcat(m, es, Deletions(ids));
      if Ignorable(offer) || offer.transient {
        ElementsOf(ids, 0);
      } else {
        SelectionPins(tick.config, h, s, offer, tick.now);
        VictimsHaveIds(h, s, tick);
        FollowedDeletions(FollowedAll(m, es), ids);
      }
    case _ =>
      ElementsOf(ids, 0);
      RequestPins(s, tick.action, tick.now);
      assert RequestEvents(s, tick.action, tick.now) + Deletions([]) == RequestEvents(s, tick.action, tick.now);
  }

  lemma VictimsHaveIds(h: Hash, s: State, tick: Tick)
    requires Wf(s.db) && Legal(h, s, tick) && tick.action.Selection?
    ensures forall id :: id in tick.trimmed ==> id > 0
  {
    var es := Received(tick.config, h, s, tick.action.offer, tick.now).db.entries;
    forall id | id in tick.trimmed ensures id > 0 {
      ElementsOf(tick.trimmed, id);
      assert id in es;
    }
  }

  /** In every run, following the announced events tells exactly which entries are pinned. */
  lemma {:induction false} RunPins(h: Hash, s: State, run: seq<Tick>)
    requires Wf(s.db) && LegalRun(h, s, run)
    ensures PinsOf(Final(h, s, run).db.entries) == FollowedAll(PinsOf(s.db.entries), Log(h, s, run))
    decreases |run|
  {
    if run != [] {
      var next := Next(h, s, run[0]);
      StepPins(h, s, run[0]);
      Replica.StepKeepsWf(h, s, run[0]);
      RunPins(h, next, run[1..]);
      FollowedConcat(PinsOf(s.db.entries), Emits(h, s, run[0]), Log(h, next, run[1..]));
    }
  }

  /** What pin requests do to the pin of a live entry; one with an unknown mode does nothing. */
  lemma PinRequests(s: State, id: int, now: int)
    requires id in s.db.entries
    ensures
      var was := s.db.entries[id].pinned;
      && Served(s, PinEntry(id, Yes), now).db.entries[id].pinned
      && !Served(s, PinEntry(id, No), now).db.entries[id].pinned
      && Served(s, PinEntry(id, Toggle), now).db.entries[id].pinned == !was
      && Served(s, PinEntry(id, PinMode.Unknown), now) == s
  {
  }

  // ---------------------------------------------------------------- the current entry

  /** The current entry as a subscriber follows it, 0 when it knows of none. */
  function Pointed(c: int, e: Event): int {
    match e
    case EntryState(id, on) => if on then id else if c == id then 0 else c
    case _ => c
  }

  function PointedAll(c: int, es: seq<Event>): int
    decreases |es|
  {
    if es == [] then c else PointedAll(Pointed(c, es[0]), es[1..])
  }

  lemma {:induction false} PointedConcat(c: int, a: seq<Event>, b: seq<Event>)
    ensures PointedAll(c, a + b) == PointedAll(PointedAll(c, a), b)
    decreases |a|
  {
    if a == [] {
      assert a + b == b;
    } else {
      assert (a + b)[1..] == a[1..] + b;
      PointedConcat(Pointed(c, a[0]), a[1..], b);
    }
  }

  lemma {:induction false} OthersDoNotPoint(c: int, es: seq<Event>)
    requires forall i :: 0 <= i < |es| ==> !es[i].EntryState?
    ensures PointedAll(c, es) == c
    decreases |es|
  {
    if es != [] {
      OthersDoNotPoint(c, es[1..]);
    }
  }

  lemma StateEventsPoint(c: int, before: int, after: int)
    ensures after > 0 ==> PointedAll(c, StateEvents(before, after)) == after
  {
    if after > 0 {
      var off := if before > 0 then [EntryState(before, false)] else [];
      PointedConcat(c, off, [EntryState(after, true)]);
      assert [EntryState(after, true)][1..] == [];
    }
  }

  /** Some events, then those of the current entry, then some more. */
  lemma Around(c: int, a: seq<Event>, before: int, after: int, b: seq<Event>)
    requires forall i :: 0 <= i < |a| ==> !a[i].EntryState?
    requires forall i :: 0 <= i < |b| ==> !b[i].EntryState?
    ensures after > 0 ==> PointedAll(c, a + StateEvents(before, after) + b) == after
  {
    PointedConcat(c, a + StateEvents(before, after), b);
    PointedConcat(c, a, StateEvents(before, after));
    OthersDoNotPoint(c, a);
    StateEventsPoint(c, before, after);
    OthersDoNotPoint(PointedAll(c, a + StateEvents(before, after)), b);
  }

  lemma StepPoints(h: Hash, s: State, tick: Tick, c: int)
    requires s.current > 0 ==> c == s.current
    ensures
      var next := Next(h, s, tick);
      next.current > 0 ==> PointedAll(c, Emits(h, s, tick)) == next.current
  {
    var later := Deletions(tick.trimmed);
    match tick.action
    case Selection(offer) =>
      if Ignorable(offer) || offer.transient || offer.failed {
        OthersDoNotPoint(c, [] + later);
      } else {
        match Judge(tick.config.dedup, s.db.entries, EntryHash(h, offer.items))
        case Repeat => OthersDoNotPoint(c, [] + later);
        case Move(id, pos) => Around(c, [EntryUpdate(id, tick.now, None), EntryMove(id, pos, 0)], s.current, id, later);
        case Fresh => Around(c, [EntryAdd(s.db.lastId + 1)], s.current, s.db.lastId + 1, later);
      }
    case SetClipboard(id) =>
      var update := [EntryUpdate(id, tick.now, None)];
      if Answer(s, tick.action) == Success {
        Around(c, [], s.current, id, update + later);
        assert [] + StateEvents(s.current, id) + (update + later) == StateEvents(s.current, id) + update + later;
      } else {
        OthersDoNotPoint(c, [] + later);
      }
    case _ => OthersDoNotPoint(c, RequestEvents(s, tick.action, tick.now) + later);
  }

  /** In every run, when an entry of the history is current, following the announced events tells which. */
  lemma {:induction false} RunPoints(h: Hash, s: State, run: seq<Tick>, c: int)
    requires s.current > 0 ==> c == s.current
    ensures Final(h, s, run).current > 0 ==> PointedAll(c, Log(h, s, run)) == Final(h, s, run).current
    decreases |run|
  {
    if run != [] {
      var next, es := Next(h, s, run[0]), Emits(h, s, run[0]);
      StepPoints(h, s, run[0], c);
      RunPoints(h, next, run[1..], PointedAll(c, es));
      PointedConcat(c, es, Log(h, next, run[1..]));
    }
  }

  /** Setting a live entry makes it current, and -1 clears the clipboard; both keep every row and the history list. An unknown one is refused. */
  lemma SetIsCurrent(s: State, id: int, now: int, l: seq<int>)
    requires IdsOk(s.db) && IsHistory(s.db.entries, l)
    ensures
      var t := Served(s, SetClipboard(id), now);
      if id in s.db.entries || id == -1 then
        && t.current == id && t.cleared == (s.cleared || id == -1)
        && IsHistory(t.db.entries, l) && PinsOf(t.db.entries) == PinsOf(s.db.entries)
      else t == s && Answer(s, SetClipboard(id)) == NoSuchEntry
  {
    if id in s.db.entries || id == -1 {
      Replica.SameOrderHistory(s.db.entries, Touched(s.db.entries, id, now, None), l);
    }
  }

  // ---------------------------------------------------------------- deletion and refusal

  /** Deleting takes one row out of the history, or all of them; a current entry that goes leaves none set. */
  lemma DeleteRequests(s: State, id: int, now: int, l: seq<int>)
    requires IsHistory(s.db.entries, l) && IdsOk(s.db)
    ensures
      var t := Served(s, DeleteEntry(id), now);
      && (id == -1 ==> t.db.entries == map[] && t.current == -1 && t.cleared)
      && (id in s.db.entries ==>
            && IsHistory(t.db.entries, Replica.Erase(l, id))
            && (forall j :: j in t.db.entries ==> j != id && t.db.entries[j] == s.db.entries[j])
            && (if s.current == id then t.current == -1 && t.cleared else t.current == s.current && t.cleared == s.cleared))
  {
    if id in s.db.entries {
      Replica.DeleteOne(s.db.entries, l, id);
    }
  }

  /** A request about an entry that is not there, or with an unknown pin mode, is refused, changes nothing and is not announced. */
  lemma RefusedRequests(s: State, a: Action, now: int)
    requires !a.Selection?
    ensures
      var there := a.id in s.db.entries || (a.id == -1 && !a.PinEntry?);
      && (Answer(s, a) == NoSuchEntry <==> !there)
      && (Answer(s, a) == InvalidArguments <==> there && a.PinEntry? && a.mode == PinMode.Unknown)
      && (Answer(s, a) != Success ==> Served(s, a, now) == s && RequestEvents(s, a, now) == [])
      && (Answer(s, a) == Success <==> RequestEvents(s, a, now) != [])
  {
  }

  // ---------------------------------------------------------------- times

  /** A new row starts with the time of the event, not pinned, with the hash and the content of its items. */
  lemma NewRow(h: Hash, t: Tables, items: seq<Item>, now: int)
    ensures
      var row := Added(h, t, items, now).entries[t.lastId + 1];
      && row.created == now && row.updated == now && !row.pinned
      && row.hash == Some(EntryHash(h, items)) && row.content == Some(Chosen(items))
  {
  }

  /** Set, pin and move give a row the time of the event; they keep when it was made, and all other rows. */
  lemma TouchedRow(s: State, id: int, mode: PinMode, now: int)
    requires id in s.db.entries && id != -1 && mode != PinMode.Unknown
    ensures
      var es := s.db.entries;
      forall fs :: fs in [Served(s, SetClipboard(id), now).db.entries, Served(s, PinEntry(id, mode), now).db.entries, MovedUp(s.db, id, now).entries] ==>
        && fs.Keys == es.Keys && fs[id].updated == now && fs[id].created == es[id].created
        && fs[id].hash == es[id].hash && fs[id].content == es[id].content
        && forall j :: j in es && j != id ==> fs[j] == es[j]
  {
  }

  // ---------------------------------------------------------------- subscriptions

  /** Subscriptions tell events of different shapes apart, and no others. */
  lemma KindsTellShapes(a: Event, b: Event)
    ensures Hold.KindOfEvent(a) == Hold.KindOfEvent(b) <==>
      && (a.EntryAdd? <==> b.EntryAdd?) && (a.EntryMove? <==> b.EntryMove?) && (a.EntryDelete? <==> b.EntryDelete?)
      && (a.EntryUpdate? <==> b.EntryUpdate?) && (a.EntryState? <==> b.EntryState?)
  {
  }
}
