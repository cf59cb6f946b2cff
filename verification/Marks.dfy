/** The entries that a subscriber takes for the current one, from the announced events. */
module Marks {
  import opened Common
  import opened Tables
  import opened History
  import Replica

  /** An entry is marked when it is set, until it is unset or deleted. */
  function Marked(m: set<int>, e: Event): set<int> {
    match e
    case EntryState(id, on) => if on then m + {id} else m - {id}
    case EntryDelete(id) => if id == -1 then {} else m - {id}
    case _ => m
  }

  function MarkedAll(m: set<int>, es: seq<Event>): set<int>
    decreases |es|
  {
    if es == [] then m else MarkedAll(Marked(m, es[0]), es[1..])
  }

  lemma {:induction false} MarkedConcat(m: set<int>, a: seq<Event>, b: seq<Event>)
    ensures MarkedAll(m, a + b) == MarkedAll(MarkedAll(m, a), b)
    decreases |a|
  {
    if a == [] {
      assert a + b == b;
    } else {
      assert (a + b)[1..] == a[1..] + b;
      MarkedConcat(Marked(m, a[0]), a[1..], b);
    }
  }

  lemma MarkedOne(m: set<int>, e: Event)
    ensures MarkedAll(m, [e]) == Marked(m, e)
  {
    assert [e][1..] == [];
  }

  lemma {:induction false} MarkedDeletions(m: set<int>, ids: seq<int>)
    requires -1 !in ids
    ensures MarkedAll(m, Deletions(ids)) == m - Elements(ids)
    decreases |ids|
  {
    if ids != [] {
      assert ids[0] in ids && Deletions(ids)[1..] == Deletions(ids[1..]);
      MarkedDeletions(m - {ids[0]}, ids[1..]);
      assert Elements(ids) == {ids[0]} + Elements(ids[1..]);
    }
  }

  /** Events of other kinds, and then those of the current entry. */
  lemma MarkedStates(m: set<int>, first: seq<Event>, before: int, after: int)
    requires forall i :: 0 <= i < |first| ==> !first[i].EntryState? && !first[i].EntryDelete?
    ensures MarkedAll(m, first + StateEvents(before, after))
      == (if before > 0 then m - {before} else m) + (if after > 0 then {after} else {})
  {
    Unmarked(m, first);
    MarkedConcat(m, first, StateEvents(before, after));
    var off := if before > 0 then [EntryState(before, false)] else [];
    var on := if after > 0 then [EntryState(after, true)] else [];
    MarkedConcat(m, off, on);
    if before > 0 { MarkedOne(m, off[0]); }
    if after > 0 { MarkedOne(MarkedAll(m, off), on[0]); }
  }

  lemma {:induction false} Unmarked(m: set<int>, es: seq<Event>)
    requires forall i :: 0 <= i < |es| ==> !es[i].EntryState? && !es[i].EntryDelete?
    ensures MarkedAll(m, es) == m
    decreases |es|
  {
    if es != [] {
      Unmarked(m, es[1..]);
    }
  }

  // ---------------------------------------------------------------- exact marks

  /** The current entry, if it is one of the history. */
  function Current(s: State): set<int> {
    if s.current in s.db.entries then {s.current} else {}
  }

  /** An offer that is transient or fails, while the current entry stays in the history. */
  ghost predicate Blurs(h: Hash, s: State, tick: Tick) {
    && tick.action.Selection? && !Ignorable(tick.action.offer)
    && (tick.action.offer.transient || tick.action.offer.failed)
    && s.current in Next(h, s, tick).db.entries
  }

  lemma TrimmedHaveIds(h: Hash, s: State, tick: Tick)
    requires Wf(s.db) && Legal(h, s, tick)
    ensures forall id :: id in tick.trimmed ==> id > 0
    ensures !tick.action.Selection? || Ignorable(tick.action.offer) || tick.action.offer.transient ==> tick.trimmed == []
  {
    forall id | id in tick.trimmed ensures id > 0 {
      ElementsOf(tick.trimmed, id);
    }
    if tick.trimmed != [] {
      ElementsOf(tick.trimmed, tick.trimmed[0]);
    }
  }

  /** A selection event up to the trim. */
  lemma ReceivedMarks(c: Config, h: Hash, s: State, offer: Offer, now: int)
    requires IdsOk(s.db) && !Ignorable(offer) && !offer.transient && !offer.failed
    ensures
      var next := Received(c, h, s, offer, now);
      MarkedAll(Current(s), SelectionEvents(c, h, s, offer, now)) == Current(next)
  {
    match Judge(c.dedup, s.db.entries, EntryHash(h, offer.items))
    case Repeat =>
    case Move(id, pos) => MarkedStates(Current(s), [EntryUpdate(id, now, None), EntryMove(id, pos, 0)], s.current, id);
    case Fresh => MarkedStates(Current(s), [EntryAdd(s.db.lastId + 1)], s.current, s.db.lastId + 1);
  }

  lemma RequestMarks(s: State, a: Action, now: int)
    requires !a.Selection? && IdsOk(s.db)
    ensures MarkedAll(Current(s), RequestEvents(s, a, now)) == Current(Served(s, a, now))
  {
    var m := Current(s);
    if Answer(s, a) == Success {
      match a
      case SetClipboard(id) =>
        MarkedStates(m, [], s.current, id);
        assert [] + StateEvents(s.current, id) == StateEvents(s.current, id);
        MarkedConcat(m, StateEvents(s.current, id), [EntryUpdate(id, now, None)]);
        MarkedOne(MarkedAll(m, StateEvents(s.current, id)), EntryUpdate(id, now, None));
      case DeleteEntry(id) => MarkedOne(m, EntryDelete(id));
      case PinEntry(id, mode) => MarkedOne(m, EntryUpdate(id, now, Some(PinValue(s, id, mode))));
    }
  }

  /**
   * A step keeps the marks exact if and only if it does not blur them: an offer that is transient
   * or fails takes the place of the current entry, but nothing announces that.
   */
  lemma ExactlyWhenBlurred(h: Hash, s: State, tick: Tick)
    requires Wf(s.db) && Legal(h, s, tick)
    ensures MarkedAll(Current(s), Emits(h, s, tick)) == Current(Next(h, s, tick)) <==> !Blurs(h, s, tick)
  {
    var m, ids := Current(s), tick.trimmed;
    TrimmedHaveIds(h, s, tick);
    match tick.action
    case Selection(offer) =>
      var es := SelectionEvents(tick.config, h, s, offer, tick.now);
      MarkedConcat(m, es, Deletions(ids));
      MarkedDeletions(MarkedAll(m, es), ids);
      if Ignorable(offer) || offer.transient {
        assert Elements(ids) == {};
      } else {
        var r, next := Received(tick.config, h, s, offer, tick.now), Next(h, s, tick);
        assert next.db.entries == r.db.entries - Elements(ids) && next.current == r.current;
        assert Current(next) == Current(r) - Elements(ids);
        if offer.failed {
          assert es == [] && Current(r) == {};
          assert next.db.entries.Keys == s.db.entries.Keys - Elements(ids);
          assert s.current in m - Elements(ids) <==> s.current in next.db.entries;
        } else {
          ReceivedMarks(tick.config, h, s, offer, tick.now);
        }
      }
    case _ =>
      RequestMarks(s, tick.action, tick.now);
      assert RequestEvents(s, tick.action, tick.now) + Deletions([]) == RequestEvents(s, tick.action, tick.now);
  }

  ghost predicate NeverBlurs(h: Hash, s: State, run: seq<Tick>)
    decreases |run|
  {
    run != [] ==> !Blurs(h, s, run[0]) && NeverBlurs(h, Next(h, s, run[0]), run[1..])
  }

  /** In every run without such an offer, a subscriber marks just the current entry. */
  lemma {:induction false} RunMarks(h: Hash, s: State, run: seq<Tick>)
    requires Wf(s.db) && LegalRun(h, s, run) && NeverBlurs(h, s, run)
    ensures MarkedAll(Current(s), Log(h, s, run)) == Current(Final(h, s, run))
    decreases |run|
  {
    if run != [] {
      var next := Next(h, s, run[0]);
      ExactlyWhenBlurred(h, s, run[0]);
      Replica.StepKeepsWf(h, s, run[0]);
      RunMarks(h, next, run[1..]);
      MarkedConcat(Current(s), Emits(h, s, run[0]), Log(h, next, run[1..]));
    }
  }
}
