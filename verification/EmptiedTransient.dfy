/** A run of the daemon that leaves the transient entry current and empty. */
module EmptiedTransient {
  import opened Common
  import opened Tables
  import opened History
  import opened Recency
  import opened Scenarios

  function CopyingTransient(c: Config, now: int, items: seq<Item>): Tick {
    Tick(c, now, Selection(Offer(items, false, true)), [])
  }

  lemma ReachTransient(h: Hash, run: seq<Tick>, c: Config, now: int, items: seq<Item>, rows: map<int, Row>, lastId: int, current: int)
    requires Reaches(h, run, rows, lastId, current) && items != [] && c.maxEntries > 0
    ensures Reaches(h, run + [CopyingTransient(c, now, items)], rows, lastId, 0)
    ensures Final(h, START, run + [CopyingTransient(c, now, items)]).transient == items
  {
    assert Elements<int>([]) == {};
    OneMoreStep(h, START, run, CopyingTransient(c, now, items));
  }

  /** The only entry, copied again while the transient entry is current. */
  lemma ReachEmptied(h: Hash, run: seq<Tick>, c: Config, now: int, a: seq<Item>)
    requires Reaches(h, run, One(EntryHash(h, a), false), 1, 0) && a != [] && c.maxEntries > 0 && c.dedup == Everywhere
    ensures Reaches(h, run + [Copying(c, now, a, [])], One(EntryHash(h, a), false), 1, 0)
    ensures Final(h, START, run + [Copying(c, now, a, [])]).transient == []
  {
    var s, rows := Final(h, START, run), One(EntryHash(h, a), false);
    NoneDoomed(rows, 1, c.maxEntries);
    assert rows - {} == rows && Elements<int>([]) == {};
    CopyFront(h, s, c, now, a, rows, 1, 1);
    CopyTrims(h, s, c, now, a, rows, 1, []);
    OneMoreStep(h, START, run, Copying(c, now, a, []));
  }

  /**
   * Copy something, then something transient, then the first again: that is a repeat of the front
   * entry, so the transient entry stays current, but it holds nothing any more.
   */
  lemma RepeatEmptiesTransient(h: Hash, c: Config, a: seq<Item>, b: seq<Item>, now: int)
    requires a != [] && b != [] && c.maxEntries > 0 && c.dedup == Everywhere
    ensures
      var run := [] + [Copying(c, now, a, [])] + [CopyingTransient(c, now, b)];
      var before, after := Final(h, START, run), Final(h, START, run + [Copying(c, now, a, [])]);
      && LegalRun(h, START, run + [Copying(c, now, a, [])])
      && before.current == 0 && before.transient == b && after.current == 0 && after.transient == []
  {
    var first := [] + [Copying(c, now, a, [])];
    FirstCopied(h, c, now, a);
    ReachTransient(h, first, c, now, b, One(EntryHash(h, a), false), 1, 1);
    ReachEmptied(h, first + [CopyingTransient(c, now, b)], c, now, a);
  }
}
