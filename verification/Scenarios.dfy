/** Runs of the daemon, from an empty history, that show where a plausible property fails. */
module Scenarios {
  import opened Common
  import opened Tables
  import opened History
  import opened Recency
  import opened Trimming
  import Replica

  // ---------------------------------------------------------------- what a store looks like

  datatype Row = Row(sort: int, hash: Digest, pinned: bool)

  /** The rows that matter: ids, sort indices, hashes and pins. */
  ghost predicate Looks(t: Tables, rows: map<int, Row>, lastId: int) {
    && t.lastId == lastId && t.entries.Keys == rows.Keys
    && forall id :: id in rows ==>
         && t.entries[id].sortIndex == rows[id].sort && t.entries[id].hash == Some(rows[id].hash)
         && t.entries[id].pinned == rows[id].pinned
  }

  function Copying(c: Config, now: int, items: seq<Item>, trimmed: seq<int>): Tick {
    Tick(c, now, Selection(Offer(items, false, false)), trimmed)
  }

  function Pinning(c: Config, now: int, id: int, mode: PinMode): Tick {
    Tick(c, now, PinEntry(id, mode), [])
  }

  /** Ids with as many unpinned rows of greater id as the limit are the victims. */
  ghost function Doomed(rows: map<int, Row>, max: nat): set<int> {
    set id | id in rows && !rows[id].pinned && |set j | j in rows && !rows[j].pinned && j > id| >= max
  }

  lemma LooksDoomed(t: Tables, rows: map<int, Row>, lastId: int, max: nat)
    requires Looks(t, rows, lastId)
    ensures Victims(t.entries, max) == Doomed(rows, max)
  {
    forall id | id in rows
      ensures Newer(t.entries, id) == set j | j in rows && !rows[j].pinned && j > id
    {
    }
  }

  /** Copying something new adds a row at the front. */
  lemma CopyNew(h: Hash, s: State, c: Config, now: int, items: seq<Item>, rows: map<int, Row>, lastId: int, top: int)
    requires Looks(s.db, rows, lastId) && lastId + 1 !in rows && items != [] && c.maxEntries > 0
    requires forall id :: id in rows ==> rows[id].hash != EntryHash(h, items) && rows[id].sort <= top
    requires top == 0 || exists id :: id in rows && rows[id].sort == top
    requires rows.Keys == {} <==> top == 0
    ensures
      var after := rows[lastId + 1 := Row(top + 1, EntryHash(h, items), false)];
      var r := Received(c, h, s, Offer(items, false, false), now);
      Looks(r.db, after, lastId + 1) && r.current == lastId + 1
  {
    assert Holder(s.db.entries, EntryHash(h, items)).None?;
    assert MaxSort(s.db.entries) == top;
  }

  ghost predicate DistinctHashes(rows: map<int, Row>) {
    forall a, b :: a in rows && b in rows && a != b ==> rows[a].hash != rows[b].hash
  }

  lemma HolderIs(t: Tables, rows: map<int, Row>, lastId: int, id: int)
    requires Looks(t, rows, lastId) && DistinctHashes(rows) && id in rows
    ensures Holder(t.entries, rows[id].hash) == Some(id)
  {
    assert Holds(t.entries, id, rows[id].hash);
  }

  /** Copying what is further back moves it to the front. */
  lemma CopyOld(h: Hash, s: State, c: Config, now: int, items: seq<Item>, rows: map<int, Row>, lastId: int, id: int, front: int)
    requires Looks(s.db, rows, lastId) && DistinctHashes(rows) && c.dedup == Everywhere
    requires id in rows && front in rows && rows[id].hash == EntryHash(h, items) && rows[front].sort > rows[id].sort
    requires forall j :: j in rows ==> rows[j].sort <= rows[front].sort
    ensures
      var r := Received(c, h, s, Offer(items, false, false), now);
      Looks(r.db, rows[id := rows[id].(sort := rows[front].sort + 1)], lastId) && r.current == id
  {
    HolderIs(s.db, rows, lastId, id);
    assert front in Above(s.db.entries, id);
    assert MaxSort(s.db.entries) == rows[front].sort;
  }

  /** Copying what is at the front changes nothing. */
  lemma CopyFront(h: Hash, s: State, c: Config, now: int, items: seq<Item>, rows: map<int, Row>, lastId: int, id: int)
    requires Looks(s.db, rows, lastId) && DistinctHashes(rows) && c.dedup == Everywhere
    requires id in rows && rows[id].hash == EntryHash(h, items) && forall j :: j in rows ==> rows[j].sort <= rows[id].sort
    ensures
      var r := Received(c, h, s, Offer(items, false, false), now);
      r.db == s.db && r.current == s.current
  {
    HolderIs(s.db, rows, lastId, id);
    forall j | j in s.db.entries ensures s.db.entries[j].sortIndex <= s.db.entries[id].sortIndex {
      assert j in rows;
    }
    assert Above(s.db.entries, id) == {};
  }

  /** The trim that ends a copy. */
  lemma CopyTrims(h: Hash, s: State, c: Config, now: int, items: seq<Item>, rows: map<int, Row>, lastId: int, trimmed: seq<int>)
    requires items != [] && c.maxEntries > 0 && Distinct(trimmed)
    requires Looks(Received(c, h, s, Offer(items, false, false), now).db, rows, lastId)
    requires Elements(trimmed) == Doomed(rows, c.maxEntries)
    ensures
      var tick := Copying(c, now, items, trimmed);
      && Legal(h, s, tick) && Looks(Next(h, s, tick).db, rows - Elements(trimmed), lastId)
      && Next(h, s, tick).current == Received(c, h, s, Offer(items, false, false), now).current
  {
    LooksDoomed(Received(c, h, s, Offer(items, false, false), now).db, rows, lastId, c.maxEntries);
  }

  lemma Pinned(h: Hash, s: State, c: Config, now: int, id: int, mode: PinMode, rows: map<int, Row>, lastId: int)
    requires Looks(s.db, rows, lastId) && id in rows && (mode == Yes || mode == No) && c.maxEntries > 0
    ensures
      var tick := Pinning(c, now, id, mode);
      && Legal(h, s, tick) && Next(h, s, tick).current == s.current
      && Looks(Next(h, s, tick).db, rows[id := rows[id].(pinned := mode == Yes)], lastId)
  {
    assert Elements<int>([]) == {};
  }

  lemma MadeCurrent(h: Hash, s: State, c: Config, now: int, id: int, rows: map<int, Row>, lastId: int)
    requires Looks(s.db, rows, lastId) && id in rows && c.maxEntries > 0
    ensures
      var tick := Tick(c, now, SetClipboard(id), []);
      Legal(h, s, tick) && Next(h, s, tick).current == id && Looks(Next(h, s, tick).db, rows, lastId)
  {
    assert Elements<int>([]) == {};
  }

  // ---------------------------------------------------------------- what a run reaches

  /** A legal run from an empty history ends with these rows and this current entry. */
  ghost predicate Reaches(h: Hash, run: seq<Tick>, rows: map<int, Row>, lastId: int, current: int) {
    LegalRun(h, START, run) && Looks(Final(h, START, run).db, rows, lastId) && Final(h, START, run).current == current
  }

  lemma {:induction false} OneMoreStep(h: Hash, s: State, run: seq<Tick>, tick: Tick)
    requires LegalRun(h, s, run) && Legal(h, Final(h, s, run), tick)
    ensures LegalRun(h, s, run + [tick]) && Final(h, s, run + [tick]) == Next(h, Final(h, s, run), tick)
    decreases |run|
  {
    if run == [] {
      assert [tick][1..] == [] && run + [tick] == [tick];
    } else {
      assert (run + [tick])[1..] == run[1..] + [tick];
      OneMoreStep(h, Next(h, s, run[0]), run[1..], tick);
    }
  }

  lemma ReachNew(h: Hash, run: seq<Tick>, c: Config, now: int, items: seq<Item>, trimmed: seq<int>,
                 rows: map<int, Row>, lastId: int, current: int, top: int, after: map<int, Row>)
    requires Reaches(h, run, rows, lastId, current) && lastId + 1 !in rows && items != [] && c.maxEntries > 0
    requires forall id :: id in rows ==> rows[id].hash != EntryHash(h, items) && rows[id].sort <= top
    requires (rows.Keys == {} <==> top == 0) && (top == 0 || exists id :: id in rows && rows[id].sort == top)
    requires after == rows[lastId + 1 := Row(top + 1, EntryHash(h, items), false)]
    requires Distinct(trimmed) && Elements(trimmed) == Doomed(after, c.maxEntries)
    ensures Reaches(h, run + [Copying(c, now, items, trimmed)], after - Elements(trimmed), lastId + 1, lastId + 1)
  {
    var s := Final(h, START, run);
    CopyNew(h, s, c, now, items, rows, lastId, top);
    CopyTrims(h, s, c, now, items, after, lastId + 1, trimmed);
    OneMoreStep(h, START, run, Copying(c, now, items, trimmed));
  }

  lemma ReachOld(h: Hash, run: seq<Tick>, c: Config, now: int, items: seq<Item>,
                 rows: map<int, Row>, lastId: int, current: int, id: int, front: int, after: map<int, Row>)
    requires Reaches(h, run, rows, lastId, current) && items != [] && c.maxEntries > 0
    requires DistinctHashes(rows) && c.dedup == Everywhere
    requires id in rows && front in rows && rows[id].hash == EntryHash(h, items) && rows[front].sort > rows[id].sort
    requires forall j :: j in rows ==> rows[j].sort <= rows[front].sort
    requires after == rows[id := rows[id].(sort := rows[front].sort + 1)] && Doomed(after, c.maxEntries) == {}
    ensures Reaches(h, run + [Copying(c, now, items, [])], after, lastId, id)
  {
    var s := Final(h, START, run);
    CopyOld(h, s, c, now, items, rows, lastId, id, front);
    assert Elements<int>([]) == {} && after - Elements<int>([]) == after;
    CopyTrims(h, s, c, now, items, after, lastId, []);
    OneMoreStep(h, START, run, Copying(c, now, items, []));
  }

  lemma ReachFront(h: Hash, run: seq<Tick>, c: Config, now: int, items: seq<Item>, trimmed: seq<int>,
                   rows: map<int, Row>, lastId: int, current: int, id: int)
    requires Reaches(h, run, rows, lastId, current) && items != [] && c.maxEntries > 0
    requires DistinctHashes(rows) && c.dedup == Everywhere
    requires id in rows && rows[id].hash == EntryHash(h, items) && forall j :: j in rows ==> rows[j].sort <= rows[id].sort
    requires Distinct(trimmed) && Elements(trimmed) == Doomed(rows, c.maxEntries)
    ensures Reaches(h, run + [Copying(c, now, items, trimmed)], rows - Elements(trimmed), lastId, current)
  {
    var s := Final(h, START, run);
    CopyFront(h, s, c, now, items, rows, lastId, id);
    CopyTrims(h, s, c, now, items, rows, lastId, trimmed);
    OneMoreStep(h, START, run, Copying(c, now, items, trimmed));
  }

  lemma ReachPinned(h: Hash, run: seq<Tick>, c: Config, now: int, id: int, mode: PinMode,
                    rows: map<int, Row>, lastId: int, current: int, after: map<int, Row>)
    requires Reaches(h, run, rows, lastId, current) && id in rows && (mode == Yes || mode == No) && c.maxEntries > 0
    requires after == rows[id := rows[id].(pinned := mode == Yes)]
    ensures Reaches(h, run + [Pinning(c, now, id, mode)], after, lastId, current)
  {
    Pinned(h, Final(h, START, run), c, now, id, mode, rows, lastId);
    OneMoreStep(h, START, run, Pinning(c, now, id, mode));
  }

  lemma ReachCurrent(h: Hash, run: seq<Tick>, c: Config, now: int, id: int, rows: map<int, Row>, lastId: int, current: int)
    requires Reaches(h, run, rows, lastId, current) && id in rows && c.maxEntries > 0
    ensures Reaches(h, run + [Tick(c, now, SetClipboard(id), [])], rows, lastId, id)
  {
    MadeCurrent(h, Final(h, START, run), c, now, id, rows, lastId);
    OneMoreStep(h, START, run, Tick(c, now, SetClipboard(id), []));
  }

  lemma ReachStart(h: Hash)
    ensures Reaches(h, [], map[], 0, -1)
  {
  }

  /** When at most `max` rows are there, counting up to the greatest id, none goes. */
  lemma NoneDoomed(rows: map<int, Row>, top: int, max: nat)
    requires forall id :: id in rows ==> 1 <= id <= top
    requires top <= max
    ensures Doomed(rows, max) == {}
  {
    forall id | id in rows
      ensures |set j | j in rows && !rows[j].pinned && j > id| < max
    {
      var newer := set j | j in rows && !rows[j].pinned && j > id;
      Fewer(newer, id, top);
    }
  }

  lemma {:induction false} Fewer(s: set<int>, low: int, top: int)
    requires low <= top && forall j :: j in s ==> low < j <= top
    ensures |s| <= top - low
    decreases top - low
  {
    if low < top {
      Fewer(s - {top}, low, top - 1);
    } else {
      assert forall j :: j !in s;
      assert s == {};
    }
  }

  // ---------------------------------------------------------------- two things in the history

  function One(x: Digest, pin: bool): map<int, Row> {
    map[1 := Row(1, x, pin)]
  }

  function Two(x: Digest, sort: int, pin: bool, y: Digest): map<int, Row> {
    map[1 := Row(sort, x, pin), 2 := Row(2, y, false)]
  }

  lemma RowsGrow(x: Digest, y: Digest, pin: bool)
    ensures map[][1 := Row(1, x, false)] == One(x, false)
    ensures One(x, false)[1 := Row(1, x, true)] == One(x, true)
    ensures One(x, pin)[2 := Row(2, y, false)] == Two(x, 1, pin, y)
  {
  }

  lemma RowsChange(x: Digest, y: Digest)
    ensures Two(x, 1, false, y)[1 := Row(3, x, false)] == Two(x, 3, false, y)
    ensures Two(x, 1, true, y)[1 := Row(1, x, false)] == Two(x, 1, false, y)
    ensures Elements<int>([]) == {} && forall rows: map<int, Row> :: rows - {} == rows
  {
  }

  /** Copying one thing into an empty history. */
  lemma FirstCopied(h: Hash, c: Config, now: int, a: seq<Item>)
    requires a != [] && c.maxEntries > 0
    ensures Reaches(h, [] + [Copying(c, now, a, [])], One(EntryHash(h, a), false), 1, 1)
  {
    var x := EntryHash(h, a);
    ReachStart(h);
    NoneDoomed(One(x, false), 1, c.maxEntries);
    RowsGrow(x, x, false);
    RowsChange(x, x);
    ReachNew(h, [], c, now, a, [], map[], 0, -1, 0, One(x, false));
  }

  /** Copying another; nothing goes if both fit or the first is pinned. */
  lemma SecondCopied(h: Hash, run: seq<Tick>, c: Config, now: int, b: seq<Item>, x: Digest, pin: bool)
    requires Reaches(h, run, One(x, pin), 1, 1) && b != [] && x != EntryHash(h, b)
    requires c.maxEntries >= 2 || (c.maxEntries == 1 && pin)
    ensures Reaches(h, run + [Copying(c, now, b, [])], Two(x, 1, pin, EntryHash(h, b)), 2, 2)
  {
    var y := EntryHash(h, b);
    TwoFit(x, y, pin, c.maxEntries);
    RowsGrow(x, y, pin);
    RowsChange(x, y);
    ReachNew(h, run, c, now, b, [], One(x, pin), 1, 1, 1, Two(x, 1, pin, y));
  }

  lemma TwoFit(x: Digest, y: Digest, pin: bool, max: nat)
    requires max >= 2 || (max == 1 && pin)
    ensures Doomed(Two(x, 1, pin, y), max) == {}
  {
    var rows := Two(x, 1, pin, y);
    if max >= 2 {
      NoneDoomed(rows, 2, max);
    } else {
      assert (set j | j in rows && !rows[j].pinned && j > 2) == {};
    }
  }

  // ---------------------------------------------------------------- a moved entry is trimmed first

  /** Two things copied, then the first again: it is at the front, with the smaller id. */
  lemma FirstCopiedAgain(h: Hash, run: seq<Tick>, c: Config, now: int, a: seq<Item>, y: Digest)
    requires Reaches(h, run, Two(EntryHash(h, a), 1, false, y), 2, 2) && a != [] && EntryHash(h, a) != y
    requires c == Config(2, Everywhere)
    ensures Reaches(h, run + [Copying(c, now, a, [])], Two(EntryHash(h, a), 3, false, y), 2, 1)
  {
    var x := EntryHash(h, a);
    NoneDoomed(Two(x, 3, false, y), 2, 2);
    RowsChange(x, y);
    ReachOld(h, run, c, now, a, Two(x, 1, false, y), 2, 2, 1, 2, Two(x, 3, false, y));
  }

  function Three(x: Digest, y: Digest, z: Digest): map<int, Row> {
    map[1 := Row(3, x, false), 2 := Row(2, y, false), 3 := Row(4, z, false)]
  }

  /** Of three rows the one with the least id goes, wherever it is in the history. */
  lemma LeastOfThree(x: Digest, y: Digest, z: Digest)
    ensures Doomed(Three(x, y, z), 2) == {1} && Elements([1]) == {1}
    ensures Two(x, 3, false, y)[3 := Row(4, z, false)] == Three(x, y, z)
  {
    var rows := Three(x, y, z);
    assert (set j | j in rows && !rows[j].pinned && j > 1) == {2, 3};
    assert (set j | j in rows && !rows[j].pinned && j > 2) == {3};
    assert (set j | j in rows && !rows[j].pinned && j > 3) == {};
  }

  lemma ThreeInOrder(t: Tables, x: Digest, y: Digest, z: Digest)
    requires Looks(t, Three(x, y, z), 3)
    ensures IsHistory(t.entries, [3, 1, 2]) && !NewestAreForemost(t.entries, 2)
  {
    LeastOfThree(x, y, z);
    LooksDoomed(t, Three(x, y, z), 3, 2);
    assert 2 in Survivors(t.entries, 2) && 1 in Victims(t.entries, 2);
  }

  lemma TwoInOrder(t: Tables, x: Digest, y: Digest, z: Digest)
    requires Looks(t, Three(x, y, z) - {1}, 3)
    ensures IsHistory(t.entries, [3, 2])
  {
    assert t.entries.Keys == {2, 3};
  }

  /** A third thing, with room for two: the first goes, although it is second in the history. */
  lemma ThirdCopied(h: Hash, s: State, c: Config, now: int, d: seq<Item>, x: Digest, y: Digest)
    requires Looks(s.db, Two(x, 3, false, y), 2) && d != [] && EntryHash(h, d) != x && EntryHash(h, d) != y
    requires c == Config(2, Everywhere)
    ensures
      var es := Received(c, h, s, Offer(d, false, false), now).db.entries;
      && Legal(h, s, Copying(c, now, d, [1])) && !NewestAreForemost(es, 2)
      && IsHistory(es, [3, 1, 2]) && IsHistory(Next(h, s, Copying(c, now, d, [1])).db.entries, [3, 2])
  {
    var z := EntryHash(h, d);
    var two := Two(x, 3, false, y);
    assert 1 in two && two[1].sort == 3;
    CopyNew(h, s, c, now, d, Two(x, 3, false, y), 2, 3);
    LeastOfThree(x, y, z);
    CopyTrims(h, s, c, now, d, Three(x, y, z), 3, [1]);
    ThreeInOrder(Received(c, h, s, Offer(d, false, false), now).db, x, y, z);
    TwoInOrder(Next(h, s, Copying(c, now, d, [1])).db, x, y, z);
  }

  /**
   * Room for two: copy one thing, another, the first again, and a third. The first is second in
   * the history by then, and yet it is the one that goes; the one behind it stays.
   */
  lemma MovedIsTrimmedFirst(h: Hash, a: seq<Item>, b: seq<Item>, d: seq<Item>, now: int)
    requires a != [] && b != [] && d != []
    requires EntryHash(h, a) != EntryHash(h, b) && EntryHash(h, a) != EntryHash(h, d) && EntryHash(h, b) != EntryHash(h, d)
    ensures
      var c := Config(2, Everywhere);
      var run := [] + [Copying(c, now, a, [])] + [Copying(c, now, b, [])] + [Copying(c, now, a, [])];
      var s, last := Final(h, START, run), Copying(c, now, d, [1]);
      var es := Received(c, h, s, Offer(d, false, false), now).db.entries;
      && LegalRun(h, START, run) && Legal(h, s, last) && !NewestAreForemost(es, 2)
      && IsHistory(es, [3, 1, 2]) && IsHistory(Next(h, s, last).db.entries, [3, 2])
  {
    var c := Config(2, Everywhere);
    var x, y := EntryHash(h, a), EntryHash(h, b);
    var run1 := [] + [Copying(c, now, a, [])];
    var run2 := run1 + [Copying(c, now, b, [])];
    FirstCopied(h, c, now, a);
    SecondCopied(h, run1, c, now, b, x, false);
    FirstCopiedAgain(h, run2, c, now, a, y);
    ThirdCopied(h, Final(h, START, run2 + [Copying(c, now, a, [])]), c, now, d, x, y);
  }

  // ---------------------------------------------------------------- unpinning kills the current entry

  /** With room for one, a thing is copied and pinned, another copied, the first made current and unpinned. */
  lemma UnpinnedAndCurrent(h: Hash, c: Config, now: int, a: seq<Item>, b: seq<Item>)
    requires a != [] && b != [] && EntryHash(h, a) != EntryHash(h, b) && c == Config(1, Everywhere)
    ensures Reaches(h, Unpinning(c, now, a, b), Two(EntryHash(h, a), 1, false, EntryHash(h, b)), 2, 1)
  {
    var x, y := EntryHash(h, a), EntryHash(h, b);
    var run1 := [] + [Copying(c, now, a, [])];
    var run2 := run1 + [Pinning(c, now, 1, Yes)];
    var run3 := run2 + [Copying(c, now, b, [])];
    var run4 := run3 + [Tick(c, now, SetClipboard(1), [])];
    FirstCopied(h, c, now, a);
    RowsGrow(x, y, true);
    RowsChange(x, y);
    ReachPinned(h, run1, c, now, 1, Yes, One(x, false), 1, 1, One(x, true));
    SecondCopied(h, run2, c, now, b, x, true);
    ReachCurrent(h, run3, c, now, 1, Two(x, 1, true, y), 2, 2);
    ReachPinned(h, run4, c, now, 1, No, Two(x, 1, true, y), 2, 1, Two(x, 1, false, y));
  }

  function Unpinning(c: Config, now: int, a: seq<Item>, b: seq<Item>): seq<Tick> {
    [] + [Copying(c, now, a, [])] + [Pinning(c, now, 1, Yes)] + [Copying(c, now, b, [])]
    + [Tick(c, now, SetClipboard(1), [])] + [Pinning(c, now, 1, No)]
  }

  lemma OlderOfTwo(x: Digest, y: Digest)
    ensures Doomed(Two(x, 1, false, y), 1) == {1} && Elements([1]) == {1}
  {
    var rows := Two(x, 1, false, y);
    assert (set j | j in rows && !rows[j].pinned && j > 1) == {2};
    assert (set j | j in rows && !rows[j].pinned && j > 2) == {};
  }

  /**
   * Copying the front entry once more then trims the current entry away: a legal run from an
   * empty history, over states with a live current entry, to one whose current id names no row.
   */
  lemma UnpinThenRepeatKillsCurrent(h: Hash, a: seq<Item>, b: seq<Item>, now: int)
    requires a != [] && b != [] && EntryHash(h, a) != EntryHash(h, b)
    ensures
      var c := Config(1, Everywhere);
      var run := Unpinning(c, now, a, b);
      var again := run + [Copying(c, now, b, [1])];
      LegalRun(h, START, again) && CurrentLive(Final(h, START, run)) && !CurrentLive(Final(h, START, again))
  {
    var c := Config(1, Everywhere);
    var x, y := EntryHash(h, a), EntryHash(h, b);
    UnpinnedAndCurrent(h, c, now, a, b);
    OlderOfTwo(x, y);
    ReachFront(h, Unpinning(c, now, a, b), c, now, b, [1], Two(x, 1, false, y), 2, 1, 2);
  }
}
