/**
 * The history as a recency list: what deduplication, trimming and the choice of the
 * current entry amount to over whole runs.
 */
module Recency {
  import opened Common
  import opened Tables
  import opened History
  import opened Contents
  import Replica

  // ---------------------------------------------------------------- dedup = "all"

  ghost predicate AllHashed(es: map<int, Entry>) {
    forall id :: id in es ==> es[id].hash.Some?
  }

  /** The contents of the history, front first. */
  ghost function ContentsOf(l: seq<int>, offers: Offers): seq<seq<Item>>
    requires forall i :: 0 <= i < |l| ==> l[i] in offers
  {
    seq(|l|, i requires 0 <= i < |l| => offers[l[i]])
  }

  function Drop<T(==)>(s: seq<T>, x: T): seq<T> {
    if s == [] then [] else if s[0] == x then Drop(s[1..], x) else [s[0]] + Drop(s[1..], x)
  }

  /** Move to front, or push. */
  function ToFront<T(==)>(s: seq<T>, x: T): seq<T> {
    [x] + Drop(s, x)
  }

  lemma {:induction false} DropAbsent<T>(s: seq<T>, x: T)
    requires x !in s
    ensures Drop(s, x) == s
  {
    if s != [] {
      assert s[0] in s && s == [s[0]] + s[1..];
      DropAbsent(s[1..], x);
    }
  }

  lemma {:induction false} DropAt<T>(s: seq<T>, p: nat)
    requires Distinct(s) && p < |s|
    ensures Drop(s, s[p]) == s[..p] + s[p + 1..]
  {
    if p == 0 {
      assert s[0] !in s[1..];
      DropAbsent(s[1..], s[0]);
    } else {
      DropAt(s[1..], p - 1);
      assert s[1..][..p - 1] == s[1..p] && s[1..][p..] == s[p + 1..];
      assert s[..p] == [s[0]] + s[1..p];
    }
  }

  /** The new offer hashes like a live row only if it has the same items. */
  ghost predicate Separated(h: Hash, es: map<int, Entry>, offers: Offers, items: seq<Item>)
    requires es.Keys <= offers.Keys
  {
    forall id :: id in es && EntryHash(h, offers[id]) == EntryHash(h, items) ==> offers[id] == items
  }

  /** Contents are pairwise distinct: nothing is assumed of the hash. */
  lemma ContentsDistinct(h: Hash, es: map<int, Entry>, offers: Offers, l: seq<int>)
    requires HashOk(es) && AllHashed(es) && es.Keys <= offers.Keys && HashesOk(h, es, offers)
    requires IsHistory(es, l)
    ensures Distinct(ContentsOf(l, offers))
  {
    forall i, j | 0 <= i < j < |l| ensures offers[l[i]] != offers[l[j]] {
      var a, b := l[i], l[j];
      assert a in es && b in es && es[a].sortIndex > es[b].sortIndex;
    }
  }

  lemma HolderPosition(h: Hash, t: Tables, offers: Offers, l: seq<int>, items: seq<Item>)
    requires Wf(t) && t.entries.Keys <= offers.Keys && HashesOk(h, t.entries, offers)
    requires AllHashed(t.entries) && Separated(h, t.entries, offers, items) && IsHistory(t.entries, l)
    ensures
      match Judge(Everywhere, t.entries, EntryHash(h, items))
      case Fresh => items !in ContentsOf(l, offers)
      case Repeat => |l| > 0 && offers[l[0]] == items
      case Move(id, p) => 0 < p < |l| && l[p] == id && offers[id] == items
  {
    var es, x := t.entries, EntryHash(h, items);
    match Holder(es, x)
    case None =>
      forall i | 0 <= i < |l| ensures ContentsOf(l, offers)[i] != items {
        var a := l[i];
        assert a in es && !Holds(es, a, x);
      }
    case Some(id) =>
      var i := PositionOf(es, l, id);
      PositionIsIndex(es, l, i);
      assert Holds(es, id, x);
      assert offers[id] == items;
  }

  lemma ContentsMoved(l: seq<int>, offers: Offers, p: nat)
    requires p < |l| && forall i :: 0 <= i < |l| ==> l[i] in offers
    requires Distinct(ContentsOf(l, offers))
    ensures
      var m := Replica.Relocate(l, p, 0);
      && |m| == |l| && (forall i :: 0 <= i < |m| ==> m[i] in offers)
      && ContentsOf(m, offers) == ToFront(ContentsOf(l, offers), offers[l[p]])
  {
    var m := Replica.Relocate(l, p, 0);
    Replica.RelocateFront(l, p);
    forall i | 0 <= i < |m| ensures m[i] in offers {
      assert m[i] == l[if i == 0 then p else if i <= p then i - 1 else i];
    }
    DropAt(ContentsOf(l, offers), p);
  }

  lemma ContentsPushed(l: seq<int>, offers: Offers, id: int, items: seq<Item>)
    requires forall i :: 0 <= i < |l| ==> l[i] in offers && l[i] != id
    requires items !in ContentsOf(l, offers)
    ensures
      var o := offers[id := items];
      var m := [id] + l;
      && (forall i :: 0 <= i < |m| ==> m[i] in o)
      && ContentsOf(m, o) == ToFront(ContentsOf(l, offers), items)
  {
    DropAbsent(ContentsOf(l, offers), items);
    var m := [id] + l;
    assert forall i :: 0 < i < |m| ==> m[i] == l[i - 1];
  }

  ghost predicate Stored(t: Tables, offers: Offers, l: seq<int>) {
    && t.entries.Keys <= offers.Keys && IsHistory(t.entries, l)
    && (forall i :: 0 <= i < |l| ==> l[i] in offers)
  }

  /** What a committed, ignored or moved offer does to rows, history list and contents. */
  ghost predicate ActsAsRecencyList(s: State, r: Tables, l: seq<int>, after: seq<int>, offers: Offers, known: Offers, items: seq<Item>)
    requires Stored(s.db, offers, l)
  {
    && Stored(r, known, after) && AllHashed(r.entries)
    && ContentsOf(after, known) == ToFront(ContentsOf(l, offers), items)
    && (l != [] && offers[l[0]] == items ==> r == s.db)
    && (items in ContentsOf(l, offers) ==>
          r.mimes == s.db.mimes && r.data == s.db.data && r.lastId == s.db.lastId && r.entries.Keys == s.db.entries.Keys)
  }

  lemma MoveActs(h: Hash, s: State, offers: Offers, id: int, p: nat, now: int, l: seq<int>)
    requires Stored(s.db, offers, l) && Distinct(ContentsOf(l, offers)) && AllHashed(s.db.entries)
    requires 0 < p < |l| && l[p] == id && id in s.db.entries
    ensures ActsAsRecencyList(s, MovedUp(s.db, id, now), l, Replica.Relocate(l, p, 0), offers, offers, offers[id])
  {
    var cs := ContentsOf(l, offers);
    Replica.MovedUpMoves(s.db, id, p, now, l);
    ContentsMoved(l, offers, p);
    assert cs[p] == offers[id] && cs[0] != cs[p];
    assert AllHashed(MovedUp(s.db, id, now).entries);
  }

  lemma AddedAllHashed(h: Hash, t: Tables, items: seq<Item>, now: int)
    requires AllHashed(t.entries) && Holder(t.entries, EntryHash(h, items)).None?
    ensures AllHashed(Added(h, t, items, now).entries)
  {
    forall j | j in t.entries ensures Added(h, t, items, now).entries[j].hash.Some? {
      assert !Holds(t.entries, j, EntryHash(h, items));
    }
  }

  lemma FreshActs(h: Hash, s: State, offers: Offers, items: seq<Item>, now: int, l: seq<int>)
    requires Wf(s.db) && Remembered(s.db, offers) && Stored(s.db, offers, l) && AllHashed(s.db.entries)
    requires Holder(s.db.entries, EntryHash(h, items)).None? && items !in ContentsOf(l, offers)
    ensures
      var id := s.db.lastId + 1;
      ActsAsRecencyList(s, Added(h, s.db, items, now), l, [id] + l, offers, offers[id := items], items)
  {
    var id := s.db.lastId + 1;
    var r := Added(h, s.db, items, now);
    Replica.PushFront(s.db.entries, r.entries, l, id);
    forall i | 0 <= i < |l| ensures l[i] != id { var a := l[i]; assert a in s.db.entries; }
    ContentsPushed(l, offers, id, items);
    AddedAllHashed(h, s.db, items, now);
    if l != [] { assert ContentsOf(l, offers)[0] == offers[l[0]]; }
  }

  lemma RepeatActs(s: State, offers: Offers, l: seq<int>)
    requires Stored(s.db, offers, l) && Distinct(ContentsOf(l, offers)) && AllHashed(s.db.entries) && |l| > 0
    ensures ActsAsRecencyList(s, s.db, l, l, offers, offers, offers[l[0]])
  {
    var cs := ContentsOf(l, offers);
    DropAt(cs, 0);
    assert ToFront(cs, offers[l[0]]) == cs;
  }

  /** Tables, events and recorded contents by verdict. */
  lemma ReceivedShape(c: Config, h: Hash, s: State, offers: Offers, items: seq<Item>, now: int)
    requires items != []
    ensures
      var offer := Offer(items, false, false);
      var db, events := Received(c, h, s, offer, now).db, SelectionEvents(c, h, s, offer, now);
      var known := Recall(h, s, Tick(c, now, Selection(offer), []), offers);
      match Judge(c.dedup, s.db.entries, EntryHash(h, items))
      case Repeat => db == s.db && events == [] && known == offers
      case Move(id, p) =>
        && db == MovedUp(s.db, id, now) && known == offers
        && events == [EntryUpdate(id, now, None), EntryMove(id, p, 0)] + StateEvents(s.current, id)
      case Fresh =>
        && db == Added(h, s.db, items, now) && known == offers[s.db.lastId + 1 := items]
        && events == [EntryAdd(s.db.lastId + 1)] + StateEvents(s.current, s.db.lastId + 1)
  {
  }

  /**
   * With dedup "all", the contents of the history before trimming are the old contents with
   * the received items moved, or pushed, to the front; when they were at the front already
   * the tables are untouched, and when they were further back no row is added or removed.
   */
  lemma SelectionMovesToFront(c: Config, h: Hash, s: State, offers: Offers, items: seq<Item>, now: int, l: seq<int>)
    requires c.dedup == Everywhere && items != []
    requires Wf(s.db) && Remembered(s.db, offers) && HashesOk(h, s.db.entries, offers)
    requires AllHashed(s.db.entries) && Separated(h, s.db.entries, offers, items) && Stored(s.db, offers, l)
    ensures
      var offer := Offer(items, false, false);
      ActsAsRecencyList(s, Received(c, h, s, offer, now).db, l,
                        Replica.Replay(l, SelectionEvents(c, h, s, offer, now)),
                        offers, Recall(h, s, Tick(c, now, Selection(offer), []), offers), items)
  {
    HolderPosition(h, s.db, offers, l, items);
    ContentsDistinct(h, s.db.entries, offers, l);
    ReceivedShape(c, h, s, offers, items, now);
    match Judge(c.dedup, s.db.entries, EntryHash(h, items))
    case Repeat =>
      RepeatActs(s, offers, l);
    case Move(id, p) =>
      Replica.MoveEvents(l, id, p, now, s.current);
      MoveActs(h, s, offers, id, p, now, l);
    case Fresh =>
      Replica.AddEvents(l, s.db.lastId + 1, s.current);
      FreshActs(h, s, offers, items, now, l);
  }

  lemma ReceivedKeepsAllHashed(c: Config, h: Hash, s: State, offer: Offer, now: int)
    requires AllHashed(s.db.entries) && c.dedup == Everywhere
    ensures AllHashed(Received(c, h, s, offer, now).db.entries)
  {
    var es, x := s.db.entries, EntryHash(h, offer.items);
    if !offer.failed && Judge(c.dedup, es, x).Fresh? {
      var r := Received(c, h, s, offer, now).db.entries;
      forall j | j in r ensures r[j].hash.Some? {
        assert !Holds(es, j, x);
      }
    }
  }

  lemma StepKeepsAllHashed(h: Hash, s: State, tick: Tick)
    requires AllHashed(s.db.entries) && tick.config.dedup == Everywhere
    ensures AllHashed(Next(h, s, tick).db.entries)
  {
    match tick.action
    case Selection(offer) => ReceivedKeepsAllHashed(tick.config, h, s, offer, tick.now);
    case _ =>
  }

  lemma {:induction false} RunKeepsAllHashed(h: Hash, s: State, run: seq<Tick>)
    requires AllHashed(s.db.entries)
    requires forall i :: 0 <= i < |run| ==> run[i].config.dedup == Everywhere
    ensures AllHashed(Final(h, s, run).db.entries)
    decreases |run|
  {
    if run != [] {
      StepKeepsAllHashed(h, s, run[0]);
      RunKeepsAllHashed(h, Next(h, s, run[0]), run[1..]);
    }
  }

  /** With dedup "all" throughout, no two entries of the history ever have the same contents. */
  lemma NoDuplicatesUnderAll(h: Hash, run: seq<Tick>, l: seq<int>)
    requires forall i :: 0 <= i < |run| ==> run[i].config.dedup == Everywhere
    requires IsHistory(Final(h, START, run).db.entries, l)
    ensures
      var offers := Recalled(h, START, run, map[]);
      (forall i :: 0 <= i < |l| ==> l[i] in offers) && Distinct(ContentsOf(l, offers))
  {
    var all := iset b: Bytes | |b| >= 0;
    StartSound(h, all);
    RunSound(h, START, run, map[], all);
    RunKeepsAllHashed(h, START, run);
    var offers := Recalled(h, START, run, map[]);
    forall i | 0 <= i < |l| ensures l[i] in offers { var a := l[i]; assert a in Final(h, START, run).db.entries; }
    ContentsDistinct(h, Final(h, START, run).db.entries, offers, l);
  }

  // ---------------------------------------------------------------- the current entry

  ghost predicate CurrentLive(s: State) {
    s.current > 0 ==> s.current in s.db.entries
  }

  /** The request takes the pin off an entry that has one. */
  ghost predicate Unpins(s: State, a: Action) {
    a.PinEntry? && Answer(s, a) == Success && s.db.entries[a.id].pinned && !PinValue(s, a.id, a.mode)
  }

  ghost predicate NeverUnpins(h: Hash, s: State, run: seq<Tick>)
    decreases |run|
  {
    run != [] ==> !Unpins(s, run[0].action) && NeverUnpins(h, Next(h, s, run[0]), run[1..])
  }

  lemma Least(s: set<int>) returns (m: int)
    requires s != {}
    ensures m in s && forall x :: x in s ==> m <= x
    decreases s
  {
    assert (forall x :: x !in s) ==> s == {};
    m :| m in s;
    var rest := s - {m};
    assert forall x :: x in s ==> x == m || x in rest;
    if rest != {} {
      var n := Least(rest);
      if n < m { m := n; }
    } else {
      assert forall x :: x in s ==> x !in rest;
    }
  }

  /** After a trim, at most max_entries unpinned rows are left. */
  lemma TrimBounds(es: map<int, Entry>, max: nat)
    ensures |Unpinned(es - Victims(es, max))| <= max
  {
    var rest := es - Victims(es, max);
    SurvivorsBounded(es, Unpinned(rest), max);
    assert |Unpinned(rest)| <= max;
    assert |Unpinned(es - Victims(es, max))| <= max;
  }

  lemma SurvivorsBounded(es: map<int, Entry>, left: set<int>, max: nat)
    requires forall id :: id in left ==> id in Unpinned(es) && |Newer(es, id)| < max
    ensures |left| <= max
  {
    if left != {} {
      var m := Least(left);
      forall x | x in left - {m} ensures x in Newer(es, m) {
        assert m <= x && x in Unpinned(es);
      }
      SubsetCardinality(left - {m}, Newer(es, m));
    }
  }

  /** A trim of a store that is not over its limit deletes nothing. */
  lemma NothingToTrim(es: map<int, Entry>, max: nat)
    requires |Unpinned(es)| <= max
    ensures Victims(es, max) == {}
  {
    forall id | id in Unpinned(es) ensures |Newer(es, id)| < max {
      SubsetCardinality(Newer(es, id), Unpinned(es) - {id});
    }
  }

  lemma NewestSurvives(t: Tables, id: int, max: nat)
    requires IdsOk(t) && id == t.lastId && max > 0
    ensures id !in Victims(t.entries, max)
  {
    assert Newer(t.entries, id) == {};
  }

  lemma NotFreshKeepsUnpinned(c: Config, h: Hash, s: State, offer: Offer, now: int)
    requires !Judge(c.dedup, s.db.entries, EntryHash(h, offer.items)).Fresh? || offer.failed
    ensures
      var r := Received(c, h, s, offer, now).db.entries;
      r.Keys == s.db.entries.Keys && Unpinned(r) == Unpinned(s.db.entries)
  {
  }

  lemma SelectionKeepsCurrent(c: Config, h: Hash, s: State, offer: Offer, now: int)
    requires c.maxEntries > 0 && Wf(s.db) && CurrentLive(s)
    requires |Unpinned(s.db.entries)| <= c.maxEntries
    requires !Ignorable(offer) && !offer.transient
    ensures CurrentLive(Selected(c, h, s, offer, now))
  {
    var r := Received(c, h, s, offer, now);
    if Judge(c.dedup, s.db.entries, EntryHash(h, offer.items)).Fresh? && !offer.failed {
      Replica.ReceivedKeepsWf(c, h, s, offer, now);
      NewestSurvives(r.db, r.current, c.maxEntries);
    } else {
      NotFreshKeepsUnpinned(c, h, s, offer, now);
      NothingToTrim(r.db.entries, c.maxEntries);
      assert r.current > 0 ==> r.current in r.db.entries;
    }
  }

  lemma StepKeepsCurrent(h: Hash, s: State, tick: Tick)
    requires tick.config.maxEntries > 0 && Wf(s.db) && CurrentLive(s)
    requires |Unpinned(s.db.entries)| <= tick.config.maxEntries
    requires !Unpins(s, tick.action)
    ensures CurrentLive(Next(h, s, tick)) && |Unpinned(Next(h, s, tick).db.entries)| <= tick.config.maxEntries
  {
    var next := Next(h, s, tick);
    match tick.action
    case Selection(offer) =>
      if !Ignorable(offer) && !offer.transient {
        SelectionKeepsCurrent(tick.config, h, s, offer, tick.now);
        TrimBounds(Received(tick.config, h, s, offer, tick.now).db.entries, tick.config.maxEntries);
      }
    case _ =>
      assert Unpinned(next.db.entries) <= Unpinned(s.db.entries);
      SubsetCardinality(Unpinned(next.db.entries), Unpinned(s.db.entries));
  }

  /**
   * As long as no request takes a pin off, a positive current id names a live row after
   * every step, although every selection event trims after setting it.
   */
  lemma {:induction false} CurrentStaysLive(h: Hash, c: Config, s: State, run: seq<Tick>)
    requires c.maxEntries > 0 && forall i :: 0 <= i < |run| ==> run[i].config.maxEntries == c.maxEntries
    requires Wf(s.db) && CurrentLive(s) && |Unpinned(s.db.entries)| <= c.maxEntries
    requires NeverUnpins(h, s, run)
    ensures CurrentLive(Final(h, s, run))
    decreases |run|
  {
    if run != [] {
      StepKeepsCurrent(h, s, run[0]);
      Replica.StepKeepsWf(h, s, run[0]);
      CurrentStaysLive(h, c, Next(h, s, run[0]), run[1..]);
    }
  }

  /**
   * Without that restriction: a selection event leaves a dead current id exactly when it adds
   * no entry and the row it leaves current is unpinned and outranked by max_entries newer ids.
   */
  lemma ExactlyWhenCurrentDies(c: Config, h: Hash, s: State, items: seq<Item>, now: int)
    requires c.maxEntries > 0 && Wf(s.db) && CurrentLive(s) && items != []
    ensures
      var next := Selected(c, h, s, Offer(items, false, false), now);
      var es := s.db.entries;
      !CurrentLive(next) <==>
        match Judge(c.dedup, es, EntryHash(h, items))
        case Fresh => false
        case Repeat => s.current > 0 && !es[s.current].pinned && |Newer(es, s.current)| >= c.maxEntries
        case Move(id, _) => !es[id].pinned && |Newer(es, id)| >= c.maxEntries
  {
    var r := Received(c, h, s, Offer(items, false, false), now);
    match Judge(c.dedup, s.db.entries, EntryHash(h, items))
    case Fresh =>
      Replica.AddedKeepsWf(h, s.db, items, now);
      NewestSurvives(r.db, r.current, c.maxEntries);
    case Repeat =>
    case Move(id, _) =>
      assert Unpinned(r.db.entries) == Unpinned(s.db.entries);
      assert Newer(r.db.entries, id) == Newer(s.db.entries, id);
  }
}
