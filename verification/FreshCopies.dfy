/** When copying counts as copying the same again: stated on names and data, not on hashes. */
module FreshCopies {
  import opened Common
  import opened Tables
  import opened History
  import opened Contents
  import opened Hashing
  import opened Recency
  import opened Trimming
  import opened MoveToFront
  import Replica

  /** Some selection event of the run brought these items. */
  ghost predicate Offered(run: seq<Tick>, x: seq<Item>) {
    exists k :: 0 <= k < |run| && run[k].action.Selection? && run[k].action.offer.items == x
  }

  /** What is recorded of an entry was offered in the run. */
  lemma {:induction false} RecalledOffered(h: Hash, s: State, run: seq<Tick>, offers: Offers, id: int)
    requires id in Recalled(h, s, run, offers)
    ensures
      var x := Recalled(h, s, run, offers)[id];
      (id in offers && x == offers[id]) || Offered(run, x)
    decreases |run|
  {
    if run != [] {
      var now := Recall(h, s, run[0], offers);
      RecalledOffered(h, Next(h, s, run[0]), run[1..], now, id);
      var x := Recalled(h, s, run, offers)[id];
      if Offered(run[1..], x) {
        var k :| 0 <= k < |run[1..]| && run[1..][k].action.Selection? && run[1..][k].action.offer.items == x;
        assert run[k + 1] == run[1..][k];
      } else if id !in offers || x != offers[id] {
        assert run[0].action.offer.items == x;
      }
    }
  }

  /** Either every name is as long as its counterpart, or different numbers of bytes are hashed. */
  predicate Comparable(x: seq<Item>, y: seq<Item>, n: nat) {
    SameShape(x, y) || Size(x, n) != Size(y, n)
  }

  predicate Same(x: seq<Item>, y: seq<Item>) {
    SameTypes(x, y) && SameData(x, y)
  }

  /** No two things hashed for the offers of a run, or for these items, have one digest; the names keep offers apart. */
  ghost predicate Distinguished(h: Hash, n: nat, hashed: iset<Bytes>, run: seq<Tick>, items: seq<Item>) {
    && FixedLength(h, n) && CollisionFree(h, hashed) && Covers(h, hashed, items)
    && forall x :: Offered(run, x) ==> Covers(h, hashed, x) && Comparable(x, items, n)
  }

  /** Then the entry hash tells offers apart just as their names and data do. */
  lemma HashTells(h: Hash, n: nat, hashed: iset<Bytes>, run: seq<Tick>, items: seq<Item>, x: seq<Item>)
    requires Distinguished(h, n, hashed, run, items) && Offered(run, x)
    ensures EntryHash(h, x) == EntryHash(h, items) <==> Same(x, items)
  {
    if SameShape(x, items) {
      EqualHashes(h, n, hashed, x, items);
    } else {
      DifferentSizes(h, n, hashed, x, items);
    }
  }

  // ---------------------------------------------------------------- new data

  /** Nobody holds the hash of items that were never offered before. */
  lemma NobodyHolds(h: Hash, n: nat, hashed: iset<Bytes>, run: seq<Tick>, items: seq<Item>)
    requires Distinguished(h, n, hashed, run, items)
    requires forall x :: Offered(run, x) ==> !Same(x, items)
    ensures Wf(Final(h, START, run).db) && Holder(Final(h, START, run).db.entries, EntryHash(h, items)).None?
  {
    var all := iset b: Bytes | |b| >= 0;
    StartSound(h, all);
    RunSound(h, START, run, map[], all);
    var es, offers := Final(h, START, run).db.entries, Recalled(h, START, run, map[]);
    forall id ensures !Holds(es, id, EntryHash(h, items)) {
      if id in es {
        RecalledOffered(h, START, run, map[], id);
        HashTells(h, n, hashed, run, items, offers[id]);
      }
    }
  }

  lemma NewestSurvives(es: map<int, Entry>, id: int, max: nat)
    requires max > 0 && forall j :: j in es ==> j <= id
    ensures id !in Victims(es, max)
  {
    assert Newer(es, id) == {};
  }

  /** A new row, in tables whose newest it is. */
  lemma AddedIsFirst(h: Hash, t: Tables, items: seq<Item>, now: int, l: seq<int>, max: nat)
    requires Wf(t) && IsHistory(t.entries, l) && max > 0
    ensures
      var id, es := t.lastId + 1, Added(h, t, items, now).entries;
      id !in t.entries && IsHistory(es, [id] + l) && id in es && id !in Victims(es, max)
  {
    var id, es := t.lastId + 1, Added(h, t, items, now).entries;
    Replica.PushFront(t.entries, es, l, id);
    NewestSurvives(es, id, max);
  }

  lemma TrimmedIsFirst(t: Tables, id: int, l: seq<int>, max: nat, after: seq<int>)
    requires IsHistory(t.entries, [id] + l) && id in t.entries && id !in Victims(t.entries, max)
    requires IsHistory(Without(t, Victims(t.entries, max)).entries, after)
    ensures after != [] && after[0] == id && after == Select([id] + l, Without(t, Victims(t.entries, max)).entries.Keys)
  {
    var r := Without(t, Victims(t.entries, max));
    TrimSelects(t, [id] + l, max);
    HistoryUnique(r.entries, after, Select([id] + l, r.entries.Keys));
  }

  /** What copying something new does. */
  ghost predicate AddsInFront(c: Config, h: Hash, s: State, items: seq<Item>, now: int, l: seq<int>, after: seq<int>) {
    var id, offer := s.db.lastId + 1, Offer(items, false, false);
    var r := Selected(c, h, s, offer, now);
    && id !in s.db.entries && r.current == id
    && after != [] && after[0] == id && after == Select([id] + l, r.db.entries.Keys)
    && SelectionEvents(c, h, s, offer, now) == [EntryAdd(id)] + StateEvents(s.current, id)
  }

  lemma AddedThenTrimmed(h: Hash, t: Tables, items: seq<Item>, now: int, l: seq<int>, max: nat, r: Tables, after: seq<int>)
    requires Wf(t) && IsHistory(t.entries, l) && max > 0
    requires r == Without(Added(h, t, items, now), Victims(Added(h, t, items, now).entries, max)) && IsHistory(r.entries, after)
    ensures
      var id := t.lastId + 1;
      id !in t.entries && after != [] && after[0] == id && after == Select([id] + l, r.entries.Keys)
  {
    AddedIsFirst(h, t, items, now, l, max);
    TrimmedIsFirst(Added(h, t, items, now), t.lastId + 1, l, max, after);
  }

  lemma FreshShape(c: Config, h: Hash, s: State, items: seq<Item>, now: int)
    requires Judge(c.dedup, s.db.entries, EntryHash(h, items)).Fresh? && items != []
    ensures
      var id, offer := s.db.lastId + 1, Offer(items, false, false);
      var r := Selected(c, h, s, offer, now);
      && r.current == id && SelectionEvents(c, h, s, offer, now) == [EntryAdd(id)] + StateEvents(s.current, id)
      && r.db == Without(Added(h, s.db, items, now), Victims(Added(h, s.db, items, now).entries, c.maxEntries))
  {
  }

  lemma FreshIsAdded(c: Config, h: Hash, s: State, items: seq<Item>, now: int, l: seq<int>, after: seq<int>)
    requires Wf(s.db) && Judge(c.dedup, s.db.entries, EntryHash(h, items)).Fresh? && c.maxEntries > 0 && items != []
    requires IsHistory(s.db.entries, l) && IsHistory(Selected(c, h, s, Offer(items, false, false), now).db.entries, after)
    ensures AddsInFront(c, h, s, items, now, l, after)
  {
    FreshShape(c, h, s, items, now);
    AddedThenTrimmed(h, s.db, items, now, l, c.maxEntries, Selected(c, h, s, Offer(items, false, false), now).db, after);
  }

  /**
   * After any run, whatever the configurations were: copying something whose names and data were
   * not offered together before adds a row at the front and makes it current. Nothing else of the
   * list changes but for the trim.
   */
  lemma NewCopyIsAdded(h: Hash, n: nat, hashed: iset<Bytes>, run: seq<Tick>, c: Config, now: int,
                       items: seq<Item>, l: seq<int>, after: seq<int>)
    requires Distinguished(h, n, hashed, run, items) && c.maxEntries > 0 && items != []
    requires forall x :: Offered(run, x) ==> !Same(x, items)
    requires IsHistory(Final(h, START, run).db.entries, l)
    requires IsHistory(Selected(c, h, Final(h, START, run), Offer(items, false, false), now).db.entries, after)
    ensures AddsInFront(c, h, Final(h, START, run), items, now, l, after)
  {
    NobodyHolds(h, n, hashed, run, items);
    FreshIsAdded(c, h, Final(h, START, run), items, now, l, after);
  }

  // ---------------------------------------------------------------- the other two modes

  lemma WfAfterRun(h: Hash, run: seq<Tick>)
    ensures
      var t, offers := Final(h, START, run).db, Recalled(h, START, run, map[]);
      Wf(t) && t.entries.Keys <= offers.Keys && HashesOk(h, t.entries, offers)
  {
    var all := iset b: Bytes | |b| >= 0;
    StartSound(h, all);
    RunSound(h, START, run, map[], all);
  }

  /** With dedup "none", after any run: every copy adds a row at the front. */
  lemma KeepAllAdds(h: Hash, run: seq<Tick>, c: Config, now: int, items: seq<Item>, l: seq<int>, after: seq<int>)
    requires c.dedup == KeepAll && c.maxEntries > 0 && items != []
    requires IsHistory(Final(h, START, run).db.entries, l)
    requires IsHistory(Selected(c, h, Final(h, START, run), Offer(items, false, false), now).db.entries, after)
    ensures AddsInFront(c, h, Final(h, START, run), items, now, l, after)
  {
    WfAfterRun(h, run);
    FreshIsAdded(c, h, Final(h, START, run), items, now, l, after);
  }

  /** The front entry has these names and data, and a hash. */
  ghost predicate InFront(es: map<int, Entry>, offers: Offers, l: seq<int>, items: seq<Item>) {
    l != [] && l[0] in es && l[0] in offers && es[l[0]].hash.Some? && Same(offers[l[0]], items)
  }

  /** Nothing but the trim happens. */
  ghost predicate OnlyTrims(c: Config, h: Hash, s: State, items: seq<Item>, now: int) {
    var offer := Offer(items, false, false);
    && Selected(c, h, s, offer, now) == s.(db := Without(s.db, Victims(s.db.entries, c.maxEntries)), transient := [])
    && SelectionEvents(c, h, s, offer, now) == []
  }

  /** With dedup "prev", a copy is a repeat just when the row in front holds its hash. */
  lemma PreviousJudges(es: map<int, Entry>, x: Digest, l: seq<int>)
    requires SortOk(es) && HashOk(es) && IsHistory(es, l)
    ensures Judge(Previous, es, x) == if l != [] && l[0] in es && es[l[0]].hash == Some(x) then Repeat else Fresh
  {
    var r := Holder(es, x);
    if r.Some? {
      assert Holds(es, r.value, x);
      var i := PositionOf(es, l, r.value);
      PositionIsIndex(es, l, i);
      var a := l[0];
      assert a in es && (i > 0 ==> es[a].sortIndex > es[l[i]].sortIndex);
      assert es[a].hash == Some(x) ==> a == r.value;
    } else if l != [] {
      var a := l[0];
      assert a in es && !Holds(es, a, x);
    }
  }

  /**
   * With dedup "prev", after any run: a copy changes nothing but for the trim when the front entry
   * has its names and data and has not lost its hash; otherwise it adds a row at the front.
   */
  lemma PreviousActs(h: Hash, n: nat, hashed: iset<Bytes>, run: seq<Tick>, c: Config, now: int,
                     items: seq<Item>, l: seq<int>, after: seq<int>)
    requires Distinguished(h, n, hashed, run, items) && c.dedup == Previous && c.maxEntries > 0 && items != []
    requires IsHistory(Final(h, START, run).db.entries, l)
    requires IsHistory(Selected(c, h, Final(h, START, run), Offer(items, false, false), now).db.entries, after)
    ensures
      var s, offers := Final(h, START, run), Recalled(h, START, run, map[]);
      if InFront(s.db.entries, offers, l, items) then OnlyTrims(c, h, s, items, now)
      else AddsInFront(c, h, s, items, now, l, after)
  {
    var s, offers := Final(h, START, run), Recalled(h, START, run, map[]);
    var x := EntryHash(h, items);
    WfAfterRun(h, run);
    PreviousJudges(s.db.entries, x, l);
    if l != [] {
      var a := l[0];
      assert a in s.db.entries;
      RecalledOffered(h, START, run, map[], a);
      HashTells(h, n, hashed, run, items, offers[a]);
    }
    if !InFront(s.db.entries, offers, l, items) {
      FreshIsAdded(c, h, s, items, now, l, after);
    }
  }

  // ---------------------------------------------------------------- offers that add nothing

  /**
   * An offer without allowed types, a transient one and one that fails add and move no row: the
   * first two keep the tables, the last only trims, and none announces anything but deletions.
   */
  lemma OthersAddNothing(c: Config, h: Hash, s: State, offer: Offer, now: int, l: seq<int>, after: seq<int>)
    requires Wf(s.db) && IsHistory(s.db.entries, l) && (Ignorable(offer) || offer.transient || offer.failed)
    requires IsHistory(Selected(c, h, s, offer, now).db.entries, after)
    ensures
      var r := Selected(c, h, s, offer, now);
      && SelectionEvents(c, h, s, offer, now) == [] && after == Select(l, r.db.entries.Keys)
      && r.db == (if Ignorable(offer) || offer.transient then s.db else Without(s.db, Victims(s.db.entries, c.maxEntries)))
      && (if Ignorable(offer) then r == s
          else if offer.failed then r.current == -1 && r.transient == []
          else r.current == 0 && r.transient == offer.items)
  {
    var r := Selected(c, h, s, offer, now);
    if Ignorable(offer) || offer.transient {
      HistoryUnique(s.db.entries, l, after);
      SelectAll(l, s.db.entries.Keys);
    } else {
      TrimSelects(s.db, l, c.maxEntries);
      HistoryUnique(r.db.entries, after, Select(l, r.db.entries.Keys));
    }
  }

  lemma {:induction false} SelectAll(l: seq<int>, keep: set<int>)
    requires forall i :: 0 <= i < |l| ==> l[i] in keep
    ensures Select(l, keep) == l
  {
    if l != [] {
      SelectAll(l[1..], keep);
    }
  }

  // ---------------------------------------------------------------- the recency list

  lemma SameIsEqual(x: seq<Item>, y: seq<Item>)
    requires Same(x, y) && Allocated(x) && Allocated(y)
    ensures x == y
  {
    forall i | 0 <= i < |x| ensures x[i] == y[i] {
      assert Payload(x[i]) == Payload(y[i]) && x[i].data != Some([]) && y[i].data != Some([]);
    }
  }

  /**
   * After any run from an empty history with dedup "all" throughout, copying acts on a
   * move-to-front list of names and data.
   */
  lemma CopiesMoveToFront(h: Hash, n: nat, hashed: iset<Bytes>, run: seq<Tick>, c: Config, now: int,
                          items: seq<Item>, l: seq<int>, after: seq<int>)
    requires Distinguished(h, n, hashed, run, items) && items != []
    requires Allocated(items) && forall x :: Offered(run, x) ==> Allocated(x)
    requires c.dedup == Everywhere && forall i :: 0 <= i < |run| ==> run[i].config.dedup == Everywhere
    requires IsHistory(Final(h, START, run).db.entries, l)
    requires IsHistory(Selected(c, h, Final(h, START, run), Offer(items, false, false), now).db.entries, after)
    ensures Moved(h, run, c, now, items, l, after)
  {
    var t, offers := Final(h, START, run).db, Recalled(h, START, run, map[]);
    forall id | id in t.entries && id in offers && EntryHash(h, offers[id]) == EntryHash(h, items)
      ensures offers[id] == items
    {
      RecalledOffered(h, START, run, map[], id);
      HashTells(h, n, hashed, run, items, offers[id]);
      SameIsEqual(offers[id], items);
    }
    CopyingMovesToFront(h, run, c, now, items, l, after);
  }
}
