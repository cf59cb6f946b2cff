/**
 * What the stored rows mean: which contents each entry was received with, that the
 * shared blob table answers every lookup from them, and what the hash column says.
 */
module Contents {
  import opened Common
  import opened Tables
  import opened History
  import Replica

  /** For every id ever committed, the items it was received with. */
  type Offers = map<int, seq<Item>>

  /** The first item of a mime type is the one INSERT OR IGNORE keeps. */
  function FirstOf(items: seq<Item>, mime: Mime): Option<Item> {
    if items == [] then None
    else
      var n := |items| - 1;
      var r := FirstOf(items[..n], mime);
      if r.Some? then r else if items[n].mime == mime then Some(items[n]) else None
  }

  /** The plain map the three tables stand for. */
  function Plain(items: seq<Item>, mime: Mime): Option<Bytes> {
    var r := FirstOf(items, mime);
    if r.Some? then r.value.data else None
  }

  ghost predicate Commits(h: Hash, s: State, tick: Tick) {
    && tick.action.Selection?
    && var o := tick.action.offer;
       && !Ignorable(o) && !o.transient && !o.failed
       && Judge(tick.config.dedup, s.db.entries, EntryHash(h, o.items)).Fresh?
  }

  ghost function Recall(h: Hash, s: State, tick: Tick, offers: Offers): Offers {
    if Commits(h, s, tick) then offers[s.db.lastId + 1 := tick.action.offer.items] else offers
  }

  ghost function Recalled(h: Hash, s: State, run: seq<Tick>, offers: Offers): Offers
    decreases |run|
  {
    if run == [] then offers
    else Recalled(h, Next(h, s, run[0]), run[1..], Recall(h, s, run[0], offers))
  }

  // ---------------------------------------------------------------- invariants

  ghost predicate Remembered(t: Tables, offers: Offers) {
    t.entries.Keys <= offers.Keys && forall id :: id in offers ==> id <= t.lastId
  }

  /** A hash column holds the content hash of its row, and only the newest such row holds it. */
  ghost predicate HashesOk(h: Hash, es: map<int, Entry>, offers: Offers)
    requires es.Keys <= offers.Keys
  {
    && (forall id :: id in es && es[id].hash.Some? ==> es[id].hash.value == EntryHash(h, offers[id]))
    && (forall id, j :: id in es && j in es && es[id].hash == Some(EntryHash(h, offers[j])) ==>
          es[j].sortIndex <= es[id].sortIndex)
  }

  ghost predicate Matches(h: Hash, t: Tables, id: int, mime: Mime, item: Option<Item>) {
    && (item.None? <==> (id, mime) !in t.mimes)
    && (item.Some? ==>
          (t.mimes[(id, mime)] == if item.value.data.Some? then Some(h(item.value.data.value)) else None))
  }

  ghost predicate MimesOk(h: Hash, t: Tables, offers: Offers)
    requires t.entries.Keys <= offers.Keys
  {
    forall id, mime :: id in t.entries ==> Matches(h, t, id, mime, FirstOf(offers[id], mime))
  }

  /** Every blob is filed under its own digest, and came from some receive. */
  ghost predicate DataOk(h: Hash, t: Tables, received: iset<Bytes>) {
    forall d :: d in t.data ==> h(t.data[d]) == d && t.data[d] in received
  }

  ghost predicate Sound(h: Hash, t: Tables, offers: Offers, received: iset<Bytes>) {
    && Wf(t) && Remembered(t, offers)
    && HashesOk(h, t.entries, offers) && MimesOk(h, t, offers) && DataOk(h, t, received)
  }

  ghost predicate Within(items: seq<Item>, received: iset<Bytes>) {
    forall i :: 0 <= i < |items| && items[i].data.Some? ==> items[i].data.value in received
  }

  ghost predicate RunWithin(run: seq<Tick>, received: iset<Bytes>) {
    forall i :: 0 <= i < |run| && run[i].action.Selection? ==> Within(run[i].action.offer.items, received)
  }

  ghost predicate CollisionFree(h: Hash, received: iset<Bytes>) {
    forall a, b :: a in received && b in received && h(a) == h(b) ==> a == b
  }

  // ---------------------------------------------------------------- ingestion

  lemma IngestedData(h: Hash, t: Tables, id: int, items: seq<Item>, received: iset<Bytes>)
    requires DataOk(h, t, received) && Within(items, received)
    ensures DataOk(h, Ingested(h, t, id, items), received)
  {
    if items != [] {
      var n := |items| - 1;
      IngestedData(h, t, id, items[..n], received);
    }
  }

  lemma {:induction false} IngestedMimes(h: Hash, t: Tables, id: int, items: seq<Item>, mime: Mime)
    requires (id, mime) !in t.mimes
    ensures Matches(h, Ingested(h, t, id, items), id, mime, FirstOf(items, mime))
  {
    if items != [] {
      var n := |items| - 1;
      IngestedMimes(h, t, id, items[..n], mime);
    }
  }

  lemma {:induction false} IngestedOthers(h: Hash, t: Tables, id: int, items: seq<Item>, k: (int, Mime))
    requires k.0 != id
    ensures
      var r := Ingested(h, t, id, items);
      (k in r.mimes <==> k in t.mimes) && (k in t.mimes ==> r.mimes[k] == t.mimes[k])
  {
    if items != [] {
      IngestedOthers(h, t, id, items[..|items| - 1], k);
    }
  }

  // ---------------------------------------------------------------- each step keeps it

  lemma AddedMimes(h: Hash, t: Tables, offers: Offers, items: seq<Item>, now: int)
    requires Wf(t) && Remembered(t, offers) && MimesOk(h, t, offers)
    ensures
      var r := Added(h, t, items, now);
      var o := offers[t.lastId + 1 := items];
      Remembered(r, o) && MimesOk(h, r, o)
  {
    var id := t.lastId + 1;
    var r := Added(h, t, items, now);
    var o := offers[id := items];
    forall j, mime | j in r.entries ensures Matches(h, r, j, mime, FirstOf(o[j], mime)) {
      if j == id {
        assert (id, mime) !in t.mimes;
        IngestedMimes(h, t, id, items, mime);
      } else {
        IngestedOthers(h, t, id, items, (j, mime));
        assert Matches(h, t, j, mime, FirstOf(offers[j], mime));
      }
    }
  }

  lemma AddedHashes(h: Hash, t: Tables, offers: Offers, items: seq<Item>, now: int)
    requires Wf(t) && Remembered(t, offers) && HashesOk(h, t.entries, offers)
    ensures Added(h, t, items, now).entries.Keys <= offers[t.lastId + 1 := items].Keys
    ensures HashesOk(h, Added(h, t, items, now).entries, offers[t.lastId + 1 := items])
  {
  }

  lemma AddedSound(h: Hash, t: Tables, offers: Offers, received: iset<Bytes>, items: seq<Item>, now: int)
    requires Sound(h, t, offers, received) && Within(items, received)
    ensures Sound(h, Added(h, t, items, now), offers[t.lastId + 1 := items], received)
  {
    Replica.AddedKeepsWf(h, t, items, now);
    AddedMimes(h, t, offers, items, now);
    AddedHashes(h, t, offers, items, now);
    IngestedData(h, t, t.lastId + 1, items, received);
  }

  lemma WithoutSound(h: Hash, t: Tables, offers: Offers, received: iset<Bytes>, ids: set<int>)
    requires Sound(h, t, offers, received)
    ensures Sound(h, Without(t, ids), offers, received)
  {
    Replica.WithoutKeepsWf(t, ids);
    var r := Without(t, ids);
    forall id, mime | id in r.entries ensures Matches(h, r, id, mime, FirstOf(offers[id], mime)) {
      assert Matches(h, t, id, mime, FirstOf(offers[id], mime));
    }
  }

  lemma SameRowsSound(h: Hash, t: Tables, es: map<int, Entry>, offers: Offers, received: iset<Bytes>)
    requires Sound(h, t, offers, received)
    requires Wf(t.(entries := es)) && es.Keys == t.entries.Keys
    requires HashesOk(h, es, offers)
    ensures Sound(h, t.(entries := es), offers, received)
  {
    forall id, mime | id in es ensures Matches(h, t.(entries := es), id, mime, FirstOf(offers[id], mime)) {
      assert Matches(h, t, id, mime, FirstOf(offers[id], mime));
    }
  }

  lemma TouchedSound(h: Hash, t: Tables, offers: Offers, received: iset<Bytes>, id: int, now: int, pin: Option<bool>)
    requires Sound(h, t, offers, received)
    ensures Sound(h, t.(entries := Touched(t.entries, id, now, pin)), offers, received)
  {
    Replica.TouchedKeepsWf(t, id, now, pin);
    SameRowsSound(h, t, Touched(t.entries, id, now, pin), offers, received);
  }

  lemma MovedUpSound(h: Hash, t: Tables, offers: Offers, received: iset<Bytes>, id: int, now: int)
    requires Sound(h, t, offers, received) && id in t.entries && t.entries[id].hash.Some?
    ensures Sound(h, MovedUp(t, id, now), offers, received)
  {
    Replica.MovedUpKeepsWf(t, id, now);
    SameRowsSound(h, t, MovedUp(t, id, now).entries, offers, received);
  }

  lemma ReceivedSound(h: Hash, s: State, tick: Tick, offers: Offers, received: iset<Bytes>)
    requires tick.action.Selection? && !Ignorable(tick.action.offer) && !tick.action.offer.transient
    requires Sound(h, s.db, offers, received) && Within(tick.action.offer.items, received)
    ensures Sound(h, Received(tick.config, h, s, tick.action.offer, tick.now).db, Recall(h, s, tick, offers), received)
  {
    var offer := tick.action.offer;
    if !offer.failed {
      match Judge(tick.config.dedup, s.db.entries, EntryHash(h, offer.items))
      case Repeat =>
      case Move(id, _) => MovedUpSound(h, s.db, offers, received, id, tick.now);
      case Fresh => AddedSound(h, s.db, offers, received, offer.items, tick.now);
    }
  }

  lemma StepSound(h: Hash, s: State, tick: Tick, offers: Offers, received: iset<Bytes>)
    requires Sound(h, s.db, offers, received)
    requires tick.action.Selection? ==> Within(tick.action.offer.items, received)
    ensures Sound(h, Next(h, s, tick).db, Recall(h, s, tick, offers), received)
  {
    match tick.action
    case Selection(offer) =>
      if !Ignorable(offer) && !offer.transient {
        ReceivedSound(h, s, tick, offers, received);
        var r := Received(tick.config, h, s, offer, tick.now);
        WithoutSound(h, r.db, Recall(h, s, tick, offers), received, Victims(r.db.entries, tick.config.maxEntries));
      }
    case SetClipboard(id) => TouchedSound(h, s.db, offers, received, id, tick.now, None);
    case DeleteEntry(id) =>
      WithoutSound(h, s.db, offers, received, if id == -1 then s.db.entries.Keys else {id});
    case PinEntry(id, mode) =>
      if Known(s, id) {
        TouchedSound(h, s.db, offers, received, id, tick.now, Some(PinValue(s, id, mode)));
      }
  }

  /** Hash and blob invariants of every run, across deduplication modes, deletes and trims. */
  lemma {:induction false} RunSound(h: Hash, s: State, run: seq<Tick>, offers: Offers, received: iset<Bytes>)
    requires Sound(h, s.db, offers, received) && RunWithin(run, received)
    ensures Sound(h, Final(h, s, run).db, Recalled(h, s, run, offers), received)
    ensures forall id :: id in offers ==> id in Recalled(h, s, run, offers) && Recalled(h, s, run, offers)[id] == offers[id]
    decreases |run|
  {
    if run != [] {
      StepSound(h, s, run[0], offers, received);
      RunSound(h, Next(h, s, run[0]), run[1..], Recall(h, s, run[0], offers), received);
    }
  }

  lemma StartSound(h: Hash, received: iset<Bytes>)
    ensures Sound(h, START.db, map[], received)
  {
  }

  // ---------------------------------------------------------------- lookups

  lemma {:induction false} FirstIsReceived(items: seq<Item>, mime: Mime)
    ensures FirstOf(items, mime).Some? ==> exists i :: 0 <= i < |items| && items[i] == FirstOf(items, mime).value
  {
    if items != [] {
      var n := |items| - 1;
      FirstIsReceived(items[..n], mime);
      if FirstOf(items[..n], mime).Some? {
        var i :| 0 <= i < n && items[..n][i] == FirstOf(items[..n], mime).value;
        assert items[i] == FirstOf(items, mime).value;
      }
    }
  }

  /** Every recorded item list came from an offer of the run, so `received` covers it. */
  lemma {:induction false} RecalledWithin(h: Hash, s: State, run: seq<Tick>, offers: Offers, received: iset<Bytes>, id: int)
    requires RunWithin(run, received)
    requires forall j :: j in offers ==> Within(offers[j], received)
    ensures id in Recalled(h, s, run, offers) ==> Within(Recalled(h, s, run, offers)[id], received)
    decreases |run|
  {
    if run != [] {
      RecalledWithin(h, Next(h, s, run[0]), run[1..], Recall(h, s, run[0], offers), received, id);
    }
  }

  /**
   * After any run from the empty database, every lookup answers from the plain map of what the
   * live entries were received with: exactly, when no two received blobs share a digest, and
   * with bytes of the right digest in any case. An entry's items never change once recorded.
   */
  lemma LookupsRefinePlainMap(h: Hash, run: seq<Tick>, received: iset<Bytes>, id: int, mime: Mime)
    requires RunWithin(run, received)
    ensures
      var t, offers := Final(h, START, run).db, Recalled(h, START, run, map[]);
      && t.entries.Keys <= offers.Keys
      && (id !in t.entries ==> Lookup(t, id, mime) == None)
      && (id in t.entries ==>
            var expected := Plain(offers[id], mime);
            && (Lookup(t, id, mime).Some? <==> expected.Some?)
            && (expected.Some? ==> h(Lookup(t, id, mime).value) == h(expected.value))
            && (CollisionFree(h, received) ==> Lookup(t, id, mime) == expected))
  {
    StartSound(h, received);
    RunSound(h, START, run, map[], received);
    var t, offers := Final(h, START, run).db, Recalled(h, START, run, map[]);
    if id in t.entries {
      var items := offers[id];
      assert Matches(h, t, id, mime, FirstOf(items, mime));
      FirstIsReceived(items, mime);
      RecalledWithin(h, START, run, map[], received, id);
    }
  }

  // ---------------------------------------------------------------- garbage

  /** The Data rows are exactly the referenced ones. */
  ghost predicate Exact(t: Tables) {
    forall d :: d in t.data <==> exists k :: Refers(t, k, d)
  }

  /** Some item filed under its own mime type carries digest `d`. */
  ghost predicate Keeps(h: Hash, items: seq<Item>, d: Digest) {
    exists m :: FirstOf(items, m).Some? && FirstOf(items, m).value.data.Some? && h(FirstOf(items, m).value.data.value) == d
  }

  ghost predicate Carries(h: Hash, items: seq<Item>, d: Digest) {
    exists i :: 0 <= i < |items| && items[i].data.Some? && h(items[i].data.value) == d
  }

  lemma {:induction false} IngestedDigests(h: Hash, t: Tables, id: int, items: seq<Item>, d: Digest)
    ensures d in Ingested(h, t, id, items).data <==> d in t.data || Carries(h, items, d)
  {
    if items != [] {
      var n := |items| - 1;
      var front := items[..n];
      IngestedDigests(h, t, id, front, d);
      if Carries(h, front, d) {
        var i :| 0 <= i < n && front[i].data.Some? && h(front[i].data.value) == d;
        assert items[i] == front[i];
      }
      if Carries(h, items, d) {
        var i :| 0 <= i < |items| && items[i].data.Some? && h(items[i].data.value) == d;
        if i < n { assert front[i] == items[i]; }
      }
    }
  }

  lemma AddedReferences(h: Hash, t: Tables, items: seq<Item>, now: int, d: Digest)
    requires Wf(t)
    ensures (exists k :: Refers(Added(h, t, items, now), k, d)) <==> (exists k :: Refers(t, k, d)) || Keeps(h, items, d)
  {
    var id := t.lastId + 1;
    var r := Added(h, t, items, now);
    if exists k :: Refers(r, k, d) {
      var k :| Refers(r, k, d);
      if k.0 == id {
        IngestedMimes(h, t, id, items, k.1);
        assert Matches(h, Ingested(h, t, id, items), id, k.1, FirstOf(items, k.1));
      } else {
        IngestedOthers(h, t, id, items, k);
        assert Refers(t, k, d);
      }
    }
    if exists k :: Refers(t, k, d) {
      var k :| Refers(t, k, d);
      IngestedOthers(h, t, id, items, k);
      assert Refers(r, k, d);
    }
    if Keeps(h, items, d) {
      var m :| FirstOf(items, m).Some? && FirstOf(items, m).value.data.Some? && h(FirstOf(items, m).value.data.value) == d;
      IngestedMimes(h, t, id, items, m);
      assert Refers(r, (id, m), d);
    }
  }

  /**
   * Exactly when a committed offer leaves no unreferenced blob: every digest it carries was
   * stored before, or is filed under some mime type's first item.
   */
  lemma ExactlyWhenNoStrayBlob(h: Hash, t: Tables, items: seq<Item>, now: int)
    requires Wf(t) && Exact(t)
    ensures Exact(Added(h, t, items, now)) <==>
            forall d :: Carries(h, items, d) ==> d in t.data || Keeps(h, items, d)
  {
    var r := Added(h, t, items, now);
    forall d
      ensures d in r.data <==> d in t.data || Carries(h, items, d)
      ensures (exists k :: Refers(r, k, d)) <==> d in t.data || Keeps(h, items, d)
      ensures Keeps(h, items, d) ==> Carries(h, items, d)
    {
      IngestedDigests(h, t, t.lastId + 1, items, d);
      AddedReferences(h, t, items, now, d);
      if Keeps(h, items, d) {
        var m :| FirstOf(items, m).Some? && FirstOf(items, m).value.data.Some? && h(FirstOf(items, m).value.data.value) == d;
        FirstIsReceived(items, m);
        var i :| 0 <= i < |items| && items[i] == FirstOf(items, m).value;
      }
    }
    if Exact(r) {
      forall d | Carries(h, items, d) ensures d in t.data || Keeps(h, items, d) {
        assert d in r.data;
      }
    }
  }

  /** An offer naming one mime type twice, with different bytes, does leave one. */
  lemma RepeatedMimeLeavesStray(h: Hash, a: uint8, b: uint8, mime: Mime, now: int)
    requires h([a]) != h([b])
    ensures
      var items := [Item(mime, Some([a])), Item(mime, Some([b]))];
      !Exact(Added(h, EMPTY, items, now))
  {
    var items := [Item(mime, Some([a])), Item(mime, Some([b]))];
    assert Carries(h, items, h([b])) by { assert items[1].data == Some([b]); }
    forall m ensures FirstOf(items, m).Some? ==> FirstOf(items, m).value == items[0] {
      assert items[..1] == [items[0]] && items[..1][..0] == [];
      assert FirstOf(items[..1], m) == if m == mime then Some(items[0]) else None;
    }
    assert !Keeps(h, items, h([b]));
    ExactlyWhenNoStrayBlob(h, EMPTY, items, now);
  }

  ghost predicate DistinctMimes(items: seq<Item>) {
    forall i, j :: 0 <= i < j < |items| ==> items[i].mime != items[j].mime
  }

  lemma {:induction false} DistinctIsFirst(items: seq<Item>, i: nat)
    requires DistinctMimes(items) && i < |items|
    ensures FirstOf(items, items[i].mime) == Some(items[i])
  {
    var n := |items| - 1;
    if i < n {
      DistinctIsFirst(items[..n], i);
    } else {
      FirstIsReceived(items[..n], items[i].mime);
      FirstHasMime(items[..n], items[i].mime);
    }
  }

  lemma {:induction false} FirstHasMime(items: seq<Item>, mime: Mime)
    ensures FirstOf(items, mime).Some? ==> FirstOf(items, mime).value.mime == mime
  {
    if items != [] {
      FirstHasMime(items[..|items| - 1], mime);
    }
  }

  lemma WithoutExact(t: Tables, ids: set<int>)
    requires Exact(t)
    ensures Exact(Without(t, ids))
  {
    var r := Without(t, ids);
    forall d ensures d in r.data <==> exists k :: Refers(r, k, d) {
      if d in r.data {
        var k :| Refers(t, k, d);
        var j :| Refers(t, j, d) && j.0 !in ids;
        assert Refers(r, j, d);
      }
      if exists k :: Refers(r, k, d) {
        var k :| Refers(r, k, d);
        assert Refers(t, k, d);
      }
    }
  }

  lemma StepExact(h: Hash, s: State, tick: Tick)
    requires Wf(s.db) && Exact(s.db)
    requires tick.action.Selection? ==> DistinctMimes(tick.action.offer.items)
    ensures Exact(Next(h, s, tick).db)
  {
    match tick.action
    case Selection(offer) =>
      if !Ignorable(offer) && !offer.transient {
        var r := Received(tick.config, h, s, offer, tick.now);
        assert Exact(r.db) by {
          if !offer.failed && Judge(tick.config.dedup, s.db.entries, EntryHash(h, offer.items)).Fresh? {
            forall d | Carries(h, offer.items, d) ensures Keeps(h, offer.items, d) {
              var i :| 0 <= i < |offer.items| && offer.items[i].data.Some? && h(offer.items[i].data.value) == d;
              DistinctIsFirst(offer.items, i);
            }
            ExactlyWhenNoStrayBlob(h, s.db, offer.items, tick.now);
          } else {
            assert r.db.mimes == s.db.mimes && r.db.data == s.db.data;
            assert forall k, d :: Refers(r.db, k, d) <==> Refers(s.db, k, d);
          }
        }
        WithoutExact(r.db, Victims(r.db.entries, tick.config.maxEntries));
      }
    case DeleteEntry(id) => WithoutExact(s.db, if id == -1 then s.db.entries.Keys else {id});
    case _ =>
      var r := Next(h, s, tick).db;
      assert r.mimes == s.db.mimes && r.data == s.db.data;
      assert forall k, d :: Refers(r, k, d) <==> Refers(s.db, k, d);
  }

  /** When no offer repeats a mime type, no run leaves an unreferenced or missing blob. */
  lemma {:induction false} RunExact(h: Hash, s: State, run: seq<Tick>)
    requires Wf(s.db) && Exact(s.db)
    requires forall i :: 0 <= i < |run| && run[i].action.Selection? ==> DistinctMimes(run[i].action.offer.items)
    ensures Exact(Final(h, s, run).db)
    decreases |run|
  {
    if run != [] {
      Replica.StepKeepsWf(h, s, run[0]);
      StepExact(h, s, run[0]);
      RunExact(h, Next(h, s, run[0]), run[1..]);
    }
  }

  // ---------------------------------------------------------------- what receives leave

  /** A receive of nothing leaves no buffer: an item holds no data rather than none of its bytes. */
  predicate Allocated(items: seq<Item>) {
    forall i :: 0 <= i < |items| ==> items[i].data != Some([])
  }
}
