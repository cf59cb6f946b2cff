/** Deduplication "all", from an empty history: every selection event acts on a move-to-front list. */
module MoveToFront {
  import opened Common
  import opened Tables
  import opened History
  import opened Contents
  import opened Recency
  import opened Trimming
  import Replica

  /** The elements at the positions whose ids are kept. */
  function KeptAt<T>(xs: seq<T>, ids: seq<int>, kept: set<int>): seq<T>
    requires |xs| == |ids|
  {
    if ids == [] then [] else (if ids[0] in kept then [xs[0]] else []) + KeptAt(xs[1..], ids[1..], kept)
  }

  /** The contents of the kept entries are the kept contents. */
  lemma {:induction false} ContentsSelected(l: seq<int>, offers: Offers, kept: set<int>)
    requires forall i :: 0 <= i < |l| ==> l[i] in offers
    ensures forall i :: 0 <= i < |Select(l, kept)| ==> Select(l, kept)[i] in offers
    ensures ContentsOf(Select(l, kept), offers) == KeptAt(ContentsOf(l, offers), l, kept)
  {
    if l != [] {
      var tail := l[1..];
      assert forall i :: 0 <= i < |tail| ==> tail[i] == l[i + 1];
      ContentsSelected(tail, offers, kept);
      assert ContentsOf(l, offers)[1..] == ContentsOf(tail, offers);
      var head := if l[0] in kept then [l[0]] else [];
      assert ContentsOf(head + Select(tail, kept), offers) == ContentsOf(head, offers) + ContentsOf(Select(tail, kept), offers);
    }
  }

  /** What a run with dedup "all" from an empty history has established. */
  lemma Established(h: Hash, run: seq<Tick>, l: seq<int>)
    requires forall i :: 0 <= i < |run| ==> run[i].config.dedup == Everywhere
    requires IsHistory(Final(h, START, run).db.entries, l)
    ensures
      var s, offers := Final(h, START, run), Recalled(h, START, run, map[]);
      && Wf(s.db) && Remembered(s.db, offers) && HashesOk(h, s.db.entries, offers)
      && AllHashed(s.db.entries) && Stored(s.db, offers, l)
  {
    var all := iset b: Bytes | |b| >= 0;
    StartSound(h, all);
    RunSound(h, START, run, map[], all);
    RunKeepsAllHashed(h, START, run);
    var t, offers := Final(h, START, run).db, Recalled(h, START, run, map[]);
    forall i | 0 <= i < |l| ensures l[i] in offers {
      var a := l[i];
      assert a in t.entries;
    }
  }

  /** The trim at the end leaves the entries that are not victims. */
  lemma TrimSelects(t: Tables, mid: seq<int>, max: nat)
    requires IsHistory(t.entries, mid)
    ensures
      var r := Without(t, Victims(t.entries, max));
      IsHistory(r.entries, Select(mid, r.entries.Keys))
  {
    var r := Without(t, Victims(t.entries, max));
    SelectIsHistory(t.entries, mid, r.entries.Keys);
    assert Only(t.entries, r.entries.Keys) == r.entries;
  }

  /** The history before the trim: the front entry stays, an older one moves up, or a new one comes first. */
  ghost function Middle(c: Config, h: Hash, s: State, items: seq<Item>, now: int, l: seq<int>): seq<int> {
    Replica.Replay(l, SelectionEvents(c, h, s, Offer(items, false, false), now))
  }

  /**
   * What copying some items does after a run: the old contents with those items moved or pushed
   * to the front are left, less the entries trimmed. Nothing but the trim happens when they were
   * at the front already; and no row is added when they were further back.
   */
  ghost predicate Moved(h: Hash, run: seq<Tick>, c: Config, now: int, items: seq<Item>, l: seq<int>, after: seq<int>) {
    var s, offers := Final(h, START, run), Recalled(h, START, run, map[]);
    var offer := Offer(items, false, false);
    var known := Recall(h, s, Tick(c, now, Selection(offer), []), offers);
    var r, mid := Selected(c, h, s, offer, now).db, Middle(c, h, s, items, now, l);
    && Stored(s.db, offers, l) && Stored(r, known, after)
    && |ToFront(ContentsOf(l, offers), items)| == |mid|
    && after == Select(mid, r.entries.Keys)
    && ContentsOf(after, known) == KeptAt(ToFront(ContentsOf(l, offers), items), mid, r.entries.Keys)
    && (l != [] && offers[l[0]] == items ==> r == Without(s.db, Victims(s.db.entries, c.maxEntries)))
    && (items in ContentsOf(l, offers) ==> r.entries.Keys <= s.db.entries.Keys && r.lastId == s.db.lastId)
  }

  /** After any run from an empty history with dedup "all" throughout, copying acts on a move-to-front list. */
  lemma CopyingMovesToFront(h: Hash, run: seq<Tick>, c: Config, now: int, items: seq<Item>, l: seq<int>, after: seq<int>)
    requires c.dedup == Everywhere && forall i :: 0 <= i < |run| ==> run[i].config.dedup == Everywhere
    requires items != [] && IsHistory(Final(h, START, run).db.entries, l)
    requires
      var t, offers := Final(h, START, run).db, Recalled(h, START, run, map[]);
      t.entries.Keys <= offers.Keys ==> Separated(h, t.entries, offers, items)
    requires IsHistory(Selected(c, h, Final(h, START, run), Offer(items, false, false), now).db.entries, after)
    ensures Moved(h, run, c, now, items, l, after)
  {
    var s, offers := Final(h, START, run), Recalled(h, START, run, map[]);
    var offer := Offer(items, false, false);
    var known := Recall(h, s, Tick(c, now, Selection(offer), []), offers);
    var mid := Middle(c, h, s, items, now, l);
    var t := Received(c, h, s, offer, now).db;
    Established(h, run, l);
    SelectionMovesToFront(c, h, s, offers, items, now, l);
    TrimSelects(t, mid, c.maxEntries);
    var kept := Selected(c, h, s, offer, now).db.entries.Keys;
    HistoryUnique(Selected(c, h, s, offer, now).db.entries, after, Select(mid, kept));
    ContentsSelected(mid, known, kept);
  }
}
