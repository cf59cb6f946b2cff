/**
 * What every run keeps: the constraints of the tables, and that a client which
 * replays the announced events holds the history list of the database.
 */
module Replica {
  import opened Common
  import opened Tables
  import opened History

  // ---------------------------------------------------------------- constraints

  lemma IngestedKeeps(h: Hash, t: Tables, id: int, items: seq<Item>)
    requires forall k :: k in t.mimes && t.mimes[k].Some? ==> t.mimes[k].value in t.data
    ensures
      var r := Ingested(h, t, id, items);
      && r.entries == t.entries && r.lastId == t.lastId
      && (forall k :: k in r.mimes ==> k in t.mimes || k.0 == id)
      && (forall k :: k in t.mimes ==> k in r.mimes && r.mimes[k] == t.mimes[k])
      && (forall d :: d in t.data ==> d in r.data && r.data[d] == t.data[d])
      && (forall k :: k in r.mimes && r.mimes[k].Some? ==> r.mimes[k].value in r.data)
  {
    if items != [] {
      var n := |items| - 1;
      IngestedKeeps(h, t, id, items[..n]);
    }
  }

  lemma FrontRowKeepsOrder(es: map<int, Entry>, id: int, x: Digest, row: Entry)
    requires SortOk(es) && HashOk(es) && id !in es
    requires row.sortIndex == MaxSort(es) + 1 && row.hash == Some(x)
    ensures SortOk(NullHash(es, x)[id := row]) && HashOk(NullHash(es, x)[id := row])
  {
    assert MaxSort(es) >= 0;
  }

  lemma AddedKeepsWf(h: Hash, t: Tables, items: seq<Item>, now: int)
    requires Wf(t)
    ensures Wf(Added(h, t, items, now))
  {
    var id, x := t.lastId + 1, EntryHash(h, items);
    var r := Added(h, t, items, now);
    IngestedKeeps(h, t, id, items);
    FrontRowKeepsOrder(t.entries, id, x, r.entries[id]);
    assert r.entries == NullHash(t.entries, x)[id := r.entries[id]];
    assert IdsOk(r) && ReferencesOk(r);
  }

  lemma WithoutKeepsWf(t: Tables, ids: set<int>)
    requires Wf(t)
    ensures Wf(Without(t, ids))
  {
    var r := Without(t, ids);
    forall k | k in r.mimes && r.mimes[k].Some? ensures r.mimes[k].value in r.data {
      assert Refers(t, k, t.mimes[k].value);
    }
  }

  lemma MovedUpKeepsWf(t: Tables, id: int, now: int)
    requires Wf(t)
    ensures Wf(MovedUp(t, id, now))
  {
    var up := Raised(t.entries, id);
    assert SortOk(up);
    assert up.Keys == t.entries.Keys;
    assert MovedUp(t, id, now).entries.Keys == t.entries.Keys;
  }

  lemma TouchedKeepsWf(t: Tables, id: int, now: int, pin: Option<bool>)
    requires Wf(t)
    ensures Wf(t.(entries := Touched(t.entries, id, now, pin)))
  {
    assert Touched(t.entries, id, now, pin).Keys == t.entries.Keys;
  }

  lemma ReceivedKeepsWf(c: Config, h: Hash, s: State, offer: Offer, now: int)
    requires Wf(s.db)
    ensures Wf(Received(c, h, s, offer, now).db)
  {
    if !offer.failed {
      match Judge(c.dedup, s.db.entries, EntryHash(h, offer.items))
      case Repeat =>
      case Move(id, _) => MovedUpKeepsWf(s.db, id, now);
      case Fresh => AddedKeepsWf(h, s.db, offer.items, now);
    }
  }

  /** Every step keeps the uniqueness, positivity and foreign-key constraints. */
  lemma StepKeepsWf(h: Hash, s: State, tick: Tick)
    requires Wf(s.db)
    ensures Wf(Next(h, s, tick).db)
  {
    match tick.action
    case Selection(offer) =>
      if !Ignorable(offer) && !offer.transient {
        var r := Received(tick.config, h, s, offer, tick.now);
        ReceivedKeepsWf(tick.config, h, s, offer, tick.now);
        WithoutKeepsWf(r.db, Victims(r.db.entries, tick.config.maxEntries));
      }
    case SetClipboard(id) => TouchedKeepsWf(s.db, id, tick.now, None);
    case DeleteEntry(id) => WithoutKeepsWf(s.db, if id == -1 then s.db.entries.Keys else {id});
    case PinEntry(id, mode) =>
      if Known(s, id) {
        TouchedKeepsWf(s.db, id, tick.now, Some(PinValue(s, id, mode)));
      }
  }

  // ---------------------------------------------------------------- the client

  function Erase(l: seq<int>, id: int): seq<int> {
    if l == [] then []
    else if l[0] == id then Erase(l[1..], id)
    else [l[0]] + Erase(l[1..], id)
  }

  function Relocate(l: seq<int>, from: int, to: int): seq<int> {
    if 0 <= from < |l| && 0 <= to < |l| then
      var rest := l[..from] + l[from + 1..];
      rest[..to] + [l[from]] + rest[to..]
    else l
  }

  /** How a client updates its list; positions are used as announced, ids are not looked up. */
  function Replay1(l: seq<int>, e: Event): seq<int> {
    match e
    case EntryAdd(id) => [id] + l
    case EntryMove(_, oldPos, newPos) => Relocate(l, oldPos, newPos)
    case EntryDelete(id) => if id == -1 then [] else Erase(l, id)
    case _ => l
  }

  function Replay(l: seq<int>, log: seq<Event>): seq<int>
    decreases |log|
  {
    if log == [] then l else Replay(Replay1(l, log[0]), log[1..])
  }

  lemma {:induction false} ReplayConcat(l: seq<int>, a: seq<Event>, b: seq<Event>)
    ensures Replay(l, a + b) == Replay(Replay(l, a), b)
    decreases |a|
  {
    if a == [] {
      assert a + b == b;
    } else {
      assert (a + b)[1..] == a[1..] + b;
      ReplayConcat(Replay1(l, a[0]), a[1..], b);
    }
  }

  // ---------------------------------------------------------------- order lemmas

  ghost predicate SameOrder(es: map<int, Entry>, fs: map<int, Entry>) {
    es.Keys == fs.Keys && forall id :: id in es ==> es[id].sortIndex == fs[id].sortIndex
  }

  lemma {:induction false} EraseElements(l: seq<int>, id: int, x: int)
    ensures x in Erase(l, id) <==> x in l && x != id
  {
    if l != [] {
      EraseElements(l[1..], id, x);
      assert l == [l[0]] + l[1..];
    }
  }

  ghost predicate Descending(es: map<int, Entry>, l: seq<int>) {
    && (forall i :: 0 <= i < |l| ==> l[i] in es)
    && (forall i, j :: 0 <= i < j < |l| ==> es[l[i]].sortIndex > es[l[j]].sortIndex)
  }

  /** Erasing an id keeps the order of the others. */
  lemma {:induction false} EraseOrder(es: map<int, Entry>, l: seq<int>, id: int)
    requires Descending(es, l)
    ensures Descending(es, Erase(l, id))
  {
    if l != [] {
      var tail := l[1..];
      assert Descending(es, tail);
      var t := Erase(tail, id);
      EraseOrder(es, tail, id);
      forall j | 0 <= j < |t| ensures es[l[0]].sortIndex > es[t[j]].sortIndex {
        assert t[j] in t;
        EraseElements(tail, id, t[j]);
        var i :| 0 <= i < |tail| && tail[i] == t[j];
        assert l[i + 1] == t[j];
      }
    }
  }

  lemma DeleteOne(es: map<int, Entry>, l: seq<int>, id: int)
    requires IsHistory(es, l)
    ensures IsHistory(es - {id}, Erase(l, id))
  {
    assert Descending(es, l);
    EraseOrder(es, l, id);
    var r := Erase(l, id);
    forall i | 0 <= i < |r| ensures r[i] in es - {id} {
      assert r[i] in r;
      EraseElements(l, id, r[i]);
    }
    forall x | x in es - {id} ensures x in r {
      EraseElements(l, id, x);
    }
  }

  lemma {:induction false} DeleteMany(es: map<int, Entry>, l: seq<int>, ids: seq<int>)
    requires IsHistory(es, l) && -1 !in ids
    ensures IsHistory(es - Elements(ids), Replay(l, Deletions(ids)))
    decreases |ids|
  {
    if ids == [] {
      assert es - Elements(ids) == es;
    } else {
      DeleteOne(es, l, ids[0]);
      var rest := es - {ids[0]};
      DeleteMany(rest, Erase(l, ids[0]), ids[1..]);
      assert Deletions(ids)[0] == EntryDelete(ids[0]);
      assert Deletions(ids)[1..] == Deletions(ids[1..]);
      assert rest - Elements(ids[1..]) == es - Elements(ids) by {
        assert Elements(ids) == {ids[0]} + Elements(ids[1..]);
      }
    }
  }

  lemma PushFront(es: map<int, Entry>, fs: map<int, Entry>, l: seq<int>, id: int)
    requires IsHistory(es, l) && id !in es
    requires fs.Keys == es.Keys + {id}
    requires forall j :: j in es ==> fs[j].sortIndex == es[j].sortIndex
    requires fs[id].sortIndex > MaxSort(es)
    ensures IsHistory(fs, [id] + l)
  {
    var m := [id] + l;
    forall j | j in fs ensures j in m {
      if j != id { assert j in l; }
    }
    forall i, j | 0 <= i < j < |m| ensures fs[m[i]].sortIndex > fs[m[j]].sortIndex {
      assert m[j] == l[j - 1] && l[j - 1] in es;
      if i > 0 { assert m[i] == l[i - 1] && l[i - 1] in es; }
    }
  }

  lemma RelocateFront(l: seq<int>, p: nat)
    requires p < |l|
    ensures
      var m := Relocate(l, p, 0);
      |m| == |l| && m[0] == l[p]
      && (forall i :: 0 < i <= p ==> m[i] == l[i - 1])
      && (forall i :: p < i < |l| ==> m[i] == l[i])
  {
    assert Relocate(l, p, 0) == [l[p]] + (l[..p] + l[p + 1..]);
  }

  lemma MoveFrontKeeps(l: seq<int>, p: nat, x: int)
    requires p < |l| && x in l
    ensures x in Relocate(l, p, 0)
  {
    RelocateFront(l, p);
    var i :| 0 <= i < |l| && l[i] == x;
    assert Relocate(l, p, 0)[if i == p then 0 else if i < p then i + 1 else i] == x;
  }

  lemma MoveFrontOrder(es: map<int, Entry>, fs: map<int, Entry>, l: seq<int>, p: nat, i: nat, j: nat)
    requires IsHistory(es, l) && p < |l| && i < j < |l|
    requires fs.Keys == es.Keys
    requires forall k :: k in es && k != l[p] ==> fs[k].sortIndex == es[k].sortIndex
    requires fs[l[p]].sortIndex > MaxSort(es)
    ensures
      var m := Relocate(l, p, 0);
      |m| == |l| && m[i] in fs && m[j] in fs && fs[m[i]].sortIndex > fs[m[j]].sortIndex
  {
    RelocateFront(l, p);
    var m := Relocate(l, p, 0);
    var y := if j <= p then j - 1 else j;
    assert m[j] == l[y] && es[l[y]].sortIndex <= MaxSort(es);
    assert l[y] != l[p];
    if i > 0 {
      var x := if i <= p then i - 1 else i;
      assert m[i] == l[x];
      assert l[x] != l[p];
    }
  }

  lemma MoveFront(es: map<int, Entry>, fs: map<int, Entry>, l: seq<int>, p: nat)
    requires IsHistory(es, l) && p < |l|
    requires fs.Keys == es.Keys
    requires forall k :: k in es && k != l[p] ==> fs[k].sortIndex == es[k].sortIndex
    requires fs[l[p]].sortIndex > MaxSort(es)
    ensures IsHistory(fs, Relocate(l, p, 0))
  {
    var m := Relocate(l, p, 0);
    forall j | j in fs ensures j in m {
      MoveFrontKeeps(l, p, j);
    }
    assert |m| == |l| by { RelocateFront(l, p); }
    forall i | 0 <= i < |m| ensures m[i] in fs {
      if i == 0 { RelocateFront(l, p); } else { MoveFrontOrder(es, fs, l, p, 0, i); }
    }
    forall i, j | 0 <= i < j < |m| ensures fs[m[i]].sortIndex > fs[m[j]].sortIndex {
      MoveFrontOrder(es, fs, l, p, i, j);
    }
  }

  // ---------------------------------------------------------------- the theorem

  lemma NoEventMovesState(l: seq<int>, before: int, after: int)
    ensures Replay(l, StateEvents(before, after)) == l
  {
    var a, b := if before > 0 then [EntryState(before, false)] else [], if after > 0 then [EntryState(after, true)] else [];
    assert StateEvents(before, after) == a + b;
    ReplayConcat(l, a, b);
  }

  /** The announced old position is the index, in the client's list, of the entry that moves. */
  lemma MovePosition(dedup: Dedup, es: map<int, Entry>, x: Digest, l: seq<int>)
    requires IsHistory(es, l) && Judge(dedup, es, x).Move?
    ensures
      var v := Judge(dedup, es, x);
      0 < v.oldPos < |l| && l[v.oldPos] == v.id && Holds(es, v.id, x)
  {
    var v := Judge(dedup, es, x);
    var i := PositionOf(es, l, v.id);
    PositionIsIndex(es, l, i);
    assert |Above(es, v.id)| > 0;
  }

  lemma MoveEvents(l: seq<int>, id: int, pos: nat, now: int, current: int)
    ensures Replay(l, [EntryUpdate(id, now, None), EntryMove(id, pos, 0)] + StateEvents(current, id)) == Relocate(l, pos, 0)
  {
    var first := [EntryUpdate(id, now, None), EntryMove(id, pos, 0)];
    ReplayConcat(l, first, StateEvents(current, id));
    assert first[1..] == [EntryMove(id, pos, 0)] && first[1..][1..] == [];
    NoEventMovesState(Relocate(l, pos, 0), current, id);
  }

  lemma MovedUpMoves(t: Tables, id: int, pos: nat, now: int, l: seq<int>)
    requires IsHistory(t.entries, l) && pos < |l| && l[pos] == id && id in t.entries
    ensures IsHistory(MovedUp(t, id, now).entries, Relocate(l, pos, 0))
  {
    MoveFront(t.entries, MovedUp(t, id, now).entries, l, pos);
  }

  lemma MoveReplays(s: State, id: int, pos: nat, now: int, l: seq<int>)
    requires IsHistory(s.db.entries, l) && pos < |l| && l[pos] == id && id in s.db.entries
    ensures IsHistory(MovedUp(s.db, id, now).entries,
                      Replay(l, [EntryUpdate(id, now, None), EntryMove(id, pos, 0)] + StateEvents(s.current, id)))
  {
    MoveEvents(l, id, pos, now, s.current);
    MovedUpMoves(s.db, id, pos, now, l);
  }

  lemma AddEvents(l: seq<int>, id: int, current: int)
    ensures Replay(l, [EntryAdd(id)] + StateEvents(current, id)) == [id] + l
  {
    ReplayConcat(l, [EntryAdd(id)], StateEvents(current, id));
    assert Replay(l, [EntryAdd(id)]) == [id] + l;
    NoEventMovesState([id] + l, current, id);
  }

  lemma AddReplays(h: Hash, s: State, items: seq<Item>, now: int, l: seq<int>)
    requires Wf(s.db) && IsHistory(s.db.entries, l)
    ensures IsHistory(Added(h, s.db, items, now).entries,
                      Replay(l, [EntryAdd(s.db.lastId + 1)] + StateEvents(s.current, s.db.lastId + 1)))
  {
    AddEvents(l, s.db.lastId + 1, s.current);
    PushFront(s.db.entries, Added(h, s.db, items, now).entries, l, s.db.lastId + 1);
  }

  lemma MovedReplays(c: Config, h: Hash, s: State, offer: Offer, now: int, l: seq<int>)
    requires Wf(s.db) && IsHistory(s.db.entries, l)
    requires !Ignorable(offer) && !offer.transient && !offer.failed
    requires Judge(c.dedup, s.db.entries, EntryHash(h, offer.items)).Move?
    ensures IsHistory(Received(c, h, s, offer, now).db.entries, Replay(l, SelectionEvents(c, h, s, offer, now)))
  {
    var v := Judge(c.dedup, s.db.entries, EntryHash(h, offer.items));
    MovePosition(c.dedup, s.db.entries, EntryHash(h, offer.items), l);
    MoveReplays(s, v.id, v.oldPos, now, l);
  }

  lemma AddedReplays(c: Config, h: Hash, s: State, offer: Offer, now: int, l: seq<int>)
    requires Wf(s.db) && IsHistory(s.db.entries, l)
    requires !Ignorable(offer) && !offer.transient && !offer.failed
    requires Judge(c.dedup, s.db.entries, EntryHash(h, offer.items)).Fresh?
    ensures IsHistory(Received(c, h, s, offer, now).db.entries, Replay(l, SelectionEvents(c, h, s, offer, now)))
  {
    AddReplays(h, s, offer.items, now, l);
  }

  lemma SelectionReplays(c: Config, h: Hash, s: State, offer: Offer, now: int, l: seq<int>)
    requires Wf(s.db) && IsHistory(s.db.entries, l)
    requires !Ignorable(offer) && !offer.transient
    ensures IsHistory(Received(c, h, s, offer, now).db.entries, Replay(l, SelectionEvents(c, h, s, offer, now)))
  {
    if !offer.failed {
      var v := Judge(c.dedup, s.db.entries, EntryHash(h, offer.items));
      if v.Move? {
        MovedReplays(c, h, s, offer, now, l);
      } else if v.Fresh? {
        AddedReplays(c, h, s, offer, now, l);
      }
    }
  }

  lemma SameOrderHistory(es: map<int, Entry>, fs: map<int, Entry>, l: seq<int>)
    requires IsHistory(es, l) && SameOrder(es, fs)
    ensures IsHistory(fs, l)
  {
    forall id | id in fs ensures id in l {
      assert id in es;
    }
    forall i, j | 0 <= i < j < |l| ensures fs[l[i]].sortIndex > fs[l[j]].sortIndex {
      var a, b := l[i], l[j];
      assert a in es && b in es && es[a].sortIndex > es[b].sortIndex;
    }
  }

  lemma RequestReplays(h: Hash, s: State, tick: Tick, l: seq<int>)
    requires IsHistory(s.db.entries, l) && IdsOk(s.db) && !tick.action.Selection?
    ensures IsHistory(Next(h, s, tick).db.entries, Replay(l, RequestEvents(s, tick.action, tick.now)))
  {
    var next := Next(h, s, tick);
    if Answer(s, tick.action) == Success {
      match tick.action
      case SetClipboard(id) =>
        ReplayConcat(l, StateEvents(s.current, id), [EntryUpdate(id, tick.now, None)]);
        NoEventMovesState(l, s.current, id);
        SameOrderHistory(s.db.entries, next.db.entries, l);
      case DeleteEntry(id) =>
        if id == -1 {
          assert next.db.entries == map[];
          assert Replay(l, [EntryDelete(id)]) == [];
        } else {
          DeleteOne(s.db.entries, l, id);
          assert Replay(l, [EntryDelete(id)]) == Erase(l, id);
        }
      case PinEntry(id, mode) =>
        SameOrderHistory(s.db.entries, next.db.entries, l);
    }
  }

  /** One step: replaying what it announces turns the old history list into the new one. */
  lemma StepReplays(h: Hash, s: State, tick: Tick, l: seq<int>)
    requires Wf(s.db) && IsHistory(s.db.entries, l) && Legal(h, s, tick)
    ensures IsHistory(Next(h, s, tick).db.entries, Replay(l, Emits(h, s, tick)))
  {
    match tick.action
    case Selection(offer) =>
      var first := SelectionEvents(tick.config, h, s, offer, tick.now);
      ReplayConcat(l, first, Deletions(tick.trimmed));
      if Ignorable(offer) || offer.transient {
        ElementsOf(tick.trimmed, 0);
      } else {
        SelectionReplays(tick.config, h, s, offer, tick.now, l);
        var r := Received(tick.config, h, s, offer, tick.now);
        ReceivedKeepsWf(tick.config, h, s, offer, tick.now);
        ElementsOf(tick.trimmed, -1);
        DeleteMany(r.db.entries, Replay(l, first), tick.trimmed);
      }
    case _ =>
      RequestReplays(h, s, tick, l);
      ElementsOf(tick.trimmed, 0);
      assert Emits(h, s, tick) == RequestEvents(s, tick.action, tick.now);
  }

  /**
   * Every run, from any well-formed database and whatever the configuration of each step:
   * the client's replay of the event log is the history list, and the constraints still hold.
   */
  lemma {:induction false} RunReplays(h: Hash, s: State, run: seq<Tick>, l: seq<int>)
    requires Wf(s.db) && IsHistory(s.db.entries, l) && LegalRun(h, s, run)
    ensures Wf(Final(h, s, run).db)
    ensures IsHistory(Final(h, s, run).db.entries, Replay(l, Log(h, s, run)))
    decreases |run|
  {
    if run != [] {
      var next := Next(h, s, run[0]);
      StepKeepsWf(h, s, run[0]);
      StepReplays(h, s, run[0], l);
      RunReplays(h, next, run[1..], Replay(l, Emits(h, s, run[0])));
      ReplayConcat(l, Emits(h, s, run[0]), Log(h, next, run[1..]));
    }
  }
}
