/**
 * The daemon object: the selection callback with its speculative transaction, and the
 * requests that change state, each carried out against the database and tied to the
 * state machine of History.
 */
module Daemon {
  import opened Common
  import opened Tables
  import opened Store
  import opened History
  import Replica

  // ---------------------------------------------------------------- the row in progress

  /** The speculative row does not change what the items put into the other two tables. */
  lemma {:induction false} IngestedFrame(h: Hash, t: Tables, id: int, items: seq<Item>, es: map<int, Entry>, last: int)
    ensures Ingested(h, t.(entries := es, lastId := last), id, items) ==
            Ingested(h, t, id, items).(entries := es, lastId := last)
  {
    if items != [] {
      IngestedFrame(h, t, id, items[..|items| - 1], es, last);
    }
  }

  ghost predicate InProgress(t: Tables, es: map<int, Entry>) {
    && es.Keys == t.entries.Keys + {t.lastId + 1}
    && (forall id :: id in t.entries ==> es[id] == t.entries[id])
    && es[t.lastId + 1].hash == None
    && es[t.lastId + 1].sortIndex == MaxSort(t.entries) + 1
  }

  lemma InsertedIsInProgress(t: Tables, now: int)
    requires IdsOk(t)
    ensures InProgress(t, Inserted(t, now).entries)
  {
  }

  /** The row in progress holds no hash, and counts as one row above every other. */
  lemma LookupDuring(t: Tables, es: map<int, Entry>, x: Digest)
    requires Wf(t) && InProgress(t, es)
    ensures Holder(es, x) == Holder(t.entries, x)
    ensures Holder(t.entries, x).Some? ==>
              var id := Holder(t.entries, x).value;
              id in es && |Above(es, id)| == |Above(t.entries, id)| + 1
    ensures forall id :: Holds(es, id, x) ==> Holder(t.entries, x) == Some(id)
  {
    forall id ensures Holds(es, id, x) <==> Holds(t.entries, id, x) {}
    if Holder(t.entries, x).Some? {
      var id := Holder(t.entries, x).value;
      var was, counted := Above(t.entries, id), Above(es, id);
      forall j ensures j in counted <==> j in was + {t.lastId + 1} {
        if j in t.entries { assert es[j] == t.entries[j]; }
      }
      assert counted == was + {t.lastId + 1};
    }
  }

  /** The entries of a commit, whose hash was freed only once its own row was there. */
  lemma CommittedEntries(t: Tables, x: Digest, now: int, content: Content)
    requires IdsOk(t)
    ensures
      var id := t.lastId + 1;
      var es := WithHash(NullHash(Inserted(t, now).entries, x), id, x);
      id in es &&
      es[id := es[id].(content := Some(content))]
      == NullHash(t.entries, x)[id := Entry(MaxSort(t.entries) + 1, now, now, false, Some(x), Some(content))]
  {
  }

  lemma CommittedIsAdded(h: Hash, t: Tables, items: seq<Item>, now: int, es: map<int, Entry>)
    requires IdsOk(t) && es == WithHash(NullHash(Inserted(t, now).entries, EntryHash(h, items)), t.lastId + 1, EntryHash(h, items))
    ensures
      var ins, id := Inserted(t, now), t.lastId + 1;
      id in es &&
      Ingested(h, ins, id, items).(entries := es[id := es[id].(content := Some(Chosen(items)))]) == Added(h, t, items, now)
  {
    var ins := Inserted(t, now);
    CommittedEntries(t, EntryHash(h, items), now, Chosen(items));
    IngestedFrame(h, t, ins.lastId, items, ins.entries, ins.lastId);
  }

  /** From state `s0` with log `e0` to `s1` with log `e1`: what `tick` does, and nothing else. */
  ghost predicate Does(h: Hash, s0: State, e0: seq<Event>, tick: Tick, s1: State, e1: seq<Event>) {
    Legal(h, s0, tick) && s1 == Next(h, s0, tick) && e1 == e0 + Emits(h, s0, tick)
  }

  class Daemon {
    const db: Database
    const config: Config
    const digest: Hash
    var current: int
    var cleared: bool
    var transient: seq<Item>
    var emitted: seq<Event>

    ghost function View(): State
      reads this, db
    {
      State(db.Rows(), current, cleared, transient)
    }

    ghost predicate Valid()
      reads this, db
    {
      config.maxEntries > 0 && Wf(db.Rows())
    }

    constructor (config: Config, digest: Hash)
      requires config.maxEntries > 0
      ensures Valid() && fresh(db) && View() == START && emitted == []
      ensures this.config == config && this.digest == digest
    {
      this.config, this.digest := config, digest;
      db := new Database();
      current, cleared, transient, emitted := -1, false, [], [];
    }

    method Emit(e: Event)
      modifies `emitted
      ensures emitted == old(emitted) + [e]
    {
      emitted := emitted + [e];
    }

    method Set(id: int)
      modifies `current, `cleared, `emitted
      ensures current == id && cleared == (old(cleared) || id == -1)
      ensures emitted == old(emitted) + StateEvents(old(current), id)
    {
      if current > 0 {
        Emit(EntryState(current, false));
      }
      current := id;
      if current == -1 {
        cleared := true;
      }
      if current > 0 {
        Emit(EntryState(current, true));
      }
    }

    method Update(id: int, now: int, pin: Option<bool>)
      modifies `emitted, db`entries
      ensures db.entries == Touched(old(db.entries), id, now, pin)
      ensures emitted == old(emitted) + [EntryUpdate(id, now, pin)]
    {
      db.UpdateEntry(id, now, pin);
      Emit(EntryUpdate(id, now, pin));
    }

    /** The receive loop: stores every item and folds it into the hash input and content type. */
    method Ingest(id: int, items: seq<Item>) returns (input: Bytes, content: Content)
      modifies db`mimes, db`data
      ensures db.Rows() == Ingested(digest, old(db.Rows()), id, items)
      ensures input == Fingerprint(digest, items) && content == Chosen(items)
    {
      input, content := [], Content(ContentKind.Unknown, []);
      for i := 0 to |items|
        invariant db.Rows() == Ingested(digest, old(db.Rows()), id, items[..i])
        invariant input == Fingerprint(digest, items[..i]) && content == Chosen(items[..i])
      {
        assert items[..i + 1][..i] == items[..i];
        var dataId := digest(Payload(items[i]));
        input := input + items[i].mime;
        input := input + dataId;
        db.NewMimeType(id, items[i].mime, dataId, items[i].data);
        var kind := KindOf(items[i].mime);
        if Rank(kind) > Rank(content.kind) {
          content := Content(kind, items[i].mime);
        }
        if content.kind == Text && PlainText(items[i].mime) {
          content := content.(mime := items[i].mime);
        }
      }
      assert items[..|items|] == items;
    }

    /**
     * The dedup switch, run inside the transaction: decides from positions that count the row
     * in progress what Judge decides from the history before the event.
     */
    method Deduplicate(x: Digest, ghost before: Tables) returns (ret: bool, ignore: bool, moved: bool, dup: int, oldPos: int)
      requires Wf(before) && InProgress(before, db.entries)
      modifies db`entries
      ensures
        match Judge(config.dedup, before.entries, x)
        case Fresh => ret && !ignore && !moved && db.entries == NullHash(old(db.entries), x)
        case Repeat => !ret && ignore && !moved
        case Move(id, p) => !ret && !ignore && moved && dup == id && oldPos == p
    {
      LookupDuring(before, db.entries, x);
      ret, ignore, moved, dup, oldPos := false, false, false, -1, -1;
      ghost var es := db.entries;
      match config.dedup
      case KeepAll =>
        ret := db.SetEntryHash(-1, x);
      case Previous =>
        var pos, id := db.EntryHashPos(x);
        if pos == -1 {
          assert NullHash(es, x) == es by { NoHolderNothingNulled(es, x); }
          ret := true;
        } else {
          pos := pos - 1;
          if pos == 0 {
            ignore := true;
          } else if pos > 0 {
            ret := db.SetEntryHash(-1, x);
          }
        }
      case Everywhere =>
        oldPos, dup := db.EntryHashPos(x);
        if oldPos == -1 {
          assert NullHash(es, x) == es by { NoHolderNothingNulled(es, x); }
          ret := true;
        } else {
          oldPos := oldPos - 1;
          if oldPos == 0 {
            ignore := true;
          } else {
            moved := true;
          }
        }
    }

    static lemma NoHolderNothingNulled(es: map<int, Entry>, x: Digest)
      requires Holder(es, x).None?
      ensures NullHash(es, x) == es
    {
      forall id | id in es ensures NullHash(es, x)[id] == es[id] {
        assert !Holds(es, id, x);
      }
    }

    /** Deduplicate, then give the hash to the row in progress; UNIQUE never refuses it. */
    method Settle(row: int, x: Digest, ghost before: Tables)
      returns (ret: bool, ignore: bool, moved: bool, dup: int, oldPos: int)
      requires Wf(before) && InProgress(before, db.entries) && row == before.lastId + 1
      modifies db`entries
      ensures
        match Judge(config.dedup, before.entries, x)
        case Fresh => ret && !ignore && !moved && db.entries == WithHash(NullHash(old(db.entries), x), row, x)
        case Repeat => !ret && ignore && !moved
        case Move(id, p) => !ret && !ignore && moved && dup == id && oldPos == p
    {
      ret, ignore, moved, dup, oldPos := Deduplicate(x, before);
      if ret {
        ret := db.SetEntryHash(row, x);
      }
    }

    /** Insert, receive, hash, deduplicate; commit or roll back. */
    method Record(offer: Offer, now: int) returns (ret: bool, ignore: bool, moved: bool, id: int, oldPos: int, content: Content)
      requires Valid() && !Ignorable(offer)
      modifies db
      ensures ret ==> id in db.entries
      ensures offer.failed ==> !ret && !ignore && !moved && db.Rows() == old(db.Rows())
      ensures !offer.failed ==>
                match Judge(config.dedup, old(db.entries), EntryHash(digest, offer.items))
                case Fresh =>
                  && ret && !ignore && !moved && id == old(db.lastId) + 1 && content == Chosen(offer.items)
                  && db.Rows().(entries := db.entries[id := db.entries[id].(content := Some(content))])
                     == Added(digest, old(db.Rows()), offer.items, now)
                case Repeat => !ret && ignore && !moved && db.Rows() == old(db.Rows())
                case Move(dup, p) => !ret && !ignore && moved && id == dup && oldPos == p && db.Rows() == old(db.Rows())
    {
      ghost var before := db.Rows();
      db.Begin();
      id := db.NewEntry(now);
      InsertedIsInProgress(before, now);
      ret, ignore, moved, oldPos := false, false, false, -1;
      var input;
      input, content := Ingest(id, offer.items);
      if !offer.failed {
        var x, row := digest(input), id;
        var dup;
        ret, ignore, moved, dup, oldPos := Settle(row, x, before);
        if ret {
          CommittedIsAdded(digest, before, offer.items, now, db.entries);
        }
        if moved {
          id := dup;
        }
      }
      if !ret {
        db.Rollback();
      }
    }

    /** The trim at the end of every selection event, with one entry_delete per row. */
    method TrimAndReport() returns (trimmed: seq<int>)
      modifies `emitted, db`entries, db`mimes, db`data
      ensures db.Rows() == Without(old(db.Rows()), Victims(old(db.entries), config.maxEntries))
      ensures Distinct(trimmed) && Elements(trimmed) == Victims(old(db.entries), config.maxEntries)
      ensures emitted == old(emitted) + Deletions(trimmed)
    {
      trimmed := db.Trim(config.maxEntries);
      for i := 0 to |trimmed|
        invariant db.Rows() == Without(old(db.Rows()), Victims(old(db.entries), config.maxEntries))
        invariant emitted == old(emitted) + Deletions(trimmed[..i])
      {
        Emit(EntryDelete(trimmed[i]));
        assert Deletions(trimmed[..i + 1]) == Deletions(trimmed[..i]) + [EntryDelete(trimmed[i])];
      }
      assert trimmed[..|trimmed|] == trimmed;
    }

    /** What follows the transaction: the move or the new entry is announced and set. */
    method Announce(ret: bool, ignore: bool, moved: bool, id: int, oldPos: int, content: Content, now: int)
      requires ret ==> id in db.entries
      modifies this, db`entries
      ensures transient == old(transient)
      ensures moved ==>
                && db.entries == Touched(Raised(old(db.entries), id), id, now, None)
                && emitted == old(emitted) + ([EntryUpdate(id, now, None), EntryMove(id, oldPos, 0)] + StateEvents(old(current), id))
                && current == id && cleared == (old(cleared) || id == -1)
      ensures !moved && ret ==>
                && db.entries == old(db.entries)[id := old(db.entries)[id].(content := Some(content))]
                && emitted == old(emitted) + ([EntryAdd(id)] + StateEvents(old(current), id))
                && current == id && cleared == (old(cleared) || id == -1)
      ensures !moved && !ret ==>
                && db.entries == old(db.entries) && emitted == old(emitted) && cleared == old(cleared)
                && current == if ignore then old(current) else -1
    {
      if moved {
        db.UpdateSortIndex(id);
        Update(id, now, None);
        Emit(EntryMove(id, oldPos, 0));
        Set(id);
      } else if ret {
        db.SaveContent(id, content);
        Emit(EntryAdd(id));
        Set(id);
      } else if !ignore {
        current := -1;
      }
    }

    /** Everything up to the trim. */
    method Receive(offer: Offer, now: int)
      requires Valid() && !Ignorable(offer) && !offer.transient
      modifies this, db
      ensures View() == Received(config, digest, old(View()), offer, now)
      ensures emitted == old(emitted) + SelectionEvents(config, digest, old(View()), offer, now)
    {
      transient := [];
      ghost var x := EntryHash(digest, offer.items);
      ghost var verdict := Judge(config.dedup, db.entries, x);
      var ret, ignore, moved, id, oldPos, content := Record(offer, now);
      Announce(ret, ignore, moved, id, oldPos, content, now);
      if !offer.failed {
        match verdict {
          case Fresh => assert db.Rows() == Added(digest, old(db.Rows()), offer.items, now);
          case Repeat =>
          case Move(dup, p) => assert db.Rows() == MovedUp(old(db.Rows()), dup, now);
        }
      }
    }

    method ReceiveAndTrim(offer: Offer, now: int) returns (trimmed: seq<int>)
      requires Valid() && !Ignorable(offer) && !offer.transient
      modifies this, db
      ensures View() == Trimmed(config, Received(config, digest, old(View()), offer, now))
      ensures Distinct(trimmed)
      ensures Elements(trimmed) == Victims(Received(config, digest, old(View()), offer, now).db.entries, config.maxEntries)
      ensures emitted == old(emitted) + (SelectionEvents(config, digest, old(View()), offer, now) + Deletions(trimmed))
    {
      Receive(offer, now);
      ghost var mid := View();
      trimmed := TrimAndReport();
      assert View() == Trimmed(config, mid);
    }

    /** The selection callback. */
    method OnSelection(offer: Offer, now: int) returns (trimmed: seq<int>)
      requires Valid()
      modifies this, db
      ensures Valid()
      ensures Does(digest, old(View()), old(emitted), Tick(config, now, Selection(offer), trimmed), View(), emitted)
    {
      trimmed := [];
      assert Elements(trimmed) == {};
      assert Deletions(trimmed) == [];
      Replica.StepKeepsWf(digest, View(), Tick(config, now, Selection(offer), []));
      if |offer.items| == 0 && !offer.failed {
        return;
      }
      transient := [];
      if offer.transient {
        current := -1;
        if !offer.failed {
          transient := offer.items;
          Set(0);
        }
        return;
      }
      trimmed := ReceiveAndTrim(offer, now);
    }

    // -------------------------------------------------------- requests

    method OnSetClipboard(id: int, now: int) returns (reply: Reply)
      requires Valid()
      modifies this, db
      ensures Valid() && reply == Answer(old(View()), SetClipboard(id))
      ensures Does(digest, old(View()), old(emitted), Tick(config, now, SetClipboard(id), []), View(), emitted)
    {
      Replica.StepKeepsWf(digest, View(), Tick(config, now, SetClipboard(id), []));
      assert Elements<int>([]) == {} && Deletions([]) == [];
      if id != -1 {
        var found := db.IdExists(id);
        if !found {
          return NoSuchEntry;
        }
      }
      Set(id);
      Update(id, now, None);
      return Success;
    }

    method OnDelete(id: int, now: int) returns (reply: Reply)
      requires Valid()
      modifies this, db
      ensures Valid() && reply == Answer(old(View()), DeleteEntry(id))
      ensures Does(digest, old(View()), old(emitted), Tick(config, now, DeleteEntry(id), []), View(), emitted)
    {
      Replica.StepKeepsWf(digest, View(), Tick(config, now, DeleteEntry(id), []));
      assert Elements<int>([]) == {} && Deletions([]) == [];
      if id == -1 {
        db.Clear();
      } else {
        var found := db.IdExists(id);
        if !found {
          return NoSuchEntry;
        }
        db.DeleteEntry(id);
      }
      if id == -1 || id == current {
        current := -1;
        Set(-1);
      }
      Emit(EntryDelete(id));
      return Success;
    }

    method OnPin(id: int, mode: PinMode, now: int) returns (reply: Reply)
      requires Valid()
      modifies this, db
      ensures Valid() && reply == Answer(old(View()), PinEntry(id, mode))
      ensures Does(digest, old(View()), old(emitted), Tick(config, now, PinEntry(id, mode), []), View(), emitted)
    {
      Replica.StepKeepsWf(digest, View(), Tick(config, now, PinEntry(id, mode), []));
      assert Elements<int>([]) == {} && Deletions([]) == [];
      var found := db.IdExists(id);
      if !found {
        return NoSuchEntry;
      }
      var pin;
      if mode == Yes {
        pin := true;
      } else if mode == No {
        pin := false;
      } else if mode == Toggle {
        pin := !db.entries[id].pinned;
      } else {
        return InvalidArguments;
      }
      Update(id, now, Some(pin));
      return Success;
    }
  }
}
