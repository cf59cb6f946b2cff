/**
 * The database object: every prepared statement is a method that updates the
 * tables in place, runs the triggers row by row, and is tied to the table
 * function it stands for.
 */
module Store {
  import opened Common
  import opened Tables

  /** Data rows left once only the Mime_types rows of `now` are there, of those of `before`. */
  ghost function Collected(before: map<(int, Mime), Option<Digest>>,
                           now: map<(int, Mime), Option<Digest>>,
                           data: map<Digest, Bytes>): map<Digest, Bytes>
  {
    map d | d in data
            && ((exists k :: k in before && before[k] == Some(d)) ==>
                (exists k :: k in now && now[k] == Some(d))) :: data[d]
  }

  /** Deleting one Mime_types row and firing del_data_row keeps exactly the Data rows owed. */
  lemma CollectedStep(before: map<(int, Mime), Option<Digest>>,
                      now: map<(int, Mime), Option<Digest>>,
                      data: map<Digest, Bytes>, k: (int, Mime))
    requires k in now && now.Keys <= before.Keys
    requires forall j :: j in now ==> now[j] == before[j]
    ensures
      var next := now - {k};
      Collected(before, next, data) ==
      if now[k].Some? && !(exists j :: j in next && next[j] == now[k])
      then Collected(before, now, data) - {now[k].value}
      else Collected(before, now, data)
  {
    var next := now - {k};
    var was, left := Collected(before, now, data), Collected(before, next, data);
    forall d | d in data
      ensures d in left <==> d in was && (now[k] == Some(d) ==> exists j :: j in next && next[j] == now[k])
    {
      if d in was && now[k] != Some(d) {
        if exists j :: j in now && now[j] == Some(d) {
          var j :| j in now && now[j] == Some(d);
          assert j in next;
        }
      }
      if d in left {
        if exists j :: j in next && next[j] == Some(d) {
          var j :| j in next && next[j] == Some(d);
          assert j in now;
        }
      }
      if now[k] == Some(d) { assert k in before && before[k] == Some(d); }
    }
  }

  /** Once all rows of `ids` are gone, the collector has removed exactly the orphans. */
  lemma CollectedIsWithout(t: Tables, ids: set<int>, now: map<(int, Mime), Option<Digest>>)
    requires now == map k | k in t.mimes && k.0 !in ids :: t.mimes[k]
    ensures Collected(t.mimes, now, t.data) == Without(t, ids).data
  {
    forall d | d in t.data
      ensures d in Collected(t.mimes, now, t.data) <==> !Orphaned(t, ids, d)
    {
      if exists j :: j in now && now[j] == Some(d) {
        var j :| j in now && now[j] == Some(d);
        assert Refers(t, j, d);
      }
      if !Orphaned(t, ids, d) && exists k :: k in t.mimes && t.mimes[k] == Some(d) {
        var k :| k in t.mimes && t.mimes[k] == Some(d);
        assert Refers(t, k, d);
        var j :| Refers(t, j, d) && j.0 !in ids;
        assert j in now && now[j] == Some(d);
      }
    }
  }

  lemma NonEmpty(s: set<int>)
    requires s != {}
    ensures exists x :: x in s
  {
    assert (forall x :: x !in s) ==> s == {};
  }

  /** The rows LIMIT n OFFSET start picks; SQLite reads a negative limit as none. */
  function Page(l: seq<int>, start: int, n: int): seq<int> {
    var from := if start < 0 then 0 else if start > |l| then |l| else start;
    var to := if n < 0 || from + n > |l| then |l| else from + n;
    l[from..to]
  }

  /** Skipping the `max` greatest unpinned ids, or all of them, leaves the victims of a trim. */
  lemma OffsetSplits(es: map<int, Entry>, kept: set<int>, ids: set<int>, max: nat)
    requires kept !! ids && kept + ids == Unpinned(es)
    requires |kept| <= max && (|kept| == max || ids == {})
    requires forall x, y :: x in kept && y in ids ==> x > y
    ensures ids == Victims(es, max)
  {
    forall id | id in Unpinned(es)
      ensures |Newer(es, id)| >= max <==> id in ids
    {
      if id in ids {
        SubsetCardinality(kept, Newer(es, id));
      } else {
        assert Newer(es, id) <= kept - {id};
        SubsetCardinality(Newer(es, id), kept - {id});
      }
    }
  }

  class Database {
    var entries: map<int, Entry>
    var mimes: map<(int, Mime), Option<Digest>>
    var data: map<Digest, Bytes>
    var lastId: int
    var journal: Tables

    ghost function Rows(): Tables
      reads this
    {
      Tables(entries, mimes, data, lastId)
    }

    constructor ()
      ensures Rows() == EMPTY
    {
      entries, mimes, data, lastId := map[], map[], map[], 0;
      journal := EMPTY;
    }

    // -------------------------------------------------------- transactions

    method Begin()
      modifies `journal
      ensures journal == Rows()
    {
      journal := Tables(entries, mimes, data, lastId);
    }

    method Rollback()
      modifies this
      ensures Rows() == old(journal)
    {
      entries, mimes, data, lastId := journal.entries, journal.mimes, journal.data, journal.lastId;
    }

    // -------------------------------------------------------- inserts

    method MaxSortIndex(es: map<int, Entry>) returns (m: int)
      ensures m == MaxSort(es)
    {
      m := 0;
      var seen: set<int>, rest := {}, es.Keys;
      while rest != {}
        invariant seen + rest == es.Keys
        invariant forall id :: id in seen ==> es[id].sortIndex <= m
        invariant seen == {} ==> m == 0
        invariant seen != {} ==> exists id :: id in es && es[id].sortIndex == m
        decreases rest
      {
        NonEmpty(rest);
        var id :| id in rest;
        if seen == {} || es[id].sortIndex > m {
          m := es[id].sortIndex;
        }
        seen, rest := seen + {id}, rest - {id};
      }
      assert seen == es.Keys;
    }

    /** INSERT, then the AFTER INSERT trigger that replaces the default Sort_index 0. */
    method NewEntry(now: int) returns (id: int)
      modifies `entries, `lastId
      ensures id == old(lastId) + 1
      ensures Rows() == Inserted(old(Rows()), now)
    {
      id := lastId + 1;
      lastId := id;
      var others := entries;
      var row := Entry(0, now, now, false, None, None);
      if row.sortIndex == 0 {
        var m := MaxSortIndex(others);
        row := row.(sortIndex := m + 1);
      }
      entries := others[id := row];
    }

    method NewData(digest: Digest, bytes: Bytes)
      modifies `data
      ensures data == if digest in old(data) then old(data) else old(data)[digest := bytes]
    {
      if digest !in data {
        data := data[digest := bytes];
      }
    }

    method NewMimeType(id: int, mime: Mime, digest: Digest, bytes: Option<Bytes>)
      modifies `mimes, `data
      ensures Rows() == WithMime(old(Rows()), id, mime, digest, bytes)
    {
      if bytes.Some? {
        NewData(digest, bytes.value);
      }
      if (id, mime) !in mimes {
        mimes := mimes[(id, mime) := if bytes.Some? then Some(digest) else None];
      }
    }

    // -------------------------------------------------------- deletes

    /** One row of Mime_types goes; the trigger drops its Data row when nothing else refers to it. */
    method DeleteMime(k: (int, Mime))
      requires k in mimes
      modifies `mimes, `data
      ensures mimes == old(mimes) - {k}
      ensures data ==
              if old(mimes)[k].Some? && !(exists j :: j in mimes && mimes[j] == old(mimes)[k])
              then old(data) - {old(mimes)[k].value}
              else old(data)
    {
      var d := mimes[k];
      mimes := mimes - {k};
      if d.Some? && !(exists j :: j in mimes && mimes[j] == d) {
        data := data - {d.value};
      }
    }

    /** DELETE on Entries: the rows of `ids`, then ON DELETE CASCADE row by row. */
    method DeleteRows(ids: set<int>)
      modifies `entries, `mimes, `data
      ensures Rows() == Without(old(Rows()), ids)
    {
      entries := entries - ids;
      ghost var before, whole := mimes, data;
      var doomed := set k | k in mimes && k.0 in ids;
      while doomed != {}
        invariant entries == old(entries) - ids
        invariant doomed == set k | k in mimes && k.0 in ids
        invariant mimes.Keys <= before.Keys && forall k :: k in mimes ==> mimes[k] == before[k]
        invariant forall k :: k in before && k.0 !in ids ==> k in mimes
        invariant data == Collected(before, mimes, whole)
        decreases doomed
      {
        assert (forall d :: d !in doomed) ==> doomed == {};
        var k :| k in doomed;
        CollectedStep(before, mimes, whole, k);
        DeleteMime(k);
        doomed := doomed - {k};
      }
      assert forall k :: k in mimes ==> k !in doomed;
      assert mimes == map k | k in before && k.0 !in ids :: before[k];
      CollectedIsWithout(old(Rows()), ids, mimes);
      assert Rows() == Without(old(Rows()), ids);
    }

    method DeleteEntry(id: int)
      modifies `entries, `mimes, `data
      ensures Rows() == Without(old(Rows()), {id})
    {
      DeleteRows({id});
    }

    method Clear()
      modifies `entries, `mimes, `data
      ensures Rows() == Without(old(Rows()), old(entries).Keys)
    {
      DeleteRows(entries.Keys);
    }

    method Greatest(s: set<int>) returns (m: int)
      requires s != {}
      ensures m in s && forall x :: x in s ==> x <= m
    {
      NonEmpty(s);
      m :| m in s;
      var rest := s - {m};
      while rest != {}
        invariant m in s && rest <= s
        invariant forall x :: x in s && x !in rest ==> x <= m
        decreases rest
      {
        NonEmpty(rest);
        var x :| x in rest;
        if x > m { m := x; }
        rest := rest - {x};
      }
    }

    /** SELECT Id WHERE Pinned = 0 ORDER BY Id DESC LIMIT -1 OFFSET max. */
    method PastOffset(max: nat) returns (ids: set<int>)
      ensures ids == Victims(entries, max)
    {
      ids := set id | id in entries && !entries[id].pinned;
      ghost var kept: set<int> := {};
      var skipped := 0;
      while skipped < max && ids != {}
        invariant kept !! ids && kept + ids == Unpinned(entries)
        invariant |kept| == skipped <= max
        invariant forall x, y :: x in kept && y in ids ==> x > y
        decreases ids
      {
        var m := Greatest(ids);
        ids, kept, skipped := ids - {m}, kept + {m}, skipped + 1;
      }
      OffsetSplits(entries, kept, ids, max);
    }

    /** Deletes first, then reports every deleted id once, in whatever order RETURNING yields. */
    method Trim(max: nat) returns (trimmed: seq<int>)
      modifies `entries, `mimes, `data
      ensures Rows() == Without(old(Rows()), Victims(old(entries), max))
      ensures Distinct(trimmed) && Elements(trimmed) == Victims(old(entries), max)
    {
      var ids := PastOffset(max);
      DeleteRows(ids);
      trimmed := [];
      var rest := ids;
      while rest != {}
        invariant Rows() == Without(old(Rows()), Victims(old(entries), max))
        invariant rest <= ids && Distinct(trimmed) && Elements(trimmed) == ids - rest
        decreases rest
      {
        NonEmpty(rest);
        var id :| id in rest;
        assert id !in Elements(trimmed);
        assert Elements(trimmed + [id]) == Elements(trimmed) + {id};
        trimmed := trimmed + [id];
        rest := rest - {id};
      }
    }

    // -------------------------------------------------------- updates

    /**
     * UPDATE Entries SET Hash: with id -1 the hash is cleared wherever it is held,
     * otherwise it is given to `id`, which the UNIQUE constraint may refuse.
     */
    method SetEntryHash(id: int, hash: Digest) returns (ok: bool)
      modifies `entries
      ensures id == -1 ==> ok && entries == NullHash(old(entries), hash)
      ensures id != -1 ==>
                && (ok <==> !(id in old(entries) && exists j :: j != id && Holds(old(entries), j, hash)))
                && entries == if ok then WithHash(old(entries), id, hash) else old(entries)
    {
      if id == -1 {
        entries := map j | j in entries :: if entries[j].hash == Some(hash) then entries[j].(hash := None) else entries[j];
        return true;
      }
      ok := true;
      if id in entries {
        var clash := exists j :: j in entries && j != id && entries[j].hash == Some(hash);
        if clash {
          var j :| j in entries && j != id && entries[j].hash == Some(hash);
          assert Holds(entries, j, hash);
        }
        ok := !clash;
        if ok {
          entries := entries[id := entries[id].(hash := Some(hash))];
        }
      }
    }

    method UpdateSortIndex(id: int)
      modifies `entries
      ensures entries == Raised(old(entries), id)
    {
      if id in entries {
        var m := MaxSortIndex(entries);
        entries := entries[id := entries[id].(sortIndex := m + 1)];
      }
    }

    method UpdateEntry(id: int, now: int, pin: Option<bool>)
      modifies `entries
      ensures entries == Touched(old(entries), id, now, pin)
    {
      if id in entries {
        entries := entries[id := entries[id].(updated := now, pinned := if pin.Some? then pin.value else entries[id].pinned)];
      }
    }

    method SaveContent(id: int, content: Content)
      modifies `entries
      ensures entries == if id in old(entries) then old(entries)[id := old(entries)[id].(content := Some(content))] else old(entries)
    {
      if id in entries {
        entries := entries[id := entries[id].(content := Some(content))];
      }
    }

    // -------------------------------------------------------- queries

    method IdExists(id: int) returns (found: bool)
      ensures found <==> id in entries
    {
      found := id in entries;
    }

    /** Position and id of the row holding `hash`: the count of rows with a greater Sort_index. */
    method EntryHashPos(hash: Digest) returns (pos: int, id: int)
      ensures pos == -1 <==> Holder(entries, hash).None?
      ensures pos != -1 ==> Holds(entries, id, hash) && pos == |Above(entries, id)|
    {
      if exists j :: j in entries && entries[j].hash == Some(hash) {
        id :| id in entries && entries[id].hash == Some(hash);
        assert Holds(entries, id, hash);
        pos := |set j | j in entries && entries[j].sortIndex > entries[id].sortIndex|;
      } else {
        return -1, -1;
      }
    }

    /** The blob behind one mime type of one entry. */
    method GetData(id: int, mime: Mime) returns (blob: Option<Bytes>)
      ensures blob == Lookup(Rows(), id, mime)
    {
      blob := None;
      if (id, mime) in mimes && mimes[(id, mime)].Some? {
        var d := mimes[(id, mime)].value;
        if d in data {
          blob := Some(data[d]);
        }
      }
    }

    method Foremost(ids: set<int>) returns (m: int)
      requires ids != {} && ids <= entries.Keys
      ensures m in ids && forall x :: x in ids ==> entries[x].sortIndex <= entries[m].sortIndex
    {
      NonEmpty(ids);
      m :| m in ids;
      var rest := ids - {m};
      while rest != {}
        invariant m in ids && rest <= ids
        invariant forall x :: x in ids && x !in rest ==> entries[x].sortIndex <= entries[m].sortIndex
        decreases rest
      {
        NonEmpty(rest);
        var x :| x in rest;
        if entries[x].sortIndex > entries[m].sortIndex { m := x; }
        rest := rest - {x};
      }
    }

    /** SELECT ... ORDER BY Sort_index DESC LIMIT n OFFSET start. */
    method GetEntries(start: int, n: int) returns (page: seq<int>, ghost all: seq<int>)
      requires SortOk(entries)
      ensures IsHistory(entries, all) && page == Page(all, start, n)
    {
      var l: seq<int> := [];
      var rest := entries.Keys;
      while rest != {}
        invariant rest <= entries.Keys
        invariant forall i :: 0 <= i < |l| ==> l[i] in entries && l[i] !in rest
        invariant forall id :: id in entries ==> id in l || id in rest
        invariant forall i, j :: 0 <= i < j < |l| ==> entries[l[i]].sortIndex > entries[l[j]].sortIndex
        invariant forall i, x :: 0 <= i < |l| && x in rest ==> entries[l[i]].sortIndex > entries[x].sortIndex
        decreases rest
      {
        var m := Foremost(rest);
        l, rest := l + [m], rest - {m};
      }
      all := l;
      page := Page(l, start, n);
    }
  }
}
