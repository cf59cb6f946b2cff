/**
 * The three relational tables of the history store as values: what their
 * constraints demand, and what each SQL statement (with the triggers and the
 * cascade it sets off) does to them.
 */
module Tables {
  import opened Common

  type Mime = Bytes
  type Digest = Bytes

  datatype ContentKind = Unknown | Binary | Text | Image

  datatype Content = Content(kind: ContentKind, mime: Mime)

  /** A row of Entries; `content` is what the Attributes column is used for. */
  datatype Entry = Entry(
    sortIndex: int,
    created: int,
    updated: int,
    pinned: bool,
    hash: Option<Digest>,
    content: Option<Content>)

  /** `lastId` is the AUTOINCREMENT high-water mark; a None digest is SQL NULL. */
  datatype Tables = Tables(
    entries: map<int, Entry>,
    mimes: map<(int, Mime), Option<Digest>>,
    data: map<Digest, Bytes>,
    lastId: int)

  const EMPTY := Tables(map[], map[], map[], 0)

  // ---------------------------------------------------------------- constraints

  ghost predicate SortOk(es: map<int, Entry>) {
    && (forall id :: id in es ==> es[id].sortIndex > 0)
    && (forall a, b :: a in es && b in es && a != b ==> es[a].sortIndex != es[b].sortIndex)
  }

  ghost predicate HashOk(es: map<int, Entry>) {
    forall a, b :: a in es && b in es && a != b && es[a].hash.Some? ==> es[a].hash != es[b].hash
  }

  ghost predicate IdsOk(t: Tables) {
    && 0 <= t.lastId
    && (forall id :: id in t.entries ==> 1 <= id <= t.lastId)
  }

  ghost predicate Refers(t: Tables, k: (int, Mime), d: Digest) {
    k in t.mimes && t.mimes[k] == Some(d)
  }

  /** Both foreign keys hold: no reference dangles. */
  ghost predicate ReferencesOk(t: Tables) {
    && (forall k :: k in t.mimes ==> k.0 in t.entries)
    && (forall k :: k in t.mimes && t.mimes[k].Some? ==> t.mimes[k].value in t.data)
  }

  ghost predicate Wf(t: Tables) {
    SortOk(t.entries) && HashOk(t.entries) && IdsOk(t) && ReferencesOk(t)
  }

  // ---------------------------------------------------------------- statements

  /** COALESCE(MAX(Sort_index), 0). */
  ghost function MaxSort(es: map<int, Entry>): (m: int)
    ensures es.Keys == {} ==> m == 0
    ensures forall id :: id in es ==> es[id].sortIndex <= m
    ensures es.Keys != {} ==> exists id :: id in es && es[id].sortIndex == m
    decreases |es|
  {
    if es.Keys == {} then 0
    else
      assert (forall k :: k !in es.Keys) ==> es.Keys == {};
      var k :| k in es.Keys;
      var rest := es - {k};
      assert forall id :: id in es ==> id == k || id in rest;
      var r := MaxSort(rest);
      if rest.Keys == {} || es[k].sortIndex > r then es[k].sortIndex else r
  }

  /** INSERT INTO Entries, after the set_sort_index trigger has run. */
  ghost function Inserted(t: Tables, now: int): Tables {
    t.(entries := t.entries[t.lastId + 1 := Entry(MaxSort(t.entries) + 1, now, now, false, None, None)],
       lastId := t.lastId + 1)
  }

  /** INSERT OR IGNORE INTO Data, then INSERT OR IGNORE INTO Mime_types. */
  function WithMime(t: Tables, id: int, mime: Mime, digest: Digest, data: Option<Bytes>): Tables {
    t.(data := if data.Some? && digest !in t.data then t.data[digest := data.value] else t.data,
       mimes := if (id, mime) in t.mimes then t.mimes
                else t.mimes[(id, mime) := if data.Some? then Some(digest) else None])
  }

  /** Data row `d` loses its last reference when the rows of `ids` go. */
  ghost predicate Orphaned(t: Tables, ids: set<int>, d: Digest) {
    && (exists k :: Refers(t, k, d) && k.0 in ids)
    && (forall k :: Refers(t, k, d) ==> k.0 in ids)
  }

  /** DELETE FROM Entries for a set of ids, with the cascade and the collection of Data rows. */
  ghost function Without(t: Tables, ids: set<int>): Tables {
    Tables(
      t.entries - ids,
      map k | k in t.mimes && k.0 !in ids :: t.mimes[k],
      map d | d in t.data && !Orphaned(t, ids, d) :: t.data[d],
      t.lastId)
  }

  function NullHash(es: map<int, Entry>, x: Digest): map<int, Entry> {
    map id | id in es :: if es[id].hash == Some(x) then es[id].(hash := None) else es[id]
  }

  function WithHash(es: map<int, Entry>, id: int, x: Digest): map<int, Entry> {
    if id in es then es[id := es[id].(hash := Some(x))] else es
  }

  /** UPDATE Entries SET Sort_index = MAX + 1. */
  ghost function Raised(es: map<int, Entry>, id: int): map<int, Entry> {
    if id in es then es[id := es[id].(sortIndex := MaxSort(es) + 1)] else es
  }

  function Touched(es: map<int, Entry>, id: int, now: int, pin: Option<bool>): map<int, Entry> {
    if id in es
    then es[id := es[id].(updated := now, pinned := if pin.Some? then pin.value else es[id].pinned)]
    else es
  }

  ghost function Unpinned(es: map<int, Entry>): set<int> {
    set id | id in es && !es[id].pinned
  }

  /** Unpinned rows with a greater Id: the ones ahead of `id` in ORDER BY Id DESC. */
  ghost function Newer(es: map<int, Entry>, id: int): set<int> {
    set j | j in Unpinned(es) && j > id
  }

  /** What trim deletes: unpinned rows with at least `max` unpinned rows of greater Id. */
  ghost function Victims(es: map<int, Entry>, max: int): set<int> {
    set id | id in Unpinned(es) && |Newer(es, id)| >= max
  }

  /** The row holding a hash, if any. */
  ghost predicate Holds(es: map<int, Entry>, id: int, x: Digest) {
    id in es && es[id].hash == Some(x)
  }

  ghost function Holder(es: map<int, Entry>, x: Digest): (r: Option<int>)
    ensures r.Some? ==> Holds(es, r.value, x)
    ensures r.None? ==> forall id :: !Holds(es, id, x)
  {
    if exists id :: Holds(es, id, x) then
      var id :| Holds(es, id, x);
      Some(id)
    else None
  }

  /** What the LEFT JOIN of Mime_types and Data answers for one mime type of one entry. */
  function Lookup(t: Tables, id: int, mime: Mime): Option<Bytes> {
    if (id, mime) in t.mimes && t.mimes[(id, mime)].Some? && t.mimes[(id, mime)].value in t.data
    then Some(t.data[t.mimes[(id, mime)].value])
    else None
  }

  // ---------------------------------------------------------------- order

  /** Rows that come before `id` in ORDER BY Sort_index DESC. */
  ghost function Above(es: map<int, Entry>, id: int): set<int>
    requires id in es
  {
    set j | j in es && es[j].sortIndex > es[id].sortIndex
  }

  /** `l` is the id column of SELECT ... ORDER BY Sort_index DESC. */
  ghost predicate IsHistory(es: map<int, Entry>, l: seq<int>) {
    && (forall i :: 0 <= i < |l| ==> l[i] in es)
    && (forall id :: id in es ==> id in l)
    && (forall i, j :: 0 <= i < j < |l| ==> es[l[i]].sortIndex > es[l[j]].sortIndex)
  }

  /** Every row has a position. */
  lemma PositionOf(es: map<int, Entry>, l: seq<int>, id: int) returns (i: nat)
    requires IsHistory(es, l) && id in es
    ensures i < |l| && l[i] == id
  {
    assert id in l;
    i :| 0 <= i < |l| && l[i] == id;
  }

  /** There is only one such list. */
  lemma {:induction false} HistoryUnique(es: map<int, Entry>, l: seq<int>, m: seq<int>)
    requires IsHistory(es, l) && IsHistory(es, m)
    ensures l == m
    decreases |l|
  {
    if |l| > 0 {
      var i := PositionOf(es, m, l[0]);
      var j := PositionOf(es, l, m[0]);
      assert l[0] == m[0];
      HistoryTail(es, l);
      HistoryTail(es, m);
      HistoryUnique(es - {l[0]}, l[1..], m[1..]);
      assert l == [l[0]] + l[1..] && m == [m[0]] + m[1..];
    } else if |m| > 0 {
      var i := PositionOf(es, l, m[0]);
    }
  }

  lemma HistoryTail(es: map<int, Entry>, l: seq<int>)
    requires IsHistory(es, l) && l != []
    ensures IsHistory(es - {l[0]}, l[1..])
  {
    var rest := es - {l[0]};
    forall id | id in rest ensures id in l[1..] {
      var i :| 0 <= i < |l| && l[i] == id;
      assert l[1..][i - 1] == id;
    }
  }

  /** The position SQL counts, COUNT of greater Sort_index values, is the index in the list. */
  lemma PositionIsIndex(es: map<int, Entry>, l: seq<int>, p: nat)
    requires IsHistory(es, l) && p < |l|
    ensures |Above(es, l[p])| == p
  {
    var front := l[..p];
    assert Distinct(front);
    DistinctCardinality(front);
    assert Above(es, l[p]) == Elements(front) by {
      forall j | j in Above(es, l[p]) ensures j in front {
        var i :| 0 <= i < |l| && l[i] == j;
        assert i < p;
        assert front[i] == j;
      }
    }
  }
}
