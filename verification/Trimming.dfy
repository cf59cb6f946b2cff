/**
 * Trimming against recency: the limit counts ids, the history is ordered by sort index, and
 * moving an entry to the front changes only the latter.
 */
module Trimming {
  import opened Common
  import opened Tables
  import opened History
  import opened Recency
  import Replica

  /** Ids and sort indices rank the rows alike. */
  ghost predicate SameRank(es: map<int, Entry>) {
    forall a, b :: a in es && b in es && a < b ==> es[a].sortIndex < es[b].sortIndex
  }

  ghost predicate NoMove(h: Hash, s: State, tick: Tick) {
    !(tick.action.Selection? && Judge(tick.config.dedup, s.db.entries, EntryHash(h, tick.action.offer.items)).Move?)
  }

  lemma StepKeepsRank(h: Hash, s: State, tick: Tick)
    requires Wf(s.db) && SameRank(s.db.entries) && NoMove(h, s, tick)
    ensures SameRank(Next(h, s, tick).db.entries)
  {
    if tick.action.Selection? {
      assert SameRank(Received(tick.config, h, s, tick.action.offer, tick.now).db.entries);
    }
  }

  ghost predicate NeverMoves(h: Hash, s: State, run: seq<Tick>)
    decreases |run|
  {
    run != [] ==> NoMove(h, s, run[0]) && NeverMoves(h, Next(h, s, run[0]), run[1..])
  }

  lemma {:induction false} RunKeepsRank(h: Hash, s: State, run: seq<Tick>)
    requires Wf(s.db) && SameRank(s.db.entries) && NeverMoves(h, s, run)
    ensures SameRank(Final(h, s, run).db.entries)
    decreases |run|
  {
    if run != [] {
      StepKeepsRank(h, s, run[0]);
      Replica.StepKeepsWf(h, s, run[0]);
      RunKeepsRank(h, Next(h, s, run[0]), run[1..]);
    }
  }

  // ---------------------------------------------------------------- which entries survive

  function Select(l: seq<int>, ids: set<int>): seq<int> {
    if l == [] then [] else (if l[0] in ids then [l[0]] else []) + Select(l[1..], ids)
  }

  lemma {:induction false} SelectElements(l: seq<int>, ids: set<int>, x: int)
    ensures x in Select(l, ids) <==> x in l && x in ids
  {
    if l != [] {
      SelectElements(l[1..], ids, x);
      assert l == [l[0]] + l[1..];
    }
  }

  /** The rows of some ids. */
  ghost function Only(es: map<int, Entry>, ids: set<int>): map<int, Entry> {
    map id | id in es && id in ids :: es[id]
  }

  /** The entries of a history that are in a set are the history of those rows. */
  lemma {:induction false} SelectIsHistory(es: map<int, Entry>, l: seq<int>, ids: set<int>)
    requires IsHistory(es, l)
    ensures IsHistory(Only(es, ids), Select(l, ids))
  {
    SelectDescends(es, l, ids);
    var s := Select(l, ids);
    forall i | 0 <= i < |s| ensures s[i] in Only(es, ids) {
      assert s[i] in s;
      SelectElements(l, ids, s[i]);
    }
    forall id | id in Only(es, ids) ensures id in s {
      SelectElements(l, ids, id);
    }
  }

  lemma {:induction false} SelectDescends(es: map<int, Entry>, l: seq<int>, ids: set<int>)
    requires Replica.Descending(es, l)
    ensures Replica.Descending(es, Select(l, ids))
  {
    if l != [] {
      var tail := l[1..];
      var t := Select(tail, ids);
      assert Replica.Descending(es, tail);
      SelectDescends(es, tail, ids);
      forall j | 0 <= j < |t| ensures es[l[0]].sortIndex > es[t[j]].sortIndex {
        assert t[j] in t;
        SelectElements(tail, ids, t[j]);
        var i :| 0 <= i < |tail| && tail[i] == t[j];
        assert l[i + 1] == t[j];
      }
    }
  }

  /** The unpinned rows that a trim keeps: fewer than `max` unpinned rows have a greater id. */
  ghost function Survivors(es: map<int, Entry>, max: nat): set<int> {
    Unpinned(es) - Victims(es, max)
  }

  /** As many as there are, up to the limit. */
  lemma SurvivorCount(es: map<int, Entry>, max: nat)
    ensures Survivors(es, max) == Unpinned(es - Victims(es, max))
    ensures |Survivors(es, max)| == if |Unpinned(es)| < max then |Unpinned(es)| else max
  {
    var kept, gone := Survivors(es, max), Victims(es, max);
    assert kept == Unpinned(es - gone);
    TrimBounds(es, max);
    SubsetCardinality(kept, Unpinned(es));
    if gone == {} {
      assert kept == Unpinned(es);
    } else {
      var b := Greatest(gone);
      forall j | j in Newer(es, b) ensures j in kept {
      }
      SubsetCardinality(Newer(es, b), kept);
    }
  }

  lemma Greatest(s: set<int>) returns (m: int)
    requires s != {}
    ensures m in s && forall x :: x in s ==> x <= m
    decreases s
  {
    assert (forall x :: x !in s) ==> s == {};
    m :| m in s;
    var rest := s - {m};
    assert forall x :: x in s ==> x == m || x in rest;
    if rest != {} {
      var n := Greatest(rest);
      if n > m { m := n; }
    } else {
      assert forall x :: x in s ==> x !in rest;
    }
  }

  /** Every unpinned row among the `max` greatest ids comes before every other unpinned row. */
  ghost predicate NewestAreForemost(es: map<int, Entry>, max: nat) {
    forall a, b :: a in Survivors(es, max) && b in Victims(es, max) ==> es[a].sortIndex > es[b].sortIndex
  }

  /** The first `max` unpinned entries of the history. */
  function Foremost(u: seq<int>, max: nat): seq<int> {
    u[..if |u| < max then |u| else max]
  }

  /** A history has as many entries as there are rows. */
  lemma HistoryLength(es: map<int, Entry>, l: seq<int>)
    requires IsHistory(es, l)
    ensures |l| == |es.Keys| && Distinct(l)
  {
    forall i, j | 0 <= i < j < |l| ensures l[i] != l[j] {
      var a, b := l[i], l[j];
      assert a in es && b in es && es[a].sortIndex > es[b].sortIndex;
    }
    DistinctCardinality(l);
    forall id ensures id in Elements(l) <==> id in es.Keys {
      if id in es { assert id in l; }
      if id in l { var i :| 0 <= i < |l| && l[i] == id; assert l[i] in es; }
    }
    assert Elements(l) == es.Keys;
  }

  /** Survivors first, then victims, is the history of the unpinned rows if the newest are foremost. */
  lemma SplitHistory(es: map<int, Entry>, l: seq<int>, max: nat)
    requires IsHistory(es, l) && NewestAreForemost(es, max)
    ensures Select(l, Unpinned(es)) == Select(l, Survivors(es, max)) + Select(l, Victims(es, max))
  {
    var kept, gone := Survivors(es, max), Victims(es, max);
    var a, b := Select(l, kept), Select(l, gone);
    SelectIsHistory(es, l, kept);
    SelectIsHistory(es, l, gone);
    SelectIsHistory(es, l, Unpinned(es));
    var all := Only(es, Unpinned(es));
    assert IsHistory(all, a + b) by {
      forall id | id in all ensures id in a + b {
        assert id in Only(es, kept) || id in Only(es, gone);
      }
      forall i, j | 0 <= i < j < |a + b| ensures all[(a + b)[i]].sortIndex > all[(a + b)[j]].sortIndex {
        var x, y := (a + b)[i], (a + b)[j];
        if i < |a| { assert a[i] in Only(es, kept); } else { assert b[i - |a|] in Only(es, gone); }
        if j < |a| { assert a[j] in Only(es, kept); } else { assert b[j - |a|] in Only(es, gone); }
      }
    }
    HistoryUnique(all, a + b, Select(l, Unpinned(es)));
  }

  /** The lists of unpinned and surviving entries have as many entries as there are rows. */
  lemma SelectLength(es: map<int, Entry>, l: seq<int>, ids: set<int>)
    requires IsHistory(es, l) && ids <= es.Keys
    ensures |Select(l, ids)| == |ids|
  {
    SelectIsHistory(es, l, ids);
    HistoryLength(Only(es, ids), Select(l, ids));
    assert Only(es, ids).Keys == ids;
  }

  lemma InPrefix<T>(u: seq<T>, n: nat, j: nat)
    requires n <= |u| && j < |u|
    ensures j < n ==> u[j] in u[..n]
  {
    if j < n {
      assert u[j] == u[..n][j];
    }
  }

  /** If the survivors are the first entries, each of them comes before each victim. */
  lemma PrefixIsForemost(es: map<int, Entry>, l: seq<int>, max: nat, a: int, b: int)
    requires IsHistory(es, l) && a in Survivors(es, max) && b in Victims(es, max)
    requires Select(l, Survivors(es, max)) == Foremost(Select(l, Unpinned(es)), max)
    ensures es[a].sortIndex > es[b].sortIndex
  {
    var u, kept := Select(l, Unpinned(es)), Survivors(es, max);
    var first := Foremost(u, max);
    SelectElements(l, kept, a);
    SelectElements(l, kept, b);
    SelectElements(l, Unpinned(es), b);
    var i :| 0 <= i < |first| && first[i] == a;
    var j :| 0 <= j < |u| && u[j] == b;
    InPrefix(u, |first|, j);
    SelectDescends(es, l, Unpinned(es));
    assert es[u[i]].sortIndex > es[u[j]].sortIndex;
  }

  /**
   * A trim keeps exactly the first max_entries unpinned entries of the history, in order, if and
   * only if the newest unpinned entries are also the foremost ones.
   */
  lemma SurvivorsArePrefix(es: map<int, Entry>, l: seq<int>, max: nat)
    requires IsHistory(es, l)
    ensures Select(l, Unpinned(es - Victims(es, max))) == Foremost(Select(l, Unpinned(es)), max)
      <==> NewestAreForemost(es, max)
  {
    var kept := Survivors(es, max);
    SurvivorCount(es, max);
    if NewestAreForemost(es, max) {
      SplitHistory(es, l, max);
      SelectLength(es, l, kept);
      SelectLength(es, l, Unpinned(es));
    }
    if Select(l, kept) == Foremost(Select(l, Unpinned(es)), max) {
      forall a, b | a in kept && b in Victims(es, max) ensures es[a].sortIndex > es[b].sortIndex {
        PrefixIsForemost(es, l, max, a, b);
      }
    }
  }

  /** While no entry has been moved, that is the case. */
  lemma RankedAreForemost(es: map<int, Entry>, max: nat)
    requires SameRank(es)
    ensures NewestAreForemost(es, max)
  {
    forall a, b | a in Survivors(es, max) && b in Victims(es, max) ensures es[a].sortIndex > es[b].sortIndex {
      if a <= b {
        SubsetCardinality(Newer(es, b), Newer(es, a));
      }
    }
  }
}
