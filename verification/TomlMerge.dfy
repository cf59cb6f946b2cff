/** Copying and merging parsed TOML values. */
module TomlMerge {
  import opened Common
  import opened TomlTree

  // ---------------------------------------------------------------- merging as a function

  predicate ArrayOfTables(d: Datum) {
    d.Array? && forall i :: 0 <= i < |d.elem| ==> d.elem[i].Table?
  }

  /** What merging `src` into `dst` gives; nothing when a table or an array would get too large. */
  ghost function Merged(dst: Datum, src: Datum): Option<Datum>
    decreases src, 1, 0
  {
    if dst.Table? && src.Table? then
      match MergedPairs(dst.pairs, src, |src.pairs|)
      case None => None
      case Some(ps) => Some(Table(ps))
    else if ArrayOfTables(dst) && ArrayOfTables(src) then
      if src.elem != [] && |dst.elem| + |src.elem| > ARRAY_MAX then None else Some(Array(dst.elem + src.elem))
    else Some(src)
  }

  /** The pairs of a table after the first n pairs of `src` have been merged into it. */
  ghost function MergedPairs(ps: seq<Pair>, src: Datum, n: nat): Option<seq<Pair>>
    requires src.Table? && n <= |src.pairs|
    decreases src, 0, n
  {
    if n == 0 then Some(ps)
    else
      match MergedPairs(ps, src, n - 1)
      case None => None
      case Some(qs) => PutMerged(qs, src, n - 1)
  }

  ghost function PutMerged(qs: seq<Pair>, src: Datum, k: nat): Option<seq<Pair>>
    requires src.Table? && k < |src.pairs|
    decreases src, 0, k
  {
    var p := src.pairs[k];
    match Find(qs, p.key)
    case None => if |qs| >= TABLE_MAX then None else Some(qs + [p])
    case Some(i) =>
      match Merged(qs[i].value, p.value)
      case None => None
      case Some(v) => Some(qs[i := Pair(p.key, v)])
  }

  // ---------------------------------------------------------------- the operations as they run

  /** The slot of a key: the one it has, or a new one at the end, still unset. -1 when the table is full. */
  method TabEmplace(ps: seq<Pair>, key: Bytes) returns (qs: seq<Pair>, slot: int)
    ensures
      match Find(ps, key)
      case Some(i) => qs == ps && slot == i
      case None => if |ps| >= TABLE_MAX then slot == -1 else qs == ps + [Pair(key, Unknown)] && slot == |ps|
    ensures UniqueKeys(ps) ==> UniqueKeys(qs)
  {
    for i := 0 to |ps|
      invariant forall j :: 0 <= j < i ==> ps[j].key != key
    {
      if ps[i].key == key {
        return ps, i;
      }
    }
    if |ps| >= TABLE_MAX {
      return ps, -1;
    }
    return ps + [Pair(key, Unknown)], |ps|;
  }

  /** A deep copy, built slot by slot. */
  method Copy(src: Datum) returns (dst: Option<Datum>)
    requires Parsed(src)
    ensures dst == Some(src)
    decreases src
  {
    match src {
      case Table(pairs) => {
        var ps: seq<Pair> := [];
        for i := 0 to |pairs|
          invariant ps == pairs[..i]
        {
          var p := pairs[i];
          NotBefore(pairs, i);
          var qs, slot := TabEmplace(ps, p.key);
          var v := Copy(p.value);
          if slot < 0 || v.None? {
            return None;
          }
          ps := qs[slot := Pair(p.key, v.value)];
          assert ps == pairs[..i + 1];
        }
        assert pairs[..|pairs|] == pairs;
        return Some(Table(ps));
      }
      case Array(elem) => {
        var es: seq<Datum> := [];
        for i := 0 to |elem|
          invariant es == elem[..i]
        {
          if |es| >= ARRAY_MAX {
            return None;
          }
          var v := Copy(elem[i]);
          if v.None? {
            return None;
          }
          es := es + [v.value];
        }
        assert elem[..|elem|] == elem;
        return Some(Array(es));
      }
      case _ => return Some(src);
    }
  }

  lemma NotBefore(pairs: seq<Pair>, i: nat)
    requires UniqueKeys(pairs) && i < |pairs|
    ensures Find(pairs[..i], pairs[i].key).None?
  {
    var r := Find(pairs[..i], pairs[i].key);
    assert forall j :: 0 <= j < i ==> pairs[..i][j].key != pairs[i].key;
  }

  method IsArrayOfTables(d: Datum) returns (yes: bool)
    ensures yes == ArrayOfTables(d)
  {
    if !d.Array? {
      return false;
    }
    yes := true;
    var i := 0;
    while yes && i < |d.elem|
      invariant i <= |d.elem|
      invariant yes ==> forall j :: 0 <= j < i ==> d.elem[j].Table?
      invariant !yes ==> !ArrayOfTables(d)
    {
      yes := d.elem[i].Table?;
      i := i + 1;
    }
  }

  method Merge(dst: Datum, src: Datum) returns (r: Option<Datum>)
    requires Parsed(src)
    ensures r == Merged(dst, src)
    decreases src
  {
    if dst.Table? && src.Table? {
      var ps := dst.pairs;
      for i := 0 to |src.pairs|
        invariant MergedPairs(dst.pairs, src, i) == Some(ps)
      {
        var p := src.pairs[i];
        var next := MergePair(ps, p, src, i);
        if next.None? {
          StaysNone(dst.pairs, src, i + 1, |src.pairs|);
          return None;
        }
        ps := next.value;
      }
      return Some(Table(ps));
    }
    if dst.Array? && src.Array? {
      var appends := IsArrayOfTables(dst);
      if appends {
        appends := IsArrayOfTables(src);
      }
      if appends {
        r := Append(dst.elem, src);
        return;
      }
    }
    r := Copy(src);
  }

  /** One pair: merged into the value its key has, or copied into a new slot. */
  method MergePair(ps: seq<Pair>, p: Pair, ghost src: Datum, ghost k: nat) returns (r: Option<seq<Pair>>)
    requires src.Table? && k < |src.pairs| && src.pairs[k] == p && Parsed(p.value)
    ensures r == PutMerged(ps, src, k)
    decreases p
  {
    var qs, slot := TabEmplace(ps, p.key);
    if slot < 0 {
      return None;
    }
    var v;
    if qs[slot].value.Unknown? {
      v := Copy(p.value);
    } else {
      v := Merge(qs[slot].value, p.value);
    }
    if v.None? {
      return None;
    }
    r := Some(qs[slot := Pair(p.key, v.value)]);
    assert slot == |ps| ==> qs[slot := Pair(p.key, v.value)] == ps + [p];
  }

  method Append(elem: seq<Datum>, src: Datum) returns (r: Option<Datum>)
    requires src.Array? && Parsed(src)
    ensures r == if src.elem != [] && |elem| + |src.elem| > ARRAY_MAX then None else Some(Array(elem + src.elem))
    decreases src, 0
  {
    var es := elem;
    for i := 0 to |src.elem|
      invariant es == elem + src.elem[..i]
      invariant i > 0 ==> |elem| + i <= ARRAY_MAX
    {
      if |es| >= ARRAY_MAX {
        return None;
      }
      var v := Copy(src.elem[i]);
      if v.None? {
        return None;
      }
      es := es + [v.value];
    }
    assert src.elem[..|src.elem|] == src.elem;
    return Some(Array(es));
  }

  lemma {:induction false} StaysNone(ps: seq<Pair>, src: Datum, i: nat, n: nat)
    requires src.Table? && i <= n <= |src.pairs| && MergedPairs(ps, src, i).None?
    ensures MergedPairs(ps, src, n).None?
    decreases n
  {
    if i < n {
      StaysNone(ps, src, i, n - 1);
    }
  }

  // ---------------------------------------------------------------- the rule

  function Lookup(ps: seq<Pair>, key: Bytes): Option<Datum> {
    match Find(ps, key) case None => None case Some(i) => Some(ps[i].value)
  }

  /** How the two values of a key combine. */
  ghost function Combined(x: Option<Datum>, y: Option<Datum>): Option<Datum> {
    if y.None? then x else if x.None? then y else Merged(x.value, y.value)
  }

  lemma LookupPut(qs: seq<Pair>, i: nat, v: Datum, key: Bytes)
    requires i < |qs| && UniqueKeys(qs)
    ensures UniqueKeys(qs[i := Pair(qs[i].key, v)])
    ensures Lookup(qs[i := Pair(qs[i].key, v)], key) == if key == qs[i].key then Some(v) else Lookup(qs, key)
  {
    var rs := qs[i := Pair(qs[i].key, v)];
    assert forall j :: 0 <= j < |qs| ==> rs[j].key == qs[j].key;
    SameKeys(qs, rs, key);
    if key == qs[i].key {
      FindUnique(qs, i);
    }
  }

  lemma {:induction false} SameKeys(qs: seq<Pair>, rs: seq<Pair>, key: Bytes)
    requires |qs| == |rs| && forall j :: 0 <= j < |qs| ==> rs[j].key == qs[j].key
    ensures Find(qs, key) == Find(rs, key)
  {
    var a, b := Find(qs, key), Find(rs, key);
    if a.Some? {
      assert rs[a.value].key == key;
    }
    if b.Some? {
      assert qs[b.value].key == key;
    }
  }

  lemma LookupAppend(qs: seq<Pair>, p: Pair, key: Bytes)
    requires Find(qs, p.key).None?
    ensures Lookup(qs + [p], key) == if key == p.key then Some(p.value) else Lookup(qs, key)
    ensures UniqueKeys(qs) ==> UniqueKeys(qs + [p])
  {
    assert (qs + [p])[..|qs|] == qs;
  }

  /** After n pairs: their keys hold the combined values, all other keys what they held before. */
  lemma {:induction false} PrefixRule(ps: seq<Pair>, src: Datum, n: nat, key: Bytes)
    requires src.Table? && n <= |src.pairs| && UniqueKeys(ps) && UniqueKeys(src.pairs)
    requires MergedPairs(ps, src, n).Some?
    ensures
      var qs := MergedPairs(ps, src, n).value;
      && UniqueKeys(qs)
      && Lookup(qs, key) == Combined(Lookup(ps, key), Lookup(src.pairs[..n], key))
    decreases n
  {
    if n > 0 {
      var p := src.pairs[n - 1];
      PrefixRule(ps, src, n - 1, key);
      PrefixRule(ps, src, n - 1, p.key);
      NotBefore(src.pairs, n - 1);
      assert src.pairs[..n][..n - 1] == src.pairs[..n - 1];
      var qs := MergedPairs(ps, src, n - 1).value;
      var r := Find(qs, p.key);
      if r.Some? {
        LookupPut(qs, r.value, Merged(qs[r.value].value, p.value).value, key);
      } else {
        LookupAppend(qs, p, key);
      }
    }
  }

  /** Every key of a merged table holds what the rule says; this fixes the table as a map. */
  lemma MergeRule(dst: Datum, src: Datum, key: Bytes)
    requires dst.Table? && src.Table? && UniqueKeys(dst.pairs) && UniqueKeys(src.pairs) && Merged(dst, src).Some?
    ensures
      var r := Merged(dst, src).value;
      && r.Table? && UniqueKeys(r.pairs)
      && Lookup(r.pairs, key) == Combined(Lookup(dst.pairs, key), Lookup(src.pairs, key))
  {
    PrefixRule(dst.pairs, src, |src.pairs|, key);
    assert src.pairs[..|src.pairs|] == src.pairs;
  }

  /** Keys that were there keep their places; new ones come behind. */
  lemma {:induction false} PlacesKept(ps: seq<Pair>, src: Datum, n: nat)
    requires src.Table? && n <= |src.pairs| && MergedPairs(ps, src, n).Some?
    ensures
      var qs := MergedPairs(ps, src, n).value;
      && |ps| <= |qs| && forall i :: 0 <= i < |ps| ==> qs[i].key == ps[i].key
    decreases n
  {
    if n > 0 {
      PlacesKept(ps, src, n - 1);
    }
  }

  // ---------------------------------------------------------------- invariants and identities

  lemma {:induction false} MergeKeepsParsed(dst: Datum, src: Datum)
    requires Parsed(dst) && Parsed(src) && Merged(dst, src).Some?
    ensures Parsed(Merged(dst, src).value)
    decreases src, 1, 0
  {
    if dst.Table? && src.Table? {
      PairsKeepParsed(dst.pairs, src, |src.pairs|);
    }
  }

  ghost predicate ParsedPairs(ps: seq<Pair>) {
    |ps| <= TABLE_MAX && UniqueKeys(ps) && forall i :: 0 <= i < |ps| ==> Parsed(ps[i].value)
  }

  lemma {:induction false} PairsKeepParsed(ps: seq<Pair>, src: Datum, n: nat)
    requires ParsedPairs(ps) && src.Table? && Parsed(src) && n <= |src.pairs| && MergedPairs(ps, src, n).Some?
    ensures ParsedPairs(MergedPairs(ps, src, n).value)
    decreases src, 0, n
  {
    if n > 0 {
      PairsKeepParsed(ps, src, n - 1);
      var qs, p := MergedPairs(ps, src, n - 1).value, src.pairs[n - 1];
      var r := Find(qs, p.key);
      if r.Some? {
        MergeKeepsParsed(qs[r.value].value, p.value);
        LookupPut(qs, r.value, Merged(qs[r.value].value, p.value).value, p.key);
      } else {
        LookupAppend(qs, p, p.key);
      }
    }
  }

  const EMPTY := Table([])

  /** Merging nothing in changes nothing, and merging into nothing copies. */
  lemma EmptyIsIdentity(d: Datum)
    requires d.Table? && Parsed(d)
    ensures Merged(d, EMPTY) == Some(d) && Merged(EMPTY, d) == Some(d)
  {
    IntoEmpty(d, |d.pairs|);
    assert d.pairs[..|d.pairs|] == d.pairs;
    assert MergedPairs(d.pairs, EMPTY, 0) == Some(d.pairs);
  }

  lemma {:induction false} IntoEmpty(d: Datum, n: nat)
    requires d.Table? && Parsed(d) && n <= |d.pairs|
    ensures MergedPairs([], d, n) == Some(d.pairs[..n])
    decreases n
  {
    if n > 0 {
      IntoEmpty(d, n - 1);
      NotBefore(d.pairs, n - 1);
      assert d.pairs[..n] == d.pairs[..n - 1] + [d.pairs[n - 1]];
    }
  }

  // ---------------------------------------------------------------- what a merged tree answers

  /** What stands at the end of a path of keys. */
  function At(d: Option<Datum>, path: seq<Bytes>): Option<Datum>
    decreases |path|
  {
    if path == [] then d
    else if d.Some? && d.value.Table? then At(Lookup(d.value.pairs, path[0]), path[1..])
    else None
  }

  /** Something that is no table stands on the way. */
  predicate Blocked(d: Option<Datum>, path: seq<Bytes>)
    decreases |path|
  {
    && path != [] && d.Some?
    && (!d.value.Table? || Blocked(Lookup(d.value.pairs, path[0]), path[1..]))
  }

  lemma {:induction false} BlockedIsNothing(d: Option<Datum>, path: seq<Bytes>)
    requires Blocked(d, path)
    ensures At(d, path) == None
    decreases |path|
  {
    if d.value.Table? {
      BlockedIsNothing(Lookup(d.value.pairs, path[0]), path[1..]);
    }
  }

  /** A key of the older side is still there. */
  lemma KeyKept(dst: Datum, src: Datum, key: Bytes)
    requires dst.Table? && src.Table? && Merged(dst, src).Some? && Find(dst.pairs, key).Some?
    ensures Find(Merged(dst, src).value.pairs, key).Some?
  {
    PlacesKept(dst.pairs, src, |src.pairs|);
    var i, rs := Find(dst.pairs, key).value, Merged(dst, src).value.pairs;
    assert rs[i].key == key;
  }

  /**
   * Every path in a merged tree leads to what one side has there or to the merge of what both
   * have, unless the newer side has something else than a table on the way: then it leads nowhere,
   * whatever the older side had. What is no table and no array of tables is taken over as it is.
   */
  lemma {:induction false} PathRule(dst: Datum, src: Datum, path: seq<Bytes>)
    requires Parsed(dst) && Parsed(src) && Merged(dst, src).Some?
    ensures
      var x, y, r := At(Some(dst), path), At(Some(src), path), At(Merged(dst, src), path);
      && r == (if Blocked(Some(src), path) then None else Combined(x, y))
      && (y.Some? && !y.value.Table? && !ArrayOfTables(y.value) ==> r == y)
    decreases |path|
  {
    if path != [] {
      if dst.Table? && src.Table? {
        MergeRule(dst, src, path[0]);
        var x, y := Lookup(dst.pairs, path[0]), Lookup(src.pairs, path[0]);
        if x.Some? && y.Some? {
          KeyKept(dst, src, path[0]);
          PathRule(x.value, y.value, path[1..]);
        } else if y.Some? && Blocked(y, path[1..]) {
          BlockedIsNothing(y, path[1..]);
        }
      } else if Blocked(Some(src), path) {
        BlockedIsNothing(Some(src), path);
      }
    }
  }

  /** Two arrays of tables become one, the older tables first. */
  lemma ArraysJoin(dst: Datum, src: Datum)
    requires ArrayOfTables(dst) && ArrayOfTables(src) && Merged(dst, src).Some?
    ensures
      var r := Merged(dst, src).value;
      && r.Array? && |r.elem| == |dst.elem| + |src.elem|
      && (forall n :: 0 <= n < |dst.elem| ==> r.elem[n] == dst.elem[n])
      && (forall n :: 0 <= n < |src.elem| ==> r.elem[|dst.elem| + n] == src.elem[n])
  {
  }

  // ---------------------------------------------------------------- when merging fails

  /** The keys of `ps` that are not in the first n pairs of the other table, counted. */
  function NewKeys(ps: seq<Pair>, other: seq<Pair>): nat {
    if other == [] then 0
    else
      var n := |other| - 1;
      NewKeys(ps, other[..n]) + if Find(ps, other[n].key).None? then 1 else 0
  }

  /** Some table would get more keys than fit, or some array of tables more elements. */
  ghost predicate Overflows(dst: Datum, src: Datum)
    decreases src
  {
    if dst.Table? && src.Table? then
      || |dst.pairs| + NewKeys(dst.pairs, src.pairs) > TABLE_MAX
      || exists i :: 0 <= i < |src.pairs| && OverflowsAt(dst.pairs, src.pairs[i])
    else
      ArrayOfTables(dst) && ArrayOfTables(src) && src.elem != [] && |dst.elem| + |src.elem| > ARRAY_MAX
  }

  ghost predicate OverflowsAt(ps: seq<Pair>, p: Pair)
    decreases p
  {
    Find(ps, p.key).Some? && Overflows(ps[Find(ps, p.key).value].value, p.value)
  }

  /** Merging fails just when something overflows. */
  lemma {:induction false} FailsJustOnOverflow(dst: Datum, src: Datum)
    requires Parsed(dst) && Parsed(src)
    ensures Merged(dst, src).None? <==> Overflows(dst, src)
    decreases src, 1, 0
  {
    if dst.Table? && src.Table? {
      PairsFail(dst.pairs, src, |src.pairs|);
      assert src.pairs[..|src.pairs|] == src.pairs;
    }
  }

  lemma {:induction false} PairsFail(ps: seq<Pair>, src: Datum, n: nat)
    requires ParsedPairs(ps) && src.Table? && Parsed(src) && n <= |src.pairs|
    ensures MergedPairs(ps, src, n).None? <==>
      || |ps| + NewKeys(ps, src.pairs[..n]) > TABLE_MAX
      || exists i :: 0 <= i < n && OverflowsAt(ps, src.pairs[i])
    ensures MergedPairs(ps, src, n).Some? ==> |MergedPairs(ps, src, n).value| == |ps| + NewKeys(ps, src.pairs[..n])
    decreases src, 0, n
  {
    if n > 0 {
      var p := src.pairs[n - 1];
      PairsFail(ps, src, n - 1);
      assert src.pairs[..n][..n - 1] == src.pairs[..n - 1];
      if MergedPairs(ps, src, n - 1).Some? {
        var qs := MergedPairs(ps, src, n - 1).value;
        PrefixRule(ps, src, n - 1, p.key);
        NotBefore(src.pairs, n - 1);
        assert Lookup(qs, p.key) == Lookup(ps, p.key);
        var r := Find(ps, p.key);
        if r.Some? {
          FailsJustOnOverflow(ps[r.value].value, p.value);
        }
      }
    }
  }
}
