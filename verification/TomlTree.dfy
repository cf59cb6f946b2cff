/** Parsed TOML values: lookup and insertion by key, equivalence, copying and merging. */
module TomlTree {
  import opened Common

  const TABLE_MAX := 16384
  const ARRAY_MAX := 16384

  /** A floating-point number, as far as comparing goes. */
  datatype Float = NaN | Infinite(negative: bool) | Finite(value: real)

  datatype Moment = Moment(year: int, month: int, day: int, hour: int, minute: int, second: int, usec: int, tz: int)

  datatype Datum =
    | Unknown
    | Str(text: Bytes)
    | Integer(int64: int)
    | Fp(fp: Float)
    | Boolean(yes: bool)
    | Date(day: Moment)
    | Time(time: Moment)
    | DateTime(at: Moment)
    | DateTimeTz(zoned: Moment)
    | Array(elem: seq<Datum>)
    | Table(pairs: seq<Pair>)

  datatype Pair = Pair(key: Bytes, value: Datum)

  // ---------------------------------------------------------------- keys

  /** The first position of a key. */
  function Find(ps: seq<Pair>, key: Bytes): (r: Option<nat>)
    ensures r.Some? ==> r.value < |ps| && ps[r.value].key == key
    ensures forall i :: 0 <= i < (if r.Some? then r.value else |ps|) ==> ps[i].key != key
  {
    if ps == [] then None
    else
      var n := |ps| - 1;
      match Find(ps[..n], key)
      case Some(i) => Some(i)
      case None => if ps[n].key == key then Some(n) else None
  }

  ghost predicate UniqueKeys(ps: seq<Pair>) {
    forall i, j :: 0 <= i < j < |ps| ==> ps[i].key != ps[j].key
  }

  /** Trees as the parser builds them: keys are unique, sizes bounded, no slot left unset. */
  ghost predicate Parsed(d: Datum) {
    match d
    case Unknown => false
    case Array(elem) => |elem| <= ARRAY_MAX && forall i :: 0 <= i < |elem| ==> Parsed(elem[i])
    case Table(ps) => |ps| <= TABLE_MAX && UniqueKeys(ps) && forall i :: 0 <= i < |ps| ==> Parsed(ps[i].value)
    case _ => true
  }

  lemma FindUnique(ps: seq<Pair>, i: nat)
    requires UniqueKeys(ps) && i < |ps|
    ensures Find(ps, ps[i].key) == Some(i)
  {
    var p := ps[i];
    assert Find(ps, p.key).Some?;
  }

  // ---------------------------------------------------------------- equivalence

  /** Equality of numbers: a NaN differs from everything. */
  predicate SameNumber(a: Float, b: Float) {
    !a.NaN? && !b.NaN? && a == b
  }

  predicate SameDay(a: Moment, b: Moment) {
    a.year == b.year && a.month == b.month && a.day == b.day
  }

  predicate SameTime(a: Moment, b: Moment) {
    a.hour == b.hour && a.minute == b.minute && a.second == b.second && a.usec == b.usec
  }

  predicate Equiv(a: Datum, b: Datum)
    decreases a
  {
    match (a, b)
    case (Str(s), Str(t)) => s == t
    case (Integer(m), Integer(n)) => m == n
    case (Fp(x), Fp(y)) => SameNumber(x, y) || (x.NaN? && y.NaN?)
    case (Boolean(x), Boolean(y)) => x == y
    case (Date(x), Date(y)) => SameDay(x, y)
    case (Time(x), Time(y)) => SameTime(x, y)
    case (DateTime(x), DateTime(y)) => SameDay(x, y) && SameTime(x, y)
    case (DateTimeTz(x), DateTimeTz(y)) => SameDay(x, y) && SameTime(x, y) && x.tz == y.tz
    case (Array(x), Array(y)) => |x| == |y| && forall i :: 0 <= i < |x| ==> Equiv(x[i], y[i])
    case (Table(x), Table(y)) => |x| == |y| && forall i :: 0 <= i < |x| ==> Matched(x[i], y)
    case _ => false
  }

  /** The key is in the other table, and the values are equivalent. */
  predicate Matched(p: Pair, other: seq<Pair>)
    decreases p
  {
    Find(other, p.key).Some? && Equiv(p.value, other[Find(other, p.key).value].value)
  }

  // ---------------------------------------------------------------- what equivalence means

  /** A value with everything forgotten that equivalence does not look at: tables are maps. */
  datatype Form =
    | Nothing
    | Leaf(d: Datum)
    | List(items: seq<Form>)
    | Object(fields: map<Bytes, Form>)

  const DAWN := Moment(0, 0, 0, 0, 0, 0, 0, 0)

  function DayOf(m: Moment): Moment {
    DAWN.(year := m.year, month := m.month, day := m.day)
  }

  function TimeOf(m: Moment): Moment {
    DAWN.(hour := m.hour, minute := m.minute, second := m.second, usec := m.usec)
  }

  ghost function FormOf(d: Datum): Form
    decreases d, 1, 0
  {
    match d
    case Unknown => Nothing
    case Date(m) => Leaf(Date(DayOf(m)))
    case Time(m) => Leaf(Time(TimeOf(m)))
    case DateTime(m) => Leaf(DateTime(m.(tz := 0)))
    case DateTimeTz(m) => Leaf(d)
    case Array(elem) => List(seq(|elem|, i requires 0 <= i < |elem| => FormOf(elem[i])))
    case Table(ps) => Object(Fields(d, |ps|))
    case _ => Leaf(d)
  }

  /** The fields of the first n pairs of a table; the first pair with a key counts. */
  ghost function Fields(d: Datum, n: nat): map<Bytes, Form>
    requires d.Table? && n <= |d.pairs|
    decreases d, 0, n
  {
    if n == 0 then map[]
    else
      var p := d.pairs[n - 1];
      if Find(d.pairs[..n - 1], p.key).Some? then Fields(d, n - 1) else Fields(d, n - 1)[p.key := FormOf(p.value)]
  }

  /** A field of a table is the form of the value found under its key. */
  lemma {:induction false} FieldsAreFound(d: Datum, n: nat, key: Bytes)
    requires d.Table? && n <= |d.pairs| && UniqueKeys(d.pairs)
    ensures key in Fields(d, n) <==> exists i :: 0 <= i < n && d.pairs[i].key == key
    ensures forall i :: 0 <= i < n && d.pairs[i].key == key ==> key in Fields(d, n) && Fields(d, n)[key] == FormOf(d.pairs[i].value)
    decreases n
  {
    if n > 0 {
      FieldsAreFound(d, n - 1, key);
      assert Find(d.pairs[..n - 1], d.pairs[n - 1].key).None?;
    }
  }

  /** As many fields as pairs. */
  lemma {:induction false} FieldsCount(d: Datum, n: nat)
    requires d.Table? && n <= |d.pairs| && UniqueKeys(d.pairs)
    ensures |Fields(d, n)| == n
    decreases n
  {
    if n > 0 {
      FieldsCount(d, n - 1);
      FieldsAreFound(d, n - 1, d.pairs[n - 1].key);
      FieldsAreFound(d, n, d.pairs[n - 1].key);
    }
  }

  /** Two values are equivalent just when they have the same form. */
  lemma {:induction false} EquivIsSameForm(a: Datum, b: Datum)
    requires Parsed(a) && Parsed(b)
    ensures Equiv(a, b) <==> FormOf(a) == FormOf(b)
    decreases a
  {
    if a.Array? && b.Array? {
      assert |FormOf(a).items| == |a.elem| && |FormOf(b).items| == |b.elem|;
      forall i | 0 <= i < |a.elem| && |a.elem| == |b.elem|
        ensures Equiv(a.elem[i], b.elem[i]) <==> FormOf(a).items[i] == FormOf(b).items[i]
      {
        EquivIsSameForm(a.elem[i], b.elem[i]);
      }
    } else if a.Table? && b.Table? {
      TablesEquiv(a, b);
    }
  }

  lemma {:induction false} TablesEquiv(a: Datum, b: Datum)
    requires a.Table? && b.Table? && Parsed(a) && Parsed(b)
    ensures Equiv(a, b) <==> FormOf(a) == FormOf(b)
    decreases a, 0
  {
    var f, g := Fields(a, |a.pairs|), Fields(b, |b.pairs|);
    FieldsCount(a, |a.pairs|);
    FieldsCount(b, |b.pairs|);
    forall i | 0 <= i < |a.pairs|
      ensures a.pairs[i].key in f
      ensures Matched(a.pairs[i], b.pairs) <==> a.pairs[i].key in g && g[a.pairs[i].key] == f[a.pairs[i].key]
    {
      var p := a.pairs[i];
      FieldsAreFound(a, |a.pairs|, p.key);
      FieldsAreFound(b, |b.pairs|, p.key);
      var r := Find(b.pairs, p.key);
      if r.Some? {
        EquivIsSameForm(p.value, b.pairs[r.value].value);
      }
    }
    forall key | key in f
      ensures exists i :: 0 <= i < |a.pairs| && a.pairs[i].key == key
    {
      FieldsAreFound(a, |a.pairs|, key);
    }
    if Equiv(a, b) {
      assert forall i :: 0 <= i < |a.pairs| ==> Matched(a.pairs[i], b.pairs);
      SameSize(f, g);
    }
  }

  /** A part of a map that is as large as the whole is all of it. */
  lemma SameSize(f: map<Bytes, Form>, g: map<Bytes, Form>)
    requires |f| == |g| && forall key :: key in f ==> key in g && g[key] == f[key]
    ensures f == g
  {
    assert f.Keys <= g.Keys;
    SubsetCardinality(f.Keys, g.Keys);
    assert |f.Keys| == |f| && |g.Keys| == |g|;
  }

  /** On parsed values, equivalence is reflexive, symmetric and transitive. */
  lemma EquivIsEquivalence(a: Datum, b: Datum, c: Datum)
    requires Parsed(a) && Parsed(b) && Parsed(c)
    ensures Equiv(a, a)
    ensures Equiv(a, b) <==> Equiv(b, a)
    ensures Equiv(a, b) && Equiv(b, c) ==> Equiv(a, c)
  {
    EquivIsSameForm(a, a);
    EquivIsSameForm(a, b);
    EquivIsSameForm(b, a);
    EquivIsSameForm(b, c);
    EquivIsSameForm(a, c);
  }

  /** Symmetry needs unique keys: comparing sizes and looking up one side's keys is not enough. */
  lemma NotSymmetricWithRepeatedKeys()
    ensures
      var a := Table([Pair([107], Integer(1)), Pair([107], Integer(1))]);
      var b := Table([Pair([107], Integer(1)), Pair([106], Integer(2))]);
      Equiv(a, b) && !Equiv(b, a)
  {
    var a := [Pair([107], Integer(1)), Pair([107], Integer(1))];
    var b := [Pair([107], Integer(1)), Pair([106], Integer(2))];
    assert Find(b, [107]) == Some(0) by {
      assert b[0].key == [107];
    }
    assert Find(a, [106]).None? by {
      assert [106][0] != [107 as uint8][0];
    }
    assert Matched(a[0], b) && Matched(a[1], b) && !Matched(b[1], a);
  }
}
