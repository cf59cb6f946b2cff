/** The grammar of values and documents over tokens, and that the parser reads just what it describes. */
module TomlSyntax {
  import opened Common
  import opened TomlStrings
  import opened TomlParser

  // ---------------------------------------------------------------- the grammar

  /** A value: one token, or what stands between brackets or braces. */
  datatype Val = Atom(kind: Kind) | Arr(parts: seq<Part>) | Tab(parts: seq<Part>)

  /** A piece of an array or of an inline table; a key is the kinds of its parts. */
  datatype Part = Newline | Comma | Element(v: Val) | Field(key: seq<Kind>, v: Val)

  /** Without the newlines, what is separated and what separates take turns, the former first. */
  predicate Separated(parts: seq<Part>) {
    var ps := NoNewlines(parts);
    forall n :: 0 <= n < |ps| ==> (ps[n].Comma? <==> n % 2 == 1)
  }

  function NoNewlines(parts: seq<Part>): seq<Part> {
    if parts == [] then []
    else (if parts[0].Newline? then [] else [parts[0]]) + NoNewlines(parts[1..])
  }

  predicate IsString(k: Kind) {
    k.Str? || k.MlStr? || k.LitStr? || k.MlLitStr?
  }

  /** Where a token of some kind ends, if there is one. */
  function TokenEnd(e: Env, i: nat, keymode: bool, kind: Kind): (r: Option<nat>)
    requires i <= |e.src|
    ensures r.Some? ==> i <= r.value <= |e.src|
  {
    var t := TokenAt(e, i, keymode);
    if t.Token? && t.kind == kind then Some(t.next) else None
  }

  function Allowed(e: Env, r: Option<nat>): Option<nat> {
    if r.Some? && e.accepts(r.value) then r else None
  }

  function TokenAfter(e: Env, r: Option<nat>, keymode: bool, kind: Kind): (j: Option<nat>)
    requires r.Some? ==> r.value <= |e.src|
    ensures j.Some? ==> r.Some? && r.value <= j.value <= |e.src|
  {
    if r.Some? then TokenEnd(e, r.value, keymode, kind) else None
  }

  /** Where the parts of a key after its first end: each behind a dot. */
  function DottedEnd(e: Env, i: nat, rest: seq<Kind>): (r: Option<nat>)
    requires i <= |e.src|
    ensures r.Some? ==> i <= r.value <= |e.src|
    decreases |rest|
  {
    if rest == [] then Some(i)
    else
      var j := Allowed(e, TokenAfter(e, TokenEnd(e, i, true, Dot), true, rest[0]));
      if j.None? || !IsKey(rest[0]) then None else DottedEnd(e, j.value, rest[1..])
  }

  /** Where a key ends whose first token, of kind k, ends at i. */
  function KeyEnd(e: Env, k: Kind, i: nat, key: seq<Kind>): (r: Option<nat>)
    requires i <= |e.src|
    ensures r.Some? ==> i <= r.value <= |e.src|
  {
    if 0 < |key| <= KEYPART_MAX && key[0] == k && IsKey(k) && e.accepts(i) then DottedEnd(e, i, key[1..]) else None
  }

  /** Where a value ends whose first token, of kind k, ends at i. */
  function ValueEnd(e: Env, k: Kind, i: nat, v: Val): (r: Option<nat>)
    requires i <= |e.src|
    ensures r.Some? ==> i <= r.value <= |e.src|
    decreases v, 0
  {
    match v
    case Atom(kind) => if k == kind && (k.Scalar? || (IsString(k) && e.accepts(i))) then Some(i) else None
    case Arr(parts) =>
      if k.LBrack? && Separated(parts) then TokenAfter(e, PartsEnd(e, i, parts, false), false, RBrack) else None
    case Tab(parts) =>
      if k.LBrace? && Separated(parts) then TokenAfter(e, PartsEnd(e, i, parts, true), true, RBrace) else None
  }

  /** Where a value ends that starts at i. */
  function ValueAt(e: Env, i: nat, v: Val): (r: Option<nat>)
    requires i <= |e.src|
    ensures r.Some? ==> i <= r.value <= |e.src|
    decreases v, 1
  {
    match TokenAt(e, i, false)
    case NoToken => None
    case Token(k, n) => Allowed(e, ValueEnd(e, k, n, v))
  }

  /** Where one piece ends, of an array or of a table. */
  function PartEnd(e: Env, i: nat, part: Part, table: bool): (r: Option<nat>)
    requires i <= |e.src|
    ensures r.Some? ==> i <= r.value <= |e.src|
    decreases part
  {
    match part
    case Newline => TokenEnd(e, i, table, Endl)
    case Comma => TokenEnd(e, i, table, Kind.Comma)
    case Element(v) => if table then None else ValueAt(e, i, v)
    case Field(key, v) =>
      match TokenAt(e, i, true)
      case NoToken => None
      case Token(k, n) =>
        var j := TokenAfter(e, Allowed(e, KeyEnd(e, k, n, key)), false, Equal);
        if table && j.Some? then ValueAt(e, j.value, v) else None
  }

  function PartsEnd(e: Env, i: nat, parts: seq<Part>, table: bool): (r: Option<nat>)
    requires i <= |e.src|
    ensures r.Some? ==> i <= r.value <= |e.src|
    decreases parts
  {
    if parts == [] then Some(i)
    else
      match PartEnd(e, i, parts[0], table)
      case None => None
      case Some(j) => PartsEnd(e, j, parts[1..], table)
  }

  // ---------------------------------------------------------------- levels

  /** How many arrays, and how many tables, are open at once at most. */
  function Depth(v: Val): Level
    decreases v
  {
    match v
    case Atom(_) => GROUND
    case Arr(parts) => InArray(PartsDepth(parts))
    case Tab(parts) => InTable(PartsDepth(parts))
  }

  function PartsDepth(parts: seq<Part>): Level
    decreases parts
  {
    if parts == [] then GROUND else Deepest(PartDepth(parts[0]), PartsDepth(parts[1..]))
  }

  function PartDepth(part: Part): Level
    decreases part
  {
    match part
    case Element(v) => Depth(v)
    case Field(_, v) => Depth(v)
    case _ => GROUND
  }

  /** Neither limit is passed, given what is open already. */
  predicate Fits(brackets: int, braces: int, d: Level) {
    && (d.arrays > 0 ==> brackets + d.arrays <= LEVEL_MAX)
    && (d.tables > 0 ==> braces + d.tables <= LEVEL_MAX)
  }

  lemma FitsBoth(brackets: int, braces: int, a: Level, b: Level)
    ensures Fits(brackets, braces, Deepest(a, b)) <==> Fits(brackets, braces, a) && Fits(brackets, braces, b)
  {
  }

  /** The depth of what is inside a value. */
  function Inner(v: Val): Level {
    if v.Atom? then GROUND else PartsDepth(v.parts)
  }

  // ---------------------------------------------------------------- separation, one piece at a time

  predicate SeparatedFrom(needComma: bool, parts: seq<Part>)
    decreases |parts|
  {
    if parts == [] then true
    else if parts[0].Newline? then SeparatedFrom(needComma, parts[1..])
    else parts[0].Comma? == needComma && SeparatedFrom(!needComma, parts[1..])
  }

  ghost predicate Alternate(ps: seq<Part>, needComma: bool) {
    forall n :: 0 <= n < |ps| ==> (ps[n].Comma? <==> n % 2 == if needComma then 0 else 1)
  }

  lemma AlternateCons(p: Part, ps: seq<Part>, needComma: bool)
    ensures Alternate([p] + ps, needComma) <==> p.Comma? == needComma && Alternate(ps, !needComma)
  {
    var all := [p] + ps;
    assert forall n :: 0 <= n < |ps| ==> ps[n] == all[n + 1];
    if Alternate(all, needComma) {
      assert all[0].Comma? == needComma;
      forall n | 0 <= n < |ps| ensures ps[n].Comma? <==> n % 2 == if needComma then 1 else 0 {
        assert all[n + 1].Comma? <==> (n + 1) % 2 == if needComma then 0 else 1;
      }
    }
  }

  lemma {:induction false} SeparatedIs(parts: seq<Part>, needComma: bool)
    ensures SeparatedFrom(needComma, parts) <==> Alternate(NoNewlines(parts), needComma)
    decreases |parts|
  {
    if parts != [] {
      if parts[0].Newline? {
        assert [] + NoNewlines(parts[1..]) == NoNewlines(parts[1..]);
        SeparatedIs(parts[1..], needComma);
      } else {
        SeparatedIs(parts[1..], !needComma);
        AlternateCons(parts[0], NoNewlines(parts[1..]), needComma);
      }
    }
  }

  // ---------------------------------------------------------------- what follows the grammar is read

  ghost predicate Reaches(r: Outcome, j: nat, brackets: int, braces: int, headers: nat) {
    r.Good? && r.at.cur == j && r.at.brackets == brackets && r.at.braces == braces && r.at.headers == headers
  }

  function Past(p: Place, j: nat, k: Kind): Place {
    p.(cur := j, brackets := p.brackets + Brackets(k), braces := p.braces + Braces(k))
  }

  lemma CountedIs(e: Env, p: Place, keymode: bool, k: Kind, j: nat)
    requires p.cur <= |e.src| && TokenEnd(e, p.cur, keymode, k) == Some(j)
    requires (k.LBrack? ==> p.brackets < LEVEL_MAX) && (k.LBrace? ==> p.braces < LEVEL_MAX)
    ensures Counted(e, p, keymode) == Some((k, Past(p, j, k)))
  {
  }

  lemma ValueStarts(e: Env, k: Kind, i: nat, v: Val)
    requires i <= |e.src| && ValueEnd(e, k, i, v).Some?
    ensures k.Scalar? || IsString(k) || k.LBrack? || k.LBrace?
    ensures k.LBrack? <==> v.Arr?
    ensures k.LBrace? <==> v.Tab?
  {
  }

  /** The first token of a value counts one level of its own. */
  lemma DepthSteps(brackets: int, braces: int, k: Kind, v: Val)
    requires (k.LBrack? <==> v.Arr?) && (k.LBrace? <==> v.Tab?) && !k.RBrack? && !k.RBrace?
    ensures Fits(brackets, braces, Depth(v)) <==>
      && (k.LBrack? ==> brackets < LEVEL_MAX) && (k.LBrace? ==> braces < LEVEL_MAX)
      && Fits(brackets + Brackets(k), braces + Braces(k), Inner(v))
  {
  }

  // Where the loops go from a place, one token or value at a time.

  lemma ItemsPastNewline(e: Env, p: Place, level: Level, needComma: bool, i: nat)
    requires p.cur <= |e.src| && TokenEnd(e, p.cur, false, Endl) == Some(i)
    ensures i > p.cur && Items(e, p, level, needComma) == Items(e, p.(cur := i), level, needComma)
  {
    CountedIs(e, p, false, Endl, i);
  }

  lemma ItemsPastComma(e: Env, p: Place, level: Level, i: nat)
    requires p.cur <= |e.src| && TokenEnd(e, p.cur, false, Kind.Comma) == Some(i)
    ensures Items(e, p, level, true) == Items(e, p.(cur := i), level, false)
    ensures Items(e, p, level, false) == Lost(p)
  {
    CountedIs(e, p, false, Kind.Comma, i);
  }

  lemma ItemsAtEnd(e: Env, p: Place, level: Level, needComma: bool, i: nat)
    requires p.cur <= |e.src| && TokenEnd(e, p.cur, false, RBrack) == Some(i)
    ensures Items(e, p, level, needComma) == Good(Past(p, i, RBrack))
  {
    CountedIs(e, p, false, RBrack, i);
  }

  predicate StartsValue(k: Kind) {
    k.Scalar? || IsString(k) || k.LBrack? || k.LBrace?
  }

  lemma ItemsPastValue(e: Env, p: Place, level: Level, k: Kind, q: Place, w: Place)
    requires p.cur <= |e.src| && Counted(e, p, false) == Some((k, q)) && StartsValue(k)
    requires Kept(e, Value(e, q, k, level)) == Good(w)
    ensures Items(e, p, level, false) == Items(e, w, level, true)
  {
  }

  lemma FieldsPastNewline(e: Env, p: Place, level: Level, needComma: bool, i: nat)
    requires p.cur <= |e.src| && TokenEnd(e, p.cur, true, Endl) == Some(i)
    ensures i > p.cur && Fields(e, p, level, needComma) == Fields(e, p.(cur := i), level, needComma)
  {
    CountedIs(e, p, true, Endl, i);
  }

  lemma FieldsPastComma(e: Env, p: Place, level: Level, i: nat)
    requires p.cur <= |e.src| && TokenEnd(e, p.cur, true, Kind.Comma) == Some(i)
    ensures Fields(e, p, level, true) == Fields(e, p.(cur := i), level, false)
    ensures Fields(e, p, level, false) == Lost(p)
  {
    CountedIs(e, p, true, Kind.Comma, i);
  }

  lemma FieldsAtEnd(e: Env, p: Place, level: Level, needComma: bool, i: nat)
    requires p.cur <= |e.src| && TokenEnd(e, p.cur, true, RBrace) == Some(i)
    ensures Fields(e, p, level, needComma) == Good(Past(p, i, RBrace))
  {
    CountedIs(e, p, true, RBrace, i);
  }

  lemma FieldsPastField(e: Env, p: Place, level: Level, k: Kind, q: Place, w: Place)
    requires p.cur <= |e.src| && Counted(e, p, true) == Some((k, q)) && IsKey(k)
    requires TomlParser.Field(e, q, k, level) == Good(w)
    ensures Fields(e, p, level, false) == Fields(e, w, level, true)
  {
  }

  /** A dot and a part of a key behind it, up to m. */
  predicate Dotted(e: Env, i: nat, part: Kind, m: nat) {
    i <= |e.src| && IsKey(part) && Allowed(e, TokenAfter(e, TokenEnd(e, i, true, Dot), true, part)) == Some(m)
  }

  lemma DotPast(e: Env, p: Place, n: nat, part: Kind, m: nat)
    requires n < KEYPART_MAX && Dotted(e, p.cur, part, m)
    ensures m > p.cur && KeyParts(e, p, n) == KeyParts(e, p.(cur := m), n + 1)
  {
    var d := TokenEnd(e, p.cur, true, Dot).value;
    CountedIs(e, p, true, Dot, d);
    CountedIs(e, p.(cur := d), true, part, m);
  }

  predicate EndsKey(k: Kind) {
    k.Equal? || k.RBrack? || k.RRBrack?
  }

  lemma KeyPartsEnd(e: Env, p: Place, n: nat, behind: Kind)
    requires p.cur <= |e.src| && TokenEnd(e, p.cur, true, behind).Some? && EndsKey(behind)
    ensures KeyParts(e, p, n) == Some(Past(p, p.cur, behind))
  {
    CountedIs(e, p, true, behind, TokenEnd(e, p.cur, true, behind).value);
  }

  lemma DottedStep(e: Env, i: nat, rest: seq<Kind>) returns (m: nat)
    requires i <= |e.src| && rest != [] && DottedEnd(e, i, rest).Some?
    ensures m <= |e.src| && Dotted(e, i, rest[0], m) && DottedEnd(e, i, rest) == DottedEnd(e, m, rest[1..])
  {
    m := Allowed(e, TokenAfter(e, TokenEnd(e, i, true, Dot), true, rest[0])).value;
  }

  type KeyReading = (Place, nat) -> Option<Place>

  /** A reading that is the same before and behind a dotted part. */
  ghost predicate PassesDots(e: Env, read: KeyReading) {
    forall p: Place, n: nat, part: Kind, m: nat ::
      n < KEYPART_MAX && Dotted(e, p.cur, part, m) ==> read(p, n) == read(p.(cur := m), n + 1)
  }

  function ReadingOf(e: Env): KeyReading {
    (p: Place, n: nat) => if p.cur <= |e.src| then KeyParts(e, p, n) else None
  }

  lemma ReadingPassesDots(e: Env)
    ensures PassesDots(e, ReadingOf(e))
  {
    forall p: Place, n: nat, part: Kind, m: nat | n < KEYPART_MAX && Dotted(e, p.cur, part, m)
      ensures ReadingOf(e)(p, n) == ReadingOf(e)(p.(cur := m), n + 1)
    {
      DotPast(e, p, n, part, m);
    }
  }

  lemma {:induction false} DotsPassed(e: Env, read: KeyReading, p: Place, n: nat, rest: seq<Kind>, j: nat)
    requires PassesDots(e, read) && p.cur <= |e.src|
    requires DottedEnd(e, p.cur, rest) == Some(j) && n + |rest| <= KEYPART_MAX
    ensures read(p, n) == read(p.(cur := j), n + |rest|)
    decreases |rest|
  {
    if rest != [] {
      var m := DottedStep(e, p.cur, rest);
      DotsPassed(e, read, p.(cur := m), n + 1, rest[1..], j);
    }
  }

  /** The parts of a key, in front of a token that is looked at and put back. */
  lemma KeyPartsRead(e: Env, p: Place, rest: seq<Kind>, j: nat, behind: Kind)
    requires p.cur <= |e.src| && DottedEnd(e, p.cur, rest) == Some(j) && 1 + |rest| <= KEYPART_MAX
    requires TokenEnd(e, j, true, behind).Some? && EndsKey(behind)
    ensures ReadingOf(e)(p, 1) == Some(Past(p, j, behind))
  {
    ReadingPassesDots(e);
    DotsPassed(e, ReadingOf(e), p, 1, rest, j);
    KeyPartsEnd(e, p.(cur := j), 1 + |rest|, behind);
  }

  lemma KeyReads(e: Env, p: Place, k: Kind, key: seq<Kind>, j: nat, behind: Kind)
    requires p.cur <= |e.src| && KeyEnd(e, k, p.cur, key) == Some(j)
    requires TokenEnd(e, j, true, behind).Some? && EndsKey(behind)
    ensures IsKey(k) && Key(e, p, k) == Some(Past(p, j, behind))
  {
    KeyPartsRead(e, p, key[1..], j, behind);
  }

  lemma {:induction false} ValueReads(e: Env, p: Place, k: Kind, level: Level, v: Val, j: nat)
    requires p.cur <= |e.src| && ValueEnd(e, k, p.cur, v) == Some(j) && Fits(p.brackets, p.braces, Inner(v))
    ensures Reaches(Value(e, p, k, level), j, p.brackets - Brackets(k), p.braces - Braces(k), p.headers)
    decreases v, 0
  {
    if v.Arr? {
      SeparatedIs(v.parts, false);
      ItemsRead(e, Deeper(p, InArray(level)), InArray(level), false, v.parts, j);
    } else if v.Tab? {
      SeparatedIs(v.parts, false);
      FieldsRead(e, Deeper(p, InTable(level)), InTable(level), false, v.parts, j);
    }
  }

  /** A value with its first token, as the parser takes it up. */
  lemma {:induction false} ValueAtReads(e: Env, p: Place, level: Level, v: Val, j: nat) returns (k: Kind, q: Place, w: Place)
    requires p.cur <= |e.src| && ValueAt(e, p.cur, v) == Some(j) && Fits(p.brackets, p.braces, Depth(v))
    ensures Counted(e, p, false) == Some((k, q)) && StartsValue(k)
    ensures Kept(e, Value(e, q, k, level)) == Good(w) && Reaches(Good(w), j, p.brackets, p.braces, p.headers)
    decreases v, 1
  {
    var t := TokenAt(e, p.cur, false);
    k := t.kind;
    ValueStarts(e, k, t.next, v);
    DepthSteps(p.brackets, p.braces, k, v);
    CountedIs(e, p, false, k, t.next);
    q := Past(p, t.next, k);
    ValueReads(e, q, k, level, v, j);
    w := Value(e, q, k, level).at;
  }

  /** One piece of an array: where the loop is behind it, waiting for a comma or not. */
  lemma {:induction false} ItemRead(e: Env, p: Place, level: Level, needComma: bool, part: Part, j: nat) returns (w: Place)
    requires p.cur <= |e.src| && PartEnd(e, p.cur, part, false) == Some(j) && Fits(p.brackets, p.braces, PartDepth(part))
    requires part.Newline? || part.Comma? == needComma
    ensures w.cur == j && Reaches(Good(w), j, p.brackets, p.braces, p.headers)
    ensures Items(e, p, level, needComma) == Items(e, w, level, if part.Newline? then needComma else !needComma)
    decreases part
  {
    w := p.(cur := j);
    match part
    case Newline => ItemsPastNewline(e, p, level, needComma, j);
    case Comma => ItemsPastComma(e, p, level, j);
    case Element(v) =>
      var k, q;
      k, q, w := ValueAtReads(e, p, level, v, j);
      ItemsPastValue(e, p, level, k, q, w);
  }

  lemma {:induction false} ItemsRead(e: Env, p: Place, level: Level, needComma: bool, parts: seq<Part>, j: nat)
    requires p.cur <= |e.src| && SeparatedFrom(needComma, parts) && Fits(p.brackets, p.braces, PartsDepth(parts))
    requires TokenAfter(e, PartsEnd(e, p.cur, parts, false), false, RBrack) == Some(j)
    ensures Reaches(Items(e, p, level, needComma), j, p.brackets - 1, p.braces, p.headers)
    decreases parts
  {
    if parts == [] {
      ItemsAtEnd(e, p, level, needComma, j);
    } else {
      FitsBoth(p.brackets, p.braces, PartDepth(parts[0]), PartsDepth(parts[1..]));
      var w := ItemRead(e, p, level, needComma, parts[0], PartEnd(e, p.cur, parts[0], false).value);
      ItemsRead(e, w, level, if parts[0].Newline? then needComma else !needComma, parts[1..], j);
    }
  }

  lemma {:induction false} FieldCellRead(e: Env, p: Place, level: Level, key: seq<Kind>, v: Val, j: nat) returns (w: Place)
    requires p.cur <= |e.src| && PartEnd(e, p.cur, Part.Field(key, v), true) == Some(j) && Fits(p.brackets, p.braces, Depth(v))
    ensures w.cur == j && Reaches(Good(w), j, p.brackets, p.braces, p.headers)
    ensures Fields(e, p, level, false) == Fields(e, w, level, true)
    decreases v, 5
  {
    var k, n, m, b := FieldTokens(e, p.cur, key, v);
    w := FieldRead(e, p, level, key, v, k, n, m, b, j);
    CountedIs(e, p, true, k, n);
    FieldsPastField(e, p, level, k, p.(cur := n), w);
  }

  /** One piece of an inline table. */
  lemma {:induction false} CellRead(e: Env, p: Place, level: Level, needComma: bool, part: Part, j: nat) returns (w: Place)
    requires p.cur <= |e.src| && PartEnd(e, p.cur, part, true) == Some(j) && Fits(p.brackets, p.braces, PartDepth(part))
    requires part.Newline? || part.Comma? == needComma
    ensures w.cur == j && Reaches(Good(w), j, p.brackets, p.braces, p.headers)
    ensures Fields(e, p, level, needComma) == Fields(e, w, level, if part.Newline? then needComma else !needComma)
    decreases part, 1
  {
    w := p.(cur := j);
    match part
    case Newline => FieldsPastNewline(e, p, level, needComma, j);
    case Comma => FieldsPastComma(e, p, level, j);
    case Field(key, v) =>
      w := FieldCellRead(e, p, level, key, v, j);
  }

  lemma {:induction false} FieldsRead(e: Env, p: Place, level: Level, needComma: bool, parts: seq<Part>, j: nat)
    requires p.cur <= |e.src| && SeparatedFrom(needComma, parts) && Fits(p.brackets, p.braces, PartsDepth(parts))
    requires TokenAfter(e, PartsEnd(e, p.cur, parts, true), true, RBrace) == Some(j)
    ensures Reaches(Fields(e, p, level, needComma), j, p.brackets, p.braces - 1, p.headers)
    decreases parts
  {
    if parts == [] {
      FieldsAtEnd(e, p, level, needComma, j);
    } else {
      FitsBoth(p.brackets, p.braces, PartDepth(parts[0]), PartsDepth(parts[1..]));
      var w := CellRead(e, p, level, needComma, parts[0], PartEnd(e, p.cur, parts[0], true).value);
      FieldsRead(e, w, level, if parts[0].Newline? then needComma else !needComma, parts[1..], j);
    }
  }

  lemma FieldIs(e: Env, p: Place, k: Kind, level: Level, m: nat, q: nat)
    requires p.cur <= |e.src| && m <= |e.src| && q <= |e.src| && Key(e, p, k) == Some(p.(cur := m)) && e.accepts(m)
    requires TokenEnd(e, m, false, Equal) == Some(q)
    ensures TomlParser.Field(e, p, k, level) == Assigned(e, p.(cur := q), level)
  {
    CountedIs(e, p.(cur := m), false, Equal, q);
    FieldGoesOn(e, p, k, level, p.(cur := m), p.(cur := q));
  }

  /** A value behind an equals sign. */
  lemma {:induction false} AssignedReads(e: Env, p: Place, level: Level, v: Val, j: nat) returns (w: Place)
    requires p.cur <= |e.src| && ValueAt(e, p.cur, v) == Some(j) && Fits(p.brackets, p.braces, Depth(v))
    ensures Assigned(e, p, level) == Good(w) && Reaches(Good(w), j, p.brackets, p.braces, p.headers)
    decreases v, 2
  {
    var k, q;
    k, q, w := ValueAtReads(e, p, level, v, j);
  }

  /** The tokens and positions of a field: its first token, its key, its equals sign. */
  ghost predicate FieldStarts(e: Env, i: nat, key: seq<Kind>, k: Kind, n: nat, m: nat, b: nat) {
    && i <= |e.src| && n <= |e.src| && m <= |e.src| && IsKey(k)
    && TokenEnd(e, i, true, k) == Some(n) && KeyEnd(e, k, n, key) == Some(m) && e.accepts(m)
    && TokenEnd(e, m, false, Equal) == Some(b) && TokenEnd(e, m, true, Equal).Some?
  }

  lemma FieldTokens(e: Env, i: nat, key: seq<Kind>, v: Val) returns (k: Kind, n: nat, m: nat, b: nat)
    requires i <= |e.src| && PartEnd(e, i, Part.Field(key, v), true).Some?
    ensures FieldStarts(e, i, key, k, n, m, b) && PartEnd(e, i, Part.Field(key, v), true) == ValueAt(e, b, v)
  {
    var t := TokenAt(e, i, true);
    k, n := t.kind, t.next;
    m := KeyEnd(e, k, n, key).value;
    b := TokenEnd(e, m, false, Equal).value;
  }

  /** The key of a field, and the equals sign behind it. */
  lemma FieldKeyReads(e: Env, p: Place, k: Kind, key: seq<Kind>, m: nat)
    requires p.cur <= |e.src| && KeyEnd(e, k, p.cur, key) == Some(m) && TokenEnd(e, m, true, Equal).Some?
    ensures Key(e, p, k) == Some(p.(cur := m))
  {
    KeyReads(e, p, k, key, m, Equal);
  }

  /** A field behind its first token. */
  lemma {:induction false} FieldReads(e: Env, p: Place, level: Level, k: Kind, v: Val, m: nat, b: nat, j: nat) returns (w: Place)
    requires p.cur <= |e.src| && m <= |e.src| && Key(e, p, k) == Some(p.(cur := m)) && e.accepts(m)
    requires TokenEnd(e, m, false, Equal) == Some(b) && ValueAt(e, b, v) == Some(j) && Fits(p.brackets, p.braces, Depth(v))
    ensures TomlParser.Field(e, p, k, level) == Good(w) && Reaches(Good(w), j, p.brackets, p.braces, p.headers)
    decreases v, 3
  {
    FieldIs(e, p, k, level, m, b);
    w := AssignedReads(e, p.(cur := b), level, v, j);
  }

  /** A field with its first token. */
  lemma {:induction false} FieldRead(e: Env, p: Place, level: Level, key: seq<Kind>, v: Val, k: Kind, n: nat, m: nat, b: nat, j: nat)
    returns (w: Place)
    requires FieldStarts(e, p.cur, key, k, n, m, b) && ValueAt(e, b, v) == Some(j) && Fits(p.brackets, p.braces, Depth(v))
    ensures TomlParser.Field(e, p.(cur := n), k, level) == Good(w) && Reaches(Good(w), j, p.brackets, p.braces, p.headers)
    decreases v, 4
  {
    FieldKeyReads(e, p.(cur := n), k, key, m);
    w := FieldReads(e, p.(cur := n), level, k, v, m, b, j);
  }

  // ---------------------------------------------------------------- what is read follows the grammar

  lemma PartsCons(e: Env, i: nat, part: Part, later: seq<Part>, table: bool, needComma: bool)
    requires i <= |e.src|
    ensures PartsEnd(e, i, [part] + later, table) ==
      match PartEnd(e, i, part, table) case None => None case Some(j) => PartsEnd(e, j, later, table)
    ensures SeparatedFrom(needComma, [part] + later) ==
      if part.Newline? then SeparatedFrom(needComma, later) else part.Comma? == needComma && SeparatedFrom(!needComma, later)
    ensures PartsDepth([part] + later) == Deepest(PartDepth(part), PartsDepth(later))
  {
    assert ([part] + later)[1..] == later;
  }

  lemma TokenIs(e: Env, p: Place, keymode: bool)
    requires p.cur <= |e.src| && Counted(e, p, keymode).Some?
    ensures
      var (k, q) := Counted(e, p, keymode).value;
      && TokenEnd(e, p.cur, keymode, k) == Some(q.cur) && q == Past(p, q.cur, k)
      && (k.LBrack? ==> p.brackets < LEVEL_MAX) && (k.LBrace? ==> p.braces < LEVEL_MAX)
  {
  }

  lemma {:induction false} ValueTree(e: Env, p: Place, k: Kind, level: Level) returns (v: Val)
    requires p.cur <= |e.src| && Value(e, p, k, level).Good?
    ensures ValueEnd(e, k, p.cur, v) == Some(Value(e, p, k, level).at.cur) && Fits(p.brackets, p.braces, Inner(v))
    decreases |e.src| - p.cur, if k.LBrack? || k.LBrace? then 2 else 0, 0
  {
    if k.LBrack? {
      var parts := ItemsTree(e, Deeper(p, InArray(level)), InArray(level), false);
      SeparatedIs(parts, false);
      return Arr(parts);
    }
    if k.LBrace? {
      var parts := FieldsTree(e, Deeper(p, InTable(level)), InTable(level), false);
      SeparatedIs(parts, false);
      return Tab(parts);
    }
    return Atom(k);
  }

  /** A value with its first token, and that the parser is back on its level behind it. */
  lemma {:induction false} AssignedTree(e: Env, p: Place, level: Level) returns (v: Val)
    requires p.cur <= |e.src| && Assigned(e, p, level).Good?
    ensures
      var w := Assigned(e, p, level).at;
      && ValueAt(e, p.cur, v) == Some(w.cur) && Fits(p.brackets, p.braces, Depth(v))
      && Reaches(Good(w), w.cur, p.brackets, p.braces, p.headers)
    decreases |e.src| - p.cur, 1, 0
  {
    TokenIs(e, p, false);
    var (k, q) := Counted(e, p, false).value;
    v := ValueTree(e, q, k, level);
    ValueStarts(e, k, q.cur, v);
    DepthSteps(p.brackets, p.braces, k, v);
    var w := AssignedReads(e, p, level, v, Assigned(e, p, level).at.cur);
  }

  lemma {:induction false} ItemsTree(e: Env, p: Place, level: Level, needComma: bool) returns (parts: seq<Part>)
    requires p.cur <= |e.src| && Items(e, p, level, needComma).Good?
    ensures SeparatedFrom(needComma, parts) && Fits(p.brackets, p.braces, PartsDepth(parts))
    ensures TokenAfter(e, PartsEnd(e, p.cur, parts, false), false, RBrack) == Some(Items(e, p, level, needComma).at.cur)
    decreases |e.src| - p.cur, 1, if needComma then 1 else 2
  {
    TokenIs(e, p, false);
    var (k, q) := Counted(e, p, false).value;
    if k.RBrack? {
      return [];
    }
    var part, later;
    if k.Endl? {
      part := Newline;
      later := ItemsTree(e, q, level, needComma);
    } else if k.Comma? {
      part := Part.Comma;
      later := ItemsTree(e, q, level, false);
    } else {
      var v := AssignedTree(e, p, level);
      part := Element(v);
      later := ItemsTree(e, Assigned(e, p, level).at, level, true);
    }
    PartsCons(e, p.cur, part, later, false, needComma);
    FitsBoth(p.brackets, p.braces, PartDepth(part), PartsDepth(later));
    return [part] + later;
  }

  /** The dot and the part that a key goes on with. */
  lemma DotTree(e: Env, p: Place, n: nat) returns (part: Kind, m: nat)
    requires p.cur <= |e.src| && KeyParts(e, p, n).Some? && TokenEnd(e, p.cur, true, Dot).Some?
    ensures p.cur < m <= |e.src| && n < KEYPART_MAX && Dotted(e, p.cur, part, m)
    ensures KeyParts(e, p, n) == KeyParts(e, p.(cur := m), n + 1)
  {
    TokenIs(e, p, true);
    var (k, q) := Counted(e, p, true).value;
    TokenIs(e, q, true);
    var (l, r) := Counted(e, q, true).value;
    part, m := l, r.cur;
  }

  lemma DottedCons(e: Env, i: nat, part: Kind, m: nat, rest: seq<Kind>) returns (all: seq<Kind>)
    requires Dotted(e, i, part, m) && m <= |e.src|
    ensures |all| == |rest| + 1 && DottedEnd(e, i, all) == DottedEnd(e, m, rest)
  {
    all := [part] + rest;
    assert all[1..] == rest;
  }

  /** A key that goes on no further. */
  lemma KeyStops(e: Env, p: Place, n: nat) returns (behind: Kind)
    requires p.cur <= |e.src| && KeyParts(e, p, n).Some? && TokenEnd(e, p.cur, true, Dot).None?
    ensures TokenEnd(e, p.cur, true, behind).Some? && KeyParts(e, p, n) == Some(Past(p, p.cur, behind))
  {
    TokenIs(e, p, true);
    behind := Counted(e, p, true).value.0;
  }

  lemma {:induction false} KeyPartsTree(e: Env, p: Place, n: nat) returns (rest: seq<Kind>, behind: Kind)
    requires p.cur <= |e.src| && KeyParts(e, p, n).Some? && n <= KEYPART_MAX
    ensures n + |rest| <= KEYPART_MAX
    ensures
      var q := KeyParts(e, p, n).value;
      && DottedEnd(e, p.cur, rest) == Some(q.cur) && TokenEnd(e, q.cur, true, behind).Some?
      && q == Past(p, q.cur, behind)
    decreases |e.src| - p.cur
  {
    if TokenEnd(e, p.cur, true, Dot).Some? {
      var part, m := DotTree(e, p, n);
      rest, behind := KeyPartsTree(e, p.(cur := m), n + 1);
      rest := DottedCons(e, p.cur, part, m, rest);
    } else {
      behind := KeyStops(e, p, n);
      rest := [];
    }
  }

  lemma KeyTree(e: Env, p: Place, k: Kind) returns (key: seq<Kind>, behind: Kind)
    requires p.cur <= |e.src| && Key(e, p, k).Some?
    ensures
      var q := Key(e, p, k).value;
      && KeyEnd(e, k, p.cur, key) == Some(q.cur) && TokenEnd(e, q.cur, true, behind).Some? && q == Past(p, q.cur, behind)
  {
    var rest;
    rest, behind := KeyPartsTree(e, p, 1);
    key := [k] + rest;
    assert key[1..] == rest;
  }

  lemma {:induction false} FieldTree(e: Env, p: Place, k: Kind, level: Level) returns (key: seq<Kind>, m: nat, b: nat, v: Val)
    requires p.cur <= |e.src| && TomlParser.Field(e, p, k, level).Good?
    ensures KeyEnd(e, k, p.cur, key) == Some(m) && m <= |e.src| && e.accepts(m) && TokenEnd(e, m, false, Equal) == Some(b)
    ensures
      var w := TomlParser.Field(e, p, k, level).at;
      && ValueAt(e, b, v) == Some(w.cur) && Fits(p.brackets, p.braces, Depth(v))
      && Reaches(Good(w), w.cur, p.brackets, p.braces, p.headers)
    decreases |e.src| - p.cur, 0, 1
  {
    var behind;
    key, behind := KeyTree(e, p, k);
    var q := Key(e, p, k).value;
    m := q.cur;
    TokenIs(e, q, false);
    var r := Counted(e, q, false).value.1;
    b := r.cur;
    assert behind == Equal;
    assert r == p.(cur := b);
    v := AssignedTree(e, r, level);
  }

  /** A field with its first token, as a piece of a table. */
  lemma {:induction false} FieldPartTree(e: Env, p: Place, k: Kind, q: Place, level: Level) returns (part: Part)
    requires p.cur <= q.cur <= |e.src| && TokenEnd(e, p.cur, true, k) == Some(q.cur) && q == Past(p, q.cur, k)
    requires TomlParser.Field(e, q, k, level).Good?
    ensures part.Field? && Fits(p.brackets, p.braces, PartDepth(part))
    ensures
      var w := TomlParser.Field(e, q, k, level).at;
      PartEnd(e, p.cur, part, true) == Some(w.cur) && Reaches(Good(w), w.cur, p.brackets, p.braces, p.headers)
    decreases |e.src| - p.cur, 0, 2
  {
    var key, m, b, v := FieldTree(e, q, k, level);
    part := Part.Field(key, v);
  }

  lemma {:induction false} FieldsTree(e: Env, p: Place, level: Level, needComma: bool) returns (parts: seq<Part>)
    requires p.cur <= |e.src| && Fields(e, p, level, needComma).Good?
    ensures SeparatedFrom(needComma, parts) && Fits(p.brackets, p.braces, PartsDepth(parts))
    ensures TokenAfter(e, PartsEnd(e, p.cur, parts, true), true, RBrace) == Some(Fields(e, p, level, needComma).at.cur)
    decreases |e.src| - p.cur, 1, 0
  {
    TokenIs(e, p, true);
    var (k, q) := Counted(e, p, true).value;
    if k.RBrace? {
      return [];
    }
    var part, later;
    if k.Endl? {
      part := Newline;
      later := FieldsTree(e, q, level, needComma);
    } else if k.Comma? {
      part := Part.Comma;
      later := FieldsTree(e, q, level, false);
    } else {
      part := FieldPartTree(e, p, k, q, level);
      later := FieldsTree(e, TomlParser.Field(e, q, k, level).at, level, true);
    }
    PartsCons(e, p.cur, part, later, true, needComma);
    FitsBoth(p.brackets, p.braces, PartDepth(part), PartsDepth(later));
    return [part] + later;
  }

  // ---------------------------------------------------------------- arrays, tables and values

  /** From i to j: values separated by single commas, newlines anywhere between, perhaps a comma at the end, and the bracket. */
  predicate ArrayTo(e: Env, i: nat, parts: seq<Part>, j: nat)
    requires i <= |e.src|
  {
    Separated(parts) && TokenAfter(e, PartsEnd(e, i, parts, false), false, RBrack) == Some(j)
  }

  /** The same with keys and values, up to the brace. */
  predicate TableTo(e: Env, i: nat, parts: seq<Part>, j: nat)
    requires i <= |e.src|
  {
    Separated(parts) && TokenAfter(e, PartsEnd(e, i, parts, true), true, RBrace) == Some(j)
  }

  predicate EndsAt(r: Outcome, j: nat) {
    r.Good? && r.at.cur == j
  }

  /** An inline array is read up to j just when the grammar says so and the level limits allow it. */
  lemma ArraysFollow(e: Env, p: Place, level: Level, j: nat)
    requires p.cur <= |e.src|
    ensures EndsAt(Items(e, p, level, false), j)
      <==> exists parts :: ArrayTo(e, p.cur, parts, j) && Fits(p.brackets, p.braces, PartsDepth(parts))
  {
    if EndsAt(Items(e, p, level, false), j) {
      var parts := ItemsTree(e, p, level, false);
      SeparatedIs(parts, false);
      assert ArrayTo(e, p.cur, parts, j);
    }
    if parts :| ArrayTo(e, p.cur, parts, j) && Fits(p.brackets, p.braces, PartsDepth(parts)) {
      SeparatedIs(parts, false);
      ItemsRead(e, p, level, false, parts, j);
    }
  }

  lemma TablesFollow(e: Env, p: Place, level: Level, j: nat)
    requires p.cur <= |e.src|
    ensures EndsAt(Fields(e, p, level, false), j)
      <==> exists parts :: TableTo(e, p.cur, parts, j) && Fits(p.brackets, p.braces, PartsDepth(parts))
  {
    if EndsAt(Fields(e, p, level, false), j) {
      var parts := FieldsTree(e, p, level, false);
      SeparatedIs(parts, false);
      assert TableTo(e, p.cur, parts, j);
    }
    if parts :| TableTo(e, p.cur, parts, j) && Fits(p.brackets, p.braces, PartsDepth(parts)) {
      SeparatedIs(parts, false);
      FieldsRead(e, p, level, false, parts, j);
    }
  }

  /** A value behind an equals sign. */
  lemma ValuesFollow(e: Env, p: Place, level: Level, j: nat)
    requires p.cur <= |e.src|
    ensures EndsAt(Assigned(e, p, level), j)
      <==> exists v :: ValueAt(e, p.cur, v) == Some(j) && Fits(p.brackets, p.braces, Depth(v))
  {
    if EndsAt(Assigned(e, p, level), j) {
      var v := AssignedTree(e, p, level);
    }
    if v :| ValueAt(e, p.cur, v) == Some(j) && Fits(p.brackets, p.braces, Depth(v)) {
      var w := AssignedReads(e, p, level, v, j);
    }
  }
}
