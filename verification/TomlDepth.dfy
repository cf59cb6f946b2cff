/** How deep the parser gets: an upper bound for every text, and texts that attain it. */
module TomlDepth {
  import opened Common
  import opened TomlStrings
  import opened TomlParser

  // ---------------------------------------------------------------- the bound

  /** At most 30 arrays plus one for each header, and at most 30 tables. */
  predicate Within(level: Level, headers: nat) {
    level.arrays <= LEVEL_MAX + headers && level.tables <= LEVEL_MAX
  }

  /** Between tokens, inside `a` arrays and `t` tables: every header leaves one bracket less than there is. */
  ghost predicate Balanced(p: Place, a: nat, t: nat) {
    && p.brackets == a - p.headers && p.braces == t
    && a <= LEVEL_MAX + p.headers && t <= LEVEL_MAX && Within(p.deepest, p.headers)
  }

  /** The same when one more token has been counted. */
  ghost predicate Counting(p: Place, a: nat, t: nat, k: Kind) {
    && p.brackets == a - p.headers + Brackets(k) && p.braces == t + Braces(k)
    && a <= LEVEL_MAX + p.headers && t <= LEVEL_MAX && Within(p.deepest, p.headers)
    && (k.LBrack? ==> p.brackets <= LEVEL_MAX) && (k.LBrace? ==> p.braces <= LEVEL_MAX)
  }

  /** Success keeps the balance, and failure comes within the bound. */
  ghost predicate Stays(r: Outcome, a: nat, t: nat) {
    match r
    case Good(at) => Balanced(at, a, t)
    case Failed(headers, deepest) => Within(deepest, headers)
  }

  lemma {:induction false} KeyPartsCount(e: Env, p: Place, n: nat)
    requires p.cur <= |e.src| && KeyParts(e, p, n).Some?
    ensures
      var q := KeyParts(e, p, n).value;
      var k := TokenAt(e, q.cur, true);
      k.Token? && q.brackets == p.brackets + Brackets(k.kind) && q.braces == p.braces + Braces(k.kind)
    decreases |e.src| - p.cur
  {
    var (k, q) := Counted(e, p, true).value;
    if k.Dot? {
      var (part, r) := Counted(e, q, true).value;
      KeyPartsCount(e, r, n + 1);
    }
  }

  lemma {:induction false} ValueStays(e: Env, p: Place, k: Kind, level: Level, a: nat, t: nat)
    requires p.cur <= |e.src| && Counting(p, a, t, k) && level == Level(a, t)
    ensures Stays(Value(e, p, k, level), a, t)
    decreases |e.src| - p.cur, if k.LBrack? || k.LBrace? then 2 else 0, 0
  {
    if k.LBrack? {
      ItemsStay(e, Deeper(p, InArray(level)), InArray(level), a + 1, t, false);
    } else if k.LBrace? {
      FieldsStay(e, Deeper(p, InTable(level)), InTable(level), a, t + 1, false);
    }
  }

  lemma {:induction false} AssignedStays(e: Env, p: Place, level: Level, a: nat, t: nat)
    requires p.cur <= |e.src| && Balanced(p, a, t) && level == Level(a, t)
    ensures Stays(Assigned(e, p, level), a, t)
    decreases |e.src| - p.cur, 3, 0
  {
    var v := Counted(e, p, false);
    if v.Some? {
      ValueStays(e, v.value.1, v.value.0, level, a, t);
    }
  }

  lemma {:induction false} ItemsStay(e: Env, p: Place, level: Level, a: nat, t: nat, needComma: bool)
    requires p.cur <= |e.src| && Balanced(p, a, t) && a > 0 && level == Level(a, t)
    ensures Stays(Items(e, p, level, needComma), a - 1, t)
    decreases |e.src| - p.cur, 1, if needComma then 0 else 1
  {
    if Counted(e, p, false).Some? {
      var (k, q) := Counted(e, p, false).value;
      if k.Endl? {
        ItemsStay(e, q, level, a, t, needComma);
      } else if k.Comma? && needComma {
        ItemsStay(e, q, level, a, t, false);
      } else if !k.RBrack? && !k.Comma? && !needComma {
        ValueStays(e, q, k, level, a, t);
        var r := Kept(e, Value(e, q, k, level));
        if r.Good? {
          ItemsStay(e, r.at, level, a, t, true);
        }
      }
    }
  }

  lemma {:induction false} FieldStays(e: Env, p: Place, first: Kind, level: Level, a: nat, t: nat)
    requires p.cur <= |e.src| && Counting(p, a, t, first) && level == Level(a, t)
    ensures Stays(Field(e, p, first, level), a, t)
    decreases |e.src| - p.cur, 0, 1
  {
    var q := Key(e, p, first);
    if q.Some? && e.accepts(q.value.cur) {
      var r := Counted(e, q.value, false);
      if r.Some? && r.value.0.Equal? {
        EqualRead(e, p, first, a, t);
        AssignedStays(e, r.value.1, level, a, t);
      }
    }
  }

  /** The token behind a key, counted when it was looked at, was the equals sign then too. */
  lemma EqualRead(e: Env, p: Place, first: Kind, a: nat, t: nat)
    requires p.cur <= |e.src| && Counting(p, a, t, first) && Key(e, p, first).Some?
    requires
      var r := Counted(e, Key(e, p, first).value, false);
      r.Some? && r.value.0.Equal?
    ensures Balanced(Counted(e, Key(e, p, first).value, false).value.1, a, t)
  {
    KeyPartsCount(e, p, 1);
  }

  lemma {:induction false} FieldsStay(e: Env, p: Place, level: Level, a: nat, t: nat, needComma: bool)
    requires p.cur <= |e.src| && Balanced(p, a, t) && t > 0 && level == Level(a, t)
    ensures Stays(Fields(e, p, level, needComma), a, t - 1)
    decreases |e.src| - p.cur, 1, 0
  {
    if Counted(e, p, true).Some? {
      var (k, q) := Counted(e, p, true).value;
      if k.Endl? {
        FieldsStay(e, q, level, a, t, needComma);
      } else if k.Comma? && needComma {
        FieldsStay(e, q, level, a, t, false);
      } else if !k.RBrace? && !k.Comma? && !needComma {
        FieldStays(e, q, k, level, a, t);
        var r := Field(e, q, k, level);
        if r.Good? {
          FieldsStay(e, r.at, level, a, t, true);
        }
      }
    }
  }

  lemma HeaderStays(e: Env, p: Place, closing: Kind)
    requires p.cur <= |e.src| && Counting(p, 0, 0, if closing.RBrack? then LBrack else LLBrack)
    requires closing.RBrack? || closing.RRBrack?
    ensures Stays(Header(e, p, closing), 0, 0)
  {
    var k := Counted(e, p, true);
    if k.Some? {
      var (first, q) := k.value;
      if Key(e, q, first).Some? {
        KeyPartsCount(e, q, 1);
      }
    }
  }

  lemma KeyValueStays(e: Env, p: Place, first: Kind)
    requires p.cur <= |e.src| && Counting(p, 0, 0, first)
    ensures Stays(KeyValue(e, p, first), 0, 0)
  {
    if Key(e, p, first).Some? {
      KeyPartsCount(e, p, 1);
      var q := Key(e, p, first).value;
      var r := Counted(e, q, true);
      if r.Some? && r.value.0.Equal? {
        AssignedStays(e, r.value.1, GROUND, 0, 0);
      }
    }
  }

  lemma LineStays(e: Env, p: Place, first: Kind)
    requires p.cur <= |e.src| && Counting(p, 0, 0, first)
    ensures Stays(Line(e, p, first), 0, 0)
  {
    if first.LBrack? {
      HeaderStays(e, p, RBrack);
    } else if first.LLBrack? {
      HeaderStays(e, p, RRBrack);
    } else {
      KeyValueStays(e, p, first);
    }
  }

  /**
   * Every text: at most 30 arrays, plus one for each [table] header read before, and at most 30
   * inline tables are open at once; and the bracket counter ends as far below zero as there are headers.
   */
  lemma {:induction false} DocumentStays(e: Env, p: Place)
    requires p.cur <= |e.src| && Balanced(p, 0, 0)
    ensures Stays(Document(e, p), 0, 0)
    decreases |e.src| - p.cur
  {
    if Counted(e, p, true).Some? {
      var (first, q) := Counted(e, p, true).value;
      if first.Endl? {
        DocumentStays(e, q);
      } else if !first.Fin? {
        LineStays(e, q, first);
        var r := Line(e, q, first);
        if r.Good? && Counted(e, r.at, true).Some? {
          var (k, v) := Counted(e, r.at, true).value;
          if k.Fin? || k.Endl? {
            DocumentStays(e, v);
          }
        }
      }
    }
  }

  // ---------------------------------------------------------------- texts that attain it

  const OPEN: uint8 := 0x5B
  const CLOSE: uint8 := 0x5D
  const LETTER: uint8 := 0x61
  const EQUALS: uint8 := 0x3D

  ghost predicate Stretch(s: Bytes, i: nat, n: nat, c: uint8) {
    i + n <= |s| && forall k :: i <= k < i + n ==> s[k] == c
  }

  ghost predicate OfText(e: Env, x: Scanners) {
    forall i: nat, keymode: bool :: i <= |e.src| ==> e.token(i, keymode) == Next(x, e.src, i, keymode)
  }

  /** The tokens are those of the text, and all that is done with trees succeeds. */
  ghost predicate AcceptsAll(e: Env) {
    (forall i :: e.accepts(i)) && exists x :: OfText(e, x)
  }

  lemma ReadsBracket(e: Env, p: Place)
    requires AcceptsAll(e) && p.cur < |e.src|
    ensures e.src[p.cur] == OPEN ==>
      Counted(e, p, false) ==
        if p.brackets + 1 > LEVEL_MAX then None else Some((LBrack, p.(cur := p.cur + 1, brackets := p.brackets + 1)))
    ensures e.src[p.cur] == CLOSE ==>
      Counted(e, p, false) == Some((RBrack, p.(cur := p.cur + 1, brackets := p.brackets - 1)))
  {
  }

  /** Another bracket inside an array: refused at the limit, otherwise one array deeper. */
  lemma OpensInner(e: Env, p: Place, level: Level)
    requires AcceptsAll(e) && p.cur < |e.src| && e.src[p.cur] == OPEN
    ensures
      var q := Deeper(p.(cur := p.cur + 1, brackets := p.brackets + 1), InArray(level));
      Items(e, p, level, false) ==
        if p.brackets + 1 > LEVEL_MAX then Lost(p)
        else
          match Items(e, q, InArray(level), false)
          case Failed(n, d) => Failed(n, d)
          case Good(at) => Items(e, at, level, true)
  {
    ReadsBracket(e, p);
    if p.brackets + 1 <= LEVEL_MAX {
      var q := p.(cur := p.cur + 1, brackets := p.brackets + 1);
      assert Value(e, q, LBrack, level) == Items(e, Deeper(q, InArray(level)), InArray(level), false);
    }
  }

  lemma ClosesArray(e: Env, p: Place, level: Level, needComma: bool)
    requires AcceptsAll(e) && p.cur < |e.src| && e.src[p.cur] == CLOSE
    ensures Items(e, p, level, needComma) == Good(p.(cur := p.cur + 1, brackets := p.brackets - 1))
  {
    ReadsBracket(e, p);
  }

  /** Inside an array: m more of them, one in the other, pass just when the counter allows it. */
  lemma {:induction false} NestedRead(e: Env, p: Place, level: Level, m: nat)
    requires AcceptsAll(e) && Stretch(e.src, p.cur, m, OPEN) && Stretch(e.src, p.cur + m, m + 1, CLOSE)
    ensures
      var r := Items(e, p, level, false);
      if m > 0 && p.brackets + m > LEVEL_MAX then r.Failed?
      else r == Good(Place(p.cur + 2 * m + 1, p.brackets - 1, p.braces, p.headers, if m == 0 then p.deepest else Deepest(p.deepest, level.(arrays := level.arrays + m))))
    decreases m
  {
    if m == 0 {
      ClosesArray(e, p, level, false);
    } else {
      OpensInner(e, p, level);
      var q := Deeper(p.(cur := p.cur + 1, brackets := p.brackets + 1), InArray(level));
      NestedRead(e, q, InArray(level), m - 1);
      if p.brackets + m <= LEVEL_MAX {
        ClosesArray(e, Items(e, q, InArray(level), false).at, level, true);
      }
    }
  }

  lemma {:induction false} BareRun(s: Bytes, i: nat, n: nat)
    requires Stretch(s, i, n, LETTER) && i + n < |s| && (s[i + n] == CLOSE || s[i + n] == EQUALS)
    ensures BareEnd(s, i) == i + n
    decreases n
  {
    if n > 0 {
      BareRun(s, i + 1, n - 1);
    }
  }

  /** A header line: a name of n letters in brackets. */
  ghost predicate HeaderAt(s: Bytes, i: nat, n: nat) {
    n > 0 && i + n + 3 <= |s| && s[i] == OPEN && Stretch(s, i + 1, n, LETTER) && s[i + n + 1] == CLOSE && s[i + n + 2] == NL
  }

  /** The closing bracket is counted when it is looked at and when it is read. */
  lemma NameRead(e: Env, q: Place, n: nat)
    requires AcceptsAll(e) && n > 0 && Stretch(e.src, q.cur, n, LETTER) && q.cur + n + 1 < |e.src|
    requires e.src[q.cur + n] == CLOSE && e.src[q.cur + n + 1] == NL
    ensures Header(e, q, RBrack) ==
      Good(q.(cur := q.cur + n + 1, brackets := q.brackets - 2, headers := q.headers + 1))
  {
    BareRun(e.src, q.cur, n);
    var k := q.(cur := q.cur + n);
    assert Counted(e, q, true) == Some((Lit, k));
    ReadsClose(e, k);
    var back := k.(brackets := k.brackets - 1);
    assert KeyParts(e, k, 1) == Some(back);
    ReadsClose(e, back);
  }

  lemma ReadsClose(e: Env, p: Place)
    requires AcceptsAll(e) && p.cur + 1 < |e.src| && e.src[p.cur] == CLOSE && e.src[p.cur + 1] == NL
    ensures Counted(e, p, true) == Some((RBrack, p.(cur := p.cur + 1, brackets := p.brackets - 1)))
  {
  }

  lemma ReadsNewline(e: Env, p: Place)
    requires AcceptsAll(e) && p.cur < |e.src| && e.src[p.cur] == NL
    ensures Counted(e, p, true) == Some((Endl, p.(cur := p.cur + 1)))
  {
  }

  lemma ReadsHeaderBracket(e: Env, p: Place)
    requires AcceptsAll(e) && p.cur + 1 < |e.src| && e.src[p.cur] == OPEN && e.src[p.cur + 1] == LETTER && p.brackets < LEVEL_MAX
    ensures Counted(e, p, true) == Some((LBrack, p.(cur := p.cur + 1, brackets := p.brackets + 1)))
  {
  }

  lemma LineRead(e: Env, p: Place, n: nat)
    requires AcceptsAll(e) && HeaderAt(e.src, p.cur, n) && p.brackets < LEVEL_MAX
    ensures
      var q := p.(cur := p.cur + 1, brackets := p.brackets + 1);
      Line(e, q, LBrack) == Good(p.(cur := p.cur + n + 2, brackets := p.brackets - 1, headers := p.headers + 1))
  {
    NameRead(e, p.(cur := p.cur + 1, brackets := p.brackets + 1), n);
  }

  /** A line, and the newline or the end of the text behind it. */
  lemma DocumentPastLine(e: Env, p: Place, first: Kind, q: Place, w: Place, last: Kind, v: Place)
    requires p.cur <= |e.src| && Counted(e, p, true) == Some((first, q)) && !first.Fin? && !first.Endl?
    requires Line(e, q, first) == Good(w) && Counted(e, w, true) == Some((last, v)) && (last.Endl? || last.Fin?)
    ensures Document(e, p) == Document(e, v)
  {
  }

  ghost predicate AtHeader(e: Env, p: Place, n: nat) {
    HeaderAt(e.src, p.cur, n) && p.brackets < LEVEL_MAX
  }

  /** Behind the closing bracket. */
  function Closed(p: Place, n: nat): Place {
    p.(cur := p.cur + n + 2, brackets := p.brackets - 1, headers := p.headers + 1)
  }

  ghost predicate BracketsScan(e: Env) {
    forall p: Place, n: nat :: AtHeader(e, p, n) ==>
      Counted(e, p, true) == Some((LBrack, p.(cur := p.cur + 1, brackets := p.brackets + 1)))
  }

  ghost predicate NamesScan(e: Env) {
    forall p: Place, n: nat :: AtHeader(e, p, n) ==>
      Line(e, p.(cur := p.cur + 1, brackets := p.brackets + 1), LBrack) == Good(Closed(p, n))
  }

  ghost predicate NewlinesScan(e: Env) {
    forall p: Place, n: nat :: AtHeader(e, p, n) ==> Counted(e, Closed(p, n), true) == Some((Endl, Behind(p, n)))
  }

  lemma AllBracketsScan(e: Env)
    requires AcceptsAll(e)
    ensures BracketsScan(e)
  {
    forall p: Place, n: nat | AtHeader(e, p, n)
      ensures Counted(e, p, true) == Some((LBrack, p.(cur := p.cur + 1, brackets := p.brackets + 1)))
    {
      ReadsHeaderBracket(e, p);
    }
  }

  lemma AllNamesScan(e: Env)
    requires AcceptsAll(e)
    ensures NamesScan(e)
  {
    forall p: Place, n: nat | AtHeader(e, p, n)
      ensures Line(e, p.(cur := p.cur + 1, brackets := p.brackets + 1), LBrack) == Good(Closed(p, n))
    {
      LineRead(e, p, n);
    }
  }

  lemma AllNewlinesScan(e: Env)
    requires AcceptsAll(e)
    ensures NewlinesScan(e)
  {
    forall p: Place, n: nat | AtHeader(e, p, n)
      ensures Counted(e, Closed(p, n), true) == Some((Endl, Behind(p, n)))
    {
      ReadsNewline(e, Closed(p, n));
    }
  }

  /** Reading a header line leaves the bracket counter one lower. */
  lemma HeaderRead(e: Env, p: Place, n: nat)
    requires BracketsScan(e) && NamesScan(e) && NewlinesScan(e) && AtHeader(e, p, n)
    ensures Document(e, p) == Document(e, Behind(p, n))
  {
    DocumentPastLine(e, p, LBrack, p.(cur := p.cur + 1, brackets := p.brackets + 1), Closed(p, n), Endl, Behind(p, n));
  }

  /** Lines with longer and longer names, so that no table is defined twice. */
  function Headers(from: nat, h: nat): Bytes
    requires from <= h
    decreases h - from
  {
    if from == h then [] else HeaderLine(from + 1) + Headers(from + 1, h)
  }

  function Repeat(c: uint8, n: nat): (s: Bytes)
    ensures |s| == n && forall i :: 0 <= i < n ==> s[i] == c
  {
    seq(n, i => c)
  }

  function HeaderLine(n: nat): (s: Bytes)
    ensures |s| == n + 3
  {
    [OPEN] + Repeat(LETTER, n) + [CLOSE, NL]
  }

  /** A key and n arrays, one in the other. */
  function Arrays(n: nat): (s: Bytes)
    ensures |s| == 2 * n + 2
  {
    [LETTER, EQUALS] + Repeat(OPEN, n) + Repeat(CLOSE, n)
  }

  ghost predicate HeadersAt(s: Bytes, i: nat, from: nat, h: nat)
    decreases h - from
  {
    from < h ==> HeaderAt(s, i, from + 1) && HeadersAt(s, i + from + 4, from + 1, h)
  }

  /** Behind a header line with n letters. */
  function Behind(p: Place, n: nat): Place {
    p.(cur := p.cur + n + 3, brackets := p.brackets - 1, headers := p.headers + 1)
  }

  /** A reading that is the same before and behind a header line. */
  ghost predicate PassesHeaders(s: Bytes, doc: Place -> Outcome) {
    forall p: Place, n: nat ::
      HeaderAt(s, p.cur, n) && p.brackets < LEVEL_MAX ==> doc(p) == doc(Behind(p, n))
  }

  function Reading(e: Env): Place -> Outcome {
    (p: Place) => if p.cur <= |e.src| then Document(e, p) else Lost(p)
  }

  lemma ReadingPasses(e: Env)
    requires BracketsScan(e) && NamesScan(e) && NewlinesScan(e)
    ensures PassesHeaders(e.src, Reading(e))
  {
    forall p: Place, n: nat | HeaderAt(e.src, p.cur, n) && p.brackets < LEVEL_MAX
      ensures Reading(e)(p) == Reading(e)(Behind(p, n))
    {
      HeaderRead(e, p, n);
    }
  }

  lemma {:induction false} HeadersPassed(s: Bytes, doc: Place -> Outcome, p: Place, from: nat, h: nat)
    requires PassesHeaders(s, doc) && from <= h && HeadersAt(s, p.cur, from, h) && p.brackets + p.headers == 0
    ensures
      doc(p) ==
        doc(p.(cur := p.cur + |Headers(from, h)|, brackets := p.brackets - (h - from), headers := p.headers + (h - from)))
    decreases h - from
  {
    if from < h {
      HeadersPassed(s, doc, Behind(p, from + 1), from + 1, h);
    }
  }

  lemma LineInText(s: Bytes, pre: Bytes, line: Bytes, rest: Bytes)
    requires s == pre + line + rest
    ensures forall i :: |pre| <= i < |pre| + |line| ==> s[i] == line[i - |pre|]
  {
  }

  lemma {:induction false} HeadersInText(s: Bytes, pre: Bytes, from: nat, h: nat, rest: Bytes)
    requires from <= h && s == pre + Headers(from, h) + rest
    ensures HeadersAt(s, |pre|, from, h)
    decreases h - from
  {
    if from < h {
      var line, later := HeaderLine(from + 1), Headers(from + 1, h);
      assert s == pre + line + (later + rest) && s == (pre + line) + later + rest;
      LineInText(s, pre, line, later + rest);
      HeadersInText(s, pre + line, from + 1, h, rest);
    }
  }

  lemma ReadsLetter(e: Env, p: Place)
    requires AcceptsAll(e) && p.cur + 1 < |e.src| && e.src[p.cur] == LETTER && e.src[p.cur + 1] == EQUALS
    ensures Counted(e, p, true) == Some((Lit, p.(cur := p.cur + 1)))
  {
    BareRun(e.src, p.cur, 1);
  }

  lemma ReadsEquals(e: Env, p: Place)
    requires AcceptsAll(e) && p.cur < |e.src| && e.src[p.cur] == EQUALS
    ensures Counted(e, p, true) == Some((Equal, p.(cur := p.cur + 1)))
  {
  }

  /** The value of the last line. */
  lemma ArraysValue(e: Env, p: Place, n: nat)
    requires AcceptsAll(e) && n > 0 && p.deepest == GROUND
    requires Stretch(e.src, p.cur, n, OPEN) && Stretch(e.src, p.cur + n, n, CLOSE)
    ensures
      var r := Assigned(e, p, GROUND);
      if p.brackets + n > LEVEL_MAX then r.Failed? else r == Good(p.(cur := p.cur + 2 * n, deepest := Level(n, 0)))
  {
    ReadsBracket(e, p);
    if p.brackets + 1 <= LEVEL_MAX {
      var q := p.(cur := p.cur + 1, brackets := p.brackets + 1);
      NestedRead(e, Deeper(q, Level(1, 0)), Level(1, 0), n - 1);
    }
  }

  lemma ArraysKey(e: Env, p: Place)
    requires AcceptsAll(e) && p.cur < |e.src| && e.src[p.cur] == EQUALS
    ensures Key(e, p, Lit) == Some(p) && Counted(e, p, true) == Some((Equal, p.(cur := p.cur + 1)))
  {
    ReadsEquals(e, p);
    assert KeyParts(e, p, 1) == Some(p);
  }

  lemma KeyValueIs(e: Env, p: Place, k: Kind, q: Place, r: Place)
    requires p.cur <= |e.src| && q.cur <= |e.src| && r.cur <= |e.src|
    requires Key(e, p, k) == Some(q) && Counted(e, q, true) == Some((Equal, r)) && e.accepts(r.cur)
    ensures KeyValue(e, p, k) == Assigned(e, r, GROUND)
  {
  }

  /** The last line, with n arrays in it. */
  lemma ArraysRead(e: Env, p: Place, n: nat)
    requires AcceptsAll(e) && n > 0 && p.cur + 2 * n + 2 == |e.src| && p.deepest == GROUND
    requires e.src[p.cur] == LETTER && e.src[p.cur + 1] == EQUALS
    requires Stretch(e.src, p.cur + 2, n, OPEN) && Stretch(e.src, p.cur + 2 + n, n, CLOSE)
    ensures
      var r := KeyValue(e, p.(cur := p.cur + 1), Lit);
      if p.brackets + n > LEVEL_MAX then r.Failed? else r == Good(p.(cur := |e.src|, deepest := Level(n, 0)))
  {
    var key, r := p.(cur := p.cur + 1), p.(cur := p.cur + 2);
    ArraysKey(e, key);
    KeyValueIs(e, key, Lit, key, r);
    ArraysValue(e, r, n);
  }

  lemma ReadsEnd(e: Env, p: Place)
    requires AcceptsAll(e) && p.cur == |e.src|
    ensures Counted(e, p, true) == Some((Fin, p)) && Document(e, p) == Good(p)
  {
  }

  lemma LastLine(e: Env, p: Place, n: nat)
    requires AcceptsAll(e) && n > 0 && p.cur + 2 * n + 2 == |e.src| && p.deepest == GROUND
    requires e.src[p.cur] == LETTER && e.src[p.cur + 1] == EQUALS
    requires Stretch(e.src, p.cur + 2, n, OPEN) && Stretch(e.src, p.cur + 2 + n, n, CLOSE)
    ensures
      var r := Document(e, p);
      if p.brackets + n > LEVEL_MAX then r.Failed? else r == Good(p.(cur := |e.src|, deepest := Level(n, 0)))
  {
    ReadsLetter(e, p);
    ArraysRead(e, p, n);
    ReadsEnd(e, p.(cur := |e.src|, deepest := Level(n, 0)));
  }

  const ACCEPTING: nat -> bool := i => true

  /** h table headers, and behind them n arrays, one in the other. */
  function Text(h: nat, n: nat): Bytes {
    Headers(0, h) + Arrays(n)
  }

  lemma TextShape(h: nat, n: nat)
    ensures
      var s, i := Text(h, n), |Headers(0, h)|;
      && HeadersAt(s, 0, 0, h) && |s| == i + 2 * n + 2 && s[i] == LETTER && s[i + 1] == EQUALS
      && Stretch(s, i + 2, n, OPEN) && Stretch(s, i + 2 + n, n, CLOSE)
  {
    var s := Text(h, n);
    assert s == [] + Headers(0, h) + Arrays(n) && s == Headers(0, h) + Arrays(n) + [];
    HeadersInText(s, [], 0, h, Arrays(n));
    LineInText(s, Headers(0, h), Arrays(n), []);
  }

  lemma AllPassed(s: Bytes, doc: Place -> Outcome, h: nat, i: nat)
    requires PassesHeaders(s, doc) && HeadersAt(s, 0, 0, h) && i == |Headers(0, h)|
    ensures doc(OUTSET) == doc(Place(i, 0 - h, 0, h, GROUND))
  {
    HeadersPassed(s, doc, OUTSET, 0, h);
    assert OUTSET.(cur := 0 + i, brackets := 0 - (h - 0), headers := 0 + (h - 0)) == Place(i, 0 - h, 0, h, GROUND);
  }

  /**
   * Behind h headers, arrays nest 30 + h deep and no deeper: the text is accepted just up to
   * there, and the parser then has been as deep as the text says. Without a header that is 30.
   */
  lemma DepthAttained(scanners: Scanners, h: nat, n: nat)
    requires n > 0
    ensures
      var r := Document(EnvOf(scanners, Text(h, n), ACCEPTING), OUTSET);
      && (r.Good? <==> n <= LEVEL_MAX + h)
      && (r.Good? ==> r.at.deepest == Level(n, 0) && r.at.headers == h)
  {
    var e, i := EnvOf(scanners, Text(h, n), ACCEPTING), |Headers(0, h)|;
    assert OfText(e, scanners);
    TextShape(h, n);
    AllBracketsScan(e);
    AllNamesScan(e);
    AllNewlinesScan(e);
    ReadingPasses(e);
    AllPassed(e.src, Reading(e), h, i);
    LastLine(e, Place(i, 0 - h, 0, h, GROUND), n);
  }
}
