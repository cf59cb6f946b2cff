/** The grammar of documents, line by line, and that the parser accepts just what it describes. */
module TomlDocuments {
  import opened Common
  import opened TomlStrings
  import opened TomlParser
  import opened TomlDepth
  import opened TomlSyntax

  // ---------------------------------------------------------------- the grammar

  /** A line: nothing, a [table] header, a [[table]] header, or a key and a value. */
  datatype Row = Blank | Table(key: seq<Kind>) | Tables(key: seq<Kind>) | Assign(key: seq<Kind>, v: Val)

  /** Where a key ends that starts at i. */
  function KeyAt(e: Env, i: nat, key: seq<Kind>): (r: Option<nat>)
    requires i <= |e.src|
    ensures r.Some? ==> i <= r.value <= |e.src|
  {
    match TokenAt(e, i, true)
    case NoToken => None
    case Token(k, n) => KeyEnd(e, k, n, key)
  }

  /** Where a header ends: its opening token, a key, its closing token. */
  function HeaderTo(e: Env, i: nat, opening: Kind, key: seq<Kind>, closing: Kind): (r: Option<nat>)
    requires i <= |e.src|
    ensures r.Some? ==> i <= r.value <= |e.src|
  {
    match TokenEnd(e, i, true, opening)
    case None => None
    case Some(n) => Allowed(e, TokenAfter(e, KeyAt(e, n, key), true, closing))
  }

  /** Where the text of a line ends. */
  function RowEnd(e: Env, i: nat, row: Row): (r: Option<nat>)
    requires i <= |e.src|
    ensures r.Some? ==> i <= r.value <= |e.src|
  {
    match row
    case Blank => Some(i)
    case Table(key) => HeaderTo(e, i, LBrack, key, RBrack)
    case Tables(key) => HeaderTo(e, i, LLBrack, key, RRBrack)
    case Assign(key, v) =>
      var j := Allowed(e, TokenAfter(e, KeyAt(e, i, key), true, Equal));
      if j.Some? then ValueAt(e, j.value, v) else None
  }

  /** A document from i on: lines, each behind a newline but the first. */
  predicate DocumentAt(e: Env, i: nat, rows: seq<Row>)
    requires i <= |e.src|
    decreases |rows|
  {
    rows != [] && RowEnd(e, i, rows[0]).Some?
    && var j := RowEnd(e, i, rows[0]).value;
       if |rows| == 1 then TokenEnd(e, j, true, Fin).Some?
       else TokenEnd(e, j, true, Endl).Some? && DocumentAt(e, TokenEnd(e, j, true, Endl).value, rows[1..])
  }

  /** No value nests too deep; every [table] header before it allows one more array. */
  predicate WithinLimits(headers: nat, rows: seq<Row>)
    decreases |rows|
  {
    rows != [] ==>
      && (rows[0].Assign? ==> Fits(0 - headers, 0, Depth(rows[0].v)))
      && WithinLimits(if rows[0].Table? then headers + 1 else headers, rows[1..])
  }

  // ---------------------------------------------------------------- what follows the grammar is read

  /** Between lines: every header has left one bracket less than there is. */
  predicate Between(p: Place) {
    p.brackets + p.headers == 0 && p.braces == 0
  }

  lemma HeaderIs(e: Env, p: Place, k: Kind, q: Place, r: Place, closing: Kind, w: Place)
    requires p.cur <= |e.src| && q.cur <= |e.src| && r.cur <= |e.src|
    requires Counted(e, p, true) == Some((k, q)) && Key(e, q, k) == Some(r)
    requires Counted(e, r, true) == Some((closing, w)) && e.accepts(w.cur)
    ensures Header(e, p, closing) == Good(if closing.RBrack? then w.(headers := w.headers + 1) else w)
  {
  }

  lemma KeyAtTokens(e: Env, i: nat, key: seq<Kind>) returns (k: Kind, n: nat)
    requires i <= |e.src| && KeyAt(e, i, key).Some?
    ensures n <= |e.src| && TokenEnd(e, i, true, k) == Some(n) && IsKey(k) && KeyEnd(e, k, n, key) == KeyAt(e, i, key)
  {
    var t := TokenAt(e, i, true);
    k, n := t.kind, t.next;
  }

  /** A key, looked past at the token behind it. */
  lemma KeyAtReads(e: Env, p: Place, key: seq<Kind>, j: nat, behind: Kind) returns (k: Kind, q: Place)
    requires p.cur <= |e.src| && KeyAt(e, p.cur, key) == Some(j) && TokenEnd(e, j, true, behind).Some? && EndsKey(behind)
    ensures q.cur <= |e.src| && Counted(e, p, true) == Some((k, q)) && IsKey(k)
    ensures Key(e, q, k) == Some(Past(p, j, behind))
  {
    var n;
    k, n := KeyAtTokens(e, p.cur, key);
    CountedIs(e, p, true, k, n);
    q := p.(cur := n);
    KeyReads(e, q, k, key, j, behind);
  }

  /** A header behind its opening token: its closing one counts twice. */
  lemma HeaderReads(e: Env, p: Place, key: seq<Kind>, closing: Kind, j: nat, c: nat)
    requires p.cur <= |e.src| && KeyAt(e, p.cur, key) == Some(j) && (closing.RBrack? || closing.RRBrack?)
    requires TokenEnd(e, j, true, closing) == Some(c) && e.accepts(c)
    ensures
      var w := Past(Past(p, j, closing), c, closing);
      Header(e, p, closing) == Good(if closing.RBrack? then w.(headers := w.headers + 1) else w)
  {
    var k, q := KeyAtReads(e, p, key, j, closing);
    var r := Past(p, j, closing);
    CountedIs(e, r, true, closing, c);
    HeaderIs(e, p, k, q, r, closing, Past(r, c, closing));
  }

  /** The tokens and positions of a header. */
  lemma HeaderTokens(e: Env, i: nat, opening: Kind, key: seq<Kind>, closing: Kind) returns (n: nat, j: nat, c: nat)
    requires i <= |e.src| && HeaderTo(e, i, opening, key, closing).Some?
    ensures n <= |e.src| && TokenEnd(e, i, true, opening) == Some(n) && KeyAt(e, n, key) == Some(j)
    ensures j <= |e.src| && TokenEnd(e, j, true, closing) == Some(c) && e.accepts(c) && HeaderTo(e, i, opening, key, closing) == Some(c)
  {
    n := TokenEnd(e, i, true, opening).value;
    j := KeyAt(e, n, key).value;
    c := TokenEnd(e, j, true, closing).value;
  }

  /** A line that is not blank, from its first token to its end. */
  ghost predicate LineTo(e: Env, p: Place, first: Kind, q: Place, w: Place)
    requires p.cur <= |e.src| && q.cur <= |e.src|
  {
    Counted(e, p, true) == Some((first, q)) && !first.Fin? && !first.Endl? && Line(e, q, first) == Good(w)
  }

  /** Where the parser is behind a line. */
  predicate BehindLine(p: Place, row: Row, j: nat, w: Place) {
    Between(w) && w.cur == j && w.headers == if row.Table? then p.headers + 1 else p.headers
  }

  lemma TableReads(e: Env, p: Place, row: Row, j: nat) returns (first: Kind, q: Place, w: Place)
    requires p.cur <= |e.src| && RowEnd(e, p.cur, row) == Some(j) && Between(p) && (row.Table? || row.Tables?)
    ensures q.cur <= |e.src| && LineTo(e, p, first, q, w) && BehindLine(p, row, j, w)
  {
    first := if row.Table? then LBrack else LLBrack;
    var closing := if row.Table? then RBrack else RRBrack;
    var n, m, c := HeaderTokens(e, p.cur, first, row.key, closing);
    CountedIs(e, p, true, first, n);
    q := Past(p, n, first);
    HeaderReads(e, q, row.key, closing, m, c);
    w := Header(e, q, closing).at;
  }

  lemma AssignTokens(e: Env, i: nat, key: seq<Kind>, v: Val) returns (j: nat, b: nat)
    requires i <= |e.src| && RowEnd(e, i, Assign(key, v)).Some?
    ensures KeyAt(e, i, key) == Some(j) && j <= |e.src| && TokenEnd(e, j, true, Equal) == Some(b) && e.accepts(b)
    ensures RowEnd(e, i, Assign(key, v)) == ValueAt(e, b, v)
  {
    j := KeyAt(e, i, key).value;
    b := TokenEnd(e, j, true, Equal).value;
  }

  lemma AssignReads(e: Env, p: Place, key: seq<Kind>, v: Val, j: nat) returns (first: Kind, q: Place, w: Place)
    requires p.cur <= |e.src| && RowEnd(e, p.cur, Assign(key, v)) == Some(j) && Between(p)
    requires Fits(p.brackets, p.braces, Depth(v))
    ensures q.cur <= |e.src| && LineTo(e, p, first, q, w) && BehindLine(p, Assign(key, v), j, w)
  {
    var m, b := AssignTokens(e, p.cur, key, v);
    first, q := KeyAtReads(e, p, key, m, Equal);
    var r := p.(cur := b);
    CountedIs(e, p.(cur := m), true, Equal, b);
    KeyValueIs(e, q, first, p.(cur := m), r);
    w := AssignedReads(e, r, GROUND, v, j);
  }

  lemma DocumentPastBlank(e: Env, p: Place, i: nat)
    requires p.cur <= |e.src| && TokenEnd(e, p.cur, true, Endl) == Some(i)
    ensures i > p.cur && Document(e, p) == Document(e, p.(cur := i))
  {
    CountedIs(e, p, true, Endl, i);
  }

  lemma DocumentAtEnd(e: Env, p: Place)
    requires p.cur <= |e.src| && TokenEnd(e, p.cur, true, Fin).Some?
    ensures Document(e, p).Good?
  {
    CountedIs(e, p, true, Fin, TokenEnd(e, p.cur, true, Fin).value);
  }

  lemma LineReads(e: Env, p: Place, row: Row, j: nat) returns (first: Kind, q: Place, w: Place)
    requires p.cur <= |e.src| && RowEnd(e, p.cur, row) == Some(j) && Between(p) && !row.Blank?
    requires row.Assign? ==> Fits(p.brackets, p.braces, Depth(row.v))
    ensures q.cur <= |e.src| && LineTo(e, p, first, q, w) && BehindLine(p, row, j, w)
  {
    if row.Assign? {
      first, q, w := AssignReads(e, p, row.key, row.v, j);
    } else {
      first, q, w := TableReads(e, p, row, j);
    }
  }

  /** A line and what ends it. */
  lemma RowReads(e: Env, p: Place, row: Row, j: nat, last: Kind, i: nat) returns (v: Place)
    requires p.cur <= |e.src| && RowEnd(e, p.cur, row) == Some(j) && Between(p)
    requires row.Assign? ==> Fits(p.brackets, p.braces, Depth(row.v))
    requires TokenEnd(e, j, true, last) == Some(i) && (last.Endl? || (last.Fin? && !row.Blank?))
    ensures BehindLine(p, row, i, v) && Document(e, p) == Document(e, v)
  {
    if row.Blank? {
      v := p.(cur := i);
      DocumentPastBlank(e, p, i);
    } else {
      var first, q, w := LineReads(e, p, row, j);
      v := w.(cur := i);
      CountedIs(e, w, true, last, i);
      DocumentPastLine(e, p, first, q, w, last, v);
    }
  }

  /** The lines of a document from a place on. */
  lemma {:induction false} DocumentReads(e: Env, p: Place, rows: seq<Row>)
    requires p.cur <= |e.src| && DocumentAt(e, p.cur, rows) && Between(p) && WithinLimits(p.headers, rows)
    ensures Document(e, p).Good?
    decreases |rows|
  {
    var j := RowEnd(e, p.cur, rows[0]).value;
    if |rows| > 1 {
      var v := RowReads(e, p, rows[0], j, Endl, TokenEnd(e, j, true, Endl).value);
      DocumentReads(e, v, rows[1..]);
    } else if rows[0].Blank? {
      DocumentAtEnd(e, p);
    } else {
      var v := RowReads(e, p, rows[0], j, Fin, TokenEnd(e, j, true, Fin).value);
      DocumentAtEnd(e, v);
    }
  }

  // ---------------------------------------------------------------- what is read follows the grammar

  /** A key with its first token. */
  lemma KeyAtTree(e: Env, p: Place) returns (key: seq<Kind>, behind: Kind)
    requires p.cur <= |e.src| && Counted(e, p, true).Some? && IsKey(Counted(e, p, true).value.0)
    requires Key(e, Counted(e, p, true).value.1, Counted(e, p, true).value.0).Some?
    ensures
      var r := Key(e, Counted(e, p, true).value.1, Counted(e, p, true).value.0).value;
      && KeyAt(e, p.cur, key) == Some(r.cur) && TokenEnd(e, r.cur, true, behind).Some? && r == Past(p, r.cur, behind)
  {
    TokenIs(e, p, true);
    var (k, q) := Counted(e, p, true).value;
    key, behind := KeyTree(e, q, k);
  }

  lemma HeaderTree(e: Env, p: Place, closing: Kind) returns (key: seq<Kind>, j: nat, c: nat)
    requires p.cur <= |e.src| && Header(e, p, closing).Good? && (closing.RBrack? || closing.RRBrack?)
    ensures KeyAt(e, p.cur, key) == Some(j) && j <= |e.src| && TokenEnd(e, j, true, closing) == Some(c) && e.accepts(c)
    ensures Header(e, p, closing).at.cur == c
  {
    var behind;
    key, behind := KeyAtTree(e, p);
    var (k, q) := Counted(e, p, true).value;
    var r := Key(e, q, k).value;
    TokenIs(e, r, true);
    j, c := r.cur, Counted(e, r, true).value.1.cur;
  }

  /** A header line. */
  lemma TableTree(e: Env, p: Place, first: Kind, q: Place) returns (row: Row)
    requires p.cur <= |e.src| && Counted(e, p, true) == Some((first, q)) && (first.LBrack? || first.LLBrack?)
    requires Line(e, q, first).Good? && Between(p)
    ensures
      var w := Line(e, q, first).at;
      && RowEnd(e, p.cur, row) == Some(w.cur) && BehindLine(p, row, w.cur, w) && (row.Table? || row.Tables?)
  {
    TokenIs(e, p, true);
    var closing := if first.LBrack? then RBrack else RRBrack;
    var key, j, c := HeaderTree(e, q, closing);
    row := if first.LBrack? then Table(key) else Tables(key);
    HeaderReads(e, q, key, closing, j, c);
  }

  /** A line with a key and a value. */
  lemma AssignTree(e: Env, p: Place, first: Kind, q: Place) returns (row: Row)
    requires p.cur <= |e.src| && Counted(e, p, true) == Some((first, q)) && !first.LBrack? && !first.LLBrack?
    requires Line(e, q, first).Good? && Between(p)
    ensures
      var w := Line(e, q, first).at;
      && RowEnd(e, p.cur, row) == Some(w.cur) && BehindLine(p, row, w.cur, w)
      && row.Assign? && Fits(p.brackets, p.braces, Depth(row.v))
  {
    var key, behind := KeyAtTree(e, p);
    TokenIs(e, p, true);
    var r := Key(e, q, first).value;
    TokenIs(e, r, true);
    var t := Counted(e, r, true).value.1;
    KeyValueIs(e, q, first, r, t);
    var v := AssignedTree(e, t, GROUND);
    row := Assign(key, v);
  }

  lemma LineTree(e: Env, p: Place, first: Kind, q: Place) returns (row: Row)
    requires p.cur <= |e.src| && Counted(e, p, true) == Some((first, q)) && Line(e, q, first).Good? && Between(p)
    ensures
      var w := Line(e, q, first).at;
      && RowEnd(e, p.cur, row) == Some(w.cur) && BehindLine(p, row, w.cur, w)
      && !row.Blank? && (row.Assign? ==> Fits(p.brackets, p.braces, Depth(row.v)))
  {
    if first.LBrack? || first.LLBrack? {
      row := TableTree(e, p, first, q);
    } else {
      row := AssignTree(e, p, first, q);
    }
  }

  /** What a document that is read and does not start with a newline consists of. */
  lemma DocumentStep(e: Env, p: Place) returns (first: Kind, q: Place, w: Place, last: Kind, v: Place)
    requires p.cur <= |e.src| && Document(e, p).Good?
    requires TokenEnd(e, p.cur, true, Fin).None? && TokenEnd(e, p.cur, true, Endl).None?
    ensures Counted(e, p, true) == Some((first, q)) && Line(e, q, first) == Good(w)
    ensures w.cur <= |e.src| && TokenEnd(e, w.cur, true, last) == Some(v.cur) && (last.Fin? || last.Endl?)
    ensures v == w.(cur := v.cur) && p.cur < v.cur && Document(e, v) == Document(e, p)
  {
    TokenIs(e, p, true);
    first, q := Counted(e, p, true).value.0, Counted(e, p, true).value.1;
    w := Line(e, q, first).at;
    TokenIs(e, w, true);
    last, v := Counted(e, w, true).value.0, Counted(e, w, true).value.1;
  }

  lemma RowsCons(e: Env, i: nat, row: Row, j: nat, n: nat, later: seq<Row>, headers: nat) returns (rows: seq<Row>)
    requires i <= |e.src| && RowEnd(e, i, row) == Some(j) && TokenEnd(e, j, true, Endl) == Some(n)
    requires later != [] && DocumentAt(e, n, later)
    requires row.Assign? ==> Fits(0 - headers, 0, Depth(row.v))
    requires WithinLimits(if row.Table? then headers + 1 else headers, later)
    ensures rows != [] && DocumentAt(e, i, rows) && WithinLimits(headers, rows)
  {
    rows := [row] + later;
    assert ([row] + later)[1..] == later;
  }

  lemma OneRow(e: Env, i: nat, row: Row, j: nat, headers: nat) returns (rows: seq<Row>)
    requires i <= |e.src| && RowEnd(e, i, row) == Some(j) && TokenEnd(e, j, true, Fin).Some?
    requires row.Assign? ==> Fits(0 - headers, 0, Depth(row.v))
    ensures rows != [] && DocumentAt(e, i, rows) && WithinLimits(headers, rows)
  {
    rows := [row];
    assert [row][1..] == [];
  }

  lemma FullRowTree(e: Env, p: Place) returns (row: Row, j: nat, last: Kind, v: Place)
    requires p.cur <= |e.src| && Document(e, p).Good? && Between(p)
    requires TokenEnd(e, p.cur, true, Fin).None? && TokenEnd(e, p.cur, true, Endl).None?
    ensures RowEnd(e, p.cur, row) == Some(j) && TokenEnd(e, j, true, last) == Some(v.cur) && (last.Fin? || last.Endl?)
    ensures row.Assign? ==> Fits(0 - p.headers, 0, Depth(row.v))
    ensures BehindLine(p, row, v.cur, v) && p.cur < v.cur && Document(e, v).Good?
  {
    var first, q, w;
    first, q, w, last, v := DocumentStep(e, p);
    row := LineTree(e, p, first, q);
    j := w.cur;
  }

  /** The first line of a document, and the place behind what ends it. */
  lemma RowTree(e: Env, p: Place) returns (row: Row, j: nat, last: Kind, v: Place)
    requires p.cur <= |e.src| && Document(e, p).Good? && Between(p)
    ensures RowEnd(e, p.cur, row) == Some(j) && TokenEnd(e, j, true, last) == Some(v.cur) && (last.Fin? || last.Endl?)
    ensures row.Assign? ==> Fits(0 - p.headers, 0, Depth(row.v))
    ensures last.Endl? ==> BehindLine(p, row, v.cur, v) && p.cur < v.cur && Document(e, v).Good?
  {
    var end, newline := TokenEnd(e, p.cur, true, Fin), TokenEnd(e, p.cur, true, Endl);
    if end.Some? {
      row, j, last, v := Blank, p.cur, Fin, p.(cur := end.value);
    } else if newline.Some? {
      row, j, last, v := Blank, p.cur, Endl, p.(cur := newline.value);
      DocumentPastBlank(e, p, newline.value);
    } else {
      row, j, last, v := FullRowTree(e, p);
    }
  }

  datatype Step = Step(row: Row, j: nat, last: Kind, v: Place)

  /** A line from p on up to j, and the token behind it up to v. */
  ghost predicate StepAt(e: Env, p: Place, t: Step) {
    && p.cur <= |e.src| && RowEnd(e, p.cur, t.row) == Some(t.j) && TokenEnd(e, t.j, true, t.last) == Some(t.v.cur)
    && (t.last.Fin? || t.last.Endl?) && (t.row.Assign? ==> Fits(0 - p.headers, 0, Depth(t.row.v)))
    && (t.last.Endl? ==> BehindLine(p, t.row, t.v.cur, t.v) && p.cur < t.v.cur)
  }

  /** A reading that, where it succeeds, starts with a line and goes on behind it. */
  ghost predicate GoesByLines(e: Env, read: Place -> bool) {
    forall p: Place :: p.cur <= |e.src| && read(p) && Between(p) ==>
      exists t :: StepAt(e, p, t) && (t.last.Endl? ==> read(t.v))
  }

  function Succeeds(e: Env): Place -> bool {
    (p: Place) => p.cur <= |e.src| && Document(e, p).Good?
  }

  lemma DocumentGoesByLines(e: Env)
    ensures GoesByLines(e, Succeeds(e))
  {
    forall p: Place | p.cur <= |e.src| && Succeeds(e)(p) && Between(p)
      ensures exists t :: StepAt(e, p, t) && (t.last.Endl? ==> Succeeds(e)(t.v))
    {
      var row, j, last, v := RowTree(e, p);
      assert StepAt(e, p, Step(row, j, last, v));
    }
  }

  lemma StepCons(e: Env, p: Place, t: Step, later: seq<Row>) returns (rows: seq<Row>)
    requires StepAt(e, p, t) && p.brackets + p.headers == 0
    requires t.last.Endl? ==> later != [] && DocumentAt(e, t.v.cur, later) && WithinLimits(t.v.headers, later)
    ensures rows != [] && DocumentAt(e, p.cur, rows) && WithinLimits(p.headers, rows)
  {
    if t.last.Fin? {
      rows := OneRow(e, p.cur, t.row, t.j, p.headers);
    } else {
      rows := RowsCons(e, p.cur, t.row, t.j, t.v.cur, later, p.headers);
    }
  }

  lemma {:induction false} RowsOf(e: Env, read: Place -> bool, p: Place) returns (rows: seq<Row>)
    requires GoesByLines(e, read) && p.cur <= |e.src| && read(p) && Between(p)
    ensures rows != [] && DocumentAt(e, p.cur, rows) && WithinLimits(p.headers, rows)
    decreases |e.src| - p.cur
  {
    var t :| StepAt(e, p, t) && (t.last.Endl? ==> read(t.v));
    var later := [];
    if t.last.Endl? {
      later := RowsOf(e, read, t.v);
    }
    rows := StepCons(e, p, t, later);
  }

  /** The whole text is lines that the limits allow. */
  predicate Spells(e: Env, rows: seq<Row>) {
    DocumentAt(e, 0, rows) && WithinLimits(0, rows)
  }

  /**
   * A text is accepted just when its tokens are lines as the grammar has them, with values that
   * nest no deeper than the limits allow, and every operation on trees succeeds.
   */
  lemma DocumentsFollow(e: Env)
    ensures Document(e, OUTSET).Good? <==> exists rows :: Spells(e, rows)
  {
    if Document(e, OUTSET).Good? {
      DocumentGoesByLines(e);
      var rows := RowsOf(e, Succeeds(e), OUTSET);
      assert Spells(e, rows);
    }
    if rows :| Spells(e, rows) {
      DocumentReads(e, OUTSET, rows);
    }
  }
}
