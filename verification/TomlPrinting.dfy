/** Trees of arrays and tables written out as text are read as those trees. */
module TomlPrinting {
  import opened Common
  import opened TomlStrings
  import opened TomlParser
  import opened TomlDepth
  import opened TomlSyntax
  import opened TomlDocuments

  const DOT: uint8 := 0x2E
  const COMMA: uint8 := 0x2C
  const OPEN_BRACE: uint8 := 0x7B
  const CLOSE_BRACE: uint8 := 0x7D

  // ---------------------------------------------------------------- writing

  /** Dots and bare keys of one letter. */
  function PrintDotted(rest: seq<Kind>): Bytes {
    if rest == [] then [] else [DOT, LETTER] + PrintDotted(rest[1..])
  }

  function Print(v: Val): Bytes
    decreases v
  {
    match v
    case Atom(_) => []
    case Arr(parts) => [OPEN] + PrintParts(parts) + [CLOSE]
    case Tab(parts) => [OPEN_BRACE] + PrintParts(parts) + [CLOSE_BRACE]
  }

  function PrintPart(part: Part): Bytes
    decreases part
  {
    match part
    case Newline => [NL]
    case Comma => [COMMA]
    case Element(v) => Print(v)
    case Field(key, v) => [LETTER] + PrintDotted(if key == [] then [] else key[1..]) + [EQUALS] + Print(v)
  }

  function PrintParts(parts: seq<Part>): Bytes
    decreases parts
  {
    if parts == [] then [] else PrintPart(parts[0]) + PrintParts(parts[1..])
  }

  predicate AllBare(key: seq<Kind>) {
    forall n :: 0 <= n < |key| ==> key[n] == Lit
  }

  /** Arrays and tables only, separated as they must be, with bare keys. */
  predicate Plain(v: Val)
    decreases v
  {
    match v
    case Atom(_) => false
    case Arr(parts) => Separated(parts) && PlainParts(parts, false)
    case Tab(parts) => Separated(parts) && PlainParts(parts, true)
  }

  predicate PlainPart(part: Part, table: bool)
    decreases part
  {
    match part
    case Element(v) => !table && Plain(v)
    case Field(key, v) => table && 0 < |key| <= KEYPART_MAX && AllBare(key) && Plain(v)
    case _ => true
  }

  predicate PlainParts(parts: seq<Part>, table: bool)
    decreases parts
  {
    parts == [] || (PlainPart(parts[0], table) && PlainParts(parts[1..], table))
  }

  // ---------------------------------------------------------------- the tokens of single bytes

  /** The bytes of a text from i to j. */
  predicate Has(s: Bytes, i: nat, j: nat, b: Bytes) {
    i <= j <= |s| && s[i..j] == b
  }

  lemma HasSplit(s: Bytes, i: nat, j: nat, a: Bytes, b: Bytes)
    requires Has(s, i, j, a + b)
    ensures i + |a| <= j && Has(s, i, i + |a|, a) && Has(s, i + |a|, j, b)
  {
    var m := i + |a|;
    assert s[i..m] == s[i..j][..|a|] && s[m..j] == s[i..j][|a|..];
  }

  lemma HasByte(s: Bytes, i: nat, j: nat, c: uint8)
    requires Has(s, i, j, [c])
    ensures j == i + 1 && s[i] == c
  {
    assert s[i..j][0] == s[i];
  }

  /** The tokens of one byte, in both modes or in one. */
  function ByteToken(c: uint8, keymode: bool): Option<Kind> {
    if c == NL then Some(Endl)
    else if c == DOT then Some(Dot)
    else if c == COMMA then Some(Kind.Comma)
    else if c == EQUALS then Some(Equal)
    else if c == OPEN_BRACE then Some(LBrace)
    else if c == CLOSE_BRACE then Some(RBrace)
    else if c == OPEN && !keymode then Some(LBrack)
    else if c == CLOSE && !keymode then Some(RBrack)
    else None
  }

  lemma ByteIsToken(x: Scanners, s: Bytes, i: nat, keymode: bool)
    requires i < |s| && ByteToken(s[i], keymode).Some?
    ensures Next(x, s, i, keymode) == Token(ByteToken(s[i], keymode).value, i + 1)
  {
  }

  /** A letter in front of a dot or an equals sign is a key. */
  lemma LetterIsKey(x: Scanners, s: Bytes, i: nat)
    requires i + 1 < |s| && s[i] == LETTER && (s[i + 1] == DOT || s[i + 1] == EQUALS)
    ensures Next(x, s, i, true) == Token(Lit, i + 1)
  {
    assert BareEnd(s, i + 1) == i + 1;
    assert BareEnd(s, i) == i + 1;
  }

  /** The tokens are those of the bytes, and all that is done with trees succeeds. */
  ghost predicate Reads(e: Env) {
    && (forall i: nat, keymode: bool :: i < |e.src| && ByteToken(e.src[i], keymode).Some? ==>
          TokenAt(e, i, keymode) == Token(ByteToken(e.src[i], keymode).value, i + 1))
    && (forall i: nat :: i + 1 < |e.src| && e.src[i] == LETTER && (e.src[i + 1] == DOT || e.src[i + 1] == EQUALS) ==>
          TokenAt(e, i, true) == Token(Lit, i + 1))
    && (forall i :: e.accepts(i))
  }

  lemma TextReads(x: Scanners, s: Bytes)
    ensures Reads(EnvOf(x, s, ACCEPTING))
  {
    var e := EnvOf(x, s, ACCEPTING);
    forall i: nat, keymode: bool | i < |s| && ByteToken(s[i], keymode).Some?
      ensures TokenAt(e, i, keymode) == Token(ByteToken(s[i], keymode).value, i + 1)
    {
      ByteIsToken(x, s, i, keymode);
    }
    forall i: nat | i + 1 < |s| && s[i] == LETTER && (s[i + 1] == DOT || s[i + 1] == EQUALS)
      ensures TokenAt(e, i, true) == Token(Lit, i + 1)
    {
      LetterIsKey(x, s, i);
    }
  }

  // ---------------------------------------------------------------- reading it back

  predicate DotOrEquals(c: uint8) {
    c == DOT || c == EQUALS
  }

  lemma DotAndLetter(e: Env, i: nat)
    requires Reads(e) && i + 2 < |e.src| && e.src[i] == DOT && e.src[i + 1] == LETTER && DotOrEquals(e.src[i + 2])
    ensures Dotted(e, i, Lit, i + 2)
  {
    assert ByteToken(e.src[i], true) == Some(Dot);
  }

  lemma DottedMore(e: Env, i: nat, rest: seq<Kind>, m: nat)
    requires rest != [] && Dotted(e, i, rest[0], m) && m <= |e.src|
    ensures DottedEnd(e, i, rest) == DottedEnd(e, m, rest[1..])
  {
  }

  lemma {:induction false} DottedBytes(s: Bytes, i: nat, rest: seq<Kind>, j: nat)
    requires Has(s, i, j, PrintDotted(rest)) && j < |s| && s[j] == EQUALS
    ensures i < |s| && DotOrEquals(s[i])
    ensures rest != [] ==> i + 2 <= j && s[i] == DOT && s[i + 1] == LETTER && Has(s, i + 2, j, PrintDotted(rest[1..]))
  {
    if rest != [] {
      HasSplit(s, i, j, [DOT, LETTER], PrintDotted(rest[1..]));
      assert s[i] == s[i..i + 2][0] && s[i + 1] == s[i..i + 2][1];
    }
  }

  lemma {:induction false} DottedPrinted(e: Env, i: nat, rest: seq<Kind>, j: nat)
    requires Reads(e) && Has(e.src, i, j, PrintDotted(rest)) && AllBare(rest)
    requires j < |e.src| && e.src[j] == EQUALS
    ensures DottedEnd(e, i, rest) == Some(j)
    decreases |rest|
  {
    DottedBytes(e.src, i, rest, j);
    if rest != [] {
      DottedBytes(e.src, i + 2, rest[1..], j);
      DotAndLetter(e, i);
      DottedMore(e, i, rest, i + 2);
      DottedPrinted(e, i + 2, rest[1..], j);
    }
  }

  /** Something between two bytes. */
  lemma Enclosed(s: Bytes, i: nat, j: nat, a: uint8, b: Bytes, c: uint8)
    requires Has(s, i, j, [a] + b + [c])
    ensures i + 1 <= j - 1 && s[i] == a && s[j - 1] == c && Has(s, i + 1, j - 1, b)
  {
    HasSplit(s, i, j, [a] + b, [c]);
    HasSplit(s, i, j - 1, [a], b);
    HasByte(s, i, i + 1, a);
    HasByte(s, j - 1, j, c);
  }

  lemma ArrayEnd(e: Env, i: nat, parts: seq<Part>, j: nat)
    requires Reads(e) && i + 1 < j <= |e.src| && e.src[i] == OPEN && e.src[j - 1] == CLOSE
    requires Separated(parts) && PartsEnd(e, i + 1, parts, false) == Some(j - 1)
    ensures ValueAt(e, i, Arr(parts)) == Some(j)
  {
    assert ByteToken(e.src[i], false) == Some(LBrack) && ByteToken(e.src[j - 1], false) == Some(RBrack);
    assert TokenEnd(e, j - 1, false, RBrack) == Some(j);
  }

  lemma TableEnd(e: Env, i: nat, parts: seq<Part>, j: nat)
    requires Reads(e) && i + 1 < j <= |e.src| && e.src[i] == OPEN_BRACE && e.src[j - 1] == CLOSE_BRACE
    requires Separated(parts) && PartsEnd(e, i + 1, parts, true) == Some(j - 1)
    ensures ValueAt(e, i, Tab(parts)) == Some(j)
  {
    assert ByteToken(e.src[i], false) == Some(LBrace) && ByteToken(e.src[j - 1], true) == Some(RBrace);
    assert TokenEnd(e, j - 1, true, RBrace) == Some(j);
  }

  lemma {:induction false} ValuePrinted(e: Env, i: nat, v: Val, j: nat)
    requires Reads(e) && Has(e.src, i, j, Print(v)) && Plain(v)
    ensures ValueAt(e, i, v) == Some(j)
    decreases v
  {
    if v.Arr? {
      Enclosed(e.src, i, j, OPEN, PrintParts(v.parts), CLOSE);
      PartsPrinted(e, i + 1, v.parts, false, j - 1);
      ArrayEnd(e, i, v.parts, j);
    } else {
      Enclosed(e.src, i, j, OPEN_BRACE, PrintParts(v.parts), CLOSE_BRACE);
      PartsPrinted(e, i + 1, v.parts, true, j - 1);
      TableEnd(e, i, v.parts, j);
    }
  }

  /** The bytes of a key, and the equals sign behind it. */
  lemma KeyBytes(s: Bytes, i: nat, rest: seq<Kind>, j: nat, b: Bytes) returns (m: nat)
    requires Has(s, i, j, [LETTER] + PrintDotted(rest) + [EQUALS] + b)
    ensures i + 1 <= m < j + 1 && m < |s| && s[i] == LETTER && s[m] == EQUALS && DotOrEquals(s[i + 1])
    ensures Has(s, i + 1, m, PrintDotted(rest)) && m + 1 <= j && Has(s, m + 1, j, b)
  {
    var name := [LETTER] + PrintDotted(rest);
    HasSplit(s, i, j, name + [EQUALS], b);
    m := i + |name|;
    Enclosed(s, i, m + 1, LETTER, PrintDotted(rest), EQUALS);
    DottedBytes(s, i + 1, rest, m);
  }

  lemma KeyPrinted(e: Env, i: nat, key: seq<Kind>, m: nat)
    requires Reads(e) && 0 < |key| <= KEYPART_MAX && AllBare(key) && Has(e.src, i + 1, m, PrintDotted(key[1..]))
    requires m < |e.src| && e.src[m] == EQUALS && e.src[i] == LETTER && DotOrEquals(e.src[i + 1])
    ensures TokenAt(e, i, true) == Token(Lit, i + 1) && KeyEnd(e, Lit, i + 1, key) == Some(m)
    ensures TokenEnd(e, m, false, Equal) == Some(m + 1) && TokenEnd(e, m, true, Equal) == Some(m + 1)
  {
    DottedPrinted(e, i + 1, key[1..], m);
    assert ByteToken(e.src[m], false) == Some(Equal) && ByteToken(e.src[m], true) == Some(Equal);
  }

  lemma FieldEnd(e: Env, i: nat, key: seq<Kind>, v: Val, m: nat)
    requires Reads(e) && m <= |e.src| && i + 1 <= |e.src|
    requires TokenAt(e, i, true) == Token(Lit, i + 1) && KeyEnd(e, Lit, i + 1, key) == Some(m)
    requires TokenEnd(e, m, false, Equal) == Some(m + 1)
    ensures PartEnd(e, i, Part.Field(key, v), true) == ValueAt(e, m + 1, v)
  {
  }

  lemma {:induction false} PartPrinted(e: Env, i: nat, part: Part, table: bool, j: nat)
    requires Reads(e) && Has(e.src, i, j, PrintPart(part)) && PlainPart(part, table)
    ensures PartEnd(e, i, part, table) == Some(j)
    decreases part
  {
    match part
    case Newline =>
      HasByte(e.src, i, j, NL);
      assert ByteToken(e.src[i], table) == Some(Endl);
    case Comma =>
      HasByte(e.src, i, j, COMMA);
      assert ByteToken(e.src[i], table) == Some(Kind.Comma);
    case Element(v) => ValuePrinted(e, i, v, j);
    case Field(key, v) =>
      var m := KeyBytes(e.src, i, key[1..], j, Print(v));
      KeyPrinted(e, i, key, m);
      FieldEnd(e, i, key, v, m);
      ValuePrinted(e, m + 1, v, j);
  }

  lemma {:induction false} PartsPrinted(e: Env, i: nat, parts: seq<Part>, table: bool, j: nat)
    requires Reads(e) && Has(e.src, i, j, PrintParts(parts)) && PlainParts(parts, table)
    ensures PartsEnd(e, i, parts, table) == Some(j)
    decreases parts
  {
    if parts != [] {
      var first := PrintPart(parts[0]);
      HasSplit(e.src, i, j, first, PrintParts(parts[1..]));
      PartPrinted(e, i, parts[0], table, i + |first|);
      PartsPrinted(e, i + |first|, parts[1..], table, j);
    }
  }

  lemma LineEnd(e: Env, v: Val, j: nat)
    requires Reads(e) && |e.src| > 1 && TokenAt(e, 0, true) == Token(Lit, 1) && KeyEnd(e, Lit, 1, [Lit]) == Some(1)
    requires TokenEnd(e, 1, true, Equal) == Some(2) && ValueAt(e, 2, v) == Some(j)
    ensures RowEnd(e, 0, Assign([Lit], v)) == Some(j)
  {
  }

  lemma AssignPrinted(e: Env, v: Val)
    requires Reads(e) && e.src == [LETTER, EQUALS] + Print(v) && Plain(v)
    ensures RowEnd(e, 0, Assign([Lit], v)) == Some(|e.src|)
  {
    assert e.src[2..|e.src|] == Print(v) && [Lit][1..] == [] && PrintDotted([]) == [] && e.src[1..1] == [];
    ValuePrinted(e, 2, v, |e.src|);
    KeyPrinted(e, 0, [Lit], 1);
    LineEnd(e, v, |e.src|);
  }

  /**
   * A key and any tree of arrays and tables that the limits allow, written out, is accepted,
   * whatever newlines and trailing commas it has.
   */
  lemma PrintedIsAccepted(scanners: Scanners, v: Val)
    requires Plain(v) && Fits(0, 0, Depth(v))
    ensures Document(EnvOf(scanners, [LETTER, EQUALS] + Print(v), ACCEPTING), OUTSET).Good?
  {
    var e := EnvOf(scanners, [LETTER, EQUALS] + Print(v), ACCEPTING);
    TextReads(scanners, e.src);
    AssignPrinted(e, v);
    var rows := OneRow(e, 0, Assign([Lit], v), |e.src|, 0);
    assert Spells(e, rows);
    DocumentsFollow(e);
  }
}
