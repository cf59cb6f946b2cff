/**
 * TOML basic strings as sequences of items: how an item is spelled, what it stands for, which
 * texts the scanner accepts, and that everything it accepts is properly spelled.
 */
module TomlStrings {
  import opened Common
  import Utf8

  const QUOTE: uint8 := 0x22
  const BACKSLASH: uint8 := 0x5C
  const SPACE: uint8 := 0x20
  const TAB: uint8 := 0x09
  const NL: uint8 := 0x0A
  const CR: uint8 := 0x0D

  /**
   * A piece of a string between its quotes: one byte as it stands, a newline, a one-letter
   * escape, a code point in hexadecimal, or a line-ending backslash with the blanks around it.
   */
  datatype Item =
    | Raw(c: uint8)
    | Break(ending: Bytes)
    | Short(c: uint8)
    | Code(letter: uint8, digits: Bytes)
    | Fold(blank: Bytes, ending: Bytes, skipped: Bytes)

  function Spell(item: Item): (s: Bytes) {
    match item
    case Raw(c) => [c]
    case Break(ending) => ending
    case Short(c) => [BACKSLASH, c]
    case Code(letter, digits) => [BACKSLASH, letter] + digits
    case Fold(blank, ending, skipped) => [BACKSLASH] + blank + ending + skipped
  }

  function Spelled(items: seq<Item>): Bytes {
    if items == [] then [] else Spell(items[0]) + Spelled(items[1..])
  }

  // ---------------------------------------------------------------- meaning

  predicate IsHex(c: uint8) {
    0x30 <= c <= 0x39 || 0x41 <= c <= 0x46 || 0x61 <= c <= 0x66
  }

  function Digit(c: uint8): nat
    requires IsHex(c)
  {
    if c <= 0x39 then c as int - 0x30 else if c <= 0x46 then c as int - 0x37 else c as int - 0x57
  }

  function HexValue(digits: Bytes): nat
    requires forall c :: c in digits ==> IsHex(c)
  {
    if digits == [] then 0 else 16 * HexValue(digits[..|digits| - 1]) + Digit(digits[|digits| - 1])
  }

  /** How many digits follow the letter of a hexadecimal escape; 0 for any other byte. */
  function Width(letter: uint8): nat {
    if letter == 0x78 then 2 else if letter == 0x75 then 4 else if letter == 0x55 then 8 else 0
  }

  /** b, t, n, f, r, e, the quote and the backslash. */
  predicate IsShort(c: uint8) {
    c == 0x62 || c == 0x74 || c == 0x6E || c == 0x66 || c == 0x72 || c == 0x65 || c == QUOTE || c == BACKSLASH
  }

  function ShortMeaning(c: uint8): uint8
    requires IsShort(c)
  {
    if c == 0x62 then 8 else if c == 0x74 then TAB else if c == 0x6E then NL
    else if c == 0x66 then 12 else if c == 0x72 then CR else if c == 0x65 then 27 else c
  }

  predicate Surrogate(code: nat) {
    0xD800 <= code <= 0xDFFF
  }

  predicate Blank(c: uint8) {
    c == SPACE || c == TAB
  }

  predicate Skippable(c: uint8) {
    Blank(c) || c == NL || c == CR
  }

  predicate Ending(s: Bytes) {
    s == [NL] || s == [CR, NL]
  }

  /** An item that can stand before the bytes `rest`. */
  ghost predicate Proper1(item: Item, rest: Bytes) {
    match item
    case Raw(c) => c != 0 && c != BACKSLASH
    case Break(ending) => Ending(ending)
    case Short(c) => IsShort(c)
    case Code(letter, digits) => Width(letter) > 0 && |digits| == Width(letter) && forall c :: c in digits ==> IsHex(c)
    case Fold(blank, ending, skipped) =>
      && (forall c :: c in blank ==> Blank(c)) && Ending(ending) && (forall c :: c in skipped ==> Skippable(c))
      && (rest == [] || !Skippable(rest[0]))
  }

  ghost predicate Proper(items: seq<Item>) {
    items == [] || (Proper1(items[0], Spelled(items[1..])) && Proper(items[1..]))
  }

  /** The bytes an item stands for; surrogates and code points without an encoding stand for none. */
  function Meaning1(item: Item): Option<Bytes>
    requires item.Short? ==> IsShort(item.c)
    requires item.Code? ==> forall c :: c in item.digits ==> IsHex(c)
  {
    match item
    case Raw(c) => Some([c])
    case Break(ending) => Some(ending)
    case Short(c) => Some([ShortMeaning(c)])
    case Code(letter, digits) =>
      if Surrogate(HexValue(digits)) then None else Utf8.Encode(HexValue(digits))
    case Fold(_, _, _) => Some([])
  }

  ghost function Meaning(items: seq<Item>): Option<Bytes>
    requires Proper(items)
  {
    if items == [] then Some([])
    else
      match (Meaning1(items[0]), Meaning(items[1..]))
      case (Some(a), Some(b)) => Some(a + b)
      case _ => None
  }

  // ---------------------------------------------------------------- the scanner as a function

  /** The character at a position and where the next one is; a carriage return before a newline is part of it. */
  function Got(s: Bytes, i: nat): (g: (int, nat))
    requires i <= |s|
    ensures i <= g.1 <= |s| && (i < |s| ==> i < g.1)
  {
    if i == |s| then (-1, i)
    else if s[i] == CR && i + 1 < |s| && s[i + 1] == NL then (NL as int, i + 2)
    else (s[i] as int, i + 1)
  }

  predicate Printable(ch: int) {
    0x20 <= ch <= 0x7E || 0x80 <= ch
  }

  /** Where the hexadecimal digits at i end, counting at most n. */
  function HexEnd(s: Bytes, i: nat, n: nat): (j: nat)
    requires i <= |s|
    ensures i <= j <= |s| && j <= i + n && forall k :: i <= k < j ==> IsHex(s[k])
    decreases n
  {
    if n == 0 || i == |s| || !IsHex(s[i]) then i else HexEnd(s, i + 1, n - 1)
  }

  /** Length of the escape at i, 0 when there is none, -1 when digits are missing. */
  function Escape(s: Bytes, i: nat): (n: int)
    requires i <= |s|
    ensures -1 <= n <= |s| - i
  {
    if i == |s| then 0
    else if IsShort(s[i]) then 1
    else if Width(s[i]) == 0 then 0
    else if HexEnd(s, i + 1, Width(s[i])) == i + 1 + Width(s[i]) then 1 + Width(s[i])
    else -1
  }

  function BlankEnd(s: Bytes, i: nat): (j: nat)
    requires i <= |s|
    ensures i <= j <= |s|
    decreases |s| - i
  {
    if i == |s| || !Blank(s[i]) then i else BlankEnd(s, i + 1)
  }

  function NewlineEnd(s: Bytes, i: nat): (j: nat)
    requires i <= |s|
    ensures i <= j <= |s|
  {
    if i < |s| && s[i] == NL then i + 1
    else if i + 1 < |s| && s[i] == CR && s[i + 1] == NL then i + 2
    else i
  }

  /** Where the run of blanks and newlines at i ends. */
  function SkipEnd(s: Bytes, i: nat): (j: nat)
    requires i <= |s|
    ensures i <= j <= |s|
    decreases |s| - i
  {
    if i < |s| && Blank(s[i]) then SkipEnd(s, i + 1)
    else if NewlineEnd(s, i) > i then SkipEnd(s, NewlineEnd(s, i))
    else i
  }

  /** An item and where it ends. */
  datatype Lexed = Lexed(item: Item, next: nat) | Bad

  /** A line-ending backslash, given the position behind the backslash. */
  function LexFold(s: Bytes, i: nat): (r: Lexed)
    requires i <= |s|
    ensures r.Lexed? ==> i < r.next <= |s|
  {
    var j := BlankEnd(s, i);
    var k := NewlineEnd(s, j);
    var m := SkipEnd(s, k);
    if k == j then Bad else Lexed(Fold(s[i..j], s[j..k], s[k..m]), m)
  }

  /** The item at a position; only multi-line strings have newlines and line-ending backslashes. */
  function Lex(multi: bool, s: Bytes, i: nat): (r: Lexed)
    requires i < |s|
    ensures r.Lexed? ==> i < r.next <= |s|
  {
    var (ch, next) := Got(s, i);
    if ch != BACKSLASH as int then
      if Printable(ch) || ch == TAB as int then Lexed(Raw(s[i]), next)
      else if multi && ch == NL as int then Lexed(Break(s[i..next]), next)
      else Bad
    else
      var n := Escape(s, i + 1);
      if n == 1 then Lexed(Short(s[i + 1]), i + 2)
      else if n > 1 then Lexed(Code(s[i + 1], s[i + 2..i + 1 + n]), i + 1 + n)
      else if n < 0 || !multi then Bad
      else LexFold(s, i + 1)
  }

  predicate Quotes(s: Bytes, i: nat, n: nat) {
    i + n <= |s| && forall k :: i <= k < i + n ==> s[k] == QUOTE
  }

  /** The closing quotes; more than three are closing quotes with one or two before them. */
  predicate Closes(multi: bool, s: Bytes, i: nat) {
    if multi then Quotes(s, i, 3) && !Quotes(s, i, 4) else Quotes(s, i, 1)
  }

  predicate Crowded(multi: bool, s: Bytes, i: nat) {
    multi && Quotes(s, i, 6)
  }

  datatype Scanned = Scanned(items: seq<Item>, end: nat) | Rejected

  /** The items from a position up to the closing quotes, and where those are. */
  function Scan(multi: bool, s: Bytes, i: nat): (r: Scanned)
    requires i <= |s|
    decreases |s| - i
  {
    if Closes(multi, s, i) then Scanned([], i)
    else if i == |s| || Crowded(multi, s, i) then Rejected
    else
      match Lex(multi, s, i)
      case Bad => Rejected
      case Lexed(u, next) => Prepended([u], Scan(multi, s, next))
  }

  function Prepended(done: seq<Item>, r: Scanned): Scanned {
    match r case Rejected => Rejected case Scanned(items, end) => Scanned(done + items, end)
  }

  // ---------------------------------------------------------------- agreement

  lemma NewlineIs(s: Bytes, i: nat)
    requires i <= |s|
    ensures NewlineEnd(s, i) > i <==> Got(s, i).0 == NL as int
    ensures NewlineEnd(s, i) > i ==> NewlineEnd(s, i) == Got(s, i).1 && Ending(s[i..NewlineEnd(s, i)])
  {
  }

  /** All blanks, and no further blank. */
  lemma {:induction false} BlanksAre(s: Bytes, i: nat)
    requires i <= |s|
    ensures forall k :: i <= k < BlankEnd(s, i) ==> Blank(s[k])
    ensures BlankEnd(s, i) < |s| ==> !Blank(s[BlankEnd(s, i)])
    decreases |s| - i
  {
    if i < |s| && Blank(s[i]) {
      BlanksAre(s, i + 1);
    }
  }

  /** Blanks and newlines only, and neither follows. */
  lemma {:induction false} SkipsAre(s: Bytes, i: nat)
    requires i <= |s|
    ensures forall k :: i <= k < SkipEnd(s, i) ==> Skippable(s[k])
    ensures
      var j := SkipEnd(s, i);
      j < |s| ==> !Blank(s[j]) && NewlineEnd(s, j) == j
    decreases |s| - i
  {
    if i < |s| && Blank(s[i]) {
      SkipsAre(s, i + 1);
    } else if NewlineEnd(s, i) > i {
      SkipsAre(s, NewlineEnd(s, i));
    }
  }

  lemma SliceOf(s: Bytes, i: nat, j: nat, p: uint8 -> bool)
    requires i <= j <= |s| && forall k :: i <= k < j ==> p(s[k])
    ensures forall c :: c in s[i..j] ==> p(c)
  {
  }

  lemma SliceJoin(s: Bytes, i: nat, j: nat, k: nat, m: nat)
    requires 0 < i <= j <= k <= m <= |s|
    ensures s[i - 1..m] == [s[i - 1]] + s[i..j] + s[j..k] + s[k..m]
  {
  }

  /** A line-ending backslash is spelled as it stands. */
  lemma FoldSpells(s: Bytes, i: nat)
    requires 0 < i <= |s| && s[i - 1] == BACKSLASH && LexFold(s, i).Lexed?
    ensures s[i - 1..LexFold(s, i).next] == Spell(LexFold(s, i).item)
  {
    var j := BlankEnd(s, i);
    var k := NewlineEnd(s, j);
    SliceJoin(s, i, j, k, SkipEnd(s, k));
  }

  /** It can stand before anything but a blank or newline. */
  lemma FoldIsProper(s: Bytes, i: nat, more: Bytes)
    requires i <= |s| && LexFold(s, i).Lexed? && (more == [] || !Skippable(more[0]))
    ensures Proper1(LexFold(s, i).item, more)
  {
    var j := BlankEnd(s, i);
    var k := NewlineEnd(s, j);
    BlanksAre(s, i);
    NewlineIs(s, j);
    SkipsAre(s, k);
    SliceOf(s, i, j, Blank);
    SliceOf(s, k, SkipEnd(s, k), Skippable);
  }

  lemma CodeJoin(s: Bytes, i: nat, m: nat)
    requires 0 < i < m <= |s|
    ensures s[i - 1..m] == [s[i - 1], s[i]] + s[i + 1..m]
  {
  }

  /** A hexadecimal escape has as many digits as its letter asks for. */
  lemma CodeIsProper(s: Bytes, i: nat)
    requires i <= |s| && Escape(s, i) > 1
    ensures Proper1(Code(s[i], s[i + 1..i + Escape(s, i)]), [])
  {
    SliceOf(s, i + 1, i + Escape(s, i), IsHex);
  }

  /** The item is what the text has there. */
  lemma LexSpells(multi: bool, s: Bytes, i: nat)
    requires i < |s| && Lex(multi, s, i).Lexed?
    ensures s[i..Lex(multi, s, i).next] == Spell(Lex(multi, s, i).item)
  {
    var r := Lex(multi, s, i);
    if r.item.Code? {
      CodeJoin(s, i + 1, r.next);
    } else if r.item.Fold? {
      FoldSpells(s, i + 1);
    }
  }

  /** What can be scanned and is neither blank nor newline starts with no carriage return either. */
  lemma NoLoneReturn(s: Bytes, j: nat)
    requires j < |s| && !Blank(s[j]) && NewlineEnd(s, j) == j && Lex(true, s, j).Lexed?
    ensures !Skippable(s[j])
  {
    NewlineIs(s, j);
  }

  /** It can stand at the end, and before whatever starts as the rest of the text does. */
  lemma LexIsProper(multi: bool, s: Bytes, i: nat, more: Bytes)
    requires i < |s| && Lex(multi, s, i).Lexed?
    requires
      var j := Lex(multi, s, i).next;
      more == [] || (j < |s| && Lex(multi, s, j).Lexed? && more[0] == s[j])
    ensures Proper1(Lex(multi, s, i).item, more)
  {
    var r := Lex(multi, s, i);
    if r.item.Break? {
      NewlineIs(s, i);
    } else if r.item.Code? {
      CodeIsProper(s, i + 1);
    } else if r.item.Fold? {
      if more != [] {
        SkipsAre(s, NewlineEnd(s, BlankEnd(s, i + 1)));
        NoLoneReturn(s, r.next);
      }
      FoldIsProper(s, i + 1, more);
    }
  }

  lemma SpelledCons(u: Item, later: seq<Item>)
    ensures Spelled([u] + later) == Spell(u) + Spelled(later)
    ensures Proper([u] + later) == (Proper1(u, Spelled(later)) && Proper(later))
  {
    assert ([u] + later)[1..] == later;
  }

  lemma SplitAt(s: Bytes, i: nat, j: nat, m: nat)
    requires i <= j <= m <= |s|
    ensures s[i..j] + s[j..m] == s[i..m]
  {
  }

  lemma ScanStarts(multi: bool, s: Bytes, i: nat)
    requires i <= |s| && Scan(multi, s, i).Scanned? && Scan(multi, s, i).items != []
    ensures i < |s| && Lex(multi, s, i).Lexed? && Scan(multi, s, i).items[0] == Lex(multi, s, i).item
  {
  }

  /** Whatever the scanner accepts is properly spelled, up to the closing quotes. */
  lemma {:induction false} ScanIsProper(multi: bool, s: Bytes, i: nat)
    requires i <= |s| && Scan(multi, s, i).Scanned?
    ensures
      var r := Scan(multi, s, i);
      && i <= r.end <= |s| && Closes(multi, s, r.end)
      && Proper(r.items) && s[i..r.end] == Spelled(r.items)
    decreases |s| - i
  {
    if !Closes(multi, s, i) {
      var u := Lex(multi, s, i);
      var r := Scan(multi, s, u.next);
      ScanIsProper(multi, s, u.next);
      LexSpells(multi, s, i);
      SplitAt(s, i, u.next, r.end);
      SpelledCons(u.item, r.items);
      var more := Spelled(r.items);
      if r.items != [] {
        ScanStarts(multi, s, u.next);
        assert r.end > u.next;
        assert more[0] == s[u.next..r.end][0];
      }
      LexIsProper(multi, s, i, more);
    }
  }
}
