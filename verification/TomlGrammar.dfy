/** The grammar of basic strings, and that the scanner accepts just the texts it describes. */
module TomlGrammar {
  import opened Common
  import opened TomlStrings

  // ---------------------------------------------------------------- the grammar

  /** Blanks and newlines, in which a carriage return stands only before a newline. */
  predicate Gap(s: Bytes, i: nat, j: nat) {
    i <= j <= |s| && forall k {:trigger s[k]} :: i <= k < j ==> Skippable(s[k]) && (s[k] == CR ==> k + 1 < j && s[k + 1] == NL)
  }

  /** An item that a string may contain; newlines, folds and quotes only if it may have several lines. */
  predicate Lexical(multi: bool, u: Item) {
    match u
    case Raw(c) => (Printable(c as int) || c == TAB) && c != BACKSLASH && (multi || c != QUOTE)
    case Break(ending) => multi && Ending(ending)
    case Short(c) => IsShort(c)
    case Code(letter, digits) => Width(letter) > 0 && |digits| == Width(letter) && forall c :: c in digits ==> IsHex(c)
    case Fold(blank, ending, skipped) =>
      multi && (forall c :: c in blank ==> Blank(c)) && Ending(ending) && Gap(skipped, 0, |skipped|)
  }

  /** A fold would have taken it. */
  predicate Foldable(u: Item) {
    u.Break? || (u.Raw? && Blank(u.c))
  }

  predicate IsQuote(u: Item) {
    u == Raw(QUOTE)
  }

  /** No fold stops before the end of a gap, and no three quotes stand in a row. */
  predicate Follows(u: Item, later: seq<Item>) {
    && (u.Fold? && later != [] ==> !Foldable(later[0]))
    && (|later| > 1 && IsQuote(u) && IsQuote(later[0]) ==> !IsQuote(later[1]))
  }

  predicate Written(multi: bool, items: seq<Item>) {
    items != [] ==> Lexical(multi, items[0]) && Follows(items[0], items[1..]) && Written(multi, items[1..])
  }

  lemma WrittenCons(multi: bool, u: Item, later: seq<Item>)
    ensures Written(multi, [u] + later) <==> Lexical(multi, u) && Follows(u, later) && Written(multi, later)
  {
    assert ([u] + later)[1..] == later;
  }

  // ---------------------------------------------------------------- what is accepted follows the grammar

  /** What a fold skips is a gap. */
  lemma {:induction false} SkipsGap(s: Bytes, i: nat)
    requires i <= |s|
    ensures Gap(s, i, SkipEnd(s, i))
    decreases |s| - i
  {
    if i < |s| && Blank(s[i]) {
      SkipsGap(s, i + 1);
    } else if NewlineEnd(s, i) > i {
      SkipsGap(s, NewlineEnd(s, i));
    }
  }

  lemma GapOfSlice(s: Bytes, i: nat, j: nat)
    requires i <= j <= |s|
    ensures Gap(s, i, j) <==> Gap(s[i..j], 0, j - i)
  {
    var g := s[i..j];
    assert forall k :: 0 <= k < j - i ==> g[k] == s[i + k];
    if Gap(s, i, j) {
      forall k | 0 <= k < j - i
        ensures Skippable(g[k]) && (g[k] == CR ==> k + 1 < j - i && g[k + 1] == NL)
      {
        assert Skippable(s[i + k]) && (s[i + k] == CR ==> i + k + 1 < j && s[i + k + 1] == NL);
      }
    }
    if Gap(g, 0, j - i) {
      forall k | i <= k < j
        ensures Skippable(s[k]) && (s[k] == CR ==> k + 1 < j && s[k + 1] == NL)
      {
        assert g[k - i] == s[k] && Skippable(g[k - i]);
        assert g[k - i] == CR ==> k - i + 1 < j - i && g[k - i + 1] == NL;
      }
    }
  }

  lemma FoldIsLexical(s: Bytes, i: nat)
    requires i <= |s| && LexFold(s, i).Lexed?
    ensures Lexical(true, LexFold(s, i).item)
  {
    var j := BlankEnd(s, i);
    var k := NewlineEnd(s, j);
    BlanksAre(s, i);
    SliceOf(s, i, j, Blank);
    NewlineIs(s, j);
    SkipsGap(s, k);
    GapOfSlice(s, k, SkipEnd(s, k));
  }

  lemma LexIsLexical(multi: bool, s: Bytes, i: nat)
    requires i < |s| && Lex(multi, s, i).Lexed? && (!multi ==> s[i] != QUOTE)
    ensures Lexical(multi, Lex(multi, s, i).item)
  {
    var r := Lex(multi, s, i);
    if r.item.Break? {
      NewlineIs(s, i);
    } else if r.item.Code? {
      CodeIsProper(s, i + 1);
    } else if r.item.Fold? {
      FoldIsLexical(s, i + 1);
    }
  }

  /** Behind a fold comes nothing it would have taken. */
  lemma FoldEnds(multi: bool, s: Bytes, i: nat)
    requires i < |s| && Lex(multi, s, i).Lexed? && Lex(multi, s, i).item.Fold?
    ensures
      var j := Lex(multi, s, i).next;
      j < |s| && Lex(multi, s, j).Lexed? ==> !Foldable(Lex(multi, s, j).item)
  {
    var j := Lex(multi, s, i).next;
    SkipsAre(s, NewlineEnd(s, BlankEnd(s, i + 1)));
    if j < |s| {
      NewlineIs(s, j);
    }
  }

  lemma QuoteIsRead(multi: bool, s: Bytes, i: nat)
    requires i <= |s| && Scan(multi, s, i).Scanned? && Scan(multi, s, i).items != [] && IsQuote(Scan(multi, s, i).items[0])
    ensures i < |s| && s[i] == QUOTE && Lex(multi, s, i) == Lexed(Raw(QUOTE), i + 1)
    ensures !Closes(multi, s, i) && !Crowded(multi, s, i)
    ensures Scan(multi, s, i + 1).Scanned? && Scan(multi, s, i).items[1..] == Scan(multi, s, i + 1).items
  {
  }

  lemma SixQuotes(s: Bytes, i: nat)
    requires Quotes(s, i, 3)
    requires Quotes(s, i, 3) ==> Quotes(s, i, 4)
    requires Quotes(s, i + 1, 3) ==> Quotes(s, i + 1, 4)
    requires Quotes(s, i + 2, 3) ==> Quotes(s, i + 2, 4)
    ensures Quotes(s, i, 6)
  {
  }

  /** Three quotes in a row would have closed the string or been refused. */
  lemma NoTriple(multi: bool, s: Bytes, i: nat)
    requires i <= |s| && Scan(multi, s, i).Scanned?
    ensures
      var items := Scan(multi, s, i).items;
      |items| > 2 && IsQuote(items[0]) && IsQuote(items[1]) ==> !IsQuote(items[2])
  {
    var items := Scan(multi, s, i).items;
    if |items| > 2 && IsQuote(items[0]) && IsQuote(items[1]) && IsQuote(items[2]) {
      QuoteIsRead(multi, s, i);
      if multi {
        QuoteIsRead(multi, s, i + 1);
        QuoteIsRead(multi, s, i + 2);
        SixQuotes(s, i);
      }
      assert false;
    }
  }

  lemma {:induction false} ScanIsWritten(multi: bool, s: Bytes, i: nat)
    requires i <= |s| && Scan(multi, s, i).Scanned?
    ensures Written(multi, Scan(multi, s, i).items)
    decreases |s| - i
  {
    if !Closes(multi, s, i) {
      var u := Lex(multi, s, i);
      var later := Scan(multi, s, u.next).items;
      ScanIsWritten(multi, s, u.next);
      LexIsLexical(multi, s, i);
      WrittenCons(multi, u.item, later);
      NoTriple(multi, s, i);
      if later != [] {
        ScanStarts(multi, s, u.next);
        if u.item.Fold? {
          FoldEnds(multi, s, i);
        }
      }
    }
  }

  // ---------------------------------------------------------------- what follows the grammar is accepted

  lemma {:induction false} HexRuns(s: Bytes, i: nat, n: nat)
    requires i + n <= |s| && forall k :: i <= k < i + n ==> IsHex(s[k])
    ensures HexEnd(s, i, n) == i + n
    decreases n
  {
    if n > 0 {
      HexRuns(s, i + 1, n - 1);
    }
  }

  lemma {:induction false} BlanksRun(s: Bytes, i: nat, j: nat)
    requires i <= j < |s| && (forall k :: i <= k < j ==> Blank(s[k])) && !Blank(s[j])
    ensures BlankEnd(s, i) == j
    decreases j - i
  {
    if i < j {
      BlanksRun(s, i + 1, j);
    }
  }

  lemma {:induction false} GapRuns(s: Bytes, i: nat, j: nat)
    requires Gap(s, i, j) && (j < |s| ==> !Blank(s[j]) && NewlineEnd(s, j) == j)
    ensures SkipEnd(s, i) == j
    decreases j - i
  {
    if i < j {
      assert Skippable(s[i]) && (s[i] == CR ==> i + 1 < j && s[i + 1] == NL);
      GapRuns(s, if s[i] == CR then i + 2 else i + 1, j);
    }
  }

  lemma SpellingSplits(s: Bytes, i: nat, j: nat, m: nat, a: Bytes, b: Bytes)
    requires i <= m <= |s| && s[i..m] == a + b && j == i + |a|
    ensures j <= m && s[i..j] == a && s[j..m] == b
  {
    assert s[i..j] == s[i..m][..|a|] && s[j..m] == s[i..m][|a|..];
  }

  /** Where the four parts of a fold stand. */
  lemma FoldParts(s: Bytes, i: nat, j: nat, k: nat, m: nat, u: Item)
    requires u.Fold? && i <= m <= |s| && s[i..m] == Spell(u)
    requires j == i + 1 + |u.blank| && k == j + |u.ending|
    ensures j <= k <= m && s[i] == BACKSLASH && s[i + 1..j] == u.blank && s[j..k] == u.ending && s[k..m] == u.skipped
  {
    SpellingSplits(s, i, k, m, [BACKSLASH] + u.blank + u.ending, u.skipped);
    SpellingSplits(s, i, j, k, [BACKSLASH] + u.blank, u.ending);
    SpellingSplits(s, i, i + 1, j, [BACKSLASH], u.blank);
    assert s[i] == s[i..i + 1][0];
  }

  lemma FoldScans(s: Bytes, i: nat, j: nat, k: nat, m: nat)
    requires i <= j < k <= m <= |s| && (forall n :: i <= n < j ==> Blank(s[n])) && NewlineEnd(s, j) == k
    requires Gap(s, k, m) && (m < |s| ==> !Blank(s[m]) && NewlineEnd(s, m) == m)
    ensures LexFold(s, i) == Lexed(Fold(s[i..j], s[j..k], s[k..m]), m) && Escape(s, i) == 0
  {
    BlanksRun(s, i, j);
    GapRuns(s, k, m);
  }

  /** A fold reads as itself in front of anything it would not take. */
  lemma FoldReads(s: Bytes, i: nat, m: nat, u: Item)
    requires u.Fold? && Lexical(true, u) && i <= m <= |s| && s[i..m] == Spell(u)
    requires m < |s| ==> !Blank(s[m]) && NewlineEnd(s, m) == m
    ensures i < m && s[i] == BACKSLASH && LexFold(s, i + 1) == Lexed(u, m) && Escape(s, i + 1) == 0
  {
    var j := i + 1 + |u.blank|;
    var k := j + |u.ending|;
    FoldParts(s, i, j, k, m, u);
    forall n | i + 1 <= n < j ensures Blank(s[n]) {
      assert s[n] == s[i + 1..j][n - i - 1] && s[n] in u.blank;
    }
    assert s[j] == s[j..k][0] && (|u.ending| == 2 ==> s[j + 1] == s[j..k][1]);
    GapOfSlice(s, k, m);
    FoldScans(s, i + 1, j, k, m);
  }

  lemma CodeReads(multi: bool, s: Bytes, i: nat, u: Item)
    requires u.Code? && Lexical(multi, u) && i + |Spell(u)| <= |s| && s[i..i + |Spell(u)|] == Spell(u)
    ensures s[i] == BACKSLASH && Lex(multi, s, i) == Lexed(u, i + |Spell(u)|)
  {
    var m := i + |Spell(u)|;
    assert Spell(u)[0] == BACKSLASH && Spell(u)[1] == u.letter && Spell(u)[2..] == u.digits;
    assert s[i] == s[i..m][0] && s[i + 1] == s[i..m][1];
    assert s[i + 2..m] == s[i..m][2..];
    forall k | i + 2 <= k < m
      ensures IsHex(s[k])
    {
      assert s[k] == s[i + 2..m][k - i - 2];
      assert s[k] in u.digits;
    }
    HexRuns(s, i + 2, |u.digits|);
  }

  lemma LexReads(multi: bool, s: Bytes, i: nat, u: Item)
    requires Lexical(multi, u) && i + |Spell(u)| <= |s| && s[i..i + |Spell(u)|] == Spell(u)
    requires
      var m := i + |Spell(u)|;
      u.Fold? && m < |s| ==> !Blank(s[m]) && NewlineEnd(s, m) == m
    ensures i < |s| && Lex(multi, s, i) == Lexed(u, i + |Spell(u)|)
    ensures s[i] == QUOTE <==> IsQuote(u)
  {
    if u.Code? {
      CodeReads(multi, s, i, u);
    } else if u.Fold? {
      FoldReads(s, i, i + |Spell(u)|, u);
    } else {
      var t := s[i..i + |Spell(u)|];
      assert s[i] == t[0];
      assert |t| > 1 ==> s[i + 1] == t[1];
    }
  }

  /** How the spelling of an item starts. */
  lemma FirstByte(multi: bool, s: Bytes, i: nat, u: Item)
    requires Lexical(multi, u) && i + |Spell(u)| <= |s| && s[i..i + |Spell(u)|] == Spell(u)
    ensures |Spell(u)| > 0
    ensures s[i] == QUOTE <==> IsQuote(u)
    ensures !Foldable(u) ==> !Blank(s[i]) && NewlineEnd(s, i) == i
  {
    assert s[i] == s[i..i + |Spell(u)|][0] == Spell(u)[0];
  }

  /** The items are spelled between two positions, and the closing quotes stand at the second. */
  ghost predicate SpelledAt(multi: bool, s: Bytes, i: nat, m: nat, items: seq<Item>) {
    i <= m <= |s| && s[i..m] == Spelled(items) && Closes(multi, s, m) && Written(multi, items)
  }

  lemma Advance(multi: bool, s: Bytes, i: nat, m: nat, items: seq<Item>)
    requires SpelledAt(multi, s, i, m, items) && items != []
    ensures
      var u := items[0];
      var j := i + |Spell(u)|;
      && i < j <= m && s[i..j] == Spell(u) && Lexical(multi, u) && (s[i] == QUOTE <==> IsQuote(u))
      && (!Foldable(u) ==> !Blank(s[i]) && NewlineEnd(s, i) == i)
      && SpelledAt(multi, s, j, m, items[1..])
  {
    var u, later := items[0], items[1..];
    SpellingSplits(s, i, i + |Spell(u)|, m, Spell(u), Spelled(later));
    FirstByte(multi, s, i, u);
  }

  /** The quotes that a string goes on with. */
  function Leading(items: seq<Item>): nat {
    if items == [] || !IsQuote(items[0]) then 0 else 1 + Leading(items[1..])
  }

  lemma LeadingAtMostTwo(multi: bool, items: seq<Item>)
    requires Written(multi, items)
    ensures Leading(items) <= 2
  {
    if |items| > 1 {
      var a := items[1..];
      var b := a[1..];
      assert b != [] ==> b[0] == a[1];
      assert IsQuote(items[0]) && IsQuote(a[0]) ==> Leading(b) == 0;
    }
  }

  lemma {:induction false} LeadingInText(multi: bool, s: Bytes, i: nat, m: nat, items: seq<Item>)
    requires SpelledAt(multi, s, i, m, items)
    ensures
      var j := i + Leading(items);
      j <= m && Quotes(s, i, Leading(items)) && (j < m ==> s[j] != QUOTE)
    decreases |items|
  {
    if items != [] {
      Advance(multi, s, i, m, items);
      if IsQuote(items[0]) {
        LeadingInText(multi, s, i + 1, m, items[1..]);
      }
    }
  }

  /** At most two quotes, and then the closing ones or something else. */
  lemma FewQuotes(s: Bytes, i: nat, m: nat, n: nat)
    requires Closes(true, s, m) && i < m && n <= 2 && i + n <= m && Quotes(s, i, n) && (i + n < m ==> s[i + n] != QUOTE)
    ensures !Closes(true, s, i) && !Crowded(true, s, i)
  {
    if i + n == m {
      QuotesBefore(s, i, m);
    }
  }

  /** One or two quotes in front of the closing ones. */
  lemma QuotesBefore(s: Bytes, i: nat, m: nat)
    requires Quotes(s, m, 3) && i < m <= i + 2 && Quotes(s, i, m - i)
    ensures Quotes(s, i, 4) && (Quotes(s, i, 6) ==> Quotes(s, m, 4))
  {
  }

  /** Where items are still to come, the string neither closes nor has too many quotes. */
  lemma NotYet(multi: bool, s: Bytes, i: nat, m: nat, items: seq<Item>)
    requires SpelledAt(multi, s, i, m, items) && i < m && (!multi ==> s[i] != QUOTE)
    ensures !Closes(multi, s, i) && !Crowded(multi, s, i)
  {
    if multi {
      LeadingAtMostTwo(multi, items);
      LeadingInText(multi, s, i, m, items);
      FewQuotes(s, i, m, Leading(items));
    }
  }

  /** Nothing that a fold would have taken stands behind it. */
  lemma BehindFold(multi: bool, s: Bytes, j: nat, m: nat, u: Item, later: seq<Item>)
    requires SpelledAt(multi, s, j, m, later) && u.Fold? && Follows(u, later)
    ensures j < |s| && !Blank(s[j]) && NewlineEnd(s, j) == j
  {
    if later == [] {
      assert j == m && s[j] == QUOTE;
    } else {
      Advance(multi, s, j, m, later);
    }
  }

  /** The first item is read as itself. */
  lemma FirstIsRead(multi: bool, s: Bytes, i: nat, j: nat, m: nat, u: Item, later: seq<Item>)
    requires i < j <= |s| && s[i..j] == Spell(u) && Lexical(multi, u) && Follows(u, later)
    requires SpelledAt(multi, s, j, m, later)
    ensures Lex(multi, s, i) == Lexed(u, j)
  {
    if u.Fold? {
      BehindFold(multi, s, j, m, u, later);
    }
    LexReads(multi, s, i, u);
  }

  lemma ScanStep(multi: bool, s: Bytes, i: nat, j: nat, m: nat, u: Item, later: seq<Item>)
    requires i < j <= |s| && !Closes(multi, s, i) && !Crowded(multi, s, i)
    requires Lex(multi, s, i) == Lexed(u, j) && Scan(multi, s, j) == Scanned(later, m)
    ensures Scan(multi, s, i) == Scanned([u] + later, m)
  {
  }

  lemma {:induction false} ScanAccepts(multi: bool, s: Bytes, i: nat, m: nat, items: seq<Item>)
    requires SpelledAt(multi, s, i, m, items)
    ensures Scan(multi, s, i) == Scanned(items, m)
    decreases |items|
  {
    if items == [] {
      assert i == m;
    } else {
      var u, later := items[0], items[1..];
      var j := i + |Spell(u)|;
      Advance(multi, s, i, m, items);
      NotYet(multi, s, i, m, items);
      FirstIsRead(multi, s, i, j, m, u, later);
      ScanAccepts(multi, s, j, m, later);
      ScanStep(multi, s, i, j, m, u, later);
      assert [u] + later == items;
    }
  }

  /** The scanner reads just the items that are spelled up to the first place where the string closes. */
  lemma ScanExactly(multi: bool, s: Bytes, i: nat, m: nat, items: seq<Item>)
    requires i <= |s|
    ensures Scan(multi, s, i) == Scanned(items, m) <==> SpelledAt(multi, s, i, m, items)
  {
    if SpelledAt(multi, s, i, m, items) {
      ScanAccepts(multi, s, i, m, items);
    }
    if Scan(multi, s, i) == Scanned(items, m) {
      ScanIsProper(multi, s, i);
      ScanIsWritten(multi, s, i);
    }
  }
}
