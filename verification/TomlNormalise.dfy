/** Unescaping in place: a read position and a write position over one buffer. */
module TomlNormalise {
  import opened Common
  import opened TomlStrings
  import opened TomlScanner
  import Utf8

  /** Bytes already written, in front of what is still to come. */
  function After(out: Bytes, rest: Option<Bytes>): Option<Bytes> {
    match rest case None => None case Some(b) => Some(out + b)
  }

  lemma AfterTwice(a: Bytes, b: Bytes, rest: Option<Bytes>)
    ensures After(a, After(b, rest)) == After(a + b, rest)
  {
    if rest.Some? {
      Assoc(a, b, rest.value);
    }
  }

  /** What is left of a string once its first byte has been copied. */
  function Peeled(items: seq<Item>): seq<Item>
    requires items != []
  {
    if items[0].Break? && |items[0].ending| == 2 then [Break(items[0].ending[1..])] + items[1..] else items[1..]
  }

  predicate Plain(u: Item) {
    u.Raw? || u.Break?
  }

  /** A byte that is no backslash stands for itself. */
  lemma PeelMeans(items: seq<Item>)
    requires Proper(items) && items != [] && Plain(items[0])
    ensures
      var s := Spelled(items);
      && s != [] && s[0] != 0 && s[0] != BACKSLASH
      && Proper(Peeled(items)) && Spelled(Peeled(items)) == s[1..]
      && Meaning(items) == After([s[0]], Meaning(Peeled(items)))
  {
    var u, later := items[0], items[1..];
    assert items == [u] + later;
    SpelledCons(u, later);
    if u.Break? && |u.ending| == 2 {
      SpelledCons(Break([NL]), later);
      assert u.ending[1..] == [NL] && u.ending == [CR] + [NL];
      Assoc([CR], [NL], Spelled(later));
      if Meaning(later).Some? {
        Assoc([CR], [NL], Meaning(later).value);
      }
      assert ([Break([NL])] + later)[1..] == later;
    }
  }

  /** An item that begins with a backslash. */
  lemma EscapeMeans(items: seq<Item>)
    requires Proper(items) && items != [] && !Plain(items[0])
    ensures
      var u, later := items[0], items[1..];
      && Spelled(items) == Spell(u) + Spelled(later) && Spell(u)[0] == BACKSLASH && |Spell(u)| >= 2
      && Proper1(u, Spelled(later)) && Proper(later)
      && Meaning(items) == (if Meaning1(u).None? then None else After(Meaning1(u).value, Meaning(later)))
  {
  }

  lemma {:induction false} HexBound(digits: Bytes)
    requires forall c :: c in digits ==> IsHex(c)
    ensures |digits| == 0 ==> HexValue(digits) == 0
    ensures |digits| == 1 ==> HexValue(digits) < 0x10
    ensures |digits| == 2 ==> HexValue(digits) < 0x100
  {
    if digits != [] {
      HexBound(digits[..|digits| - 1]);
      assert digits[|digits| - 1] in digits;
    }
  }

  /** The buffer still holds the text from a position on. */
  ghost predicate Ahead(buf: array<uint8>, z: Bytes, p: nat)
    reads buf
  {
    buf.Length == |z| && forall k :: p <= k < |z| ==> buf[k] == z[k]
  }

  /** The value of n hexadecimal digits. */
  method HexAt(buf: array<uint8>, at: nat, n: nat) returns (v: nat)
    requires at + n <= buf.Length && forall k :: at <= k < at + n ==> IsHex(buf[k])
    ensures v == HexValue(buf[at..at + n])
  {
    v := 0;
    for i := 0 to n
      invariant v == HexValue(buf[at..at + i])
    {
      assert buf[at..at + i + 1][..i] == buf[at..at + i];
      v := 16 * v + Digit(buf[at + i]);
    }
  }

  /** Skips blanks and carriage returns, and newlines too if `wide`. */
  method Span(buf: array<uint8>, from: nat, wide: bool, ghost end: nat) returns (p: nat)
    requires from <= end < buf.Length
    requires forall k :: from <= k < end ==> Skippable(buf[k]) && (wide || buf[k] != NL)
    requires !Skippable(buf[end]) || (!wide && buf[end] == NL)
    ensures p == end
  {
    p := from;
    while buf[p] == SPACE || buf[p] == TAB || buf[p] == CR || (wide && buf[p] == NL)
      invariant from <= p <= end
      decreases end - p
    {
      p := p + 1;
    }
  }

  /** The code point of the escape at p. */
  method CodeAt(buf: array<uint8>, p: nat, ghost u: Item) returns (size: nat, code: nat)
    requires u.Code? && Proper1(u, []) && p + |Spell(u)| <= buf.Length && buf[p..p + |Spell(u)|] == Spell(u)
    ensures size == Width(u.letter) && code == HexValue(u.digits)
  {
    ghost var text := buf[p..p + |Spell(u)|];
    assert text[1] == buf[p + 1] == u.letter;
    size := Width(buf[p + 1]);
    assert u.digits == Spell(u)[2..] == text[2..] == buf[p + 2..p + 2 + size];
    forall k | p + 2 <= k < p + 2 + size
      ensures IsHex(buf[k])
    {
      assert buf[k] == u.digits[k - p - 2];
      assert buf[k] in u.digits;
    }
    code := HexAt(buf, p + 2, size);
  }

  /** A code point: the digits are read before anything is written over them. */
  method UnescapeCode(buf: array<uint8>, p: nat, dst: nat, ghost z: Bytes, ghost u: Item) returns (ok: bool, p1: nat, dst1: nat)
    requires Ahead(buf, z, p) && dst <= p && u.Code? && Proper1(u, [])
    requires p + |Spell(u)| <= |z| && z[p..p + |Spell(u)|] == Spell(u)
    modifies buf
    ensures ok == Meaning1(u).Some?
    ensures ok ==>
      && p1 == p + |Spell(u)| && dst1 == dst + |Meaning1(u).value| <= p1
      && buf[..dst1] == old(buf[..dst]) + Meaning1(u).value && Ahead(buf, z, p1)
  {
    assert buf[p..p + |Spell(u)|] == z[p..p + |Spell(u)|];
    var size, code := CodeAt(buf, p, u);
    p1 := p + 2 + size;
    HexBound(u.digits);
    MeaningSize(u);
    if size > 2 && 0xD800 <= code <= 0xDFFF {
      return false, p, dst;
    }
    ghost var before := buf[..];
    var n := Utf8.EncodeAt(code, buf, dst);
    if n < 0 {
      return false, p, dst;
    }
    ok, dst1 := true, dst + n;
    CodeWritten(buf[..], before, Meaning1(u).value, z, dst, p1);
  }

  lemma MeaningSize(u: Item)
    requires u.Code? && Proper1(u, [])
    ensures |Spell(u)| >= 4 && |Spell(u)| == 2 + Width(u.letter)
    ensures Utf8.Encode(HexValue(u.digits)).Some? ==> |Utf8.Encode(HexValue(u.digits)).value| <= 4
  {
  }

  /** Writing a few bytes at dst leaves what is beyond them alone. */
  lemma CodeWritten(now: Bytes, before: Bytes, written: Bytes, z: Bytes, dst: nat, p1: nat)
    requires dst + |written| <= p1 <= |before| == |z| == |now|
    requires now == before[..dst] + written + before[dst + |written|..]
    requires forall k :: p1 <= k < |z| ==> before[k] == z[k]
    ensures now[..dst + |written|] == before[..dst] + written
    ensures forall k :: p1 <= k < |z| ==> now[k] == z[k]
  {
  }

  /** A line-ending backslash: everything up to the next byte that is neither blank nor newline goes. */
  method UnescapeFold(buf: array<uint8>, p: nat, ghost z: Bytes, ghost u: Item) returns (p1: nat)
    requires Ahead(buf, z, p) && u.Fold? && Proper1(u, [])
    requires p + |Spell(u)| < |z| && z[p..p + |Spell(u)|] == Spell(u) && !Skippable(z[p + |Spell(u)|])
    ensures p1 == p + |Spell(u)|
  {
    ghost var end := p + |Spell(u)|;
    ghost var nl := p + |u.blank| + |u.ending|;
    FoldBytes(z, p, u);
    p1 := p;
    if buf[p + 1] == SPACE || buf[p + 1] == TAB || buf[p + 1] == CR {
      p1 := Span(buf, p1 + 1, false, nl);
      if buf[p1] != NL {
        assert false;
      }
    }
    p1 := Span(buf, p1 + 1, true, end);
  }

  /** The bytes of a line-ending backslash, one by one. */
  lemma FoldBytes(z: Bytes, p: nat, u: Item)
    requires u.Fold? && Proper1(u, []) && p + |Spell(u)| <= |z| && z[p..p + |Spell(u)|] == Spell(u)
    ensures
      var nl := p + |u.blank| + |u.ending|;
      && p < nl < p + |Spell(u)| && z[nl] == NL
      && (forall k :: p < k < nl ==> Skippable(z[k]) && z[k] != NL)
      && (forall k :: nl < k < p + |Spell(u)| ==> Skippable(z[k]))
  {
    var text, a, b := Spell(u), |u.blank|, |u.ending|;
    forall k | p < k < p + |text|
      ensures z[k] == text[k - p]
    {
      assert z[k] == z[p..p + |text|][k - p];
    }
    forall k | 0 < k < |text|
      ensures text[k] == if k - 1 < a then u.blank[k - 1] else if k - 1 < a + b then u.ending[k - 1 - a] else u.skipped[k - 1 - a - b]
    {
    }
    forall k | 0 <= k < a
      ensures Blank(u.blank[k])
    {
      assert u.blank[k] in u.blank;
    }
    forall k | 0 <= k < |u.skipped|
      ensures Skippable(u.skipped[k])
    {
      assert u.skipped[k] in u.skipped;
    }
  }

  /** One escape, at a backslash. */
  method Unescape1(buf: array<uint8>, p: nat, dst: nat, ghost z: Bytes, ghost u: Item) returns (ok: bool, p1: nat, dst1: nat)
    requires Ahead(buf, z, p) && dst <= p && !Plain(u) && Proper1(u, [])
    requires p + |Spell(u)| < |z| && z[p..p + |Spell(u)|] == Spell(u)
    requires u.Fold? ==> !Skippable(z[p + |Spell(u)|])
    modifies buf
    ensures ok == Meaning1(u).Some?
    ensures ok ==>
      && p1 == p + |Spell(u)| && dst1 == dst + |Meaning1(u).value| <= p1
      && buf[..dst1] == old(buf[..dst]) + Meaning1(u).value && Ahead(buf, z, p1)
  {
    EscapeLetter(z, p, u);
    var c := buf[p + 1];
    if IsShort(c) {
      buf[dst] := ShortMeaning(c);
      return true, p + 2, dst + 1;
    } else if c == 0x78 || c == 0x75 || c == 0x55 {
      ok, p1, dst1 := UnescapeCode(buf, p, dst, z, u);
    } else if Skippable(c) {
      p1 := UnescapeFold(buf, p, z, u);
      ok, dst1 := true, dst;
    } else {
      assert false;
    }
  }

  /** What follows the backslash tells the kinds of escapes apart. */
  lemma EscapeLetter(z: Bytes, p: nat, u: Item)
    requires !Plain(u) && Proper1(u, []) && p + |Spell(u)| < |z| && z[p..p + |Spell(u)|] == Spell(u)
    ensures
      var c := z[p + 1];
      && (u.Short? <==> IsShort(c)) && (u.Code? <==> Width(c) > 0) && (u.Fold? <==> Skippable(c))
      && (u.Short? ==> u.c == c)
  {
    assert z[p + 1] == z[p..p + |Spell(u)|][1] == Spell(u)[1];
    if u.Fold? {
      FoldBytes(z, p, u);
    }
  }

  lemma HeadIsPlain(items: seq<Item>)
    requires Proper(items) && Spelled(items) != []
    ensures items != [] && (Plain(items[0]) <==> Spelled(items)[0] != BACKSLASH)
    ensures Spelled(items)[0] != 0
  {
    if Plain(items[0]) {
      PeelMeans(items);
    } else {
      EscapeMeans(items);
      assert Spelled(items)[0] == Spell(items[0])[0];
    }
  }

  lemma NothingLeft(items: seq<Item>)
    requires Proper(items) && Spelled(items) == []
    ensures items == []
  {
    if items != [] {
      if Plain(items[0]) {
        PeelMeans(items);
      } else {
        EscapeMeans(items);
      }
    }
  }

  lemma ConsTake(s: Bytes, n: nat)
    requires 0 < n <= |s|
    ensures [s[0]] + s[1..][..n - 1] == s[..n] && s[1..][n - 1..] == s[n..]
  {
  }

  lemma NothingBefore(rest: Option<Bytes>)
    ensures After([], rest) == rest
  {
    if rest.Some? {
      assert [] + rest.value == rest.value;
    }
  }

  /** Nothing happens to the bytes in front of the first backslash. */
  lemma {:induction false} PeelMany(items: seq<Item>, n: nat) returns (todo: seq<Item>)
    requires Proper(items) && n <= |Spelled(items)|
    requires forall k :: 0 <= k < n ==> Spelled(items)[k] != BACKSLASH
    ensures Proper(todo) && Spelled(todo) == Spelled(items)[n..]
    ensures Meaning(items) == After(Spelled(items)[..n], Meaning(todo))
    decreases n
  {
    var s := Spelled(items);
    if n == 0 {
      todo := items;
      assert s[0..] == s;
      NothingBefore(Meaning(items));
    } else {
      HeadIsPlain(items);
      PeelMeans(items);
      var later := Peeled(items);
      ConsTake(s, n);
      todo := PeelMany(later, n - 1);
      AfterTwice([s[0]], Spelled(later)[..n - 1], Meaning(todo));
    }
  }

  /** How far the rewriting has come: written, still to read, and what all of it stands for. */
  ghost predicate Underway(text: Bytes, items: seq<Item>, out: Bytes, p: nat, todo: seq<Item>) {
    && Proper(items) && Proper(todo) && p <= |text|
    && text[p..] == Spelled(todo) && Meaning(items) == After(out, Meaning(todo))
  }

  lemma CopyStep(text: Bytes, items: seq<Item>, out: Bytes, p: nat, todo: seq<Item>)
    requires Underway(text, items, out, p, todo) && p < |text| && text[p] != BACKSLASH
    ensures todo != [] && Underway(text, items, out + [text[p]], p + 1, Peeled(todo))
  {
    HeadIsPlain(todo);
    PeelMeans(todo);
    AfterTwice(out, [text[p]], Meaning(Peeled(todo)));
  }

  /** At a backslash the next item is an escape. */
  lemma EscapeAhead(text: Bytes, p: nat, todo: seq<Item>)
    requires Proper(todo) && p < |text| && text[p..] == Spelled(todo) && text[p] == BACKSLASH
    ensures todo != [] && !Plain(todo[0]) && Proper1(todo[0], Spelled(todo[1..]))
    ensures text[p..] == Spell(todo[0]) + Spelled(todo[1..])
  {
    HeadIsPlain(todo);
    EscapeMeans(todo);
  }

  lemma ProperAnywhere(u: Item, rest: Bytes)
    requires Proper1(u, rest)
    ensures Proper1(u, [])
    ensures u.Fold? ==> !Skippable(if rest == [] then 0 else rest[0])
  {
  }

  lemma EscapeStep(text: Bytes, items: seq<Item>, out: Bytes, p: nat, todo: seq<Item>)
    requires Underway(text, items, out, p, todo) && p < |text| && text[p] == BACKSLASH
    requires todo != [] && !Plain(todo[0]) && Proper1(todo[0], [])
    requires p + |Spell(todo[0])| <= |text| && text[p + |Spell(todo[0])|..] == Spelled(todo[1..])
    ensures
      var u := todo[0];
      if Meaning1(u).None? then Meaning(items).None?
      else Underway(text, items, out + Meaning1(u).value, p + |Spell(u)|, todo[1..])
  {
    var u := todo[0];
    EscapeMeans(todo);
    if Meaning1(u).Some? {
      AfterTwice(out, Meaning1(u).value, Meaning(todo[1..]));
    }
  }

  lemma TextSplits(text: Bytes, p: nat, a: Bytes, b: Bytes)
    requires p <= |text| && text[p..] == a + b
    ensures
      var p1, z := p + |a|, text + [0];
      p1 <= |text| && z[p..p1] == a && text[p1..] == b && (z[p1] == if b == [] then 0 else b[0])
  {
    var p1 := p + |a|;
    assert text[p..p1] == text[p..][..|a|] == a;
    assert text[p1..] == text[p..][|a|..] == b;
    assert b != [] ==> text[p1] == text[p1..][0];
  }

  /**
   * The text of a token, unescaped in a fresh buffer: what its items stand for. It fails just
   * when they stand for nothing, which no escape letter and no line ending can cause.
   */
  method ParseNorm(text: Bytes, escape: Option<nat>, ghost items: seq<Item>) returns (buf: array<uint8>, len: int)
    requires Proper(items) && Spelled(items) == text && FirstEscape(text, 0, |text|, escape)
    ensures fresh(buf) && (len >= 0 <==> Meaning(items).Some?)
    ensures len >= 0 ==> len <= |text| && len <= buf.Length && buf[..len] == Meaning(items).value
  {
    buf := new uint8[|text| + 1](i => if 0 <= i < |text| then text[i] else 0);
    var from := if escape.Some? then escape.value else |text|;
    ghost var todo := PeelMany(items, from);
    assert buf[..from] == text[..from];
    if escape.None? {
      NothingLeft(todo);
      assert text[..|text|] + [] == text;
      return buf, |text|;
    }
    len := Rewrite(buf, text, from, items, todo);
  }

  /** An escape in the loop. */
  method EscapeOnce(buf: array<uint8>, text: Bytes, p: nat, dst: nat, ghost items: seq<Item>, ghost todo: seq<Item>)
    returns (ok: bool, p1: nat, dst1: nat)
    requires dst <= p < |text| && Ahead(buf, text + [0], p) && buf[p] == BACKSLASH
    requires Underway(text, items, buf[..dst], p, todo)
    modifies buf
    ensures !ok ==> Meaning(items).None?
    ensures ok ==> todo != [] && dst1 <= p1 && p < p1 <= |text| && Ahead(buf, text + [0], p1)
    ensures ok ==> Underway(text, items, buf[..dst1], p1, todo[1..])
  {
    EscapeAhead(text, p, todo);
    ghost var u, later := todo[0], todo[1..];
    TextSplits(text, p, Spell(u), Spelled(later));
    ProperAnywhere(u, Spelled(later));
    EscapeStep(text, items, buf[..dst], p, todo);
    ok, p1, dst1 := Unescape1(buf, p, dst, text + [0], u);
  }

  /** The loop: plain bytes move down, escapes are replaced. */
  method Rewrite(buf: array<uint8>, text: Bytes, from: nat, ghost items: seq<Item>, ghost start: seq<Item>) returns (len: int)
    requires Ahead(buf, text + [0], from) && from <= |text|
    requires Underway(text, items, buf[..from], from, start)
    modifies buf
    ensures len >= 0 <==> Meaning(items).Some?
    ensures len >= 0 ==> len <= |text| && buf[..len] == Meaning(items).value
  {
    ghost var z := text + [0];
    ghost var todo := start;
    var p: nat, dst: nat := from, from;
    while buf[p] != 0
      invariant dst <= p <= |text| && Ahead(buf, z, p)
      invariant Underway(text, items, buf[..dst], p, todo)
      decreases |text| - p
    {
      ghost var out := buf[..dst];
      if buf[p] != BACKSLASH {
        CopyStep(text, items, out, p, todo);
        buf[dst] := buf[p];
        assert buf[..dst + 1] == out + [text[p]];
        p, dst, todo := p + 1, dst + 1, Peeled(todo);
      } else {
        var ok;
        ok, p, dst := EscapeOnce(buf, text, p, dst, items, todo);
        if !ok {
          return -1;
        }
        todo := todo[1..];
      }
    }
    Finished(text, items, buf[..dst], p, todo);
    return dst;
  }

  lemma NoZeroAhead(text: Bytes, p: nat, todo: seq<Item>)
    requires p <= |text| && Proper(todo) && text[p..] == Spelled(todo)
    ensures p < |text| ==> text[p] != 0
  {
    if p < |text| {
      HeadIsPlain(todo);
      assert text[p] == text[p..][0];
    }
  }

  lemma Finished(text: Bytes, items: seq<Item>, out: Bytes, p: nat, todo: seq<Item>)
    requires Underway(text, items, out, p, todo) && (text + [0])[p] == 0
    ensures Meaning(items) == Some(out)
  {
    NoZeroAhead(text, p, todo);
    NothingLeft(todo);
    assert out + [] == out;
  }
}
