/** The list command: control characters made visible, one line an entry, pages of a hundred. */
module Listing {
  import opened Common
  import Store

  const TAB: uint8 := 0x09
  const NL: uint8 := 0x0A
  const BACKSLASH: uint8 := 0x5C

  // ---------------------------------------------------------------- escaping

  /** The letter for a character that has a short escape, 0 for all others. */
  function Letter(c: uint8): uint8 {
    if c == 0x07 then 0x61 else if c == 0x08 then 0x62 else if c == 0x0C then 0x66
    else if c == NL then 0x6E else if c == 0x0D then 0x72 else if c == TAB then 0x74
    else if c == 0x0B then 0x76 else if c == BACKSLASH then BACKSLASH else 0
  }

  predicate Control(c: uint8) {
    c < 0x20 || c == 0x7F
  }

  /** An upper-case hexadecimal digit. */
  function Hex(n: uint8): uint8
    requires n < 16
  {
    if n < 10 then 0x30 + n else 0x37 + n
  }

  function Escape1(c: uint8): (e: Bytes)
    ensures 0 < |e| <= 4
  {
    if Letter(c) != 0 then [BACKSLASH, Letter(c)]
    else if Control(c) then [BACKSLASH, 0x78, Hex(c / 16), Hex(c % 16)]
    else [c]
  }

  function Escaped(s: Bytes): (e: Bytes)
    ensures |e| <= 4 * |s|
  {
    if s == [] then [] else Escaped(s[..|s| - 1]) + Escape1(s[|s| - 1])
  }

  method Put(out: array<uint8>, j: nat, c: uint8) returns (next: nat)
    requires j < out.Length
    modifies out
    ensures next == j + 1 && out[..next] == old(out[..j]) + [c]
  {
    out[j] := c;
    next := j + 1;
  }

  /** A control character as backslash, x and two digits, with the terminator that printing adds. */
  method PutHex(out: array<uint8>, j: nat, c: uint8) returns (next: nat)
    requires j + 5 <= out.Length
    modifies out
    ensures next == j + 4 && out[..next] == old(out[..j]) + [BACKSLASH, 0x78, Hex(c / 16), Hex(c % 16)]
    ensures out[next] == 0
  {
    next := Put(out, j, BACKSLASH);
    next := Put(out, next, 0x78);
    next := Put(out, next, Hex(c / 16));
    next := Put(out, next, Hex(c % 16));
    out[next] := 0;
  }

  /** Writes the escaped text and its terminator into a buffer of 4 * len + 1 bytes. */
  method TextEscape(str: Bytes) returns (out: array<uint8>, j: nat)
    ensures fresh(out) && j < out.Length == 4 * |str| + 1
    ensures out[..j] == Escaped(str) && out[j] == 0
  {
    out := new uint8[4 * |str| + 1];
    j := 0;
    for i := 0 to |str|
      invariant j <= 4 * i && out[..j] == Escaped(str[..i])
    {
      assert str[..i + 1][..i] == str[..i];
      var c := str[i];
      if Letter(c) != 0 {
        j := Put(out, j, BACKSLASH);
        j := Put(out, j, Letter(c));
      } else if c < 0x20 || c == 0x7F {
        j := PutHex(out, j, c);
      } else {
        j := Put(out, j, c);
      }
    }
    assert str[..|str|] == str;
    out[j] := 0;
  }

  /** Nothing that is escaped is a control character. */
  lemma {:induction false} NoControls(s: Bytes)
    ensures forall c :: c in Escaped(s) ==> !Control(c)
  {
    if s != [] {
      var c := s[|s| - 1];
      NoControls(s[..|s| - 1]);
      assert forall x :: x in Escape1(c) ==> !Control(x);
    }
  }

  // ---------------------------------------------------------------- reading it back

  function Unhex(c: uint8): uint8 {
    if 0x30 <= c <= 0x39 then c - 0x30 else if 0x41 <= c <= 0x46 then c - 0x37 else 0
  }

  function Unletter(c: uint8): uint8 {
    if c == 0x61 then 0x07 else if c == 0x62 then 0x08 else if c == 0x66 then 0x0C
    else if c == 0x6E then NL else if c == 0x72 then 0x0D else if c == 0x74 then TAB
    else if c == 0x76 then 0x0B else c
  }

  /** Escapes read from left to right. */
  function Unescaped(e: Bytes): Bytes {
    if e == [] then []
    else if e[0] != BACKSLASH || |e| == 1 then [e[0]] + Unescaped(e[1..])
    else if e[1] == 0x78 && |e| >= 4 then [((16 * Unhex(e[2]) as int + Unhex(e[3]) as int) % 256) as uint8] + Unescaped(e[4..])
    else [Unletter(e[1])] + Unescaped(e[2..])
  }

  lemma {:induction false} EscapedFirst(s: Bytes)
    requires s != []
    ensures Escaped(s) == Escape1(s[0]) + Escaped(s[1..])
  {
    var n := |s| - 1;
    if n == 0 {
      assert s[..0] == [] && s[1..] == [];
    } else {
      EscapedFirst(s[..n]);
      assert s[..n][1..] == s[1..][..n - 1];
      Assoc(Escape1(s[0]), Escaped(s[1..][..n - 1]), Escape1(s[n]));
    }
  }

  lemma ReadsBack(c: uint8, rest: Bytes)
    ensures Unescaped(Escape1(c) + rest) == [c] + Unescaped(rest)
  {
    var e := Escape1(c) + rest;
    if Letter(c) != 0 {
      assert e[2..] == rest && Unletter(Letter(c)) == c && Letter(c) != 0x78;
    } else if Control(c) {
      assert e[4..] == rest;
      HexReadsBack(c / 16);
      HexReadsBack(c % 16);
    } else {
      assert e[1..] == rest;
    }
  }

  lemma HexReadsBack(n: uint8)
    requires n < 16
    ensures Unhex(Hex(n)) == n
  {
  }

  /** Reading an escaped text gives back the text. */
  lemma {:induction false} RoundTrip(s: Bytes)
    ensures Unescaped(Escaped(s)) == s
    decreases |s|
  {
    if s != [] {
      EscapedFirst(s);
      RoundTrip(s[1..]);
      ReadsBack(s[0], Escaped(s[1..]));
    }
  }

  /** Bell, backspace, form feed, newline, return, tab, vertical tab and backslash, and a control character without a letter. */
  lemma Escapes(n: nat)
    requires n < 8
    ensures
      var controls, letters := [0x07, 0x08, 0x0C, NL, 0x0D, TAB, 0x0B, BACKSLASH], Ascii("abfnrtv\\");
      Escaped([controls[n]]) == [BACKSLASH, letters[n]]
    ensures Escaped([0x1B]) == Ascii("\\x1B") && Escaped([0x7F]) == Ascii("\\x7F")
  {
    var controls := [0x07, 0x08, 0x0C, NL, 0x0D, TAB, 0x0B, BACKSLASH];
    assert [controls[n]][..0] == [] && [0x1B as uint8][..0] == [] && [0x7F as uint8][..0] == [];
  }

  /** Different texts look different. */
  lemma Injective(s: Bytes, t: Bytes)
    requires Escaped(s) == Escaped(t)
    ensures s == t
  {
    RoundTrip(s);
    RoundTrip(t);
  }

  // ---------------------------------------------------------------- lines

  /** The line of a text entry: id, tab, marks and at most a hundred bytes of its text. */
  function TextLine(id: Bytes, marks: Bytes, text: Bytes): Bytes {
    id + [TAB] + marks + Escaped(text[..if |text| < 100 then |text| else 100]) + [NL]
  }

  ghost predicate Visible(s: Bytes) {
    forall c :: c in s ==> !Control(c)
  }

  /** It is one line, and the id ends at the only tab. */
  lemma LineIsOneLine(id: Bytes, marks: Bytes, text: Bytes, i: nat)
    requires Visible(id) && Visible(marks) && i < |TextLine(id, marks, text)|
    ensures TextLine(id, marks, text)[i] == NL <==> i == |TextLine(id, marks, text)| - 1
    ensures TextLine(id, marks, text)[i] == TAB <==> i == |id|
    ensures TextLine(id, marks, text)[..|id|] == id
  {
    var shown := Escaped(text[..if |text| < 100 then |text| else 100]);
    NoControls(text[..if |text| < 100 then |text| else 100]);
    var line := TextLine(id, marks, text);
    if i < |id| {
      assert line[i] == id[i] && id[i] in id;
    } else if |id| < i < |id| + 1 + |marks| {
      assert line[i] == marks[i - |id| - 1] && marks[i - |id| - 1] in marks;
    } else if |id| + 1 + |marks| <= i < |line| - 1 {
      assert line[i] == shown[i - |id| - 1 - |marks|] && shown[i - |id| - 1 - |marks|] in shown;
    }
  }

  /** Behind the marks stands the beginning of the text, up to a hundred bytes of it. */
  lemma LineShowsText(id: Bytes, marks: Bytes, text: Bytes)
    ensures
      var line, n := TextLine(id, marks, text), |id| + 1 + |marks|;
      && n < |line| && line[|id| + 1..n] == marks
      && Unescaped(line[n..|line| - 1]) <= text
      && |Unescaped(line[n..|line| - 1])| == if |text| <= 100 then |text| else 100
  {
    var shown := text[..if |text| < 100 then |text| else 100];
    var line, n := TextLine(id, marks, text), |id| + 1 + |marks|;
    assert line[n..|line| - 1] == Escaped(shown) && line[|id| + 1..n] == marks;
    RoundTrip(shown);
  }

  // ---------------------------------------------------------------- pages

  /** What the paging loop prints from an offset on: a page that is not full is the last. */
  function Pages(history: seq<int>, off: int, remain: int): seq<int>
    decreases remain
  {
    if remain <= 0 then []
    else
      var n := if remain < 100 then remain else 100;
      var page := Store.Page(history, off, n);
      page + if |page| == n then Pages(history, off + 100, remain - 100) else []
  }

  /** The loop, against a history that stays as it is. */
  method CommandList(history: seq<int>, start: int, number: int) returns (printed: seq<int>)
    ensures printed == Pages(history, start, number)
  {
    printed := [];
    var off, remain, last := start, number, false;
    while remain > 0 && !last
      invariant Pages(history, start, number) == printed + if last then [] else Pages(history, off, remain)
      decreases !last, remain
    {
      var n := if remain < 100 then remain else 100;
      var page := Store.Page(history, off, n);
      printed := printed + page;
      last := |page| != n;
      off := off + 100;
      remain := remain - 100;
    }
  }

  /** From an offset inside the history, the pages are exactly the window asked for. */
  lemma {:induction false} PagesAreWindow(history: seq<int>, off: nat, remain: nat)
    ensures Pages(history, off, remain) == Store.Page(history, off, remain)
    decreases remain
  {
    if remain > 100 && off + 100 <= |history| {
      PagesAreWindow(history, off + 100, remain - 100);
    }
  }

  lemma PagesStart(history: seq<int>, off: int, remain: int)
    requires remain > 0 && off < |history| && history != []
    ensures Pages(history, off, remain) != [] && Pages(history, off, remain)[0] == history[if off < 0 then 0 else off]
  {
  }

  /**
   * The list command prints the window of the history it was asked for, once, unless the start
   * is negative and more than one page is both wanted and there: then pages overlap, because a
   * negative offset counts as zero.
   */
  lemma ListIsWindow(history: seq<int>, start: int, number: nat)
    requires Distinct(history)
    ensures Pages(history, start, number) == Store.Page(history, start, number)
      <==> start >= 0 || number <= 100 || |history| < 100
  {
    if start >= 0 {
      PagesAreWindow(history, start, number);
    } else if number > 100 && |history| >= 100 {
      var next := start + 100;
      PagesStart(history, next, number - 100);
      var printed := Pages(history, start, number);
      assert printed[100] == history[if next < 0 then 0 else next];
      assert |history| > 100 ==> Store.Page(history, start, number)[100] == history[100];
    }
  }
}
