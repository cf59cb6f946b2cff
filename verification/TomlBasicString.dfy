/** Basic strings from source bytes to value: the scanner and the unescaping put together. */
module TomlBasicString {
  import opened Common
  import opened TomlStrings
  import opened TomlScanner
  import opened TomlNormalise
  import Utf8

  /** A \u or \U escape that names a surrogate or a number past the four-byte range. */
  ghost predicate BadCode(u: Item)
    requires Proper1(u, [])
  {
    u.Code? && (Surrogate(HexValue(u.digits)) || HexValue(u.digits) > Utf8.LIMIT)
  }

  ghost predicate AnyBadCode(items: seq<Item>) {
    exists k :: 0 <= k < |items| && Proper1(items[k], []) && BadCode(items[k])
  }

  /** A string has a value unless one of its hexadecimal escapes is bad; two-digit ones never are. */
  lemma {:induction false} FailsJustForBadCodes(items: seq<Item>)
    requires Proper(items)
    ensures Meaning(items).None? <==> AnyBadCode(items)
    ensures forall k :: 0 <= k < |items| && Proper1(items[k], []) && BadCode(items[k]) ==> |items[k].digits| > 2
  {
    if items != [] {
      var u, later := items[0], items[1..];
      FailsJustForBadCodes(later);
      ProperAnywhere(u, Spelled(later));
      if u.Code? {
        HexBound(u.digits);
      }
      assert forall k :: 0 < k < |items| ==> items[k] == later[k - 1];
      if AnyBadCode(later) {
        var k :| 0 <= k < |later| && Proper1(later[k], []) && BadCode(later[k]);
        assert items[k + 1] == later[k];
      }
    }
  }

  lemma EscapeInText(s: Bytes, i: nat, j: nat, escape: Option<nat>)
    requires i <= j <= |s| && FirstEscape(s, i, j, escape)
    ensures
      var text := s[i..j];
      FirstEscape(text, 0, |text|, if escape.Some? then Some(escape.value - i) else None)
  {
  }

  /** The value of a token. */
  method TokenValue(src: Bytes, t: Token) returns (value: Option<Bytes>)
    requires TokenOf(t.multi, src, t.start, t)
    ensures
      var items := Scan(t.multi, src, t.start).items;
      Proper(items) && value == Meaning(items)
  {
    ghost var items := Scan(t.multi, src, t.start).items;
    ScanIsProper(t.multi, src, t.start);
    EscapeInText(src, t.start, t.end, t.escape);
    var text := src[t.start..t.end];
    var buf, len := ParseNorm(text, if t.escape.Some? then Some(t.escape.value - t.start) else None, items);
    return if len < 0 then None else Some(buf[..len]);
  }

  /**
   * A basic string where the cursor stands: the meaning of the items the scanner read. There
   * is none when the text is no string or when an escape names a bad code point.
   */
  method StringValue(scanner: Scanner) returns (value: Option<Bytes>)
    requires scanner.Valid() && Quotes(scanner.src, scanner.cur, 1)
    modifies scanner
    ensures scanner.Valid()
    ensures
      var src, at := scanner.src, old(scanner.cur);
      var multi := Quotes(src, at, 3);
      var scan := Scan(multi, src, if multi then NewlineEnd(src, at + 3) else at + 1);
      if scan.Rejected? then value == None else Proper(scan.items) && value == Meaning(scan.items)
  {
    var token := scanner.ScanString();
    if token.None? {
      return None;
    }
    value := TokenValue(scanner.src, token.value);
  }

  // ---------------------------------------------------------------- what escapes stand for

  /** Backspace, tab, newline, form feed, carriage return, escape, quote and backslash. */
  lemma ShortEscapes(n: nat)
    requires n < 8
    ensures
      var letters, meanings := Ascii("btnfre\"\\"), [8, 9, 10, 12, 13, 27, 0x22, 0x5C];
      IsShort(letters[n]) && Meaning1(Short(letters[n])) == Some([meanings[n]])
  {
  }

  /** The digit of a number below sixteen, in lower or upper case. */
  function DigitOf(n: nat, upper: bool): uint8
    requires n < 16
  {
    if n < 10 then 0x30 + n as uint8 else (if upper then 0x37 else 0x57) + n as uint8
  }

  function Digits(n: nat, width: nat, upper: bool): (d: Bytes)
    ensures |d| == width && forall c :: c in d ==> IsHex(c)
  {
    if width == 0 then [] else Digits(n / 16, width - 1, upper) + [DigitOf(n % 16, upper)]
  }

  function Power16(n: nat): nat {
    if n == 0 then 1 else 16 * Power16(n - 1)
  }

  /** A number written in hexadecimal, in either case, stands for itself. */
  lemma {:induction false} HexRoundTrip(n: nat, width: nat, upper: bool)
    requires n < Power16(width)
    ensures HexValue(Digits(n, width, upper)) == n
  {
    if width > 0 {
      HexRoundTrip(n / 16, width - 1, upper);
      var d := Digits(n, width, upper);
      assert d[..width - 1] == Digits(n / 16, width - 1, upper) && d[width - 1] == DigitOf(n % 16, upper);
    }
  }

  lemma Widths()
    ensures Power16(2) == 0x100 && Power16(4) == 0x1_0000 && Power16(8) == 0x1_0000_0000
  {
    assert Power16(6) == 0x100_0000;
  }

  /** So every code point but a surrogate can be written with \u or \U, and is read as its encoding. */
  lemma CodeEscapes(code: nat, upper: bool)
    requires code <= Utf8.LIMIT && !Surrogate(code)
    ensures
      var long := Code(0x55, Digits(code, 8, upper));
      && Proper1(long, []) && Meaning1(long) == Utf8.Encode(code)
      && (code <= 0xFFFF ==>
            var short := Code(0x75, Digits(code, 4, upper));
            Proper1(short, []) && Meaning1(short) == Utf8.Encode(code))
  {
    Widths();
    HexRoundTrip(code, 8, upper);
    if code <= 0xFFFF {
      HexRoundTrip(code, 4, upper);
    }
  }
}
