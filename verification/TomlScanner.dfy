/** The string scanners as they run: a cursor over the source text. */
module TomlScanner {
  import opened Common
  import opened TomlStrings

  /** Where the text of a string token lies, and where its first backslash is. */
  datatype Token = Token(multi: bool, start: nat, end: nat, escape: Option<nat>)

  /** `escape` is the first backslash between two positions. */
  ghost predicate FirstEscape(s: Bytes, i: nat, j: nat, escape: Option<nat>)
    requires j <= |s|
  {
    match escape
    case None => forall k :: i <= k < j ==> s[k] != BACKSLASH
    case Some(e) => i <= e < j && s[e] == BACKSLASH && forall k :: i <= k < e ==> s[k] != BACKSLASH
  }

  /** The first backslash, once the item at a position has been read too. */
  function Noted(escape: Option<nat>, at: nat, u: Item): Option<nat> {
    if escape.None? && !u.Raw? && !u.Break? then Some(at) else escape
  }

  lemma NotedIsFirst(multi: bool, s: Bytes, i: nat, j: nat, escape: Option<nat>)
    requires i <= j < |s| && FirstEscape(s, i, j, escape) && Lex(multi, s, j).Lexed?
    ensures FirstEscape(s, i, Lex(multi, s, j).next, Noted(escape, j, Lex(multi, s, j).item))
  {
  }

  lemma PrependTwice(done: seq<Item>, u: Item, r: Scanned)
    ensures Prepended(done, Prepended([u], r)) == Prepended(done + [u], r)
  {
    if r.Scanned? {
      Assoc(done, [u], r.items);
    }
  }

  /** The scan from i has read the items `done` and stands at j. */
  ghost predicate Reached(multi: bool, s: Bytes, i: nat, j: nat, done: seq<Item>)
    requires i <= j <= |s|
  {
    Scan(multi, s, i) == Prepended(done, Scan(multi, s, j))
  }

  lemma ReachesNext(multi: bool, s: Bytes, i: nat, j: nat, done: seq<Item>)
    requires i <= j < |s| && Reached(multi, s, i, j, done)
    requires !Closes(multi, s, j) && !Crowded(multi, s, j) && Lex(multi, s, j).Lexed?
    ensures Reached(multi, s, i, Lex(multi, s, j).next, done + [Lex(multi, s, j).item])
  {
    var r := Lex(multi, s, j);
    PrependTwice(done, r.item, Scan(multi, s, r.next));
  }

  lemma ReachesEnd(multi: bool, s: Bytes, i: nat, j: nat, done: seq<Item>)
    requires i <= j <= |s| && Reached(multi, s, i, j, done)
    ensures Closes(multi, s, j) ==> Scan(multi, s, i) == Scanned(done, j)
    ensures !Closes(multi, s, j) && (j == |s| || Crowded(multi, s, j) || Lex(multi, s, j).Bad?) ==> Scan(multi, s, i).Rejected?
  {
    assert done + [] == done;
  }

  /** A token spans exactly what a scan from its start reads. */
  ghost predicate TokenOf(multi: bool, s: Bytes, from: nat, t: Token) {
    && from <= |s| && Scan(multi, s, from).Scanned?
    && t.multi == multi && t.start == from && t.end == Scan(multi, s, from).end <= |s|
    && FirstEscape(s, from, t.end, t.escape)
  }

  class Scanner {
    const src: Bytes
    var cur: nat

    ghost predicate Valid()
      reads this
    {
      cur <= |src|
    }

    constructor (src: Bytes)
      ensures Valid() && this.src == src && cur == 0
    {
      this.src := src;
      cur := 0;
    }

    /** The next character, -1 at the end. */
    method Get() returns (ch: int)
      requires Valid()
      modifies this
      ensures Valid() && (ch, cur) == Got(src, old(cur))
    {
      ch := -1;
      if cur < |src| {
        ch := src[cur] as int;
        cur := cur + 1;
        if ch == CR as int && cur < |src| && src[cur] == NL {
          ch := NL as int;
          cur := cur + 1;
        }
      }
    }

    /** Does a newline come next? */
    method MatchNewline() returns (yes: bool)
      requires Valid()
      ensures yes == (NewlineEnd(src, cur) > cur)
    {
      return (cur < |src| && src[cur] == NL) || (cur + 1 < |src| && src[cur] == CR && src[cur + 1] == NL);
    }

    /** Do n quotes come next? */
    method MatchQuotes(n: nat) returns (yes: bool)
      requires Valid()
      ensures yes == Quotes(src, cur, n)
    {
      if cur + n > |src| {
        return false;
      }
      var i := 0;
      while i < n && src[cur + i] == QUOTE
        invariant i <= n && forall k :: cur <= k < cur + i ==> src[k] == QUOTE
      {
        i := i + 1;
      }
      return i == n;
    }

    /** The escape behind a backslash, without moving. */
    method ScanEscape() returns (count: int)
      requires Valid()
      ensures count == Escape(src, cur)
    {
      var p := cur;
      if p >= |src| {
        return 0;
      }
      var ch := src[p];
      p := p + 1;
      if IsShort(ch) {
        return 1;
      }
      var hex := Width(ch);
      if hex > 0 {
        var i := 0;
        while i < hex && p < |src| && IsHex(src[p])
          invariant i <= hex && p == cur + 1 + i && p <= |src|
          invariant HexEnd(src, cur + 1, hex) == HexEnd(src, p, hex - i)
        {
          i, p := i + 1, p + 1;
        }
        return if i != hex then -1 else p - cur;
      }
      return 0;
    }

    /** Blanks up to some other character. */
    method ScanBlanks() returns (ch: int)
      requires Valid()
      modifies this
      ensures Valid() && (ch, cur) == Got(src, BlankEnd(src, old(cur)))
    {
      ghost var i := cur;
      ch := Get();
      while ch == SPACE as int || ch == TAB as int
        invariant Valid() && i <= |src| && (ch, cur) == Got(src, i)
        invariant BlankEnd(src, old(cur)) == BlankEnd(src, i)
        decreases |src| - i
      {
        i := i + 1;
        ch := Get();
      }
    }

    /** All blanks and newlines that come next. */
    method ScanSkips()
      requires Valid()
      modifies this
      ensures Valid() && cur == SkipEnd(src, old(cur))
    {
      var newline := MatchNewline();
      while cur < |src| && (src[cur] == SPACE || src[cur] == TAB || newline)
        invariant Valid() && newline == (NewlineEnd(src, cur) > cur)
        invariant SkipEnd(src, old(cur)) == SkipEnd(src, cur)
        decreases |src| - cur
      {
        NewlineIs(src, cur);
        var _ := Get();
        newline := MatchNewline();
      }
    }

    /** Blanks up to a newline, then blanks and newlines. */
    method ScanFold() returns (ok: bool)
      requires Valid()
      modifies this
      ensures Valid() && ok == LexFold(src, old(cur)).Lexed?
      ensures ok ==> cur == LexFold(src, old(cur)).next
    {
      NewlineIs(src, BlankEnd(src, cur));
      var ch := ScanBlanks();
      if ch != NL as int {
        return false;
      }
      ScanSkips();
      return true;
    }

    /** One item. */
    method ScanItem(multi: bool) returns (ok: bool, escaped: bool)
      requires Valid()
      modifies this
      ensures Valid() && ok == (old(cur) < |src| && Lex(multi, src, old(cur)).Lexed?)
      ensures ok ==>
        var r := Lex(multi, src, old(cur));
        cur == r.next && escaped == (!r.item.Raw? && !r.item.Break?)
    {
      var ch := Get();
      if ch == -1 {
        return false, false;
      }
      if ch != BACKSLASH as int {
        return Printable(ch) || ch == TAB as int || (multi && ch == NL as int), false;
      }
      var count := ScanEscape();
      if count < 0 {
        return false, true;
      }
      if count > 0 {
        cur := cur + count;
        return true, true;
      }
      if !multi {
        return false, true;
      }
      ok := ScanFold();
      escaped := true;
    }

    /** At the closing quotes; Some(false) at six quotes or more. */
    method AtClosing(multi: bool) returns (r: Option<bool>)
      requires Valid()
      ensures r == if Closes(multi, src, cur) then Some(true) else if Crowded(multi, src, cur) then Some(false) else None
    {
      if !multi {
        var one := MatchQuotes(1);
        return if one then Some(true) else None;
      }
      var three := MatchQuotes(3);
      if three {
        var four := MatchQuotes(4);
        if !four {
          return Some(true);
        }
        var six := MatchQuotes(6);
        if six {
          return Some(false);
        }
      }
      return None;
    }

    /** The items of a string up to its closing quotes. */
    method ScanBody(multi: bool) returns (token: Option<Token>)
      requires Valid()
      modifies this
      ensures Valid() && token.Some? == Scan(multi, src, old(cur)).Scanned?
      ensures token.Some? ==> TokenOf(multi, src, old(cur), token.value) && cur == token.value.end
    {
      ghost var done: seq<Item> := [];
      var start := cur;
      var escape: Option<nat> := None;
      assert forall items: seq<Item> :: [] + items == items;
      while true
        invariant Valid() && start <= cur && Reached(multi, src, start, cur, done)
        invariant FirstEscape(src, start, cur, escape)
        decreases |src| - cur
      {
        var at := cur;
        ReachesEnd(multi, src, start, at, done);
        var closing := AtClosing(multi);
        if closing.Some? {
          return if closing.value then Some(Token(multi, start, cur, escape)) else None;
        }
        var ok, escaped := ScanItem(multi);
        if !ok {
          return None;
        }
        ReachesNext(multi, src, start, at, done);
        NotedIsFirst(multi, src, start, at, escape);
        done := done + [Lex(multi, src, at).item];
        if escaped && escape.None? {
          escape := Some(at);
        }
      }
    }

    /**
     * A basic string from its opening quote to past its closing ones. A newline right behind
     * three opening quotes does not count.
     */
    method ScanString() returns (token: Option<Token>)
      requires Valid() && Quotes(src, cur, 1)
      modifies this
      ensures
        var multi := Quotes(src, old(cur), 3);
        var from := if multi then NewlineEnd(src, old(cur) + 3) else old(cur) + 1;
        && Valid() && token.Some? == Scan(multi, src, from).Scanned?
        && (token.Some? ==> TokenOf(multi, src, from, token.value) && cur == token.value.end + if multi then 3 else 1)
    {
      var multi := MatchQuotes(3);
      cur := cur + if multi then 3 else 1;
      if multi {
        var newline := MatchNewline();
        if newline {
          var _ := Get();
        }
      }
      token := ScanBody(multi);
      if token.Some? {
        ScanIsProper(multi, src, token.value.start);
        cur := cur + if multi then 3 else 1;
      }
    }
  }
}
