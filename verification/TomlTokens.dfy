/** What lies between tokens, and how far bare keys reach. */
module TomlTokens {
  import opened Common
  import opened TomlStrings
  import opened TomlParser

  const HASH: uint8 := 0x23

  /** Blanks in front of a token do not matter. */
  lemma BlankPasses(x: Scanners, s: Bytes, i: nat, keymode: bool)
    requires i < |s| && (s[i] == 0x20 || s[i] == 0x09)
    ensures Next(x, s, i, keymode) == Next(x, s, i + 1, keymode)
  {
  }

  // ---------------------------------------------------------------- comments

  /** From i on, the first newline is at j, or there is none and j is the end. */
  ghost predicate FirstNewline(s: Bytes, i: nat, j: nat) {
    && i <= j <= |s|
    && (forall k :: i <= k < j ==> NewlineEnd(s, k) == k)
    && (j < |s| ==> NewlineEnd(s, j) > j)
  }

  /** Tabs and whatever is no control character. */
  predicate InComment(c: uint8) {
    c == 0x09 || (c >= 0x20 && c != 0x7F)
  }

  lemma {:induction false} CommentEnds(s: Bytes, i: nat, j: nat)
    requires FirstNewline(s, i, j)
    ensures CommentEnd(s, i) == if forall k :: i <= k < j ==> InComment(s[k]) then Some(j) else None
    decreases j - i
  {
    if i < j {
      assert NewlineEnd(s, i) == i;
      CommentEnds(s, i + 1, j);
      assert BadInComment(s[i] as int) <==> !InComment(s[i]);
    }
  }

  /**
   * A comment stands for the newline behind it, or for the end of the text, if there is no control
   * character but tabs in it; otherwise there is no token.
   */
  lemma CommentPasses(x: Scanners, s: Bytes, i: nat, j: nat, keymode: bool)
    requires i < |s| && s[i] == HASH && FirstNewline(s, i + 1, j)
    ensures Next(x, s, i, keymode) ==
      if exists k :: i < k < j && !InComment(s[k]) then NoToken
      else if j == |s| then Token(Fin, j) else Token(Endl, NewlineEnd(s, j))
  {
    CommentEnds(s, i + 1, j);
    assert Next(x, s, i, keymode) == match CommentEnd(s, i + 1) case None => NoToken case Some(k) => Next(x, s, k, keymode);
  }

  // ---------------------------------------------------------------- bare keys

  /** Letters, digits, underscores and dashes. */
  predicate InBareKey(c: uint8) {
    var ch := c as char;
    'A' <= ch <= 'Z' || 'a' <= ch <= 'z' || '0' <= ch <= '9' || ch == '_' || ch == '-'
  }

  lemma BareBytes(c: uint8)
    ensures InBareKey(c) <==> BareByte(c)
  {
  }

  lemma {:induction false} BareReaches(s: Bytes, i: nat, j: nat)
    requires i <= j <= |s| && (forall k :: i <= k < j ==> InBareKey(s[k]))
    requires j < |s| ==> s[j] < 0x80 && !InBareKey(s[j])
    ensures BareEnd(s, i) == j
    decreases j - i
  {
    if i < j {
      BareBytes(s[i]);
      BareReaches(s, i + 1, j);
    } else if j < |s| {
      BareBytes(s[j]);
    }
  }

  /** A bare key reaches to the first ASCII byte that is no letter, digit, underscore or dash. */
  lemma BareKeyIsToken(x: Scanners, s: Bytes, i: nat, j: nat)
    requires i < j <= |s| && (forall k :: i <= k < j ==> InBareKey(s[k]))
    requires j < |s| ==> s[j] < 0x80 && !InBareKey(s[j])
    ensures Next(x, s, i, true) == Token(Lit, j)
  {
    BareReaches(s, i, j);
    BareBytes(s[i]);
  }

  /** Brackets are doubled only where keys are expected. */
  lemma DoubledBrackets(x: Scanners, s: Bytes, i: nat)
    requires i < |s| && s[i] in Ascii("[]")
    ensures
      var twice := i + 1 < |s| && s[i + 1] == s[i];
      && Next(x, s, i, true) == (if s[i] == 0x5B then
           if twice then Token(LLBrack, i + 2) else Token(LBrack, i + 1)
           else if twice then Token(RRBrack, i + 2) else Token(RBrack, i + 1))
      && Next(x, s, i, false) == Token(if s[i] == 0x5B then LBrack else RBrack, i + 1)
  {
  }
}
