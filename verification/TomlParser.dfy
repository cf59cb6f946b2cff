/**
 * The recursive descent over tokens, as functions and as it runs. The trees it builds are
 * elsewhere; here their operations only succeed or fail.
 */
module TomlParser {
  import opened Common
  import opened TomlStrings
  import Utf8

  const LEVEL_MAX := 30
  const KEYPART_MAX := 10

  datatype Kind =
    | Dot | Equal | Comma | LBrack | LLBrack | RBrack | RRBrack | LBrace | RBrace
    | Lit | Str | MlStr | LitStr | MlLitStr | Scalar | Endl | Fin

  datatype Token = Token(kind: Kind, next: nat) | NoToken

  // ---------------------------------------------------------------- tokens

  /** Scanners that are not modelled may stay where they are; none returns punctuation. */
  ghost predicate Sane(f: (Bytes, nat) -> Token) {
    forall s, i: nat :: i < |s| && f(s, i).Token? ==>
      i <= f(s, i).next <= |s| && f(s, i).kind in {LitStr, MlLitStr, Scalar}
  }

  type SubScanner = f: (Bytes, nat) -> Token | Sane(f) ghost witness (s, i) => NoToken

  /** For single quotes, and for values that are not strings. */
  datatype Scanners = Scanners(literal: SubScanner, value: SubScanner)

  /** A string in double quotes, as the string scanner reads it. */
  function Basic(s: Bytes, i: nat): (t: Token)
    requires i < |s| && s[i] == QUOTE
    ensures t.Token? ==> i < t.next <= |s| && (t.kind.Str? || t.kind.MlStr?)
  {
    var multi := Quotes(s, i, 3);
    var from := if multi then NewlineEnd(s, i + 3) else i + 1;
    match Scan(multi, s, from)
    case Rejected => NoToken
    case Scanned(_, end) =>
      ScanIsProper(multi, s, from);
      Token(if multi then MlStr else Str, end + if multi then 3 else 1)
  }

  predicate BareByte(c: uint8) {
    0x30 <= c <= 0x39 || 0x41 <= c <= 0x5A || 0x61 <= c <= 0x7A || c == 0x5F || c == 0x2D
  }

  /** The code points above ASCII that a bare key may contain. */
  predicate BareCode(cp: nat) {
    || cp == 0xB2 || cp == 0xB3 || cp == 0xB9 || 0xBC <= cp <= 0xBE || 0xC0 <= cp <= 0xD6 || 0xD8 <= cp <= 0xF6
    || 0xF8 <= cp <= 0x37D || 0x37F <= cp <= 0x1FFF || cp == 0x200C || cp == 0x200D || 0x203F <= cp <= 0x2040
    || 0x2070 <= cp <= 0x218F || 0x2460 <= cp <= 0x24FF || 0x2C00 <= cp <= 0x2FEF || 0x3001 <= cp <= 0xD7FF
    || 0xF900 <= cp <= 0xFDCF || 0xFDF0 <= cp <= 0xFFFD || 0x1_0000 <= cp <= 0xE_FFFF
  }

  /** Where a bare key ends; it may be empty. */
  function BareEnd(s: Bytes, i: nat): (j: nat)
    requires i <= |s|
    ensures i <= j <= |s|
    decreases |s| - i
  {
    if i < |s| && BareByte(s[i]) then BareEnd(s, i + 1)
    else if i < |s| && s[i] >= 0x80 && Utf8.Decode(s[i..]).Some? then
      Utf8.DecodedIsEncoded(s[i..]);
      var d := Utf8.Decode(s[i..]).value;
      if BareCode(d.code) then BareEnd(s, i + d.used) else i
    else i
  }

  predicate BadInComment(ch: int) {
    0 <= ch <= 8 || 0x0A <= ch <= 0x1F || ch == 0x7F
  }

  /** Where a comment ends: at a newline or at the end; nothing if it has a control character. */
  function CommentEnd(s: Bytes, i: nat): (r: Option<nat>)
    requires i <= |s|
    ensures r.Some? ==> i <= r.value <= |s|
    decreases |s| - i
  {
    if NewlineEnd(s, i) > i || i == |s| then Some(i)
    else if BadInComment(Got(s, i).0) then None
    else CommentEnd(s, Got(s, i).1)
  }

  predicate Twice(s: Bytes, i: nat, keymode: bool, c: uint8) {
    keymode && i < |s| && s[i] == c
  }

  /** Every token but a key, a string, a value or the end takes at least one byte. */
  predicate Takes(k: Kind) {
    !(k.Lit? || k.Str? || k.MlStr? || k.LitStr? || k.MlLitStr? || k.Scalar? || k.Fin?)
  }

  /** The token at a position. */
  function Next(x: Scanners, s: Bytes, i: nat, keymode: bool): (t: Token)
    requires i <= |s|
    ensures t.Token? ==> i <= t.next <= |s| && (Takes(t.kind) ==> i < t.next) && (t.kind.Fin? ==> t.next == |s|)
    decreases |s| - i
  {
    var (ch, j) := Got(s, i);
    if ch == -1 then Token(Fin, i)
    else if ch == 0x0A then Token(Endl, j)
    else if ch == 0x2E then Token(Dot, j)
    else if ch == 0x3D then Token(Equal, j)
    else if ch == 0x2C then Token(Comma, j)
    else if ch == 0x7B then Token(LBrace, j)
    else if ch == 0x7D then Token(RBrace, j)
    else if ch == 0x20 || ch == 0x09 then Next(x, s, j, keymode)
    else if ch == 0x23 then
      match CommentEnd(s, j)
      case None => NoToken
      case Some(k) => Next(x, s, k, keymode)
    else if ch == 0x5B then if Twice(s, j, keymode, 0x5B) then Token(LLBrack, j + 1) else Token(LBrack, j)
    else if ch == 0x5D then if Twice(s, j, keymode, 0x5D) then Token(RRBrack, j + 1) else Token(RBrack, j)
    else if ch == 0x22 then Basic(s, i)
    else if ch == 0x27 then x.literal(s, i)
    else if keymode then Token(Lit, BareEnd(s, i))
    else x.value(s, i)
  }

  /** An equals sign is one in both modes. */
  lemma {:induction false} EqualInBothModes(x: Scanners, s: Bytes, i: nat)
    requires i <= |s|
    ensures Next(x, s, i, true).Token? && Next(x, s, i, true).kind.Equal?
      <==> Next(x, s, i, false).Token? && Next(x, s, i, false).kind.Equal?
    decreases |s| - i
  {
    var (ch, j) := Got(s, i);
    if ch == 0x20 || ch == 0x09 {
      EqualInBothModes(x, s, j);
    } else if ch == 0x23 && CommentEnd(s, j).Some? {
      EqualInBothModes(x, s, CommentEnd(s, j).value);
    }
  }

  function Brackets(k: Kind): int {
    if k.LBrack? then 1 else if k.RBrack? then -1 else 0
  }

  function Braces(k: Kind): int {
    if k.LBrace? then 1 else if k.RBrace? then -1 else 0
  }

  predicate IsKey(k: Kind) {
    k.Str? || k.LitStr? || k.Lit?
  }

  // ---------------------------------------------------------------- the descent as functions

  /** A text, the token at each position in either mode, and whether what is done with trees and strings succeeds. */
  datatype Source = Source(src: Bytes, token: (nat, bool) -> Token, accepts: nat -> bool)

  /** Tokens stay inside the text; the end is where it ends. */
  predicate Inside(t: Token, i: nat, len: nat) {
    t.Token? ==> i <= t.next <= len && (Takes(t.kind) ==> i < t.next) && (t.kind.Fin? ==> t.next == len)
  }

  predicate IsEqualSign(t: Token) {
    t.Token? && t.kind.Equal?
  }

  /** An equals sign is one in both modes, and at the end of the text there is the end. */
  ghost predicate Orderly(x: Source) {
    && x.token(|x.src|, true) == Token(Fin, |x.src|)
    && (forall i: nat, keymode: bool :: i <= |x.src| ==> Inside(x.token(i, keymode), i, |x.src|))
    && (forall i: nat :: i <= |x.src| ==> (IsEqualSign(x.token(i, true)) <==> IsEqualSign(x.token(i, false))))
  }

  type Env = x: Source | Orderly(x) ghost witness Source([], (i, keymode) => Token(Fin, 0), i => false)

  /** The token at a position. */
  function TokenAt(e: Env, i: nat, keymode: bool): (t: Token)
    requires i <= |e.src|
    ensures Inside(t, i, |e.src|)
  {
    e.token(i, keymode)
  }

  function TokensOf(scanners: Scanners, src: Bytes): (nat, bool) -> Token {
    (i: nat, keymode: bool) => if i <= |src| then Next(scanners, src, i, keymode) else NoToken
  }

  lemma TokensAreOrderly(scanners: Scanners, src: Bytes, accepts: nat -> bool)
    ensures Orderly(Source(src, TokensOf(scanners, src), accepts))
  {
    var token := TokensOf(scanners, src);
    forall i: nat | i <= |src| ensures IsEqualSign(token(i, true)) <==> IsEqualSign(token(i, false)) {
      EqualInBothModes(scanners, src, i);
    }
  }

  /** What the parser works on: a text and the scanners of its tokens. */
  function EnvOf(scanners: Scanners, src: Bytes, accepts: nat -> bool): (e: Env) {
    TokensAreOrderly(scanners, src, accepts);
    Source(src, TokensOf(scanners, src), accepts)
  }

  /** The arrays and the inline tables that are open. */
  datatype Level = Level(arrays: nat, tables: nat)

  const GROUND := Level(0, 0)

  /** Where the parser is: the two level counters, the table headers read and the most levels so far. */
  datatype Place = Place(cur: nat, brackets: int, braces: int, headers: nat, deepest: Level)

  datatype Outcome = Good(at: Place) | Failed(headers: nat, deepest: Level)

  function Lost(p: Place): Outcome {
    Failed(p.headers, p.deepest)
  }

  const OUTSET := Place(0, 0, 0, 0, GROUND)

  /** The next token, counted; nothing when there is none or a limit is passed. */
  function Counted(e: Env, p: Place, keymode: bool): (r: Option<(Kind, Place)>)
    requires p.cur <= |e.src|
    ensures r.Some? ==>
      var (k, q) := r.value;
      p.cur <= q.cur <= |e.src| && (Takes(k) ==> p.cur < q.cur) && q.headers == p.headers && q.deepest == p.deepest
  {
    match TokenAt(e, p.cur, keymode)
    case NoToken => None
    case Token(k, next) =>
      var q := p.(cur := next, brackets := p.brackets + Brackets(k), braces := p.braces + Braces(k));
      if (k.LBrack? && q.brackets > LEVEL_MAX) || (k.LBrace? && q.braces > LEVEL_MAX) then None else Some((k, q))
  }

  /** The parts of a key after the first; the token behind them is counted and put back. */
  function KeyParts(e: Env, p: Place, n: nat): (r: Option<Place>)
    requires p.cur <= |e.src|
    ensures r.Some? ==> p.cur <= r.value.cur <= |e.src| && r.value.headers == p.headers && r.value.deepest == p.deepest
    decreases |e.src| - p.cur
  {
    match Counted(e, p, true)
    case None => None
    case Some((k, q)) =>
      if !k.Dot? then Some(q.(cur := p.cur))
      else
        match Counted(e, q, true)
        case None => None
        case Some((part, r)) =>
          if !IsKey(part) || n >= KEYPART_MAX || !e.accepts(r.cur) then None else KeyParts(e, r, n + 1)
  }

  function Key(e: Env, p: Place, first: Kind): (r: Option<Place>)
    requires p.cur <= |e.src|
    ensures r.Some? ==> p.cur <= r.value.cur <= |e.src| && r.value.headers == p.headers && r.value.deepest == p.deepest
  {
    if !IsKey(first) || !e.accepts(p.cur) then None else KeyParts(e, p, 1)
  }

  function Max(a: nat, b: nat): nat {
    if a < b then b else a
  }

  function Deepest(a: Level, b: Level): Level {
    Level(Max(a.arrays, b.arrays), Max(a.tables, b.tables))
  }

  function Deeper(p: Place, level: Level): Place {
    p.(deepest := Deepest(p.deepest, level))
  }

  function InArray(level: Level): Level {
    level.(arrays := level.arrays + 1)
  }

  function InTable(level: Level): Level {
    level.(tables := level.tables + 1)
  }

  /** Accepted by the tree, or not. */
  function Kept(e: Env, r: Outcome): Outcome {
    if r.Good? && !e.accepts(r.at.cur) then Lost(r.at) else r
  }

  predicate Onward(e: Env, p: Place, r: Outcome) {
    r.Good? ==> p.cur <= r.at.cur <= |e.src| && r.at.headers == p.headers
  }

  /** A value whose first token has been read, at some level. */
  function Value(e: Env, p: Place, kind: Kind, level: Level): (r: Outcome)
    requires p.cur <= |e.src|
    ensures Onward(e, p, r)
    decreases |e.src| - p.cur, if kind.LBrack? || kind.LBrace? then 2 else 0, 0
  {
    match kind
    case LBrack => Items(e, Deeper(p, InArray(level)), InArray(level), false)
    case LBrace => Fields(e, Deeper(p, InTable(level)), InTable(level), false)
    case Scalar => Good(p)
    case Str => Kept(e, Good(p))
    case MlStr => Kept(e, Good(p))
    case LitStr => Kept(e, Good(p))
    case MlLitStr => Kept(e, Good(p))
    case _ => Lost(p)
  }

  /** The value behind an equals sign. */
  function Assigned(e: Env, p: Place, level: Level): (r: Outcome)
    requires p.cur <= |e.src|
    ensures Onward(e, p, r)
    decreases |e.src| - p.cur, 3, 0
  {
    match Counted(e, p, false)
    case None => Lost(p)
    case Some((k, q)) => Kept(e, Value(e, q, k, level))
  }

  /** The rest of an inline array. */
  function Items(e: Env, p: Place, level: Level, needComma: bool): (r: Outcome)
    requires p.cur <= |e.src|
    ensures Onward(e, p, r)
    decreases |e.src| - p.cur, 1, if needComma then 0 else 1
  {
    match Counted(e, p, false)
    case None => Lost(p)
    case Some((k, q)) =>
      if k.Endl? then Items(e, q, level, needComma)
      else if k.RBrack? then Good(q)
      else if k.Comma? then if needComma then Items(e, q, level, false) else Lost(p)
      else if needComma then Lost(p)
      else
        match Kept(e, Value(e, q, k, level))
        case Failed(n, d) => Failed(n, d)
        case Good(v) => Items(e, v, level, true)
  }

  /** One key and value of an inline table. */
  function Field(e: Env, p: Place, first: Kind, level: Level): (r: Outcome)
    requires p.cur <= |e.src|
    ensures Onward(e, p, r) && (r.Good? ==> p.cur < r.at.cur)
    decreases |e.src| - p.cur, 0, 1
  {
    match Key(e, p, first)
    case None => Lost(p)
    case Some(q) =>
      if !e.accepts(q.cur) then Lost(p)
      else
        match Counted(e, q, false)
        case None => Lost(p)
        case Some((eq, r)) =>
          if !eq.Equal? then Lost(p) else Assigned(e, r, level)
  }

  /** The rest of an inline table. */
  function Fields(e: Env, p: Place, level: Level, needComma: bool): (r: Outcome)
    requires p.cur <= |e.src|
    ensures Onward(e, p, r)
    decreases |e.src| - p.cur, 1, 0
  {
    match Counted(e, p, true)
    case None => Lost(p)
    case Some((k, q)) =>
      if k.RBrace? then Good(q)
      else if k.Comma? then if needComma then Fields(e, q, level, false) else Lost(p)
      else if k.Endl? then Fields(e, q, level, needComma)
      else if needComma then Lost(p)
      else
        match Field(e, q, k, level)
        case Failed(n, d) => Failed(n, d)
        case Good(v) => Fields(e, v, level, true)
  }

  /** A [table] header behind its bracket; or, with double brackets, an array table's. */
  function Header(e: Env, p: Place, closing: Kind): (r: Outcome)
    requires p.cur <= |e.src|
    ensures r.Good? ==> p.cur <= r.at.cur <= |e.src|
  {
    match Counted(e, p, true)
    case None => Lost(p)
    case Some((first, q)) =>
      match Key(e, q, first)
      case None => Lost(p)
      case Some(k) =>
        match Counted(e, k, true)
        case None => Lost(p)
        case Some((last, r)) =>
          if last != closing || !e.accepts(r.cur) then Lost(p)
          else Good(if closing.RBrack? then r.(headers := r.headers + 1) else r)
  }

  /** A line with a key and a value. */
  function KeyValue(e: Env, p: Place, first: Kind): (r: Outcome)
    requires p.cur <= |e.src|
    ensures Onward(e, p, r) && (r.Good? ==> p.cur < r.at.cur)
  {
    match Key(e, p, first)
    case None => Lost(p)
    case Some(q) =>
      match Counted(e, q, true)
      case None => Lost(p)
      case Some((eq, r)) =>
        if !eq.Equal? || !e.accepts(r.cur) then Lost(p) else Assigned(e, r, GROUND)
  }

  function Line(e: Env, p: Place, first: Kind): (r: Outcome)
    requires p.cur <= |e.src|
    ensures r.Good? ==> p.cur <= r.at.cur <= |e.src| && (!Takes(first) ==> p.cur < r.at.cur)
  {
    if first.LBrack? then Header(e, p, RBrack)
    else if first.LLBrack? then Header(e, p, RRBrack)
    else KeyValue(e, p, first)
  }

  /** The rest of a document. */
  function Document(e: Env, p: Place): (r: Outcome)
    requires p.cur <= |e.src|
    ensures r.Good? ==> r.at.cur == |e.src|
    decreases |e.src| - p.cur
  {
    match Counted(e, p, true)
    case None => Lost(p)
    case Some((first, q)) =>
      if first.Fin? then Good(q)
      else if first.Endl? then Document(e, q)
      else
        match Line(e, q, first)
        case Failed(n, d) => Failed(n, d)
        case Good(w) =>
          match Counted(e, w, true)
          case None => Lost(w)
          case Some((k, v)) => if k.Fin? || k.Endl? then Document(e, v) else Lost(w)
  }

  lemma FieldGoesOn(e: Env, p: Place, first: Kind, level: Level, q: Place, r: Place)
    requires p.cur <= |e.src| && q.cur <= |e.src| && r.cur <= |e.src|
    requires Key(e, p, first) == Some(q) && e.accepts(q.cur) && Counted(e, q, false) == Some((Equal, r))
    ensures Field(e, p, first, level) == Assigned(e, r, level)
  {
  }

  // ---------------------------------------------------------------- the descent as it runs

  class Parser {
    const env: Env
    var cur: nat
    var brackets: int
    var braces: int
    /** Table headers read, and the most levels so far. */
    ghost var headers: nat
    ghost var deepest: Level

    ghost function At(): Place
      reads this
    {
      Place(cur, brackets, braces, headers, deepest)
    }

    ghost predicate Valid()
      reads this
    {
      cur <= |env.src|
    }

    /** The parser has done what a function says. */
    ghost predicate Did(ok: bool, r: Outcome)
      reads this
    {
      Valid() && if ok then r == Good(At()) else r == Failed(headers, deepest)
    }

    constructor (env: Env)
      ensures Valid() && At() == OUTSET && this.env == env
    {
      this.env := env;
      cur, brackets, braces, headers, deepest := 0, 0, 0, 0, GROUND;
    }

    method Scan(keymode: bool) returns (r: Option<Kind>)
      requires Valid()
      modifies this`cur, this`brackets, this`braces
      ensures Valid()
      ensures
        var t := Counted(env, old(At()), keymode);
        r.Some? == t.Some? && (r.Some? ==> t.value == (r.value, At()))
    {
      var t := TokenAt(env, cur, keymode);
      if t.NoToken? {
        return None;
      }
      cur := t.next;
      match t.kind {
        case LBrack => {
          brackets := brackets + 1;
          if brackets > LEVEL_MAX {
            return None;
          }
        }
        case RBrack => brackets := brackets - 1;
        case LBrace => {
          braces := braces + 1;
          if braces > LEVEL_MAX {
            return None;
          }
        }
        case RBrace => braces := braces - 1;
        case _ =>
      }
      return Some(t.kind);
    }

    method ParseKey(first: Kind) returns (ok: bool)
      requires Valid()
      modifies this`cur, this`brackets, this`braces
      ensures Valid()
      ensures
        var r := Key(env, old(At()), first);
        ok == r.Some? && (ok ==> r.value == At())
    {
      if !IsKey(first) || !env.accepts(cur) {
        return false;
      }
      var n := 1;
      while true
        invariant Valid() && n >= 1
        invariant Key(env, old(At()), first) == KeyParts(env, At(), n)
        decreases |env.src| - cur
      {
        var mark := cur;
        var dot := Scan(true);
        if dot.None? {
          return false;
        }
        if !dot.value.Dot? {
          cur := mark;
          return true;
        }
        var part := Scan(true);
        if part.None? || !IsKey(part.value) || n >= KEYPART_MAX || !env.accepts(cur) {
          return false;
        }
        n := n + 1;
      }
    }

    method ParseVal(kind: Kind, ghost level: Level) returns (ok: bool)
      requires Valid()
      modifies this
      ensures Did(ok, Value(env, old(At()), kind, level))
      decreases |env.src| - cur, if kind.LBrack? || kind.LBrace? then 2 else 0, 0
    {
      match kind {
        case LBrack => ok := ParseInlineArray(InArray(level));
        case LBrace => ok := ParseInlineTable(InTable(level));
        case Str => return env.accepts(cur);
        case MlStr => return env.accepts(cur);
        case LitStr => return env.accepts(cur);
        case MlLitStr => return env.accepts(cur);
        case Scalar => return true;
        case _ => return false;
      }
    }

    /** `level` counts this array and all that it is inside of. */
    method ParseInlineArray(ghost level: Level) returns (ok: bool)
      requires Valid()
      modifies this
      ensures Did(ok, Items(env, Deeper(old(At()), level), level, false))
      decreases |env.src| - cur, 1, 1
    {
      deepest := Deepest(deepest, level);
      ghost var whole := Items(env, At(), level, false);
      var needComma := false;
      while true
        invariant Valid() && cur >= old(cur)
        invariant whole == Items(env, At(), level, needComma)
        decreases |env.src| - cur, !needComma
      {
        var token := Scan(false);
        if token.None? {
          return false;
        }
        if token.value.Endl? {
          continue;
        }
        if token.value.RBrack? {
          return true;
        }
        if token.value.Comma? {
          if !needComma {
            return false;
          }
          needComma := false;
          continue;
        }
        if needComma {
          return false;
        }
        ok := ParseVal(token.value, level);
        if !ok || !env.accepts(cur) {
          return false;
        }
        needComma := true;
      }
    }

    method ParseInlineTable(ghost level: Level) returns (ok: bool)
      requires Valid()
      modifies this
      ensures Did(ok, Fields(env, Deeper(old(At()), level), level, false))
      decreases |env.src| - cur, 1, 1
    {
      deepest := Deepest(deepest, level);
      ghost var whole := Fields(env, At(), level, false);
      var needComma := false;
      while true
        invariant Valid() && cur >= old(cur)
        invariant whole == Fields(env, At(), level, needComma)
        decreases |env.src| - cur
      {
        var token := Scan(true);
        if token.None? {
          return false;
        }
        if token.value.RBrace? {
          return true;
        }
        if token.value.Comma? {
          if !needComma {
            return false;
          }
          needComma := false;
          continue;
        }
        if token.value.Endl? {
          continue;
        }
        if needComma {
          return false;
        }
        ok := ParseField(token.value, level);
        if !ok {
          return false;
        }
        needComma := true;
      }
    }

    method ParseField(first: Kind, ghost level: Level) returns (ok: bool)
      requires Valid()
      modifies this
      ensures Did(ok, Field(env, old(At()), first, level))
      decreases |env.src| - cur, 0, 1
    {
      ok := ParseKey(first);
      if !ok || !env.accepts(cur) {
        return false;
      }
      ghost var key := At();
      var token := Scan(false);
      if token.None? || !token.value.Equal? {
        return false;
      }
      ghost var behind := At();
      FieldGoesOn(env, old(At()), first, level, key, behind);
      token := Scan(false);
      if token.None? {
        return false;
      }
      ok := ParseVal(token.value, level);
      return ok && env.accepts(cur);
    }

    /** A [table] header. */
    method ParseStdTable() returns (ok: bool)
      requires Valid()
      modifies this
      ensures Did(ok, Header(env, old(At()), RBrack))
    {
      ok := ParseHeader(RBrack);
      if ok {
        headers := headers + 1;
      }
    }

    /** A [[table]] header. */
    method ParseArrayTable() returns (ok: bool)
      requires Valid()
      modifies this
      ensures Did(ok, Header(env, old(At()), RRBrack))
    {
      ok := ParseHeader(RRBrack);
    }

    /** A key and the closing bracket or brackets. */
    method ParseHeader(closing: Kind) returns (ok: bool)
      requires Valid()
      modifies this`cur, this`brackets, this`braces
      ensures Valid()
      ensures
        var r := Header(env, old(At()), closing);
        && ok == r.Good? && (ok ==> r.at == (if closing.RBrack? then At().(headers := headers + 1) else At()))
        && (!ok ==> r == Failed(headers, deepest))
    {
      var token := Scan(true);
      if token.None? {
        return false;
      }
      ok := ParseKey(token.value);
      if !ok {
        return false;
      }
      token := Scan(true);
      return token.Some? && token.value == closing && env.accepts(cur);
    }

    method ParseKeyValue(first: Kind) returns (ok: bool)
      requires Valid()
      modifies this
      ensures Did(ok, KeyValue(env, old(At()), first))
    {
      ok := ParseKey(first);
      if !ok {
        return false;
      }
      var token := Scan(true);
      if token.None? || !token.value.Equal? || !env.accepts(cur) {
        return false;
      }
      token := Scan(false);
      if token.None? {
        return false;
      }
      ok := ParseVal(token.value, GROUND);
      return ok && env.accepts(cur);
    }

    /** The whole document. */
    method Parse() returns (ok: bool)
      requires At() == OUTSET
      modifies this
      ensures Did(ok, Document(env, OUTSET))
    {
      while true
        invariant Valid() && Document(env, OUTSET) == Document(env, At())
        decreases |env.src| - cur
      {
        var token := Scan(true);
        if token.None? {
          return false;
        }
        if token.value.Fin? {
          return true;
        }
        if token.value.Endl? {
          continue;
        }
        if token.value.LBrack? {
          ok := ParseStdTable();
        } else if token.value.LLBrack? {
          ok := ParseArrayTable();
        } else {
          ok := ParseKeyValue(token.value);
        }
        if !ok {
          return false;
        }
        token := Scan(true);
        if token.None? || !(token.value.Fin? || token.value.Endl?) {
          return false;
        }
      }
    }
  }
}
