/** Vocabulary shared by every component: bytes, optional values, counting. */
module Common {

  newtype uint8 = x: int | 0 <= x < 256

  type Bytes = seq<uint8>

  datatype Option<+T> = None | Some(value: T)

  /** The bytes of an ASCII literal; a character outside Latin-1 keeps its low byte. */
  function Ascii(s: string): (b: Bytes)
    ensures |b| == |s|
  {
    seq(|s|, i requires 0 <= i < |s| => (s[i] as int % 256) as uint8)
  }

  /** No two positions hold the same value. */
  ghost predicate Distinct<T>(s: seq<T>) {
    forall i, j :: 0 <= i < j < |s| ==> s[i] != s[j]
  }

  ghost function Elements<T>(s: seq<T>): set<T> {
    set x | x in s
  }

  lemma ElementsOf<T>(s: seq<T>, x: T)
    ensures x in s <==> x in Elements(s)
    ensures s != [] ==> Elements(s) != {}
  {
    if s != [] {
      assert s[0] in Elements(s);
    }
  }

  lemma Assoc<T>(a: seq<T>, b: seq<T>, c: seq<T>)
    ensures (a + b) + c == a + (b + c)
  {
  }

  lemma Join<T>(s: seq<T>, a: nat, b: nat, tail: seq<T>)
    requires a <= b <= |s|
    ensures s[..a] + s[a..b] == s[..b]
    ensures s[..a] + (s[a..] + tail) == s + tail
  {
  }

  /** A sequence without repetitions has as many elements as positions. */
  lemma {:induction false} DistinctCardinality<T>(s: seq<T>)
    requires Distinct(s)
    ensures |Elements(s)| == |s|
  {
    if s == [] {
      assert Elements(s) == {};
    } else {
      var tail := s[1..];
      DistinctCardinality(tail);
      assert Elements(s) == Elements(tail) + {s[0]};
      assert s[0] !in Elements(tail);
    }
  }

  /** A subset is no larger than the set it is taken from. */
  lemma {:induction false} SubsetCardinality<T>(small: set<T>, big: set<T>)
    requires small <= big
    ensures |small| <= |big|
    ensures small != big ==> |small| < |big|
    decreases small
  {
    if small != {} {
      var x :| x in small;
      SubsetCardinality(small - {x}, big - {x});
    }
  }
}
