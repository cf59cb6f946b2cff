/** What the entry hash is computed from, and what equal entry hashes say about two offers. */
module Hashing {
  import opened Common
  import opened Tables
  import opened History
  import opened Contents

  // ---------------------------------------------------------------- the bytes that are hashed

  /** `b` is, from front to back, the name of each mime type followed by the digest of its data. */
  ghost predicate Alternates(h: Hash, items: seq<Item>, b: Bytes) {
    if items == [] then b == []
    else
      var name, digest := items[0].mime, h(Payload(items[0]));
      && |name| + |digest| <= |b|
      && b[..|name|] == name && b[|name|..|name| + |digest|] == digest
      && Alternates(h, items[1..], b[|name| + |digest|..])
  }

  lemma {:induction false} FingerprintCons(h: Hash, items: seq<Item>)
    requires items != []
    ensures Fingerprint(h, items) == items[0].mime + h(Payload(items[0])) + Fingerprint(h, items[1..])
  {
    var n := |items| - 1;
    var first := items[0].mime + h(Payload(items[0]));
    if n == 0 {
      assert items[..0] == [] && items[1..] == [];
      assert [] + items[0].mime == items[0].mime && first + [] == first;
    } else {
      FingerprintCons(h, items[..n]);
      assert items[..n][1..] == items[1..][..n - 1];
      var middle, name, digest := Fingerprint(h, items[1..][..n - 1]), items[n].mime, h(Payload(items[n]));
      Assoc(first, middle, name);
      Assoc(first, middle + name, digest);
    }
  }

  /** There is just one such sequence of bytes, and the entry hash is its digest. */
  lemma {:induction false} HashedBytes(h: Hash, items: seq<Item>, b: Bytes)
    ensures Alternates(h, items, b) <==> b == Fingerprint(h, items)
    decreases |items|
  {
    if items != [] {
      var name, digest, rest := items[0].mime, h(Payload(items[0])), Fingerprint(h, items[1..]);
      var n := |name| + |digest|;
      FingerprintCons(h, items);
      if n <= |b| {
        HashedBytes(h, items[1..], b[n..]);
        assert b == b[..|name|] + b[|name|..n] + b[n..];
      }
      if b == name + digest + rest {
        assert b[..|name|] == name && b[|name|..n] == digest && b[n..] == rest;
      }
    }
  }

  lemma HashIsOfAlternation(h: Hash, items: seq<Item>)
    ensures exists b :: Alternates(h, items, b)
    ensures forall b :: Alternates(h, items, b) ==> EntryHash(h, items) == h(b)
  {
    HashedBytes(h, items, Fingerprint(h, items));
    forall b | Alternates(h, items, b) ensures EntryHash(h, items) == h(b) {
      HashedBytes(h, items, b);
    }
  }

  // ---------------------------------------------------------------- equal hashes

  /** Digests have one length. */
  ghost predicate FixedLength(h: Hash, n: nat) {
    forall b: Bytes :: |h(b)| == n
  }

  /** All that is hashed for an offer: its data, and the bytes the entry hash is computed from. */
  ghost predicate Covers(h: Hash, hashed: iset<Bytes>, items: seq<Item>) {
    && (forall i :: 0 <= i < |items| ==> Payload(items[i]) in hashed)
    && (forall b :: Alternates(h, items, b) ==> b in hashed)
  }

  /** As many mime types, each with a name as long as the other's. */
  predicate SameShape(x: seq<Item>, y: seq<Item>) {
    |x| == |y| && forall i :: 0 <= i < |x| ==> |x[i].mime| == |y[i].mime|
  }

  predicate SameTypes(x: seq<Item>, y: seq<Item>) {
    |x| == |y| && forall i :: 0 <= i < |x| ==> x[i].mime == y[i].mime
  }

  predicate SameData(x: seq<Item>, y: seq<Item>)
    requires |x| == |y|
  {
    forall i :: 0 <= i < |x| ==> Payload(x[i]) == Payload(y[i])
  }

  lemma Parts(a: Bytes, b: Bytes, c: Bytes, a1: Bytes, b1: Bytes, c1: Bytes)
    requires a + b + c == a1 + b1 + c1 && |a| == |a1| && |b| == |b1|
    ensures a == a1 && b == b1 && c == c1
  {
    var s, n, m := a + b + c, |a|, |a| + |b|;
    assert s[..n] == a && s[n..m] == b && s[m..] == c;
    assert s[..n] == a1 && s[n..m] == b1 && s[m..] == c1;
  }

  lemma {:induction false} ReadsBack(h: Hash, n: nat, hashed: iset<Bytes>, x: seq<Item>, y: seq<Item>)
    requires FixedLength(h, n) && CollisionFree(h, hashed) && SameShape(x, y)
    requires forall i :: 0 <= i < |x| ==> Payload(x[i]) in hashed && Payload(y[i]) in hashed
    requires Fingerprint(h, x) == Fingerprint(h, y)
    ensures SameTypes(x, y) && SameData(x, y)
    decreases |x|
  {
    if x != [] {
      FingerprintCons(h, x);
      FingerprintCons(h, y);
      Parts(x[0].mime, h(Payload(x[0])), Fingerprint(h, x[1..]), y[0].mime, h(Payload(y[0])), Fingerprint(h, y[1..]));
      assert forall i :: 0 < i < |x| ==> x[i] == x[1..][i - 1] && y[i] == y[1..][i - 1];
      ReadsBack(h, n, hashed, x[1..], y[1..]);
    }
  }

  lemma {:induction false} SameFingerprint(h: Hash, x: seq<Item>, y: seq<Item>)
    requires SameTypes(x, y) && SameData(x, y)
    ensures Fingerprint(h, x) == Fingerprint(h, y)
  {
    if x != [] {
      SameFingerprint(h, x[..|x| - 1], y[..|y| - 1]);
    }
  }

  /**
   * With digests of one length that do not collide on what is hashed: two offers of the same shape
   * have one entry hash just when they agree mime type by mime type and data by data.
   */
  lemma EqualHashes(h: Hash, n: nat, hashed: iset<Bytes>, x: seq<Item>, y: seq<Item>)
    requires FixedLength(h, n) && CollisionFree(h, hashed) && Covers(h, hashed, x) && Covers(h, hashed, y)
    requires SameShape(x, y)
    ensures EntryHash(h, x) == EntryHash(h, y) <==> SameTypes(x, y) && SameData(x, y)
  {
    HashedBytes(h, x, Fingerprint(h, x));
    HashedBytes(h, y, Fingerprint(h, y));
    if EntryHash(h, x) == EntryHash(h, y) {
      ReadsBack(h, n, hashed, x, y);
    }
    if SameTypes(x, y) && SameData(x, y) {
      SameFingerprint(h, x, y);
    }
  }

  /** How many bytes are hashed. */
  function Size(items: seq<Item>, n: nat): nat {
    if items == [] then 0 else |items[0].mime| + n + Size(items[1..], n)
  }

  lemma {:induction false} SizeIsLength(h: Hash, n: nat, items: seq<Item>)
    requires FixedLength(h, n)
    ensures |Fingerprint(h, items)| == Size(items, n)
  {
    if items != [] {
      FingerprintCons(h, items);
      SizeIsLength(h, n, items[1..]);
    }
  }

  /** Offers for which different numbers of bytes are hashed have different entry hashes. */
  lemma DifferentSizes(h: Hash, n: nat, hashed: iset<Bytes>, x: seq<Item>, y: seq<Item>)
    requires FixedLength(h, n) && CollisionFree(h, hashed) && Covers(h, hashed, x) && Covers(h, hashed, y)
    requires Size(x, n) != Size(y, n)
    ensures EntryHash(h, x) != EntryHash(h, y)
  {
    HashedBytes(h, x, Fingerprint(h, x));
    HashedBytes(h, y, Fingerprint(h, y));
    SizeIsLength(h, n, x);
    SizeIsLength(h, n, y);
  }

  /**
   * Offers of one size but not of one shape may have one entry hash although nothing collides:
   * nothing marks where a name ends, so a long name can spell out a name, a digest and a name.
   */
  lemma NamesRunTogether(h: Hash, x: Mime, y: Mime)
    ensures
      var one, two := [Item(x + h([]) + y, None)], [Item(x, None), Item(y, None)];
      !SameShape(one, two) && EntryHash(h, one) == EntryHash(h, two)
  {
    var d := h([]);
    var one, two := [Item(x + d + y, None)], [Item(x, None), Item(y, None)];
    FingerprintCons(h, one);
    FingerprintCons(h, two);
    FingerprintCons(h, two[1..]);
    assert one[1..] == [] && two[1..] == [Item(y, None)] && two[1..][1..] == [];
    assert Fingerprint(h, []) == [];
    assert x + d + (y + d + []) == (x + d + y) + d + [];
  }
}
