/** Byte strings as the wire parsers see them: big-endian numbers and searching. */
module Bytes {

  type Byte = n: int | 0 <= n < 256

  function U8(b: seq<Byte>, at: nat): (v: nat)
    requires at < |b|
    ensures v < 256
  {
    b[at]
  }

  /** The two bytes at position at, most significant first. */
  function U16(b: seq<Byte>, at: nat): (v: nat)
    requires at + 2 <= |b|
    ensures v < 65536
  {
    U8(b, at) * 256 + U8(b, at + 1)
  }

  function Be16(v: nat): (b: seq<Byte>)
    requires v < 65536
    ensures |b| == 2 && U16(b, 0) == v
  {
    [v / 256, v % 256]
  }

  predicate MatchAt(b: seq<Byte>, pat: seq<Byte>, i: int) {
    0 <= i <= i + |pat| <= |b| && b[i..i + |pat|] == pat
  }

  function FindFrom(b: seq<Byte>, pat: seq<Byte>, i: nat): (r: int)
    requires i <= |b|
    ensures r == -1 || (i <= r && MatchAt(b, pat, r))
    ensures forall j :: i <= j && (r == -1 || j < r) ==> !MatchAt(b, pat, j)
    decreases |b| - i
  {
    if MatchAt(b, pat, i) then i
    else if i == |b| then -1
    else FindFrom(b, pat, i + 1)
  }

  /** bytes.Index: the first place pat stands in b, or -1. */
  function Find(b: seq<Byte>, pat: seq<Byte>): (r: int)
    ensures r == -1 || MatchAt(b, pat, r)
    ensures forall j :: 0 <= j && (r == -1 || j < r) ==> !MatchAt(b, pat, j)
  {
    FindFrom(b, pat, 0)
  }

  lemma MatchInPrefix(a: seq<Byte>, w: seq<Byte>, pat: seq<Byte>, i: int)
    requires a <= w
    ensures MatchAt(a, pat, i) <==> MatchAt(w, pat, i) && i + |pat| <= |a|
  {
    if 0 <= i && i + |pat| <= |a| {
      assert a[i..i + |pat|] == w[i..i + |pat|];
    }
  }

  /** A match found in a prefix is the match found in the whole, and a match in
      the whole that ends inside the prefix is found there. */
  lemma FindInPrefix(a: seq<Byte>, w: seq<Byte>, pat: seq<Byte>)
    requires a <= w
    ensures Find(a, pat) == if 0 <= Find(w, pat) && Find(w, pat) + |pat| <= |a| then Find(w, pat) else -1
  {
    var f, g := Find(a, pat), Find(w, pat);
    MatchInPrefix(a, w, pat, f);
    MatchInPrefix(a, w, pat, g);
  }

  lemma SplitAt(b: seq<Byte>, i: nat, j: nat, k: nat)
    requires i <= j <= k <= |b|
    ensures b[i..j] + b[j..k] == b[i..k]
  {}

  lemma PartOfPart(b: seq<Byte>, p: nat, q: nat, i: nat, j: nat)
    requires p <= q <= |b| && i <= j <= q - p
    ensures b[p..q][i..j] == b[p + i..p + j]
  {
    var x, y := b[p..q][i..j], b[p + i..p + j];
    assert |x| == |y| && forall k :: 0 <= k < |x| ==> x[k] == b[p + i + k] == y[k];
  }

  /** The bytes of part stand at position p of b. */
  predicate At(b: seq<Byte>, p: nat, part: seq<Byte>) {
    p + |part| <= |b| && b[p..p + |part|] == part
  }

  lemma AtStart(part: seq<Byte>, rest: seq<Byte>)
    ensures At(part + rest, 0, part)
  {}

  lemma AtSplit(b: seq<Byte>, p: nat, x: seq<Byte>, y: seq<Byte>)
    requires At(b, p, x + y)
    ensures At(b, p, x) && At(b, p + |x|, y)
  {
    var z := x + y;
    assert b[p..p + |x|] == b[p..p + |z|][..|x|] == z[..|x|] == x;
    assert b[p + |x|..p + |z|] == b[p..p + |z|][|x|..] == z[|x|..] == y;
  }

  lemma AtFits(b: seq<Byte>, p: nat, part: seq<Byte>)
    requires At(b, p, part)
    ensures p + |part| <= |b|
  {}

  lemma AtIs(b: seq<Byte>, p: nat, part: seq<Byte>)
    requires At(b, p, part)
    ensures p + |part| <= |b| && b[p..p + |part|] == part
  {}

  lemma AtU8(b: seq<Byte>, p: nat, v: Byte)
    requires At(b, p, [v])
    ensures b[p] == v && U8(b, p) == v
  {
    assert b[p] == b[p..p + 1][0];
  }

  lemma AtU16(b: seq<Byte>, p: nat, v: nat)
    requires v < 65536 && At(b, p, Be16(v))
    ensures U16(b, p) == v
  {
    assert b[p] == b[p..p + 2][0] && b[p + 1] == b[p..p + 2][1];
  }
}
