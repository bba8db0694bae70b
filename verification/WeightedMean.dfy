/** The exponentially weighted mean over a whole history, by its weights: the
    first value seeds it, each later one enters at a fifth and fades by a fifth
    with every one after it (vair/core/nodestats.go). */
module WeightedMean {

  const ALPHA := 0.2

  function Fade(k: nat): real {
    if k == 0 then 1.0 else (1.0 - ALPHA) * Fade(k - 1)
  }

  /** The weight of value i among n. */
  function Weight(n: nat, i: nat): real
    requires i < n
  {
    if i == 0 then Fade(n - 1) else ALPHA * Fade(n - 1 - i)
  }

  function WeightedSum(n: nat, xs: seq<real>): real
    requires |xs| <= n
  {
    if xs == [] then 0.0
    else WeightedSum(n, xs[..|xs| - 1]) + Weight(n, |xs| - 1) * xs[|xs| - 1]
  }

  function Mean(xs: seq<real>): real { WeightedSum(|xs|, xs) }

  function Squares(xs: seq<real>): (r: seq<real>)
    ensures |r| == |xs|
  {
    if xs == [] then []
    else Squares(xs[..|xs| - 1]) + [Sq(xs[|xs| - 1])]
  }

  function Sq(x: real): real { x * x }

  lemma SquaresAppend(xs: seq<real>, x: real)
    ensures Squares(xs + [x]) == Squares(xs) + [Sq(x)]
  {
    var ys := xs + [x];
    assert ys[..|ys| - 1] == xs && ys[|ys| - 1] == x;
    hide Sq;
  }

  /** The variance under the same weights: second moment less squared mean. */
  function Variance(xs: seq<real>): real { Mean(Squares(xs)) - Mean(xs) * Mean(xs) }

  lemma {:induction false} OneMoreFades(n: nat, xs: seq<real>)
    requires |xs| <= n
    ensures WeightedSum(n + 1, xs) == (1.0 - ALPHA) * WeightedSum(n, xs)
    decreases |xs|
  {
    hide Weight;
    if xs == [] {
    } else {
      var i := |xs| - 1;
      OneMoreFades(n, xs[..i]);
      WeightFades(n, i);
      Spread(1.0 - ALPHA, WeightedSum(n, xs[..i]), Weight(n, i), xs[i]);
    }
  }

  lemma WeightFades(n: nat, i: nat)
    requires i < n
    ensures Weight(n + 1, i) == (1.0 - ALPHA) * Weight(n, i)
  {
    assert Fade(n - i) == (1.0 - ALPHA) * Fade(n - 1 - i);
  }

  lemma Spread(c: real, a: real, w: real, x: real)
    ensures c * (a + w * x) == c * a + (c * w) * x
  {}

  /** One more value: the mean in place moves a fifth of the way to it. */
  lemma MeanAppend(xs: seq<real>, x: real)
    requires xs != []
    ensures Mean(xs + [x]) == (1.0 - ALPHA) * Mean(xs) + ALPHA * x
    ensures Mean(xs + [x]) == Mean(xs) + ALPHA * (x - Mean(xs))
  {
    var ys := xs + [x];
    assert ys[..|ys| - 1] == xs;
    OneMoreFades(|xs|, xs);
  }

  lemma MeanOne(x: real)
    ensures Mean([x]) == x && Variance([x]) == 0.0
  {
    hide WeightedSum;
    SquaresAppend([], x);
    assert [] + [x] == [x] && Squares([]) == [];
    assert Squares([x]) == [Sq(x)];
    SumOne(x);
    SumOne(Sq(x));
    assert Mean([x]) == x && Mean([Sq(x)]) == Sq(x);
  }

  lemma SumOne(x: real)
    ensures WeightedSum(1, [x]) == x
  {
    assert [x][..0] == [];
  }

  /** The variance in place: widened by the new value's distance, then faded. */
  function Widened(v: real, d: real): real { (1.0 - ALPHA) * (v + ALPHA * d * d) }

  lemma WidenedNonnegative(v: real, d: real)
    requires v >= 0.0
    ensures Widened(v, d) >= 0.0
  {
    assert d * d >= 0.0;
    assert ALPHA * d * d == ALPHA * (d * d);
  }

  lemma VarianceStep(m: real, q: real, x: real)
    ensures var d := x - m;
            var n := m + ALPHA * d;
            ((1.0 - ALPHA) * q + ALPHA * (x * x)) - n * n == Widened(q - m * m, d)
  {
    var d := x - m;
    var n := m + ALPHA * d;
    assert n == 0.8 * m + 0.2 * x;
    assert n * n == 0.64 * (m * m) + 0.32 * (m * x) + 0.04 * (x * x);
    assert d * d == x * x - 2.0 * (m * x) + m * m;
    assert ALPHA * d * d == 0.2 * (d * d);
  }

  /** And the variance in place is the variance over the longer history. */
  lemma VarianceAppend(xs: seq<real>, x: real)
    requires xs != []
    ensures Variance(xs + [x]) == Widened(Variance(xs), x - Mean(xs))
  {
    SquaresAppend(xs, x);
    MeanAppend(xs, x);
    MeanAppend(Squares(xs), Sq(x));
    VarianceStep(Mean(xs), Mean(Squares(xs)), x);
  }

  predicate Between(lo: real, xs: seq<real>, hi: real) {
    forall i :: 0 <= i < |xs| ==> lo <= xs[i] <= hi
  }

  /** The chord of the parabola over [lo, hi]. */
  function Chord(lo: real, x: real, hi: real): real { (lo + hi) * x - lo * hi }

  lemma UnderChord(lo: real, x: real, hi: real)
    requires lo <= x <= hi
    ensures Sq(x) <= Chord(lo, x, hi)
  {
    assert (x - lo) * (hi - x) >= 0.0;
    assert (x - lo) * (hi - x) == (lo + hi) * x - lo * hi - x * x;
  }

  lemma ChordMixes(lo: real, m: real, x: real, hi: real)
    ensures (1.0 - ALPHA) * Chord(lo, m, hi) + ALPHA * Chord(lo, x, hi)
         == Chord(lo, (1.0 - ALPHA) * m + ALPHA * x, hi)
  {
    var s, p := lo + hi, lo * hi;
    assert s * (0.8 * m + 0.2 * x) == 0.8 * (s * m) + 0.2 * (s * x);
  }

  /** The mean lies among the values, and the second moment under the chord. */
  lemma {:induction false} MeanBounds(lo: real, xs: seq<real>, hi: real)
    requires xs != [] && Between(lo, xs, hi)
    ensures lo <= Mean(xs) <= hi
    ensures Mean(Squares(xs)) <= Chord(lo, Mean(xs), hi)
    decreases |xs|
  {
    var k := |xs| - 1;
    var ys, x := xs[..k], xs[k];
    UnderChord(lo, x, hi);
    SquaresAppend(ys, x);
    assert xs == ys + [x];
    if k == 0 {
      Single(xs, x);
    } else {
      hide Mean, Squares, Chord, Sq;
      MeanBounds(lo, ys, hi);
      MeanAppend(ys, x);
      MeanAppend(Squares(ys), Sq(x));
      ChordMixes(lo, Mean(ys), x, hi);
    }
  }

  lemma Single(xs: seq<real>, x: real)
    requires xs == [x]
    ensures Mean(xs) == x && Mean(Squares(xs)) == Sq(x) && Variance(xs) == 0.0
  {
    SquaresAppend([], x);
    assert [] + [x] == [x] && [] + [Sq(x)] == [Sq(x)];
    MeanOne(x);
    MeanOne(Sq(x));
  }

  lemma {:induction false} VarianceNonnegative(xs: seq<real>)
    requires xs != []
    ensures Variance(xs) >= 0.0
    decreases |xs|
  {
    var k := |xs| - 1;
    var ys, x := xs[..k], xs[k];
    assert xs == ys + [x];
    if k == 0 {
      Single(xs, x);
    } else {
      hide Mean, Squares, Variance, Widened;
      VarianceNonnegative(ys);
      VarianceAppend(ys, x);
      WidenedNonnegative(Variance(ys), x - Mean(ys));
    }
  }

  lemma VarianceBound(lo: real, xs: seq<real>, hi: real)
    requires xs != [] && Between(lo, xs, hi)
    ensures 0.0 <= Variance(xs) <= (hi - Mean(xs)) * (Mean(xs) - lo)
  {
    MeanBounds(lo, xs, hi);
    VarianceNonnegative(xs);
    var m := Mean(xs);
    assert (hi - m) * (m - lo) == (lo + hi) * m - lo * hi - m * m;
  }
}
