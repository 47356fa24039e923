/** Exponentially-weighted baselines: what the recursive mean and variance mean as a weighted
    distribution of the accepted observations. Floating-point values are modelled as reals. */
module Ewma {

  datatype Baseline = Baseline(mean: real, variance: real, ready: bool) {

    function Sd(root: real -> real): real {
      root(if variance > 0.0 then variance else 0.0)
    }

    // The standard deviation, but no less than the modelled noise.
    function Spread(root: real -> real, floor: real): real {
      if Sd(root) < floor then floor else Sd(root)
    }

    function Limit(root: real -> real, k: real, floor: real): real {
      mean + k * Spread(root, floor)
    }

    function Z(root: real -> real, x: real, floor: real): real
      requires floor > 0.0
    {
      (x - mean) / Spread(root, floor)
    }

    function Updated(x: real, lam: real): Baseline {
      if !ready then Baseline(x, 0.0, true)
      else
        var dev := x - mean;
        Baseline(mean + lam * dev, (1.0 - lam) * (variance + lam * dev * dev), true)
    }
  }

  const EMPTY := Baseline(0.0, 0.0, false)

  // The program's baseline record, updated in place.
  class Cell {
    var mean: real
    var variance: real
    var ready: bool

    function View(): Baseline
      reads this
    {
      Baseline(mean, variance, ready)
    }

    constructor ()
      ensures View() == EMPTY
    {
      mean, variance, ready := 0.0, 0.0, false;
    }

    method Update(x: real, lam: real)
      modifies this
      ensures View() == old(View()).Updated(x, lam)
    {
      if !ready {
        mean := x;
        variance := 0.0;
        ready := true;
        return;
      }
      var dev := x - mean;
      mean := mean + lam * dev;
      variance := (1.0 - lam) * (variance + lam * dev * dev);
    }
  }

  // The baseline after accepting xs in order.
  function Fold(b: Baseline, xs: seq<real>, lam: real): Baseline
  {
    if xs == [] then b else Fold(b, xs[..|xs| - 1], lam).Updated(xs[|xs| - 1], lam)
  }

  // ---- the weighted reading ------------------------------------------------------

  // Products are named so that the inductive proofs below need only the two laws that follow.
  function Times(x: real, y: real): real { x * y }

  function Square(x: real): real { x * x }

  lemma Distribute(c: real, x: real, y: real)
    ensures Times(c, x + y) == Times(c, x) + Times(c, y)
  {
  }

  lemma TimesTimes(c: real, x: real, y: real)
    ensures Times(Times(c, x), y) == Times(c, Times(x, y))
  {
  }

  lemma TimesZero(c: real)
    ensures Times(c, 0.0) == 0.0 && Times(c, 1.0) == c
  {
  }

  function Sum(w: seq<real>): real {
    if w == [] then 0.0 else Sum(w[..|w| - 1]) + w[|w| - 1]
  }

  function Dot(w: seq<real>, xs: seq<real>): real
    requires |w| == |xs|
  {
    if w == [] then 0.0 else Dot(w[..|w| - 1], xs[..|w| - 1]) + Times(w[|w| - 1], xs[|w| - 1])
  }

  function Scale(w: seq<real>, c: real): (r: seq<real>)
    ensures |r| == |w|
  {
    if w == [] then [] else Scale(w[..|w| - 1], c) + [Times(c, w[|w| - 1])]
  }

  function Squares(xs: seq<real>): (r: seq<real>)
    ensures |r| == |xs|
  {
    if xs == [] then [] else Squares(xs[..|xs| - 1]) + [Square(xs[|xs| - 1])]
  }

  // The weights of n observations: the first starts at 1, each later one takes a share lam.
  function Weights(n: nat, lam: real): (w: seq<real>)
    ensures |w| == n
  {
    if n == 0 then [] else if n == 1 then [1.0] else Scale(Weights(n - 1, lam), 1.0 - lam) + [lam]
  }

  ghost predicate Within(xs: seq<real>, lo: real, hi: real) {
    forall i :: 0 <= i < |xs| ==> lo <= xs[i] <= hi
  }

  ghost predicate Nonnegative(w: seq<real>) {
    forall i :: 0 <= i < |w| ==> w[i] >= 0.0
  }

  lemma Init(s: seq<real>, x: real)
    ensures (s + [x])[..|s + [x]| - 1] == s
  {
  }

  lemma DotLast(w: seq<real>, xs: seq<real>, c: real, x: real)
    requires |w| == |xs|
    ensures Dot(w + [c], xs + [x]) == Dot(w, xs) + Times(c, x)
  {
    hide Times;
    Init(w, c);
    Init(xs, x);
  }

  lemma {:induction false} ScaleFacts(w: seq<real>, c: real, xs: seq<real>)
    requires |w| == |xs|
    ensures Sum(Scale(w, c)) == Times(c, Sum(w))
    ensures Dot(Scale(w, c), xs) == Times(c, Dot(w, xs))
  {
    TimesZero(c);
    hide Times;
    if w != [] {
      var n := |w| - 1;
      ScaleFacts(w[..n], c, xs[..n]);
      Init(Scale(w[..n], c), Times(c, w[n]));
      Distribute(c, Sum(w[..n]), w[n]);
      Distribute(c, Dot(w[..n], xs[..n]), Times(w[n], xs[n]));
      TimesTimes(c, w[n], xs[n]);
    }
  }

  lemma ProductNonnegative(x: real, y: real)
    requires x >= 0.0 && y >= 0.0
    ensures Times(x, y) >= 0.0
  {
  }

  lemma {:induction false} ScaleNonnegative(w: seq<real>, c: real)
    requires c >= 0.0 && Nonnegative(w)
    ensures Nonnegative(Scale(w, c))
  {
    hide Times;
    if w != [] {
      ScaleNonnegative(w[..|w| - 1], c);
      ProductNonnegative(c, w[|w| - 1]);
    }
  }

  /** The weights form a distribution: none is negative and they add up to one. */
  lemma {:induction false} WeightsDistribute(n: nat, lam: real)
    requires n > 0 && 0.0 <= lam <= 1.0
    ensures Sum(Weights(n, lam)) == 1.0
    ensures Nonnegative(Weights(n, lam))
  {
    hide *;
    if n == 1 {
      OneWeight(lam);
    } else {
      var w := Weights(n - 1, lam);
      WeightsDistribute(n - 1, lam);
      ScaleFacts(w, 1.0 - lam, w);
      ScaleNonnegative(w, 1.0 - lam);
      TimesZero(1.0 - lam);
      MoreWeights(n, lam);
      SumLast(Scale(w, 1.0 - lam), lam);
    }
  }

  lemma OneWeight(lam: real)
    ensures Sum(Weights(1, lam)) == 1.0 && Nonnegative(Weights(1, lam))
  {
    Init([], 1.0);
    assert Weights(1, lam) == [] + [1.0];
  }

  lemma MoreWeights(n: nat, lam: real)
    requires n > 1
    ensures Weights(n, lam) == Scale(Weights(n - 1, lam), 1.0 - lam) + [lam]
  {
    hide Scale;
  }

  lemma SumLast(w: seq<real>, x: real)
    ensures Sum(w + [x]) == Sum(w) + x
    ensures Nonnegative(w) && x >= 0.0 ==> Nonnegative(w + [x])
  {
    Init(w, x);
  }

  function Mix(l: real, was: real, now: real): real { Times(1.0 - l, was) + Times(l, now) }

  lemma MeanStep(l: real, m: real, x: real)
    ensures m + l * (x - m) == Mix(l, m, x)
  {
  }

  // m' = (1-l) m + l x and q' = (1-l) q + l x^2 give q' - m'^2 = (1-l) ((q - m^2) + l (x - m)^2).
  lemma VarianceStep(l: real, m: real, q: real, x: real, v: real)
    requires v == q - Square(m)
    ensures Mix(l, q, Square(x)) - Square(Mix(l, m, x)) == (1.0 - l) * (v + l * (x - m) * (x - m))
  {
    var c := 1.0 - l;
    var m' := c * m + l * x;
    calc {
      m' * m';
      (c * m) * (c * m) + 2.0 * ((c * m) * (l * x)) + (l * x) * (l * x);
    }
    assert (c * m) * (c * m) == (c * c) * (m * m);
    assert (c * m) * (l * x) == (c * l) * (m * x);
    assert (l * x) * (l * x) == (l * l) * (x * x);
    var mm, mx, xx := m * m, m * x, x * x;
    assert l * (x - m) * (x - m) == l * xx - 2.0 * (l * mx) + l * mm;
    calc {
      c * ((q - mm) + l * (x - m) * (x - m));
      c * (q - mm + (l * xx - 2.0 * (l * mx) + l * mm));
      c * q - c * mm + (c * l) * xx - 2.0 * ((c * l) * mx) + (c * l) * mm;
    }
    assert c * l == l - l * l;
    assert c * c == 1.0 - 2.0 * l + l * l;
    assert (c * l) * xx == l * xx - (l * l) * xx;
    assert (c * l) * mm == l * mm - (l * l) * mm;
    assert (c * c) * mm == mm - 2.0 * (l * mm) + (l * l) * mm;
    assert c * mm == mm - l * mm;
  }

  // One update, on the weighted mean and the weighted mean of squares q.
  lemma UpdateStep(b: Baseline, q: real, x: real, l: real)
    requires b.ready && b.variance == q - Square(b.mean)
    ensures var b' := b.Updated(x, l);
            b'.ready && b'.mean == Mix(l, b.mean, x) && b'.variance == Mix(l, q, Square(x)) - Square(b'.mean)
  {
    hide Mix, Square;
    MeanStep(l, b.mean, x);
    VarianceStep(l, b.mean, q, x, b.variance);
  }

  lemma DotMix(w: seq<real>, xs: seq<real>, l: real, x: real)
    requires |w| == |xs|
    ensures Dot(Scale(w, 1.0 - l) + [l], xs + [x]) == Mix(l, Dot(w, xs), x)
  {
    hide *;
    ScaleFacts(w, 1.0 - l, xs);
    DotLast(Scale(w, 1.0 - l), xs, l, x);
    MixIs(l, Dot(w, xs), x);
  }

  lemma MixIs(l: real, was: real, now: real)
    ensures Mix(l, was, now) == Times(1.0 - l, was) + Times(l, now)
  {
    hide Times;
  }

  lemma FoldStep(xs: seq<real>, x: real, l: real)
    requires xs != []
    ensures Fold(EMPTY, xs + [x], l) == Fold(EMPTY, xs, l).Updated(x, l)
    ensures Weights(|xs| + 1, l) == Scale(Weights(|xs|, l), 1.0 - l) + [l]
    ensures Squares(xs + [x]) == Squares(xs) + [Square(x)]
  {
    hide Times, Square, Scale;
    Init(xs, x);
  }

  lemma FirstReading(x: real, lam: real)
    ensures Fold(EMPTY, [x], lam) == Baseline(x, 0.0, true)
    ensures Dot(Weights(1, lam), [x]) == x && Dot(Weights(1, lam), Squares([x])) == Square(x)
  {
    assert [x][..0] == [] && [1.0][..0] == [];
    assert Fold(EMPTY, [], lam) == EMPTY;
    assert Squares([x]) == Squares([]) + [Square(x)];
    DotLast([], [], 1.0, x);
    DotLast([], [], 1.0, Square(x));
    assert [] + [x] == [x] && [] + [1.0] == [1.0] && [] + [Square(x)] == [Square(x)];
  }

  /** After any accepted observations, mean is their weighted mean and variance the weighted mean of
      squares less the square of the mean. */
  lemma {:induction false} WeightedReading(xs: seq<real>, lam: real)
    requires xs != []
    ensures var b, w := Fold(EMPTY, xs, lam), Weights(|xs|, lam);
            b.ready && b.mean == Dot(w, xs) && b.variance == Dot(w, Squares(xs)) - Square(b.mean)
  {
    var n := |xs| - 1;
    var ys, x := xs[..n], xs[n];
    assert xs == ys + [x];
    if n == 0 {
      assert xs == [x];
      FirstReading(x, lam);
    } else {
      hide *;
      WeightedReading(ys, lam);
      var b, w := Fold(EMPTY, ys, lam), Weights(n, lam);
      FoldStep(ys, x, lam);
      UpdateStep(b, Dot(w, Squares(ys)), x, lam);
      DotMix(w, ys, lam, x);
      DotMix(w, Squares(ys), lam, Square(x));
    }
  }

  // ---- the bound -----------------------------------------------------------------

  function Quad(x: real, a: real, b: real, c: real): real { Times(a, Square(x)) + Times(b, x) + c }

  // a x^2 + b x + c for each x.
  function Quadratic(xs: seq<real>, a: real, b: real, c: real): (r: seq<real>)
    ensures |r| == |xs|
  {
    if xs == [] then [] else Quadratic(xs[..|xs| - 1], a, b, c) + [Quad(xs[|xs| - 1], a, b, c)]
  }

  lemma {:induction false} QuadraticAt(xs: seq<real>, a: real, b: real, c: real, i: nat)
    requires i < |xs|
    ensures Quadratic(xs, a, b, c)[i] == Quad(xs[i], a, b, c)
  {
    hide Quad;
    if i < |xs| - 1 { QuadraticAt(xs[..|xs| - 1], a, b, c, i); }
  }

  lemma QuadraticTerm(w: real, x: real, a: real, b: real, c: real)
    ensures Times(w, Quad(x, a, b, c)) == Times(a, Times(w, Square(x))) + Times(b, Times(w, x)) + Times(c, w)
  {
  }

  lemma {:induction false} DotQuadratic(w: seq<real>, xs: seq<real>, a: real, b: real, c: real)
    requires |w| == |xs|
    ensures Dot(w, Quadratic(xs, a, b, c))
         == Times(a, Dot(w, Squares(xs))) + Times(b, Dot(w, xs)) + Times(c, Sum(w))
  {
    TimesZero(a);
    TimesZero(b);
    TimesZero(c);
    hide Times, Square, Quad;
    if w != [] {
      var n := |w| - 1;
      var v, x := w[n], xs[n];
      DotQuadratic(w[..n], xs[..n], a, b, c);
      Init(Quadratic(xs[..n], a, b, c), Quad(x, a, b, c));
      Init(Squares(xs[..n]), Square(x));
      QuadraticTerm(v, x, a, b, c);
      Distribute(a, Dot(w[..n], Squares(xs[..n])), Times(v, Square(x)));
      Distribute(b, Dot(w[..n], xs[..n]), Times(v, x));
      Distribute(c, Sum(w[..n]), v);
    }
  }

  lemma {:induction false} DotNonnegative(w: seq<real>, ys: seq<real>)
    requires |w| == |ys| && Nonnegative(w) && Nonnegative(ys)
    ensures Dot(w, ys) >= 0.0
  {
    hide Times;
    if w != [] {
      DotNonnegative(w[..|w| - 1], ys[..|w| - 1]);
      ProductNonnegative(w[|w| - 1], ys[|w| - 1]);
    }
  }

  // A quadratic that is not negative at any observation is not negative in the weighted mean.
  lemma WeightedNonnegative(xs: seq<real>, lam: real, a: real, b: real, c: real)
    requires xs != [] && 0.0 <= lam <= 1.0
    requires forall i :: 0 <= i < |xs| ==> Quad(xs[i], a, b, c) >= 0.0
    ensures var base := Fold(EMPTY, xs, lam);
            a * (base.variance + Square(base.mean)) + b * base.mean + c >= 0.0
  {
    hide Fold, Dot, Weights, Squares, Sum, Quadratic, Quad, Square;
    var w := Weights(|xs|, lam);
    WeightedReading(xs, lam);
    WeightsDistribute(|xs|, lam);
    DotQuadratic(w, xs, a, b, c);
    forall i | 0 <= i < |xs|
      ensures Quadratic(xs, a, b, c)[i] >= 0.0
    {
      QuadraticAt(xs, a, b, c, i);
    }
    DotNonnegative(w, Quadratic(xs, a, b, c));
  }

  lemma MeanWithin(xs: seq<real>, lam: real, lo: real, hi: real)
    requires xs != [] && 0.0 <= lam <= 1.0 && Within(xs, lo, hi)
    ensures lo <= Fold(EMPTY, xs, lam).mean <= hi
  {
    hide Fold;
    WeightedNonnegative(xs, lam, 0.0, 1.0, -lo);
    WeightedNonnegative(xs, lam, 0.0, -1.0, hi);
  }

  lemma Signs(x: real, m: real, lo: real, hi: real)
    requires lo <= x <= hi
    ensures Quad(x, -1.0, lo + hi, -(lo * hi)) >= 0.0
    ensures Quad(x, 1.0, -2.0 * m, Square(m)) >= 0.0
  {
    var u, v := hi - x, x - lo;
    assert u * v >= 0.0;
    assert u * v == (lo + hi) * x - x * x - lo * hi;
    var d := x - m;
    assert d * d >= 0.0;
    assert d * d == x * x - 2.0 * m * x + m * m;
  }

  lemma VarianceRange(v: real, m: real, lo: real, hi: real)
    requires 1.0 * (v + Square(m)) + (-2.0 * m) * m + Square(m) >= 0.0
    requires -1.0 * (v + Square(m)) + (lo + hi) * m - lo * hi >= 0.0
    ensures 0.0 <= v <= (hi - m) * (m - lo)
  {
    assert (hi - m) * (m - lo) == (lo + hi) * m - m * m - lo * hi;
  }

  /** Observations in [lo, hi] keep the mean there and the variance in [0, (hi - mean)(mean - lo)]. */
  lemma BoundedObservations(xs: seq<real>, lam: real, lo: real, hi: real)
    requires xs != [] && 0.0 <= lam <= 1.0 && Within(xs, lo, hi)
    ensures var b := Fold(EMPTY, xs, lam);
            lo <= b.mean <= hi && 0.0 <= b.variance <= (hi - b.mean) * (b.mean - lo)
  {
    hide Fold, Quad, Square;
    var b := Fold(EMPTY, xs, lam);
    MeanWithin(xs, lam, lo, hi);
    forall i | 0 <= i < |xs|
      ensures Quad(xs[i], -1.0, lo + hi, -(lo * hi)) >= 0.0
      ensures Quad(xs[i], 1.0, -2.0 * b.mean, Square(b.mean)) >= 0.0
    {
      Signs(xs[i], b.mean, lo, hi);
    }
    WeightedNonnegative(xs, lam, 1.0, -2.0 * b.mean, Square(b.mean));
    WeightedNonnegative(xs, lam, -1.0, lo + hi, -(lo * hi));
    VarianceRange(b.variance, b.mean, lo, hi);
  }
}
