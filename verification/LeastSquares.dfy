/** The local linear estimate of the smoother, on one axis, and what it is: a least-squares fit. */
module LeastSquares {
  import opened Vectors
  import RouteTiming

  function Mean(xs: seq<real>): real
    requires xs != []
  {
    RouteTiming.Sum(xs) / |xs| as real
  }

  function Offsets(xs: seq<real>, m: real): (r: seq<real>)
    ensures |r| == |xs| && forall i :: 0 <= i < |xs| ==> r[i] == xs[i] - m
  {
    seq(|xs|, i requires 0 <= i < |xs| => xs[i] - m)
  }

  function DotProduct(xs: seq<real>, ys: seq<real>): real
    requires |xs| == |ys|
  {
    if xs == [] then 0.0
    else
      var n := |xs| - 1;
      DotProduct(xs[..n], ys[..n]) + xs[n] * ys[n]
  }

  /** The sum of the squared distances of the times from their mean. */
  function Spread(ts: seq<real>): real
    requires ts != []
  {
    DotProduct(Offsets(ts, Mean(ts)), Offsets(ts, Mean(ts)))
  }

  function Cross(ts: seq<real>, vs: seq<real>): real
    requires |ts| == |vs| && ts != []
  {
    DotProduct(Offsets(ts, Mean(ts)), Offsets(vs, Mean(vs)))
  }

  const DEGENERATE: real := 1e-15

  function LocalLinear(ts: seq<real>, vs: seq<real>, t: real): real
    requires |ts| == |vs| && ts != []
  {
    if |ts| == 1 then vs[0]
    else if Spread(ts) <= DEGENERATE then Mean(vs)
    else Mean(vs) + Cross(ts, vs) / Spread(ts) * (t - Mean(ts))
  }

  // ----- the error of a line -----

  ghost function Errors(ts: seq<real>, vs: seq<real>, p: real, q: real): (r: seq<real>)
    requires |ts| == |vs|
    ensures |r| == |ts| && forall i :: 0 <= i < |ts| ==> r[i] == vs[i] - (p + q * ts[i])
  {
    seq(|ts|, i requires 0 <= i < |ts| => vs[i] - (p + q * ts[i]))
  }

  /** The summed squared error of the line p + q t. */
  ghost function Residual(ts: seq<real>, vs: seq<real>, p: real, q: real): real
    requires |ts| == |vs|
  {
    DotProduct(Errors(ts, vs, p, q), Errors(ts, vs, p, q))
  }

  ghost predicate BestLine(ts: seq<real>, vs: seq<real>, p: real, q: real)
    requires |ts| == |vs|
  {
    forall p1, q1 :: Residual(ts, vs, p, q) <= Residual(ts, vs, p1, q1)
  }

  ghost predicate BestConstant(ts: seq<real>, vs: seq<real>, p: real)
    requires |ts| == |vs|
  {
    forall p1 :: Residual(ts, vs, p, 0.0) <= Residual(ts, vs, p1, 0.0)
  }

  // ----- values on a line -----

  ghost predicate OnLine(ts: seq<real>, vs: seq<real>, p: real, q: real)
    requires |ts| == |vs|
  {
    forall i {:trigger vs[i]} :: 0 <= i < |ts| ==> vs[i] == p + q * ts[i]
  }

  lemma {:induction false} SumOnLine(ts: seq<real>, vs: seq<real>, p: real, q: real)
    requires |ts| == |vs| && OnLine(ts, vs, p, q)
    ensures RouteTiming.Sum(vs) == |ts| as real * p + q * RouteTiming.Sum(ts)
  {
    if ts != [] {
      var n := |ts| - 1;
      SumOnLine(ts[..n], vs[..n], p, q);
      SumGrows(n as real, p, q, RouteTiming.Sum(vs[..n]), RouteTiming.Sum(ts[..n]), vs[n], ts[n], RouteTiming.Sum(ts));
    }
  }

  lemma SumGrows(n: real, p: real, q: real, values: real, times: real, v: real, t: real, total: real)
    requires values == n * p + q * times && v == p + q * t && total == times + t
    ensures values + v == (n + 1.0) * p + q * total
  {
  }

  lemma {:induction false} DotSymmetric(xs: seq<real>, ys: seq<real>)
    requires |xs| == |ys|
    ensures DotProduct(xs, ys) == DotProduct(ys, xs)
  {
    if xs != [] { DotSymmetric(xs[..|xs| - 1], ys[..|xs| - 1]); }
  }

  lemma DotGrows(c: real, q: real, sum: real, dot: real, value: real, x: real, u: real, l: real, wider: real, more: real)
    requires value == c * sum + q * dot && l == c + q * u && wider == sum + x && more == dot + x * u
    ensures value + x * l == c * wider + q * more
  {
    assert x * l == c * x + q * (x * u);
  }

  lemma DotUnfolds(xs: seq<real>, ys: seq<real>)
    requires |xs| == |ys| && xs != []
    ensures var n := |xs| - 1; DotProduct(xs, ys) == DotProduct(xs[..n], ys[..n]) + xs[n] * ys[n]
  {
  }

  lemma SumUnfolds(xs: seq<real>)
    requires xs != []
    ensures RouteTiming.Sum(xs) == RouteTiming.Sum(xs[..|xs| - 1]) + xs[|xs| - 1]
  {
  }

  lemma LineUnfolds(us: seq<real>, ls: seq<real>, c: real, q: real)
    requires |us| == |ls| && us != [] && OnLine(us, ls, c, q)
    ensures var n := |us| - 1; OnLine(us[..n], ls[..n], c, q) && ls[n] == c + q * us[n]
  {
  }

  lemma DotOfNone()
    ensures DotProduct([], []) == 0.0 == RouteTiming.Sum([])
  {
  }

  lemma {:induction false} DotWithLine(xs: seq<real>, us: seq<real>, ls: seq<real>, c: real, q: real)
    requires |xs| == |us| == |ls| && OnLine(us, ls, c, q)
    ensures DotProduct(xs, ls) == c * RouteTiming.Sum(xs) + q * DotProduct(xs, us)
  {
    hide *;
    if xs == [] {
      DotOfNone();
      assert xs == us == ls == [];
    } else {
      var n := |xs| - 1;
      LineUnfolds(us, ls, c, q);
      DotWithLine(xs[..n], us[..n], ls[..n], c, q);
      SumUnfolds(xs);
      DotUnfolds(xs, us);
      DotUnfolds(xs, ls);
      DotGrows(c, q, RouteTiming.Sum(xs[..n]), DotProduct(xs[..n], us[..n]), DotProduct(xs[..n], ls[..n]), xs[n], us[n], ls[n],
               RouteTiming.Sum(xs), DotProduct(xs, us));
    }
  }

  lemma SquareOfDifference(w: real, l: real, e: real)
    requires e == w - l
    ensures e * e == w * w - 2.0 * (w * l) + l * l
  {
  }

  ghost predicate AreDifferences(ws: seq<real>, ls: seq<real>, es: seq<real>)
    requires |ws| == |ls| == |es|
  {
    forall i {:trigger es[i]} :: 0 <= i < |es| ==> es[i] == ws[i] - ls[i]
  }

  lemma {:induction false} DotOfDifference(ws: seq<real>, ls: seq<real>, es: seq<real>)
    requires |ws| == |ls| == |es| && AreDifferences(ws, ls, es)
    ensures DotProduct(es, es) == DotProduct(ws, ws) - 2.0 * DotProduct(ws, ls) + DotProduct(ls, ls)
  {
    if ws != [] {
      var n := |ws| - 1;
      DotOfDifference(ws[..n], ls[..n], es[..n]);
      SquareOfDifference(ws[n], ls[n], es[n]);
    }
  }

  // ----- the error of a line about the means -----

  lemma DropZero(c: real, zero: real, q: real, dot: real, value: real)
    requires value == c * zero + q * dot && zero == 0.0
    ensures value == q * dot
  {
  }

  lemma CrossWithLine(us: seq<real>, ws: seq<real>, ls: seq<real>, c: real, q: real)
    requires |us| == |ws| == |ls| && OnLine(us, ls, c, q) && RouteTiming.Sum(ws) == 0.0
    ensures DotProduct(ws, ls) == q * DotProduct(ws, us)
  {
    hide *;
    DotWithLine(ws, us, ls, c, q);
    DropZero(c, RouteTiming.Sum(ws), q, DotProduct(ws, us), DotProduct(ws, ls));
  }

  lemma SquareOfLine(c: real, n: real, q: real, zero: real, spread: real, sum: real, cross: real, square: real)
    requires zero == 0.0 && sum == n * c + q * zero && cross == q * spread
    requires square == c * sum + q * cross
    ensures square == c * (n * c) + q * (q * spread)
  {
  }

  /** The squares of a line about centred times. */
  lemma CentredLine(us: seq<real>, ls: seq<real>, c: real, q: real)
    requires |us| == |ls| && OnLine(us, ls, c, q) && RouteTiming.Sum(us) == 0.0
    ensures DotProduct(ls, ls) == c * (|us| as real * c) + q * (q * DotProduct(us, us))
  {
    hide *;
    CrossWithLine(us, us, ls, c, q);
    DotSymmetric(ls, us);
    DotWithLine(ls, us, ls, c, q);
    SumOnLine(us, ls, c, q);
    SquareOfLine(c, |us| as real, q, RouteTiming.Sum(us), DotProduct(us, us), RouteTiming.Sum(ls), DotProduct(ls, us),
                 DotProduct(ls, ls));
  }

  lemma {:induction false} SumOfOffsets(xs: seq<real>, m: real)
    ensures RouteTiming.Sum(Offsets(xs, m)) == RouteTiming.Sum(xs) - |xs| as real * m
  {
    if xs != [] {
      var n := |xs| - 1;
      SumOfOffsets(xs[..n], m);
      assert Offsets(xs, m)[..n] == Offsets(xs[..n], m);
    }
  }

  lemma TotalOfMean(total: real, n: real)
    requires 0.0 < n
    ensures total - n * (total / n) == 0.0
  {
  }

  lemma MeanCentres(xs: seq<real>)
    requires xs != []
    ensures RouteTiming.Sum(Offsets(xs, Mean(xs))) == 0.0
  {
    SumOfOffsets(xs, Mean(xs));
    TotalOfMean(RouteTiming.Sum(xs), |xs| as real);
  }

  lemma LineAboutMeans(p: real, q: real, m: real, v: real, c: real, t: real, y: real)
    requires c == p + q * m - v
    ensures y - (p + q * t) == (y - v) - (c + q * (t - m))
  {
  }

  ghost function Deviation(vs: seq<real>): real
    requires vs != []
  {
    DotProduct(Offsets(vs, Mean(vs)), Offsets(vs, Mean(vs)))
  }

  /** The error of a line that passes c above the means. */
  lemma ResidualAtMeans(ts: seq<real>, vs: seq<real>, p: real, q: real, c: real)
    requires |ts| == |vs| && ts != [] && c == p + q * Mean(ts) - Mean(vs)
    ensures Residual(ts, vs, p, q)
         == Deviation(vs) - 2.0 * (q * Cross(ts, vs)) + (c * (|ts| as real * c) + q * (q * Spread(ts)))
  {
    hide DotProduct, RouteTiming.Sum, Mean;
    var us, ws, es := Offsets(ts, Mean(ts)), Offsets(vs, Mean(vs)), Errors(ts, vs, p, q);
    var ls := seq(|us|, i requires 0 <= i < |us| => c + q * us[i]);
    MeanCentres(ts);
    MeanCentres(vs);
    CrossWithLine(us, ws, ls, c, q);
    CentredLine(us, ls, c, q);
    DotSymmetric(ws, us);
    ErrorsAreDifferences(ts, vs, p, q, c, ls);
    DotOfDifference(ws, ls, es);
  }

  lemma ErrorsAreDifferences(ts: seq<real>, vs: seq<real>, p: real, q: real, c: real, ls: seq<real>)
    requires |ts| == |vs| == |ls| && ts != [] && c == p + q * Mean(ts) - Mean(vs)
    requires OnLine(Offsets(ts, Mean(ts)), ls, c, q)
    ensures AreDifferences(Offsets(vs, Mean(vs)), ls, Errors(ts, vs, p, q))
  {
    var m, v := Mean(ts), Mean(vs);
    forall i | 0 <= i < |ts| ensures Errors(ts, vs, p, q)[i] == Offsets(vs, v)[i] - ls[i] {
      LineAboutMeans(p, q, m, v, c, ts[i], vs[i]);
    }
  }

  // ----- optimality -----

  lemma {:induction false} SquaresNonNegative(xs: seq<real>)
    ensures 0.0 <= DotProduct(xs, xs)
  {
    if xs != [] {
      SquaresNonNegative(xs[..|xs| - 1]);
      SquareNonNegative(xs[|xs| - 1]);
    }
  }

  lemma SpreadNonNegative(ts: seq<real>)
    requires ts != []
    ensures 0.0 <= Spread(ts)
  {
    SquaresNonNegative(Offsets(ts, Mean(ts)));
  }

  lemma CompleteTheSquare(q: real, b: real, spread: real, cross: real)
    requires 0.0 <= spread && b * spread == cross
    ensures b * (b * spread) - 2.0 * (b * cross) <= q * (q * spread) - 2.0 * (q * cross)
  {
    ProductNonNegative((q - b) * (q - b), spread);
    assert (q - b) * (q - b) * spread == q * (q * spread) - 2.0 * (q * (b * spread)) + b * (b * spread);
  }

  lemma NoBetterLine(dev: real, n: real, spread: real, cross: real, q: real, r: real, c1: real, q1: real, r1: real)
    requires 0.0 <= spread && 0.0 <= n && q * spread == cross
    requires r == dev - 2.0 * (q * cross) + (0.0 * (n * 0.0) + q * (q * spread))
    requires r1 == dev - 2.0 * (q1 * cross) + (c1 * (n * c1) + q1 * (q1 * spread))
    ensures r <= r1
  {
    CompleteTheSquare(q1, q, spread, cross);
    SquareNonNegative(c1);
    ProductNonNegative(n, c1 * c1);
    assert c1 * (n * c1) == n * (c1 * c1);
  }

  lemma NoLineBeats(ts: seq<real>, vs: seq<real>, q: real, r: real, p1: real, q1: real)
    requires |ts| == |vs| && ts != [] && q * Spread(ts) == Cross(ts, vs)
    requires r == Deviation(vs) - 2.0 * (q * Cross(ts, vs)) + (0.0 * (|ts| as real * 0.0) + q * (q * Spread(ts)))
    ensures r <= Residual(ts, vs, p1, q1)
  {
    hide *;
    var c := p1 + q1 * Mean(ts) - Mean(vs);
    SpreadNonNegative(ts);
    ResidualAtMeans(ts, vs, p1, q1, c);
    NoBetterLine(Deviation(vs), |ts| as real, Spread(ts), Cross(ts, vs), q, r, c, q1, Residual(ts, vs, p1, q1));
  }

  lemma MeansLineIsBest(ts: seq<real>, vs: seq<real>, q: real, p: real)
    requires |ts| == |vs| && ts != [] && q * Spread(ts) == Cross(ts, vs)
    requires p + q * Mean(ts) == Mean(vs)
    ensures BestLine(ts, vs, p, q)
  {
    ResidualAtMeans(ts, vs, p, q, 0.0);
    var r := Residual(ts, vs, p, q);
    forall p1, q1
      ensures r <= Residual(ts, vs, p1, q1)
    {
      NoLineBeats(ts, vs, q, r, p1, q1);
    }
  }

  lemma ThroughTheMeans(v: real, q: real, m: real, t: real, p: real)
    requires p == v - q * m
    ensures v + q * (t - m) == p + q * t
  {
  }

  /** With enough spread in time, the estimate is read off a line that no other line fits better. */
  lemma EstimateIsLeastSquares(ts: seq<real>, vs: seq<real>, t: real)
    requires |ts| == |vs| && 2 <= |ts| && 1e-15 < Spread(ts)
    ensures exists p, q :: BestLine(ts, vs, p, q) && LocalLinear(ts, vs, t) == p + q * t
  {
    var q := Cross(ts, vs) / Spread(ts);
    var p := Mean(vs) - q * Mean(ts);
    QuotientBack(Cross(ts, vs), Spread(ts));
    MeansLineIsBest(ts, vs, q, p);
    ThroughTheMeans(Mean(vs), q, Mean(ts), t, p);
  }

  lemma NoBetterConstant(dev: real, n: real, spread: real, cross: real, r: real, c1: real, r1: real)
    requires 0.0 <= n
    requires r == dev - 2.0 * (0.0 * cross) + (0.0 * (n * 0.0) + 0.0 * (0.0 * spread))
    requires r1 == dev - 2.0 * (0.0 * cross) + (c1 * (n * c1) + 0.0 * (0.0 * spread))
    ensures r <= r1
  {
    SquareNonNegative(c1);
    ProductNonNegative(n, c1 * c1);
    assert c1 * (n * c1) == n * (c1 * c1);
  }

  /** Without it, the estimate is the best constant. */
  lemma EstimateIsBestConstant(ts: seq<real>, vs: seq<real>, t: real)
    requires |ts| == |vs| && 2 <= |ts| && Spread(ts) <= 1e-15
    ensures BestConstant(ts, vs, LocalLinear(ts, vs, t))
  {
    var v := Mean(vs);
    ResidualAtMeans(ts, vs, v, 0.0, 0.0);
    forall p1 ensures Residual(ts, vs, v, 0.0) <= Residual(ts, vs, p1, 0.0) {
      ResidualAtMeans(ts, vs, p1, 0.0, p1 - v);
      NoBetterConstant(Deviation(vs), |ts| as real, Spread(ts), Cross(ts, vs), Residual(ts, vs, v, 0.0), p1 - v,
                       Residual(ts, vs, p1, 0.0));
    }
  }

  // ----- samples on a line -----

  lemma MeanOnLine(total: real, n: real, times: real, p: real, q: real)
    requires 0.0 < n && total == n * p + q * times
    ensures total / n == p + q * (times / n)
  {
    var m := times / n;
    assert m * n == times;
    assert (p + q * m) * n == n * p + q * (m * n);
    QuotientIs(total, n, p + q * m);
  }

  lemma {:induction false} ProportionalDot(us: seq<real>, ws: seq<real>, q: real)
    requires |us| == |ws| && forall i :: 0 <= i < |us| ==> ws[i] == q * us[i]
    ensures DotProduct(us, ws) == q * DotProduct(us, us)
  {
    if us != [] {
      var n := |us| - 1;
      ProportionalDot(us[..n], ws[..n], q);
      assert us[n] * (q * us[n]) == q * (us[n] * us[n]);
    }
  }

  lemma OffsetOnLine(p: real, q: real, m: real, t: real, v: real, mean: real)
    requires v == p + q * t && mean == p + q * m
    ensures v - mean == q * (t - m)
  {
  }

  lemma MeanValueOnLine(ts: seq<real>, vs: seq<real>, p: real, q: real)
    requires |ts| == |vs| && ts != [] && OnLine(ts, vs, p, q)
    ensures Mean(vs) == p + q * Mean(ts)
  {
    SumOnLine(ts, vs, p, q);
    MeanOnLine(RouteTiming.Sum(vs), |ts| as real, RouteTiming.Sum(ts), p, q);
  }

  lemma CrossOnLine(ts: seq<real>, vs: seq<real>, p: real, q: real)
    requires |ts| == |vs| && ts != [] && OnLine(ts, vs, p, q)
    requires Mean(vs) == p + q * Mean(ts)
    ensures Cross(ts, vs) == q * Spread(ts)
  {
    var m, mean := Mean(ts), Mean(vs);
    var us, ws := Offsets(ts, m), Offsets(vs, mean);
    forall i | 0 <= i < |us| ensures ws[i] == q * us[i] {
      OffsetOnLine(p, q, m, ts[i], vs[i], mean);
    }
    ProportionalDot(us, ws, q);
  }

  /** The two formulas on a line: the fitted value is exact, the mean is off by the slope. */
  lemma ValueOnLine(p: real, q: real, m: real, t: real, spread: real, cross: real, value: real)
    requires cross == q * spread && 0.0 <= spread
    requires value == if spread <= DEGENERATE then p + q * m else p + q * m + cross / spread * (t - m)
    ensures value == p + q * t <==> q == 0.0 || m == t || DEGENERATE < spread
  {
    if DEGENERATE < spread {
      QuotientIs(cross, spread, q);
      ThroughTheMeans(p + q * m, q, m, t, p);
    } else if q * m == q * t && m != t {
      EqualMultiples(q, m, t);
    }
  }

  lemma OneSample(ts: seq<real>)
    requires |ts| == 1
    ensures Mean(ts) == ts[0] && Spread(ts) == 0.0
  {
    assert ts[..0] == [];
    assert RouteTiming.Sum(ts) == ts[0];
    var us := Offsets(ts, Mean(ts));
    assert us[0] == 0.0;
    assert DotProduct(us[..0], us[..0]) == 0.0;
  }

  /** Enough to keep a sloping line at t: t is the mean time, or the times have enough spread. */
  predicate GoodTimes(ts: seq<real>, t: real)
    requires ts != []
  {
    Mean(ts) == t || 1e-15 < Spread(ts)
  }

  /** Exactly when the estimate at t is the value of the line the samples lie on: the line is level, or the
      times are good. One sample has its own time as mean. */
  lemma LineKeptIff(ts: seq<real>, vs: seq<real>, t: real, p: real, q: real)
    requires |ts| == |vs| && ts != [] && OnLine(ts, vs, p, q)
    ensures LocalLinear(ts, vs, t) == p + q * t <==> q == 0.0 || GoodTimes(ts, t)
  {
    MeanValueOnLine(ts, vs, p, q);
    CrossOnLine(ts, vs, p, q);
    SpreadNonNegative(ts);
    if |ts| == 1 { OneSample(ts); }
    ValueOnLine(p, q, Mean(ts), t, Spread(ts), Cross(ts, vs), LocalLinear(ts, vs, t));
  }

  lemma TwoPointsSpread(a: real, b: real, step: real)
    requires 0.0 <= step && a + step <= b
    ensures step * step / 2.0 <= a * a + b * b
  {
    assert 2.0 * (a * a + b * b) == (b - a) * (b - a) + (a + b) * (a + b);
    SquareNonNegative(a + b);
    ProductNonNegative(b - a - step, b - a + step);
  }

  lemma LastTwo(us: seq<real>)
    requires 2 <= |us|
    ensures us[|us| - 2] * us[|us| - 2] + us[|us| - 1] * us[|us| - 1] <= DotProduct(us, us)
  {
    var n := |us| - 1;
    var shorter := us[..n];
    SquaresNonNegative(shorter[..n - 1]);
    assert DotProduct(shorter, shorter) == DotProduct(shorter[..n - 1], shorter[..n - 1]) + shorter[n - 1] * shorter[n - 1];
  }

  /** Two times at least a step apart give a spread of at least half the step squared. */
  lemma GappedSpread(ts: seq<real>, step: real)
    requires 0.0 <= step && 2 <= |ts| && ts[|ts| - 2] + step <= ts[|ts| - 1]
    ensures step * step / 2.0 <= Spread(ts)
  {
    var us := Offsets(ts, Mean(ts));
    LastTwo(us);
    TwoPointsSpread(us[|us| - 2], us[|us| - 1], step);
  }

  // ----- samples on a line but for the last -----

  /** All values lie on p + q t, except that the last lies g below. */
  ghost predicate LastOff(ts: seq<real>, vs: seq<real>, p: real, q: real, g: real) {
    && |ts| == |vs| && ts != []
    && OnLine(ts[..|ts| - 1], vs[..|vs| - 1], p, q)
    && vs[|vs| - 1] == p + q * ts[|ts| - 1] - g
  }

  /** The values of the line itself. */
  ghost function LineValues(ts: seq<real>, p: real, q: real): (ls: seq<real>)
    ensures |ls| == |ts| && forall i :: 0 <= i < |ts| ==> ls[i] == p + q * ts[i]
  {
    seq(|ts|, i requires 0 <= i < |ts| => p + q * ts[i])
  }

  lemma SameButLast(ts: seq<real>, vs: seq<real>, p: real, q: real, g: real)
    requires LastOff(ts, vs, p, q, g)
    ensures var n := |ts| - 1; vs[..n] == LineValues(ts, p, q)[..n] && vs[n] == LineValues(ts, p, q)[n] - g
    ensures OnLine(ts, LineValues(ts, p, q), p, q)
  {
    var n := |ts| - 1;
    forall i | 0 <= i < n ensures vs[..n][i] == LineValues(ts, p, q)[..n][i] {
      assert vs[..n][i] == p + q * ts[..n][i];
    }
  }

  lemma QuotientOfDifference(a: real, g: real, n: real)
    requires 0.0 < n
    ensures (a - g) / n == a / n - g / n
  {
  }

  /** One value g lower lowers the mean by its share of g. */
  lemma MeanLastOff(ts: seq<real>, vs: seq<real>, p: real, q: real, g: real)
    requires LastOff(ts, vs, p, q, g)
    ensures Mean(vs) == p + q * Mean(ts) - g / |ts| as real
  {
    var n, ls := |ts| - 1, LineValues(ts, p, q);
    SameButLast(ts, vs, p, q, g);
    assert RouteTiming.Sum(vs) == RouteTiming.Sum(ls[..n]) + ls[n] - g;
    assert RouteTiming.Sum(ls) == RouteTiming.Sum(ls[..n]) + ls[n];
    MeanValueOnLine(ts, ls, p, q);
    QuotientOfDifference(RouteTiming.Sum(ls), g, |ts| as real);
  }

  /** Against centred times, the centring of the values does not matter. */
  lemma CrossUncentred(ts: seq<real>, vs: seq<real>)
    requires |ts| == |vs| && ts != []
    ensures Cross(ts, vs) == DotProduct(Offsets(ts, Mean(ts)), vs)
  {
    hide DotProduct, RouteTiming.Sum, Mean;
    var us, m := Offsets(ts, Mean(ts)), Mean(vs);
    MeanCentres(ts);
    CrossWithLine(vs, us, Offsets(vs, m), -m, 1.0);
  }

  lemma {:induction false} DotLastOff(us: seq<real>, ls: seq<real>, vs: seq<real>, g: real)
    requires |us| == |ls| == |vs| && us != []
    requires var n := |us| - 1; vs[..n] == ls[..n] && vs[n] == ls[n] - g
    ensures DotProduct(us, vs) == DotProduct(us, ls) - g * us[|us| - 1]
  {
    var n := |us| - 1;
    assert us[n] * (ls[n] - g) == us[n] * ls[n] - g * us[n];
  }

  /** The leverage of the last sample: the fitted cross sum moves by g times its distance from the mean time. */
  lemma CrossLastOff(ts: seq<real>, vs: seq<real>, p: real, q: real, g: real)
    requires LastOff(ts, vs, p, q, g)
    ensures Cross(ts, vs) == q * Spread(ts) - g * (ts[|ts| - 1] - Mean(ts))
  {
    assert |ts| == |vs| && ts != [];
    hide *;
    var us, ls := Offsets(ts, Mean(ts)), LineValues(ts, p, q);
    var u := us[|ts| - 1];
    SameButLast(ts, vs, p, q, g);
    CrossUncentred(ts, vs);
    CrossUncentred(ts, ls);
    DotLastOff(us, ls, vs, g);
    MeanValueOnLine(ts, ls, p, q);
    CrossOnLine(ts, ls, p, q);
    assert u == ts[|ts| - 1] - Mean(ts);
  }

  lemma PulledValue(p: real, q: real, g: real, n: real, m: real, u: real, spread: real, mean: real, cross: real, slope: real)
    requires g != 0.0 && 0.0 < n && 0.0 < spread
    requires mean == p + q * m - g / n && cross == q * spread - g * u && slope * spread == cross
    ensures mean + slope * u != p + q * (m + u)
  {
    var share, tilt := 1.0 / n, (q - slope);
    assert g / n == g * share && 0.0 < share;
    assert tilt * spread == g * u;
    if mean + slope * u == p + q * (m + u) {
      assert q * (m + u) == q * m + q * u;
      assert (q - slope) * u == q * u - slope * u;
      assert tilt * u == -(g * share);
      OppositeSigns(g, share, tilt, u, spread);
    }
  }

  lemma OppositeSigns(g: real, share: real, tilt: real, u: real, spread: real)
    requires tilt * spread == g * u && tilt * u == -(g * share) && 0.0 < share && 0.0 < spread
    ensures g == 0.0
  {
    var weight := share * spread + u * u;
    ProductPositive(share, spread);
    SquareNonNegative(u);
    assert tilt * u * spread == tilt * spread * u;
    assert tilt * spread * u == g * (u * u);
    assert -(g * share) * spread == -(g * (share * spread));
    assert weight * g == 0.0;
    if g != 0.0 { EqualMultiples(weight, g, 0.0); }
  }

  /** A window that ends in the displaced sample does not return the line there. */
  lemma LastIsPulled(ts: seq<real>, vs: seq<real>, p: real, q: real, g: real)
    requires LastOff(ts, vs, p, q, g) && g != 0.0
    requires |ts| == 1 || DEGENERATE < Spread(ts)
    ensures LocalLinear(ts, vs, ts[|ts| - 1]) != p + q * ts[|ts| - 1]
  {
    if 2 <= |ts| {
      var slope, m, t := Cross(ts, vs) / Spread(ts), Mean(ts), ts[|ts| - 1];
      MeanLastOff(ts, vs, p, q, g);
      CrossLastOff(ts, vs, p, q, g);
      QuotientBack(Cross(ts, vs), Spread(ts));
      assert LocalLinear(ts, vs, t) == Mean(vs) + slope * (t - m);
      hide *;
      PulledValue(p, q, g, |ts| as real, m, t - m, Spread(ts), Mean(vs), Cross(ts, vs), slope);
    }
  }

  lemma TiltedSlope(q: real, g: real, u: real, spread: real, cross: real, slope: real, a: real, b: real, c: real)
    requires g != 0.0 && 0.0 < u && 0.0 < spread && a < b
    requires cross == q * spread - g * u && slope * spread == cross
    ensures slope * (b - c) - slope * (a - c) != q * (b - a)
  {
    assert slope * (b - c) - slope * (a - c) == slope * (b - a);
    if slope != q && (b - a) * slope == (b - a) * q {
      EqualMultiples(b - a, slope, q);
    }
  }

  /** When every sample is in the window, the fitted line has another slope. */
  lemma LineIsTilted(ts: seq<real>, vs: seq<real>, p: real, q: real, g: real, a: real, b: real)
    requires LastOff(ts, vs, p, q, g) && g != 0.0 && a < b
    requires 2 <= |ts| && DEGENERATE < Spread(ts) && Mean(ts) < ts[|ts| - 1]
    ensures LocalLinear(ts, vs, b) - LocalLinear(ts, vs, a) != q * (b - a)
  {
    var slope, m := Cross(ts, vs) / Spread(ts), Mean(ts);
    CrossLastOff(ts, vs, p, q, g);
    QuotientBack(Cross(ts, vs), Spread(ts));
    assert LocalLinear(ts, vs, a) == Mean(vs) + slope * (a - m);
    assert LocalLinear(ts, vs, b) == Mean(vs) + slope * (b - m);
    hide *;
    TiltedSlope(q, g, ts[|ts| - 1] - m, Spread(ts), Cross(ts, vs), slope, a, b, m);
  }

  lemma {:induction false} SumAtMost(xs: seq<real>, bound: real)
    requires forall i :: 0 <= i < |xs| ==> xs[i] <= bound
    ensures RouteTiming.Sum(xs) <= |xs| as real * bound
  {
    if xs != [] { SumAtMost(xs[..|xs| - 1], bound); }
  }

  lemma QuotientBelow(a: real, n: real, b: real)
    requires 0.0 < n && a < n * b
    ensures a / n < b
  {
    QuotientBack(a, n);
    if b <= a / n { ProductNonNegative(a / n - b, n); }
  }

  /** When the last time is the only latest, the mean is before it. */
  lemma MeanBeforeLast(ts: seq<real>, step: real)
    requires 2 <= |ts| && 0.0 < step
    requires forall i :: 0 <= i < |ts| - 1 ==> ts[i] + step <= ts[|ts| - 1]
    ensures Mean(ts) < ts[|ts| - 1]
  {
    var n := |ts| - 1;
    SumAtMost(ts[..n], ts[n] - step);
    assert RouteTiming.Sum(ts) == RouteTiming.Sum(ts[..n]) + ts[n];
    ProductPositive(n as real, step);
    assert n as real * (ts[n] - step) == n as real * ts[n] - n as real * step;
    assert |ts| as real * ts[n] == n as real * ts[n] + ts[n];
    QuotientBelow(RouteTiming.Sum(ts), |ts| as real, ts[n]);
  }
}
