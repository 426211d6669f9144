/** Local least-squares smoothing of resampled motion, its derivative, and the whole pipeline. */
module Smoothing {
  import opened Vectors
  import opened TimeSeries
  import opened Resampling
  import opened LeastSquares

  function Times(s: Motion): (r: seq<real>)
    ensures |r| == |s| && forall i :: 0 <= i < |s| ==> r[i] == s[i].time
  {
    seq(|s|, i requires 0 <= i < |s| => s[i].time)
  }

  function Coordinates(s: Motion, a: Axis): (r: seq<real>)
    ensures |r| == |s| && forall i :: 0 <= i < |s| ==> r[i] == On(s[i].value, a)
  {
    seq(|s|, i requires 0 <= i < |s| => On(s[i].value, a))
  }

  function LocalLinearValue(s: Motion, t: real, a: Axis): real
    requires s != []
  {
    LocalLinear(Times(s), Coordinates(s, a), t)
  }

  // ----- the smoothing loop -----

  /** The samples at most `half` away in time, in their order. */
  function Window(s: Motion, t: real, half: real): Motion {
    if s == [] then []
    else Window(s[..|s| - 1], t, half) + (if Abs(s[|s| - 1].time - t) <= half then [s[|s| - 1]] else [])
  }

  lemma {:induction false} WindowHolds(s: Motion, t: real, half: real, x: Stamped<Vector3>)
    ensures x in Window(s, t, half) <==> x in s && Abs(x.time - t) <= half
  {
    if s != [] {
      WindowHolds(s[..|s| - 1], t, half, x);
      assert s == s[..|s| - 1] + [s[|s| - 1]];
    }
  }

  lemma OwnWindow(s: Motion, k: nat, half: real)
    requires k < |s| && 0.0 < half
    ensures s[k] in Window(s, s[k].time, half)
  {
    WindowHolds(s, s[k].time, half, s[k]);
  }

  function SmoothedAt(s: Motion, half: real, k: nat): Stamped<Vector3>
    requires k < |s| && 0.0 < half
  {
    var t := s[k].time;
    var w := Window(s, t, half);
    OwnWindow(s, k, half);
    Stamped(t, Vector3(LocalLinearValue(w, t, X), LocalLinearValue(w, t, Y), LocalLinearValue(w, t, Z)))
  }

  ghost predicate IsSmoothed(s: Motion, half: real, out: Motion)
    requires 0.0 < half
  {
    |out| == |s| && forall k :: 0 <= k < |out| ==> out[k] == SmoothedAt(s, half, k)
  }

  ghost predicate Smoothed(values: Motion, window: real, out: Motion) {
    if window <= 0.0 || |values| < 3 then out == values else IsSmoothed(values, window / 2.0, out)
  }

  method Smooth(values: Motion, window: real) returns (out: Motion)
    ensures Smoothed(values, window, out)
  {
    hide SmoothedAt;
    if window <= 0.0 || |values| < 3 {
      return values;
    }
    var half := window / 2.0;
    out := [];
    for k := 0 to |values|
      invariant |out| == k
      invariant forall j :: 0 <= j < k ==> out[j] == SmoothedAt(values, half, j)
    {
      out := out + [SmoothedAt(values, half, k)];
    }
  }

  ghost predicate AxisOnLine(s: Motion, a: Axis, p: real, q: real) {
    OnLine(Times(s), Coordinates(s, a), p, q)
  }

  lemma OnLineOnAxis(x: Stamped<Vector3>, p: Vector3, v: Vector3, a: Axis)
    requires x.value == Affine(p, v, x.time)
    ensures On(x.value, a) == On(p, a) + On(v, a) * x.time
  {
  }

  lemma {:induction false} WindowOnLine(s: Motion, t: real, half: real, p: Vector3, v: Vector3)
    requires FollowsLine(s, p, v)
    ensures FollowsLine(Window(s, t, half), p, v)
  {
    if s != [] { WindowOnLine(s[..|s| - 1], t, half, p, v); }
  }

  lemma LineOnAxis(s: Motion, p: Vector3, v: Vector3, a: Axis)
    requires FollowsLine(s, p, v)
    ensures AxisOnLine(s, a, On(p, a), On(v, a))
  {
    forall i | 0 <= i < |s| ensures Coordinates(s, a)[i] == On(p, a) + On(v, a) * Times(s)[i] {
      OnLineOnAxis(s[i], p, v, a);
    }
  }

  /** The window is good enough for smoothing at t to keep a sloping line. */
  predicate GoodWindow(w: Motion, t: real)
    requires w != []
  {
    GoodTimes(Times(w), t)
  }

  lemma AxisSmoothed(w: Motion, t: real, p: Vector3, v: Vector3, a: Axis)
    requires FollowsLine(w, p, v) && w != []
    ensures LocalLinearValue(w, t, a) == On(Affine(p, v, t), a) <==> On(v, a) == 0.0 || GoodWindow(w, t)
  {
    hide LocalLinear, GoodTimes, OnLine, Affine, On;
    LineOnAxis(w, p, v, a);
    OnLineOnAxis(Stamped(t, Affine(p, v, t)), p, v, a);
    LineKeptIff(Times(w), Coordinates(w, a), t, On(p, a), On(v, a));
  }

  /** Exactly which samples of a constant-velocity motion smoothing keeps. */
  lemma LineSmoothed(s: Motion, half: real, out: Motion, p: Vector3, v: Vector3, k: nat)
    requires 0.0 < half && FollowsLine(s, p, v) && IsSmoothed(s, half, out) && k < |out|
    ensures Window(s, s[k].time, half) != []
    ensures out[k].time == s[k].time
    ensures out[k].value == Affine(p, v, out[k].time) <==> v == STILL || GoodWindow(Window(s, s[k].time, half), s[k].time)
  {
    OwnWindow(s, k, half);
    var w := Window(s, s[k].time, half);
    WindowOnLine(s, s[k].time, half, p, v);
    hide LocalLinearValue, GoodWindow, Window;
    AxisSmoothed(w, s[k].time, p, v, X);
    AxisSmoothed(w, s[k].time, p, v, Y);
    AxisSmoothed(w, s[k].time, p, v, Z);
  }

  // ----- windows of a uniform grid -----

  ghost predicate NotAfter(s: Motion, bound: real) {
    forall i :: 0 <= i < |s| ==> s[i].time <= bound
  }

  lemma {:induction false} WindowNotAfter(s: Motion, bound: real, t: real, half: real)
    requires NotAfter(s, bound)
    ensures NotAfter(Window(s, t, half), bound)
  {
    if s != [] { WindowNotAfter(s[..|s| - 1], bound, t, half); }
  }

  lemma {:induction false} WindowGapped(s: Motion, step: real, t: real, half: real)
    requires Gapped(s, step)
    ensures Gapped(Window(s, t, half), step)
  {
    if s != [] {
      var n := |s| - 1;
      WindowGapped(s[..n], step, t, half);
      WindowNotAfter(s[..n], s[n].time - step, t, half);
    }
  }

  lemma WindowIsGood(w: Motion, x: Stamped<Vector3>, step: real)
    requires 0.0 < step && 2e-15 < step * step && Gapped(w, step) && x in w
    ensures GoodWindow(w, x.time)
  {
    if |w| == 1 {
      OneSample(Times(w));
    } else {
      GappedSpread(Times(w), step);
    }
  }

  /** On a grid whose step squared exceeds 2e-15, smoothing keeps every constant-velocity motion. */
  lemma GridLineSmoothed(s: Motion, step: real, half: real, out: Motion, p: Vector3, v: Vector3)
    requires 0.0 < step && 2e-15 < step * step && Gapped(s, step) && 0.0 < half
    requires FollowsLine(s, p, v) && IsSmoothed(s, half, out)
    ensures FollowsLine(out, p, v) && Gapped(out, step)
  {
    forall k | 0 <= k < |out|
      ensures out[k].time == s[k].time && out[k].value == Affine(p, v, out[k].time)
    {
      LineSmoothed(s, half, out, p, v, k);
      var w := Window(s, s[k].time, half);
      WindowGapped(s, step, s[k].time, half);
      OwnWindow(s, k, half);
      WindowIsGood(w, s[k], step);
    }
  }

  // ----- derivatives and the pipeline -----

  function Rate(before: Stamped<Vector3>, after: Stamped<Vector3>): Stamped<Vector3>
    requires before.time < after.time
  {
    var dt := after.time - before.time;
    Stamped(after.time, Vector3((after.value.x - before.value.x) / dt, (after.value.y - before.value.y) / dt,
                                (after.value.z - before.value.z) / dt))
  }

  function DerivativeVectors(s: Motion): Motion {
    if |s| < 2 then []
    else
      var n := |s| - 1;
      DerivativeVectors(s[..n]) + (if s[n - 1].time < s[n].time then [Rate(s[n - 1], s[n])] else [])
  }

  /** The rate carries one sample to the next: velocity times time step is the displacement. */
  lemma RateCarries(before: Stamped<Vector3>, after: Stamped<Vector3>)
    requires before.time < after.time
    ensures Scale(Rate(before, after).value, after.time - before.time) == Subtract(after.value, before.value)
  {
    QuotientBack(after.value.x - before.value.x, after.time - before.time);
    QuotientBack(after.value.y - before.value.y, after.time - before.time);
    QuotientBack(after.value.z - before.value.z, after.time - before.time);
  }

  ghost predicate CarriesTo(d: Stamped<Vector3>, s: Motion, k: nat) {
    && k + 1 < |s| && d.time == s[k + 1].time
    && Scale(d.value, s[k + 1].time - s[k].time) == Subtract(s[k + 1].value, s[k].value)
  }

  /** On increasing times every derivative carries its sample to the next. */
  lemma {:induction false} DerivativeSteps(s: Motion, step: real)
    requires 0.0 < step && Gapped(s, step)
    ensures |DerivativeVectors(s)| == if s == [] then 0 else |s| - 1
    ensures forall k :: 0 <= k < |DerivativeVectors(s)| ==> CarriesTo(DerivativeVectors(s)[k], s, k)
  {
    if 2 <= |s| {
      hide Rate, Scale, Subtract;
      var n := |s| - 1;
      DerivativeSteps(s[..n], step);
      forall k | 0 <= k < n - 1 ensures CarriesTo(DerivativeVectors(s)[k], s, k) {
        assert CarriesTo(DerivativeVectors(s[..n])[k], s[..n], k);
      }
      assert Rate(s[n - 1], s[n]).time == s[n].time by { RateStamp(s[n - 1], s[n]); }
      RateCarries(s[n - 1], s[n]);
    }
  }

  lemma RateStamp(before: Stamped<Vector3>, after: Stamped<Vector3>)
    requires before.time < after.time
    ensures Rate(before, after).time == after.time
  {
  }

  lemma SlopeOnLine(p: real, v: real, a: real, b: real)
    requires a < b
    ensures (p + v * b - (p + v * a)) / (b - a) == v
  {
    QuotientIs(p + v * b - (p + v * a), b - a, v);
  }

  lemma RateOnLine(before: Stamped<Vector3>, after: Stamped<Vector3>, p: Vector3, v: Vector3)
    requires before.time < after.time
    requires before.value == Affine(p, v, before.time) && after.value == Affine(p, v, after.time)
    ensures Rate(before, after).value == v
  {
    SlopeOnLine(p.x, v.x, before.time, after.time);
    SlopeOnLine(p.y, v.y, before.time, after.time);
    SlopeOnLine(p.z, v.z, before.time, after.time);
  }

  lemma {:induction false} DerivativeOfLine(s: Motion, p: Vector3, v: Vector3)
    requires FollowsLine(s, p, v)
    ensures Constant(DerivativeVectors(s), v)
  {
    hide Rate, Affine;
    if 2 <= |s| {
      var n := |s| - 1;
      DerivativeOfLine(s[..n], p, v);
      if s[n - 1].time < s[n].time { RateOnLine(s[n - 1], s[n], p, v); }
    }
  }

  ghost predicate Constant(s: Motion, v: Vector3) {
    forall k :: 0 <= k < |s| ==> s[k].value == v
  }

  // ----- a last sample that lags behind its line -----

  /** On one axis, the displacement between two samples is the one of velocity v. */
  ghost predicate Shifted(before: Stamped<Vector3>, after: Stamped<Vector3>, v: Vector3, a: Axis) {
    On(after.value, a) - On(before.value, a) == On(v, a) * (after.time - before.time)
  }

  /** All samples lie on the line but the last, which holds an earlier point of it. */
  ghost predicate LastHeld(s: Motion, p: Vector3, v: Vector3, end: real) {
    && s != [] && end < s[|s| - 1].time
    && FollowsLine(s[..|s| - 1], p, v) && s[|s| - 1].value == Affine(p, v, end)
  }

  /** How far the last sample is below its line. */
  function Lag(s: Motion, v: Vector3, end: real, a: Axis): real
    requires s != []
  {
    On(v, a) * (s[|s| - 1].time - end)
  }

  lemma NonZeroProduct(a: real, b: real)
    requires a != 0.0 && b != 0.0
    ensures a * b != 0.0
  {
  }

  lemma LagNotZero(s: Motion, p: Vector3, v: Vector3, end: real, a: Axis)
    requires LastHeld(s, p, v, end) && On(v, a) != 0.0
    ensures Lag(s, v, end, a) != 0.0
  {
    NonZeroProduct(On(v, a), s[|s| - 1].time - end);
  }

  lemma HeldOnAxis(x: Stamped<Vector3>, p: Vector3, v: Vector3, end: real, a: Axis)
    requires x.value == Affine(p, v, end)
    ensures On(x.value, a) == On(p, a) + On(v, a) * x.time - On(v, a) * (x.time - end)
  {
    OnLineOnAxis(Stamped(end, x.value), p, v, a);
    assert On(v, a) * (x.time - end) == On(v, a) * x.time - On(v, a) * end;
  }

  /** A window that reaches the last sample ends in it and is otherwise on the line. */
  lemma WindowLags(s: Motion, t: real, half: real, p: Vector3, v: Vector3, end: real, a: Axis)
    requires LastHeld(s, p, v, end) && Abs(s[|s| - 1].time - t) <= half
    ensures var w := Window(s, t, half);
      w != [] && w[|w| - 1] == s[|s| - 1] && LastOff(Times(w), Coordinates(w, a), On(p, a), On(v, a), Lag(s, v, end, a))
  {
    var n, w, kept := |s| - 1, Window(s, t, half), Window(s[..|s| - 1], t, half);
    assert w == kept + [s[n]];
    WindowOnLine(s[..n], t, half, p, v);
    LineOnAxis(kept, p, v, a);
    hide On, Affine, Window, FollowsLine, OnLine;
    HeldOnAxis(s[n], p, v, end, a);
    assert Times(w)[..|w| - 1] == Times(kept) && Coordinates(w, a)[..|w| - 1] == Coordinates(kept, a);
  }

  lemma {:induction false} WholeWindow(s: Motion, t: real, half: real)
    requires forall i :: 0 <= i < |s| ==> Abs(s[i].time - t) <= half
    ensures Window(s, t, half) == s
  {
    if s != [] { WholeWindow(s[..|s| - 1], t, half); }
  }

  lemma WindowSpread(w: Motion, step: real)
    requires 0.0 < step && 2e-15 < step * step && Gapped(w, step) && w != []
    ensures |w| == 1 || DEGENERATE < Spread(Times(w))
  {
    if 2 <= |w| { GappedSpread(Times(w), step); }
  }

  lemma SmoothedOnAxis(s: Motion, half: real, k: nat, a: Axis)
    requires k < |s| && 0.0 < half
    ensures SmoothedAt(s, half, k).time == s[k].time && Window(s, s[k].time, half) != []
    ensures On(SmoothedAt(s, half, k).value, a) == LocalLinearValue(Window(s, s[k].time, half), s[k].time, a)
  {
    OwnWindow(s, k, half);
    hide LocalLinearValue, Window;
  }

  lemma UnreachedOnLine(s: Motion, t: real, half: real, p: Vector3, v: Vector3, end: real)
    requires LastHeld(s, p, v, end) && half < Abs(s[|s| - 1].time - t)
    ensures FollowsLine(Window(s, t, half), p, v)
  {
    WindowOnLine(s[..|s| - 1], t, half, p, v);
    hide FollowsLine, Affine;
    assert Window(s, t, half) == Window(s[..|s| - 1], t, half);
  }

  /** A window that does not reach the last sample keeps the line. */
  lemma UnreachedIsKept(s: Motion, step: real, half: real, p: Vector3, v: Vector3, end: real, k: nat, a: Axis)
    requires 0.0 < step && 2e-15 < step * step && Gapped(s, step) && 0.0 < half
    requires k < |s| && LastHeld(s, p, v, end) && half < Abs(s[|s| - 1].time - s[k].time)
    ensures On(SmoothedAt(s, half, k).value, a) == On(Affine(p, v, s[k].time), a)
  {
    hide *;
    var t := s[k].time;
    var w := Window(s, t, half);
    UnreachedOnLine(s, t, half, p, v, end);
    WindowGapped(s, step, t, half);
    OwnWindow(s, k, half);
    WindowIsGood(w, s[k], step);
    SmoothedOnAxis(s, half, k, a);
    AxisSmoothed(w, t, p, v, a);
  }

  /** The smoothed last sample is not on the line. */
  lemma LastStaysOff(s: Motion, step: real, half: real, p: Vector3, v: Vector3, end: real, a: Axis)
    requires 0.0 < step && 2e-15 < step * step && Gapped(s, step) && 0.0 < half
    requires s != [] && LastHeld(s, p, v, end) && On(v, a) != 0.0
    ensures var n := |s| - 1; On(SmoothedAt(s, half, n).value, a) != On(p, a) + On(v, a) * s[n].time
  {
    hide *;
    var n := |s| - 1;
    var t := s[n].time;
    var w := Window(s, t, half);
    assert Abs(s[n].time - t) <= half by { AbsOfZero(); }
    WindowLags(s, t, half, p, v, end, a);
    LagNotZero(s, p, v, end, a);
    WindowGapped(s, step, t, half);
    WindowSpread(w, step);
    SmoothedOnAxis(s, half, n, a);
    LastIsPulled(Times(w), Coordinates(w, a), On(p, a), On(v, a), Lag(s, v, end, a));
    EstimateIs(w, t, a);
  }

  lemma AbsOfZero()
    ensures Abs(0.0) == 0.0
  {
  }

  lemma EstimateIs(w: Motion, t: real, a: Axis)
    requires w != []
    ensures LocalLinearValue(w, t, a) == LocalLinear(Times(w), Coordinates(w, a), t)
  {
  }

  lemma TimesBetween(s: Motion, step: real)
    requires 0.0 < step && Gapped(s, step) && 2 <= |s|
    ensures forall i :: 0 <= i < |s| ==> s[0].time <= s[i].time <= s[|s| - 1].time
    ensures forall i :: 0 <= i < |s| - 1 ==> s[i].time + step <= s[|s| - 1].time
  {
  }

  lemma EveryWindowIsWhole(s: Motion, step: real, half: real)
    requires 0.0 < step && Gapped(s, step) && 2 <= |s| && Abs(s[|s| - 1].time - s[0].time) <= half
    ensures s[0].time < s[|s| - 1].time && Mean(Times(s)) < Times(s)[|s| - 1]
    ensures Window(s, s[0].time, half) == s == Window(s, s[|s| - 1].time, half)
  {
    hide Mean, Gapped, Window;
    TimesBetween(s, step);
    WholeWindow(s, s[0].time, half);
    WholeWindow(s, s[|s| - 1].time, half);
    MeanBeforeLast(Times(s), step);
  }

  /** When the first window reaches the last sample, all windows are the whole motion and fit one tilted line. */
  lemma OneWindowTilts(s: Motion, step: real, half: real, p: Vector3, v: Vector3, end: real, a: Axis)
    requires 0.0 < step && 2e-15 < step * step && Gapped(s, step) && 0.0 < half
    requires 2 <= |s| && LastHeld(s, p, v, end) && On(v, a) != 0.0 && Abs(s[|s| - 1].time - s[0].time) <= half
    ensures !Shifted(SmoothedAt(s, half, 0), SmoothedAt(s, half, |s| - 1), v, a)
  {
    hide LastHeld, LastOff, Window, Gapped, SmoothedAt, Mean, Spread, LocalLinear, LocalLinearValue, Times, Coordinates, Lag, On, Affine;
    var n := |s| - 1;
    EveryWindowIsWhole(s, step, half);
    WindowLags(s, s[0].time, half, p, v, end, a);
    LagNotZero(s, p, v, end, a);
    WindowSpread(s, step);
    SmoothedOnAxis(s, half, 0, a);
    SmoothedOnAxis(s, half, n, a);
    EstimateIs(s, s[0].time, a);
    EstimateIs(s, s[n].time, a);
    LineIsTilted(Times(s), Coordinates(s, a), On(p, a), On(v, a), Lag(s, v, end, a), s[0].time, s[n].time);
  }

  lemma OffTheLine(before: Stamped<Vector3>, after: Stamped<Vector3>, p: Vector3, v: Vector3, a: Axis)
    requires On(before.value, a) == On(Affine(p, v, before.time), a)
    requires On(after.value, a) != On(p, a) + On(v, a) * after.time
    ensures !Shifted(before, after, v, a)
  {
    OnLineOnAxis(Stamped(before.time, Affine(p, v, before.time)), p, v, a);
    Distribute(On(v, a), after.time, before.time);
  }

  lemma Distribute(q: real, t: real, u: real)
    ensures q * (t - u) == q * t - q * u
  {
  }

  /** Smoothing does not straighten the end: the displacement over the whole motion is not the line's. */
  lemma SmoothedBends(s: Motion, step: real, half: real, p: Vector3, v: Vector3, end: real, a: Axis)
    requires 0.0 < step && 2e-15 < step * step && Gapped(s, step) && 0.0 < half
    requires 2 <= |s| && LastHeld(s, p, v, end) && On(v, a) != 0.0
    ensures !Shifted(SmoothedAt(s, half, 0), SmoothedAt(s, half, |s| - 1), v, a)
  {
    hide *;
    var n := |s| - 1;
    if Abs(s[n].time - s[0].time) <= half {
      OneWindowTilts(s, step, half, p, v, end, a);
    } else {
      UnreachedIsKept(s, step, half, p, v, end, 0, a);
      LastStaysOff(s, step, half, p, v, end, a);
      SmoothedOnAxis(s, half, 0, a);
      SmoothedOnAxis(s, half, n, a);
      OffTheLine(SmoothedAt(s, half, 0), SmoothedAt(s, half, n), p, v, a);
    }
  }

  lemma UnsmoothedBends(s: Motion, p: Vector3, v: Vector3, end: real, a: Axis)
    requires LastHeld(s, p, v, end) && On(v, a) != 0.0 && 2 <= |s|
    ensures !Shifted(s[0], s[|s| - 1], v, a)
  {
    var n := |s| - 1;
    assert s[..n][0] == s[0];
    LagNotZero(s, p, v, end, a);
    HeldOnAxis(s[n], p, v, end, a);
    OffTheLine(s[0], s[n], p, v, a);
  }

  lemma OneShift(before: Stamped<Vector3>, after: Stamped<Vector3>, v: Vector3, a: Axis)
    requires Scale(v, after.time - before.time) == Subtract(after.value, before.value)
    ensures Shifted(before, after, v, a)
  {
  }

  lemma StepShift(s: Motion, step: real, v: Vector3, k: nat, next: nat, a: Axis)
    requires 0.0 < step && Gapped(s, step) && Constant(DerivativeVectors(s), v) && next == k + 1 < |s|
    ensures Shifted(s[k], s[next], v, a)
  {
    hide Gapped, DerivativeVectors, Scale, Subtract, Shifted;
    DerivativeSteps(s, step);
    assert CarriesTo(DerivativeVectors(s)[k], s, k);
    OneShift(s[k], s[next], v, a);
  }

  lemma ShiftsAdd(x: Stamped<Vector3>, y: Stamped<Vector3>, z: Stamped<Vector3>, v: Vector3, a: Axis)
    requires Shifted(x, y, v, a) && Shifted(y, z, v, a)
    ensures Shifted(x, z, v, a)
  {
  }

  /** A constant derivative adds up to a displacement along a line. */
  lemma {:induction false} SteadyShift(s: Motion, step: real, v: Vector3, k: nat, a: Axis)
    requires 0.0 < step && Gapped(s, step) && Constant(DerivativeVectors(s), v) && k < |s|
    ensures Shifted(s[0], s[k], v, a)
  {
    if 0 < k {
      hide *;
      SteadyShift(s, step, v, k - 1, a);
      StepShift(s, step, v, k - 1, k, a);
      ShiftsAdd(s[0], s[k - 1], s[k], v, a);
    }
  }

  // ----- the pipeline -----

  /** What the pipeline gets when the grid passes the end. */
  lemma EndIsHeld(values: Motion, step: real, out: Motion, p: Vector3, v: Vector3)
    requires 0.0 < step && FollowsLine(values, p, v) && Resampled(values, step, out)
    requires !StaysInside(Deduplicated(SortByTime(values)), step)
    ensures 2 <= |out| && Gapped(out, step) && exists end :: LastHeld(out, p, v, end)
  {
    var d := Deduplicated(SortByTime(values));
    assert 2 <= |d| <= |values|;
    hide Deduplicated, SortByTime, StaysInside, IsResampling, FollowsLine, Affine, Gapped;
    OnlyTheLastIsHeld(values, step, out, p, v);
    ResamplingGapped(d, step, out);
    assert LastHeld(out, p, v, d[|d| - 1].time);
  }

  /** After smoothing or without it, the whole displacement is not the line's. */
  lemma StillBends(s: Motion, step: real, window: real, out: Motion, p: Vector3, v: Vector3, end: real, a: Axis)
    requires 0.0 < step && 2e-15 < step * step && Gapped(s, step) && Smoothed(s, window, out)
    requires 2 <= |s| && LastHeld(s, p, v, end) && On(v, a) != 0.0
    ensures |out| == |s| && Gapped(out, step)
    ensures !Shifted(out[0], out[|s| - 1], v, a)
  {
    hide LastHeld, SmoothedAt, On;
    if window <= 0.0 || |s| < 3 {
      UnsmoothedBends(s, p, v, end, a);
    } else {
      SmoothedBends(s, step, window / 2.0, p, v, end, a);
      forall k | 0 <= k < |out| ensures out[k].time == s[k].time {
        SmoothedOnAxis(s, window / 2.0, k, a);
      }
    }
  }

  lemma MovingAxis(v: Vector3) returns (a: Axis)
    requires v != STILL
    ensures On(v, a) != 0.0
  {
    a := if v.x != 0.0 then X else if v.y != 0.0 then Y else Z;
  }

  /** A constant-velocity recording whose grid passes the end does not come out at that velocity. */
  lemma PipelineBends(values: Motion, step: real, window: real, resampled: Motion, smoothed: Motion, p: Vector3, v: Vector3)
    requires 0.0 < step && FollowsLine(values, p, v) && 2e-15 < step * step
    requires v != STILL && !StaysInside(Deduplicated(SortByTime(values)), step)
    requires Resampled(values, step, resampled) && Smoothed(resampled, window, smoothed)
    ensures !Constant(DerivativeVectors(smoothed), v)
  {
    hide *;
    var a := MovingAxis(v);
    EndIsHeld(values, step, resampled, p, v);
    var end :| LastHeld(resampled, p, v, end);
    StillBends(resampled, step, window, smoothed, p, v, end, a);
    if Constant(DerivativeVectors(smoothed), v) { SteadyShift(smoothed, step, v, |resampled| - 1, a); }
  }

  lemma PipelineOnLine(values: Motion, step: real, window: real, resampled: Motion, smoothed: Motion, p: Vector3, v: Vector3)
    requires 0.0 < step && FollowsLine(values, p, v) && 2e-15 < step * step
    requires v == STILL || StaysInside(Deduplicated(SortByTime(values)), step)
    requires Resampled(values, step, resampled) && Smoothed(resampled, window, smoothed)
    ensures Constant(DerivativeVectors(smoothed), v)
  {
    var d := Deduplicated(SortByTime(values));
    LineKept(values, p, v);
    if 2 <= |values| && 2 <= |d| {
      LineResampled(values, step, resampled, p, v);
      ResamplingGapped(d, step, resampled);
      if 0.0 < window && 3 <= |resampled| {
        GridLineSmoothed(resampled, step, window / 2.0, smoothed, p, v);
      }
    }
    DerivativeOfLine(smoothed, p, v);
  }

  /** Resample, smooth, differentiate. A recording of constant velocity comes out at exactly that velocity,
      whatever its sampling times, just when it stands still or the grid stays inside the recording. */
  method ProcessedVelocity(values: Motion, step: real, window: real) returns (velocity: Motion)
    requires 0.0 < step
    ensures exists resampled, smoothed :: Resampled(values, step, resampled) && Smoothed(resampled, window, smoothed)
                                          && velocity == DerivativeVectors(smoothed)
    ensures 2e-15 < step * step ==> forall p, v :: FollowsLine(values, p, v) ==>
      (Constant(velocity, v) <==> v == STILL || StaysInside(Deduplicated(SortByTime(values)), step))
  {
    var resampled := Resample(values, step);
    var smoothed := Smooth(resampled, window);
    velocity := DerivativeVectors(smoothed);
    forall p, v | FollowsLine(values, p, v) && 2e-15 < step * step
      ensures Constant(velocity, v) <==> v == STILL || StaysInside(Deduplicated(SortByTime(values)), step)
    {
      if v == STILL || StaysInside(Deduplicated(SortByTime(values)), step) {
        PipelineOnLine(values, step, window, resampled, smoothed, p, v);
      } else {
        PipelineBends(values, step, window, resampled, smoothed, p, v);
      }
    }
  }

  lemma TwoGridTimes(d: Motion, out: Motion)
    requires |d| == 2 && d[0].time == 0.0 && d[1].time == 0.9 && IsResampling(d, 1.0, out)
    ensures |out| == 2 && out[0].time == 0.0 && out[1].time == 1.0
  {
    assert GridTime(0.0, 1.0, 1) == 1.0 && GridTime(0.0, 1.0, 2) == 2.0;
    GridNotEmpty(d, 1.0, out);
    assert SampledAt(d, 1.0, out, 0);
    assert |out| == 2 ==> SampledAt(d, 1.0, out, 1);
  }

  lemma NineTenths(a: real, b: real, p: real, v: real)
    requires a == p + v * 0.0 && b == p + v * 0.9
    ensures (b - a) / 1.0 == v * 0.9
  {
  }

  lemma RateOfHeld(before: Stamped<Vector3>, after: Stamped<Vector3>, p: Vector3, v: Vector3)
    requires before.time == 0.0 && after.time == 1.0
    requires before.value == Affine(p, v, 0.0) && after.value == Affine(p, v, 0.9)
    ensures Rate(before, after) == Stamped(1.0, Scale(v, 0.9))
  {
    hide Affine;
    AffineAt(p, v, 0.0);
    AffineAt(p, v, 0.9);
    NineTenths(before.value.x, after.value.x, p.x, v.x);
    NineTenths(before.value.y, after.value.y, p.y, v.y);
    NineTenths(before.value.z, after.value.z, p.z, v.z);
    var r := Rate(before, after);
    assert r.value.x == v.x * 0.9;
    assert r.value.y == v.y * 0.9;
    assert r.value.z == v.z * 0.9;
  }

  lemma TwoSamplesKept(d: Motion)
    requires |d| == 2 && d[0].time == 0.0 && d[1].time == 0.9
    ensures Deduplicated(SortByTime(d)) == d
  {
    SortOfSorted(d);
    assert !IsClose(0.9, 0.0);
    hide SortByTime, IsClose;
    var first := d[..1];
    assert first == [d[0]] && first[..0] == [];
    assert Deduplicated(first) == first;
  }

  /** Two samples of a moving line 0.9 apart, resampled at step 1: the last grid time is 1, the motion is held
      at 0.9, and the velocity comes out at nine tenths. */
  lemma HeldEndSlowsDown(p: Vector3, v: Vector3, window: real, resampled: Motion, smoothed: Motion)
    requires Resampled([Stamped(0.0, Affine(p, v, 0.0)), Stamped(0.9, Affine(p, v, 0.9))], 1.0, resampled)
    requires Smoothed(resampled, window, smoothed)
    ensures |smoothed| == 2 && smoothed[0].time == 0.0 && smoothed[1].time == 1.0
    ensures DerivativeVectors(smoothed) == [Stamped(1.0, Scale(v, 0.9))]
  {
    var values := [Stamped(0.0, Affine(p, v, 0.0)), Stamped(0.9, Affine(p, v, 0.9))];
    TwoSamplesKept(values);
    hide Affine, Scale, Rate, SortByTime, Deduplicated, IsResampling, IsSmoothed;
    LineIsHeld(values, 1.0, resampled, p, v);
    TwoGridTimes(values, resampled);
    assert smoothed == resampled && smoothed[..1] == [smoothed[0]];
    assert DerivativeVectors(smoothed) == [Rate(smoothed[0], smoothed[1])];
    RateOfHeld(smoothed[0], smoothed[1], p, v);
  }
}
