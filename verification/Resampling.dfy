/** Resampling recorded motion on a uniform time grid. */
module Resampling {
  import opened Vectors
  import opened TimeSeries
  import RouteTiming

  type Motion = seq<Stamped<Vector3>>

  /** A sample close in time to the one kept last replaces it. */
  function Deduplicated(s: Motion): (d: Motion)
    ensures |d| <= |s| && (s != [] ==> d != [] && d[|d| - 1] == s[|s| - 1])
  {
    if s == [] then []
    else
      var n := |s| - 1;
      var d := Deduplicated(s[..n]);
      if d != [] && IsClose(s[n].time, d[|d| - 1].time) then d[..|d| - 1] + [s[n]] else d + [s[n]]
  }

  ghost predicate ClearlyAfter(s: Motion, i: nat)
    requires i + 1 < |s|
  {
    s[i].time < s[i + 1].time && !IsClose(s[i + 1].time, s[i].time)
  }

  /** Every time is clearly after the one before it. */
  ghost predicate Separated(s: Motion) {
    forall i :: 0 <= i < |s| - 1 ==> ClearlyAfter(s, i)
  }

  lemma LaterIsFurther(a: real, b: real, c: real)
    requires a < b <= c && !IsClose(b, a)
    ensures !IsClose(c, a)
  {
  }

  /** Deduplication of a sorted recording keeps samples of it, the last one included, at clearly increasing times. */
  lemma {:induction false} DeduplicatedSeparated(s: Motion)
    requires Ascending(s)
    ensures Separated(Deduplicated(s))
    ensures forall x :: x in Deduplicated(s) ==> x in s
  {
    if s != [] {
      var n := |s| - 1;
      DeduplicatedSeparated(s[..n]);
      var d := Deduplicated(s[..n]);
      var r := Deduplicated(s);
      assert d != [] ==> d[|d| - 1] == s[n - 1] && s[n - 1].time <= s[n].time;
      forall i | 0 <= i < |r| - 1
        ensures ClearlyAfter(r, i)
      {
        if i < |d| - 1 { assert ClearlyAfter(d, i); }
        if i == |r| - 2 && |r| == |d| {
          LaterIsFurther(d[i].time, d[i + 1].time, s[n].time);
        }
      }
      forall x | x in r ensures x in s {
        var i :| 0 <= i < |r| && r[i] == x;
        if i < |r| - 1 { assert r[i] == d[i] && d[i] in d && d[i] in s[..n]; }
      }
    }
  }

  lemma {:induction false} SeparatedAscends(s: Motion, i: nat, j: nat)
    requires Separated(s) && i < j < |s|
    ensures s[i].time < s[j].time
    decreases j - i
  {
    assert ClearlyAfter(s, j - 1);
    if i < j - 1 { SeparatedAscends(s, i, j - 1); }
  }

  // ----- the piecewise-linear interpolant -----

  ghost predicate OnSegment(d: Motion, i: nat, t: real) {
    i + 1 < |d| && d[i].time <= t <= d[i + 1].time
  }

  function SegmentValue(before: Stamped<Vector3>, after: Stamped<Vector3>, t: real): Vector3
    requires before.time < after.time
  {
    Lerp(before.value, after.value, (t - before.time) / (after.time - before.time))
  }

  /** What the recording says at time t: linear on every segment that holds t, constant after the end. */
  ghost predicate Interpolates(d: Motion, t: real, p: Vector3)
    requires Separated(d) && 2 <= |d|
  {
    if d[|d| - 1].time < t then p == d[|d| - 1].value
    else exists i: nat :: ReadsOff(d, i, t, p)
  }

  ghost predicate ReadsOff(d: Motion, i: nat, t: real, p: Vector3)
    requires Separated(d)
  {
    OnSegment(d, i, t) && (assert ClearlyAfter(d, i); p == SegmentValue(d[i], d[i + 1], t))
  }

  lemma SegmentEnds(before: Stamped<Vector3>, after: Stamped<Vector3>)
    requires before.time < after.time
    ensures SegmentValue(before, after, before.time) == before.value
    ensures SegmentValue(before, after, after.time) == after.value
  {
    RouteTiming.DivideBack(1.0, after.time - before.time);
  }

  /** Two segments that hold the same time agree there, so the interpolant is a function of time. */
  lemma InterpolantUnique(d: Motion, t: real, p: Vector3, q: Vector3)
    requires Separated(d) && 2 <= |d| && Interpolates(d, t, p) && Interpolates(d, t, q)
    ensures p == q
  {
    if t <= d[|d| - 1].time {
      var i: nat :| ReadsOff(d, i, t, p);
      var j: nat :| ReadsOff(d, j, t, q);
      if i < j { NeighboursAgree(d, t, i, p, j, q); }
      if j < i { NeighboursAgree(d, t, j, q, i, p); }
    }
  }

  lemma NeighboursAgree(d: Motion, t: real, i: nat, p: Vector3, j: nat, q: Vector3)
    requires Separated(d) && i < j && ReadsOff(d, i, t, p) && ReadsOff(d, j, t, q)
    ensures p == q
  {
    if i + 1 < j { SeparatedAscends(d, i + 1, j); }
    assert ClearlyAfter(d, i) && ClearlyAfter(d, j);
    SegmentEnds(d[i], d[i + 1]);
    SegmentEnds(d[j], d[j + 1]);
  }

  // ----- the resampling loop -----

  function GridTime(start: real, step: real, k: nat): real { start + k as real * step }

  /** The grid starts at the first time and runs while it is at most a quarter step past the last one. */
  ghost predicate IsGrid(start: real, end: real, step: real, times: nat) {
    && (forall k: nat :: k < times ==> GridTime(start, step, k) <= end + step * 0.25)
    && end + step * 0.25 < GridTime(start, step, times)
  }

  ghost predicate SampledAt(d: Motion, step: real, out: Motion, k: nat)
    requires Separated(d) && 2 <= |d| && k < |out|
  {
    out[k].time == GridTime(d[0].time, step, k) && Interpolates(d, out[k].time, out[k].value)
  }

  /** `out` samples the interpolant of d at every grid time. */
  ghost predicate IsResampling(d: Motion, step: real, out: Motion) {
    && Separated(d) && 2 <= |d|
    && IsGrid(d[0].time, d[|d| - 1].time, step, |out|)
    && Sampled(d, step, out)
  }

  /** One sample of the deduplication loop. */
  lemma DeduplicateStep(s: Motion, k: nat)
    requires k < |s|
    ensures Deduplicated(s[..k + 1]) ==
      var d := Deduplicated(s[..k]);
      if d != [] && IsClose(s[k].time, d[|d| - 1].time) then d[..|d| - 1] + [s[k]] else d + [s[k]]
  {
    hide IsClose;
    assert s[..k + 1][..k] == s[..k];
  }

  method Deduplicate(s: Motion) returns (d: Motion)
    ensures d == Deduplicated(s)
  {
    d := [];
    assert d == Deduplicated(s[..0]);
    hide Deduplicated, IsClose;
    for k := 0 to |s|
      invariant d == Deduplicated(s[..k])
    {
      DeduplicateStep(s, k);
      if d != [] && IsClose(s[k].time, d[|d| - 1].time) {
        d := d[..|d| - 1] + [s[k]];
      } else {
        d := d + [s[k]];
      }
    }
    assert s[..|s|] == s;
  }

  lemma ScaledOrder(a: real, b: real, step: real)
    requires 0.0 < step
    ensures a * step <= b * step <==> a <= b
  {
    if b < a { ProductPositive(a - b, step); }
    if a <= b { ProductNonNegative(b - a, step); }
  }

  lemma FractionOrder(x: real, span: real, f: real)
    requires 0.0 < span && f * span == x
    ensures 0.0 <= x ==> 0.0 <= f
    ensures x <= span <==> f <= 1.0
  {
    ScaledOrder(0.0, f, span);
    ScaledOrder(f, 1.0, span);
  }

  lemma ClampedFraction(a: real, b: real, t: real)
    requires a < b && a <= t
    ensures Max(0.0, Min(1.0, (t - a) / (b - a))) == if t <= b then (t - a) / (b - a) else 1.0
  {
    var f := (t - a) / (b - a);
    QuotientBack(t - a, b - a);
    FractionOrder(t - a, b - a, f);
  }

  /** The index the loop stops at: the segment holds t, or it is the last one. */
  ghost predicate StopsAt(d: Motion, i: nat, t: real) {
    i + 1 < |d| && d[i].time <= t && (i + 2 == |d| || t <= d[i + 1].time)
  }

  function ClampedValue(before: Stamped<Vector3>, after: Stamped<Vector3>, t: real): Vector3 {
    var span := after.time - before.time;
    var factor := if span <= 0.0 then 0.0 else Max(0.0, Min(1.0, (t - before.time) / span));
    Lerp(before.value, after.value, factor)
  }

  /** The value the loop computes on the segment it stops at. */
  lemma ClampedInterpolates(d: Motion, i: nat, t: real)
    requires Separated(d) && StopsAt(d, i, t)
    ensures Interpolates(d, t, ClampedValue(d[i], d[i + 1], t))
  {
    assert ClearlyAfter(d, i);
    ClampedFraction(d[i].time, d[i + 1].time, t);
    if t <= d[i + 1].time {
      if i + 2 < |d| { SeparatedAscends(d, i + 1, |d| - 1); }
      assert ReadsOff(d, i, t, SegmentValue(d[i], d[i + 1], t));
    } else {
      assert Lerp(d[i].value, d[i + 1].value, 1.0) == d[i + 1].value;
    }
  }

  lemma NextGridTime(start: real, step: real, k: nat)
    ensures GridTime(start, step, k + 1) == GridTime(start, step, k) + step
  {
  }

  lemma OneStepLess(x: real, step: real)
    requires 0.0 < step
    ensures (x - step) / step == x / step - 1.0
  {
    var q := x / step;
    assert q * step == x;
    assert (q - 1.0) * step == q * step - step;
    QuotientIs(x - step, step, q - 1.0);
  }

  /** Moves the segment index forward to the one that holds t. */
  method Locate(d: Motion, start: nat, t: real) returns (index: nat)
    requires start + 1 < |d| && d[start].time <= t
    ensures StopsAt(d, index, t)
  {
    index := start;
    while index + 1 < |d| - 1 && d[index + 1].time < t
      invariant index + 1 < |d| && d[index].time <= t
    {
      index := index + 1;
    }
  }

  ghost predicate Sampled(d: Motion, step: real, out: Motion)
    requires Separated(d) && 2 <= |d|
  {
    forall k :: 0 <= k < |out| ==> SampledAt(d, step, out, k)
  }

  lemma SampleAppended(d: Motion, step: real, out: Motion, x: Stamped<Vector3>)
    requires Separated(d) && 2 <= |d| && Sampled(d, step, out)
    requires x.time == GridTime(d[0].time, step, |out|) && Interpolates(d, x.time, x.value)
    ensures Sampled(d, step, out + [x])
  {
    forall k | 0 <= k < |out| + 1 ensures SampledAt(d, step, out + [x], k) {
      if k < |out| { assert SampledAt(d, step, out, k); }
    }
  }

  method SampleGrid(d: Motion, step: real) returns (out: Motion)
    requires 0.0 < step && Separated(d) && 2 <= |d|
    ensures IsResampling(d, step, out)
  {
    out := [];
    var index := 0;
    var timestamp, end := d[0].time, d[|d| - 1].time;
    while timestamp <= end + step * 0.25
      invariant index + 1 < |d| && d[index].time <= timestamp == GridTime(d[0].time, step, |out|)
      invariant forall k: nat :: k < |out| ==> GridTime(d[0].time, step, k) <= end + step * 0.25
      invariant Sampled(d, step, out)
      decreases (end + step * 0.25 - timestamp) / step
    {
      index := Locate(d, index, timestamp);
      ClampedInterpolates(d, index, timestamp);
      var value := ClampedValue(d[index], d[index + 1], timestamp);
      SampleAppended(d, step, out, Stamped(timestamp, value));
      NextGridTime(d[0].time, step, |out|);
      OneStepLess(end + step * 0.25 - timestamp, step);
      RouteTiming.Quotient(end + step * 0.25 - timestamp, step);
      out := out + [Stamped(timestamp, value)];
      timestamp := timestamp + step;
    }
  }

  /** What resampling promises: short recordings are returned as they are, longer ones on the grid. */
  ghost predicate Resampled(values: Motion, step: real, out: Motion) {
    if |values| < 2 then out == values
    else
      var d := Deduplicated(SortByTime(values));
      if |d| < 2 then out == d else IsResampling(d, step, out)
  }

  method Resample(values: Motion, step: real) returns (out: Motion)
    requires 0.0 < step
    ensures Resampled(values, step, out)
  {
    if |values| < 2 {
      return values;
    }
    var sorted := SortByTime(values);
    SortIsStable(values);
    var d := Deduplicate(sorted);
    DeduplicatedSeparated(sorted);
    if |d| < 2 {
      return d;
    }
    out := SampleGrid(d, step);
  }

  // ----- constant-velocity motion -----

  /** Motion at constant velocity v through the origin point p. */
  function Affine(p: Vector3, v: Vector3, t: real): Vector3 { Add(p, Scale(v, t)) }

  ghost predicate FollowsLine(s: Motion, p: Vector3, v: Vector3) {
    forall i :: 0 <= i < |s| ==> s[i].value == Affine(p, v, s[i].time)
  }

  lemma MixOnLine(p: real, v: real, a: real, b: real, t: real, f: real, x: real, y: real)
    requires f * (b - a) == t - a && x == p + v * a && y == p + v * b
    ensures Mix(x, y, f) == p + v * t
  {
    assert y - x == v * (b - a);
    assert v * (b - a) * f == v * (f * (b - a));
  }

  lemma AffineAt(p: Vector3, v: Vector3, t: real)
    ensures var q := Affine(p, v, t); q.x == p.x + v.x * t && q.y == p.y + v.y * t && q.z == p.z + v.z * t
  {
  }

  lemma LerpOnLine(p: Vector3, v: Vector3, before: Stamped<Vector3>, after: Stamped<Vector3>, f: real, at: Stamped<Vector3>)
    requires before.value == Affine(p, v, before.time) && after.value == Affine(p, v, after.time)
    requires f * (after.time - before.time) == at.time - before.time && at.value == Affine(p, v, at.time)
    ensures Lerp(before.value, after.value, f) == at.value
  {
    hide Mix, Affine;
    AffineAt(p, v, before.time);
    AffineAt(p, v, after.time);
    AffineAt(p, v, at.time);
    MixOnLine(p.x, v.x, before.time, after.time, at.time, f, before.value.x, after.value.x);
    MixOnLine(p.y, v.y, before.time, after.time, at.time, f, before.value.y, after.value.y);
    MixOnLine(p.z, v.z, before.time, after.time, at.time, f, before.value.z, after.value.z);
  }

  lemma SegmentOnLine(before: Stamped<Vector3>, after: Stamped<Vector3>, t: real, p: Vector3, v: Vector3)
    requires before.time < after.time
    requires before.value == Affine(p, v, before.time) && after.value == Affine(p, v, after.time)
    ensures SegmentValue(before, after, t) == Affine(p, v, t)
  {
    hide Affine, Lerp;
    QuotientBack(t - before.time, after.time - before.time);
    LerpOnLine(p, v, before, after, (t - before.time) / (after.time - before.time), Stamped(t, Affine(p, v, t)));
  }

  lemma InterpolantOnLine(d: Motion, t: real, q: Vector3, p: Vector3, v: Vector3)
    requires Separated(d) && 2 <= |d| && FollowsLine(d, p, v) && Interpolates(d, t, q)
    ensures q == Affine(p, v, if d[|d| - 1].time < t then d[|d| - 1].time else t)
  {
    if t <= d[|d| - 1].time {
      var i: nat :| ReadsOff(d, i, t, q);
      assert ClearlyAfter(d, i);
      SegmentOnLine(d[i], d[i + 1], t, p, v);
    }
  }

  lemma SameOnlyIfStill(p: Vector3, v: Vector3, t: real, u: real)
    requires t != u && Affine(p, v, t) == Affine(p, v, u)
    ensures v == Vector3(0.0, 0.0, 0.0)
  {
    EqualMultiples(v.x, t, u);
    EqualMultiples(v.y, t, u);
    EqualMultiples(v.z, t, u);
  }

  lemma LineKept(values: Motion, p: Vector3, v: Vector3)
    requires FollowsLine(values, p, v)
    ensures FollowsLine(Deduplicated(SortByTime(values)), p, v)
    ensures Separated(Deduplicated(SortByTime(values)))
  {
    var sorted := SortByTime(values);
    SortIsStable(values);
    SortKeepsValues(values);
    DeduplicatedSeparated(sorted);
    var d := Deduplicated(sorted);
    forall i | 0 <= i < |d| ensures d[i].value == Affine(p, v, d[i].time) {
      assert d[i] in d && d[i] in sorted && d[i] in multiset(sorted) && d[i] in values;
    }
  }

  // ----- where the grid ends -----

  lemma GridAscends(start: real, step: real, j: nat, k: nat)
    requires 0.0 < step && j <= k
    ensures GridTime(start, step, j) <= GridTime(start, step, k)
    ensures j < k ==> GridTime(start, step, j) + step <= GridTime(start, step, k)
  {
    ProductNonNegative((k - j) as real, step);
    if j < k { ProductNonNegative((k - j - 1) as real, step); }
  }

  lemma GridNotEmpty(d: Motion, step: real, out: Motion)
    requires 0.0 < step && IsResampling(d, step, out)
    ensures out != []
  {
    SeparatedAscends(d, 0, |d| - 1);
  }

  /** No resample time passes the last recorded one. */
  predicate StaysInside(d: Motion, step: real)
    requires 0.0 < step
  {
    |d| < 2 || d[0].time + LastIndex(d[0].time, d[|d| - 1].time, step) as real * step <= d[|d| - 1].time
  }

  function LastIndex(start: real, end: real, step: real): int
    requires 0.0 < step
  {
    ((end - start) / step + 0.25).Floor
  }

  lemma FloorIs(x: real, n: int)
    requires n as real <= x < n as real + 1.0
    ensures x.Floor == n
  {
  }

  /** A grid time is in range just when its index is at most the number of steps to the end and a quarter. */
  lemma GridIndex(start: real, end: real, step: real, steps: real, k: nat)
    requires 0.0 < step && steps * step == end - start
    ensures GridTime(start, step, k) <= end + step * 0.25 <==> k as real <= steps + 0.25
  {
    assert (steps + 0.25) * step == steps * step + step * 0.25;
    ScaledOrder(k as real, steps + 0.25, step);
  }

  lemma LastGridPoint(start: real, end: real, step: real, n: nat)
    requires 0.0 < step && 0 < n && IsGrid(start, end, step, n)
    ensures n - 1 == LastIndex(start, end, step)
  {
    var steps := (end - start) / step;
    QuotientBack(end - start, step);
    GridIndex(start, end, step, steps, n - 1);
    GridIndex(start, end, step, steps, n);
    hide GridTime;
    FloorIs(steps + 0.25, n - 1);
  }

  /** The condition on the recording is the one on the last resample time. */
  lemma InsideMeans(d: Motion, step: real, out: Motion)
    requires 0.0 < step && IsResampling(d, step, out)
    ensures out != [] && out[|out| - 1].time == GridTime(d[0].time, step, |out| - 1)
    ensures StaysInside(d, step) <==> out[|out| - 1].time <= d[|d| - 1].time
  {
    GridNotEmpty(d, step, out);
    assert SampledAt(d, step, out, |out| - 1);
    hide Sampled, Separated, LastIndex, SampledAt;
    LastGridPoint(d[0].time, d[|d| - 1].time, step, |out|);
  }

  // ----- constant velocity through the resampling -----

  const STILL: Vector3 := Vector3(0.0, 0.0, 0.0)

  /** A motion on a line is resampled on that line up to the end and held at the end after it. */
  ghost predicate HeldAfter(out: Motion, end: real, p: Vector3, v: Vector3) {
    forall k :: 0 <= k < |out| ==> out[k].value == Affine(p, v, if end < out[k].time then end else out[k].time)
  }

  lemma LineIsHeld(values: Motion, step: real, out: Motion, p: Vector3, v: Vector3)
    requires 0.0 < step && FollowsLine(values, p, v)
    requires IsResampling(Deduplicated(SortByTime(values)), step, out)
    ensures var d := Deduplicated(SortByTime(values)); HeldAfter(out, d[|d| - 1].time, p, v)
  {
    var d := Deduplicated(SortByTime(values));
    var end := d[|d| - 1].time;
    LineKept(values, p, v);
    forall k | 0 <= k < |out|
      ensures out[k].value == Affine(p, v, if end < out[k].time then end else out[k].time)
    {
      assert SampledAt(d, step, out, k);
      InterpolantOnLine(d, out[k].time, out[k].value, p, v);
    }
  }

  /** The time of one resample point is a step before the next. */
  ghost predicate Gapped(s: Motion, step: real) {
    forall i, j :: 0 <= i < j < |s| ==> s[i].time + step <= s[j].time
  }

  lemma ResamplingGapped(d: Motion, step: real, out: Motion)
    requires 0.0 < step && IsResampling(d, step, out)
    ensures Gapped(out, step)
  {
    forall i, j | 0 <= i < j < |out|
      ensures out[i].time + step <= out[j].time
    {
      assert SampledAt(d, step, out, i) && SampledAt(d, step, out, j);
      GridAscends(d[0].time, step, i, j);
    }
  }

  /** Exactly when resampling keeps a constant-velocity motion: it stands still, or no grid point falls past
      the last recorded time, after which the loop holds the last point. */
  lemma LineResampled(values: Motion, step: real, out: Motion, p: Vector3, v: Vector3)
    requires 0.0 < step && FollowsLine(values, p, v)
    requires IsResampling(Deduplicated(SortByTime(values)), step, out)
    ensures FollowsLine(out, p, v) <==> v == STILL || StaysInside(Deduplicated(SortByTime(values)), step)
  {
    var d := Deduplicated(SortByTime(values));
    var end, last := d[|d| - 1].time, |out| - 1;
    hide Deduplicated, SortByTime, Sampled, Separated, StaysInside;
    LineIsHeld(values, step, out, p, v);
    InsideMeans(d, step, out);
    ResamplingGapped(d, step, out);
    if FollowsLine(out, p, v) && end < out[last].time {
      SameOnlyIfStill(p, v, end, out[last].time);
    }
  }

  lemma EndOfGrid(d: Motion, step: real, out: Motion)
    requires 0.0 < step && IsResampling(d, step, out)
    ensures out != [] && out[0].time == d[0].time && out[|out| - 1].time <= d[|d| - 1].time + step * 0.25
  {
    GridNotEmpty(d, step, out);
    assert SampledAt(d, step, out, 0) && SampledAt(d, step, out, |out| - 1);
  }

  /** When the grid passes the end, exactly its last point does, and it holds the end of the line. */
  lemma OnlyTheLastIsHeld(values: Motion, step: real, out: Motion, p: Vector3, v: Vector3)
    requires 0.0 < step && FollowsLine(values, p, v)
    requires IsResampling(Deduplicated(SortByTime(values)), step, out)
    requires !StaysInside(Deduplicated(SortByTime(values)), step)
    ensures 2 <= |out| && FollowsLine(out[..|out| - 1], p, v)
    ensures var d := Deduplicated(SortByTime(values)); var end := d[|d| - 1].time;
      end < out[|out| - 1].time && out[|out| - 1].value == Affine(p, v, end)
  {
    var d := Deduplicated(SortByTime(values));
    var end, last := d[|d| - 1].time, |out| - 1;
    LineKept(values, p, v);
    SeparatedAscends(d, 0, |d| - 1);
    hide Deduplicated, SortByTime, Sampled, Separated, StaysInside, Affine;
    LineIsHeld(values, step, out, p, v);
    InsideMeans(d, step, out);
    ResamplingGapped(d, step, out);
    EndOfGrid(d, step, out);
    hide GridTime, IsGrid;
    forall k | 0 <= k < last
      ensures out[k].value == Affine(p, v, out[k].time)
    {
      assert out[k].time + step <= out[last].time;
    }
  }
}
