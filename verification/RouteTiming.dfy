/** Timed piecewise-linear routes: knot times and the position at a time. */
module RouteTiming {
  import opened Vectors

  const DEGENERATE_LENGTH: real := 1e-12

  datatype Route = Route(
    roleId: string, points: seq<Vector3>, start: real, duration: real, segmentDurations: seq<real>)

  /** What every admitted candidate route satisfies. */
  predicate ValidRoute(r: Route) {
    && 2 <= |r.points|
    && 0.0 <= r.start
    && 0.0 < r.duration
    && (r.segmentDurations == [] || |r.segmentDurations| == |r.points| - 1)
    && forall i :: 0 <= i < |r.segmentDurations| ==> 0.0 < r.segmentDurations[i]
  }

  function Sum(s: seq<real>): real {
    if s == [] then 0.0 else Sum(s[..|s| - 1]) + s[|s| - 1]
  }

  function Lengths(root: real -> real, points: seq<Vector3>): seq<real>
    requires 1 <= |points|
  {
    seq(|points| - 1, i requires 0 <= i < |points| - 1 => Distance(root, points[i], points[i + 1]))
  }

  function Durations(root: real -> real, r: Route): seq<real>
    requires ValidRoute(r)
  {
    if r.segmentDurations != [] then r.segmentDurations
    else Apportion(r.duration, Lengths(root, r.points))
  }

  /** Without authored leg times the duration is shared by length, or evenly when there is none. */
  function Apportion(duration: real, lengths: seq<real>): seq<real> {
    var total := Sum(lengths);
    if total <= DEGENERATE_LENGTH then EvenShares(duration, |lengths|)
    else LengthShares(duration, lengths, total)
  }

  function EvenShares(duration: real, n: nat): seq<real> {
    if n == 0 then [] else seq(n, i => duration / (n as real))
  }

  function LengthShares(duration: real, lengths: seq<real>, total: real): seq<real>
    requires total != 0.0
  {
    seq(|lengths|, i requires 0 <= i < |lengths| => ShareOf(duration, lengths[i], total))
  }

  function ShareOf(duration: real, length: real, total: real): real
    requires total != 0.0
  {
    duration * length / total
  }

  function Accumulate(start: real, ds: seq<real>): (times: seq<real>)
    ensures |times| == |ds| + 1
  {
    if ds == [] then [start]
    else
      var before := Accumulate(start, ds[..|ds| - 1]);
      before + [before[|ds| - 1] + ds[|ds| - 1]]
  }

  function KnotTimes(root: real -> real, r: Route): seq<real>
    requires ValidRoute(r)
  {
    Accumulate(r.start, Durations(root, r))
  }

  lemma {:induction false} AccumulateSteps(start: real, ds: seq<real>)
    ensures Accumulate(start, ds)[0] == start
    ensures forall i :: 0 <= i < |ds| ==> Accumulate(start, ds)[i + 1] == Accumulate(start, ds)[i] + ds[i]
  {
    if ds != [] {
      AccumulateSteps(start, ds[..|ds| - 1]);
    }
  }

  /** A route with its knots placed on the time axis. */
  datatype Path = Path(points: seq<Vector3>, times: seq<real>) {
    function First(): real requires times != [] { times[0] }

    function Last(): real requires times != [] { times[|times| - 1] }
  }

  /** Times never decrease, and where two neighbouring knots share an instant they share a point. */
  predicate ValidPath(p: Path) {
    && 2 <= |p.points| == |p.times|
    && (forall i :: 0 <= i < |p.times| - 1 ==> p.times[i] <= p.times[i + 1])
    && (forall i :: 0 <= i < |p.times| - 1 && p.times[i] == p.times[i + 1] ==> p.points[i] == p.points[i + 1])
  }

  function PathOf(root: real -> real, r: Route): Path
    requires ValidRoute(r)
  {
    Path(r.points, KnotTimes(root, r))
  }

  function PositionFrom(p: Path, t: real, i: nat): Vector3
    requires |p.points| == |p.times|
    requires i < |p.times|
    requires p.times[i] < t
    decreases |p.times| - i
  {
    if i + 1 == |p.times| then p.points[i]
    else if t <= p.times[i + 1] then OnLeg(p, i, t)
    else PositionFrom(p, t, i + 1)
  }

  /** Linear motion along leg i. */
  function OnLeg(p: Path, i: nat, t: real): Vector3
    requires |p.points| == |p.times|
    requires i + 1 < |p.times|
    requires p.times[i] < p.times[i + 1]
  {
    Lerp(p.points[i], p.points[i + 1], (t - p.times[i]) / (p.times[i + 1] - p.times[i]))
  }

  /** The position of a route at a time, held before its first and after its last knot. */
  function Position(p: Path, t: real): Vector3
    requires 2 <= |p.points| == |p.times|
  {
    if t <= p.First() then p.points[0]
    else if p.Last() <= t then p.points[|p.points| - 1]
    else PositionFrom(p, t, 0)
  }

  lemma {:induction false} SumNonNegative(s: seq<real>)
    requires forall i :: 0 <= i < |s| ==> 0.0 <= s[i]
    ensures 0.0 <= Sum(s)
    ensures forall i :: 0 <= i < |s| ==> s[i] <= Sum(s)
  {
    if s != [] {
      SumNonNegative(s[..|s| - 1]);
      assert forall i :: 0 <= i < |s| - 1 ==> s[..|s| - 1][i] == s[i];
    }
  }

  lemma {:induction false} SumPositiveTerm(s: seq<real>) returns (k: nat)
    requires 0.0 < Sum(s)
    ensures k < |s| && 0.0 < s[k]
  {
    if 0.0 < s[|s| - 1] {
      k := |s| - 1;
    } else {
      k := SumPositiveTerm(s[..|s| - 1]);
    }
  }

  lemma LengthNonNegative(root: real -> real, points: seq<Vector3>)
    requires IsRoot(root) && 1 <= |points|
    ensures var lengths := Lengths(root, points); forall i :: 0 <= i < |lengths| ==> 0.0 <= lengths[i]
  {
    var lengths := Lengths(root, points);
    forall i | 0 <= i < |lengths|
      ensures 0.0 <= lengths[i]
    {
      NormIsRoot(root, Subtract(points[i], points[i + 1]));
    }
  }

  lemma ZeroLengthStays(root: real -> real, points: seq<Vector3>, i: nat)
    requires IsRoot(root) && i + 1 < |points|
    requires Lengths(root, points)[i] == 0.0
    ensures points[i] == points[i + 1]
  {
    ZeroDistance(root, points[i], points[i + 1]);
  }

  lemma DivideBack(x: real, w: real)
    requires w != 0.0
    ensures (x * w) / w == x
  {
  }

  lemma Quotient(a: real, b: real)
    requires 0.0 <= a && 0.0 < b
    ensures 0.0 <= a / b
    ensures a / b == 0.0 <==> a == 0.0
    ensures a <= b ==> a / b <= 1.0
  {
    var q := a / b;
    assert q * b == a;
    if q < 0.0 { ProductPositive(-q, b); }
    if 1.0 < q { ProductPositive(q - 1.0, b); }
  }

  lemma Share(duration: real, length: real, total: real)
    requires 0.0 < duration && 0.0 <= length && 0.0 < total
    ensures 0.0 <= duration * length / total
    ensures duration * length / total == 0.0 <==> length == 0.0
  {
    if 0.0 < length { ProductPositive(duration, length); }
    Quotient(duration * length, total);
  }

  /** Every leg takes time unless it goes nowhere, and some leg takes time. */
  lemma DurationsFit(root: real -> real, r: Route) returns (k: nat)
    requires IsRoot(root) && ValidRoute(r)
    ensures var ds := Durations(root, r);
      && |ds| == |r.points| - 1
      && (forall i :: 0 <= i < |ds| ==> 0.0 <= ds[i] && (ds[i] == 0.0 ==> r.points[i] == r.points[i + 1]))
      && k < |ds| && 0.0 < ds[k]
  {
    k := 0;
    if r.segmentDurations == [] {
      k := ComputedDurationsFit(root, r);
    }
  }

  lemma ComputedDurationsFit(root: real -> real, r: Route) returns (k: nat)
    requires IsRoot(root) && ValidRoute(r) && r.segmentDurations == []
    ensures var ds := Durations(root, r);
      && |ds| == |r.points| - 1
      && (forall i :: 0 <= i < |ds| ==> 0.0 <= ds[i] && (ds[i] == 0.0 ==> r.points[i] == r.points[i + 1]))
      && k < |ds| && 0.0 < ds[k]
  {
    LengthNonNegative(root, r.points);
    k := ApportionFits(r.duration, Lengths(root, r.points));
    forall i | 0 <= i < |r.points| - 1
      ensures Durations(root, r)[i] == 0.0 ==> r.points[i] == r.points[i + 1]
    {
      if Durations(root, r)[i] == 0.0 { ZeroLengthStays(root, r.points, i); }
    }
  }

  lemma ApportionFits(duration: real, lengths: seq<real>) returns (k: nat)
    requires 0.0 < duration && lengths != []
    requires forall i :: 0 <= i < |lengths| ==> 0.0 <= lengths[i]
    ensures var ds := Apportion(duration, lengths);
      && |ds| == |lengths|
      && (forall i :: 0 <= i < |ds| ==> 0.0 <= ds[i] && (ds[i] == 0.0 ==> lengths[i] == 0.0))
      && k < |ds| && 0.0 < ds[k]
  {
    var total := Sum(lengths);
    if total <= DEGENERATE_LENGTH {
      Quotient(duration, |lengths| as real);
      k := 0;
    } else {
      k := SumPositiveTerm(lengths);
      forall i | 0 <= i < |lengths|
        ensures 0.0 <= duration * lengths[i] / total
        ensures duration * lengths[i] / total == 0.0 <==> lengths[i] == 0.0
      {
        Share(duration, lengths[i], total);
      }
    }
  }

  /** Both branches of the timing rule give a path whose knots are in order, whose only instantaneous
      legs go nowhere, and which ends later than it starts. */
  lemma RouteIsPath(root: real -> real, r: Route)
    requires IsRoot(root) && ValidRoute(r)
    ensures ValidPath(PathOf(root, r))
    ensures PathOf(root, r).First() == r.start < PathOf(root, r).Last()
  {
    var k := DurationsFit(root, r);
    AccumulateSteps(r.start, Durations(root, r));
    var p := PathOf(root, r);
    Monotone(p, 0, k);
    Monotone(p, k + 1, |p.times| - 1);
  }

  // ----- when a route ends -----

  lemma {:induction false} LastIsSum(start: real, ds: seq<real>)
    ensures Accumulate(start, ds)[|ds|] == start + Sum(ds)
  {
    if ds != [] { LastIsSum(start, ds[..|ds| - 1]); }
  }

  lemma {:induction false} SumOfEqual(s: seq<real>, share: real)
    requires forall i :: 0 <= i < |s| ==> s[i] == share
    ensures Sum(s) == |s| as real * share
  {
    if s != [] { SumOfEqual(s[..|s| - 1], share); }
  }

  /** Shares that add up to `sum` are the duration's part for these lengths. */
  ghost predicate IsPart(sum: real, duration: real, lengths: real, total: real) { sum * total == duration * lengths }

  lemma NextShare(sum: real, duration: real, lengths: real, total: real, length: real, all: real)
    requires total != 0.0 && IsPart(sum, duration, lengths, total) && all == lengths + length
    ensures IsPart(sum + ShareOf(duration, length, total), duration, all, total)
  {
    QuotientBack(duration * length, total);
  }

  lemma {:induction false} SumOfShares(duration: real, lengths: seq<real>, total: real)
    requires total != 0.0
    ensures IsPart(Sum(LengthShares(duration, lengths, total)), duration, Sum(lengths), total)
  {
    if lengths != [] {
      hide IsPart, ShareOf;
      var n := |lengths| - 1;
      SumOfShares(duration, lengths[..n], total);
      var shares := LengthShares(duration, lengths, total);
      assert shares[..n] == LengthShares(duration, lengths[..n], total);
      NextShare(Sum(shares[..n]), duration, Sum(lengths[..n]), total, lengths[n], Sum(lengths));
    }
  }

  lemma WholePart(sum: real, duration: real, total: real)
    requires total != 0.0 && IsPart(sum, duration, total, total)
    ensures sum == duration
  {
    if sum != duration { EqualMultiples(total, sum, duration); }
  }

  /** The apportioned leg times add up to the duration. */
  lemma SharesFill(duration: real, lengths: seq<real>)
    requires lengths != []
    ensures Sum(Apportion(duration, lengths)) == duration
  {
    hide IsPart;
    var total, n := Sum(lengths), |lengths|;
    if total <= DEGENERATE_LENGTH {
      SumOfEqual(EvenShares(duration, n), duration / n as real);
      QuotientBack(duration, n as real);
    } else {
      SumOfShares(duration, lengths, total);
      WholePart(Sum(LengthShares(duration, lengths, total)), duration, total);
    }
  }

  /** The leg times, when given, add up to the declared duration. */
  predicate DurationsAgree(r: Route) {
    r.segmentDurations == [] || Sum(r.segmentDurations) == r.duration
  }

  /** When a route really ends: after its leg times, or after its duration when there are none. */
  function FlownEnd(r: Route): real {
    r.start + (if r.segmentDurations == [] then r.duration else Sum(r.segmentDurations))
  }

  lemma FlownFromTo(root: real -> real, r: Route)
    requires ValidRoute(r)
    ensures PathOf(root, r).First() == r.start && PathOf(root, r).Last() == FlownEnd(r)
  {
    AccumulateSteps(r.start, Durations(root, r));
    LastIsSum(r.start, Durations(root, r));
    if r.segmentDurations == [] { SharesFill(r.duration, Lengths(root, r.points)); }
  }

  /** A route is flown for its declared duration exactly when its leg times agree with it. */
  lemma EndsWhenDeclared(root: real -> real, r: Route)
    requires ValidRoute(r)
    ensures PathOf(root, r).Last() == r.start + r.duration <==> DurationsAgree(r)
  {
    FlownFromTo(root, r);
  }

  // ----- how time is shared among the legs -----

  /** The time a leg takes: the authored one; without authored times in proportion to its length, so that the whole flight
      has one speed; and the same for every leg of a route of no length. */
  ghost predicate LegTakes(root: real -> real, r: Route, i: nat, time: real)
    requires ValidRoute(r) && i + 1 < |r.points|
  {
    var total := Sum(Lengths(root, r.points));
    if r.segmentDurations != [] then time == r.segmentDurations[i]
    else if total <= 1e-12 then IsPart(time, r.duration, 1.0, (|r.points| - 1) as real)
    else IsPart(time, r.duration, Distance(root, r.points[i], r.points[i + 1]), total)
  }

  /** Knot times start at the route's start and are the leg times apart. */
  ghost predicate TimedAs(root: real -> real, r: Route, times: seq<real>)
    requires ValidRoute(r)
  {
    && |times| == |r.points| && times[0] == r.start
    && forall i :: 0 <= i < |r.points| - 1 ==> LegTakes(root, r, i, times[i + 1] - times[i])
  }

  lemma DurationTakes(root: real -> real, r: Route, i: nat)
    requires ValidRoute(r) && i + 1 < |r.points|
    ensures |Durations(root, r)| == |r.points| - 1 && LegTakes(root, r, i, Durations(root, r)[i])
  {
    if r.segmentDurations == [] {
      var total, n := Sum(Lengths(root, r.points)), |r.points| - 1;
      if total <= 1e-12 {
        QuotientBack(r.duration, n as real);
      } else {
        QuotientBack(r.duration * Lengths(root, r.points)[i], total);
      }
    }
  }

  /** One speed throughout: the knot times are the ones the leg lengths ask for. */
  lemma KnotsTimed(root: real -> real, r: Route)
    requires ValidRoute(r)
    ensures TimedAs(root, r, KnotTimes(root, r))
  {
    var ds, times := Durations(root, r), KnotTimes(root, r);
    DurationTakes(root, r, 0);
    AccumulateSteps(r.start, ds);
    hide LegTakes, Durations, Accumulate;
    forall i | 0 <= i < |r.points| - 1 ensures LegTakes(root, r, i, times[i + 1] - times[i]) {
      DurationTakes(root, r, i);
      assert times[i + 1] - times[i] == ds[i];
    }
  }

  /** And no other times are. */
  lemma {:induction false} TimingUnique(root: real -> real, r: Route, times: seq<real>, other: seq<real>, k: nat)
    requires ValidRoute(r) && TimedAs(root, r, times) && TimedAs(root, r, other) && k < |r.points|
    ensures times[k] == other[k]
  {
    if 0 < k {
      TimingUnique(root, r, times, other, k - 1);
      LegTimeUnique(root, r, k - 1, times[k] - times[k - 1], other[k] - other[k - 1]);
    }
  }

  lemma LegTimeUnique(root: real -> real, r: Route, i: nat, x: real, y: real)
    requires ValidRoute(r) && i + 1 < |r.points| && LegTakes(root, r, i, x) && LegTakes(root, r, i, y)
    ensures x == y
  {
    var total := Sum(Lengths(root, r.points));
    if r.segmentDurations == [] && x != y {
      EqualMultiples(if total <= 1e-12 then (|r.points| - 1) as real else total, x, y);
    }
  }

  method RouteKnotTimes(root: real -> real, r: Route) returns (output: seq<real>)
    requires ValidRoute(r)
    ensures output == KnotTimes(root, r) && TimedAs(root, r, output)
  {
    var durations := Durations(root, r);
    output := [r.start];
    for i := 0 to |durations|
      invariant output == Accumulate(r.start, durations[..i])
    {
      output := output + [output[|output| - 1] + durations[i]];
      assert durations[..i + 1][..i] == durations[..i];
    }
    assert durations[..|durations|] == durations;
    KnotsTimed(root, r);
  }

  lemma {:induction false} Monotone(p: Path, i: nat, j: nat)
    requires ValidPath(p) && i <= j < |p.times|
    ensures p.times[i] <= p.times[j]
    ensures p.times[i] == p.times[j] ==> p.points[i] == p.points[j]
    decreases j - i
  {
    if i < j {
      Monotone(p, i, j - 1);
    }
  }

  lemma {:induction false} ScanFinds(p: Path, t: real, from: nat, i: nat)
    requires ValidPath(p) && from <= i && i + 1 < |p.times|
    requires p.times[from] <= p.times[i] < t <= p.times[i + 1]
    ensures PositionFrom(p, t, from) == OnLeg(p, i, t)
    decreases i - from
  {
    if from < i {
      Monotone(p, from + 1, i);
      ScanFinds(p, t, from + 1, i);
    }
  }

  lemma LerpEnds(a: Vector3, b: Vector3)
    ensures Lerp(a, b, 0.0) == a && Lerp(a, b, 1.0) == b
  {
  }

  /** Strictly after knot i and up to knot i+1 the route is on leg i. */
  lemma OnLegBetween(p: Path, i: nat, t: real)
    requires ValidPath(p) && i + 1 < |p.times|
    requires p.times[i] < t <= p.times[i + 1]
    ensures Position(p, t) == OnLeg(p, i, t)
  {
    Monotone(p, 0, i);
    Monotone(p, i + 1, |p.times| - 1);
    if t < p.Last() {
      ScanFinds(p, t, 0, i);
    } else {
      DivideBack(1.0, p.times[i + 1] - p.times[i]);
      LerpEnds(p.points[i], p.points[i + 1]);
    }
  }

  /** A route is at each of its points at that point's knot time. */
  lemma {:induction false} KnotHit(p: Path, i: nat)
    requires ValidPath(p) && i < |p.times|
    ensures Position(p, p.times[i]) == p.points[i]
  {
    Monotone(p, 0, i);
    if p.times[0] < p.times[i] {
      if p.times[i - 1] == p.times[i] {
        KnotHit(p, i - 1);
      } else {
        OnLegBetween(p, i - 1, p.times[i]);
        DivideBack(1.0, p.times[i] - p.times[i - 1]);
        LerpEnds(p.points[i - 1], p.points[i]);
      }
    }
  }

  /** The leg a time lies on. */
  lemma FindLeg(p: Path, t: real) returns (i: nat)
    requires ValidPath(p) && p.First() <= t < p.Last()
    ensures i + 1 < |p.times| && p.times[i] <= t < p.times[i + 1]
  {
    i := 0;
    while p.times[i + 1] <= t
      invariant i + 1 < |p.times| && p.times[i] <= t
      decreases |p.times| - i
    {
      i := i + 1;
    }
  }

  /** No knot of `p` lies strictly between `a` and `b`. */
  predicate NoKnotInside(p: Path, a: real, b: real) {
    forall i :: 0 <= i < |p.times| ==> p.times[i] <= a || b <= p.times[i]
  }

  lemma MixAffine(a: real, b: real, fa: real, fb: real, g: real)
    ensures Mix(a, b, Mix(fa, fb, g)) == Mix(Mix(a, b, fa), Mix(a, b, fb), g)
  {
    var d := b - a;
    assert d * (fa + (fb - fa) * g) == d * fa + (d * fb - d * fa) * g;
  }

  lemma LerpAffine(a: Vector3, b: Vector3, fa: real, fb: real, g: real)
    ensures Lerp(a, b, Mix(fa, fb, g)) == Lerp(Lerp(a, b, fa), Lerp(a, b, fb), g)
  {
    MixAffine(a.x, b.x, fa, fb, g);
    MixAffine(a.y, b.y, fa, fb, g);
    MixAffine(a.z, b.z, fa, fb, g);
  }

  /** Motion along one leg is affine in time. */
  lemma OnLegAffine(p: Path, i: nat, a: real, b: real, f: real)
    requires |p.points| == |p.times| && i + 1 < |p.times| && p.times[i] < p.times[i + 1]
    ensures OnLeg(p, i, Mix(a, b, f)) == Lerp(OnLeg(p, i, a), OnLeg(p, i, b), f)
  {
    var s, w := p.times[i], p.times[i + 1] - p.times[i];
    var fa, fb := (a - s) / w, (b - s) / w;
    MixQuotient(a - s, b - s, w, f);
    assert Mix(a - s, b - s, f) == Mix(a, b, f) - s;
    LerpAffine(p.points[i], p.points[i + 1], fa, fb, f);
  }

  lemma MixQuotient(a: real, b: real, w: real, f: real)
    requires w != 0.0
    ensures Mix(a, b, f) / w == Mix(a / w, b / w, f)
  {
    var fa, fb := a / w, b / w;
    assert fa * w == a && fb * w == b;
    assert (fa + (fb - fa) * f) * w == fa * w + (fb * w - fa * w) * f;
    DivideBack(Mix(fa, fb, f), w);
  }

  lemma OnLegFrom(p: Path, i: nat, t: real)
    requires ValidPath(p) && i + 1 < |p.times| && p.times[i] < p.times[i + 1]
    requires p.times[i] <= t <= p.times[i + 1]
    ensures Position(p, t) == OnLeg(p, i, t)
  {
    if p.times[i] < t {
      OnLegBetween(p, i, t);
    } else {
      KnotHit(p, i);
      DivideBack(0.0, p.times[i + 1] - p.times[i]);
      LerpEnds(p.points[i], p.points[i + 1]);
    }
  }

  /** Between neighbouring breakpoints a route moves along one straight line at one speed. */
  lemma AffineBetween(p: Path, a: real, b: real, f: real)
    requires ValidPath(p) && a < b && 0.0 <= f <= 1.0
    requires NoKnotInside(p, a, b)
    ensures Position(p, Mix(a, b, f)) == Lerp(Position(p, a), Position(p, b), f)
  {
    MixBetween(a, b, f, a, b);
    if p.First() < b && a < p.Last() {
      assert p.times[0] <= a;
      var i := FindLeg(p, a);
      assert b <= p.times[i + 1];
      OnLegFrom(p, i, a);
      OnLegFrom(p, i, b);
      OnLegFrom(p, i, Mix(a, b, f));
      OnLegAffine(p, i, a, b, f);
    } else {
      LerpSame(Position(p, a), f);
      if b <= p.First() {
        assert Position(p, Mix(a, b, f)) == p.points[0];
      } else {
        HeldAfter(p, Mix(a, b, f));
        HeldAfter(p, a);
        HeldAfter(p, b);
      }
    }
  }

  lemma LerpSame(a: Vector3, f: real)
    ensures Lerp(a, a, f) == a
  {
  }

  lemma HeldAfter(p: Path, t: real)
    requires ValidPath(p) && p.Last() <= t
    ensures Position(p, t) == p.points[|p.points| - 1]
  {
    Monotone(p, 0, |p.times| - 1);
  }

  /** At every instant a route is on one of its legs. */
  lemma PositionOnSomeLeg(p: Path, t: real) returns (i: nat, f: real)
    requires ValidPath(p)
    ensures i + 1 < |p.points| && 0.0 <= f <= 1.0
    ensures Position(p, t) == Lerp(p.points[i], p.points[i + 1], f)
  {
    if t <= p.First() {
      i, f := 0, 0.0;
    } else if p.Last() <= t {
      i, f := |p.points| - 2, 1.0;
    } else {
      i := FindLeg(p, t);
      f := (t - p.times[i]) / (p.times[i + 1] - p.times[i]);
      Quotient(t - p.times[i], p.times[i + 1] - p.times[i]);
      OnLegFrom(p, i, t);
    }
    LerpEnds(p.points[i], p.points[i + 1]);
  }

  /** Every point of every leg is visited at some instant. */
  lemma LegIsFlown(p: Path, i: nat, f: real) returns (t: real)
    requires ValidPath(p) && i + 1 < |p.points| && 0.0 <= f <= 1.0
    ensures Position(p, t) == Lerp(p.points[i], p.points[i + 1], f)
  {
    t := Mix(p.times[i], p.times[i + 1], f);
    KnotHit(p, i);
    KnotHit(p, i + 1);
    if p.times[i] < p.times[i + 1] {
      forall j | 0 <= j < |p.times|
        ensures p.times[j] <= p.times[i] || p.times[i + 1] <= p.times[j]
      {
        if j <= i { Monotone(p, j, i); } else { Monotone(p, i + 1, j); }
      }
      AffineBetween(p, p.times[i], p.times[i + 1], f);
    } else {
      assert t == p.times[i];
      LerpSame(p.points[i], f);
    }
  }
}
