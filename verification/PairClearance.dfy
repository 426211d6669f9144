/** The smallest distance between two routes over all time, from finitely many intervals. */
module PairClearance {
  import opened Wrappers
  import opened Vectors
  import opened RouteTiming

  const DEGENERATE_SQUARE: real := 1e-18
  const TOLERANCE: real := 1e-9

  ghost predicate StrictlyAscending(s: seq<real>) {
    forall i, j :: 0 <= i < j < |s| ==> s[i] < s[j]
  }

  function Insert(x: real, s: seq<real>): (r: seq<real>)
    requires StrictlyAscending(s)
    ensures StrictlyAscending(r)
    ensures forall y :: y in r <==> y == x || y in s
  {
    if s == [] then [x]
    else if x < s[0] then [x] + s
    else if x == s[0] then s
    else
      var rest := Insert(x, s[1..]);
      assert forall y :: y in s <==> y == s[0] || y in s[1..];
      assert forall i :: 0 <= i < |rest| ==> rest[i] in rest;
      [s[0]] + rest
  }

  /** The distinct values of a sequence in increasing order. */
  function SortedSet(s: seq<real>): (r: seq<real>)
    ensures StrictlyAscending(r)
    ensures forall y :: y in r <==> y in s
  {
    if s == [] then [] else Insert(s[0], SortedSet(s[1..]))
  }

  /** Centre distance of two routes at one instant. */
  function Separation(root: real -> real, p: Path, q: Path, t: real): real
    requires 2 <= |p.points| == |p.times|
    requires 2 <= |q.points| == |q.times|
  {
    Distance(root, Position(p, t), Position(q, t))
  }

  function Clamp(v: real): real { Max(0.0, Min(1.0, v)) }

  /** Where on an interval two uniformly moving points are closest, given their relative start and change. */
  function ClosestFraction(start: Vector3, delta: Vector3): real {
    if Dot(delta, delta) <= DEGENERATE_SQUARE then 0.0
    else Clamp(-Dot(start, delta) / Dot(delta, delta))
  }

  function Along(start: Vector3, delta: Vector3, f: real): Vector3 { Add(start, Scale(delta, f)) }

  lemma AlongSquare(start: Vector3, delta: Vector3, f: real)
    ensures Dot(Along(start, delta, f), Along(start, delta, f))
         == Dot(start, start) + 2.0 * Dot(start, delta) * f + Dot(delta, delta) * (f * f)
  {
    AxisSquare(start.x, delta.x, f);
    AxisSquare(start.y, delta.y, f);
    AxisSquare(start.z, delta.z, f);
    var d := delta;
    assert Dot(d, d) * (f * f) == (d.x * d.x) * (f * f) + (d.y * d.y) * (f * f) + (d.z * d.z) * (f * f);
    assert 2.0 * Dot(start, d) * f == 2.0 * (start.x * d.x) * f + 2.0 * (start.y * d.y) * f + 2.0 * (start.z * d.z) * f;
  }

  lemma AxisSquare(s: real, d: real, f: real)
    ensures (s + d * f) * (s + d * f) == s * s + 2.0 * (s * d) * f + (d * d) * (f * f)
  {
  }

  /** The clamped vertex of a parabola is its lowest point on the unit interval. */
  lemma ClampedVertex(a: real, b: real, u: real)
    requires 0.0 < a && 0.0 <= u <= 1.0
    ensures var f := Clamp(-b / a); 2.0 * b * f + a * (f * f) <= 2.0 * b * u + a * (u * u)
  {
    var v := -b / a;
    var f := Clamp(v);
    assert a * v == -b;
    SquareNonNegative(u - f);
    ProductNonNegative(a, (u - f) * (u - f));
    if v < 0.0 {
      ProductNonNegative(u, -v);
    } else if 1.0 < v {
      ProductNonNegative(1.0 - u, v - 1.0);
    }
    assert 0.0 <= (u - f) * (f - v);
    ProductNonNegative(a, (u - f) * (f - v));
    VertexForm(a, u, f, v);
    assert 2.0 * (a * v) * u == -(2.0 * b * u);
    assert 2.0 * (a * v) * f == -(2.0 * b * f);
  }

  lemma VertexForm(a: real, u: real, f: real, v: real)
    ensures a * (u * u) - 2.0 * (a * v) * u - (a * (f * f) - 2.0 * (a * v) * f)
         == a * ((u - f) * (u - f)) + 2.0 * (a * ((u - f) * (f - v)))
  {
  }

  /** The chosen fraction is within a nanometre of best, and best outright when the relative motion
      is not degenerate. */
  lemma ClosestFractionBest(root: real -> real, start: Vector3, delta: Vector3, u: real)
    requires IsRoot(root) && 0.0 <= u <= 1.0
    ensures var f := ClosestFraction(start, delta);
      && 0.0 <= f <= 1.0
      && Norm(root, Along(start, delta, f)) <= Norm(root, Along(start, delta, u)) + 1e-9
      && (1e-18 < Dot(delta, delta) ==>
          Norm(root, Along(start, delta, f)) <= Norm(root, Along(start, delta, u)))
  {
    var f := ClosestFraction(start, delta);
    if Dot(delta, delta) <= DEGENERATE_SQUARE {
      NearlyStill(root, start, delta, u);
    } else {
      AlongSquare(start, delta, f);
      AlongSquare(start, delta, u);
      ClampedVertex(Dot(delta, delta), Dot(start, delta), u);
      NormMonotone(root, Along(start, delta, f), Along(start, delta, u));
    }
  }

  lemma NearlyStill(root: real -> real, start: Vector3, delta: Vector3, u: real)
    requires IsRoot(root) && 0.0 <= u <= 1.0
    requires Dot(delta, delta) <= DEGENERATE_SQUARE
    ensures Norm(root, Along(start, delta, 0.0)) <= Norm(root, Along(start, delta, u)) + 1e-9
  {
    SmallStep(root, delta, u);
    Triangle(root, Along(start, delta, u), Scale(delta, -u));
    AlongAndBack(start, delta, u);
  }

  lemma SmallStep(root: real -> real, delta: Vector3, u: real)
    requires IsRoot(root) && 0.0 <= u <= 1.0
    requires Dot(delta, delta) <= DEGENERATE_SQUARE
    ensures Norm(root, Scale(delta, -u)) <= TOLERANCE
  {
    assert DEGENERATE_SQUARE == TOLERANCE * TOLERANCE;
    NormAtMost(root, delta, TOLERANCE);
    var n := Norm(root, delta);
    NormScaled(root, delta, -u, u);
    FractionOf(u, n);
    assert Norm(root, Scale(delta, -u)) == u * n;
  }

  lemma AlongAndBack(start: Vector3, delta: Vector3, u: real)
    ensures Add(Along(start, delta, u), Scale(delta, -u)) == Along(start, delta, 0.0)
  {
    assert delta.x * -u == -(delta.x * u);
    assert delta.y * -u == -(delta.y * u);
    assert delta.z * -u == -(delta.z * u);
  }

  lemma RelativeMotion(pa: Vector3, pb: Vector3, qa: Vector3, qb: Vector3, start: Vector3, delta: Vector3, f: real)
    requires start == Subtract(pa, qa)
    requires delta == Subtract(Subtract(pb, qb), start)
    ensures Subtract(Lerp(pa, pb, f), Lerp(qa, qb, f)) == Along(start, delta, f)
  {
    var moved := Subtract(Lerp(pa, pb, f), Lerp(qa, qb, f));
    assert moved.x == Along(start, delta, f).x by { MixDifference(pa.x, pb.x, qa.x, qb.x, start.x, delta.x, f); }
    assert moved.y == Along(start, delta, f).y by { MixDifference(pa.y, pb.y, qa.y, qb.y, start.y, delta.y, f); }
    assert moved.z == Along(start, delta, f).z by { MixDifference(pa.z, pb.z, qa.z, qb.z, start.z, delta.z, f); }
  }

  lemma MixDifference(a: real, b: real, c: real, d: real, start: real, delta: real, f: real)
    requires start == a - c && delta == b - d - start
    ensures Mix(a, b, f) - Mix(c, d, f) == start + delta * f
  {
  }

  function RelativeStart(p: Path, q: Path, a: real): Vector3
    requires 2 <= |p.points| == |p.times| && 2 <= |q.points| == |q.times|
  {
    Subtract(Position(p, a), Position(q, a))
  }

  /** The value computed for one interval between breakpoints. */
  function IntervalMinimum(root: real -> real, p: Path, q: Path, a: real, b: real): real
    requires 2 <= |p.points| == |p.times| && 2 <= |q.points| == |q.times|
  {
    var start := RelativeStart(p, q, a);
    var delta := Subtract(RelativeStart(p, q, b), start);
    Norm(root, Along(start, delta, ClosestFraction(start, delta)))
  }

  lemma SeparationAlong(root: real -> real, p: Path, q: Path, a: real, b: real, f: real)
    requires IsRoot(root) && ValidPath(p) && ValidPath(q)
    requires a < b && NoKnotInside(p, a, b) && NoKnotInside(q, a, b)
    requires 0.0 <= f <= 1.0
    ensures var start := RelativeStart(p, q, a);
      Separation(root, p, q, Mix(a, b, f))
      == Norm(root, Along(start, Subtract(RelativeStart(p, q, b), start), f))
  {
    AffineBetween(p, a, b, f);
    AffineBetween(q, a, b, f);
    var start := RelativeStart(p, q, a);
    RelativeMotion(Position(p, a), Position(p, b), Position(q, a), Position(q, b),
                   start, Subtract(RelativeStart(p, q, b), start), f);
  }

  /** The interval's value is reached inside it, and nothing inside it is lower by more than a nanometre. */
  lemma IntervalSound(root: real -> real, p: Path, q: Path, a: real, b: real)
    requires IsRoot(root) && ValidPath(p) && ValidPath(q)
    requires a < b && NoKnotInside(p, a, b) && NoKnotInside(q, a, b)
    ensures exists t :: a <= t <= b && Separation(root, p, q, t) == IntervalMinimum(root, p, q, a, b)
    ensures forall t :: a <= t <= b ==> IntervalMinimum(root, p, q, a, b) <= Separation(root, p, q, t) + 1e-9
  {
    var start := RelativeStart(p, q, a);
    var delta := Subtract(RelativeStart(p, q, b), start);
    var f := ClosestFraction(start, delta);
    ClosestFractionBest(root, start, delta, 0.0);
    SeparationAlong(root, p, q, a, b, f);
    MixBetween(a, b, f, a, b);
    assert Separation(root, p, q, Mix(a, b, f)) == IntervalMinimum(root, p, q, a, b);
    forall t | a <= t <= b
      ensures IntervalMinimum(root, p, q, a, b) <= Separation(root, p, q, t) + 1e-9
    {
      IntervalLower(root, p, q, a, b, t);
    }
  }

  lemma IntervalLower(root: real -> real, p: Path, q: Path, a: real, b: real, t: real)
    requires IsRoot(root) && ValidPath(p) && ValidPath(q)
    requires a < b && NoKnotInside(p, a, b) && NoKnotInside(q, a, b)
    requires a <= t <= b
    ensures IntervalMinimum(root, p, q, a, b) <= Separation(root, p, q, t) + 1e-9
  {
    var start := RelativeStart(p, q, a);
    var u := (t - a) / (b - a);
    Quotient(t - a, b - a);
    assert Mix(a, b, u) == t by {
      assert u * (b - a) == t - a;
    }
    SeparationAlong(root, p, q, a, b, u);
    ClosestFractionBest(root, start, Subtract(RelativeStart(p, q, b), start), u);
  }

  function Breakpoints(p: Path, q: Path): seq<real>
    requires p.times != [] && q.times != []
  {
    SortedSet([0.0] + p.times + q.times + [Max(p.Last(), q.Last())])
  }

  lemma BreakpointsSplit(p: Path, q: Path)
    requires ValidPath(p) && ValidPath(q)
    requires 0.0 < p.Last()
    ensures var bp := Breakpoints(p, q);
      && 2 <= |bp| && StrictlyAscending(bp)
      && (forall i :: 0 <= i < |bp| - 1 ==> NoKnotInside(p, bp[i], bp[i + 1]) && NoKnotInside(q, bp[i], bp[i + 1]))
      && bp[0] <= p.First() && bp[0] <= q.First()
      && p.Last() <= bp[|bp| - 1] && q.Last() <= bp[|bp| - 1]
  {
    var bp := Breakpoints(p, q);
    BreakpointMembers(p, q);
    MemberBounds(bp, p.First());
    MemberBounds(bp, q.First());
    MemberBounds(bp, p.Last());
    MemberBounds(bp, q.Last());
    MemberBounds(bp, 0.0);
    forall i | 0 <= i < |bp| - 1
      ensures NoKnotInside(p, bp[i], bp[i + 1]) && NoKnotInside(q, bp[i], bp[i + 1])
    {
      NothingBetween(bp, i);
    }
  }

  lemma BreakpointMembers(p: Path, q: Path)
    requires p.times != [] && q.times != []
    ensures 0.0 in Breakpoints(p, q)
    ensures forall i :: 0 <= i < |p.times| ==> p.times[i] in Breakpoints(p, q)
    ensures forall i :: 0 <= i < |q.times| ==> q.times[i] in Breakpoints(p, q)
  {
    var all := [0.0] + p.times + q.times + [Max(p.Last(), q.Last())];
    assert all[0] == 0.0;
    forall i | 0 <= i < |p.times|
      ensures p.times[i] in Breakpoints(p, q)
    {
      assert all[i + 1] == p.times[i];
    }
    forall i | 0 <= i < |q.times|
      ensures q.times[i] in Breakpoints(p, q)
    {
      assert all[|p.times| + i + 1] == q.times[i];
    }
  }

  lemma NothingBetween(bp: seq<real>, i: nat)
    requires StrictlyAscending(bp) && i + 1 < |bp|
    ensures forall x :: x in bp ==> x <= bp[i] || bp[i + 1] <= x
  {
    forall x | x in bp
      ensures x <= bp[i] || bp[i + 1] <= x
    {
      var k :| 0 <= k < |bp| && bp[k] == x;
    }
  }

  lemma MemberBounds(bp: seq<real>, x: real)
    requires StrictlyAscending(bp) && x in bp
    ensures bp[0] <= x <= bp[|bp| - 1]
  {
    var k :| 0 <= k < |bp| && bp[k] == x;
  }

  /** Outside the breakpoints both routes stand still. */
  lemma SeparationHeld(root: real -> real, p: Path, q: Path, low: real, high: real, t: real)
    requires ValidPath(p) && ValidPath(q)
    requires low <= p.First() && low <= q.First()
    requires p.Last() <= high && q.Last() <= high
    ensures t <= low ==> Separation(root, p, q, t) == Separation(root, p, q, low)
    ensures high <= t ==> Separation(root, p, q, t) == Separation(root, p, q, high)
  {
    if high <= t {
      HeldAfter(p, t);
      HeldAfter(q, t);
      HeldAfter(p, high);
      HeldAfter(q, high);
    }
  }

  /** Both directions at every real instant: the result is a distance the routes really have at some
      time, and at no time are they closer than the result less one nanometre. */
  method ContinuousRouteDistance(root: real -> real, first: Route, second: Route) returns (minimum: real)
    requires IsRoot(root) && ValidRoute(first) && ValidRoute(second)
    ensures exists t :: Separation(root, PathOf(root, first), PathOf(root, second), t) == minimum
    ensures forall t :: minimum - 1e-9 <= Separation(root, PathOf(root, first), PathOf(root, second), t)
  {
    var firstTimes := RouteKnotTimes(root, first);
    var secondTimes := RouteKnotTimes(root, second);
    var p, q := Path(first.points, firstTimes), Path(second.points, secondTimes);
    RouteIsPath(root, first);
    RouteIsPath(root, second);
    BreakpointsSplit(p, q);
    var bp := Breakpoints(p, q);
    var least: Option<real> := None;
    for i := 0 to |bp| - 1
      invariant least.Some? <==> 0 < i
      invariant 0 < i ==> exists t :: Separation(root, p, q, t) == least.value
      invariant 0 < i ==> forall t :: bp[0] <= t <= bp[i] ==> least.value - 1e-9 <= Separation(root, p, q, t)
    {
      var start := Subtract(Position(p, bp[i]), Position(q, bp[i]));
      var delta := Subtract(Subtract(Position(p, bp[i + 1]), Position(q, bp[i + 1])), start);
      var value := Norm(root, Along(start, delta, ClosestFraction(start, delta)));
      IntervalSound(root, p, q, bp[i], bp[i + 1]);
      least := Some(if least.Some? then Min(least.value, value) else value);
    }
    minimum := least.value;
    forall t
      ensures minimum - 1e-9 <= Separation(root, p, q, t)
    {
      SeparationHeld(root, p, q, bp[0], bp[|bp| - 1], t);
    }
  }
}
