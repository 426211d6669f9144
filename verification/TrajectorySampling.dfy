/** Sampling a trajectory of quintic segments on a uniform time grid. */
module TrajectorySampling {
  import opened Vectors
  import opened TimeSeries
  import opened Quintic
  import opened Resampling

  datatype Setpoint = Setpoint(position: Vector3, velocity: Vector3, acceleration: Vector3)

  type Trajectory = seq<Stamped<Setpoint>>

  /** The validator of a trajectory: it starts at time zero and its times increase strictly. */
  predicate ValidTrajectory(t: Trajectory) {
    && 2 <= |t| && t[0].time == 0.0
    && forall i, j :: 0 <= i < j < |t| ==> t[i].time < t[j].time
  }

  function Duration(t: Trajectory): real
    requires t != []
  {
    t[|t| - 1].time
  }

  function AxisJet(s: Setpoint, a: Axis): Jet {
    Jet(On(s.position, a), On(s.velocity, a), On(s.acceleration, a))
  }

  /** How many points are not later than x: Python's bisect_right on the times. */
  function BisectRight(t: Trajectory, x: real): (i: nat)
    ensures i <= |t|
    ensures forall k :: i <= k < |t| ==> x < t[k].time
    ensures 0 < i ==> t[i - 1].time <= x
  {
    if t == [] then 0
    else if t[|t| - 1].time <= x then |t|
    else BisectRight(t[..|t| - 1], x)
  }

  function SegmentIndex(t: Trajectory, x: real): (i: nat)
    requires ValidTrajectory(t)
    ensures i + 1 < |t|
  {
    var last := if BisectRight(t, x) - 1 < |t| - 2 then BisectRight(t, x) - 1 else |t| - 2;
    if last < 0 then 0 else last
  }

  /** Segment i of the trajectory, evaluated at time x on one axis. */
  function SegmentJet(t: Trajectory, i: nat, x: real, a: Axis): Jet
    requires ValidTrajectory(t) && i + 1 < |t|
  {
    QuinticAxis(AxisJet(t[i].value, a), AxisJet(t[i + 1].value, a), t[i + 1].time - t[i].time, x - t[i].time)
  }

  function SampleAxis(t: Trajectory, x: real, a: Axis): Jet
    requires ValidTrajectory(t)
  {
    SegmentJet(t, SegmentIndex(t, x), x, a)
  }

  function SampleAt(t: Trajectory, x: real): Setpoint
    requires ValidTrajectory(t)
  {
    var jx, jy, jz := SampleAxis(t, x, X), SampleAxis(t, x, Y), SampleAxis(t, x, Z);
    Setpoint(Vector3(jx.position, jy.position, jz.position),
             Vector3(jx.velocity, jy.velocity, jz.velocity),
             Vector3(jx.acceleration, jy.acceleration, jz.acceleration))
  }

  ghost predicate Brackets(t: Trajectory, i: nat, x: real) {
    i + 1 < |t| && t[i].time <= x <= t[i + 1].time
  }

  /** The lookup returns a segment that holds the time. */
  lemma LookupBrackets(t: Trajectory, x: real)
    requires ValidTrajectory(t) && 0.0 <= x <= Duration(t)
    ensures Brackets(t, SegmentIndex(t, x), x)
  {
  }

  /** A segment takes the values of its two points at their times. */
  lemma SegmentMeetsPoints(t: Trajectory, i: nat, a: Axis)
    requires ValidTrajectory(t) && i + 1 < |t|
    ensures SegmentJet(t, i, t[i].time, a) == AxisJet(t[i].value, a)
    ensures SegmentJet(t, i, t[i + 1].time, a) == AxisJet(t[i + 1].value, a)
  {
    var duration := t[i + 1].time - t[i].time;
    MeetsBoundary(AxisJet(t[i].value, a), AxisJet(t[i + 1].value, a), duration, 0.0);
    MeetsBoundary(AxisJet(t[i].value, a), AxisJet(t[i + 1].value, a), duration, duration);
  }

  /** Position, velocity and acceleration all agree where two segments meet: the sampled curve is C2 there. */
  lemma ContinuousAtPoint(t: Trajectory, k: nat, a: Axis)
    requires ValidTrajectory(t) && 0 < k < |t| - 1
    ensures SegmentJet(t, k - 1, t[k].time, a) == SegmentJet(t, k, t[k].time, a)
  {
    SegmentMeetsPoints(t, k - 1, a);
    SegmentMeetsPoints(t, k, a);
  }

  /** Whichever segment holds the time, the sample is the same. */
  lemma AnySegmentWillDo(t: Trajectory, i: nat, x: real, a: Axis)
    requires ValidTrajectory(t) && Brackets(t, i, x)
    ensures SampleAxis(t, x, a) == SegmentJet(t, i, x, a)
  {
    LookupBrackets(t, x);
    var j := SegmentIndex(t, x);
    if i < j {
      assert t[i + 1].time == x == t[j].time && j == i + 1;
      ContinuousAtPoint(t, j, a);
    } else if j < i {
      assert t[j + 1].time == x == t[i].time && i == j + 1;
      ContinuousAtPoint(t, i, a);
    }
  }

  /** The sampled trajectory passes through every point, with its velocity and acceleration. */
  lemma HitsEveryPoint(t: Trajectory, k: nat)
    requires ValidTrajectory(t) && k < |t|
    ensures SampleAt(t, t[k].time) == t[k].value
  {
    var x := t[k].time;
    var i := if k + 1 < |t| then k else k - 1;
    assert Brackets(t, i, x);
    AxisHits(t, k, i, X);
    AxisHits(t, k, i, Y);
    AxisHits(t, k, i, Z);
  }

  lemma AxisHits(t: Trajectory, k: nat, i: nat, a: Axis)
    requires ValidTrajectory(t) && k < |t| && Brackets(t, i, t[k].time) && (k == i || k == i + 1)
    ensures SampleAxis(t, t[k].time, a) == AxisJet(t[k].value, a)
  {
    AnySegmentWillDo(t, i, t[k].time, a);
    SegmentMeetsPoints(t, i, a);
  }

  // ----- what the trajectory is between its points -----

  ghost predicate TakesEnds(t: Trajectory, i: nat, a: Axis, p: Polynomial)
    requires i + 1 < |t|
  {
    p.At(t[i].time) == AxisJet(t[i].value, a) && p.At(t[i + 1].time) == AxisJet(t[i + 1].value, a)
  }

  /** A polynomial of degree at most five that takes two neighbouring points at their times is what is sampled between. */
  lemma SegmentIsPolynomial(t: Trajectory, i: nat, x: real, a: Axis, p: Polynomial)
    requires ValidTrajectory(t) && Brackets(t, i, x) && TakesEnds(t, i, a, p)
    ensures SampleAxis(t, x, a) == p.At(x)
  {
    var start, d := t[i].time, t[i + 1].time - t[i].time;
    AnySegmentWillDo(t, i, x, a);
    hide Polynomial.At, From, QuinticAxis;
    SameCurve(p, start, 0.0);
    SameCurve(p, start, d);
    SameCurve(p, start, x - start);
    ReproducesPolynomial(From(p, start), d, x - start);
  }

  /** Three polynomials as a motion. */
  ghost function Motion3(x: Polynomial, y: Polynomial, z: Polynomial, time: real): Setpoint {
    Setpoint(Vector3(x.Position(time), y.Position(time), z.Position(time)),
             Vector3(x.Velocity(time), y.Velocity(time), z.Velocity(time)),
             Vector3(x.Acceleration(time), y.Acceleration(time), z.Acceleration(time)))
  }

  /** Sampling reproduces every motion that is a polynomial of degree at most five between two points. */
  lemma SamplesPolynomials(t: Trajectory, i: nat, time: real, x: Polynomial, y: Polynomial, z: Polynomial)
    requires ValidTrajectory(t) && Brackets(t, i, time)
    requires t[i].value == Motion3(x, y, z, t[i].time) && t[i + 1].value == Motion3(x, y, z, t[i + 1].time)
    ensures SampleAt(t, time) == Motion3(x, y, z, time)
  {
    hide Polynomial.Position, Polynomial.Velocity, Polynomial.Acceleration, SampleAxis;
    SegmentIsPolynomial(t, i, time, X, x);
    SegmentIsPolynomial(t, i, time, Y, y);
    SegmentIsPolynomial(t, i, time, Z, z);
  }

  /** The polynomial of one segment, in the time since its start. */
  function SegmentPolynomial(t: Trajectory, i: nat, a: Axis): Polynomial
    requires ValidTrajectory(t) && i + 1 < |t|
  {
    Coefficients(AxisJet(t[i].value, a), AxisJet(t[i + 1].value, a), t[i + 1].time - t[i].time)
  }

  lemma SampleOnSegment(t: Trajectory, i: nat, x: real, a: Axis)
    requires ValidTrajectory(t) && Brackets(t, i, x)
    ensures SampleAxis(t, x, a) == SegmentPolynomial(t, i, a).At(x - t[i].time)
  {
    hide Coefficients, Polynomial.At;
    AnySegmentWillDo(t, i, x, a);
  }

  /** Inside a segment the sampled velocity is the derivative of the sampled position, and the sampled acceleration that of
      the velocity: what is left is of second order in the time step. */
  lemma SampledDerivatives(t: Trajectory, i: nat, x: real, h: real, a: Axis)
    requires ValidTrajectory(t) && Brackets(t, i, x) && Brackets(t, i, x + h)
    ensures var p, u, here, later := SegmentPolynomial(t, i, a), x - t[i].time, SampleAxis(t, x, a), SampleAxis(t, x + h, a);
      && Expands(later.position, here.position, here.velocity, h, PositionRemainder(p, u, h))
      && Expands(later.velocity, here.velocity, here.acceleration, h, VelocityRemainder(p, u, h))
  {
    var p, u := SegmentPolynomial(t, i, a), x - t[i].time;
    SampleOnSegment(t, i, x, a);
    SampleOnSegment(t, i, x + h, a);
    assert x + h - t[i].time == u + h;
    hide Polynomial.Position, Polynomial.Velocity, Polynomial.Acceleration, PositionRemainder, VelocityRemainder, Expands,
         SampleAxis, SegmentPolynomial;
    RemainderExpands(p, u, h);
    VelocityExpands(p, u, h);
  }

  /** The time of sample k: grid times past the end are clamped to it. */
  function SampleTime(t: Trajectory, step: real, k: nat): real
    requires t != []
  {
    Min(GridTime(0.0, step, k), Duration(t))
  }

  ghost predicate SamplesUpTo(t: Trajectory, step: real, out: Trajectory)
    requires ValidTrajectory(t)
  {
    forall k :: 0 <= k < |out| ==> out[k] == Stamped(SampleTime(t, step, k), SampleAt(t, SampleTime(t, step, k)))
  }

  method IndependentSamples(t: Trajectory, step: real) returns (out: Trajectory)
    requires ValidTrajectory(t) && 0.0 < step
    ensures IsGrid(0.0, Duration(t), step, |out|)
    ensures SamplesUpTo(t, step, out)
    ensures forall k :: 0 <= k < |out| ==> out[k].time == Min(k as real * step, t[|t| - 1].time)
  {
    hide SampleAt;
    out := [];
    var timestamp := 0.0;
    while timestamp <= Duration(t) + step * 0.25
      invariant timestamp == GridTime(0.0, step, |out|)
      invariant forall k: nat :: k < |out| ==> GridTime(0.0, step, k) <= Duration(t) + step * 0.25
      invariant SamplesUpTo(t, step, out)
      decreases (Duration(t) + step * 0.25 - timestamp) / step
    {
      var bounded := Min(timestamp, Duration(t));
      NextGridTime(0.0, step, |out|);
      OneStepLess(Duration(t) + step * 0.25 - timestamp, step);
      RouteTiming.Quotient(Duration(t) + step * 0.25 - timestamp, step);
      out := out + [Stamped(bounded, SampleAt(t, bounded))];
      timestamp := timestamp + step;
    }
  }

  /** Every grid time inside the trajectory that is the time of a point returns that point. */
  lemma SampledPoints(t: Trajectory, step: real, out: Trajectory, k: nat, j: nat)
    requires ValidTrajectory(t) && 0.0 < step && SamplesUpTo(t, step, out)
    requires k < |out| && j < |t| && GridTime(0.0, step, k) == t[j].time
    ensures out[k] == t[j]
  {
    HitsEveryPoint(t, j);
    assert j < |t| - 1 ==> t[j].time < Duration(t);
  }
}
