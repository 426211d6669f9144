/** The centreline check between the vertices: when it bounds the whole flight. */
module Centerlines {
  import opened Vectors
  import opened RouteTiming
  import opened PairClearance
  import opened BoxClearance
  import opened CaseModel
  import opened RouteAdherence
  import opened AdherenceFindings
  import opened Polylines

  lemma NearMeansPoint(root: real -> real, p: Vector3, line: seq<Vector3>, distance: real)
    ensures NearLine(root, p, line, distance) <==> exists q :: OnPolyline(line, q) && Distance(root, p, q) <= distance
  {
    hide Distance, Lerp;
    if NearLine(root, p, line, distance) {
      var k :| 0 <= k < |line| - 1 && NearLeg(root, p, line[k], line[k + 1], distance);
      var u :| 0.0 <= u <= 1.0 && Distance(root, p, Lerp(line[k], line[k + 1], u)) <= distance;
      assert IsPointOf(line, Lerp(line[k], line[k + 1], u), k, u);
    }
    if q :| OnPolyline(line, q) && Distance(root, p, q) <= distance {
      var k: nat, u :| IsPointOf(line, q, k, u);
      assert NearLeg(root, p, line[k], line[k + 1], distance);
    }
  }

  ghost predicate VerticesNear(root: real -> real, r: Route, line: seq<Vector3>, limit: real) {
    forall i :: 0 <= i < |r.points| ==> NearLine(root, r.points[i], line, limit)
  }

  ghost predicate FlightNear(root: real -> real, r: Route, line: seq<Vector3>, limit: real)
    requires ValidRoute(r)
  {
    forall t :: NearLine(root, At(root, r, t), line, limit)
  }

  /** Two points mixed stay as near to the mix of their partners as the farther of them was. */
  lemma MixedDistance(root: real -> real, a: Vector3, b: Vector3, c: Vector3, d: Vector3, f: real, limit: real)
    requires IsRoot(root) && 0.0 <= f <= 1.0 && Distance(root, a, c) <= limit && Distance(root, b, d) <= limit
    ensures Distance(root, Lerp(a, b, f), Lerp(c, d, f)) <= limit
  {
    hide Lerp, Norm, Subtract, Add, Scale;
    LerpSplit(a, b, c, d, Subtract(a, c), Subtract(b, d), f);
    WeightedTriangle(root, Subtract(a, c), Subtract(b, d), f);
    ProductNonNegative(1.0 - f, limit - Distance(root, a, c));
    ProductNonNegative(f, limit - Distance(root, b, d));
  }

  lemma StraightBoundsFlight(root: real -> real, r: Route, line: seq<Vector3>, limit: real)
    requires IsRoot(root) && ValidRoute(r) && Straight(line) && VerticesNear(root, r, line, limit)
    ensures FlightNear(root, r, line, limit)
  {
    hide NearLine, OnPolyline, Distance, Lerp;
    RouteIsPath(root, r);
    forall t ensures NearLine(root, At(root, r, t), line, limit) {
      var i, f := PositionOnSomeLeg(PathOf(root, r), t);
      NearMeansPoint(root, r.points[i], line, limit);
      NearMeansPoint(root, r.points[i + 1], line, limit);
      var c :| OnPolyline(line, c) && Distance(root, r.points[i], c) <= limit;
      var d :| OnPolyline(line, d) && Distance(root, r.points[i + 1], d) <= limit;
      MixedDistance(root, r.points[i], r.points[i + 1], c, d, f, limit);
      NearMeansPoint(root, At(root, r, t), line, limit);
    }
  }

  lemma NothingLeft(root: real -> real, p: Vector3)
    ensures Distance(root, p, p) == Norm(root, ORIGIN) && Dot(ORIGIN, ORIGIN) == 0.0
  {
    assert Subtract(p, p) == ORIGIN;
  }

  lemma NoDistance(root: real -> real, p: Vector3)
    requires IsRoot(root)
    ensures Distance(root, p, p) == 0.0
  {
    hide *;
    NothingLeft(root, p);
    NormAtMost(root, ORIGIN, 0.0);
  }

  ghost predicate VertexCheckEnough(root: real -> real, line: seq<Vector3>) {
    forall r: Route, limit :: ValidRoute(r) && VerticesNear(root, r, line, limit) ==> FlightNear(root, r, line, limit)
  }

  lemma EnoughMeansStraight(root: real -> real, line: seq<Vector3>, p: Vector3, q: Vector3, f: real)
    requires IsRoot(root) && VertexCheckEnough(root, line)
    requires OnPolyline(line, p) && OnPolyline(line, q) && 0.0 <= f <= 1.0
    ensures OnPolyline(line, Lerp(p, q, f))
  {
    hide NearLine, OnPolyline, Distance, Lerp;
    var r := Route("", [p, q], 0.0, 1.0, []);
    NoDistance(root, p);
    NoDistance(root, q);
    NearMeansPoint(root, p, line, 0.0);
    NearMeansPoint(root, q, line, 0.0);
    assert VerticesNear(root, r, line, 0.0);
    RouteIsPath(root, r);
    var t := LegIsFlown(PathOf(root, r), 0, f);
    assert FlightNear(root, r, line, 0.0);
    var here := At(root, r, t);
    NearMeansPoint(root, here, line, 0.0);
    var c :| OnPolyline(line, c) && Distance(root, here, c) <= 0.0;
    DistanceNonNegative(root, here, c);
    ZeroDistance(root, here, c);
  }

  lemma DistanceNonNegative(root: real -> real, p: Vector3, q: Vector3)
    requires IsRoot(root)
    ensures 0.0 <= Distance(root, p, q)
  {
    NormIsRoot(root, Subtract(p, q));
  }

  lemma EnoughIffStraight(root: real -> real, line: seq<Vector3>)
    requires IsRoot(root)
    ensures VertexCheckEnough(root, line) <==> Straight(line)
  {
    hide NearLine, OnPolyline, Lerp;
    if Straight(line) {
      forall r: Route, limit | ValidRoute(r) && VerticesNear(root, r, line, limit)
        ensures FlightNear(root, r, line, limit)
      {
        StraightBoundsFlight(root, r, line, limit);
      }
    }
    if VertexCheckEnough(root, line) {
      forall p, q, f | OnPolyline(line, p) && OnPolyline(line, q) && 0.0 <= f <= 1.0
        ensures OnPolyline(line, Lerp(p, q, f))
      {
        EnoughMeansStraight(root, line, p, q, f);
      }
    }
  }

  /** The centreline check looks at vertices only: being near the line there means being near it at every time, for every
      route and limit, exactly when no three vertices of the authored line span a triangle. */
  lemma VertexCheckEnoughIff(root: real -> real, line: seq<Vector3>)
    requires IsRoot(root)
    ensures VertexCheckEnough(root, line) <==> Aligned(line)
  {
    hide VertexCheckEnough, Straight, Aligned;
    EnoughIffStraight(root, line);
    StraightIff(line);
  }

  /** On an aligned authored line a passed centreline check bounds the whole flight. */
  lemma AlignedCheckBoundsFlight(root: real -> real, r: Route, d: Drone, planning: Planning)
    requires IsRoot(root) && ValidRoute(r) && d.goals != [] && planning.Valid() && planning.mode.NeedsCenterline()
    requires Aligned(Authored(d)) && !LeavesCenterline(root, r, d, planning)
    ensures FlightNear(root, r, Authored(d), planning.maximumDeviation.value + 1e-9)
  {
    hide Aligned, Authored, MaximumDeviation, NearLine, FlightNear;
    var line, limit := Authored(d), planning.maximumDeviation.value + TOLERANCE;
    forall i | 0 <= i < |r.points| ensures NearLine(root, r.points[i], line, limit) {
      DeviationBoundsVertices(root, r.points, line, limit, i);
    }
    AlignedMeansStraight(line);
    StraightBoundsFlight(root, r, line, limit);
  }

  /** A line that bends, and the leg that cuts its corner. */
  const BENT := [Vector3(0.0, 0.0, 1.0), Vector3(1.0, 1.0, 1.0), Vector3(2.0, 0.0, 1.0)]
  const SHORTCUT := Route("r", [Vector3(0.0, 0.0, 1.0), Vector3(2.0, 0.0, 1.0)], 0.0, 10.0, [])

  /** Every vertex of the shortcut is on the line, and in flight it is more than half a metre away from it. */
  lemma CornerIsCut(root: real -> real) returns (t: real)
    requires IsRoot(root)
    ensures ValidRoute(SHORTCUT) && VerticesNear(root, SHORTCUT, BENT, 0.0)
    ensures FarFromLine(root, At(root, SHORTCUT, t), BENT, 0.5)
  {
    hide NearLine, Distance;
    forall i | 0 <= i < 2 ensures NearLine(root, SHORTCUT.points[i], BENT, 0.0) {
      NoDistance(root, SHORTCUT.points[i]);
      assert IsPointOf(BENT, SHORTCUT.points[i], i, i as real);
      NearMeansPoint(root, SHORTCUT.points[i], BENT, 0.0);
    }
    RouteIsPath(root, SHORTCUT);
    t := LegIsFlown(PathOf(root, SHORTCUT), 0, 0.5);
    var middle := Vector3(1.0, 0.0, 1.0);
    assert Lerp(SHORTCUT.points[0], SHORTCUT.points[1], 0.5) == middle;
    forall k: nat, u | k + 1 < |BENT| && 0.0 <= u <= 1.0
      ensures FartherThan(root, middle, BENT, k, u, 0.5)
    {
      HalfAMetre(root, k, u);
    }
  }

  lemma HalfAMetre(root: real -> real, k: nat, u: real)
    requires IsRoot(root) && k < 2 && 0.0 <= u <= 1.0
    ensures 0.5 < Distance(root, Vector3(1.0, 0.0, 1.0), Lerp(BENT[k], BENT[k + 1], u))
  {
    var d := Subtract(Vector3(1.0, 0.0, 1.0), Lerp(BENT[k], BENT[k + 1], u));
    NormIsRoot(root, d);
    assert k == 0 ==> d == Vector3(1.0 - u, -u, 0.0);
    assert k == 1 ==> d == Vector3(-u, u - 1.0, 0.0);
    assert Dot(d, d) == (1.0 - u) * (1.0 - u) + u * u;
    SquareNonNegative(u - 0.5);
    assert 0.5 <= Dot(d, d);
    if Norm(root, d) <= 0.5 { ProductNonNegative(0.5 - Norm(root, d), 0.5 + Norm(root, d)); }
  }
}
