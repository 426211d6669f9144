/** Lines through a list of points: when such a line does not bend, decided on its vertices. */
module Polylines {
  import opened Vectors

  ghost predicate IsPointOf(line: seq<Vector3>, p: Vector3, k: nat, u: real) {
    k + 1 < |line| && 0.0 <= u <= 1.0 && p == Lerp(line[k], line[k + 1], u)
  }

  ghost predicate OnPolyline(line: seq<Vector3>, p: Vector3) {
    exists k: nat, u :: IsPointOf(line, p, k, u)
  }

  /** A line that holds every point between two of its points: it does not bend. */
  ghost predicate Straight(line: seq<Vector3>) {
    forall p, q, f :: OnPolyline(line, p) && OnPolyline(line, q) && 0.0 <= f <= 1.0 ==> OnPolyline(line, Lerp(p, q, f))
  }

  const ORIGIN := Vector3(0.0, 0.0, 0.0)

  function Cross(u: Vector3, v: Vector3): Vector3 {
    Vector3(u.y * v.z - u.z * v.y, u.z * v.x - u.x * v.z, u.x * v.y - u.y * v.x)
  }

  predicate InLine(p: Vector3, q: Vector3, r: Vector3) {
    Cross(Subtract(q, p), Subtract(r, p)) == ORIGIN
  }

  /** No three vertices span a triangle. */
  predicate Aligned(line: seq<Vector3>) {
    forall i, j, k :: 0 <= i < |line| && 0 <= j < |line| && 0 <= k < |line| ==> InLine(line[i], line[j], line[k])
  }

  // ----- shadows on the coordinate planes -----

  datatype Flat = Flat(x: real, y: real)

  /** The shadow along one axis. */
  function Shadow(p: Vector3, a: Axis): Flat {
    match a case X => Flat(p.y, p.z) case Y => Flat(p.z, p.x) case Z => Flat(p.x, p.y)
  }

  function FlatMix(p: Flat, q: Flat, u: real): Flat { Flat(Mix(p.x, q.x, u), Mix(p.y, q.y, u)) }

  function Minus(p: Flat, q: Flat): Flat { Flat(p.x - q.x, p.y - q.y) }

  function Area(u: Flat, v: Flat): real { u.x * v.y - u.y * v.x }

  lemma ShadowOfLerp(p: Vector3, q: Vector3, u: real, a: Axis)
    ensures Shadow(Lerp(p, q, u), a) == FlatMix(Shadow(p, a), Shadow(q, a), u)
  {
    hide Mix;
  }

  lemma ShadowOfCross(p: Vector3, q: Vector3, r: Vector3, a: Axis)
    ensures On(Cross(Subtract(q, p), Subtract(r, p)), a)
         == Area(Minus(Shadow(q, a), Shadow(p, a)), Minus(Shadow(r, a), Shadow(p, a)))
  {
  }

  lemma AreaOfMix(e1: real, e2: real, b1: real, b2: real, c1: real, c2: real, s: real)
    ensures e1 * Mix(b2, c2, s) - e2 * Mix(b1, c1, s) == Mix(e1 * b2 - e2 * b1, e1 * c2 - e2 * c1, s)
  {
  }

  lemma MixShifted(b: real, c: real, a: real, s: real)
    ensures Mix(b, c, s) - a == Mix(b - a, c - a, s)
  {
  }

  /** The area spanned with a mix is the mix of the areas. */
  lemma AreaTowards(e: Flat, a: Flat, b: Flat, c: Flat, s: real)
    ensures Area(e, Minus(FlatMix(b, c, s), a)) == Mix(Area(e, Minus(b, a)), Area(e, Minus(c, a)), s)
  {
    MixShifted(b.x, c.x, a.x, s);
    MixShifted(b.y, c.y, a.y, s);
    AreaOfMix(e.x, e.y, b.x - a.x, b.y - a.y, c.x - a.x, c.y - a.y, s);
  }

  lemma ParallelToBoth(e: Flat, b: Flat, c: Flat)
    requires e != Flat(0.0, 0.0) && Area(e, b) == 0.0 && Area(e, c) == 0.0
    ensures Area(b, c) == 0.0
  {
    if e.x != 0.0 {
      CommonFactor(e.x, e.y, b.x, b.y, c.x, c.y);
    } else {
      CommonFactor(e.y, e.x, b.y, b.x, c.y, c.x);
    }
  }

  lemma CommonFactor(e1: real, e2: real, b1: real, b2: real, c1: real, c2: real)
    requires e1 != 0.0 && e1 * b2 == e2 * b1 && e1 * c2 == e2 * c1
    ensures b1 * c2 == b2 * c1
  {
    assert e1 * (b1 * c2) == b1 * (e1 * c2);
    assert e1 * (b2 * c1) == c1 * (e1 * b2);
    if b1 * c2 != b2 * c1 { EqualMultiples(e1, b1 * c2, b2 * c1); }
  }

  // ----- the rays of a triangle -----

  /** The leg from p to q runs along the ray from a to the point s of the opposite side. */
  ghost predicate Along(p: Flat, q: Flat, a: Flat, b: Flat, c: Flat, s: real) {
    p != q && Area(Minus(q, p), Minus(FlatMix(b, c, s), a)) == 0.0
  }

  lemma MixRoots(m: real, n: real, s: real, t: real)
    requires s != t && Mix(m, n, s) == 0.0 && Mix(m, n, t) == 0.0
    ensures m == 0.0 && n == 0.0
  {
    if m != n { MixInjective(m, n, s, t); }
  }

  lemma OneRay(p: Flat, q: Flat, a: Flat, b: Flat, c: Flat, s: real, t: real)
    requires Area(Minus(b, a), Minus(c, a)) != 0.0 && Along(p, q, a, b, c, s) && Along(p, q, a, b, c, t)
    ensures s == t
  {
    hide Area, Mix;
    var e := Minus(q, p);
    if s != t {
      AreaTowards(e, a, b, c, s);
      AreaTowards(e, a, b, c, t);
      MixRoots(Area(e, Minus(b, a)), Area(e, Minus(c, a)), s, t);
      ParallelToBoth(e, Minus(b, a), Minus(c, a));
    }
  }

  ghost predicate NoneAlong(line: seq<Flat>, n: nat, a: Flat, b: Flat, c: Flat, low: real, high: real)
    requires n == 0 || n < |line|
  {
    forall k: nat, s :: k < n && low < s < high ==> !LegAlong(line, k, a, b, c, s)
  }

  ghost predicate LegAlong(line: seq<Flat>, k: nat, a: Flat, b: Flat, c: Flat, s: real)
    requires k + 1 < |line|
  {
    Along(line[k], line[k + 1], a, b, c, s)
  }

  /** Finitely many legs leave some stretch of rays free. */
  lemma {:induction false} ClearRays(line: seq<Flat>, n: nat, a: Flat, b: Flat, c: Flat) returns (low: real, high: real)
    requires (n == 0 || n < |line|) && Area(Minus(b, a), Minus(c, a)) != 0.0
    ensures 0.0 <= low < high <= 1.0 && NoneAlong(line, n, a, b, c, low, high)
  {
    low, high := 0.0, 1.0;
    if 0 < n {
      hide Along, Area;
      var m := n - 1;
      low, high := ClearRays(line, m, a, b, c);
      var middle := (low + high) / 2.0;
      if hit :| low < hit < middle && Along(line[m], line[n], a, b, c, hit) {
        forall s | middle < s < high ensures !Along(line[m], line[n], a, b, c, s) {
          if Along(line[m], line[n], a, b, c, s) { OneRay(line[m], line[n], a, b, c, s, hit); }
        }
        low := middle;
      } else {
        high := middle;
      }
    }
  }

  /** The leg from p to q holds the point r of the ray from a to d. */
  ghost predicate Hits(p: Flat, q: Flat, a: Flat, d: Flat, r: real) {
    exists u :: FlatMix(p, q, u) == FlatMix(a, d, r)
  }

  ghost predicate SameProduct(a: real, b: real, c: real, d: real) { a * b == c * d }

  lemma StepsAgree(p: real, q: real, a: real, d: real, u: real, v: real, r: real, t: real)
    requires Mix(p, q, u) == Mix(a, d, r) && Mix(p, q, v) == Mix(a, d, t)
    ensures SameProduct(q - p, u - v, d - a, r - t)
  {
  }

  lemma NoTurn(e1: real, e2: real, d1: real, d2: real, x: real, y: real)
    requires y != 0.0 && SameProduct(e1, x, d1, y) && SameProduct(e2, x, d2, y)
    ensures e1 * d2 - e2 * d1 == 0.0
  {
    assert (e1 * d2 - e2 * d1) * y == e1 * (d2 * y) - e2 * (d1 * y);
    assert e1 * (e2 * x) == e2 * (e1 * x);
    if e1 * d2 - e2 * d1 != 0.0 { NonZero(e1 * d2 - e2 * d1, y); }
  }

  lemma NonZero(a: real, b: real)
    requires a != 0.0 && b != 0.0
    ensures a * b != 0.0
  {
  }

  /** A leg that does not run along the ray meets it once at most. */
  lemma OneHit(p: Flat, q: Flat, a: Flat, d: Flat, r: real, t: real)
    requires d != a && (p != q ==> Area(Minus(q, p), Minus(d, a)) != 0.0)
    requires Hits(p, q, a, d, r) && Hits(p, q, a, d, t)
    ensures r == t
  {
    var u :| FlatMix(p, q, u) == FlatMix(a, d, r);
    var v :| FlatMix(p, q, v) == FlatMix(a, d, t);
    StepsAgree(p.x, q.x, a.x, d.x, u, v, r, t);
    StepsAgree(p.y, q.y, a.y, d.y, u, v, r, t);
    hide SameProduct, Mix;
    if r != t {
      if p == q { StandingLeg(d.x - a.x, d.y - a.y, u - v, r - t); }
      NoTurn(q.x - p.x, q.y - p.y, d.x - a.x, d.y - a.y, u - v, r - t);
    }
  }

  lemma StandingLeg(d1: real, d2: real, x: real, y: real)
    requires y != 0.0 && SameProduct(0.0, x, d1, y) && SameProduct(0.0, x, d2, y)
    ensures d1 == 0.0 && d2 == 0.0
  {
    if d1 != 0.0 { NonZero(d1, y); }
    if d2 != 0.0 { NonZero(d2, y); }
  }

  ghost predicate NoneHits(line: seq<Flat>, n: nat, a: Flat, d: Flat, low: real, high: real)
    requires n == 0 || n < |line|
  {
    forall k: nat, r :: k < n && low < r < high ==> !LegHits(line, k, a, d, r)
  }

  ghost predicate LegHits(line: seq<Flat>, k: nat, a: Flat, d: Flat, r: real)
    requires k + 1 < |line|
  {
    Hits(line[k], line[k + 1], a, d, r)
  }

  ghost predicate TurnsFrom(line: seq<Flat>, k: nat, a: Flat, d: Flat)
    requires k + 1 < |line|
  {
    line[k] != line[k + 1] ==> Area(Minus(line[k + 1], line[k]), Minus(d, a)) != 0.0
  }

  /** Finitely many legs, none along the ray, leave some stretch of it free. */
  lemma {:induction false} ClearPoints(line: seq<Flat>, n: nat, a: Flat, d: Flat) returns (low: real, high: real)
    requires (n == 0 || n < |line|) && d != a
    requires forall k: nat :: k < n ==> TurnsFrom(line, k, a, d)
    ensures 0.0 <= low < high <= 1.0 && NoneHits(line, n, a, d, low, high)
  {
    low, high := 0.0, 1.0;
    if 0 < n {
      hide Hits, Area;
      var m := n - 1;
      low, high := ClearPoints(line, m, a, d);
      var middle := (low + high) / 2.0;
      assert TurnsFrom(line, m, a, d);
      if hit :| low < hit < middle && Hits(line[m], line[n], a, d, hit) {
        forall r | middle < r < high ensures !Hits(line[m], line[n], a, d, r) {
          if Hits(line[m], line[n], a, d, r) { OneHit(line[m], line[n], a, d, r, hit); }
        }
        low := middle;
      } else {
        high := middle;
      }
    }
  }

  /** No point of the opposite side is the apex. */
  lemma EndNotApex(a: Flat, b: Flat, c: Flat, s: real)
    requires Area(Minus(b, a), Minus(c, a)) != 0.0
    ensures FlatMix(b, c, s) != a
  {
    if FlatMix(b, c, s) == a {
      var u, v := Minus(b, a), Minus(c, a);
      AreaTowards(u, a, b, c, s);
      AreaTowards(v, a, b, c, s);
      hide Mix, FlatMix;
      assert Area(u, Flat(0.0, 0.0)) == 0.0 && Area(v, Flat(0.0, 0.0)) == 0.0;
      assert Area(u, u) == 0.0 && Area(v, v) == 0.0 && Area(v, u) == -Area(u, v);
      RootsOfSides(Area(u, v), s);
    }
  }

  lemma RootsOfSides(area: real, s: real)
    requires Mix(0.0, area, s) == 0.0 && Mix(-area, 0.0, s) == 0.0
    ensures area == 0.0
  {
  }

  // ----- a line that does not bend is aligned -----

  ghost function Shadows(line: seq<Vector3>, a: Axis): (r: seq<Flat>)
    ensures |r| == |line| && forall k :: 0 <= k < |line| ==> r[k] == Shadow(line[k], a)
  {
    seq(|line|, k requires 0 <= k < |line| => Shadow(line[k], a))
  }

  lemma VertexIsPoint(line: seq<Vector3>, k: nat)
    requires 2 <= |line| && k < |line|
    ensures OnPolyline(line, line[k])
  {
    if k + 1 < |line| {
      assert IsPointOf(line, line[k], k, 0.0);
    } else {
      assert IsPointOf(line, line[k], k - 1, 1.0);
    }
  }

  /** A point of the line hits one of its legs in every shadow. */
  lemma PointHits(line: seq<Vector3>, axis: Axis, a: Vector3, d: Vector3, r: real) returns (k: nat)
    requires OnPolyline(line, Lerp(a, d, r))
    ensures k + 1 < |line| && LegHits(Shadows(line, axis), k, Shadow(a, axis), Shadow(d, axis), r)
  {
    hide Lerp;
    var m: nat, u :| IsPointOf(line, Lerp(a, d, r), m, u);
    k := m;
    ShadowOfLerp(line[k], line[k + 1], u, axis);
    ShadowOfLerp(a, d, r, axis);
  }

  lemma FreeOfAlong(line: seq<Flat>, n: nat, a: Flat, b: Flat, c: Flat, low: real, high: real, s: real)
    requires (n == 0 || n < |line|) && NoneAlong(line, n, a, b, c, low, high) && low < s < high
    ensures forall k: nat :: k < n ==> TurnsFrom(line, k, a, FlatMix(b, c, s))
  {
    hide FlatMix;
    forall k: nat | k < n ensures TurnsFrom(line, k, a, FlatMix(b, c, s)) {
      assert !LegAlong(line, k, a, b, c, s);
    }
  }

  /** Three vertices that span a triangle leave a point of it that is not on the line. */
  lemma BendLeavesGap(line: seq<Vector3>, axis: Axis, a: Vector3, b: Vector3, c: Vector3) returns (s: real, r: real)
    requires 2 <= |line|
    requires Area(Minus(Shadow(b, axis), Shadow(a, axis)), Minus(Shadow(c, axis), Shadow(a, axis))) != 0.0
    ensures 0.0 <= s <= 1.0 && 0.0 <= r <= 1.0 && !OnPolyline(line, Lerp(a, Lerp(b, c, s), r))
  {
    hide Area, Lerp, FlatMix, OnPolyline, Shadow, LegHits;
    var flat, n := Shadows(line, axis), |line| - 1;
    var low, high := ClearRays(flat, n, Shadow(a, axis), Shadow(b, axis), Shadow(c, axis));
    s := (low + high) / 2.0;
    var d := Lerp(b, c, s);
    ShadowOfLerp(b, c, s, axis);
    EndNotApex(Shadow(a, axis), Shadow(b, axis), Shadow(c, axis), s);
    FreeOfAlong(flat, n, Shadow(a, axis), Shadow(b, axis), Shadow(c, axis), low, high, s);
    low, high := ClearPoints(flat, n, Shadow(a, axis), Shadow(d, axis));
    r := (low + high) / 2.0;
    if OnPolyline(line, Lerp(a, d, r)) {
      var k := PointHits(line, axis, a, d, r);
    }
  }

  lemma StraightMeansInLine(line: seq<Vector3>, i: nat, j: nat, k: nat, axis: Axis)
    requires 2 <= |line| && Straight(line) && i < |line| && j < |line| && k < |line|
    ensures On(Cross(Subtract(line[j], line[i]), Subtract(line[k], line[i])), axis) == 0.0
  {
    hide OnPolyline, Lerp, Area, Cross, On;
    VertexIsPoint(line, i);
    VertexIsPoint(line, j);
    VertexIsPoint(line, k);
    ShadowOfCross(line[i], line[j], line[k], axis);
    if On(Cross(Subtract(line[j], line[i]), Subtract(line[k], line[i])), axis) != 0.0 {
      var s, r := BendLeavesGap(line, axis, line[i], line[j], line[k]);
    }
  }

  // ----- an aligned line does not bend -----

  lemma InLineMixed(o: Vector3, d: Vector3, p: Vector3, q: Vector3, f: real)
    requires InLine(o, d, p) && InLine(o, d, q)
    ensures InLine(o, d, Lerp(p, q, f))
  {
    InLineOnAxis(o, d, p, q, f, X);
    InLineOnAxis(o, d, p, q, f, Y);
    InLineOnAxis(o, d, p, q, f, Z);
  }

  lemma InLineOnAxis(o: Vector3, d: Vector3, p: Vector3, q: Vector3, f: real, a: Axis)
    requires InLine(o, d, p) && InLine(o, d, q)
    ensures On(Cross(Subtract(d, o), Subtract(Lerp(p, q, f), o)), a) == 0.0
  {
    var e := Minus(Shadow(d, a), Shadow(o, a));
    ShadowOfCross(o, d, p, a);
    ShadowOfCross(o, d, q, a);
    ShadowOfCross(o, d, Lerp(p, q, f), a);
    ShadowOfLerp(p, q, f, a);
    assert On(ORIGIN, a) == 0.0;
    hide Cross, Area, Lerp, FlatMix, Shadow, Minus;
    AreaTowards(e, Shadow(o, a), Shadow(p, a), Shadow(q, a), f);
  }

  lemma EqualRatios(d1: real, d2: real, p1: real, p2: real, q2: real)
    requires d1 != 0.0 && d1 * p2 == d2 * p1 && d1 * q2 == d2 * p1
    ensures p2 == q2
  {
    if p2 != q2 { EqualMultiples(d1, p2, q2); }
  }

  /** Two points of one line that agree on an axis the line moves along are the same. */
  lemma SameOnLine(o: Vector3, d: Vector3, p: Vector3, q: Vector3, a: Axis)
    requires InLine(o, d, p) && InLine(o, d, q) && On(o, a) != On(d, a) && On(p, a) == On(q, a)
    ensures p == q
  {
    var e, u, v := Subtract(d, o), Subtract(p, o), Subtract(q, o);
    match a
    case X =>
      EqualRatios(e.x, e.y, u.x, u.y, v.y);
      EqualRatios(e.x, e.z, u.x, u.z, v.z);
    case Y =>
      EqualRatios(e.y, e.x, u.y, u.x, v.x);
      EqualRatios(e.y, e.z, u.y, u.z, v.z);
    case Z =>
      EqualRatios(e.z, e.x, u.z, u.x, v.x);
      EqualRatios(e.z, e.y, u.z, u.y, v.y);
  }

  ghost predicate Between(x: real, y: real, w: real) { x <= w <= y || y <= w <= x }

  lemma FractionAt(x: real, y: real, w: real) returns (u: real)
    requires Between(x, y, w)
    ensures 0.0 <= u <= 1.0 && Mix(x, y, u) == w
  {
    if x == y {
      u := 0.0;
    } else {
      u := (w - x) / (y - x);
      QuotientBack(w - x, y - x);
      FractionInRange(w - x, y - x, u);
    }
  }

  lemma FractionInRange(v: real, w: real, u: real)
    requires u * w == v && (0.0 <= v <= w || w <= v <= 0.0) && w != 0.0
    ensures 0.0 <= u <= 1.0
  {
    if u < 0.0 { if 0.0 < w { ProductPositive(-u, w); } else { ProductPositive(-u, -w); } }
    if 1.0 < u { if 0.0 < w { ProductPositive(u - 1.0, w); } else { ProductPositive(u - 1.0, -w); } }
  }

  lemma MixStaysBeside(x: real, y: real, u: real, w: real)
    requires 0.0 <= u <= 1.0 && !Between(x, y, w)
    ensures x < w ==> Mix(x, y, u) < w
    ensures w < x ==> w < Mix(x, y, u)
  {
    MixBetween(x, y, u, Min(x, y), Max(x, y));
  }

  /** The leg k holds the coordinate w of axis a. */
  ghost predicate LegHolds(line: seq<Vector3>, a: Axis, k: nat, w: real)
    requires k + 1 < |line|
  {
    Between(On(line[k], a), On(line[k + 1], a), w)
  }

  /** If no leg holds w, all vertices lie on one side of it. */
  lemma {:induction false} OneSide(line: seq<Vector3>, a: Axis, w: real, k: nat)
    requires k < |line| && 2 <= |line| && forall m: nat :: m + 1 < |line| ==> !LegHolds(line, a, m, w)
    ensures On(line[k], a) != w && (On(line[0], a) < w <==> On(line[k], a) < w)
  {
    hide On;
    if k == 0 {
      assert !LegHolds(line, a, 0, w);
    } else {
      OneSide(line, a, w, k - 1);
      assert !LegHolds(line, a, k - 1, w);
    }
  }

  lemma PointOneSide(line: seq<Vector3>, a: Axis, w: real, p: Vector3)
    requires OnPolyline(line, p) && forall m: nat :: m + 1 < |line| ==> !LegHolds(line, a, m, w)
    ensures On(p, a) != w && (On(line[0], a) < w <==> On(p, a) < w)
  {
    var k: nat, u :| IsPointOf(line, p, k, u);
    OneSide(line, a, w, k);
    OneSide(line, a, w, k + 1);
    assert !LegHolds(line, a, k, w);
    OnLerp(line[k], line[k + 1], u, a);
    hide On, Lerp, Mix;
    MixStaysBeside(On(line[k], a), On(line[k + 1], a), u, w);
  }

  lemma OnLerp(p: Vector3, q: Vector3, u: real, a: Axis)
    ensures On(Lerp(p, q, u), a) == Mix(On(p, a), On(q, a), u)
  {
    hide Mix;
  }

  /** Between two points of the line, some leg holds every coordinate. */
  lemma SomeLegHolds(line: seq<Vector3>, a: Axis, p: Vector3, q: Vector3, f: real) returns (k: nat)
    requires OnPolyline(line, p) && OnPolyline(line, q) && 0.0 <= f <= 1.0
    ensures k + 1 < |line| && LegHolds(line, a, k, Mix(On(p, a), On(q, a), f))
  {
    hide On, OnPolyline, Mix;
    var w := Mix(On(p, a), On(q, a), f);
    if m: nat :| m + 1 < |line| && LegHolds(line, a, m, w) {
      k := m;
    } else {
      PointOneSide(line, a, w, p);
      PointOneSide(line, a, w, q);
      MixStaysBeside(On(p, a), On(q, a), f, w);
      assert false;
    }
  }

  lemma PointInLine(line: seq<Vector3>, j: nat, p: Vector3)
    requires Aligned(line) && j < |line| && OnPolyline(line, p)
    ensures InLine(line[0], line[j], p)
  {
    var k: nat, u :| IsPointOf(line, p, k, u);
    hide InLine, Lerp;
    assert InLine(line[0], line[j], line[k]) && InLine(line[0], line[j], line[k + 1]);
    InLineMixed(line[0], line[j], line[k], line[k + 1], u);
  }

  /** Along an axis the line moves on, the leg that holds the coordinate holds the point. */
  lemma MovingLineHolds(line: seq<Vector3>, j: nat, a: Axis, p: Vector3, q: Vector3, f: real)
    requires Aligned(line) && j < |line| && On(line[0], a) != On(line[j], a)
    requires OnPolyline(line, p) && OnPolyline(line, q) && 0.0 <= f <= 1.0
    ensures OnPolyline(line, Lerp(p, q, f))
  {
    hide On, Lerp, InLine, Aligned, Mix;
    var k := SomeLegHolds(line, a, p, q, f);
    var u := FractionAt(On(line[k], a), On(line[k + 1], a), Mix(On(p, a), On(q, a), f));
    var r := Lerp(line[k], line[k + 1], u);
    assert IsPointOf(line, r, k, u);
    PointInLine(line, j, r);
    PointInLine(line, j, p);
    PointInLine(line, j, q);
    InLineMixed(line[0], line[j], p, q, f);
    OnLerp(line[k], line[k + 1], u, a);
    OnLerp(p, q, f, a);
    SameOnLine(line[0], line[j], r, Lerp(p, q, f), a);
  }

  lemma StandingLineHolds(line: seq<Vector3>, p: Vector3, q: Vector3, f: real)
    requires forall j :: 0 <= j < |line| ==> line[j] == line[0]
    requires OnPolyline(line, p) && OnPolyline(line, q)
    ensures OnPolyline(line, Lerp(p, q, f))
  {
    var k: nat, u :| IsPointOf(line, p, k, u);
    var m: nat, v :| IsPointOf(line, q, m, v);
    assert p == line[0] && q == line[0];
    assert Lerp(p, q, f) == p;
  }

  lemma AlignedMeansStraight(line: seq<Vector3>)
    requires Aligned(line)
    ensures Straight(line)
  {
    hide OnPolyline, Aligned, Lerp, On;
    forall p, q, f | OnPolyline(line, p) && OnPolyline(line, q) && 0.0 <= f <= 1.0
      ensures OnPolyline(line, Lerp(p, q, f))
    {
      if j: nat :| j < |line| && line[j] != line[0] {
        var a := DifferingAxis(line[0], line[j]);
        MovingLineHolds(line, j, a, p, q, f);
      } else {
        StandingLineHolds(line, p, q, f);
      }
    }
  }

  lemma DifferingAxis(p: Vector3, q: Vector3) returns (a: Axis)
    requires p != q
    ensures On(p, a) != On(q, a)
  {
    a := if p.x != q.x then X else if p.y != q.y then Y else Z;
  }

  lemma FewVertices(line: seq<Vector3>)
    requires |line| < 2
    ensures Straight(line) && Aligned(line)
  {
  }

  /** A line holds all points between its points exactly when no three vertices span a triangle. */
  lemma StraightIff(line: seq<Vector3>)
    ensures Straight(line) <==> Aligned(line)
  {
    if Aligned(line) { AlignedMeansStraight(line); }
    if |line| < 2 {
      FewVertices(line);
    } else if Straight(line) {
      hide Straight, Cross;
      forall i, j, k | 0 <= i < |line| && 0 <= j < |line| && 0 <= k < |line|
        ensures InLine(line[i], line[j], line[k])
      {
        StraightMeansInLine(line, i, j, k, X);
        StraightMeansInLine(line, i, j, k, Y);
        StraightMeansInLine(line, i, j, k, Z);
      }
    }
  }
}
