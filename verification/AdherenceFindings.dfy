/** What the findings about goals, corridors and centrelines say of the flight, and when they are too strict. */
module AdherenceFindings {
  import opened Vectors
  import opened RouteTiming
  import opened PairClearance
  import opened BoxClearance
  import opened CaseModel
  import opened RouteAdherence

  // ----- goals -----

  /** A region is visited in flight exactly when some leg meets it. */
  lemma VisitedMeansLegMeets(root: real -> real, r: Route, region: Region3D)
    requires IsRoot(root) && ValidRoute(r)
    ensures Visits(root, r, region) <==>
      exists i :: 0 <= i < |r.points| - 1 && Meets(r.points[i], r.points[i + 1], region)
  {
    RouteIsPath(root, r);
    if Visits(root, r, region) {
      var t :| region.Contains(At(root, r, t));
      var i, f := PositionOnSomeLeg(PathOf(root, r), t);
      assert Meets(r.points[i], r.points[i + 1], region);
    }
    if i :| 0 <= i < |r.points| - 1 && Meets(r.points[i], r.points[i + 1], region) {
      var u :| 0.0 <= u <= 1.0 && region.Contains(Lerp(r.points[i], r.points[i + 1], u));
      var t := LegIsFlown(PathOf(root, r), i, u);
      assert region.Contains(At(root, r, t));
    }
  }

  predicate StandsStill(points: seq<Vector3>) {
    forall i :: 0 <= i < |points| - 1 ==> points[i] == points[i + 1]
  }

  lemma LerpInjective(a: Vector3, b: Vector3, u: real, v: real)
    requires a != b && Lerp(a, b, u) == Lerp(a, b, v)
    ensures u == v
  {
    hide Mix;
    if a.x != b.x { MixInjective(a.x, b.x, u, v); }
    if a.y != b.y { MixInjective(a.y, b.y, u, v); }
    if a.z != b.z { MixInjective(a.z, b.z, u, v); }
  }

  ghost predicate Avoids(a: Vector3, b: Vector3, points: seq<Vector3>, low: real, high: real) {
    forall u :: low < u < high ==> Lerp(a, b, u) !in points
  }

  /** Finitely many points leave some stretch of a moving leg free. */
  lemma {:induction false} ClearStretch(a: Vector3, b: Vector3, points: seq<Vector3>, lo: real, hi: real)
    returns (low: real, high: real)
    requires a != b && lo < hi
    ensures lo <= low < high <= hi && Avoids(a, b, points, low, high)
  {
    low, high := lo, hi;
    if points != [] {
      var n := |points| - 1;
      low, high := ClearStretch(a, b, points[..n], lo, hi);
      assert points == points[..n] + [points[n]];
      var middle := (low + high) / 2.0;
      if hit :| low < hit < middle && Lerp(a, b, hit) == points[n] {
        forall u | middle < u < high ensures Lerp(a, b, u) != points[n] {
          if Lerp(a, b, u) == points[n] { LerpInjective(a, b, u, hit); }
        }
        low := middle;
      } else {
        high := middle;
      }
    }
  }

  lemma StillLegStays(a: Vector3, u: real)
    ensures Lerp(a, a, u) == a
  {
  }

  ghost predicate GoalCheckExact(root: real -> real, r: Route)
    requires ValidRoute(r)
  {
    forall goal: Region3D :: goal.Ordered() ==> (Visits(root, r, goal) <==> Reaches(r.points, goal))
  }

  /** The goal check looks at vertices only: it tells visited from unvisited for every goal exactly on routes
      that do not move. */
  lemma GoalCheckExactIff(root: real -> real, r: Route)
    requires IsRoot(root) && ValidRoute(r)
    ensures GoalCheckExact(root, r) <==> StandsStill(r.points)
  {
    hide Lerp;
    if StandsStill(r.points) {
      forall goal: Region3D
        ensures Visits(root, r, goal) <==> Reaches(r.points, goal)
      {
        StillIsExact(root, r, goal);
      }
    } else {
      var i :| 0 <= i < |r.points| - 1 && r.points[i] != r.points[i + 1];
      var low, high := ClearStretch(r.points[i], r.points[i + 1], r.points, 0.0, 1.0);
      var p := Lerp(r.points[i], r.points[i + 1], (low + high) / 2.0);
      var goal := Region3D("", p, p);
      assert goal.Ordered() && goal.Contains(p);
      assert Meets(r.points[i], r.points[i + 1], goal);
      VisitedMeansLegMeets(root, r, goal);
      assert !Reaches(r.points, goal) by { OnlyOnePoint(r.points, p); }
    }
  }

  lemma OnlyOnePoint(points: seq<Vector3>, p: Vector3)
    requires p !in points
    ensures !Reaches(points, Region3D("", p, p))
  {
    forall i | 0 <= i < |points| ensures !Region3D("", p, p).Contains(points[i]) {
      assert points[i] != p;
    }
  }

  lemma StillIsExact(root: real -> real, r: Route, goal: Region3D)
    requires IsRoot(root) && ValidRoute(r) && StandsStill(r.points)
    ensures Visits(root, r, goal) <==> Reaches(r.points, goal)
  {
    VisitedMeansLegMeets(root, r, goal);
    if Visits(root, r, goal) {
      var i :| 0 <= i < |r.points| - 1 && Meets(r.points[i], r.points[i + 1], goal);
      var u :| 0.0 <= u <= 1.0 && goal.Contains(Lerp(r.points[i], r.points[i + 1], u));
      StillLegStays(r.points[i], u);
      assert goal.Contains(r.points[i]);
    }
    if Reaches(r.points, goal) {
      GoalsAreVisited(root, r, [goal]);
      assert Visits(root, r, [goal][0]);
    }
  }

  /** A leg flown right through a goal that holds none of its ends: the goal is reported as missed. */
  lemma GoalCrossedMidLeg(root: real -> real, planning: Planning, corridors: seq<Region3D>, region: Region3D)
    requires IsRoot(root) && planning.Valid()
    ensures var goal := Region3D("goal", Vector3(0.9, -0.1, 0.9), Vector3(1.1, 0.1, 1.1));
      var r := Route("r", [Vector3(0.0, 0.0, 1.0), Vector3(2.0, 0.0, 1.0)], 0.0, 10.0, []);
      && ValidRoute(r) && goal.Ordered() && Visits(root, r, goal)
      && RequiredGoal("r") in RouteFindings(root, r, Drone("r", region, [goal], region), corridors, planning)
  {
    var goal := Region3D("goal", Vector3(0.9, -0.1, 0.9), Vector3(1.1, 0.1, 1.1));
    var r := Route("r", [Vector3(0.0, 0.0, 1.0), Vector3(2.0, 0.0, 1.0)], 0.0, 10.0, []);
    assert goal.Contains(Lerp(r.points[0], r.points[1], 0.5));
    assert Meets(r.points[0], r.points[0 + 1], goal);
    VisitedMeansLegMeets(root, r, goal);
    var goals := [goal];
    assert !Reaches(r.points, goals[0]);
    assert !ReachesAll(r.points, goals);
  }

  // ----- corridors -----

  /** The last fraction in [0, 1] at which a coordinate that was between two faces still is. */
  function AxisExit(a: real, b: real, low: real, high: real): real {
    if a < b then Min(1.0, (high - a) / (b - a))
    else if b < a then Min(1.0, (a - low) / (a - b))
    else 1.0
  }

  function Exit(a: Vector3, b: Vector3, box: Region3D): real {
    Min(AxisExit(a.x, b.x, box.minimum.x, box.maximum.x),
        Min(AxisExit(a.y, b.y, box.minimum.y, box.maximum.y), AxisExit(a.z, b.z, box.minimum.z, box.maximum.z)))
  }

  lemma QuotientAtLeast(v: real, x: real, w: real)
    requires 0.0 < w
    ensures v <= x / w <==> v * w <= x
  {
    var q := x / w;
    QuotientBack(x, w);
    if v <= q { ProductNonNegative(q - v, w); } else { ProductPositive(v - q, w); }
  }

  lemma Climbs(a: real, b: real, u: real, v: real)
    requires a <= b && u <= v
    ensures Mix(a, b, u) <= Mix(a, b, v)
  {
    ProductNonNegative(b - a, v - u);
  }

  lemma MixFlipped(a: real, b: real, f: real)
    ensures Mix(-a, -b, f) == -Mix(a, b, f)
  {
  }

  lemma RisingExit(a: real, b: real, low: real, high: real, u: real, v: real)
    requires a < b && u <= v <= 1.0 && low <= Mix(a, b, u)
    ensures low <= Mix(a, b, v)
    ensures Mix(a, b, v) <= high <==> v <= Min(1.0, (high - a) / (b - a))
  {
    Climbs(a, b, u, v);
    QuotientAtLeast(v, high - a, b - a);
    assert v * (b - a) == (b - a) * v;
  }

  lemma AxisLeaves(a: real, b: real, low: real, high: real, u: real, v: real)
    requires u <= v <= 1.0 && low <= Mix(a, b, u) <= high
    ensures low <= Mix(a, b, v) <= high <==> v <= AxisExit(a, b, low, high)
  {
    if a < b {
      RisingExit(a, b, low, high, u, v);
    } else if b < a {
      MixFlipped(a, b, u);
      MixFlipped(a, b, v);
      RisingExit(-a, -b, -high, -low, u, v);
      assert (-low - -a) / (-b - -a) == (a - low) / (a - b);
    }
  }

  /** A box left behind is left at its exit: what held a point of the leg holds the later ones up to there. */
  lemma BoxLeaves(a: Vector3, b: Vector3, box: Region3D, u: real, v: real)
    requires u <= v <= 1.0 && box.Contains(Lerp(a, b, u))
    ensures box.Contains(Lerp(a, b, v)) <==> v <= Exit(a, b, box)
  {
    hide Mix, AxisExit;
    AxisLeaves(a.x, b.x, box.minimum.x, box.maximum.x, u, v);
    AxisLeaves(a.y, b.y, box.minimum.y, box.maximum.y, u, v);
    AxisLeaves(a.z, b.z, box.minimum.z, box.maximum.z, u, v);
  }

  /** Where the leg leaves corridor k before its end, another corridor goes on. */
  predicate HandedOver(a: Vector3, b: Vector3, corridors: seq<Region3D>, k: nat)
    requires k < |corridors|
  {
    var e := Exit(a, b, corridors[k]);
    0.0 <= e < 1.0 && corridors[k].Contains(Lerp(a, b, e)) ==>
      exists j :: 0 <= j < |corridors| && GoesOn(a, b, corridors[j], e)
  }

  predicate GoesOn(a: Vector3, b: Vector3, box: Region3D, e: real) {
    box.Contains(Lerp(a, b, e)) && e < Exit(a, b, box)
  }

  /** A finite check of one leg: some corridor holds its start, and each corridor it leaves hands it over. */
  predicate HandsOver(a: Vector3, b: Vector3, corridors: seq<Region3D>) {
    && (exists j :: 0 <= j < |corridors| && corridors[j].Contains(Lerp(a, b, 0.0)))
    && forall k :: 0 <= k < |corridors| ==> HandedOver(a, b, corridors, k)
  }

  ghost predicate LegCovered(a: Vector3, b: Vector3, corridors: seq<Region3D>) {
    forall u :: 0.0 <= u <= 1.0 ==> InSomeCorridor(corridors, Lerp(a, b, u))
  }

  /** The corridors with a later exit. */
  ghost function LaterExits(a: Vector3, b: Vector3, corridors: seq<Region3D>, e: real): set<nat> {
    set j: nat | j < |corridors| && e < Exit(a, b, corridors[j])
  }

  lemma {:induction false} Carried(a: Vector3, b: Vector3, corridors: seq<Region3D>, k: nat, v: real, u: real)
    requires HandsOver(a, b, corridors) && k < |corridors|
    requires 0.0 <= v <= u <= 1.0 && corridors[k].Contains(Lerp(a, b, v))
    ensures InSomeCorridor(corridors, Lerp(a, b, u))
    decreases LaterExits(a, b, corridors, Exit(a, b, corridors[k]))
  {
    hide Exit, Lerp, Region3D.Contains;
    var e := Exit(a, b, corridors[k]);
    BoxLeaves(a, b, corridors[k], v, u);
    if e < u {
      BoxLeaves(a, b, corridors[k], v, v);
      BoxLeaves(a, b, corridors[k], v, e);
      assert HandedOver(a, b, corridors, k);
      var j: nat :| j < |corridors| && GoesOn(a, b, corridors[j], e);
      assert j in LaterExits(a, b, corridors, e) && j !in LaterExits(a, b, corridors, Exit(a, b, corridors[j]));
      Carried(a, b, corridors, j, e, u);
    }
  }

  lemma Falls(a: real, b: real, u: real, v: real)
    requires b <= a && u <= v
    ensures Mix(a, b, v) <= Mix(a, b, u)
  {
    ProductNonNegative(a - b, v - u);
  }

  lemma HalfTheMargin(a: real, b: real, high: real, e: real, span: real)
    requires high < Mix(a, b, e) && span * (2.0 * (a - b)) == Mix(a, b, e) - high
    ensures high < Mix(a, b, e + span)
  {
  }

  /** A coordinate above a face stays above it for a while. */
  lemma StaysAbove(a: real, b: real, high: real, e: real, hi: real) returns (v: real)
    requires e < hi && high < Mix(a, b, e)
    ensures e < v <= hi && forall w :: e < w <= v ==> high < Mix(a, b, w)
  {
    hide Mix;
    if a <= b {
      v := hi;
      forall w | e < w <= v ensures high < Mix(a, b, w) { Climbs(a, b, e, w); }
    } else {
      var margin := Mix(a, b, e) - high;
      var span := margin / (2.0 * (a - b));
      QuotientBack(margin, 2.0 * (a - b));
      Quotient(margin, 2.0 * (a - b));
      HalfTheMargin(a, b, high, e, span);
      v := Min(hi, e + span);
      forall w | e < w <= v ensures high < Mix(a, b, w) { Falls(a, b, w, e + span); }
    }
  }

  ghost predicate AxisOutside(a: real, b: real, low: real, high: real, e: real) { Mix(a, b, e) < low || high < Mix(a, b, e) }

  lemma AxisStaysOutside(a: real, b: real, low: real, high: real, e: real, hi: real) returns (v: real)
    requires e < hi && AxisOutside(a, b, low, high, e)
    ensures e < v <= hi && forall w :: e < w <= v ==> AxisOutside(a, b, low, high, w)
  {
    if high < Mix(a, b, e) {
      v := StaysAbove(a, b, high, e, hi);
    } else {
      MixFlipped(a, b, e);
      v := StaysAbove(-a, -b, -low, e, hi);
      forall w | e < w <= v ensures AxisOutside(a, b, low, high, w) { MixFlipped(a, b, w); }
    }
  }

  ghost predicate ClearAfter(a: Vector3, b: Vector3, box: Region3D, e: real, v: real) {
    forall w :: e < w <= v ==> !box.Contains(Lerp(a, b, w))
  }

  /** A leg that is outside a box stays outside for a while. */
  lemma BoxStaysClear(a: Vector3, b: Vector3, box: Region3D, e: real, hi: real) returns (v: real)
    requires e < hi && !box.Contains(Lerp(a, b, e))
    ensures e < v <= hi && ClearAfter(a, b, box, e, v)
  {
    hide Mix;
    if AxisOutside(a.x, b.x, box.minimum.x, box.maximum.x, e) {
      v := AxisStaysOutside(a.x, b.x, box.minimum.x, box.maximum.x, e, hi);
      forall w | e < w <= v ensures !box.Contains(Lerp(a, b, w)) {
        assert AxisOutside(a.x, b.x, box.minimum.x, box.maximum.x, w);
      }
    } else if AxisOutside(a.y, b.y, box.minimum.y, box.maximum.y, e) {
      v := AxisStaysOutside(a.y, b.y, box.minimum.y, box.maximum.y, e, hi);
      forall w | e < w <= v ensures !box.Contains(Lerp(a, b, w)) {
        assert AxisOutside(a.y, b.y, box.minimum.y, box.maximum.y, w);
      }
    } else {
      v := AxisStaysOutside(a.z, b.z, box.minimum.z, box.maximum.z, e, hi);
      forall w | e < w <= v ensures !box.Contains(Lerp(a, b, w)) {
        assert AxisOutside(a.z, b.z, box.minimum.z, box.maximum.z, w);
      }
    }
  }

  ghost predicate AllClearAfter(a: Vector3, b: Vector3, corridors: seq<Region3D>, e: real, v: real) {
    forall j :: 0 <= j < |corridors| ==> ClearAfter(a, b, corridors[j], e, v)
  }

  /** If no corridor that holds the point at e goes on, the leg is in no corridor for a while. */
  lemma {:induction false} GapAfter(a: Vector3, b: Vector3, corridors: seq<Region3D>, e: real) returns (v: real)
    requires 0.0 <= e < 1.0 && forall j :: 0 <= j < |corridors| ==> !GoesOn(a, b, corridors[j], e)
    ensures e < v <= 1.0 && AllClearAfter(a, b, corridors, e, v)
  {
    hide Lerp, Region3D.Contains, Exit;
    v := 1.0;
    if corridors != [] {
      var n := |corridors| - 1;
      var before := GapAfter(a, b, corridors[..n], e);
      var box := corridors[n];
      if box.Contains(Lerp(a, b, e)) {
        v := before;
        forall w | e < w <= v ensures !box.Contains(Lerp(a, b, w)) { BoxLeaves(a, b, box, e, w); }
      } else {
        v := BoxStaysClear(a, b, box, e, before);
      }
      forall j | 0 <= j < |corridors| ensures ClearAfter(a, b, corridors[j], e, v) {
        if j < n { assert ClearAfter(a, b, corridors[..n][j], e, before); }
      }
    }
  }

  lemma GapUncovers(a: Vector3, b: Vector3, corridors: seq<Region3D>, e: real, v: real)
    requires 0.0 <= e < v <= 1.0 && AllClearAfter(a, b, corridors, e, v)
    ensures !LegCovered(a, b, corridors)
  {
    forall j | 0 <= j < |corridors| ensures !corridors[j].Contains(Lerp(a, b, v)) {
      assert ClearAfter(a, b, corridors[j], e, v);
    }
    assert !InSomeCorridor(corridors, Lerp(a, b, v));
  }

  /** The finite check decides whether a leg ever leaves the corridors. */
  lemma LegCoveredIff(a: Vector3, b: Vector3, corridors: seq<Region3D>)
    ensures LegCovered(a, b, corridors) <==> HandsOver(a, b, corridors)
  {
    hide Lerp, Region3D.Contains, Exit;
    if HandsOver(a, b, corridors) {
      var j: nat :| j < |corridors| && corridors[j].Contains(Lerp(a, b, 0.0));
      forall u | 0.0 <= u <= 1.0 ensures InSomeCorridor(corridors, Lerp(a, b, u)) {
        Carried(a, b, corridors, j, 0.0, u);
      }
    }
    if LegCovered(a, b, corridors) {
      assert InSomeCorridor(corridors, Lerp(a, b, 0.0));
      forall k | 0 <= k < |corridors| ensures HandedOver(a, b, corridors, k) {
        var e := Exit(a, b, corridors[k]);
        if 0.0 <= e < 1.0 && forall j :: 0 <= j < |corridors| ==> !GoesOn(a, b, corridors[j], e) {
          var v := GapAfter(a, b, corridors, e);
          GapUncovers(a, b, corridors, e, v);
        }
      }
    }
  }

  /** Every leg is handed over from corridor to corridor. */
  predicate LegsHandOver(r: Route, corridors: seq<Region3D>) {
    forall i :: 0 <= i < |r.points| - 1 ==> LegHandsOver(r, corridors, i)
  }

  predicate LegHandsOver(r: Route, corridors: seq<Region3D>, i: nat)
    requires i + 1 < |r.points|
  {
    HandsOver(r.points[i], r.points[i + 1], corridors)
  }

  lemma CoveredLegsKeep(root: real -> real, r: Route, corridors: seq<Region3D>)
    requires IsRoot(root) && ValidRoute(r) && LegsHandOver(r, corridors)
    ensures AlwaysInCorridors(root, r, corridors)
  {
    hide HandsOver, InSomeCorridor, Lerp;
    RouteIsPath(root, r);
    forall t ensures InSomeCorridor(corridors, At(root, r, t)) {
      var i, f := PositionOnSomeLeg(PathOf(root, r), t);
      assert LegHandsOver(r, corridors, i);
      LegCoveredIff(r.points[i], r.points[i + 1], corridors);
      assert InSomeCorridor(corridors, Lerp(r.points[i], r.points[i + 1], f));
    }
  }

  lemma KeptLegIsCovered(root: real -> real, r: Route, corridors: seq<Region3D>, i: nat)
    requires IsRoot(root) && ValidRoute(r) && AlwaysInCorridors(root, r, corridors) && i + 1 < |r.points|
    ensures LegCovered(r.points[i], r.points[i + 1], corridors)
  {
    hide InSomeCorridor, Lerp;
    RouteIsPath(root, r);
    var a, b := r.points[i], r.points[i + 1];
    forall u | 0.0 <= u <= 1.0
      ensures InSomeCorridor(corridors, Lerp(a, b, u))
    {
      var t := LegIsFlown(PathOf(root, r), i, u);
      assert InSomeCorridor(corridors, At(root, r, t));
    }
  }

  /** The flight never leaves the corridors exactly when every leg is handed over from corridor to corridor; the
      corridor check of the source asks for one corridor per leg, which is more. */
  lemma CorridorsKeptIff(root: real -> real, r: Route, corridors: seq<Region3D>)
    requires IsRoot(root) && ValidRoute(r)
    ensures AlwaysInCorridors(root, r, corridors) <==> LegsHandOver(r, corridors)
  {
    if LegsHandOver(r, corridors) { CoveredLegsKeep(root, r, corridors); }
    if AlwaysInCorridors(root, r, corridors) {
      hide HandsOver, AlwaysInCorridors, LegCovered;
      forall i | 0 <= i < |r.points| - 1
        ensures LegHandsOver(r, corridors, i)
      {
        KeptLegIsCovered(root, r, corridors, i);
        LegCoveredIff(r.points[i], r.points[i + 1], corridors);
      }
    }
  }

  /** One leg of three metres and two corridors that share its middle metre. */
  const ACROSS := Route("r", [Vector3(0.0, 0.0, 1.0), Vector3(3.0, 0.0, 1.0)], 0.0, 10.0, [])
  const OVERLAPPING := [Region3D("first", Vector3(0.0, -1.0, 0.0), Vector3(2.0, 1.0, 2.0)),
                        Region3D("second", Vector3(1.0, -1.0, 0.0), Vector3(3.0, 1.0, 2.0))]

  lemma AcrossIsInside(f: real)
    requires 0.0 <= f <= 1.0
    ensures InSomeCorridor(OVERLAPPING, Lerp(ACROSS.points[0], ACROSS.points[1], f))
  {
    var p := Lerp(ACROSS.points[0], ACROSS.points[1], f);
    assert p == Vector3(3.0 * f, 0.0, 1.0);
    assert OVERLAPPING[0].Contains(p) || OVERLAPPING[1].Contains(p);
  }

  lemma AcrossIsReported()
    ensures !InCorridors(ACROSS, OVERLAPPING)
  {
    assert !OVERLAPPING[0].Contains(ACROSS.points[1]) && !OVERLAPPING[1].Contains(ACROSS.points[0]);
    assert !LegInCorridor(ACROSS, OVERLAPPING, 0);
  }

  /** The leg across is reported, although the flight never leaves the corridors. */
  lemma LegAcrossTwoCorridors(root: real -> real, planning: Planning, d: Drone)
    requires IsRoot(root) && planning.Valid() && planning.mode.RouteCorridor? && d.goals != []
    ensures ValidRoute(ACROSS) && AlwaysInCorridors(root, ACROSS, OVERLAPPING)
    ensures CorridorLeft("r") in RouteFindings(root, ACROSS, d, OVERLAPPING, planning)
  {
    hide InSomeCorridor, Lerp, InCorridors, ReachesAll, LeavesCenterline;
    RouteIsPath(root, ACROSS);
    forall t ensures InSomeCorridor(OVERLAPPING, At(root, ACROSS, t)) {
      var i, f := PositionOnSomeLeg(PathOf(root, ACROSS), t);
      AcrossIsInside(f);
    }
    AcrossIsReported();
  }

  // ----- centrelines -----

  /** A point is farther than a distance from every point of a polyline. */
  ghost predicate FarFromLine(root: real -> real, p: Vector3, line: seq<Vector3>, distance: real) {
    forall k: nat, u :: k + 1 < |line| && 0.0 <= u <= 1.0 ==> FartherThan(root, p, line, k, u, distance)
  }

  ghost predicate FartherThan(root: real -> real, p: Vector3, line: seq<Vector3>, k: nat, u: real, distance: real)
    requires k + 1 < |line|
  {
    distance < Distance(root, p, Lerp(line[k], line[k + 1], u))
  }

  lemma {:induction false} PolylineNearest(root: real -> real, p: Vector3, line: seq<Vector3>, k: nat, u: real)
    requires IsRoot(root) && k + 1 < |line| && 0.0 <= u <= 1.0
    ensures PolylineDistance(root, p, line) <= Distance(root, p, Lerp(line[k], line[k + 1], u)) + 1e-9
  {
    hide PointSegmentDistance, Distance, Lerp;
    if k == 0 {
      PointSegmentNearest(root, p, line[0], line[1], u);
    } else {
      PolylineNearest(root, p, line[1..], k - 1, u);
    }
  }

  lemma {:induction false} DeviationAttained(root: real -> real, points: seq<Vector3>, line: seq<Vector3>) returns (i: nat)
    requires points != [] && 2 <= |line|
    ensures i < |points| && PolylineDistance(root, points[i], line) == MaximumDeviation(root, points, line)
  {
    hide PolylineDistance;
    i := 0;
    if 1 < |points| && PolylineDistance(root, points[0], line) < MaximumDeviation(root, points[1..], line) {
      var j := DeviationAttained(root, points[1..], line);
      i := j + 1;
    }
  }

  /** A deviation above a limit is a vertex farther than that limit from every point of the line. */
  lemma DeviationIsReal(root: real -> real, points: seq<Vector3>, line: seq<Vector3>, limit: real) returns (i: nat)
    requires IsRoot(root) && points != [] && 2 <= |line| && limit + 1e-9 < MaximumDeviation(root, points, line)
    ensures i < |points| && FarFromLine(root, points[i], line, limit)
  {
    hide PolylineDistance, MaximumDeviation, Distance, Lerp;
    i := DeviationAttained(root, points, line);
    forall k: nat, u | k + 1 < |line| && 0.0 <= u <= 1.0
      ensures FartherThan(root, points[i], line, k, u, limit)
    {
      PolylineNearest(root, points[i], line, k, u);
    }
  }

  // ----- a finding about one route -----

  ghost predicate MissesEveryVertex(points: seq<Vector3>, region: Region3D) {
    forall i :: 0 <= i < |points| ==> !region.Contains(points[i])
  }

  /** What a finding about a route says of it. */
  ghost predicate RouteFindingHappens(root: real -> real, r: Route, d: Drone, corridors: seq<Region3D>, planning: Planning,
                                      v: Violation)
    requires ValidRoute(r) && d.goals != [] && planning.Valid()
  {
    match v
    case RequiredGoal(role) =>
      role == r.roleId && exists k :: 0 <= k < |d.goals| && MissesEveryVertex(r.points, d.goals[k])
    case CorridorLeft(role) =>
      role == r.roleId && planning.mode.RouteCorridor? && exists i :: 0 <= i < |r.points| - 1 && LegLeavesCorridors(r, corridors, i)
    case CenterlineDeviation(role) =>
      role == r.roleId && planning.mode.NeedsCenterline() && SomeVertexFar(root, r, Authored(d), planning.maximumDeviation.value)
    case _ => false
  }

  /** A vertex that far from every point of the line makes the deviation exceed the distance. */
  lemma {:induction false} FarVertexDeviates(root: real -> real, points: seq<Vector3>, line: seq<Vector3>, limit: real, i: nat)
    requires IsRoot(root) && i < |points| && 2 <= |line| && FarFromLine(root, points[i], line, limit)
    ensures limit < MaximumDeviation(root, points, line)
  {
    hide FartherThan;
    if MaximumDeviation(root, points, line) <= limit {
      DeviationBoundsVertices(root, points, line, limit, i);
      NearIsNotFar(root, points[i], line, limit);
    }
  }

  lemma NearIsNotFar(root: real -> real, p: Vector3, line: seq<Vector3>, limit: real)
    requires NearLine(root, p, line, limit)
    ensures !FarFromLine(root, p, line, limit)
  {
    var k :| 0 <= k < |line| - 1 && NearLeg(root, p, line[k], line[k + 1], limit);
    var u :| 0.0 <= u <= 1.0 && Distance(root, p, Lerp(line[k], line[k + 1], u)) <= limit;
    assert !FartherThan(root, p, line, k, u, limit);
  }

  ghost predicate SomeVertexFar(root: real -> real, r: Route, line: seq<Vector3>, distance: real) {
    exists i :: 0 <= i < |r.points| && FarFromLine(root, r.points[i], line, distance)
  }

  /** Which findings a route has: those about goals and corridors exactly when a goal holds no vertex and a leg no single
      corridor; the one about the centreline when a vertex is farther than the limit by more than 1e-9, and only when one is
      farther than the limit. */
  lemma RouteFindingsIff(root: real -> real, r: Route, d: Drone, corridors: seq<Region3D>, planning: Planning, v: Violation)
    requires IsRoot(root) && ValidRoute(r) && d.goals != [] && planning.Valid()
    ensures v in RouteFindings(root, r, d, corridors, planning) ==> RouteFindingHappens(root, r, d, corridors, planning, v)
    ensures !v.CenterlineDeviation? && RouteFindingHappens(root, r, d, corridors, planning, v) ==>
      v in RouteFindings(root, r, d, corridors, planning)
    ensures planning.mode.NeedsCenterline() && SomeVertexFar(root, r, Authored(d), planning.maximumDeviation.value + 1e-9) ==>
      CenterlineDeviation(r.roleId) in RouteFindings(root, r, d, corridors, planning)
  {
    hide FarFromLine, MaximumDeviation, Reaches, MissesEveryVertex, LegInCorridor, LegLeavesCorridors;
    GoalFindingIff(r.points, d.goals);
    CorridorFindingIff(r, corridors);
    if planning.mode.NeedsCenterline() {
      var line, limit := Authored(d), planning.maximumDeviation.value;
      if limit + TOLERANCE < MaximumDeviation(root, r.points, line) {
        var i := DeviationIsReal(root, r.points, line, limit);
      }
      if i :| 0 <= i < |r.points| && FarFromLine(root, r.points[i], line, limit + 1e-9) {
        FarVertexDeviates(root, r.points, line, limit + 1e-9, i);
      }
    }
  }

  lemma GoalFindingIff(points: seq<Vector3>, goals: seq<Region3D>)
    ensures !ReachesAll(points, goals) <==> exists k :: 0 <= k < |goals| && MissesEveryVertex(points, goals[k])
  {
    forall k | 0 <= k < |goals| ensures Reaches(points, goals[k]) <==> !MissesEveryVertex(points, goals[k]) {
    }
    hide Reaches, MissesEveryVertex;
  }

  lemma CorridorFindingIff(r: Route, corridors: seq<Region3D>)
    ensures !InCorridors(r, corridors) <==> exists i :: 0 <= i < |r.points| - 1 && LegLeavesCorridors(r, corridors, i)
  {
    forall i | 0 <= i < |r.points| - 1 ensures LegInCorridor(r, corridors, i) <==> !LegLeavesCorridors(r, corridors, i) {
    }
    hide LegInCorridor, LegLeavesCorridors;
  }
}
