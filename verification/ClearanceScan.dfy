/** The scans behind the certificate: finitely many checks that stand for every instant of every route. */
module ClearanceScan {
  import opened Wrappers
  import opened Vectors
  import opened RouteTiming
  import opened PairClearance
  import opened BoxClearance
  import opened CaseModel

  const UNBOUNDED: real := 1000000.0

  // ----- pairs -----

  /** Two routes are never closer than a bound. */
  ghost predicate NeverCloser(root: real -> real, a: Route, b: Route, bound: real)
    requires ValidRoute(a) && ValidRoute(b)
  {
    forall t :: bound <= CenterDistance(root, a, b, t)
  }

  /** Two routes are exactly some distance apart at some instant. */
  ghost predicate SometimeApart(root: real -> real, a: Route, b: Route, distance: real)
    requires ValidRoute(a) && ValidRoute(b)
  {
    exists t :: CenterDistance(root, a, b, t) == distance
  }

  lemma NeverCloserWeaker(root: real -> real, a: Route, b: Route, bound: real, weaker: real)
    requires ValidRoute(a) && ValidRoute(b)
    requires weaker <= bound && NeverCloser(root, a, b, bound)
    ensures NeverCloser(root, a, b, weaker)
  {
    forall t ensures weaker <= CenterDistance(root, a, b, t) {
      assert bound <= CenterDistance(root, a, b, t);
    }
  }

  /** No pair is ever closer than the required distance plus the reported clearance, less a nanometre. */
  ghost predicate PairsKeep(root: real -> real, routes: seq<Route>, required: real, clearance: real)
    requires ValidRoutes(routes)
  {
    forall i, j :: 0 <= i < j < |routes| ==>
      NeverCloser(root, routes[i], routes[j], clearance + required - 1e-9)
  }

  /** The reported clearance is the cap or belongs to some pair at some instant. */
  ghost predicate PairsReach(root: real -> real, routes: seq<Route>, required: real, clearance: real)
    requires ValidRoutes(routes)
  {
    clearance == 1000000.0 || exists i, j ::
      0 <= i < j < |routes| && SometimeApart(root, routes[i], routes[j], clearance + required)
  }

  /** The pairs before (m, n) in the order of inspection. */
  ghost predicate PairsKeepUpTo(root: real -> real, routes: seq<Route>, required: real, clearance: real, m: nat, n: nat)
    requires ValidRoutes(routes)
  {
    forall i, j :: 0 <= i < j < |routes| && (i < m || (i == m && j < n)) ==>
      NeverCloser(root, routes[i], routes[j], clearance + required - 1e-9)
  }

  lemma PairInspected(root: real -> real, routes: seq<Route>, required: real, clearance: real, m: nat, n: nat, centers: real)
    requires ValidRoutes(routes) && m < n < |routes|
    requires PairsKeepUpTo(root, routes, required, clearance, m, n) && PairsReach(root, routes, required, clearance)
    requires NeverCloser(root, routes[m], routes[n], centers - 1e-9)
    requires SometimeApart(root, routes[m], routes[n], centers)
    ensures PairsKeepUpTo(root, routes, required, Min(clearance, centers - required), m, n + 1)
    ensures PairsReach(root, routes, required, Min(clearance, centers - required))
  {
    var least := Min(clearance, centers - required);
    forall i, j | 0 <= i < j < |routes| && (i < m || (i == m && j < n + 1))
      ensures NeverCloser(root, routes[i], routes[j], least + required - 1e-9)
    {
      if i == m && j == n {
        NeverCloserWeaker(root, routes[m], routes[n], centers - 1e-9, least + required - 1e-9);
      } else {
        NeverCloserWeaker(root, routes[i], routes[j], clearance + required - 1e-9, least + required - 1e-9);
      }
    }
    if centers - required < clearance {
      assert centers == least + required;
    }
  }

  method CenterDistanceMinimum(root: real -> real, a: Route, b: Route) returns (centers: real)
    requires IsRoot(root) && ValidRoute(a) && ValidRoute(b)
    ensures NeverCloser(root, a, b, centers - 1e-9)
    ensures SometimeApart(root, a, b, centers)
  {
    centers := ContinuousRouteDistance(root, a, b);
    ghost var t :| Separation(root, PathOf(root, a), PathOf(root, b), t) == centers;
    assert CenterDistance(root, a, b, t) == centers;
  }

  /** The scan has inspected the pairs before (m, n). */
  ghost predicate PairScan(root: real -> real, routes: seq<Route>, required: real, clearance: real, m: nat, n: nat)
    requires ValidRoutes(routes)
  {
    PairsKeepUpTo(root, routes, required, clearance, m, n) && PairsReach(root, routes, required, clearance)
  }

  lemma PairScanStarts(root: real -> real, routes: seq<Route>, required: real)
    requires ValidRoutes(routes)
    ensures PairScan(root, routes, required, UNBOUNDED, 0, 0)
  {
  }

  lemma PairRowStarts(root: real -> real, routes: seq<Route>, required: real, clearance: real, m: nat)
    requires ValidRoutes(routes) && PairScan(root, routes, required, clearance, m, 0)
    ensures PairScan(root, routes, required, clearance, m, m + 1)
  {
  }

  lemma PairRowEnds(root: real -> real, routes: seq<Route>, required: real, clearance: real, m: nat)
    requires ValidRoutes(routes) && PairScan(root, routes, required, clearance, m, |routes|)
    ensures PairScan(root, routes, required, clearance, m + 1, 0)
  {
  }

  lemma PairScanEnds(root: real -> real, routes: seq<Route>, required: real, clearance: real)
    requires ValidRoutes(routes) && PairScan(root, routes, required, clearance, |routes|, 0)
    ensures PairsKeep(root, routes, required, clearance) && PairsReach(root, routes, required, clearance)
  {
  }

  /** One pair: both figures move on. */
  method InspectPair(root: real -> real, routes: seq<Route>, diameter: real, apart: real, i: nat, j: nat,
                     nominal: real, protected: real)
    returns (nominal': real, protected': real)
    requires IsRoot(root) && ValidRoutes(routes) && i < j < |routes|
    requires PairScan(root, routes, diameter, nominal, i, j) && PairScan(root, routes, apart, protected, i, j)
    ensures PairScan(root, routes, diameter, nominal', i, j + 1) && PairScan(root, routes, apart, protected', i, j + 1)
  {
    hide PairsKeepUpTo, PairsReach, NeverCloser, SometimeApart;
    var centers := CenterDistanceMinimum(root, routes[i], routes[j]);
    PairInspected(root, routes, diameter, nominal, i, j, centers);
    PairInspected(root, routes, apart, protected, i, j, centers);
    nominal' := Min(nominal, centers - diameter);
    protected' := Min(protected, centers - apart);
  }

  method PairwiseClearances(root: real -> real, routes: seq<Route>, policy: ClearancePolicy)
    returns (nominal: real, protected: real)
    requires IsRoot(root) && ValidRoutes(routes)
    ensures PairsKeep(root, routes, 2.0 * policy.radius, nominal)
    ensures PairsReach(root, routes, 2.0 * policy.radius, nominal)
    ensures PairsKeep(root, routes, policy.pairSeparation, protected)
    ensures PairsReach(root, routes, policy.pairSeparation, protected)
  {
    hide PairScan, PairsKeep, PairsReach;
    nominal, protected := UNBOUNDED, UNBOUNDED;
    var diameter, apart := 2.0 * policy.radius, policy.pairSeparation;
    PairScanStarts(root, routes, diameter);
    PairScanStarts(root, routes, apart);
    for i := 0 to |routes|
      invariant PairScan(root, routes, diameter, nominal, i, 0) && PairScan(root, routes, apart, protected, i, 0)
    {
      PairRowStarts(root, routes, diameter, nominal, i);
      PairRowStarts(root, routes, apart, protected, i);
      for j := i + 1 to |routes|
        invariant PairScan(root, routes, diameter, nominal, i, j) && PairScan(root, routes, apart, protected, i, j)
      {
        nominal, protected := InspectPair(root, routes, diameter, apart, i, j, nominal, protected);
      }
      PairRowEnds(root, routes, diameter, nominal, i);
      PairRowEnds(root, routes, apart, protected, i);
    }
    PairScanEnds(root, routes, diameter, nominal);
    PairScanEnds(root, routes, apart, protected);
  }

  // ----- solids -----

  lemma SearchErrorMonotone(a: real, b: real)
    requires a <= b
    ensures SearchError(a) <= SearchError(b)
  {
    ShrinkPositive(SEARCH_STEPS);
    HalfWidthMonotone(a, b, Shrink(SEARCH_STEPS));
  }

  lemma HalfWidthMonotone(a: real, b: real, width: real)
    requires a <= b && 0.0 <= width
    ensures HalfWidth(a, width) <= HalfWidth(b, width)
  {
    ProductNonNegative(b - a, width);
  }

  /** A route never comes nearer to a box than a bound, up to the search error. */
  ghost predicate NeverNearer(root: real -> real, r: Route, box: Region3D, bound: real)
    requires ValidRoute(r)
  {
    forall t :: bound <= SolidDistance(root, r, box, t) + SolidError(root, r)
  }

  ghost predicate SometimeWithin(root: real -> real, r: Route, box: Region3D, distance: real)
    requires ValidRoute(r)
  {
    exists t :: SolidDistance(root, r, box, t) <= distance
  }

  ghost function LegDistance(root: real -> real, r: Route, box: Region3D, i: nat, f: real): real
    requires ValidRoute(r) && i + 1 < |r.points|
  {
    BoxDistanceAt(root, r.points[i], r.points[i + 1], box, f)
  }

  ghost predicate LegNeverNearer(root: real -> real, r: Route, box: Region3D, i: nat, bound: real)
    requires ValidRoute(r) && i + 1 < |r.points|
  {
    forall f :: 0.0 <= f <= 1.0 ==> bound <= LegDistance(root, r, box, i, f) + SolidError(root, r)
  }

  lemma LegNeverNearerWeaker(root: real -> real, r: Route, box: Region3D, i: nat, bound: real, weaker: real)
    requires ValidRoute(r) && i + 1 < |r.points|
    requires weaker <= bound && LegNeverNearer(root, r, box, i, bound)
    ensures LegNeverNearer(root, r, box, i, weaker)
  {
  }

  lemma LegsCoverRoute(root: real -> real, r: Route, box: Region3D, bound: real)
    requires IsRoot(root) && ValidRoute(r)
    requires forall i :: 0 <= i < |r.points| - 1 ==> LegNeverNearer(root, r, box, i, bound)
    ensures NeverNearer(root, r, box, bound)
  {
    RouteIsPath(root, r);
    forall t
      ensures bound <= SolidDistance(root, r, box, t) + SolidError(root, r)
    {
      var i, f := PositionOnSomeLeg(PathOf(root, r), t);
      assert LegNeverNearer(root, r, box, i, bound);
      assert bound <= LegDistance(root, r, box, i, f) + SolidError(root, r);
    }
  }

  /** The legs before n are no nearer than a distance that some instant attains, up to the snap error. */
  ghost predicate LegScan(root: real -> real, r: Route, box: Region3D, distance: real, n: nat)
    requires ValidRoute(r) && n < |r.points|
  {
    && (forall k :: 0 <= k < n ==> LegNeverNearer(root, r, box, k, distance))
    && SometimeWithin(root, r, box, distance + 2e-15)
  }

  lemma LegInspected(root: real -> real, r: Route, box: Region3D, distance: real, n: nat, leg: real)
    requires ValidRoute(r) && n + 1 < |r.points| && LegScan(root, r, box, distance, n)
    requires LegNeverNearer(root, r, box, n, leg) && SometimeWithin(root, r, box, leg + SNAP_ERROR)
    ensures LegScan(root, r, box, Min(distance, leg), n + 1)
  {
    hide LegNeverNearer, SometimeWithin;
    var least := Min(distance, leg);
    forall k | 0 <= k < n + 1 ensures LegNeverNearer(root, r, box, k, least) {
      LegNeverNearerWeaker(root, r, box, k, if k == n then leg else distance, least);
    }
  }

  /** The smallest leg-to-box distance bounds the route's distance to the box at every instant. */
  method RouteBoxDistance(root: real -> real, r: Route, box: Region3D) returns (distance: real)
    requires IsRoot(root) && ValidRoute(r) && box.Ordered()
    ensures NeverNearer(root, r, box, distance)
    ensures SometimeWithin(root, r, box, distance + 2e-15)
  {
    hide LegNeverNearer, SometimeWithin, NeverNearer;
    distance := LegBoxDistance(root, r, box, 0);
    for i := 1 to |r.points| - 1
      invariant LegScan(root, r, box, distance, i)
    {
      var leg := LegBoxDistance(root, r, box, i);
      LegInspected(root, r, box, distance, i, leg);
      distance := Min(distance, leg);
    }
    LegsCoverRoute(root, r, box, distance);
  }

  method LegBoxDistance(root: real -> real, r: Route, box: Region3D, i: nat) returns (distance: real)
    requires IsRoot(root) && ValidRoute(r) && box.Ordered()
    requires i + 1 < |r.points|
    ensures LegNeverNearer(root, r, box, i, distance)
    ensures SometimeWithin(root, r, box, distance + 2e-15)
  {
    distance := SegmentAabbDistance(root, r.points[i], r.points[i + 1], box);
    LegErrorSmaller(root, r, i);
    ghost var f :| 0.0 <= f <= 1.0 && BoxDistanceAt(root, r.points[i], r.points[i + 1], box, f) <= distance + SNAP_ERROR;
    LegWitness(root, r, box, i, f, distance + SNAP_ERROR);
  }

  lemma {:induction false} LongestIsMost(lengths: seq<real>, i: nat)
    requires i < |lengths|
    ensures lengths[i] <= Longest(lengths)
  {
    var n := |lengths| - 1;
    if i < n { LongestIsMost(lengths[..n], i); }
  }

  lemma LegErrorSmaller(root: real -> real, r: Route, i: nat)
    requires IsRoot(root) && ValidRoute(r) && i + 1 < |r.points|
    ensures SearchError(Distance(root, r.points[i], r.points[i + 1])) <= SolidError(root, r)
  {
    LongestIsMost(Lengths(root, r.points), i);
    SearchErrorMonotone(Distance(root, r.points[i], r.points[i + 1]), Longest(Lengths(root, r.points)));
  }

  lemma LegWitness(root: real -> real, r: Route, box: Region3D, i: nat, f: real, distance: real)
    requires IsRoot(root) && ValidRoute(r) && i + 1 < |r.points| && 0.0 <= f <= 1.0
    requires BoxDistanceAt(root, r.points[i], r.points[i + 1], box, f) <= distance
    ensures SometimeWithin(root, r, box, distance)
  {
    RouteIsPath(root, r);
    var t := LegIsFlown(PathOf(root, r), i, f);
    assert SolidDistance(root, r, box, t) <= distance;
  }

  lemma NeverNearerWeaker(root: real -> real, r: Route, box: Region3D, bound: real, weaker: real)
    requires ValidRoute(r)
    requires weaker <= bound && NeverNearer(root, r, box, bound)
    ensures NeverNearer(root, r, box, weaker)
  {
    forall t ensures weaker <= SolidDistance(root, r, box, t) + SolidError(root, r) {
      assert bound <= SolidDistance(root, r, box, t) + SolidError(root, r);
    }
  }

  /** No route ever comes nearer to a solid than the required distance plus the reported clearance. */
  ghost predicate SolidsKeep(root: real -> real, routes: seq<Route>, solids: seq<Region3D>, required: real, clearance: real)
    requires ValidRoutes(routes)
  {
    forall i, k :: 0 <= i < |routes| && 0 <= k < |solids| ==>
      NeverNearer(root, routes[i], solids[k], clearance + required)
  }

  ghost predicate SolidsKeepUpTo(root: real -> real, routes: seq<Route>, solids: seq<Region3D>, required: real,
                                 clearance: real, m: nat, n: nat)
    requires ValidRoutes(routes)
  {
    forall i, k :: 0 <= i < |routes| && 0 <= k < |solids| && (i < m || (i == m && k < n)) ==>
      NeverNearer(root, routes[i], solids[k], clearance + required)
  }

  lemma SolidRowDone(root: real -> real, routes: seq<Route>, solids: seq<Region3D>, required: real, clearance: real, m: nat)
    requires ValidRoutes(routes)
    requires SolidsKeepUpTo(root, routes, solids, required, clearance, m, |solids|)
    ensures SolidsKeepUpTo(root, routes, solids, required, clearance, m + 1, 0)
  {
  }

  lemma SolidInspected(root: real -> real, routes: seq<Route>, solids: seq<Region3D>, required: real,
                       clearance: real, m: nat, n: nat, distance: real)
    requires ValidRoutes(routes) && m < |routes| && n < |solids|
    requires SolidsKeepUpTo(root, routes, solids, required, clearance, m, n)
    requires NeverNearer(root, routes[m], solids[n], distance)
    ensures SolidsKeepUpTo(root, routes, solids, required, Min(clearance, distance - required), m, n + 1)
  {
    var least := Min(clearance, distance - required);
    forall i, k | 0 <= i < |routes| && 0 <= k < |solids| && (i < m || (i == m && k < n + 1))
      ensures NeverNearer(root, routes[i], solids[k], least + required)
    {
      if i == m && k == n {
        NeverNearerWeaker(root, routes[m], solids[n], distance, least + required);
      } else {
        NeverNearerWeaker(root, routes[i], solids[k], clearance + required, least + required);
      }
    }
  }

  /** The reported clearance is the cap or belongs to some route and solid at some instant, up to the snap error. */
  ghost predicate SolidsReach(root: real -> real, routes: seq<Route>, solids: seq<Region3D>, required: real, clearance: real)
    requires ValidRoutes(routes)
  {
    clearance == 1000000.0 || exists i, k ::
      0 <= i < |routes| && 0 <= k < |solids| && SometimeWithin(root, routes[i], solids[k], clearance + required + 2e-15)
  }

  lemma SolidReached(root: real -> real, routes: seq<Route>, solids: seq<Region3D>, required: real, clearance: real,
                     m: nat, n: nat, distance: real)
    requires ValidRoutes(routes) && m < |routes| && n < |solids|
    requires SolidsReach(root, routes, solids, required, clearance)
    requires SometimeWithin(root, routes[m], solids[n], distance + SNAP_ERROR)
    ensures SolidsReach(root, routes, solids, required, Min(clearance, distance - required))
  {
    if distance - required < clearance {
      assert distance + SNAP_ERROR == (distance - required) + required + SNAP_ERROR;
    }
  }

  /** A solid that is not reported is kept clear of by every route. */
  ghost predicate UnreportedKeepUpTo(root: real -> real, routes: seq<Route>, solids: seq<Region3D>, required: real,
                                     violations: set<Violation>, m: nat, n: nat)
    requires ValidRoutes(routes)
  {
    forall i, k :: 0 <= i < |routes| && 0 <= k < |solids| && (i < m || (i == m && k < n)) ==>
      ReportedOrKept(root, routes[i], solids[k], required, violations)
  }

  ghost predicate ReportedOrKept(root: real -> real, r: Route, solid: Region3D, required: real, violations: set<Violation>)
    requires ValidRoute(r)
  {
    SolidProtectedClearance(solid.id) in violations || NeverNearer(root, r, solid, required - 1e-9)
  }

  ghost predicate UnreportedKeep(root: real -> real, routes: seq<Route>, solids: seq<Region3D>, required: real,
                                 violations: set<Violation>)
    requires ValidRoutes(routes)
  {
    forall i, k :: 0 <= i < |routes| && 0 <= k < |solids| ==>
      ReportedOrKept(root, routes[i], solids[k], required, violations)
  }

  lemma UnreportedInspected(root: real -> real, routes: seq<Route>, solids: seq<Region3D>, required: real,
                            violations: set<Violation>, m: nat, n: nat, distance: real)
    requires ValidRoutes(routes) && m < |routes| && n < |solids|
    requires UnreportedKeepUpTo(root, routes, solids, required, violations, m, n)
    requires NeverNearer(root, routes[m], solids[n], distance)
    ensures UnreportedKeepUpTo(root, routes, solids, required,
                               violations + SolidFinding(distance - required, solids[n].id), m, n + 1)
  {
    var more := violations + SolidFinding(distance - required, solids[n].id);
    forall i, k | 0 <= i < |routes| && 0 <= k < |solids| && (i < m || (i == m && k < n + 1))
      ensures ReportedOrKept(root, routes[i], solids[k], required, more)
    {
      if i == m && k == n {
        if -TOLERANCE <= distance - required {
          NeverNearerWeaker(root, routes[m], solids[n], distance, required - TOLERANCE);
        }
      } else {
        assert ReportedOrKept(root, routes[i], solids[k], required, violations);
      }
    }
  }

  lemma UnreportedRowDone(root: real -> real, routes: seq<Route>, solids: seq<Region3D>, required: real,
                          violations: set<Violation>, m: nat)
    requires ValidRoutes(routes)
    requires UnreportedKeepUpTo(root, routes, solids, required, violations, m, |solids|)
    ensures UnreportedKeepUpTo(root, routes, solids, required, violations, m + 1, 0)
  {
  }

  /** Some route really comes within a distance of the named solid. */
  ghost predicate SolidBreached(root: real -> real, routes: seq<Route>, solids: seq<Region3D>, distance: real, id: string)
    requires ValidRoutes(routes)
  {
    exists i, k :: 0 <= i < |routes| && 0 <= k < |solids| && solids[k].id == id
      && SometimeWithin(root, routes[i], solids[k], distance)
  }

  lemma SometimeWithinWeaker(root: real -> real, r: Route, box: Region3D, distance: real, wider: real)
    requires ValidRoute(r) && distance <= wider && SometimeWithin(root, r, box, distance)
    ensures SometimeWithin(root, r, box, wider)
  {
    var t :| SolidDistance(root, r, box, t) <= distance;
    assert SolidDistance(root, r, box, t) <= wider;
  }

  /** Every reported solid is really breached, and one is reported exactly when the clearance is negative. */
  ghost predicate BreachesReported(root: real -> real, routes: seq<Route>, solids: seq<Region3D>, required: real,
                                   protected: real, violations: set<Violation>)
    requires ValidRoutes(routes)
  {
    && (violations == {} <==> -1e-9 <= protected)
    && forall v :: v in violations ==> BreachReal(root, routes, solids, required, v)
  }

  ghost predicate BreachReal(root: real -> real, routes: seq<Route>, solids: seq<Region3D>, required: real, v: Violation)
    requires ValidRoutes(routes)
  {
    && v.SolidProtectedClearance?
    && SolidBreached(root, routes, solids, required - 1e-9 + 2e-15, v.solid)
  }

  function SolidFinding(protectedHere: real, id: string): set<Violation> {
    if protectedHere < -TOLERANCE then {SolidProtectedClearance(id)} else {}
  }

  lemma BreachInspected(root: real -> real, routes: seq<Route>, solids: seq<Region3D>, required: real,
                        protected: real, violations: set<Violation>, m: nat, n: nat, distance: real)
    requires ValidRoutes(routes) && m < |routes| && n < |solids|
    requires BreachesReported(root, routes, solids, required, protected, violations)
    requires SometimeWithin(root, routes[m], solids[n], distance + SNAP_ERROR)
    ensures BreachesReported(root, routes, solids, required, Min(protected, distance - required),
                             violations + SolidFinding(distance - required, solids[n].id))
  {
    var found := SolidFinding(distance - required, solids[n].id);
    if distance - required < -TOLERANCE {
      SometimeWithinWeaker(root, routes[m], solids[n], distance + SNAP_ERROR, required - TOLERANCE + SNAP_ERROR);
      assert BreachReal(root, routes, solids, required, SolidProtectedClearance(solids[n].id));
      assert SolidProtectedClearance(solids[n].id) in violations + found;
    } else {
      assert violations + found == violations;
    }
  }

  /** What the scan has established before the solid (m, n). */
  ghost predicate SolidScan(root: real -> real, routes: seq<Route>, solids: seq<Region3D>, policy: ClearancePolicy,
                            m: nat, n: nat, nominal: real, protected: real, violations: set<Violation>)
    requires ValidRoutes(routes)
  {
    && SolidsKeepUpTo(root, routes, solids, policy.radius, nominal, m, n)
    && SolidsKeepUpTo(root, routes, solids, policy.ProtectedDistance(), protected, m, n)
    && BreachesReported(root, routes, solids, policy.ProtectedDistance(), protected, violations)
    && SolidsReach(root, routes, solids, policy.radius, nominal)
    && SolidsReach(root, routes, solids, policy.ProtectedDistance(), protected)
    && UnreportedKeepUpTo(root, routes, solids, policy.ProtectedDistance(), violations, m, n)
  }

  method InspectSolid(root: real -> real, routes: seq<Route>, solids: seq<Region3D>, policy: ClearancePolicy,
                      m: nat, n: nat, nominal: real, protected: real, violations: set<Violation>)
    returns (nominal': real, protected': real, violations': set<Violation>)
    requires IsRoot(root) && ValidRoutes(routes) && m < |routes| && n < |solids| && solids[n].Ordered()
    requires SolidScan(root, routes, solids, policy, m, n, nominal, protected, violations)
    ensures SolidScan(root, routes, solids, policy, m, n + 1, nominal', protected', violations')
  {
    hide SolidsKeepUpTo, BreachesReported, SolidsReach, UnreportedKeepUpTo, SolidFinding, NeverNearer, SometimeWithin;
    var distance := RouteBoxDistance(root, routes[m], solids[n]);
    var required := policy.ProtectedDistance();
    SolidInspected(root, routes, solids, policy.radius, nominal, m, n, distance);
    SolidInspected(root, routes, solids, required, protected, m, n, distance);
    BreachInspected(root, routes, solids, required, protected, violations, m, n, distance);
    SolidReached(root, routes, solids, policy.radius, nominal, m, n, distance);
    SolidReached(root, routes, solids, required, protected, m, n, distance);
    UnreportedInspected(root, routes, solids, required, violations, m, n, distance);
    var nominalHere := distance - policy.radius;
    var protectedHere := nominalHere - (policy.solidClearance + policy.uncertainty);
    assert protectedHere == distance - required;
    nominal' := Min(nominal, nominalHere);
    protected' := Min(protected, protectedHere);
    violations' := violations + SolidFinding(protectedHere, solids[n].id);
  }

  lemma SolidScanRow(root: real -> real, routes: seq<Route>, solids: seq<Region3D>, policy: ClearancePolicy,
                     m: nat, nominal: real, protected: real, violations: set<Violation>)
    requires ValidRoutes(routes)
    requires SolidScan(root, routes, solids, policy, m, |solids|, nominal, protected, violations)
    ensures SolidScan(root, routes, solids, policy, m + 1, 0, nominal, protected, violations)
  {
    SolidRowDone(root, routes, solids, policy.radius, nominal, m);
    SolidRowDone(root, routes, solids, policy.ProtectedDistance(), protected, m);
    UnreportedRowDone(root, routes, solids, policy.ProtectedDistance(), violations, m);
  }

  method SolidClearances(root: real -> real, routes: seq<Route>, solids: seq<Region3D>, policy: ClearancePolicy)
    returns (nominal: real, protected: real, violations: set<Violation>)
    requires IsRoot(root) && ValidRoutes(routes)
    requires forall k :: 0 <= k < |solids| ==> solids[k].Ordered()
    ensures SolidsKeep(root, routes, solids, policy.radius, nominal)
    ensures SolidsKeep(root, routes, solids, policy.ProtectedDistance(), protected)
    ensures BreachesReported(root, routes, solids, policy.ProtectedDistance(), protected, violations)
    ensures SolidsReach(root, routes, solids, policy.radius, nominal)
    ensures SolidsReach(root, routes, solids, policy.ProtectedDistance(), protected)
    ensures UnreportedKeep(root, routes, solids, policy.ProtectedDistance(), violations)
  {
    nominal, protected, violations := UNBOUNDED, UNBOUNDED, {};
    for i := 0 to |routes|
      invariant SolidScan(root, routes, solids, policy, i, 0, nominal, protected, violations)
    {
      for k := 0 to |solids|
        invariant SolidScan(root, routes, solids, policy, i, k, nominal, protected, violations)
      {
        nominal, protected, violations :=
          InspectSolid(root, routes, solids, policy, i, k, nominal, protected, violations);
      }
      SolidScanRow(root, routes, solids, policy, i, nominal, protected, violations);
    }
  }

  // ----- the flight volume -----

  function BoundaryClearance(p: Vector3, volume: Region3D, policy: ClearancePolicy): real {
    Min(Min(Min(p.x - volume.minimum.x - policy.radius, volume.maximum.x - p.x - policy.radius),
            Min(p.y - volume.minimum.y - policy.radius, volume.maximum.y - p.y - policy.radius)),
        Min(p.z - volume.minimum.z - policy.halfHeight, volume.maximum.z - p.z - policy.halfHeight))
  }

  /** The vehicle at p, with c metres to spare on every side, lies between the walls. */
  predicate RoomToSpare(p: Vector3, policy: ClearancePolicy, c: real, volume: Region3D) {
    var side, tall := policy.radius + c, policy.halfHeight + c;
    && volume.minimum.x <= p.x - side && p.x + side <= volume.maximum.x
    && volume.minimum.y <= p.y - side && p.y + side <= volume.maximum.y
    && volume.minimum.z <= p.z - tall && p.z + tall <= volume.maximum.z
  }

  /** What wall clearance means: it is the most that can be spared on every side. */
  lemma ClearanceMeansRoom(p: Vector3, volume: Region3D, policy: ClearancePolicy, c: real)
    ensures c <= BoundaryClearance(p, volume, policy) <==> RoomToSpare(p, policy, c, volume)
  {
  }

  /** A vehicle between two places with room to spare has it too. */
  lemma RoomBetween(a: Vector3, b: Vector3, f: real, volume: Region3D, policy: ClearancePolicy, c: real)
    requires 0.0 <= f <= 1.0 && RoomToSpare(a, policy, c, volume) && RoomToSpare(b, policy, c, volume)
    ensures RoomToSpare(Lerp(a, b, f), policy, c, volume)
  {
    var side, tall := c + policy.radius, c + policy.halfHeight;
    hide Mix;
    MixBetween(a.x, b.x, f, volume.minimum.x + side, volume.maximum.x - side);
    MixBetween(a.y, b.y, f, volume.minimum.y + side, volume.maximum.y - side);
    MixBetween(a.z, b.z, f, volume.minimum.z + tall, volume.maximum.z - tall);
  }

  /** A route keeps this much room from the walls at every instant. */
  ghost predicate NeverOutside(root: real -> real, r: Route, volume: Region3D, policy: ClearancePolicy, bound: real)
    requires ValidRoute(r)
  {
    forall t :: RoomToSpare(At(root, r, t), policy, bound, volume)
  }

  /** There is this much room at p and no more. */
  ghost predicate NoMoreRoom(p: Vector3, policy: ClearancePolicy, clearance: real, volume: Region3D) {
    RoomToSpare(p, policy, clearance, volume) && forall c :: clearance < c ==> !RoomToSpare(p, policy, c, volume)
  }

  /** At some instant there is no more room than this. */
  ghost predicate SometimeAtWall(root: real -> real, r: Route, volume: Region3D, policy: ClearancePolicy, clearance: real)
    requires ValidRoute(r)
  {
    exists t :: NoMoreRoom(At(root, r, t), policy, clearance, volume)
  }

  lemma ClearanceIsMost(p: Vector3, volume: Region3D, policy: ClearancePolicy)
    ensures NoMoreRoom(p, policy, BoundaryClearance(p, volume, policy), volume)
  {
    hide BoundaryClearance, RoomToSpare;
    ClearanceMeansRoom(p, volume, policy, BoundaryClearance(p, volume, policy));
    forall c | BoundaryClearance(p, volume, policy) < c ensures !RoomToSpare(p, policy, c, volume) {
      ClearanceMeansRoom(p, volume, policy, c);
    }
  }

  lemma VerticesBoundWalls(root: real -> real, r: Route, volume: Region3D, policy: ClearancePolicy, bound: real)
    requires IsRoot(root) && ValidRoute(r)
    requires forall i :: 0 <= i < |r.points| ==> RoomToSpare(r.points[i], policy, bound, volume)
    ensures NeverOutside(root, r, volume, policy, bound)
  {
    hide RoomToSpare, Lerp;
    RouteIsPath(root, r);
    forall t
      ensures RoomToSpare(At(root, r, t), policy, bound, volume)
    {
      var i, f := PositionOnSomeLeg(PathOf(root, r), t);
      RoomBetween(r.points[i], r.points[i + 1], f, volume, policy, bound);
    }
  }

  method RouteBoundaryClearance(root: real -> real, r: Route, volume: Region3D, policy: ClearancePolicy)
    returns (clearance: real)
    requires IsRoot(root) && ValidRoute(r)
    ensures NeverOutside(root, r, volume, policy, clearance)
    ensures SometimeAtWall(root, r, volume, policy, clearance)
  {
    clearance := BoundaryClearance(r.points[0], volume, policy);
    ghost var at := 0;
    for i := 1 to |r.points|
      invariant forall k :: 0 <= k < i ==> clearance <= BoundaryClearance(r.points[k], volume, policy)
      invariant 0 <= at < i && clearance == BoundaryClearance(r.points[at], volume, policy)
    {
      if BoundaryClearance(r.points[i], volume, policy) < clearance {
        clearance := BoundaryClearance(r.points[i], volume, policy);
        at := i;
      }
    }
    forall k | 0 <= k < |r.points| ensures RoomToSpare(r.points[k], policy, clearance, volume) {
      ClearanceMeansRoom(r.points[k], volume, policy, clearance);
    }
    VerticesBoundWalls(root, r, volume, policy, clearance);
    ClearanceIsMost(r.points[at], volume, policy);
    RouteIsPath(root, r);
    KnotHit(PathOf(root, r), at);
    assert At(root, r, KnotTimes(root, r)[at]) == r.points[at];
  }

  lemma NeverOutsideWeaker(root: real -> real, r: Route, volume: Region3D, policy: ClearancePolicy, bound: real, weaker: real)
    requires ValidRoute(r) && weaker <= bound && NeverOutside(root, r, volume, policy, bound)
    ensures NeverOutside(root, r, volume, policy, weaker)
  {
    forall t ensures RoomToSpare(At(root, r, t), policy, weaker, volume) {
      assert RoomToSpare(At(root, r, t), policy, bound, volume);
    }
  }

  /** The smallest vertex clearance is the smallest clearance at any instant; with no route there is none. */
  method BoundaryClearances(root: real -> real, routes: seq<Route>, volume: Region3D, policy: ClearancePolicy)
    returns (clearance: Option<real>)
    requires IsRoot(root) && ValidRoutes(routes)
    ensures clearance.None? <==> routes == []
    ensures clearance.Some? ==>
      forall i :: 0 <= i < |routes| ==> NeverOutside(root, routes[i], volume, policy, clearance.value)
    ensures clearance.Some? ==>
      exists i :: 0 <= i < |routes| && SometimeAtWall(root, routes[i], volume, policy, clearance.value)
  {
    clearance := None;
    for i := 0 to |routes|
      invariant clearance.None? <==> i == 0
      invariant clearance.Some? ==> forall k :: 0 <= k < i ==> NeverOutside(root, routes[k], volume, policy, clearance.value)
      invariant clearance.Some? ==> exists k :: 0 <= k < i && SometimeAtWall(root, routes[k], volume, policy, clearance.value)
    {
      var here := RouteBoundaryClearance(root, routes[i], volume, policy);
      var least := if clearance.Some? then Min(clearance.value, here) else here;
      forall k | 0 <= k < i + 1 ensures NeverOutside(root, routes[k], volume, policy, least) {
        NeverOutsideWeaker(root, routes[k], volume, policy, if k == i then here else clearance.value, least);
      }
      clearance := Some(least);
    }
  }
}
