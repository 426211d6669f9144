/** The feasibility certificate of a set of candidate routes. */
module Certificate {
  import opened Wrappers
  import opened Vectors
  import opened RouteTiming
  import opened CaseModel
  import opened ClearanceScan
  import opened RouteAdherence
  import opened AdherenceFindings
  import opened Coordination

  /** The dimension of time is gone from the inputs and back in this claim: at every real instant. */
  ghost predicate SafeAlways(root: real -> real, routes: seq<Route>, world: World, policy: ClearancePolicy)
    requires ValidRoutes(routes)
  {
    && (forall i, j :: 0 <= i < j < |routes| ==>
        NeverCloser(root, routes[i], routes[j], policy.pairSeparation - 2.0 * 1e-9))
    && (forall i, k :: 0 <= i < |routes| && 0 <= k < |world.solids| ==>
        NeverNearer(root, routes[i], world.solids[k], policy.radius + policy.solidClearance + policy.uncertainty - 1e-9))
    && (forall i :: 0 <= i < |routes| ==> NeverOutside(root, routes[i], world.volume, policy, -1e-9))
  }

  ghost predicate AllAdhere(root: real -> real, routes: seq<Route>, drones: seq<Drone>, world: World, planning: Planning)
    requires ValidRoutes(routes) && ValidDrones(drones) && planning.Valid()
  {
    forall i :: 0 <= i < |routes| ==>
      var d := DroneOf(drones, routes[i].roleId);
      d.Some? && Adheres(root, routes[i], d.value, world.passages, planning)
  }

  // ----- the certificate -----

  predicate IsClearanceFinding(v: Violation) {
    v.PairwiseProtectedClearance? || v.SolidProtectedClearance? || v.PhysicalFlightVolume?
  }

  /** A clearance finding is about something that really happens in flight. */
  ghost predicate ClearanceHappens(root: real -> real, routes: seq<Route>, world: World, policy: ClearancePolicy, v: Violation)
    requires ValidRoutes(routes)
  {
    match v
    case PairwiseProtectedClearance =>
      exists i, j, t :: 0 <= i < j < |routes|
        && CenterDistance(root, routes[i], routes[j], t) < policy.pairSeparation - 1e-9
    case SolidProtectedClearance(_) => BreachReal(root, routes, world.solids, policy.ProtectedDistance(), v)
    case PhysicalFlightVolume =>
      exists i, t :: 0 <= i < |routes|
        && !RoomToSpare(At(root, routes[i], t), policy, -1e-9, world.volume)
    case _ => false
  }

  /** What each finding says of the flight or of the world. Those about goals and corridors speak of vertices and legs; the
      one about flying together speaks of declared intervals, and of the flight where the two overlaps agree. */
  ghost predicate ReallyHappens(root: real -> real, routes: seq<Route>, drones: seq<Drone>, world: World,
                                planning: Planning, v: Violation)
    requires ValidRoutes(routes) && ValidDrones(drones) && planning.Valid()
  {
    if IsClearanceFinding(v) then ClearanceHappens(root, routes, world, planning.policy, v)
    else match v
      case SynchronizedRouteStart => StartsApart(routes, planning.maximumSkew + 1e-9)
      case MinimumSimultaneousFlight =>
        && NeverDeclaredTogetherFor(routes, planning.minimumOverlap - 1e-9)
        && (RouteOverlap(routes) == FlownOverlap(routes) ==>
            NeverTogetherFor(root, routes, planning.minimumOverlap - 1e-9))
      case RequiredGoal(_) => SomeRouteHas(root, routes, drones, world, planning, v)
      case CorridorLeft(_) => SomeRouteHas(root, routes, drones, world, planning, v)
      case CenterlineDeviation(_) => SomeRouteHas(root, routes, drones, world, planning, v)
      case _ => WorldFaultHappens(world, planning.policy, v)
  }

  ghost predicate SomeRouteHas(root: real -> real, routes: seq<Route>, drones: seq<Drone>, world: World,
                               planning: Planning, v: Violation)
    requires ValidRoutes(routes) && ValidDrones(drones) && planning.Valid()
  {
    exists i :: 0 <= i < |routes| && RouteHas(root, routes[i], drones, world, planning, v)
  }

  ghost predicate RouteHas(root: real -> real, r: Route, drones: seq<Drone>, world: World, planning: Planning, v: Violation)
    requires ValidRoute(r) && ValidDrones(drones) && planning.Valid()
  {
    var d := DroneOf(drones, r.roleId);
    d.Some? && RouteFindingHappens(root, r, d.value, world.passages, planning, v)
  }

  /** What a certificate without coordination findings says: no two starts too far apart, and a stretch of the demanded
      length in all declared intervals, which is flown where the two overlaps agree. */
  ghost predicate Coordinated(root: real -> real, routes: seq<Route>, planning: Planning)
    requires ValidRoutes(routes)
  {
    && (planning.synchronizedStart ==> !StartsApart(routes, planning.maximumSkew + 1e-9))
    && (1e-9 < planning.minimumOverlap ==>
        && !NeverDeclaredTogetherFor(routes, planning.minimumOverlap - 1e-9)
        && (RouteOverlap(routes) == FlownOverlap(routes) ==>
            !NeverTogetherFor(root, routes, planning.minimumOverlap - 1e-9)))
  }

  lemma PairFindingHappens(root: real -> real, routes: seq<Route>, world: World, policy: ClearancePolicy, protected: real)
    requires ValidRoutes(routes)
    requires PairsReach(root, routes, policy.pairSeparation, protected) && protected < -1e-9
    ensures ClearanceHappens(root, routes, world, policy, PairwiseProtectedClearance)
  {
    hide CenterDistance;
    var i, j :| 0 <= i < j < |routes| && SometimeApart(root, routes[i], routes[j], protected + policy.pairSeparation);
    var t :| CenterDistance(root, routes[i], routes[j], t) == protected + policy.pairSeparation;
    assert CenterDistance(root, routes[i], routes[j], t) < policy.pairSeparation - 1e-9;
  }

  lemma WallFindingHappens(root: real -> real, routes: seq<Route>, world: World, policy: ClearancePolicy, i: nat, clearance: real)
    requires ValidRoutes(routes) && i < |routes|
    requires SometimeAtWall(root, routes[i], world.volume, policy, clearance) && clearance < -1e-9
    ensures ClearanceHappens(root, routes, world, policy, PhysicalFlightVolume)
  {
    var t :| NoMoreRoom(At(root, routes[i], t), policy, clearance, world.volume);
    assert !RoomToSpare(At(root, routes[i], t), policy, -1e-9, world.volume);
  }

  /** The clearance figures of a certificate bound the flight at every instant. */
  ghost predicate FiguresBound(root: real -> real, routes: seq<Route>, world: World, policy: ClearancePolicy,
                               c: FeasibilityCertificate)
    requires ValidRoutes(routes)
  {
    && PairsKeep(root, routes, 2.0 * policy.radius, c.pairNominal)
    && PairsKeep(root, routes, policy.pairSeparation, c.pairProtected)
    && SolidsKeep(root, routes, world.solids, policy.radius, c.solidNominal)
    && SolidsKeep(root, routes, world.solids, policy.ProtectedDistance(), c.solidProtected)
    && (forall i :: 0 <= i < |routes| ==> NeverOutside(root, routes[i], world.volume, policy, c.boundary))
  }

  /** The bounds are tight: each figure is attained at some instant, or is the cap for lack of a pair or a solid. */
  ghost predicate FiguresAttained(root: real -> real, routes: seq<Route>, world: World, policy: ClearancePolicy,
                                  c: FeasibilityCertificate)
    requires ValidRoutes(routes)
  {
    && PairsReach(root, routes, 2.0 * policy.radius, c.pairNominal)
    && PairsReach(root, routes, policy.pairSeparation, c.pairProtected)
    && SolidsReach(root, routes, world.solids, policy.radius, c.solidNominal)
    && SolidsReach(root, routes, world.solids, policy.ProtectedDistance(), c.solidProtected)
    && (exists i :: 0 <= i < |routes| && SometimeAtWall(root, routes[i], world.volume, policy, c.boundary))
  }

  /** The clearance findings are exactly the negative figures, solid by solid, and each really happens. */
  ghost predicate FindingsExact(root: real -> real, routes: seq<Route>, world: World, policy: ClearancePolicy,
                                c: FeasibilityCertificate, violations: set<Violation>)
    requires ValidRoutes(routes)
  {
    && (PairwiseProtectedClearance in violations <==> c.pairProtected < -1e-9)
    && (PhysicalFlightVolume in violations <==> c.boundary < -1e-9)
    && UnreportedKeep(root, routes, world.solids, policy.ProtectedDistance(), violations)
    && (forall v :: v in violations && IsClearanceFinding(v) ==> ClearanceHappens(root, routes, world, policy, v))
  }

  ghost predicate FiguresHold(root: real -> real, routes: seq<Route>, world: World, policy: ClearancePolicy,
                              c: FeasibilityCertificate)
    requires ValidRoutes(routes)
  {
    && FiguresBound(root, routes, world, policy, c)
    && FiguresAttained(root, routes, world, policy, c)
    && FindingsExact(root, routes, world, policy, c, c.violations)
  }

  lemma FiguresMeanSafety(root: real -> real, routes: seq<Route>, world: World, policy: ClearancePolicy,
                          c: FeasibilityCertificate)
    requires ValidRoutes(routes) && FiguresBound(root, routes, world, policy, c)
    requires -1e-9 <= c.pairProtected && -1e-9 <= c.solidProtected && -1e-9 <= c.boundary
    ensures SafeAlways(root, routes, world, policy)
  {
    forall i, j | 0 <= i < j < |routes|
      ensures NeverCloser(root, routes[i], routes[j], policy.pairSeparation - 2.0 * 1e-9)
    {
      NeverCloserWeaker(root, routes[i], routes[j], c.pairProtected + policy.pairSeparation - 1e-9,
                        policy.pairSeparation - 2.0 * 1e-9);
    }
    forall i, k | 0 <= i < |routes| && 0 <= k < |world.solids|
      ensures NeverNearer(root, routes[i], world.solids[k], policy.ProtectedDistance() - 1e-9)
    {
      NeverNearerWeaker(root, routes[i], world.solids[k], c.solidProtected + policy.ProtectedDistance(),
                        policy.ProtectedDistance() - 1e-9);
    }
    forall i | 0 <= i < |routes|
      ensures NeverOutside(root, routes[i], world.volume, policy, -1e-9)
    {
      NeverOutsideWeaker(root, routes[i], world.volume, policy, c.boundary, -1e-9);
    }
  }

  lemma WorldFaultsAreOther(world: World, policy: ClearancePolicy, v: Violation)
    requires WorldFault(world, policy, v)
    ensures !IsClearanceFinding(v)
  {
  }

  lemma RouteFindingsAreOther(root: real -> real, r: Route, drones: seq<Drone>, corridors: seq<Region3D>,
                              planning: Planning, v: Violation)
    requires ValidRoute(r) && ValidDrones(drones) && planning.Valid()
    requires FindingOf(root, r, drones, corridors, planning, v)
    ensures !IsClearanceFinding(v)
  {
    var d := DroneOf(drones, r.roleId).value;
    assert v == RequiredGoal(r.roleId) || v == CorridorLeft(r.roleId) || v == CenterlineDeviation(r.roleId);
  }

  lemma PassedAdheres(root: real -> real, routes: seq<Route>, drones: seq<Drone>, world: World, planning: Planning,
                      adherence: set<Violation>)
    requires IsRoot(root) && ValidRoutes(routes) && ValidDrones(drones) && planning.Valid()
    requires forall i :: 0 <= i < |routes| ==> DroneOf(drones, routes[i].roleId).Some?
    requires forall v :: v in adherence <==>
      exists i :: 0 <= i < |routes| && FindingOf(root, routes[i], drones, world.passages, planning, v)
    requires adherence == {}
    ensures AllAdhere(root, routes, drones, world, planning)
  {
    forall i | 0 <= i < |routes|
      ensures Adheres(root, routes[i], DroneOf(drones, routes[i].roleId).value, world.passages, planning)
    {
      var d := DroneOf(drones, routes[i].roleId).value;
      forall v ensures v !in RouteFindings(root, routes[i], d, world.passages, planning) {
        assert FindingOf(root, routes[i], drones, world.passages, planning, v) ==> v in adherence;
      }
      NoFindingsAdheres(root, routes[i], d, world.passages, planning);
    }
  }

  ghost predicate AllHappen(root: real -> real, routes: seq<Route>, world: World, policy: ClearancePolicy, found: set<Violation>)
    requires ValidRoutes(routes)
  {
    forall v :: v in found ==> IsClearanceFinding(v) && ClearanceHappens(root, routes, world, policy, v)
  }

  ghost predicate OnlySolids(found: set<Violation>) {
    forall v :: v in found ==> v.SolidProtectedClearance?
  }

  method ScanPairs(root: real -> real, world: World, policy: ClearancePolicy, routes: seq<Route>)
    returns (nominal: real, protected: real, found: set<Violation>)
    requires IsRoot(root) && ValidRoutes(routes)
    ensures PairsKeep(root, routes, 2.0 * policy.radius, nominal)
    ensures PairsKeep(root, routes, policy.pairSeparation, protected)
    ensures PairsReach(root, routes, 2.0 * policy.radius, nominal)
    ensures PairsReach(root, routes, policy.pairSeparation, protected)
    ensures found == if protected < -1e-9 then {PairwiseProtectedClearance} else {}
    ensures AllHappen(root, routes, world, policy, found)
  {
    nominal, protected := PairwiseClearances(root, routes, policy);
    found := {};
    if protected < -1e-9 {
      PairFindingHappens(root, routes, world, policy, protected);
      found := {PairwiseProtectedClearance};
    }
  }

  method ScanSolids(root: real -> real, world: World, policy: ClearancePolicy, routes: seq<Route>)
    returns (nominal: real, protected: real, found: set<Violation>)
    requires IsRoot(root) && ValidRoutes(routes) && world.Ordered()
    ensures SolidsKeep(root, routes, world.solids, policy.radius, nominal)
    ensures SolidsKeep(root, routes, world.solids, policy.ProtectedDistance(), protected)
    ensures SolidsReach(root, routes, world.solids, policy.radius, nominal)
    ensures SolidsReach(root, routes, world.solids, policy.ProtectedDistance(), protected)
    ensures UnreportedKeep(root, routes, world.solids, policy.ProtectedDistance(), found)
    ensures found == {} <==> -1e-9 <= protected
    ensures AllHappen(root, routes, world, policy, found) && OnlySolids(found)
  {
    hide SolidsKeep, SolidsReach, UnreportedKeep;
    nominal, protected, found := SolidClearances(root, routes, world.solids, policy);
    SolidFindingsHappen(root, routes, world, policy, protected, found);
  }

  method ScanWalls(root: real -> real, world: World, policy: ClearancePolicy, routes: seq<Route>)
    returns (boundary: Option<real>, found: set<Violation>)
    requires IsRoot(root) && ValidRoutes(routes)
    ensures boundary.None? <==> routes == []
    ensures boundary.Some? ==>
      forall i :: 0 <= i < |routes| ==> NeverOutside(root, routes[i], world.volume, policy, boundary.value)
    ensures boundary.Some? ==>
      exists i :: 0 <= i < |routes| && SometimeAtWall(root, routes[i], world.volume, policy, boundary.value)
    ensures boundary.Some? ==> found == if boundary.value < -1e-9 then {PhysicalFlightVolume} else {}
    ensures AllHappen(root, routes, world, policy, found)
  {
    boundary := BoundaryClearances(root, routes, world.volume, policy);
    found := {};
    if boundary.Some? && boundary.value < -1e-9 {
      ghost var i :| 0 <= i < |routes| && SometimeAtWall(root, routes[i], world.volume, policy, boundary.value);
      WallFindingHappens(root, routes, world, policy, i, boundary.value);
      found := {PhysicalFlightVolume};
    }
  }

  /** The pairwise, solid and wall scans together; with no route there is no wall clearance. */
  method CertifyClearance(root: real -> real, world: World, policy: ClearancePolicy, routes: seq<Route>)
    returns (c: Option<FeasibilityCertificate>)
    requires IsRoot(root) && ValidRoutes(routes) && world.Ordered()
    ensures c.None? <==> routes == []
    ensures c.Some? ==> FiguresHold(root, routes, world, policy, c.value)
    ensures c.Some? ==> forall v :: v in c.value.violations ==> IsClearanceFinding(v)
    ensures c.Some? && c.value.violations == {} ==> SafeAlways(root, routes, world, policy)
  {
    hide PairsKeep, PairsReach, SolidsKeep, SolidsReach, NeverOutside, SometimeAtWall, FindingsExact, UnreportedKeep,
         AllHappen, SafeAlways;
    var pairNominal, pairProtected, pairs := ScanPairs(root, world, policy, routes);
    var solidNominal, solidProtected, solids := ScanSolids(root, world, policy, routes);
    var boundary, walls := ScanWalls(root, world, policy, routes);
    if boundary.None? {
      return None;
    }
    var violations := pairs + solids + walls;
    var figures := FeasibilityCertificate(
      violations == {}, pairNominal, pairProtected, solidNominal, solidProtected, boundary.value, violations);
    AssembleFindings(root, routes, world, policy, figures, pairs, solids, walls);
    if violations == {} {
      NoneLeft(pairs, solids, walls, {});
      FiguresMeanSafety(root, routes, world, policy, figures);
    }
    return Some(figures);
  }

  lemma MoreFindingsKeep(root: real -> real, routes: seq<Route>, solids: seq<Region3D>, required: real,
                         fewer: set<Violation>, more: set<Violation>)
    requires ValidRoutes(routes) && fewer <= more && UnreportedKeep(root, routes, solids, required, fewer)
    ensures UnreportedKeep(root, routes, solids, required, more)
  {
    forall i, k | 0 <= i < |routes| && 0 <= k < |solids|
      ensures ReportedOrKept(root, routes[i], solids[k], required, more)
    {
      assert ReportedOrKept(root, routes[i], solids[k], required, fewer);
    }
  }

  lemma AssembleFindings(root: real -> real, routes: seq<Route>, world: World, policy: ClearancePolicy,
                         c: FeasibilityCertificate, pairs: set<Violation>, solids: set<Violation>, walls: set<Violation>)
    requires ValidRoutes(routes)
    requires AllHappen(root, routes, world, policy, pairs)
    requires pairs == if c.pairProtected < -1e-9 then {PairwiseProtectedClearance} else {}
    requires AllHappen(root, routes, world, policy, solids) && OnlySolids(solids)
    requires UnreportedKeep(root, routes, world.solids, policy.ProtectedDistance(), solids)
    requires AllHappen(root, routes, world, policy, walls)
    requires walls == if c.boundary < -1e-9 then {PhysicalFlightVolume} else {}
    ensures FindingsExact(root, routes, world, policy, c, pairs + solids + walls)
    ensures forall v :: v in pairs + solids + walls ==> IsClearanceFinding(v)
  {
    hide UnreportedKeep, ClearanceHappens;
    MoreFindingsKeep(root, routes, world.solids, policy.ProtectedDistance(), solids, pairs + solids + walls);
  }

  lemma SolidFindingsHappen(root: real -> real, routes: seq<Route>, world: World, policy: ClearancePolicy,
                            protected: real, solids: set<Violation>)
    requires ValidRoutes(routes)
    requires BreachesReported(root, routes, world.solids, policy.ProtectedDistance(), protected, solids)
    ensures AllHappen(root, routes, world, policy, solids) && OnlySolids(solids)
  {
    forall v | v in solids
      ensures v.SolidProtectedClearance?
      ensures IsClearanceFinding(v) && ClearanceHappens(root, routes, world, policy, v)
    {
      assert BreachReal(root, routes, world.solids, policy.ProtectedDistance(), v);
    }
  }

  lemma FindingsWithOthers(root: real -> real, routes: seq<Route>, world: World, policy: ClearancePolicy,
                           c: FeasibilityCertificate, clearance: set<Violation>, violations: set<Violation>)
    requires ValidRoutes(routes) && FindingsExact(root, routes, world, policy, c, clearance) && clearance <= violations
    requires forall v :: v in violations ==> v in clearance || !IsClearanceFinding(v)
    ensures FindingsExact(root, routes, world, policy, c, violations)
  {
    hide UnreportedKeep, ClearanceHappens;
    MoreFindingsKeep(root, routes, world.solids, policy.ProtectedDistance(), clearance, violations);
    assert forall v :: v in violations && IsClearanceFinding(v) ==> v in clearance;
  }

  lemma FiguresWithOthers(root: real -> real, routes: seq<Route>, world: World, policy: ClearancePolicy,
                          c: FeasibilityCertificate, violations: set<Violation>)
    requires ValidRoutes(routes) && FiguresHold(root, routes, world, policy, c) && c.violations <= violations
    requires forall v :: v in violations ==> v in c.violations || !IsClearanceFinding(v)
    ensures FiguresHold(root, routes, world, policy, c.(passed := violations == {}, violations := violations))
  {
    hide UnreportedKeep, ClearanceHappens, PairsKeep, PairsReach, SolidsKeep, SolidsReach, NeverOutside, SometimeAtWall,
         FindingsExact;
    FindingsWithOthers(root, routes, world, policy, c, c.violations, violations);
    SameFigures(root, routes, world, policy, c, c.(passed := violations == {}, violations := violations), violations);
  }

  /** What is said of the findings depends on two figures of the certificate alone. */
  lemma SameFigures(root: real -> real, routes: seq<Route>, world: World, policy: ClearancePolicy,
                    c: FeasibilityCertificate, d: FeasibilityCertificate, violations: set<Violation>)
    requires ValidRoutes(routes) && c.pairProtected == d.pairProtected && c.boundary == d.boundary
    requires FindingsExact(root, routes, world, policy, c, violations)
    ensures FindingsExact(root, routes, world, policy, d, violations)
  {
    hide UnreportedKeep, ClearanceHappens;
  }

  // ----- the findings of the whole certificate -----

  lemma RouteFindingIsReal(root: real -> real, routes: seq<Route>, drones: seq<Drone>, world: World, planning: Planning,
                           i: nat, v: Violation)
    requires IsRoot(root) && ValidRoutes(routes) && ValidDrones(drones) && planning.Valid()
    requires i < |routes| && FindingOf(root, routes[i], drones, world.passages, planning, v)
    ensures ReallyHappens(root, routes, drones, world, planning, v)
  {
    RouteFindingsAreOther(root, routes[i], drones, world.passages, planning, v);
    var d := DroneOf(drones, routes[i].roleId).value;
    hide RouteFindings, RouteFindingHappens;
    RouteFindingsIff(root, routes[i], d, world.passages, planning, v);
    RouteFindingKinds(root, routes[i], d, world.passages, planning, v);
    assert RouteHas(root, routes[i], drones, world, planning, v);
  }

  lemma RouteFindingKinds(root: real -> real, r: Route, d: Drone, corridors: seq<Region3D>, planning: Planning, v: Violation)
    requires ValidRoute(r) && d.goals != [] && planning.Valid() && v in RouteFindings(root, r, d, corridors, planning)
    ensures v.RequiredGoal? || v.CorridorLeft? || v.CenterlineDeviation?
  {
  }

  lemma WorldFindingIsReal(root: real -> real, routes: seq<Route>, drones: seq<Drone>, world: World, planning: Planning,
                           v: Violation)
    requires ValidRoutes(routes) && ValidDrones(drones) && planning.Valid() && world.Ordered()
    requires WorldFault(world, planning.policy, v)
    ensures ReallyHappens(root, routes, drones, world, planning, v)
  {
    WorldFaultIff(world, planning.policy, v);
  }

  lemma CoordinationFindingIsReal(root: real -> real, routes: seq<Route>, drones: seq<Drone>, world: World,
                                  planning: Planning, v: Violation)
    requires ValidRoutes(routes) && ValidDrones(drones) && planning.Valid() && routes != []
    requires v in CoordinationFindings(routes, planning)
    ensures ReallyHappens(root, routes, drones, world, planning, v)
  {
    SkewFoundIff(routes, planning);
    if v == MinimumSimultaneousFlight {
      assert 0.0 <= RouteOverlap(routes);
      hide NeverDeclaredTogetherFor, NeverTogetherFor, StartsApart, RouteOverlap, FlownOverlap;
      OverlapFoundIff(routes, planning);
      OverlapCheckMeans(root, routes, planning);
    }
  }

  lemma NoCoordinationFindings(root: real -> real, routes: seq<Route>, planning: Planning)
    requires ValidRoutes(routes) && routes != [] && CoordinationFindings(routes, planning) == {}
    ensures Coordinated(root, routes, planning)
  {
    hide NeverDeclaredTogetherFor, NeverTogetherFor, StartsApart, RouteOverlap, FlownOverlap;
    SkewFoundIff(routes, planning);
    assert SynchronizedRouteStart !in CoordinationFindings(routes, planning);
    assert MinimumSimultaneousFlight !in CoordinationFindings(routes, planning);
    if 1e-9 < planning.minimumOverlap {
      OverlapFoundIff(routes, planning);
      OverlapCheckMeans(root, routes, planning);
    }
  }

  /** Everything that is reported happens: each finding comes from one of the four parts of the certificate. */
  lemma FindingsAreReal(root: real -> real, routes: seq<Route>, drones: seq<Drone>, world: World, planning: Planning,
                        contradictions: set<Violation>, c: FeasibilityCertificate, adherence: set<Violation>, v: Violation)
    requires IsRoot(root) && ValidRoutes(routes) && ValidDrones(drones) && planning.Valid() && world.Ordered() && routes != []
    requires v in contradictions ==> WorldFault(world, planning.policy, v)
    requires v in c.violations ==> IsClearanceFinding(v)
    requires FiguresHold(root, routes, world, planning.policy, c)
    requires v in adherence ==> exists i :: 0 <= i < |routes| && FindingOf(root, routes[i], drones, world.passages, planning, v)
    requires v in contradictions + c.violations + adherence + CoordinationFindings(routes, planning)
    ensures ReallyHappens(root, routes, drones, world, planning, v)
    ensures v in c.violations || !IsClearanceFinding(v)
  {
    hide ClearanceHappens, FiguresBound, FiguresAttained, UnreportedKeep, WorldFault, FindingOf, CoordinationFindings;
    if v in contradictions {
      WorldFaultsAreOther(world, planning.policy, v);
      WorldFindingIsReal(root, routes, drones, world, planning, v);
    } else if v in adherence {
      var i :| 0 <= i < |routes| && FindingOf(root, routes[i], drones, world.passages, planning, v);
      RouteFindingsAreOther(root, routes[i], drones, world.passages, planning, v);
      RouteFindingIsReal(root, routes, drones, world, planning, i, v);
    } else if v !in c.violations {
      CoordinationFindingIsReal(root, routes, drones, world, planning, v);
      CoordinationIsOther(routes, planning, v);
    }
  }

  lemma CoordinationIsOther(routes: seq<Route>, planning: Planning, v: Violation)
    requires v in CoordinationFindings(routes, planning)
    ensures !IsClearanceFinding(v)
  {
  }

  /** A certificate that passes stands for the whole flight: separation, solids, walls, corridors, goals,
      coordination and a sound world. A certificate that reports a finding names one that is really there. */
  method CertifyCandidateRoutes(root: real -> real, drones: seq<Drone>, world: World, planning: Planning, routes: seq<Route>)
    returns (result: Result<FeasibilityCertificate, CertificateError>)
    requires IsRoot(root) && ValidRoutes(routes) && ValidDrones(drones) && planning.Valid() && world.Ordered()
    ensures result == Failure(NoRoutes) <==> routes == []
    ensures result == Failure(UnknownRole) <==> exists i :: 0 <= i < |routes| && DroneOf(drones, routes[i].roleId).None?
    ensures result.Success? ==> FiguresHold(root, routes, world, planning.policy, result.value)
    ensures result.Success? ==> (result.value.passed <==> result.value.violations == {})
    ensures result.Success? && result.value.passed ==>
      && SafeAlways(root, routes, world, planning.policy)
      && AllAdhere(root, routes, drones, world, planning)
      && WorldSound(world, planning.policy)
      && Coordinated(root, routes, planning)
    ensures result.Success? ==>
      forall v :: v in result.value.violations ==> ReallyHappens(root, routes, drones, world, planning, v)
    ensures result.Success? ==> forall v :: !IsClearanceFinding(v) ==> (v in result.value.violations <==>
      || WorldFault(world, planning.policy, v)
      || (exists i :: 0 <= i < |routes| && FindingOf(root, routes[i], drones, world.passages, planning, v))
      || v in CoordinationFindings(routes, planning))
  {
    hide FiguresHold, SafeAlways, AllAdhere, WorldFault, FindingOf, DroneOf, ReallyHappens, CoordinationFindings,
         WorldSound, Coordinated;
    var policy := planning.policy;
    var contradictions, _ := ValidateStructuredWorld(world, policy);
    var clearance := CertifyClearance(root, world, policy, routes);
    if clearance.None? {
      return Failure(NoRoutes);
    }
    var adherence := PathAdherenceViolations(root, drones, world.passages, planning, routes);
    if adherence.None? {
      return Failure(UnknownRole);
    }
    var coordination := CoordinationFindings(routes, planning);
    var violations := contradictions + clearance.value.violations + adherence.value + coordination;
    forall v | v in violations
      ensures v in clearance.value.violations || !IsClearanceFinding(v)
      ensures ReallyHappens(root, routes, drones, world, planning, v)
    {
      FindingsAreReal(root, routes, drones, world, planning, contradictions, clearance.value, adherence.value, v);
    }
    FiguresWithOthers(root, routes, world, policy, clearance.value, violations);
    if violations == {} {
      NoneLeft(contradictions, clearance.value.violations, adherence.value, coordination);
      PassedAdheres(root, routes, drones, world, planning, adherence.value);
      NoFaultsMeansSound(world, policy);
      NoCoordinationFindings(root, routes, planning);
    }
    return Success(clearance.value.(passed := violations == {}, violations := violations));
  }

  lemma NoneLeft(a: set<Violation>, b: set<Violation>, c: set<Violation>, d: set<Violation>)
    requires a + b + c + d == {}
    ensures a == {} && b == {} && c == {} && d == {}
  {
    assert a <= a + b + c + d && b <= a + b + c + d && c <= a + b + c + d && d <= a + b + c + d;
  }
}
