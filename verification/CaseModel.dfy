/** The case, the planning submission and the certificate, and where each route is at an instant. */
module CaseModel {
  import opened Wrappers
  import opened Vectors
  import opened RouteTiming
  import opened PairClearance
  import opened BoxClearance

  datatype ClearancePolicy = ClearancePolicy(
    radius: real, halfHeight: real, pairSeparation: real, solidClearance: real, uncertainty: real)
  {
    /** Distance of a vehicle centre from a solid that keeps the protected clearance. */
    function ProtectedDistance(): real { radius + (solidClearance + uncertainty) }
  }

  datatype World = World(volume: Region3D, solids: seq<Region3D>, passages: seq<Region3D>) {
    predicate Ordered() {
      && volume.Ordered()
      && (forall i :: 0 <= i < |solids| ==> solids[i].Ordered())
      && (forall i :: 0 <= i < |passages| ==> passages[i].Ordered())
    }
  }

  datatype AdherenceMode =
    ExactRoute | HardTube | RequiredRegions | SoftReference | GoalSequenceOnly | RouteCorridor | AuthoredCenterline
  {
    predicate NeedsCenterline() { ExactRoute? || HardTube? || AuthoredCenterline? }
  }

  datatype Drone = Drone(roleId: string, start: Region3D, goals: seq<Region3D>, landing: Region3D)

  datatype Planning = Planning(
    policy: ClearancePolicy, mode: AdherenceMode, maximumDeviation: Option<real>,
    synchronizedStart: bool, maximumSkew: real, minimumOverlap: real)
  {
    predicate Valid() { mode.NeedsCenterline() ==> maximumDeviation.Some? }
  }

  datatype Violation =
    | SolidOutsideVolume(solid: string)
    | PassageOutsideVolume(passage: string)
    | SolidInPassage(solid: string, passage: string)
    | PassageTooSmall(passage: string)
    | PairwiseProtectedClearance
    | SolidProtectedClearance(solid: string)
    | PhysicalFlightVolume
    | RequiredGoal(role: string)
    | CorridorLeft(role: string)
    | CenterlineDeviation(role: string)
    | SynchronizedRouteStart
    | MinimumSimultaneousFlight

  datatype FeasibilityCertificate = FeasibilityCertificate(
    passed: bool, pairNominal: real, pairProtected: real,
    solidNominal: real, solidProtected: real, boundary: real, violations: set<Violation>)

  datatype CertificateError = NoRoutes | UnknownRole

  // ----- what the flight does, at every instant -----

  ghost predicate ValidRoutes(routes: seq<Route>) {
    forall i :: 0 <= i < |routes| ==> ValidRoute(routes[i])
  }

  ghost function At(root: real -> real, r: Route, t: real): Vector3
    requires ValidRoute(r)
  {
    Position(PathOf(root, r), t)
  }

  ghost function CenterDistance(root: real -> real, a: Route, b: Route, t: real): real
    requires ValidRoute(a) && ValidRoute(b)
  {
    Separation(root, PathOf(root, a), PathOf(root, b), t)
  }

  ghost function SolidDistance(root: real -> real, r: Route, box: Region3D, t: real): real
    requires ValidRoute(r)
  {
    BoxDistance(root, At(root, r, t), box)
  }

  ghost function Longest(lengths: seq<real>): real
    requires lengths != []
  {
    var n := |lengths| - 1;
    if n == 0 then lengths[0] else Max(Longest(lengths[..n]), lengths[n])
  }

  /** How far below the reported distance the true distance to a solid may lie: the search error of the longest leg. */
  ghost function SolidError(root: real -> real, r: Route): real
    requires ValidRoute(r)
  {
    SearchError(Longest(Lengths(root, r.points)))
  }
}
