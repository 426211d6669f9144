/** World consistency, and what the route checks on vertices and legs mean for the whole flight. */
module RouteAdherence {
  import opened Wrappers
  import opened Vectors
  import opened RouteTiming
  import opened PairClearance
  import opened CaseModel

  // ----- the structured world -----

  predicate RegionInside(inner: Region3D, outer: Region3D) {
    outer.Contains(inner.minimum) && outer.Contains(inner.maximum)
  }

  predicate RegionsOverlap(first: Region3D, second: Region3D) {
    !(|| first.maximum.x <= second.minimum.x || second.maximum.x <= first.minimum.x
      || first.maximum.y <= second.minimum.y || second.maximum.y <= first.minimum.y
      || first.maximum.z <= second.minimum.z || second.maximum.z <= first.minimum.z)
  }

  function HorizontalFreeWidth(b: Region3D, policy: ClearancePolicy): real {
    Min(b.maximum.x - b.minimum.x, b.maximum.y - b.minimum.y)
    - 2.0 * (policy.radius + policy.solidClearance + policy.uncertainty)
  }

  function VerticalFreeHeight(b: Region3D, policy: ClearancePolicy): real {
    b.maximum.z - b.minimum.z - 2.0 * (policy.halfHeight + policy.solidClearance + policy.uncertainty)
  }

  predicate Passable(b: Region3D, policy: ClearancePolicy) {
    0.0 <= HorizontalFreeWidth(b, policy) && 0.0 <= VerticalFreeHeight(b, policy)
  }

  /** The vehicle at p with its protected margin on every side lies in the region. */
  ghost predicate FitsAt(b: Region3D, policy: ClearancePolicy, p: Vector3) {
    var side := policy.radius + policy.solidClearance + policy.uncertainty;
    var tall := policy.halfHeight + policy.solidClearance + policy.uncertainty;
    && b.minimum.x + side <= p.x <= b.maximum.x - side
    && b.minimum.y + side <= p.y <= b.maximum.y - side
    && b.minimum.z + tall <= p.z <= b.maximum.z - tall
  }

  /** A passage is passable exactly when a protected vehicle fits somewhere in it. */
  lemma PassableMeansFits(b: Region3D, policy: ClearancePolicy)
    ensures Passable(b, policy) <==> exists p :: FitsAt(b, policy, p)
  {
    if Passable(b, policy) {
      assert FitsAt(b, policy, b.Center());
    }
  }

  /** An ordered region with both corners inside an ordered region lies in it whole. */
  lemma InsideMeansSubset(inner: Region3D, outer: Region3D)
    requires inner.Ordered()
    ensures RegionInside(inner, outer) <==> forall p :: inner.Contains(p) ==> outer.Contains(p)
  {
    assert inner.Contains(inner.minimum) && inner.Contains(inner.maximum);
  }

  function SolidFindings(world: World, k: nat): set<Violation>
    requires k < |world.solids|
  {
    if RegionInside(world.solids[k], world.volume) then {} else {SolidOutsideVolume(world.solids[k].id)}
  }

  function OverlapFindings(world: World, k: nat, n: nat): set<Violation>
    requires k < |world.passages| && n < |world.solids|
  {
    if RegionsOverlap(world.passages[k], world.solids[n])
    then {SolidInPassage(world.solids[n].id, world.passages[k].id)} else {}
  }

  ghost predicate PassageFault(world: World, policy: ClearancePolicy, k: nat, v: Violation)
    requires k < |world.passages|
  {
    var passage := world.passages[k];
    || (!RegionInside(passage, world.volume) && v == PassageOutsideVolume(passage.id))
    || (exists n :: 0 <= n < |world.solids| && v in OverlapFindings(world, k, n))
    || (!Passable(passage, policy) && v == PassageTooSmall(passage.id))
  }

  ghost predicate WorldFault(world: World, policy: ClearancePolicy, v: Violation) {
    || (exists k :: 0 <= k < |world.solids| && v in SolidFindings(world, k))
    || (exists k :: 0 <= k < |world.passages| && PassageFault(world, policy, k, v))
  }

  /** What a contradiction about passage k is about. */
  ghost predicate PassageHas(world: World, policy: ClearancePolicy, k: nat, v: Violation)
    requires k < |world.passages|
  {
    var passage := world.passages[k];
    match v
    case PassageOutsideVolume(id) => id == passage.id && ReachesOutside(passage, world.volume)
    case SolidInPassage(solid, id) =>
      id == passage.id && exists n :: 0 <= n < |world.solids| && world.solids[n].id == solid && Interlock(passage, world.solids[n])
    case PassageTooSmall(id) => id == passage.id && !FitsSomewhere(passage, policy)
    case _ => false
  }

  /** What a contradiction of the world is about. */
  ghost predicate WorldFaultHappens(world: World, policy: ClearancePolicy, v: Violation) {
    match v
    case SolidOutsideVolume(id) =>
      exists k :: 0 <= k < |world.solids| && world.solids[k].id == id && ReachesOutside(world.solids[k], world.volume)
    case _ => exists k :: 0 <= k < |world.passages| && PassageHas(world, policy, k, v)
  }

  ghost predicate ReachesOutside(inner: Region3D, outer: Region3D) {
    exists p :: inner.Contains(p) && !outer.Contains(p)
  }

  /** A coordinate in both ranges and strictly inside one of them. */
  ghost predicate Interlocks(low: real, high: real, otherLow: real, otherHigh: real, v: real) {
    low <= v <= high && otherLow <= v <= otherHigh && (low < v < high || otherLow < v < otherHigh)
  }

  ghost predicate InterlockAt(first: Region3D, second: Region3D, p: Vector3) {
    && Interlocks(first.minimum.x, first.maximum.x, second.minimum.x, second.maximum.x, p.x)
    && Interlocks(first.minimum.y, first.maximum.y, second.minimum.y, second.maximum.y, p.y)
    && Interlocks(first.minimum.z, first.maximum.z, second.minimum.z, second.maximum.z, p.z)
  }

  /** Two regions share a point that on no axis is merely where they touch. */
  ghost predicate Interlock(first: Region3D, second: Region3D) {
    exists p :: InterlockAt(first, second, p)
  }

  ghost predicate FitsSomewhere(b: Region3D, policy: ClearancePolicy) {
    exists p :: FitsAt(b, policy, p)
  }

  /** A coordinate where two ranges interlock, if they do. */
  function Between(low: real, high: real, otherLow: real, otherHigh: real): real {
    (Max(low, otherLow) + Min(high, otherHigh)) / 2.0
  }

  lemma RangesOverlap(low: real, high: real, otherLow: real, otherHigh: real)
    requires low <= high && otherLow <= otherHigh
    ensures otherLow < high && low < otherHigh <==> exists v :: Interlocks(low, high, otherLow, otherHigh, v)
  {
    if otherLow < high && low < otherHigh {
      assert Interlocks(low, high, otherLow, otherHigh, Between(low, high, otherLow, otherHigh));
    }
  }

  /** The overlap test finds exactly the regions that interlock. */
  lemma OverlapIff(first: Region3D, second: Region3D)
    requires first.Ordered() && second.Ordered()
    ensures RegionsOverlap(first, second) <==> Interlock(first, second)
  {
    var a, b, c, d := first.minimum, first.maximum, second.minimum, second.maximum;
    RangesOverlap(a.x, b.x, c.x, d.x);
    RangesOverlap(a.y, b.y, c.y, d.y);
    RangesOverlap(a.z, b.z, c.z, d.z);
    hide Interlocks;
    if RegionsOverlap(first, second) {
      var x :| Interlocks(a.x, b.x, c.x, d.x, x);
      var y :| Interlocks(a.y, b.y, c.y, d.y, y);
      var z :| Interlocks(a.z, b.z, c.z, d.z, z);
      assert InterlockAt(first, second, Vector3(x, y, z));
    }
  }

  lemma SolidFaultIff(world: World, k: nat, v: Violation)
    requires world.Ordered() && k < |world.solids|
    ensures v in SolidFindings(world, k) <==>
      v == SolidOutsideVolume(world.solids[k].id) && ReachesOutside(world.solids[k], world.volume)
  {
    OutsideMeans(world.solids[k], world.volume);
    hide RegionInside, ReachesOutside;
  }

  lemma PassageFaultIff(world: World, policy: ClearancePolicy, k: nat, v: Violation)
    requires world.Ordered() && k < |world.passages|
    ensures PassageFault(world, policy, k, v) <==> PassageHas(world, policy, k, v)
  {
    var passage := world.passages[k];
    OutsideMeans(passage, world.volume);
    PassableMeansFits(passage, policy);
    forall n | 0 <= n < |world.solids|
      ensures v in OverlapFindings(world, k, n) <==>
        v == SolidInPassage(world.solids[n].id, passage.id) && Interlock(passage, world.solids[n])
    {
      OverlapIff(passage, world.solids[n]);
    }
    hide RegionInside, ReachesOutside, RegionsOverlap, Interlock, Passable, OverlapFindings;
  }

  /** Exactly which contradictions a world has: a region that reaches outside the volume, a passage a solid interlocks with, a
      passage no protected vehicle fits in. */
  lemma WorldFaultIff(world: World, policy: ClearancePolicy, v: Violation)
    requires world.Ordered()
    ensures WorldFault(world, policy, v) <==> WorldFaultHappens(world, policy, v)
  {
    forall k | 0 <= k < |world.solids|
      ensures v in SolidFindings(world, k) <==>
        v == SolidOutsideVolume(world.solids[k].id) && ReachesOutside(world.solids[k], world.volume)
    {
      SolidFaultIff(world, k, v);
    }
    forall k | 0 <= k < |world.passages| ensures PassageFault(world, policy, k, v) <==> PassageHas(world, policy, k, v) {
      PassageFaultIff(world, policy, k, v);
    }
    hide PassageFault, SolidFindings, ReachesOutside, Interlock, FitsSomewhere;
  }

  lemma OutsideMeans(inner: Region3D, outer: Region3D)
    requires inner.Ordered()
    ensures RegionInside(inner, outer) <==> !ReachesOutside(inner, outer)
  {
    InsideMeansSubset(inner, outer);
  }

  /** A world without contradictions: everything lies in the volume, no solid interlocks with a passage, and a protected
      vehicle fits in every passage. */
  ghost predicate WorldSound(world: World, policy: ClearancePolicy) {
    && (forall k :: 0 <= k < |world.solids| ==> !ReachesOutside(world.solids[k], world.volume))
    && (forall k :: 0 <= k < |world.passages| ==>
        && !ReachesOutside(world.passages[k], world.volume)
        && FitsSomewhere(world.passages[k], policy)
        && forall n :: 0 <= n < |world.solids| ==> !Interlock(world.passages[k], world.solids[n]))
  }

  /** Nothing is reported exactly of such a world. */
  lemma NoFaultsMeansSound(world: World, policy: ClearancePolicy)
    requires world.Ordered()
    ensures (forall v :: !WorldFault(world, policy, v)) <==> WorldSound(world, policy)
  {
    forall v ensures WorldFault(world, policy, v) <==> WorldFaultHappens(world, policy, v) {
      WorldFaultIff(world, policy, v);
    }
    hide WorldFault, ReachesOutside, Interlock, FitsSomewhere;
    if forall v :: !WorldFault(world, policy, v) {
      forall k | 0 <= k < |world.solids| ensures !ReachesOutside(world.solids[k], world.volume) {
        assert !WorldFault(world, policy, SolidOutsideVolume(world.solids[k].id));
      }
      forall k | 0 <= k < |world.passages|
        ensures !ReachesOutside(world.passages[k], world.volume) && FitsSomewhere(world.passages[k], policy)
        ensures forall n :: 0 <= n < |world.solids| ==> !Interlock(world.passages[k], world.solids[n])
      {
        NothingOfPassage(world, policy, k, PassageOutsideVolume(world.passages[k].id));
        NothingOfPassage(world, policy, k, PassageTooSmall(world.passages[k].id));
        forall n | 0 <= n < |world.solids| ensures !Interlock(world.passages[k], world.solids[n]) {
          NothingOfPassage(world, policy, k, SolidInPassage(world.solids[n].id, world.passages[k].id));
        }
      }
    }
  }

  lemma NothingOfPassage(world: World, policy: ClearancePolicy, k: nat, v: Violation)
    requires k < |world.passages| && !WorldFaultHappens(world, policy, v) && !v.SolidOutsideVolume?
    ensures !PassageHas(world, policy, k, v)
  {
  }

  datatype PassageCapacity = PassageCapacity(passage: string, freeWidth: real, freeHeight: real, passable: bool)

  /** The capacity entry of a passage says how much wider and higher it is than a protected vehicle. */
  ghost predicate IsCapacityOf(c: PassageCapacity, b: Region3D, policy: ClearancePolicy) {
    var side := 2.0 * (policy.radius + policy.solidClearance + policy.uncertainty);
    var tall := 2.0 * (policy.halfHeight + policy.solidClearance + policy.uncertainty);
    && c.passage == b.id
    && c.freeWidth + side == Min(b.maximum.x - b.minimum.x, b.maximum.y - b.minimum.y)
    && c.freeHeight + tall == b.maximum.z - b.minimum.z
    && (c.passable <==> exists p :: FitsAt(b, policy, p))
  }

  function CapacityOf(b: Region3D, policy: ClearancePolicy): (c: PassageCapacity)
    ensures IsCapacityOf(c, b, policy)
  {
    PassableMeansFits(b, policy);
    PassageCapacity(b.id, HorizontalFreeWidth(b, policy), VerticalFreeHeight(b, policy), Passable(b, policy))
  }

  /** Every contradiction of the world is reported and nothing else, with the capacity of every passage in order. */
  method ValidateStructuredWorld(world: World, policy: ClearancePolicy)
    returns (contradictions: set<Violation>, capacities: seq<PassageCapacity>)
    ensures forall v :: v in contradictions <==> WorldFault(world, policy, v)
    ensures |capacities| == |world.passages|
    ensures forall k :: 0 <= k < |capacities| ==> IsCapacityOf(capacities[k], world.passages[k], policy)
  {
    hide IsCapacityOf;
    contradictions, capacities := {}, [];
    for k := 0 to |world.solids|
      invariant forall v :: v in contradictions <==> exists j :: 0 <= j < k && v in SolidFindings(world, j)
    {
      contradictions := contradictions + SolidFindings(world, k);
    }
    ghost var solidFaults := contradictions;
    for k := 0 to |world.passages|
      invariant forall v :: v in contradictions <==>
        v in solidFaults || exists j :: 0 <= j < k && PassageFault(world, policy, j, v)
      invariant |capacities| == k
      invariant forall j :: 0 <= j < k ==> IsCapacityOf(capacities[j], world.passages[j], policy)
    {
      var faults := PassageFaults(world, policy, k);
      contradictions := contradictions + faults;
      capacities := capacities + [CapacityOf(world.passages[k], policy)];
    }
  }

  method PassageFaults(world: World, policy: ClearancePolicy, k: nat) returns (faults: set<Violation>)
    requires k < |world.passages|
    ensures forall v :: v in faults <==> PassageFault(world, policy, k, v)
  {
    var passage := world.passages[k];
    faults := if RegionInside(passage, world.volume) then {} else {PassageOutsideVolume(passage.id)};
    ghost var before := faults;
    for n := 0 to |world.solids|
      invariant forall v :: v in faults <==> v in before || exists m :: 0 <= m < n && v in OverlapFindings(world, k, m)
    {
      faults := faults + OverlapFindings(world, k, n);
    }
    if !Passable(passage, policy) {
      faults := faults + {PassageTooSmall(passage.id)};
    }
  }

  // ----- goals and corridors -----

  predicate Reaches(points: seq<Vector3>, goal: Region3D) {
    exists i :: 0 <= i < |points| && goal.Contains(points[i])
  }

  predicate ReachesAll(points: seq<Vector3>, goals: seq<Region3D>) {
    forall k :: 0 <= k < |goals| ==> Reaches(points, goals[k])
  }

  predicate LegInCorridor(r: Route, corridors: seq<Region3D>, i: nat)
    requires i + 1 < |r.points|
  {
    exists k :: 0 <= k < |corridors| && corridors[k].Contains(r.points[i]) && corridors[k].Contains(r.points[i + 1])
  }

  /** No single corridor holds both ends of the leg. */
  ghost predicate LegLeavesCorridors(r: Route, corridors: seq<Region3D>, i: nat)
    requires i + 1 < |r.points|
  {
    forall k :: 0 <= k < |corridors| ==> !corridors[k].Contains(r.points[i]) || !corridors[k].Contains(r.points[i + 1])
  }

  predicate InCorridors(r: Route, corridors: seq<Region3D>) {
    forall i :: 0 <= i < |r.points| - 1 ==> LegInCorridor(r, corridors, i)
  }

  ghost predicate VisitsAll(root: real -> real, r: Route, goals: seq<Region3D>)
    requires ValidRoute(r)
  {
    forall k :: 0 <= k < |goals| ==> Visits(root, r, goals[k])
  }

  ghost predicate Visits(root: real -> real, r: Route, goal: Region3D)
    requires ValidRoute(r)
  {
    exists t :: goal.Contains(At(root, r, t))
  }

  ghost predicate InSomeCorridor(corridors: seq<Region3D>, p: Vector3) {
    exists k :: 0 <= k < |corridors| && corridors[k].Contains(p)
  }

  ghost predicate AlwaysInCorridors(root: real -> real, r: Route, corridors: seq<Region3D>)
    requires ValidRoute(r)
  {
    forall t :: InSomeCorridor(corridors, At(root, r, t))
  }

  /** A goal that holds a vertex is visited in flight. */
  lemma GoalsAreVisited(root: real -> real, r: Route, goals: seq<Region3D>)
    requires IsRoot(root) && ValidRoute(r) && ReachesAll(r.points, goals)
    ensures VisitsAll(root, r, goals)
  {
    RouteIsPath(root, r);
    forall k | 0 <= k < |goals|
      ensures Visits(root, r, goals[k])
    {
      var i :| 0 <= i < |r.points| && goals[k].Contains(r.points[i]);
      KnotHit(PathOf(root, r), i);
      assert goals[k].Contains(At(root, r, KnotTimes(root, r)[i]));
    }
  }

  /** Both ends of every leg in one corridor keep the whole flight inside the corridors. */
  lemma CorridorsAreKept(root: real -> real, r: Route, corridors: seq<Region3D>)
    requires IsRoot(root) && ValidRoute(r) && InCorridors(r, corridors)
    ensures AlwaysInCorridors(root, r, corridors)
  {
    RouteIsPath(root, r);
    forall t
      ensures InSomeCorridor(corridors, At(root, r, t))
    {
      var i, f := PositionOnSomeLeg(PathOf(root, r), t);
      assert LegInCorridor(r, corridors, i);
      var k :| 0 <= k < |corridors| && corridors[k].Contains(r.points[i]) && corridors[k].Contains(r.points[i + 1]);
      RegionConvex(corridors[k], r.points[i], r.points[i + 1], f);
    }
  }

  // ----- the authored centreline -----

  function PointSegmentDistance(root: real -> real, p: Vector3, start: Vector3, end: Vector3): real {
    var delta := Subtract(end, start);
    var denominator := Dot(delta, delta);
    var fraction := if denominator <= DEGENERATE_SQUARE then 0.0
                    else Clamp(Dot(Subtract(p, start), delta) / denominator);
    Distance(root, p, Add(start, Scale(delta, fraction)))
  }

  /** The projection is nearest up to a nanometre, and is a point of the segment. */
  lemma PointSegmentNearest(root: real -> real, p: Vector3, start: Vector3, end: Vector3, u: real)
    requires IsRoot(root) && 0.0 <= u <= 1.0
    ensures PointSegmentDistance(root, p, start, end) <= Distance(root, p, Lerp(start, end, u)) + 1e-9
  {
    var delta, back := Subtract(end, start), Subtract(start, p);
    var f := ClosestFraction(back, delta);
    SameFraction(p, start, delta);
    ClosestFractionBest(root, back, delta, u);
    TowardsSegment(root, p, start, end, f);
    TowardsSegment(root, p, start, end, u);
  }

  lemma SameFraction(p: Vector3, start: Vector3, delta: Vector3)
    ensures -Dot(Subtract(start, p), delta) == Dot(Subtract(p, start), delta)
  {
    var d := delta;
    assert (start.x - p.x) * d.x == -((p.x - start.x) * d.x);
    assert (start.y - p.y) * d.y == -((p.y - start.y) * d.y);
    assert (start.z - p.z) * d.z == -((p.z - start.z) * d.z);
  }

  lemma TowardsSegment(root: real -> real, p: Vector3, start: Vector3, end: Vector3, f: real)
    requires IsRoot(root)
    ensures var delta := Subtract(end, start);
      && Distance(root, p, Lerp(start, end, f)) == Norm(root, Along(Subtract(start, p), delta, f))
      && Lerp(start, end, f) == Add(start, Scale(delta, f))
  {
    DistanceSymmetric(root, p, Lerp(start, end, f));
    var delta := Subtract(end, start);
    var l, r := Subtract(Lerp(start, end, f), p), Along(Subtract(start, p), delta, f);
    assert l == r;
  }

  /** A point is within a distance of some point of a polyline. */
  ghost predicate NearLeg(root: real -> real, p: Vector3, start: Vector3, end: Vector3, distance: real) {
    exists u :: 0.0 <= u <= 1.0 && Distance(root, p, Lerp(start, end, u)) <= distance
  }

  lemma SegmentPointIsNear(root: real -> real, p: Vector3, start: Vector3, end: Vector3)
    requires IsRoot(root)
    ensures NearLeg(root, p, start, end, PointSegmentDistance(root, p, start, end))
  {
    var delta := Subtract(end, start);
    var fraction := if Dot(delta, delta) <= DEGENERATE_SQUARE then 0.0
                    else Clamp(Dot(Subtract(p, start), delta) / Dot(delta, delta));
    TowardsSegment(root, p, start, end, fraction);
    assert 0.0 <= fraction <= 1.0 && Distance(root, p, Lerp(start, end, fraction)) <= PointSegmentDistance(root, p, start, end);
  }

  function Authored(d: Drone): (points: seq<Vector3>)
    requires d.goals != []
    ensures |points| == |d.goals| + 2
    ensures forall i :: 0 <= i < |d.goals| ==> points[i + 1] == d.goals[i].Center()
    ensures points[0].x == d.start.Center().x && points[0].y == d.start.Center().y && points[0].z == points[1].z
    ensures var last := |d.goals| + 1;
      && points[last].x == d.landing.Center().x && points[last].y == d.landing.Center().y
      && points[last].z == points[last - 1].z
  {
    var first, last := d.goals[0].Center(), d.goals[|d.goals| - 1].Center();
    [Vector3(d.start.Center().x, d.start.Center().y, first.z)]
    + seq(|d.goals|, i requires 0 <= i < |d.goals| => d.goals[i].Center())
    + [Vector3(d.landing.Center().x, d.landing.Center().y, last.z)]
  }

  /** The smallest distance from a point to the legs from `from` on. */
  function PolylineDistance(root: real -> real, p: Vector3, line: seq<Vector3>): real
    requires 2 <= |line|
  {
    var here := PointSegmentDistance(root, p, line[0], line[1]);
    if |line| == 2 then here else Min(here, PolylineDistance(root, p, line[1..]))
  }

  /** The largest of those distances over the vertices of a route. */
  function MaximumDeviation(root: real -> real, points: seq<Vector3>, line: seq<Vector3>): real
    requires points != [] && 2 <= |line|
  {
    var here := PolylineDistance(root, points[0], line);
    if |points| == 1 then here else Max(here, MaximumDeviation(root, points[1..], line))
  }

  ghost predicate NearLine(root: real -> real, p: Vector3, line: seq<Vector3>, distance: real) {
    exists k :: 0 <= k < |line| - 1 && NearLeg(root, p, line[k], line[k + 1], distance)
  }

  lemma {:induction false} PolylineReached(root: real -> real, p: Vector3, line: seq<Vector3>, distance: real)
    requires IsRoot(root) && 2 <= |line|
    requires PolylineDistance(root, p, line) <= distance
    ensures NearLine(root, p, line, distance)
  {
    if PointSegmentDistance(root, p, line[0], line[1]) <= distance {
      SegmentPointIsNear(root, p, line[0], line[1]);
      assert NearLeg(root, p, line[0], line[0 + 1], distance);
    } else {
      PolylineReached(root, p, line[1..], distance);
      var k :| 0 <= k < |line| - 2 && NearLeg(root, p, line[1..][k], line[1..][k + 1], distance);
      assert NearLeg(root, p, line[k + 1], line[k + 1 + 1], distance);
    }
  }

  /** A deviation within a limit puts every vertex within that limit of the authored line. */
  lemma {:induction false} DeviationBoundsVertices(
    root: real -> real, points: seq<Vector3>, line: seq<Vector3>, limit: real, i: nat)
    requires IsRoot(root) && i < |points| && 2 <= |line|
    requires MaximumDeviation(root, points, line) <= limit
    ensures NearLine(root, points[i], line, limit)
  {
    if i == 0 {
      PolylineReached(root, points[0], line, limit);
    } else {
      DeviationBoundsVertices(root, points[1..], line, limit, i - 1);
    }
  }

  // ----- the findings for one route -----

  predicate ValidDrones(drones: seq<Drone>) {
    forall k :: 0 <= k < |drones| ==> drones[k].goals != []
  }

  function DroneOf(drones: seq<Drone>, role: string): (d: Option<Drone>)
    ensures d.None? <==> forall k :: 0 <= k < |drones| ==> drones[k].roleId != role
    ensures d.Some? ==> d.value in drones && d.value.roleId == role
  {
    if drones == [] then None
    else if drones[0].roleId == role then Some(drones[0])
    else DroneOf(drones[1..], role)
  }

  predicate LeavesCenterline(root: real -> real, r: Route, d: Drone, planning: Planning)
    requires ValidRoute(r) && d.goals != [] && planning.Valid()
  {
    planning.mode.NeedsCenterline()
    && planning.maximumDeviation.value + TOLERANCE < MaximumDeviation(root, r.points, Authored(d))
  }

  function RouteFindings(root: real -> real, r: Route, d: Drone, corridors: seq<Region3D>, planning: Planning): set<Violation>
    requires ValidRoute(r) && d.goals != [] && planning.Valid()
  {
    (if ReachesAll(r.points, d.goals) then {} else {RequiredGoal(r.roleId)})
    + (if planning.mode.RouteCorridor? && !InCorridors(r, corridors) then {CorridorLeft(r.roleId)} else {})
    + (if LeavesCenterline(root, r, d, planning) then {CenterlineDeviation(r.roleId)} else {})
  }

  /** What a route without findings does. */
  ghost predicate Adheres(root: real -> real, r: Route, d: Drone, corridors: seq<Region3D>, planning: Planning)
    requires ValidRoute(r) && d.goals != [] && planning.Valid()
  {
    && VisitsAll(root, r, d.goals)
    && (planning.mode.RouteCorridor? ==> AlwaysInCorridors(root, r, corridors))
    && (planning.mode.NeedsCenterline() ==>
        forall i :: 0 <= i < |r.points| ==>
          NearLine(root, r.points[i], Authored(d), planning.maximumDeviation.value + 1e-9))
  }

  lemma NoFindingsAdheres(root: real -> real, r: Route, d: Drone, corridors: seq<Region3D>, planning: Planning)
    requires IsRoot(root) && ValidRoute(r) && d.goals != [] && planning.Valid()
    requires RouteFindings(root, r, d, corridors, planning) == {}
    ensures Adheres(root, r, d, corridors, planning)
  {
    assert RequiredGoal(r.roleId) !in RouteFindings(root, r, d, corridors, planning);
    assert CorridorLeft(r.roleId) !in RouteFindings(root, r, d, corridors, planning);
    assert CenterlineDeviation(r.roleId) !in RouteFindings(root, r, d, corridors, planning);
    GoalsAreVisited(root, r, d.goals);
    if planning.mode.RouteCorridor? {
      CorridorsAreKept(root, r, corridors);
    }
    if planning.mode.NeedsCenterline() {
      forall i | 0 <= i < |r.points|
        ensures NearLine(root, r.points[i], Authored(d), planning.maximumDeviation.value + TOLERANCE)
      {
        DeviationBoundsVertices(root, r.points, Authored(d), planning.maximumDeviation.value + TOLERANCE, i);
      }
    }
  }

  ghost predicate FindingOf(root: real -> real, r: Route, drones: seq<Drone>, corridors: seq<Region3D>, planning: Planning,
                            v: Violation)
    requires ValidRoute(r) && ValidDrones(drones) && planning.Valid()
  {
    var d := DroneOf(drones, r.roleId);
    d.Some? && v in RouteFindings(root, r, d.value, corridors, planning)
  }

  /** All findings of all routes, or a failure when a route names no drone of the case. */
  method PathAdherenceViolations(root: real -> real, drones: seq<Drone>, corridors: seq<Region3D>, planning: Planning,
                                 routes: seq<Route>) returns (violations: Option<set<Violation>>)
    requires ValidRoutes(routes) && ValidDrones(drones) && planning.Valid()
    ensures violations.None? <==> exists i :: 0 <= i < |routes| && DroneOf(drones, routes[i].roleId).None?
    ensures violations.Some? ==> forall v :: v in violations.value <==>
      exists i :: 0 <= i < |routes| && FindingOf(root, routes[i], drones, corridors, planning, v)
  {
    hide RouteFindings, DroneOf;
    var found := {};
    for k := 0 to |routes|
      invariant forall i :: 0 <= i < k ==> DroneOf(drones, routes[i].roleId).Some?
      invariant forall v :: v in found <==> FoundBefore(root, routes, drones, corridors, planning, k, v)
    {
      var d := DroneOf(drones, routes[k].roleId);
      if d.None? {
        return None;
      }
      var here := RouteFindings(root, routes[k], d.value, corridors, planning);
      forall v
        ensures FoundBefore(root, routes, drones, corridors, planning, k + 1, v)
            <==> FoundBefore(root, routes, drones, corridors, planning, k, v) || v in here
      {
        FoundOneMore(root, routes, drones, corridors, planning, k, v);
      }
      found := found + here;
    }
    violations := Some(found);
  }

  ghost predicate FoundBefore(root: real -> real, routes: seq<Route>, drones: seq<Drone>, corridors: seq<Region3D>,
                              planning: Planning, k: nat, v: Violation)
    requires k <= |routes| && ValidRoutes(routes) && ValidDrones(drones) && planning.Valid()
  {
    exists i :: 0 <= i < k && FindingOf(root, routes[i], drones, corridors, planning, v)
  }

  lemma FoundOneMore(root: real -> real, routes: seq<Route>, drones: seq<Drone>, corridors: seq<Region3D>,
                     planning: Planning, k: nat, v: Violation)
    requires k < |routes| && ValidRoutes(routes) && ValidDrones(drones) && planning.Valid()
    ensures FoundBefore(root, routes, drones, corridors, planning, k + 1, v)
        <==> FoundBefore(root, routes, drones, corridors, planning, k, v)
             || FindingOf(root, routes[k], drones, corridors, planning, v)
  {
  }
}
