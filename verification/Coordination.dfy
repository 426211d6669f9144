/** Starting together and flying together: what the two coordination figures say about the flight. */
module Coordination {
  import opened Vectors
  import opened RouteTiming
  import opened PairClearance
  import opened CaseModel

  function Starts(routes: seq<Route>): (r: seq<real>)
    ensures |r| == |routes| && forall i :: 0 <= i < |r| ==> r[i] == routes[i].start
  {
    seq(|routes|, i requires 0 <= i < |routes| => routes[i].start)
  }

  function DeclaredEnds(routes: seq<Route>): (r: seq<real>)
    ensures |r| == |routes| && forall i :: 0 <= i < |r| ==> r[i] == routes[i].start + routes[i].duration
  {
    seq(|routes|, i requires 0 <= i < |routes| => routes[i].start + routes[i].duration)
  }

  function FlownEnds(routes: seq<Route>): (r: seq<real>)
    ensures |r| == |routes| && forall i :: 0 <= i < |r| ==> r[i] == FlownEnd(routes[i])
  {
    seq(|routes|, i requires 0 <= i < |routes| => FlownEnd(routes[i]))
  }

  function Earliest(times: seq<real>): real
    requires times != []
  {
    if |times| == 1 then times[0] else Min(times[0], Earliest(times[1..]))
  }

  function Latest(times: seq<real>): real
    requires times != []
  {
    if |times| == 1 then times[0] else Max(times[0], Latest(times[1..]))
  }

  /** How long the intervals with these ends overlap. */
  function Overlap(starts: seq<real>, ends: seq<real>): real {
    if starts == [] || ends == [] then 0.0 else Max(0.0, Earliest(ends) - Latest(starts))
  }

  function RouteOverlap(routes: seq<Route>): real { Overlap(Starts(routes), DeclaredEnds(routes)) }

  /** The same figure with the ends as they are flown. */
  function FlownOverlap(routes: seq<Route>): real { Overlap(Starts(routes), FlownEnds(routes)) }

  function CoordinationFindings(routes: seq<Route>, planning: Planning): set<Violation> {
    (if planning.synchronizedStart && routes != []
        && planning.maximumSkew + TOLERANCE < Latest(Starts(routes)) - Earliest(Starts(routes))
     then {SynchronizedRouteStart} else {})
    + (if RouteOverlap(routes) + TOLERANCE < planning.minimumOverlap then {MinimumSimultaneousFlight} else {})
  }

  lemma {:induction false} EarliestIsLeast(times: seq<real>) returns (k: nat)
    requires times != []
    ensures k < |times| && times[k] == Earliest(times)
    ensures forall i :: 0 <= i < |times| ==> Earliest(times) <= times[i]
  {
    k := 0;
    if 1 < |times| {
      var j := EarliestIsLeast(times[1..]);
      if Earliest(times[1..]) < times[0] { k := j + 1; }
      forall i | 0 <= i < |times| ensures Earliest(times) <= times[i] {
        if 0 < i { assert times[i] == times[1..][i - 1]; }
      }
    }
  }

  lemma {:induction false} LatestIsMost(times: seq<real>) returns (k: nat)
    requires times != []
    ensures k < |times| && times[k] == Latest(times)
    ensures forall i :: 0 <= i < |times| ==> times[i] <= Latest(times)
  {
    k := 0;
    if 1 < |times| {
      var j := LatestIsMost(times[1..]);
      if times[0] < Latest(times[1..]) { k := j + 1; }
      forall i | 0 <= i < |times| ensures times[i] <= Latest(times) {
        if 0 < i { assert times[i] == times[1..][i - 1]; }
      }
    }
  }

  // ----- starting together -----

  /** Two routes start more than a span apart. */
  ghost predicate StartsApart(routes: seq<Route>, span: real) {
    exists i, j :: 0 <= i < |routes| && 0 <= j < |routes| && span < routes[i].start - routes[j].start
  }

  /** The start check reports exactly the cases in which some two starts are too far apart. */
  lemma SkewFoundIff(routes: seq<Route>, planning: Planning)
    ensures SynchronizedRouteStart in CoordinationFindings(routes, planning) <==>
      planning.synchronizedStart && StartsApart(routes, planning.maximumSkew + 1e-9)
  {
    if routes != [] {
      hide Earliest, Latest;
      var first := EarliestIsLeast(Starts(routes));
      var last := LatestIsMost(Starts(routes));
      if planning.maximumSkew + TOLERANCE < Latest(Starts(routes)) - Earliest(Starts(routes)) {
        assert planning.maximumSkew + TOLERANCE < routes[last].start - routes[first].start;
      }
      forall i, j | 0 <= i < |routes| && 0 <= j < |routes|
        ensures routes[i].start - routes[j].start <= Latest(Starts(routes)) - Earliest(Starts(routes))
      {
        assert Starts(routes)[i] == routes[i].start && Starts(routes)[j] == routes[j].start;
      }
    }
  }

  // ----- the longest common stretch -----

  /** Every interval holds a to b. */
  ghost predicate AllHold(starts: seq<real>, ends: seq<real>, a: real, b: real)
    requires |starts| == |ends|
  {
    forall i :: 0 <= i < |starts| ==> starts[i] <= a && b <= ends[i]
  }

  lemma AllHoldIff(starts: seq<real>, ends: seq<real>, a: real, b: real)
    requires |starts| == |ends| && starts != []
    ensures AllHold(starts, ends, a, b) <==> Latest(starts) <= a && b <= Earliest(ends)
  {
    hide Earliest, Latest;
    var first := EarliestIsLeast(ends);
    var last := LatestIsMost(starts);
  }

  /** No stretch of this length is in all intervals. */
  ghost predicate NeverCommonFor(starts: seq<real>, ends: seq<real>, span: real)
    requires |starts| == |ends|
  {
    forall a, b :: AllHold(starts, ends, a, b) ==> b - a < span
  }

  /** Exactly the lengths up to the overlap are reached. */
  lemma OverlapReached(starts: seq<real>, ends: seq<real>, span: real)
    requires |starts| == |ends| && starts != [] && 0.0 < span
    ensures NeverCommonFor(starts, ends, span) <==> Overlap(starts, ends) < span
  {
    hide Earliest, Latest, AllHold;
    forall a, b | AllHold(starts, ends, a, b)
      ensures b - a <= Earliest(ends) - Latest(starts)
    {
      AllHoldIff(starts, ends, a, b);
    }
    AllHoldIff(starts, ends, Latest(starts), Earliest(ends));
    if NeverCommonFor(starts, ends, span) {
      assert AllHold(starts, ends, Latest(starts), Earliest(ends));
    }
  }

  // ----- flying together -----

  /** Every route is flown from a to b. */
  ghost predicate AllFlyDuring(root: real -> real, routes: seq<Route>, a: real, b: real)
    requires ValidRoutes(routes)
  {
    forall i :: 0 <= i < |routes| ==> PathOf(root, routes[i]).First() <= a && b <= PathOf(root, routes[i]).Last()
  }

  /** No two instants a span apart see all routes in flight. */
  ghost predicate NeverTogetherFor(root: real -> real, routes: seq<Route>, span: real)
    requires ValidRoutes(routes)
  {
    forall a, b :: AllFlyDuring(root, routes, a, b) ==> b - a < span
  }

  /** No stretch of this length lies in the declared intervals of all routes. */
  ghost predicate NeverDeclaredTogetherFor(routes: seq<Route>, span: real) {
    NeverCommonFor(Starts(routes), DeclaredEnds(routes), span)
  }

  lemma FlyingIsHolding(root: real -> real, routes: seq<Route>, a: real, b: real)
    requires ValidRoutes(routes)
    ensures AllFlyDuring(root, routes, a, b) <==> AllHold(Starts(routes), FlownEnds(routes), a, b)
  {
    forall i | 0 <= i < |routes|
      ensures PathOf(root, routes[i]).First() == Starts(routes)[i] && PathOf(root, routes[i]).Last() == FlownEnds(routes)[i]
    {
      FlownFromTo(root, routes[i]);
    }
  }

  /** The flown overlap is the supremum of the common flights, and reached. */
  lemma FlownOverlapReached(root: real -> real, routes: seq<Route>, span: real)
    requires ValidRoutes(routes) && routes != [] && 0.0 < span
    ensures NeverTogetherFor(root, routes, span) <==> FlownOverlap(routes) < span
  {
    hide AllFlyDuring, AllHold, Overlap;
    forall a, b ensures AllFlyDuring(root, routes, a, b) <==> AllHold(Starts(routes), FlownEnds(routes), a, b) {
      FlyingIsHolding(root, routes, a, b);
    }
    OverlapReached(Starts(routes), FlownEnds(routes), span);
  }

  /** The length of the longest stretch of time during which every route is flown; none counts as zero. */
  ghost predicate IsLongestCommonFlight(root: real -> real, routes: seq<Route>, length: real)
    requires ValidRoutes(routes)
  {
    0.0 <= length && forall span :: 0.0 < span ==> (NeverTogetherFor(root, routes, span) <==> length < span)
  }

  lemma OneLongest(root: real -> real, routes: seq<Route>, x: real, y: real)
    requires ValidRoutes(routes) && IsLongestCommonFlight(root, routes, x) && IsLongestCommonFlight(root, routes, y)
    ensures x == y
  {
    hide NeverTogetherFor;
    assert 0.0 < x ==> !NeverTogetherFor(root, routes, x);
    assert 0.0 < y ==> !NeverTogetherFor(root, routes, y);
  }

  lemma FlownOverlapIsLongest(root: real -> real, routes: seq<Route>)
    requires ValidRoutes(routes) && routes != []
    ensures IsLongestCommonFlight(root, routes, FlownOverlap(routes))
  {
    hide NeverTogetherFor;
    forall span | 0.0 < span ensures NeverTogetherFor(root, routes, span) <==> FlownOverlap(routes) < span {
      FlownOverlapReached(root, routes, span);
    }
  }

  /** The overlap is the length of the longest common flight exactly when it is the overlap of the flown ends. */
  lemma OverlapIsLongestIff(root: real -> real, routes: seq<Route>)
    requires ValidRoutes(routes) && routes != []
    ensures IsLongestCommonFlight(root, routes, RouteOverlap(routes)) <==> RouteOverlap(routes) == FlownOverlap(routes)
  {
    hide IsLongestCommonFlight, RouteOverlap, FlownOverlap;
    FlownOverlapIsLongest(root, routes);
    if IsLongestCommonFlight(root, routes, RouteOverlap(routes)) {
      OneLongest(root, routes, RouteOverlap(routes), FlownOverlap(routes));
    }
  }

  /** For one route the overlap is its time of flight exactly when its leg times agree. */
  lemma OverlapOfOneIff(root: real -> real, r: Route)
    requires ValidRoute(r)
    ensures RouteOverlap([r]) == PathOf(root, r).Last() - PathOf(root, r).First() <==> DurationsAgree(r)
  {
    FlownFromTo(root, r);
    assert RouteOverlap([r]) == r.duration;
  }

  /** One leg of one second in a route declared to last ten: the overlap is ten, the flight is over after one. */
  lemma OverlapOverstates(root: real -> real, a: Vector3, b: Vector3)
    ensures var r := Route("r", [a, b], 0.0, 10.0, [1.0]);
      ValidRoute(r) && RouteOverlap([r]) == 10.0 && PathOf(root, r).First() == 0.0 && PathOf(root, r).Last() == 1.0
  {
    var r := Route("r", [a, b], 0.0, 10.0, [1.0]);
    FlownFromTo(root, r);
    assert [1.0][..0] == [];
    assert Sum([1.0]) == 1.0;
  }

  /** There is no overlap exactly when there are no routes or one is declared to end before or when another starts. */
  lemma NoOverlapIff(routes: seq<Route>)
    ensures RouteOverlap(routes) == 0.0 <==>
      routes == [] || exists i, j :: 0 <= i < |routes| && 0 <= j < |routes| && EndsBy(routes[i], routes[j].start)
  {
    if routes != [] {
      hide Earliest, Latest;
      var first := EarliestIsLeast(DeclaredEnds(routes));
      var last := LatestIsMost(Starts(routes));
      if RouteOverlap(routes) == 0.0 { assert EndsBy(routes[first], routes[last].start); }
      forall i, j | 0 <= i < |routes| && 0 <= j < |routes| && EndsBy(routes[i], routes[j].start)
        ensures RouteOverlap(routes) == 0.0
      {
        assert Starts(routes)[j] <= Latest(Starts(routes)) && Earliest(DeclaredEnds(routes)) <= DeclaredEnds(routes)[i];
      }
    }
  }

  ghost predicate EndsBy(r: Route, time: real) { r.start + r.duration <= time }

  /** The overlap check reports exactly the cases in which the declared intervals do not overlap long enough. */
  lemma OverlapFoundIff(routes: seq<Route>, planning: Planning)
    requires routes != [] && 1e-9 < planning.minimumOverlap
    ensures MinimumSimultaneousFlight in CoordinationFindings(routes, planning) <==>
      NeverDeclaredTogetherFor(routes, planning.minimumOverlap - 1e-9)
  {
    hide Overlap, NeverCommonFor;
    OverlapReached(Starts(routes), DeclaredEnds(routes), planning.minimumOverlap - TOLERANCE);
  }

  /** What the check says of the flight: it reports exactly the routes that do not fly together long enough. */
  ghost predicate OverlapCheckRight(root: real -> real, routes: seq<Route>, planning: Planning)
    requires ValidRoutes(routes)
  {
    MinimumSimultaneousFlight in CoordinationFindings(routes, planning) <==>
      NeverTogetherFor(root, routes, planning.minimumOverlap - 1e-9)
  }

  lemma OverlapCheckMeans(root: real -> real, routes: seq<Route>, planning: Planning)
    requires ValidRoutes(routes) && routes != [] && 1e-9 < planning.minimumOverlap
    ensures OverlapCheckRight(root, routes, planning) <==>
      (RouteOverlap(routes) < planning.minimumOverlap - 1e-9 <==> FlownOverlap(routes) < planning.minimumOverlap - 1e-9)
  {
    hide NeverTogetherFor, RouteOverlap, FlownOverlap;
    FlownOverlapReached(root, routes, planning.minimumOverlap - TOLERANCE);
  }

  /** For every demanded length the check is right about the flight exactly when the overlap is that of the flown ends. */
  lemma OverlapCheckRightIff(root: real -> real, routes: seq<Route>, planning: Planning)
    requires ValidRoutes(routes) && routes != []
    ensures (forall length :: 1e-9 < length ==> OverlapCheckRight(root, routes, planning.(minimumOverlap := length)))
         <==> RouteOverlap(routes) == FlownOverlap(routes)
  {
    var declared, flown := RouteOverlap(routes), FlownOverlap(routes);
    assert 0.0 <= declared && 0.0 <= flown;
    hide OverlapCheckRight, RouteOverlap, FlownOverlap;
    forall length | TOLERANCE < length
      ensures OverlapCheckRight(root, routes, planning.(minimumOverlap := length)) <==>
        (declared < length - TOLERANCE <==> flown < length - TOLERANCE)
    {
      OverlapCheckMeans(root, routes, planning.(minimumOverlap := length));
    }
    if declared != flown {
      var length := Max(declared, flown) + TOLERANCE;
      assert !OverlapCheckRight(root, routes, planning.(minimumOverlap := length));
    }
  }
}
