# Verified models of the campaign planner's safety-critical cores

The campaign package flies one to three drones through a structured world. It certifies routes before
flight, replaces them in flight when the world changes, compiles schedules into programs, and judges the
recorded evidence afterwards. Each of these steps lets a cheap discrete check or a loop stand for a claim about
every instant, every run or every document. This project models the steps in Dafny and proves those claims.

`dafny verify dfyconfig.toml` checks the whole project. One module per component:

- **Clearance certificate** (`Vectors`, `RouteTiming`, `PairClearance`, `BoxClearance`, `CaseModel`,
  `ClearanceScan`, `RouteAdherence`, `AdherenceFindings`, `Polylines`, `Centerlines`, `Coordination`, `Certificate`). Routes
  are piecewise-linear in time. A certificate that passes bounds pair separation, solid clearance and wall clearance at
  every real time, although the code only looks at merged breakpoints, segments and vertices; every clearance figure it
  reports is attained, and every finding it reports is given its meaning: a clearance finding really happens at some
  time, a centreline finding names a vertex that far from every point of the line, a world finding names the point or
  the passage, a start finding two starts too far apart, an overlap finding says that no stretch of the demanded length
  lies in all declared intervals. Goal and corridor findings speak of vertices and legs; when they are too strict is
  proved exactly. The constants 1e-18, 1e-15, 1e-9 and the 64 search steps appear as the error
  bounds.
- **Changed-world execution head** (`Roles`, `Replanning`, `HeadProtocol`, `HeadSafety`, `HeadReturns`, `HeadProgress`,
  `HeadHistory`, `HeadRound`, `OrderlyRounds`, `ExecutionHead`, `EventHandled`). `HeadProtocol` is a transition system
  with one atomic step per stretch of code between two awaits; the fleet, the planner and the clock choose each step's
  outcome. `HeadSafety` proves an invariant of every step and from it the claims about every run; `HeadReturns` says what
  is still flown when the head returns, `HeadProgress` that it never gets stuck and how many steps it can take.
  `HeadHistory` traces every acknowledgement and every started epoch back to the events of the run that justify it.
  `HeadRound` and `OrderlyRounds` say what the head achieves: an orderly round answers its event, a run in which nothing
  goes wrong answers all of them, and every return leaves a record of the event in hand. `Replanning` says exactly which
  calls the commit coordinator accepts and what every other call gets. `ExecutionHead` is the stateful class; each
  handler takes exactly its step. `EventHandled` is the offline analyzer's reading of the head's trace.
- **Offline evidence** (`TimeSeries`, `PairSeparation`, `Resampling`, `LeastSquares`, `Smoothing`,
  `StopCount`, `OrderedCapture`).
- **Algebra, documents and replay** (`Quintic`, `TrajectorySampling`, `Reconciliation`, `ProgramCompiler`,
  `IdempotencyStore`).

## Conventions

- Floating-point numbers are mathematical reals. `math.sqrt` is a parameter `root` of which lemmas require only
  the law of the non-negative square root (`Vectors.IsRoot`). Hash functions are parameters too.
- Reading a clock, observing a vehicle, planning and validating commands are outside events; their results
  are inputs of the steps.
- Preconditions are the validators of the source's own types: a route has two points or more, positive
  duration and, when given, positive segment durations that match; regions are ordered; roles and event ids of a
  case are distinct; trajectory times increase from zero; the resampling step is positive.
- Lists that the source only sorts and compares (certificate violations) are sets. Where the source sorts
  strings only to fix an order, the order is a parameter.

## What the code does that its comments do not say

Each item has an input on which the expected property fails and, where one is meaningful, the exact condition under
which it holds.

- `_sampled_role_semantics` keeps a flag that should require entering a region before it is captured. The flag is
  false whenever it is read, so one dwell of two samples captures a goal that is authored twice
  (`OrderedCapture.OneDwellTwoCaptures`). Capture is capture on entry for every track exactly when no two neighbouring
  goals share a point (`OrderedCapture.CaptureIsEntryIff`).
- The slab test treats an axis whose change is at most 1e-15 as constant. `BoxClearance.ThinAxisErrs` gives inputs
  on which it misses a real intersection and on which it reports one that is not there; it is right for every box
  exactly when no axis changes by a non-zero amount that small (`BoxClearance.SlabTestRightIff`). The distance bounds
  hold all the same.
- Resampling holds the last point for grid times up to a quarter step past the end. A moving line sampled at 0 and 0.9
  and resampled at step 1 comes out at nine tenths of its velocity (`Smoothing.HeldEndSlowsDown`); a constant velocity
  survives exactly when it is zero or no grid time passes the end (`Resampling.LineResampled`,
  `Smoothing.ProcessedVelocity`).
- The goal check looks at vertices, so a goal crossed in mid-leg is reported as missed
  (`AdherenceFindings.GoalCrossedMidLeg`); it tells visited from unvisited for every goal exactly on routes that stand
  still (`AdherenceFindings.GoalCheckExactIff`).
- The corridor check wants one corridor per leg, so a leg through two overlapping corridors is reported although the
  flight never leaves them (`AdherenceFindings.LegAcrossTwoCorridors`). The flight never leaves the corridors exactly
  when each corridor a leg leaves hands it over to another (`AdherenceFindings.CorridorsKeptIff`).
- The centreline check looks at vertices, so a leg that cuts a corner of the authored line passes
  (`Centerlines.CornerIsCut`). Vertices near the line put the whole flight near it, for every route and limit, exactly
  when no three vertices of the authored line span a triangle (`Centerlines.VertexCheckEnoughIff`); the condition is
  computed from the vertices (`Polylines.Aligned`).
- The overlap of the routes is computed from declared durations, which for formation routes
  (src/crazyswarm_app/campaign/planner.py:968-983) need not be the sum of the leg times that are flown
  (`Coordination.OverlapOverstates`). It is the length of the longest common flight exactly when it equals the same
  figure computed from the flown ends (`Coordination.OverlapIsLongestIff`), and then and only then the check is right
  about the flight for every demanded length (`Coordination.OverlapCheckRightIff`).
- A failed hold returns while trajectory tasks still run (`HeadReturns.FailedHoldLeavesFlying`). No other return does:
  a return leaves something in flight exactly when it is for a hold that failed while something flew
  (`HeadReturns.ReturnFliesIff`, and in every run `HeadReturns.ReturnedInFlight`).
- The reconciliation passes documents that differ in a mutable key that is null on one side and missing on the other
  (`Reconciliation.NullPassesForAbsent`); `Reconciliation.ReconciledIff` says that this is the only difference it passes.

## Model

| member | source | states |
|---|---|---|
| RouteTiming.RouteKnotTimes | src/crazyswarm_app/campaign/geometry.py:313-326 | the knot loop computes the running sums of the leg times, and those say how each leg is timed: as authored, equally over at most 1e-12 of length, and otherwise in proportion to its length |
| RouteTiming.KnotsTimed | src/crazyswarm_app/campaign/geometry.py:313-326 | each leg takes its authored time; without authored times and with more than 1e-12 of length its time stands to the duration as its length to the whole, so speed is the same on every leg; with no length every leg takes the same time |
| RouteTiming.TimingUnique | src/crazyswarm_app/campaign/geometry.py:313-326 | no other knot times are timed that way |
| RouteTiming.RouteIsPath | src/crazyswarm_app/campaign/geometry.py:313-326 | under either timing rule knot times are in order, only coincident points share a time, and the route ends after it starts |
| RouteTiming.KnotHit | src/crazyswarm_app/campaign/geometry.py:329-339 | a route is at each vertex at that vertex's knot time, also with instantaneous legs |
| RouteTiming.AffineBetween | src/crazyswarm_app/campaign/geometry.py:329-339 | between two times with no knot in between, a route's position is affine in time, before, during and after the flight |
| RouteTiming.PositionOnSomeLeg | src/crazyswarm_app/campaign/geometry.py:329-339 | at every real time the position is a point of some leg |
| RouteTiming.LegIsFlown | src/crazyswarm_app/campaign/geometry.py:329-339 | every point of every leg is visited at some time |
| RouteTiming.EndsWhenDeclared | src/crazyswarm_app/campaign/geometry.py:313-326 | a route is flown from its start, and until its declared end exactly when no leg times are given or they add up to the duration |
| PairClearance.ClosestFractionBest | src/crazyswarm_app/campaign/geometry.py:364-370 | the clamped vertex minimises the relative distance over the interval, and the 1e-18 branch loses at most 1e-9 |
| PairClearance.IntervalSound | src/crazyswarm_app/campaign/geometry.py:354-370 | the value taken for one interval is attained in it and no time in it is lower by more than 1e-9 |
| PairClearance.ContinuousRouteDistance | src/crazyswarm_app/campaign/geometry.py:342-371 | two-sided: the result is a separation the routes have at some time, and at no real time are they closer than it less 1e-9 |
| BoxClearance.BoxDistanceLeast | src/crazyswarm_app/campaign/geometry.py:411-415 | the point-to-box distance is at most the distance to any point of the box |
| BoxClearance.BoxDistanceReached | src/crazyswarm_app/campaign/geometry.py:411-415 | and it is the distance to the nearest point, which lies in the box |
| BoxClearance.BoxDistanceConvex | src/crazyswarm_app/campaign/geometry.py:411-415 | the distance to a box is convex along every segment |
| BoxClearance.SegmentIntersectsAabb | src/crazyswarm_app/campaign/geometry.py:390-408 | the slab test is true exactly when some fraction in [0,1] is between all the faces, with changes up to 1e-15 counted as none |
| BoxClearance.SlabTestRightIff | src/crazyswarm_app/campaign/geometry.py:390-408 | the slab test agrees with the segment really meeting the box, for every ordered box, exactly when no axis changes by a non-zero amount of at most 1e-15 |
| BoxClearance.EndPointMissed | src/crazyswarm_app/campaign/geometry.py:397-401 | whenever some axis does, the box that is just the segment's end is met and missed |
| BoxClearance.ThinAxisErrs | src/crazyswarm_app/campaign/geometry.py:397-401 | concrete segments with a change of 1e-15 on which the test misses an intersection and on which it reports a false one |
| BoxClearance.HitIsClose | src/crazyswarm_app/campaign/geometry.py:390-408 | whatever the axis changes, a reported hit puts the segment within the snap error of the box |
| BoxClearance.Narrow | src/crazyswarm_app/campaign/geometry.py:378-386 | one ternary step keeps, for every fraction, one in the bracket that is no farther from the box |
| BoxClearance.SegmentAabbDistance | src/crazyswarm_app/campaign/geometry.py:374-387 | the result exceeds no distance on the segment by more than half of (2/3)^64 lengths, and some point is as near as the result up to the snap error |
| BoxClearance.SearchErrorSmall | src/crazyswarm_app/campaign/geometry.py:378-387 | the search error of 64 steps is at most three picometres for every metre of the segment |
| ClearanceScan.PairwiseClearances | src/crazyswarm_app/campaign/geometry.py:223-236 | both pairwise figures bound every pair at every time and each is attained by some pair or is the cap |
| ClearanceScan.RouteBoxDistance | src/crazyswarm_app/campaign/geometry.py:242-245 | the least leg distance, less the search error of the longest leg, bounds the route's distance to the box at every time, and it is attained up to the snap error |
| ClearanceScan.SolidClearances | src/crazyswarm_app/campaign/geometry.py:238-253 | both solid figures, less the search error of the route's longest leg, bound every route and solid at every time and are attained up to the snap error; a solid is reported only if really breached and kept clear of if not reported |
| ClearanceScan.VerticesBoundWalls | src/crazyswarm_app/campaign/geometry.py:418-430 | if at every vertex the vehicle's box, widened by a bound, lies between the corners of the volume, it does so at every time |
| ClearanceScan.ClearanceMeansRoom | src/crazyswarm_app/campaign/geometry.py:418-430 | a number is at most the wall clearance of a point exactly when the box about the point with half sides radius and half height, each widened by that number, lies between the corners of the volume |
| ClearanceScan.BoundaryClearances | src/crazyswarm_app/campaign/geometry.py:255-261 | the figure is the most by which the vehicle's box can be widened at every time of every route and stay between the corners, and at some time no more; there is none without routes |
| RouteAdherence.PassableMeansFits | src/crazyswarm_app/campaign/geometry.py:150-168 | a passage is passable exactly when a vehicle with its protected margin fits somewhere in it |
| RouteAdherence.InsideMeansSubset | src/crazyswarm_app/campaign/geometry.py:528-529 | checking two corners decides region inclusion |
| RouteAdherence.OverlapIff | src/crazyswarm_app/campaign/geometry.py:532-540 | the overlap test finds exactly the regions that share a point which on every axis is strictly inside one of them |
| RouteAdherence.ValidateStructuredWorld | src/crazyswarm_app/campaign/geometry.py:131-183 | exactly the contradictions of the world are reported, with one capacity entry per passage in order: how much wider and higher it is than a protected vehicle, and passable exactly when one fits |
| RouteAdherence.WorldFaultIff | src/crazyswarm_app/campaign/geometry.py:139-178 | a contradiction is reported exactly when it is there: a region that reaches outside the volume, a passage and a solid that share a point which on no axis is merely where they touch, or a passage in which nothing fits |
| RouteAdherence.NoFaultsMeansSound | src/crazyswarm_app/campaign/geometry.py:139-178 | there are no contradictions exactly when every region lies in the volume, no solid interlocks with a passage and a protected vehicle fits in every passage |
| RouteAdherence.GoalsAreVisited | src/crazyswarm_app/campaign/geometry.py:443-447 | a passed goal check means each goal is visited at some time |
| RouteAdherence.CorridorsAreKept | src/crazyswarm_app/campaign/geometry.py:448-457 | a passed corridor check means the flight is in some corridor at every time |
| RouteAdherence.PointSegmentNearest | src/crazyswarm_app/campaign/geometry.py:507-515 | the projection is within 1e-9 of the nearest point of the segment |
| RouteAdherence.DeviationBoundsVertices | src/crazyswarm_app/campaign/geometry.py:486-504 | a deviation within a limit puts every vertex within that limit of the authored line |
| AdherenceFindings.DeviationIsReal | src/crazyswarm_app/campaign/geometry.py:486-515 | a deviation above a limit by more than 1e-9 comes from a vertex farther than the limit from every point of the authored line |
| AdherenceFindings.RouteFindingsIff | src/crazyswarm_app/campaign/geometry.py:433-467 | a route has a goal finding exactly when a goal holds no vertex and a corridor finding exactly when no single corridor holds both ends of some leg; a centreline finding comes from a vertex farther than the limit from the whole line, and a vertex farther by 1e-9 brings one |
| Polylines.StraightIff | src/crazyswarm_app/campaign/geometry.py:486-504 | a line through vertices holds all points between its points exactly when every three vertices are in line, which is computed by cross products |
| Centerlines.VertexCheckEnoughIff | src/crazyswarm_app/campaign/geometry.py:501-504 | that all vertices are near the authored line puts every position near it, for every route and limit, exactly when every three vertices of the line are in line |
| Centerlines.AlignedCheckBoundsFlight | src/crazyswarm_app/campaign/geometry.py:459-466 | on such a line a passed centreline check bounds the distance at every time by the limit plus 1e-9 |
| Centerlines.CornerIsCut | src/crazyswarm_app/campaign/geometry.py:501-504 | a route whose vertices are on the line and whose leg passes more than half a metre from it |
| AdherenceFindings.VisitedMeansLegMeets | src/crazyswarm_app/campaign/geometry.py:329-339 | a region is visited in flight exactly when some leg meets it |
| AdherenceFindings.GoalCheckExactIff | src/crazyswarm_app/campaign/geometry.py:443-447 | looking at vertices decides for every ordered goal whether it is visited exactly on routes that do not move |
| AdherenceFindings.GoalCrossedMidLeg | src/crazyswarm_app/campaign/geometry.py:443-447 | a goal flown through in mid-leg and reported as missed |
| AdherenceFindings.LegCoveredIff | src/crazyswarm_app/campaign/geometry.py:448-457 | every point of a leg is in some corridor exactly when a finite check of starts and exits succeeds: a corridor holds the start, and each corridor left is handed over |
| AdherenceFindings.CorridorsKeptIff | src/crazyswarm_app/campaign/geometry.py:448-457 | the flight is in some corridor at every time exactly when every leg passes that finite check |
| AdherenceFindings.LegAcrossTwoCorridors | src/crazyswarm_app/campaign/geometry.py:448-457 | a route that never leaves two overlapping corridors and is reported for leaving them |
| RouteAdherence.PathAdherenceViolations | src/crazyswarm_app/campaign/geometry.py:433-467 | exactly the findings of every route, and a failure exactly for a route without a drone |
| Coordination.SkewFoundIff | src/crazyswarm_app/campaign/geometry.py:266-274 | a synchronisation finding is reported exactly when the check is on and some two starts differ by more than the skew plus 1e-9 |
| Coordination.OverlapIsLongestIff | src/crazyswarm_app/campaign/geometry.py:518-525 | the overlap is the length of the longest stretch during which every route is flown exactly when it equals the overlap computed from the flown ends |
| Coordination.NoOverlapIff | src/crazyswarm_app/campaign/geometry.py:518-525 | the overlap is zero exactly when there are no routes or one is declared to end by the time another starts |
| Coordination.OverlapFoundIff | src/crazyswarm_app/campaign/geometry.py:275-277 | the overlap finding is reported exactly when no stretch of the demanded length less 1e-9 lies in all declared intervals |
| Coordination.OverlapCheckRightIff | src/crazyswarm_app/campaign/geometry.py:275-277 | for every demanded length the finding is reported exactly when no such stretch is flown by all routes, exactly when the two overlaps are equal |
| Coordination.OverlapOfOneIff | src/crazyswarm_app/campaign/geometry.py:518-525 | the overlap of one route is its time of flight exactly when its leg times agree with its duration |
| Coordination.OverlapOverstates | src/crazyswarm_app/campaign/geometry.py:518-525 | a valid route with overlap ten that is over after one second |
| Certificate.NoCoordinationFindings | src/crazyswarm_app/campaign/geometry.py:266-277 | without coordination findings no two starts are too far apart and a stretch of the demanded length less 1e-9 lies in all declared intervals; where the two overlaps agree such a stretch is flown by all routes |
| Certificate.FiguresMeanSafety | src/crazyswarm_app/campaign/geometry.py:235-261 | figures above -1e-9 mean separation less 2e-9, protected distance less 1e-9 and the search error, and wall clearance of -1e-9 at every time |
| Certificate.CertifyCandidateRoutes | src/crazyswarm_app/campaign/geometry.py:210-301 | a pass means safety at every time, goals visited, corridors kept, a sound world and coordination; figures are bounds and attained; every finding of every kind has its meaning, which for an overlap finding is about declared intervals and about the flight where the two overlaps agree; failures are the missing route and the unknown role |
| Replanning.AllOrNothing | src/crazyswarm_app/campaign/replanning.py:768-835 | an acceptance is of an authenticated event in time, carries one successor epoch at the cutover with every replacement certified, feasible and doubly acknowledged; every other decision carries none |
| Replanning.AcceptedIff | src/crazyswarm_app/campaign/replanning.py:848-1029 | a call is accepted exactly when its event id is new, its times are valid, its sequence number is fresh, it is authenticated and admitted, seen and planned in time with both bounds on the cutover before the deadline plus 1e-9, and exactly the affected roles, each once and no more than the drones, are certified, feasible and doubly acknowledged |
| Replanning.HorizonIs | src/crazyswarm_app/campaign/replanning.py:1341-1390 | the cutover is the later of reception plus queue, planning, acknowledgement and guard and of decision plus acknowledgement and guard, and the horizon passes exactly when observation and planning keep their budgets and both are within 1e-9 of the deadline |
| Replanning.FreshAnswered | src/crazyswarm_app/campaign/replanning.py:908-1029 | what a fresh event gets by the first condition it fails: disposition, fallback and horizon of every case, or the epoch |
| Replanning.DuplicateAnswered | src/crazyswarm_app/campaign/replanning.py:867-879 | a repeated event id is answered as a duplicate with the recorded horizon and fallback and changes nothing |
| Replanning.StaleAnswered | src/crazyswarm_app/campaign/replanning.py:880-907 | a sequence number the source has reached is refused as stale with the safe way out, and only recorded |
| Replanning.BadTimingRefused | src/crazyswarm_app/campaign/replanning.py:1341-1362 | a call with a new id fails for its timing exactly when one of its times is negative, and then changes nothing |
| Replanning.FreshRecorded | src/crazyswarm_app/campaign/replanning.py:919-1029 | a fresh event moves its source's sequence number on and its decision, if there is one, is recorded |
| Replanning.AcceptedInOrder | src/crazyswarm_app/campaign/replanning.py:848-1029 | over every history an event id is accepted at most once and accepted sequence numbers of a source increase |
| Replanning.InFlightReplanCoordinator.Replan | src/crazyswarm_app/campaign/replanning.py:848-1029 | the method updates its tables and decides as the decision function |
| HeadProtocol.HeadEventsInOrder | src/crazyswarm_app/campaign/execution_head.py:68-73 | the handled events are the accepted environment events, each occurrence once and in authored order |
| HeadSafety.StepKeepsInv | src/crazyswarm_app/campaign/execution_head.py:132-345 | every step, with every outcome of its await and cancellation in any of them, keeps the head's invariant |
| HeadSafety.LaunchKeepsTasks | src/crazyswarm_app/campaign/execution_head.py:304-319 | starting an epoch after all tasks stopped leaves one epoch live with one task per role on its own trajectory |
| HeadSafety.ValidatedIsEveryRole | src/crazyswarm_app/campaign/execution_head.py:223-241 | when validation does not stop early, every role's replacement was validated |
| HeadSafety.ChainExtends | src/crazyswarm_app/campaign/execution_head.py:246-260 | a further truthful commit that names the reservation in force keeps the chain of epochs and reservations |
| HeadSafety.LatestCaptureIsLatest | src/crazyswarm_app/campaign/execution_head.py:243-245 | the decision time is the latest capture time of the observed roles |
| HeadSafety.AcceptedCommitInTime | src/crazyswarm_app/campaign/execution_head.py:243-260 | an accepted commit is authenticated and prompt, planning included; it cuts over at the later of planning, acknowledgement and guard after the fleet was seen and of acknowledgement and guard after the last capture, continues the epoch and the reservation in force, and moves every role from its current to its proposed trajectory |
| HeadSafety.CommitAcceptedIff | src/crazyswarm_app/campaign/execution_head.py:243-260 | the head goes on to the cutover exactly when the event is new and fresh to the coordinator, authenticated and in a case that replans by itself, no time is negative, and it was seen, planned and acknowledged in time |
| HeadProgress.StepAdvances | src/crazyswarm_app/campaign/execution_head.py:92-345 | every step leaves the orchestrator where it is, hears of a role again, or brings it to a later stage or one role nearer to the end of its phase |
| HeadProgress.ProgressIsBounded | src/crazyswarm_app/campaign/execution_head.py:92-345 | in every run the steps that move the orchestrator are at most (8 events + 8)(roles + 1) + roles |
| HeadProgress.NeverStuck | src/crazyswarm_app/campaign/execution_head.py:92-345 | in every run of an enabled case, until it has ended, every action is defined and the head waits for trajectories still flown or some orderly action brings it nearer to its end |
| HeadSafety.EveryRunIsSafe | src/crazyswarm_app/campaign/execution_head.py:132-345 | in every state of every run live tasks belong to one epoch, no task of a later epoch exists while one of an earlier epoch runs, every commit was truthful and the n-th names epoch n and the reservation commit n-1 produced, and records are a dispatched prefix plus at most one |
| HeadReturns.ReturnFliesIff | src/crazyswarm_app/campaign/execution_head.py:132-345 | a step on which the head returns leaves a task running exactly when it is a hold that failed while one ran, whichever fallback or end it is otherwise |
| HeadReturns.ReturnedInFlight | src/crazyswarm_app/campaign/execution_head.py:132-345 | in every run in which the head has returned and something still flies, a hold failed in flight and the head returned on it |
| HeadReturns.FailedHoldLeavesFlying | src/crazyswarm_app/campaign/execution_head.py:175-194 | a run in which the head has returned and both vehicles still fly their routes |
| HeadHistory.StepMoves | src/crazyswarm_app/campaign/execution_head.py:92-345 | every step is one of nine moves: only a hold, an observation, an arrival or a validated plan of the current round adds to what that round has acknowledged |
| HeadHistory.AcknowledgementsAreTrue | src/crazyswarm_app/campaign/execution_head.py:153-319 | in every run each commit was preceded, in its own round, by a sample past the trigger with a task running and by every role's hold, usable observation and validation; no replacement epoch starts before every role reached the cutover |
| HeadRound.SmoothMoves | src/crazyswarm_app/campaign/execution_head.py:92-345 | where each step leads while nothing goes wrong: trigger, holds, draining, observation, commit, cutover, dispatch and the next event, one role at a time |
| HeadRound.LeftByAnswering | src/crazyswarm_app/campaign/execution_head.py:153-344 | while nothing goes wrong a round is left only by the yield that answers its event: record delivered, next epoch in force with a task of every role on its proposed trajectory, next event entered |
| HeadRound.SmoothRunHandlesAll | src/crazyswarm_app/campaign/execution_head.py:132-345 | a run in which nothing goes wrong, in any interleaving, ends only with every accepted event answered, and the analyzer then finds the oracle to hold |
| HeadRound.RoundLeaves | src/crazyswarm_app/campaign/execution_head.py:153-344 | however a round ends, short of an escaping error or a cancellation, its event has been dispatched or is on record as the last record with the reason and no claim of a dispatch |
| HeadRound.RefusalOnRecord | src/crazyswarm_app/campaign/execution_head.py:246-295 | a commit that is not accepted is on record as a fallback exactly for a negative time and otherwise with the first reason the coordinator has: duplicate, stale, authority or horizon |
| HeadRound.EveryReturnIsAccounted | src/crazyswarm_app/campaign/execution_head.py:132-345 | in every run a head that has returned has answered every event, or its last record is about the event in hand and claims no dispatch |
| OrderlyRounds.OrderlyRoundDelivers | src/crazyswarm_app/campaign/execution_head.py:153-344 | from waiting for an event, a sample past its trigger, holds, landings, usable observations and arrivals in any order and a proposal the coordinator takes lead to the event delivered, every role flying the proposal in the next epoch, the record about that proposal, and the next event waited for |
| ExecutionHead.BarrierCounts | src/crazyswarm_app/campaign/execution_head.py:102-112 | counting registered routes is the same as having every role |
| ExecutionHead.CampaignExecutionHead.Execute | src/crazyswarm_app/campaign/execution_head.py:92-117 | registration refuses wrong identities and duplicates unchanged and otherwise takes the registration step |
| ExecutionHead.CampaignExecutionHead.StartTasks | src/crazyswarm_app/campaign/execution_head.py:136-145 | the loop starts one running task per role on that role's trajectory |
| ExecutionHead.CampaignExecutionHead.ValidateCommands | src/crazyswarm_app/campaign/execution_head.py:223-232 | the loop stops at the first command that fails validation, in role order |
| ExecutionHead.CampaignExecutionHead.OnSourceSample | src/crazyswarm_app/campaign/execution_head.py:154-174 | one sample of the wait for the trigger time takes the protocol's step |
| ExecutionHead.CampaignExecutionHead.OnHoldReturned | src/crazyswarm_app/campaign/execution_head.py:175-194 | one returned or failed hold takes the protocol's step |
| ExecutionHead.CampaignExecutionHead.OnObservation | src/crazyswarm_app/campaign/execution_head.py:347-367 | one observation takes the protocol's step; an unusable sample falls back |
| ExecutionHead.CampaignExecutionHead.OnPlan | src/crazyswarm_app/campaign/execution_head.py:196-295 | planning, validation and commit together take the protocol's step |
| ExecutionHead.CampaignExecutionHead.OnAdvance | src/crazyswarm_app/campaign/execution_head.py:296-319 | one role at the cutover, or a failed advance, takes the protocol's step |
| ExecutionHead.CampaignExecutionHead.OnYield | src/crazyswarm_app/campaign/execution_head.py:320-344 | after one turn the replacement is recorded and adopted, or the head recovers |
| ExecutionHead.CampaignExecutionHead.Handle | src/crazyswarm_app/campaign/execution_head.py:92-345 | the class refines the protocol: every action changes the fields exactly as the step does and keeps the invariant |
| EventHandled.HeadEventsDistinct | src/crazyswarm_app/campaign/models.py:587-588 | distinct scenario ids stay distinct among the head's events |
| EventHandled.SameEvents | src/crazyswarm_app/campaign/analyzer.py:925-938 | the analyzer selects the same accepted environment events as the head |
| EventHandled.CreditedEvents | src/crazyswarm_app/campaign/analyzer.py:939-972 | the analyzer credits exactly the events of the records the head completed |
| EventHandled.CreditIsDispatch | src/crazyswarm_app/campaign/analyzer.py:939-972 | in every reachable state an event is credited exactly when the head dispatched it to every role |
| EventHandled.HeadAndAnalyzerAgree | src/crazyswarm_app/campaign/analyzer.py:924-976 | on the trace of every reachable state the runtime half of the oracle holds exactly when every accepted event was dispatched to all roles |
| TimeSeries.SortIsStable | src/crazyswarm_app/campaign/analyzer.py:1309-1310 | the sort orders by time and keeps the values of each time in their order |
| PairSeparation.NearestIndex | src/crazyswarm_app/campaign/analyzer.py:1321-1325 | the brute-force nearest sample: nearest over the whole sequence and the last such |
| PairSeparation.StaysBehind | src/crazyswarm_app/campaign/analyzer.py:1321-1324 | what the pointer passed for one time is no nearer for any later time |
| PairSeparation.TurningPoint | src/crazyswarm_app/campaign/analyzer.py:1321-1324 | where the next sample would be farther, the pointer is at the nearest sample of all |
| PairSeparation.Join | src/crazyswarm_app/campaign/analyzer.py:1306-1339 | the two-pointer join reports what the brute-force join reports, moves the pointer at most one less than the right length, and fails exactly on an empty side |
| PairSeparation.MinimumOverAllJoins | src/crazyswarm_app/campaign/analyzer.py:1337-1345 | the reported minimum bounds every joined pair and some pair attains it at the reported time |
| PairSeparation.ReportMeans | src/crazyswarm_app/campaign/analyzer.py:1306-1345 | the whole report: both vehicles in dictionary order, the larger number of joined samples of the two channels, the minimum of each channel over all joined pairs, absent exactly without one, and the earliest time of the least true separation |
| Resampling.DeduplicatedSeparated | src/crazyswarm_app/campaign/analyzer.py:1418-1423 | deduplication leaves samples of the recording at strictly and clearly increasing times |
| Resampling.InterpolantUnique | src/crazyswarm_app/campaign/analyzer.py:1433-1436 | the piecewise-linear interpolant is a function of time, also where segments meet |
| Resampling.ClampedInterpolates | src/crazyswarm_app/campaign/analyzer.py:1433-1436 | the clamped value on the segment the loop stops at is the interpolant, or the last point past the end |
| Resampling.Resample | src/crazyswarm_app/campaign/analyzer.py:1413-1438 | terminates; each output is the interpolant at its grid time up to the end and the last point after it; the grid ends within a quarter step of the end |
| Resampling.LineResampled | src/crazyswarm_app/campaign/analyzer.py:1413-1438 | a constant-velocity motion is kept exactly when it stands still or the grid computed from the recording's first and last time and the step does not pass the last time |
| Resampling.OnlyTheLastIsHeld | src/crazyswarm_app/campaign/analyzer.py:1413-1438 | otherwise all samples but the last are on the line and the last holds the line's end |
| LeastSquares.EstimateIsLeastSquares | src/crazyswarm_app/campaign/analyzer.py:1473-1491 | with spread above 1e-15 the estimate is read off a line with the least squared error of all lines |
| LeastSquares.EstimateIsBestConstant | src/crazyswarm_app/campaign/analyzer.py:1480-1484 | otherwise the estimate is the constant with the least squared error |
| LeastSquares.LineKeptIff | src/crazyswarm_app/campaign/analyzer.py:1473-1491 | samples on a line are reproduced at t exactly when the line is level, t is the mean time or the spread exceeds 1e-15 |
| LeastSquares.LastIsPulled | src/crazyswarm_app/campaign/analyzer.py:1473-1491 | a window whose last sample alone is off a line does not return the line there |
| LeastSquares.LineIsTilted | src/crazyswarm_app/campaign/analyzer.py:1473-1491 | nor does the fit over such samples keep the line's slope |
| Smoothing.Smooth | src/crazyswarm_app/campaign/analyzer.py:1441-1470 | every output is the local estimate of the window about its time |
| Smoothing.LineSmoothed | src/crazyswarm_app/campaign/analyzer.py:1441-1491 | a sample of a constant-velocity motion is kept exactly when the motion stands still or its window is good, window edges included |
| Smoothing.GridLineSmoothed | src/crazyswarm_app/campaign/analyzer.py:1441-1491 | on times a step apart with step squared above 2e-15 every sample is kept |
| Smoothing.DerivativeSteps | src/crazyswarm_app/campaign/analyzer.py:1502-1516 | each derivative times its time step is the displacement between the two samples |
| Smoothing.SmoothedBends | src/crazyswarm_app/campaign/analyzer.py:1441-1491 | when the last sample lags behind its line, smoothing with any window leaves a total displacement that is not the line's |
| Smoothing.ProcessedVelocity | src/crazyswarm_app/campaign/analyzer.py:1170-1172 | with step squared above 2e-15, resampling, smoothing and differentiating return the velocity of a constant-velocity recording exactly when it is zero or no grid time passes the end |
| Smoothing.HeldEndSlowsDown | src/crazyswarm_app/campaign/analyzer.py:1413-1438 | samples at 0 and 0.9 resampled at step 1: the velocity comes out at nine tenths, whatever the window |
| StopCount.CountStops | src/crazyswarm_app/campaign/analyzer.py:1570-1600 | the count is the number of maximal low-speed runs followed by a faster sample that last, are undeclared and end before the terminal band |
| StopCount.StopMeans | src/crazyswarm_app/campaign/analyzer.py:1570-1600 | on samples in order of time, exactly which runs are counted: the longest runs at or below the threshold that a faster sample ends, that last the persistence, end more than it before the last sample, and have no declared stop within it |
| StopCount.StopsAreDisjoint | src/crazyswarm_app/campaign/analyzer.py:1578-1597 | counted runs do not overlap |
| StopCount.MoreDeclaredFewerStops | src/crazyswarm_app/campaign/analyzer.py:1585-1590 | declaring more stops never raises the count |
| OrderedCapture.GreedyIsOptimal | scripts/audit_wp52_56_r6_design.py:86-103 | a prefix of the goals can be matched at increasing samples exactly when it is no longer than the greedy capture |
| OrderedCapture.AppendingNeverShortens | scripts/audit_wp52_56_r6_design.py:86-103 | appending samples never shortens the captured prefix |
| OrderedCapture.ObserveOrder | scripts/audit_wp52_56_r6_design.py:86-124 | the observed order is the captured prefix, out-of-order entries list each deviating pair once, at its first sample and in the order of those samples, and nothing else, and completeness is both together |
| OrderedCapture.EntersFirstIff | scripts/audit_wp52_56_r6_design.py:104-124 | for ordered goals a sample enters a goal ahead exactly when it lies in it, the goal is no region expected or captured already, and the same is true of no goal before it |
| OrderedCapture.OneDwellTwoCaptures | scripts/audit_wp52_56_r6_design.py:94-103 | two adjacent samples in a goal authored twice capture it twice; entering is counted once |
| OrderedCapture.CaptureIsEntryIff | scripts/audit_wp52_56_r6_design.py:94-103 | for ordered goals, capture is capture on entry for every track exactly when no two neighbouring goals share a point |
| OrderedCapture.CompleteMeans | scripts/audit_wp52_56_r6_design.py:164-165 | complete means all goals can be matched in order and no sample strays into a goal ahead |
| Quintic.MeetsBoundary | scripts/qualify_submission_registry.py:51-76 | a segment meets all six boundary values and is clamped to them outside its duration |
| Quintic.ReproducesPolynomial | scripts/qualify_submission_registry.py:51-76 | every polynomial of degree at most five is reproduced from its end values inside the segment |
| Quintic.VelocityIsDerivative | scripts/qualify_submission_registry.py:70-74 | the velocity formula is the derivative of the position formula, with the second-order remainder |
| Quintic.AccelerationIsDerivative | scripts/qualify_submission_registry.py:72-75 | the acceleration formula is the derivative of the velocity formula |
| Quintic.SameCurve | scripts/qualify_submission_registry.py:51-76 | a polynomial written about another time is the same curve in position, velocity and acceleration |
| TrajectorySampling.LookupBrackets | scripts/qualify_submission_registry.py:84-87 | the bisect lookup returns a segment that holds the time |
| TrajectorySampling.ContinuousAtPoint | scripts/qualify_submission_registry.py:86-101 | position, velocity and acceleration agree where two segments meet |
| TrajectorySampling.AnySegmentWillDo | scripts/qualify_submission_registry.py:84-101 | the sample does not depend on which segment holding the time is used |
| TrajectorySampling.HitsEveryPoint | scripts/qualify_submission_registry.py:84-101 | the sampled trajectory passes through every point with its velocity and acceleration |
| TrajectorySampling.SamplesPolynomials | scripts/qualify_submission_registry.py:79-101 | where two neighbouring points are the values of a polynomial of degree at most five per axis, every sample between them is its position, velocity and acceleration there |
| TrajectorySampling.SampledDerivatives | scripts/qualify_submission_registry.py:79-101 | between two neighbouring points the sampled velocity is the derivative of the sampled position and the acceleration that of the velocity, each up to a remainder of second order |
| TrajectorySampling.IndependentSamples | scripts/qualify_submission_registry.py:79-111 | terminates; sample k is the trajectory at the k-th grid time, clamped to the end |
| TrajectorySampling.SampledPoints | scripts/qualify_submission_registry.py:79-111 | a sample at the time of a trajectory point is that point |
| Reconciliation.ProjectionIdempotent | scripts/reconcile_wp52_56_r7_implementation.py:104-115 | projecting twice is projecting once |
| Reconciliation.ProjectionDropsAll | scripts/reconcile_wp52_56_r7_implementation.py:104-115 | no mutable key is left at any depth, and documents without one are unchanged |
| Reconciliation.MutableIdentityChanges | scripts/reconcile_wp52_56_r7_implementation.py:118-139 | the recursive loop lists the changes of the specification in its order |
| Reconciliation.ChangesExactly | scripts/reconcile_wp52_56_r7_implementation.py:118-139 | a change is listed exactly when both documents have an object at a place no mutable key leads to and read differently at a mutable key there, with that path and the two values |
| Reconciliation.ListedOnce | scripts/reconcile_wp52_56_r7_implementation.py:118-139 | no path is listed twice |
| Reconciliation.NoKeyChanges | scripts/reconcile_wp52_56_r7_implementation.py:125-135 | nothing is listed for two objects exactly when no key has a listed change |
| Reconciliation.ReconciledIff | scripts/reconcile_wp52_56_r7_implementation.py:243-247 | equal projections and no change hold exactly when the documents are equal up to mutable keys that are null or absent |
| Reconciliation.NullPassesForAbsent | scripts/reconcile_wp52_56_r7_implementation.py:128-132 | two different documents that pass |
| ProgramCompiler.CompileRoleProgram | src/crazyswarm_app/campaign/execution.py:86-190 | succeeds exactly on schedules that start at zero, connect, are valid, hold one START_ROUTE on the role's own trajectory and fit the watchdog |
| ProgramCompiler.CoherentIff | src/crazyswarm_app/domain/trajectory.py:335-365 | the program validator accepts the compiled draft exactly when the schedule is compilable |
| ProgramCompiler.CoherentDetermines | src/crazyswarm_app/domain/trajectory.py:335-365 | the validator leaves no room in operation numbers and route identities: the schedule determines them |
| ProgramCompiler.CompilationPreservesMeaning | src/crazyswarm_app/campaign/execution.py:104-165 | at every time the program's active command is the schedule's active command, arming apart |
| ProgramCompiler.ReservesFillWatchdog | src/crazyswarm_app/campaign/execution.py:169-189 | duration and both reserves add up to the watchdog exactly when it covers the schedule; sequences are 1 to n |
| ProgramCompiler.CompileCampaignExecutionPrograms | src/crazyswarm_app/campaign/execution.py:27-83 | succeeds exactly when the plan is ready, schedule and trajectories are bound to the case, the candidate and the submission, routes, trajectories, schedules and drones are of the same roles, and every role compiles |
| ProgramCompiler.OneProgramPerRole | src/crazyswarm_app/campaign/execution.py:65-83 | each role gets exactly one program |
| ProgramCompiler.ByRoleHoldsLast | src/crazyswarm_app/campaign/execution.py:44-64 | a table by role has exactly the roles of its items and for each the last item of that role |
| ProgramCompiler.CompiledFromOwn | src/crazyswarm_app/campaign/execution.py:65-83 | each program is compiled from its own role's schedule, trajectory and landing region |
| IdempotencyStore.IdempotencyStore.Execute | src/crazyswarm_app/api/security.py:36-60 | one request replies and updates the table as the serving function |
| IdempotencyStore.TableIsHistory | src/crazyswarm_app/api/security.py:42-60 | the table holds a key exactly when a request completed it, with that fingerprint and response |
| IdempotencyStore.CompletesAtMostOnce | src/crazyswarm_app/api/security.py:42-60 | over every history a key completes its operation at most once |
| IdempotencyStore.CompletionIsFinal | src/crazyswarm_app/api/security.py:44-54 | afterwards a matching request gets that response and any other is refused |
| IdempotencyStore.RunsUntilCompleted | src/crazyswarm_app/api/security.py:44-60 | an operation runs exactly when no earlier request completed its key, so failures leave the key free |
| IdempotencyStore.KeysAreIndependent | src/crazyswarm_app/api/security.py:42-60 | what is stored for a key depends on that key's requests alone |
| IdempotencyStore.FrameRoundTrip | src/crazyswarm_app/api/security.py:63-66 | a frame reads back as its method, path and body exactly when method and path hold no NUL |
| IdempotencyStore.FramingInjective | src/crazyswarm_app/api/security.py:63-66 | on such methods and paths the framing is injective |
| IdempotencyStore.NulInPathCollides | src/crazyswarm_app/api/security.py:63-66 | with a NUL in the path two mutations share a frame |
| IdempotencyStore.ReplayIsSameMutation | src/crazyswarm_app/api/security.py:36-66 | with a collision-free hash every replay answers an earlier request for the same method, path and body |

## Left out

- Certificate.CertifyCandidateRoutes: the identity hashes, the contact assessments (always empty in the source) and `maximum_path_deviation_m` of the certificate are not modelled; the order of the violations is not kept.
- RouteAdherence.DeviationBoundsVertices: says nothing of positions between vertices, where the check of the source does not look either (`Centerlines.VertexCheckEnoughIff`).
- HeadProtocol: event-loop scheduling below one await, a cancellation before the orchestrator's first turn, the wording of reasons, latencies and horizon fields of a record, and the lists of tasks of earlier epochs, which the class keeps only as history.
- HeadSafety.EveryRunIsSafe: no claim that nothing runs after a failed hold, because something can (`HeadReturns.FailedHoldLeavesFlying`).
- ExecutionHead.CampaignExecutionHead.OnPlan: planning itself is outside; a proposal is any one that covers the roles, which its constructor guarantees.
- Replanning.InFlightReplanCoordinator.Replan: authority and decision hashes and the wording of reasons are not modelled; the reservation hash is a function of epoch, replacements and cutover.
- EventHandled.HeadAndAnalyzerAgree: the admission half of the oracle, which reads another trace, is not modelled.
- PairSeparation.Join: reading telemetry from CSV and formatting the time stamp are not modelled.
- TrajectorySampling.IndependentSamples: rounding of the reported time to nine digits is not modelled.
- OrderedCapture.ObserveOrder: stop intervals, topology labels and checkpoint counts of the same function are not modelled.
- Reconciliation.MutableIdentityChanges: paths are lists of steps instead of joined strings; NaN is not a number here.
- ProgramCompiler.CompileRoleProgram: program and goal identifiers, which are hashes, and fixed landing tolerances are not modelled.
- IdempotencyStore.IdempotencyStore.Execute: the lock is the serialisation of the history; HTTP and hashing are outside.
- Floating-point rounding, everywhere.
- Region dwell, duplicate and missing sample counts, turn angles, percentiles and timelines of the analyzer: single loops that would only add easy members.
- The planner's search, trajectory generation, case catalogues, qualification drivers, the supervisor, FastAPI routes, the dashboard and all file publishing.
