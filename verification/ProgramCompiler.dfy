/** Compiling an admitted launch schedule into one execution program per role. */
module ProgramCompiler {
  import opened Wrappers
  import opened Roles
  import opened Vectors

  datatype ActionKind = GroundWait | Arm | Takeoff | Stabilize | AirborneStage | StartRoute | Land

  datatype Action = Action(kind: ActionKind, starts: real, ends: real)

  /** What the compiler reads of a role's validated trajectory. */
  datatype RoleTrajectory = RoleTrajectory(
    role: RoleId, vehicle: RoleId, sha: string, routeSha: string, first: Vector3, last: Vector3, duration: real)

  datatype Operation =
    | WaitOperation(sequence: nat, starts: real, ends: real)
    | TakeoffOperation(sequence: nat, starts: real, ends: real, targetHeight: real)
    | HoldOperation(sequence: nat, starts: real, ends: real)
    | TrajectoryOperation(sequence: nat, starts: real, ends: real, trajectory: RoleTrajectory)
    | LandOperation(sequence: nat, starts: real, ends: real, target: Vector3, approach: Vector3)

  datatype Program = Program(
    missionSource: string, role: RoleId, vehicle: RoleId, operations: seq<Operation>, routes: seq<string>,
    duration: real, contingency: real, recovery: real, timeout: real)

  datatype CompileError =
    PlanNotReady | IdentitiesDiffer | RolesCrossed | InvalidOperation | NotFromZero | IncoherentProgram

  // ----- the validators of the runtime contracts -----

  predicate ValidOperation(o: Operation) {
    && 1 <= o.sequence && 0.0 <= o.starts && 0.0 < o.ends
    && match o
       case TakeoffOperation(_, _, _, height) => 0.0 < height
       case TrajectoryOperation(_, starts, ends, trajectory) => IsClose(ends - starts, trajectory.duration)
       case LandOperation(_, _, _, target, approach) =>
         0.0 <= target.z < approach.z && IsClose(approach.x, target.x) && IsClose(approach.y, target.y)
       case _ => true
  }

  /** The route identities of the trajectory operations, in order. */
  function RoutesOf(operations: seq<Operation>): seq<string> {
    if operations == [] then []
    else
      var n := |operations| - 1;
      RoutesOf(operations[..n]) + (if operations[n].TrajectoryOperation? then [operations[n].trajectory.routeSha] else [])
  }

  predicate Contiguous(operations: seq<Operation>) {
    && (forall i :: 0 <= i < |operations| ==> operations[i].sequence == i + 1)
    && (forall i, j :: 0 <= i && j == i + 1 < |operations| ==> IsClose(operations[i].ends, operations[j].starts))
  }

  predicate CoherentProgram(p: Program) {
    && p.operations != [] && Contiguous(p.operations) && p.operations[0].starts == 0.0
    && 0.0 < p.duration && 0.0 <= p.contingency && 0.0 <= p.recovery && 0.0 < p.timeout
    && IsClose(p.operations[|p.operations| - 1].ends, p.duration)
    && IsClose(p.timeout, p.duration + p.contingency + p.recovery)
    && p.routes == RoutesOf(p.operations)
    && (forall o :: o in p.operations && o.TrajectoryOperation? ==>
        o.trajectory.role == p.role && o.trajectory.vehicle == p.vehicle)
  }

  // ----- one role -----

  /** The actions that become operations. */
  function FlightActions(actions: seq<Action>): seq<Action> {
    if actions == [] then []
    else
      var n := |actions| - 1;
      FlightActions(actions[..n]) + (if actions[n].kind.Arm? then [] else [actions[n]])
  }

  function OperationOf(sequence: nat, a: Action, trajectory: RoleTrajectory, landing: Region3D): Operation
    requires !a.kind.Arm?
  {
    match a.kind
    case GroundWait => WaitOperation(sequence, a.starts, a.ends)
    case Takeoff => TakeoffOperation(sequence, a.starts, a.ends, trajectory.first.z)
    case Stabilize => HoldOperation(sequence, a.starts, a.ends)
    case AirborneStage => HoldOperation(sequence, a.starts, a.ends)
    case StartRoute => TrajectoryOperation(sequence, a.starts, a.ends, trajectory)
    case Land => LandOperation(sequence, a.starts, a.ends, landing.Center(), trajectory.last)
  }

  lemma {:induction false} NoArmLeft(actions: seq<Action>)
    ensures forall i :: 0 <= i < |FlightActions(actions)| ==> !FlightActions(actions)[i].kind.Arm?
  {
    if actions != [] { NoArmLeft(actions[..|actions| - 1]); }
  }

  /** Compiles the launch schedule of one role; `watchdog` is the fleet's wall-clock limit. */
  method CompileRoleProgram(missionSource: string, role: RoleId, actions: seq<Action>, trajectory: RoleTrajectory,
                            landing: Region3D, watchdog: real)
    returns (result: Result<Program, CompileError>)
    requires 0.0 < watchdog
    ensures result.Success? <==> Compilable(role, actions, trajectory, landing, watchdog)
    ensures result == Failure(InvalidOperation) <==> !AllCompilable(FlightActions(actions), trajectory, landing)
    ensures result.Failure? ==> result.error.InvalidOperation? || result.error.NotFromZero? || result.error.IncoherentProgram?
    ensures result.Success? ==> IsProgramOf(result.value, missionSource, role, actions, trajectory, landing, watchdog)
  {
    var flight := FlightActions(actions);
    NoArmLeft(actions);
    var operations: seq<Operation> := [];
    for k := 0 to |flight|
      invariant |operations| == k
      invariant forall i :: 0 <= i < k ==> Compiled(flight, trajectory, landing, operations, i)
    {
      var operation := OperationOf(k + 1, flight[k], trajectory, landing);
      OperationValidIff(k + 1, flight[k], trajectory, landing);
      if !ValidOperation(operation) {
        return Failure(InvalidOperation);
      }
      ghost var before := operations;
      operations := operations + [operation];
      forall i | 0 <= i < k ensures Compiled(flight, trajectory, landing, operations, i) {
        assert Compiled(flight, trajectory, landing, before, i);
      }
    }
    CompiledTimes(flight, trajectory, landing, operations);
    if operations == [] || operations[0].starts != 0.0 {
      return Failure(NotFromZero);
    }
    var duration := operations[|operations| - 1].ends;
    var margin := Max(0.0, watchdog - duration);
    var recovery := Min(10.0, margin);
    var program := Program(missionSource, role, role, operations, [trajectory.routeSha], duration, margin - recovery,
                           recovery, watchdog);
    CoherentIff(program, role, actions, trajectory, landing, watchdog);
    if !CoherentProgram(program) {
      return Failure(IncoherentProgram);
    }
    return Success(program);
  }

  /** Operation i is the compiled form of action i, and passed its own validator. */
  ghost predicate Compiled(flight: seq<Action>, trajectory: RoleTrajectory, landing: Region3D, operations: seq<Operation>, i: nat)
    requires i < |flight| && i < |operations|
  {
    && !flight[i].kind.Arm? && operations[i] == OperationOf(i + 1, flight[i], trajectory, landing)
    && ValidOperation(operations[i]) && CompilableAction(flight[i], trajectory, landing)
  }

  lemma OperationValidIff(sequence: nat, a: Action, trajectory: RoleTrajectory, landing: Region3D)
    requires 1 <= sequence && !a.kind.Arm?
    ensures ValidOperation(OperationOf(sequence, a, trajectory, landing)) <==> CompilableAction(a, trajectory, landing)
  {
  }

  lemma CompiledTimes(flight: seq<Action>, trajectory: RoleTrajectory, landing: Region3D, operations: seq<Operation>)
    requires |operations| == |flight|
    requires forall i :: 0 <= i < |flight| ==> Compiled(flight, trajectory, landing, operations, i)
    ensures forall i :: 0 <= i < |flight| ==>
      operations[i].sequence == i + 1 && operations[i].starts == flight[i].starts && operations[i].ends == flight[i].ends
    ensures forall i :: 0 <= i < |flight| && operations[i].TrajectoryOperation? ==>
      flight[i].kind.StartRoute? && operations[i].trajectory == trajectory
    ensures forall i :: 0 <= i < |flight| && flight[i].kind.StartRoute? ==> operations[i].TrajectoryOperation?
    ensures forall i :: 0 <= i < |flight| ==> CompilableAction(flight[i], trajectory, landing)
  {
    forall i | 0 <= i < |flight|
      ensures operations[i].sequence == i + 1 && operations[i].starts == flight[i].starts && operations[i].ends == flight[i].ends
      ensures operations[i].TrajectoryOperation? <==> flight[i].kind.StartRoute?
      ensures operations[i].TrajectoryOperation? ==> operations[i].trajectory == trajectory
      ensures CompilableAction(flight[i], trajectory, landing)
    {
      assert Compiled(flight, trajectory, landing, operations, i);
    }
  }

  // ----- when a schedule compiles, in terms of the schedule -----

  ghost predicate CompilableAction(a: Action, trajectory: RoleTrajectory, landing: Region3D) {
    && 0.0 <= a.starts && 0.0 < a.ends
    && (a.kind.Takeoff? ==> 0.0 < trajectory.first.z)
    && (a.kind.StartRoute? ==> IsClose(a.ends - a.starts, trajectory.duration))
    && (a.kind.Land? ==>
        && 0.0 <= landing.Center().z < trajectory.last.z
        && IsClose(trajectory.last.x, landing.Center().x) && IsClose(trajectory.last.y, landing.Center().y))
  }

  ghost predicate AllCompilable(flight: seq<Action>, trajectory: RoleTrajectory, landing: Region3D) {
    forall i :: 0 <= i < |flight| ==> CompilableAction(flight[i], trajectory, landing)
  }

  ghost predicate Connected(flight: seq<Action>) {
    forall i, j :: 0 <= i && j == i + 1 < |flight| ==> IsClose(flight[i].ends, flight[j].starts)
  }

  ghost predicate OnlyRoute(flight: seq<Action>, i: int) {
    && 0 <= i < |flight| && flight[i].kind.StartRoute?
    && forall j :: 0 <= j < |flight| && flight[j].kind.StartRoute? ==> j == i
  }

  /** A schedule compiles exactly when its actions without ARM start at zero, follow each other, are valid
      one by one, hold one START_ROUTE, fly the role's own trajectory, and the watchdog covers them. */
  ghost predicate Compilable(role: RoleId, actions: seq<Action>, trajectory: RoleTrajectory, landing: Region3D, watchdog: real) {
    var flight := FlightActions(actions);
    && flight != [] && flight[0].starts == 0.0 && Connected(flight)
    && AllCompilable(flight, trajectory, landing)
    && (exists i :: OnlyRoute(flight, i))
    && trajectory.role == role && trajectory.vehicle == role
    && (flight[|flight| - 1].ends <= watchdog || IsClose(watchdog, flight[|flight| - 1].ends))
  }

  /** The program of a role: one numbered operation per action, its own artifacts, and reserves that fill the watchdog. */
  ghost predicate IsProgramOf(p: Program, missionSource: string, role: RoleId, actions: seq<Action>, trajectory: RoleTrajectory,
                              landing: Region3D, watchdog: real)
  {
    var flight := FlightActions(actions);
    && p.missionSource == missionSource && p.role == p.vehicle == role && p.timeout == watchdog
    && |p.operations| == |flight| && p.routes == [trajectory.routeSha]
    && (forall i :: 0 <= i < |flight| ==> Compiled(flight, trajectory, landing, p.operations, i))
    && flight != [] && p.duration == flight[|flight| - 1].ends
    && 0.0 <= p.contingency && 0.0 <= p.recovery <= 10.0 && (0.0 < p.contingency ==> p.recovery == 10.0)
    && p.duration + p.contingency + p.recovery == Max(watchdog, p.duration)
  }

  /** What the compiler has put together when it asks the validator. */
  ghost predicate Draft(p: Program, role: RoleId, actions: seq<Action>, trajectory: RoleTrajectory, landing: Region3D,
                        watchdog: real)
  {
    var flight := FlightActions(actions);
    var margin := Max(0.0, watchdog - p.duration);
    && p.role == p.vehicle == role && p.timeout == watchdog && |p.operations| == |flight| && p.routes == [trajectory.routeSha]
    && (forall i :: 0 <= i < |flight| ==> Compiled(flight, trajectory, landing, p.operations, i))
    && flight != [] && flight[0].starts == 0.0 && p.duration == flight[|flight| - 1].ends
    && p.recovery == Min(10.0, margin) && p.contingency == margin - p.recovery
  }

  lemma {:induction false} RoutesCount(flight: seq<Action>, trajectory: RoleTrajectory, landing: Region3D, operations: seq<Operation>)
    requires |operations| == |flight|
    requires forall i :: 0 <= i < |flight| ==> Compiled(flight, trajectory, landing, operations, i)
    ensures RoutesOf(operations) == [] <==> forall i :: 0 <= i < |flight| ==> !flight[i].kind.StartRoute?
    ensures RoutesOf(operations) == [trajectory.routeSha] <==> exists i :: OnlyRoute(flight, i)
  {
    if flight != [] {
      var n := |flight| - 1;
      var f, o := flight[..n], operations[..n];
      forall i | 0 <= i < n ensures Compiled(f, trajectory, landing, o, i) {
        assert Compiled(flight, trajectory, landing, operations, i);
      }
      RoutesCount(f, trajectory, landing, o);
      assert Compiled(flight, trajectory, landing, operations, n);
      LastRoute(flight, f);
    }
  }

  lemma LastRoute(flight: seq<Action>, f: seq<Action>)
    requires flight != [] && f == flight[..|flight| - 1]
    ensures var n := |flight| - 1;
      (exists i :: OnlyRoute(flight, i)) <==>
      if flight[n].kind.StartRoute? then forall i :: 0 <= i < n ==> !f[i].kind.StartRoute?
      else exists i :: OnlyRoute(f, i)
  {
    var n := |flight| - 1;
    if flight[n].kind.StartRoute? {
      if forall i :: 0 <= i < n ==> !f[i].kind.StartRoute? {
        assert OnlyRoute(flight, n);
      }
    } else {
      if i :| OnlyRoute(f, i) { assert OnlyRoute(flight, i); }
      if i :| OnlyRoute(flight, i) { assert OnlyRoute(f, i); }
    }
  }

  /** The validator of the whole program accepts the draft exactly when the schedule is compilable. */
  lemma CoherentIff(p: Program, role: RoleId, actions: seq<Action>, trajectory: RoleTrajectory, landing: Region3D, watchdog: real)
    requires 0.0 < watchdog && Draft(p, role, actions, trajectory, landing, watchdog)
    ensures CoherentProgram(p) <==> Compilable(role, actions, trajectory, landing, watchdog)
  {
    var flight := FlightActions(actions);
    RoutesCount(flight, trajectory, landing, p.operations);
    CompiledTimes(flight, trajectory, landing, p.operations);
    assert Contiguous(p.operations) <==> Connected(flight);
    if i :| OnlyRoute(flight, i) {
      assert p.operations[i] in p.operations;
    }
  }

  /** The same schedule, numbers apart. */
  ghost predicate SameSchedule(p: seq<Operation>, q: seq<Operation>) {
    |p| == |q| && forall i :: 0 <= i < |p| ==> p[i].(sequence := 0) == q[i].(sequence := 0)
  }

  lemma {:induction false} RoutesOfSchedule(p: seq<Operation>, q: seq<Operation>)
    requires SameSchedule(p, q)
    ensures RoutesOf(p) == RoutesOf(q)
  {
    if p != [] {
      var n := |p| - 1;
      RoutesOfSchedule(p[..n], q[..n]);
      assert p[n].(sequence := 0) == q[n].(sequence := 0);
    }
  }

  /** The validator leaves no room in the numbers and the route identities: the schedule determines them. */
  lemma CoherentDetermines(p: Program, q: Program)
    requires CoherentProgram(p) && CoherentProgram(q) && SameSchedule(p.operations, q.operations)
    ensures p.operations == q.operations && p.routes == q.routes
  {
    RoutesOfSchedule(p.operations, q.operations);
    forall i | 0 <= i < |p.operations| ensures p.operations[i] == q.operations[i] {
      assert p.operations[i].(sequence := 0) == q.operations[i].(sequence := 0);
    }
  }

  // ----- the program means what the schedule says -----

  /** What the vehicle is told to do. */
  datatype Command = WaitOnGround | TakeOff(height: real) | Hover | Fly(trajectory: RoleTrajectory) | Descend(target: Vector3)

  function CommandOf(o: Operation): Command {
    match o
    case WaitOperation(_, _, _) => WaitOnGround
    case TakeoffOperation(_, _, _, height) => TakeOff(height)
    case HoldOperation(_, _, _) => Hover
    case TrajectoryOperation(_, _, _, trajectory) => Fly(trajectory)
    case LandOperation(_, _, _, target, _) => Descend(target)
  }

  /** The scheduled meaning of an action for the owner of these artifacts; arming moves nothing. */
  function ScheduledCommand(a: Action, trajectory: RoleTrajectory, landing: Region3D): Option<Command> {
    match a.kind
    case GroundWait => Some(WaitOnGround)
    case Arm => None
    case Takeoff => Some(TakeOff(trajectory.first.z))
    case Stabilize => Some(Hover)
    case AirborneStage => Some(Hover)
    case StartRoute => Some(Fly(trajectory))
    case Land => Some(Descend(landing.Center()))
  }

  /** The command of the first operation that holds time t. */
  function ActiveCommand(operations: seq<Operation>, t: real): Option<Command> {
    if operations == [] then None
    else
      var n := |operations| - 1;
      var earlier := ActiveCommand(operations[..n], t);
      if earlier.Some? then earlier
      else if operations[n].starts <= t < operations[n].ends then Some(CommandOf(operations[n]))
      else None
  }

  /** The command of the first scheduled action, arming apart, that holds time t. */
  function ActiveInSchedule(actions: seq<Action>, trajectory: RoleTrajectory, landing: Region3D, t: real): Option<Command> {
    if actions == [] then None
    else
      var n := |actions| - 1;
      FirstActive(ActiveInSchedule(actions[..n], trajectory, landing, t), actions[n], trajectory, landing, t)
  }

  function FirstActive(earlier: Option<Command>, a: Action, trajectory: RoleTrajectory, landing: Region3D, t: real)
    : Option<Command>
  {
    if earlier.Some? then earlier
    else if a.starts <= t < a.ends then ScheduledCommand(a, trajectory, landing)
    else None
  }

  lemma ActiveWithLast(earlier: seq<Action>, a: Action, trajectory: RoleTrajectory, landing: Region3D, t: real)
    ensures ActiveInSchedule(earlier + [a], trajectory, landing, t)
         == FirstActive(ActiveInSchedule(earlier, trajectory, landing, t), a, trajectory, landing, t)
  {
    assert (earlier + [a])[..|earlier|] == earlier;
  }

  lemma FlightWithLast(earlier: seq<Action>, a: Action)
    ensures FlightActions(earlier + [a]) == FlightActions(earlier) + (if a.kind.Arm? then [] else [a])
  {
    assert (earlier + [a])[..|earlier|] == earlier;
  }

  lemma {:induction false} ArmingIsInactive(actions: seq<Action>, trajectory: RoleTrajectory, landing: Region3D, t: real)
    ensures ActiveInSchedule(FlightActions(actions), trajectory, landing, t) == ActiveInSchedule(actions, trajectory, landing, t)
  {
    if actions != [] {
      hide ActiveInSchedule, FlightActions;
      var earlier, last := actions[..|actions| - 1], actions[|actions| - 1];
      assert actions == earlier + [last];
      ArmingIsInactive(earlier, trajectory, landing, t);
      FlightWithLast(earlier, last);
      ActiveWithLast(earlier, last, trajectory, landing, t);
      if last.kind.Arm? {
        assert FlightActions(earlier) + [] == FlightActions(earlier);
      } else {
        ActiveWithLast(FlightActions(earlier), last, trajectory, landing, t);
      }
    }
  }

  lemma {:induction false} OperationsFollowActions(
    flight: seq<Action>, trajectory: RoleTrajectory, landing: Region3D, operations: seq<Operation>, t: real)
    requires |operations| == |flight|
    requires forall i :: 0 <= i < |flight| ==> Compiled(flight, trajectory, landing, operations, i)
    ensures ActiveCommand(operations, t) == ActiveInSchedule(flight, trajectory, landing, t)
  {
    if flight != [] {
      var n := |flight| - 1;
      var f, o := flight[..n], operations[..n];
      forall i | 0 <= i < n ensures Compiled(f, trajectory, landing, o, i) {
        assert Compiled(flight, trajectory, landing, operations, i);
      }
      OperationsFollowActions(f, trajectory, landing, o, t);
      assert Compiled(flight, trajectory, landing, operations, n);
    }
  }

  /** At every time the program commands exactly what the schedule does. */
  lemma CompilationPreservesMeaning(p: Program, missionSource: string, role: RoleId, actions: seq<Action>,
                                    trajectory: RoleTrajectory, landing: Region3D, watchdog: real, t: real)
    requires IsProgramOf(p, missionSource, role, actions, trajectory, landing, watchdog)
    ensures ActiveCommand(p.operations, t) == ActiveInSchedule(actions, trajectory, landing, t)
  {
    OperationsFollowActions(FlightActions(actions), trajectory, landing, p.operations, t);
    ArmingIsInactive(actions, trajectory, landing, t);
  }

  /** Duration and both reserves add up to the watchdog exactly when it covers the schedule. */
  lemma ReservesFillWatchdog(p: Program, missionSource: string, role: RoleId, actions: seq<Action>,
                             trajectory: RoleTrajectory, landing: Region3D, watchdog: real)
    requires IsProgramOf(p, missionSource, role, actions, trajectory, landing, watchdog)
    ensures p.duration + p.contingency + p.recovery == watchdog <==> p.duration <= watchdog
    ensures watchdog < p.duration ==> p.contingency == p.recovery == 0.0
    ensures forall i :: 0 <= i < |p.operations| ==> p.operations[i].sequence == i + 1
  {
    forall i | 0 <= i < |p.operations| ensures p.operations[i].sequence == i + 1 {
      assert Compiled(FlightActions(actions), trajectory, landing, p.operations, i);
    }
  }

  // ----- the whole fleet -----

  const BASELINE_PLANNING_SUBMISSION_ID := "case_planning_authority"

  /** The planning identities a schedule or a trajectory set carries. */
  datatype Identity = Identity(caseSha: string, candidateSha: string, submission: Option<string>, submissionSha: Option<string>)

  datatype Selected = Selected(candidateSha: string, routeRoles: seq<RoleId>)

  datatype Plan = Plan(ready: bool, selected: Option<Selected>, submission: string, submissionSha: string)

  datatype RoleSchedule = RoleSchedule(role: RoleId, actions: seq<Action>)

  datatype Drone = Drone(role: RoleId, landing: Region3D)

  /** Everything compiled together; the watchdog is positive by the schedule's own validator. */
  datatype Inputs = Inputs(
    caseSha: string, drones: seq<Drone>, plan: Plan, scheduleIdentity: Identity, schedules: seq<RoleSchedule>, watchdog: real,
    trajectoryIdentity: Identity, trajectories: seq<RoleTrajectory>, missionSource: string)

  /** Item i is the last one of role r. */
  ghost predicate IsLastOf<T>(items: seq<T>, role: T -> RoleId, r: RoleId, i: int) {
    0 <= i < |items| && role(items[i]) == r && forall j :: i < j < |items| ==> role(items[j]) != r
  }

  /** A table by role; a later item replaces an earlier one of the same role. */
  function ByRole<T>(items: seq<T>, role: T -> RoleId): map<RoleId, T> {
    if items == [] then map[]
    else ByRole(items[..|items| - 1], role)[role(items[|items| - 1]) := items[|items| - 1]]
  }

  /** The table holds exactly the roles of the items, and for each the last item of that role. */
  lemma {:induction false} ByRoleHoldsLast<T>(items: seq<T>, role: T -> RoleId)
    ensures forall r :: r in ByRole(items, role) <==> exists i :: 0 <= i < |items| && role(items[i]) == r
    ensures forall r, i :: IsLastOf(items, role, r, i) ==> r in ByRole(items, role) && ByRole(items, role)[r] == items[i]
  {
    if items != [] {
      var n := |items| - 1;
      var earlier, table := items[..n], ByRole(items, role);
      ByRoleHoldsLast(earlier, role);
      assert forall i :: 0 <= i < n ==> earlier[i] == items[i];
      assert table == ByRole(earlier, role)[role(items[n]) := items[n]];
      forall r | r in table ensures exists i :: 0 <= i < |items| && role(items[i]) == r {
        if r != role(items[n]) {
          var i :| 0 <= i < |earlier| && role(earlier[i]) == r;
          assert role(items[i]) == r;
        }
      }
      forall r, i | IsLastOf(items, role, r, i) ensures r in table && table[r] == items[i] {
        if i < n { assert role(items[n]) != r && IsLastOf(earlier, role, r, i); }
      }
    }
  }

  predicate PlanningMatches(i: Identity, p: Plan) {
    || (i.submission == Some(p.submission) && i.submissionSha == Some(p.submissionSha))
    || (p.submission == BASELINE_PLANNING_SUBMISSION_ID && i.submission.None? && i.submissionSha.None?)
  }

  predicate IdentitiesAgree(x: Inputs)
    requires x.plan.selected.Some?
  {
    && x.scheduleIdentity.caseSha == x.caseSha == x.trajectoryIdentity.caseSha
    && x.scheduleIdentity.candidateSha == x.plan.selected.value.candidateSha == x.trajectoryIdentity.candidateSha
    && PlanningMatches(x.scheduleIdentity, x.plan) && PlanningMatches(x.trajectoryIdentity, x.plan)
  }

  function Schedules(x: Inputs): map<RoleId, RoleSchedule> { ByRole(x.schedules, (s: RoleSchedule) => s.role) }

  function Trajectories(x: Inputs): map<RoleId, RoleTrajectory> { ByRole(x.trajectories, (t: RoleTrajectory) => t.role) }

  function Drones(x: Inputs): map<RoleId, Drone> { ByRole(x.drones, (d: Drone) => d.role) }

  predicate RolesAgree(x: Inputs)
    requires x.plan.selected.Some?
  {
    (set r | r in x.plan.selected.value.routeRoles) == Trajectories(x).Keys == Schedules(x).Keys == Drones(x).Keys
  }

  /** The artifact is bound to this case, to the selected candidate and to the plan's submission, which for the baseline
      submission may be left out. */
  ghost predicate BoundTo(x: Inputs, i: Identity)
    requires x.plan.selected.Some?
  {
    && i.caseSha == x.caseSha && i.candidateSha == x.plan.selected.value.candidateSha
    && match i.submission
       case Some(id) => id == x.plan.submission && i.submissionSha == Some(x.plan.submissionSha)
       case None => i.submissionSha.None? && x.plan.submission == BASELINE_PLANNING_SUBMISSION_ID
  }

  lemma BoundIff(x: Inputs)
    requires x.plan.selected.Some?
    ensures IdentitiesAgree(x) <==> BoundTo(x, x.scheduleIdentity) && BoundTo(x, x.trajectoryIdentity)
  {
  }

  ghost predicate HasDrone(x: Inputs, role: RoleId) { exists i :: 0 <= i < |x.drones| && x.drones[i].role == role }

  ghost predicate HasTrajectory(x: Inputs, role: RoleId) {
    exists i :: 0 <= i < |x.trajectories| && x.trajectories[i].role == role
  }

  ghost predicate HasSchedule(x: Inputs, role: RoleId) { exists i :: 0 <= i < |x.schedules| && x.schedules[i].role == role }

  /** The selected routes, the trajectories, the schedules and the drones are of the same roles. */
  ghost predicate SameRoles(x: Inputs)
    requires x.plan.selected.Some?
  {
    forall role :: (role in x.plan.selected.value.routeRoles <==> HasDrone(x, role))
                && (HasTrajectory(x, role) <==> HasDrone(x, role)) && (HasSchedule(x, role) <==> HasDrone(x, role))
  }

  lemma TablesHold(x: Inputs)
    ensures forall role :: role in Drones(x) <==> HasDrone(x, role)
    ensures forall role :: role in Trajectories(x) <==> HasTrajectory(x, role)
    ensures forall role :: role in Schedules(x) <==> HasSchedule(x, role)
  {
    hide ByRole;
    ByRoleHoldsLast(x.schedules, (s: RoleSchedule) => s.role);
    ByRoleHoldsLast(x.trajectories, (t: RoleTrajectory) => t.role);
    ByRoleHoldsLast(x.drones, (d: Drone) => d.role);
  }

  lemma RolesIff(x: Inputs)
    requires x.plan.selected.Some?
    ensures RolesAgree(x) <==> SameRoles(x)
  {
    TablesHold(x);
    hide HasDrone, HasTrajectory, HasSchedule, Drones, Trajectories, Schedules;
    var routes := set r | r in x.plan.selected.value.routeRoles;
    assert forall role :: role in routes <==> role in x.plan.selected.value.routeRoles;
    if SameRoles(x) {
      assert routes == Drones(x).Keys && Trajectories(x).Keys == Drones(x).Keys && Schedules(x).Keys == Drones(x).Keys;
    }
    if RolesAgree(x) {
      forall role
        ensures (role in routes <==> HasDrone(x, role)) && (HasTrajectory(x, role) <==> HasDrone(x, role))
        ensures HasSchedule(x, role) <==> HasDrone(x, role)
      {
        assert role in Trajectories(x).Keys <==> role in Drones(x).Keys;
        assert role in Schedules(x).Keys <==> role in Drones(x).Keys;
      }
    }
  }

  /** How the roles are put in order: each once. */
  ghost predicate IsRoleOrder(order: set<RoleId> -> seq<RoleId>, roles: set<RoleId>) {
    && (forall r :: r in order(roles) <==> r in roles)
    && (forall i, j :: 0 <= i < j < |order(roles)| ==> order(roles)[i] != order(roles)[j])
  }

  ghost predicate RoleCompilable(x: Inputs, role: RoleId)
    requires role in Schedules(x) && role in Trajectories(x) && role in Drones(x)
  {
    Compilable(role, Schedules(x)[role].actions, Trajectories(x)[role], Drones(x)[role].landing, x.watchdog)
  }

  ghost predicate CompiledFor(x: Inputs, role: RoleId, p: Program)
    requires role in Schedules(x) && role in Trajectories(x) && role in Drones(x)
  {
    IsProgramOf(p, x.missionSource, role, Schedules(x)[role].actions, Trajectories(x)[role], Drones(x)[role].landing, x.watchdog)
  }

  ghost predicate AllCompiled(x: Inputs, roles: seq<RoleId>, programs: seq<Program>)
    requires x.plan.selected.Some? && RolesAgree(x)
  {
    && |programs| == |roles|
    && forall i :: 0 <= i < |roles| ==> roles[i] in Drones(x) && CompiledFor(x, roles[i], programs[i])
  }

  method CompileCampaignExecutionPrograms(x: Inputs, order: set<RoleId> -> seq<RoleId>)
    returns (result: Result<seq<Program>, CompileError>)
    requires 0.0 < x.watchdog && IsRoleOrder(order, Drones(x).Keys)
    ensures result == Failure(PlanNotReady) <==> !x.plan.ready || x.plan.selected.None?
    ensures result.Success? <==>
      && x.plan.ready && x.plan.selected.Some? && BoundTo(x, x.scheduleIdentity) && BoundTo(x, x.trajectoryIdentity)
      && RolesAgree(x) && SameRoles(x)
      && forall role :: role in Drones(x) ==> RoleCompilable(x, role)
    ensures result == Failure(IdentitiesDiffer) <==>
      x.plan.ready && x.plan.selected.Some? && !(BoundTo(x, x.scheduleIdentity) && BoundTo(x, x.trajectoryIdentity))
    ensures result.Success? ==> AllCompiled(x, order(Drones(x).Keys), result.value)
  {
    hide ByRole, Compilable, IsProgramOf, SameRoles, BoundTo;
    if x.plan.selected.Some? {
      BoundIff(x);
      RolesIff(x);
    }
    if !x.plan.ready || x.plan.selected.None? {
      return Failure(PlanNotReady);
    }
    if !IdentitiesAgree(x) {
      return Failure(IdentitiesDiffer);
    }
    if !RolesAgree(x) {
      return Failure(RolesCrossed);
    }
    var roles := order(Drones(x).Keys);
    var programs: seq<Program> := [];
    for k := 0 to |roles|
      invariant forall i :: 0 <= i < k ==> roles[i] in Drones(x) && RoleCompilable(x, roles[i])
      invariant AllCompiled(x, roles[..k], programs)
    {
      var role := roles[k];
      assert role in Drones(x).Keys;
      var compiled := CompileRoleProgram(x.missionSource, role, Schedules(x)[role].actions, Trajectories(x)[role],
                                         Drones(x)[role].landing, x.watchdog);
      if compiled.Failure? {
        assert !RoleCompilable(x, role);
        return Failure(compiled.error);
      }
      programs := programs + [compiled.value];
    }
    assert roles[..|roles|] == roles;
    return Success(programs);
  }

  /** The schedule, trajectory and drone at these places are the last ones of their role. */
  ghost predicate OwnInputs(x: Inputs, role: RoleId, schedule: int, trajectory: int, drone: int) {
    && 0 <= schedule < |x.schedules| && x.schedules[schedule].role == role
    && 0 <= trajectory < |x.trajectories| && x.trajectories[trajectory].role == role
    && 0 <= drone < |x.drones| && x.drones[drone].role == role
    && (forall i :: schedule < i < |x.schedules| ==> x.schedules[i].role != role)
    && (forall i :: trajectory < i < |x.trajectories| ==> x.trajectories[i].role != role)
    && (forall i :: drone < i < |x.drones| ==> x.drones[i].role != role)
  }

  /** Each program is compiled from its own role's schedule, trajectory and landing region. */
  lemma CompiledFromOwn(x: Inputs, order: set<RoleId> -> seq<RoleId>, programs: seq<Program>, k: nat,
                        schedule: int, trajectory: int, drone: int)
    requires x.plan.selected.Some? && RolesAgree(x) && AllCompiled(x, order(Drones(x).Keys), programs) && k < |programs|
    requires OwnInputs(x, order(Drones(x).Keys)[k], schedule, trajectory, drone)
    ensures IsProgramOf(programs[k], x.missionSource, order(Drones(x).Keys)[k], x.schedules[schedule].actions,
                        x.trajectories[trajectory], x.drones[drone].landing, x.watchdog)
  {
    hide ByRole, IsProgramOf;
    var role := order(Drones(x).Keys)[k];
    assert CompiledFor(x, role, programs[k]);
    ByRoleHoldsLast(x.schedules, (s: RoleSchedule) => s.role);
    ByRoleHoldsLast(x.trajectories, (t: RoleTrajectory) => t.role);
    ByRoleHoldsLast(x.drones, (d: Drone) => d.role);
    assert IsLastOf(x.schedules, (s: RoleSchedule) => s.role, role, schedule);
    assert IsLastOf(x.trajectories, (t: RoleTrajectory) => t.role, role, trajectory);
    assert IsLastOf(x.drones, (d: Drone) => d.role, role, drone);
  }

  ghost predicate OnlyProgramOf(programs: seq<Program>, role: RoleId, i: int) {
    && 0 <= i < |programs| && programs[i].role == role
    && forall j :: 0 <= j < |programs| && programs[j].role == role ==> j == i
  }

  /** Each role gets exactly one program. */
  lemma OneProgramPerRole(x: Inputs, order: set<RoleId> -> seq<RoleId>, programs: seq<Program>, role: RoleId)
    requires x.plan.selected.Some? && RolesAgree(x) && IsRoleOrder(order, Drones(x).Keys) && role in Drones(x)
    requires AllCompiled(x, order(Drones(x).Keys), programs)
    ensures exists i :: OnlyProgramOf(programs, role, i)
  {
    var roles := order(Drones(x).Keys);
    assert role in Drones(x).Keys && role in roles;
    var i :| 0 <= i < |roles| && roles[i] == role;
    assert CompiledFor(x, roles[i], programs[i]);
    forall j | 0 <= j < |programs| && programs[j].role == role ensures j == i {
      assert CompiledFor(x, roles[j], programs[j]);
    }
    assert OnlyProgramOf(programs, role, i);
  }
}
