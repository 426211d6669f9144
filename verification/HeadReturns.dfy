/** What is still flown when the head returns. */
module HeadReturns {
  import opened Wrappers
  import opened Roles
  import opened Replanning
  import opened HeadProtocol
  import opened HeadSafety

  ghost predicate HasReturned(s: Head) { s.phase == Ended(Returned) }

  /** A hold fails while a trajectory task runs. */
  ghost predicate HoldFailsInFlight(c: Case, s: Head, a: Action) {
    s.phase.Holding? && a.HoldReturns? && a.role in c.RoleIds() && a.how.Caught? && !NothingFlies(s.tasks)
  }

  /** What a step from a state that has not returned comes to, if it returns. */
  ghost predicate ReturnsAsSaid(c: Case, s: Head, a: Action, n: Head) {
    !HasReturned(s) && HasReturned(n) ==> (!NothingFlies(n.tasks) <==> HoldFailsInFlight(c, s, a))
  }

  lemma EnteringIsNoReturn(c: Case, s: Head, i: nat)
    requires i <= |c.Events()|
    ensures !HasReturned(EnterEvent(c, s, i))
  {
  }

  lemma RegisteringReturns(c: Case, h: Hashes, s: Head, role: RoleId, trajectoryRole: RoleId, trajectory: Sha)
    ensures ReturnsAsSaid(c, s, Register(role, trajectoryRole, trajectory), Registered(c, h, s, role, trajectoryRole, trajectory))
  {
    hide EnterEvent, Opened;
    var trajectories := s.trajectories[role := trajectory];
    if trajectories.Keys == c.RoleIds() { EnteringIsNoReturn(c, Opened(c, h, s.(trajectories := trajectories)), 0); }
  }

  lemma YieldingReturns(c: Case, s: Head)
    requires s.phase.Dispatching? ==> s.records != [] && s.phase.i < |c.Events()|
    ensures ReturnsAsSaid(c, s, LoopYields, Yielded(c, s))
  {
    hide EnterEvent, ActiveFailure, Replaced;
    if s.phase.Dispatching? { EnteringIsNoReturn(c, Replaced(c, s), s.phase.i + 1); }
  }

  lemma DrainingReturns(c: Case, s: Head)
    requires TasksInv(c.RoleIds(), s.tasks, s.active)
    ensures ReturnsAsSaid(c, s, TasksDrained, Drained(c, s))
  {
    hide TasksInv, AllDone, ActiveFailure, NothingFlies;
    if AllDone(c, s) { NoneLeftFlying(c, s); }
  }

  lemma PlanningReturns(c: Case, h: Hashes, s: Head, outcome: PlanOutcome, validation: seq<Await>, latency: real)
    requires s.phase.Planning? ==> s.phase.i < |c.Events()| && NothingFlies(s.tasks)
    ensures ReturnsAsSaid(c, s, PlanReturns(outcome, validation, latency), PlanReturned(c, h, s, outcome, validation, latency))
  {
    hide Decide, CommitCall, Validation, NothingFlies;
  }

  lemma AdvancingReturns(c: Case, s: Head, role: RoleId, how: Await)
    requires s.phase.Advancing? ==> s.records != [] && CoversRoles(c, s.phase.proposal) && NothingFlies(s.tasks)
    ensures ReturnsAsSaid(c, s, AdvanceReturns(role, how), AdvanceReturned(c, s, role, how))
  {
    hide NothingFlies, WithTasks;
  }

  /** The phases in which nothing flies. */
  lemma AtRest(h: Hashes, c: Case, s: Head)
    requires Inv(h, c, s)
    ensures s.phase.Observing? || s.phase.Planning? || s.phase.Advancing? ==> NothingFlies(s.tasks)
    ensures TasksInv(c.RoleIds(), s.tasks, s.active)
  {
  }

  lemma EveryReturn(h: Hashes, c: Case, s: Head, a: Action)
    requires Steppable(c, s) && TasksInv(c.RoleIds(), s.tasks, s.active)
    requires s.phase.Observing? || s.phase.Planning? || s.phase.Advancing? ==> NothingFlies(s.tasks)
    ensures ReturnsAsSaid(c, s, a, Step(c, h, s, a))
  {
    hide Registered, PlanReturned, Yielded, AdvanceReturned, Drained, AllDone, NothingFlies, TasksInv;
    match a
    case Register(role, trajectoryRole, trajectory) => RegisteringReturns(c, h, s, role, trajectoryRole, trajectory);
    case TasksDrained => DrainingReturns(c, s);
    case PlanReturns(outcome, validation, latency) => PlanningReturns(c, h, s, outcome, validation, latency);
    case AdvanceReturns(role, how) => AdvancingReturns(c, s, role, how);
    case LoopYields => YieldingReturns(c, s);
    case _ =>
  }

  /** Exactly which returns leave a trajectory task running: those for a hold that failed while one ran. Every other way
      out, the fallbacks before and after a commit included, returns with nothing in flight. */
  lemma ReturnFliesIff(h: Hashes, c: Case, s: Head, a: Action)
    requires Inv(h, c, s) && Steppable(c, s) && !HasReturned(s) && HasReturned(Step(c, h, s, a))
    ensures !NothingFlies(Step(c, h, s, a).tasks) <==> HoldFailsInFlight(c, s, a)
  {
    hide Inv, Step, HoldFailsInFlight, NothingFlies, HasReturned;
    AtRest(h, c, s);
    EveryReturn(h, c, s, a);
  }

  // ----- every run -----

  /** After the end nothing is started any more. */
  lemma EndedStays(h: Hashes, c: Case, s: Head, a: Action)
    requires Inv(h, c, s) && Steppable(c, s) && s.phase.Ended?
    ensures Step(c, h, s, a).phase == s.phase
    ensures NothingFlies(s.tasks) ==> NothingFlies(Step(c, h, s, a).tasks)
  {
    AllRegistered(h, c, s);
    hide Inv, AllDone, ActiveFailure, EnterEvent, Opened;
  }

  lemma AllRegistered(h: Hashes, c: Case, s: Head)
    requires Inv(h, c, s) && !s.phase.Registering?
    ensures s.trajectories.Keys == c.RoleIds()
  {
  }

  /** In every run, when the head has returned and a trajectory is still flown, a hold of that run failed in flight and the
      head returned on it. */
  lemma {:induction false} ReturnedInFlight(h: Hashes, c: Case, unset: Sha, states: seq<Head>, actions: seq<Action>, k: nat)
    returns (j: nat)
    requires ValidCase(c) && IsRun(h, c, unset, states, actions) && k < |states|
    requires HasReturned(states[k]) && !NothingFlies(states[k].tasks)
    ensures j < k && HoldFailsInFlight(c, states[j], actions[j]) && HasReturned(states[j + 1])
  {
    hide Inv, Step, HoldFailsInFlight, NothingFlies, Steppable;
    assert 0 < k;
    j := k - 1;
    ReachableInv(h, c, unset, states, actions, j);
    assert Follows(h, c, states, actions, j);
    InvSteppable(h, c, states[j]);
    if HasReturned(states[j]) {
      EndedStays(h, c, states[j], actions[j]);
      j := ReturnedInFlight(h, c, unset, states, actions, j);
    } else {
      ReturnFliesIff(h, c, states[j], actions[j]);
    }
  }

  // ----- a run that returns in flight -----

  const OBSTACLE := ScenarioEvent("event", ObstacleAdded, AcceptedUpdate, 1.0, 1.0, "source", 0, true)

  /** A case of two vehicles and one event. */
  function SmallCase(limits: CaseLimits): Case { Case(limits, ["a", "b"], [OBSTACLE]) }

  lemma SmallCaseFacts(limits: CaseLimits)
    requires limits.droneCount == 2 && limits.authority.AutoWithinFrozenLimits?
    ensures var c := SmallCase(limits);
      ValidCase(c) && Enabled(c) && c.Events() == [OBSTACLE] && c.RoleIds() == {"a", "b"} && c.roles == ["a", "b"]
  {
    assert HeadEvents([OBSTACLE][1..]) == [];
  }

  lemma RunningAfterOpening(c: Case, h: Hashes, s: Head, p: Phase)
    requires s.trajectories.Keys == c.RoleIds() && s.tasks == map[] && c.RoleIds() != {}
    ensures var n := Opened(c, h, s).(phase := p); !NothingFlies(n.tasks) && !AllDone(c, n)
  {
    WithTasksRuns(c, s.tasks, 1, s.trajectories);
    var r :| r in c.RoleIds();
    var tasks := WithTasks(c, s.tasks, 1, s.trajectories);
    assert TaskId(1, r) in tasks && tasks[TaskId(1, r)].status == Running;
  }

  /** Up to the trigger of the event: both routes registered, and a sample past the trigger. */
  lemma SmallCaseTriggers(h: Hashes, limits: CaseLimits, unset: Sha, s: Head)
    requires limits.droneCount == 2 && limits.authority.AutoWithinFrozenLimits?
    requires s == InitialHead(unset).(trajectories := map["a" := unset])
    ensures var c := SmallCase(limits);
      && Registered(c, h, InitialHead(unset), "a", "a", unset) == s
      && Registered(c, h, s, "b", "b", unset) == Opened(c, h, s.(trajectories := map["a" := unset, "b" := unset])).(phase := Waiting(0))
      && Sampled(c, Registered(c, h, s, "b", "b", unset), Some(1.0))
         == Opened(c, h, s.(trajectories := map["a" := unset, "b" := unset])).(phase := Holding(0, {}))
  {
    var c := SmallCase(limits);
    SmallCaseFacts(limits);
    var both := s.(trajectories := map["a" := unset, "b" := unset]);
    hide Enabled, ValidCase, HeadEvents, SmallCase, AllDone, Opened, NothingFlies, Case.Events, Case.RoleIds;
    RunningAfterOpening(c, h, both, both.phase);
    RunningAfterOpening(c, h, both, Waiting(0));
    SamePhase(c, h, both);
    assert s.trajectories["b" := unset] == both.trajectories;
  }

  lemma SamePhase(c: Case, h: Hashes, s: Head)
    requires s.trajectories.Keys == c.RoleIds()
    ensures Opened(c, h, s).(phase := s.phase) == Opened(c, h, s)
  {
  }

  /** A run of two vehicles in which the first hold fails: the head returns while both trajectories are still flown. */
  lemma FailedHoldLeavesFlying(h: Hashes, limits: CaseLimits, unset: Sha)
    returns (c: Case, states: seq<Head>, actions: seq<Action>)
    requires limits.droneCount == 2 && limits.authority.AutoWithinFrozenLimits?
    ensures ValidCase(c) && IsRun(h, c, unset, states, actions)
    ensures var last := states[|states| - 1]; last.phase == Ended(Returned) && !NothingFlies(last.tasks)
  {
    c := SmallCase(limits);
    SmallCaseFacts(limits);
    var one := InitialHead(unset).(trajectories := map["a" := unset]);
    SmallCaseTriggers(h, limits, unset, one);
    var both := one.(trajectories := map["a" := unset, "b" := unset]);
    RunningAfterOpening(c, h, both, Holding(0, {}));
    var two := Registered(c, h, one, "b", "b", unset);
    var three := Opened(c, h, both).(phase := Holding(0, {}));
    hide Registered, Sampled, Opened, NothingFlies, SmallCase, HeadEvents, ValidCase, Enabled, Case.Events, Case.RoleIds;
    var four := HoldReturned(c, three, "a", Caught);
    states := [InitialHead(unset), one, two, three, four];
    actions := [Register("a", "a", unset), Register("b", "b", unset), SourceSampled(Some(1.0)), HoldReturns("a", Caught)];
  }
}
