/** What a round achieves when everything goes well, and what is on record when it does not. */
module HeadRound {
  import opened Wrappers
  import opened Roles
  import opened Replanning
  import opened HeadProtocol
  import opened HeadSafety
  import opened HeadHistory
  import opened HeadReturns
  import opened EventHandled

  // ----- smooth actions -----

  ghost predicate AllValid(results: seq<Await>) { forall k :: 0 <= k < |results| ==> results[k] == Done }

  /** A proposal for every role that validates throughout and that the coordinator will take. */
  ghost predicate PlanSucceeds(c: Case, s: Head, a: Action)
    requires s.phase.Planning? && s.phase.i < |c.Events()| && a.PlanReturns?
  {
    && a.outcome.Proposed? && CoversRoles(c, a.outcome.p) && |a.validation| == |c.roles| && AllValid(a.validation)
    && Committable(c, s.coordinator, c.Events()[s.phase.i])
    && NoNegativeTimes(c, s.phase.samples, a.outcome.p, a.acknowledgementLatency)
    && Prompt(c, c.Events()[s.phase.i], s.phase.samples, a.outcome.p, a.acknowledgementLatency)
  }

  /** Nothing goes wrong: what the head is waiting for succeeds while some vehicle still flies, and nobody cancels. */
  ghost predicate Smooth(c: Case, s: Head, a: Action)
    requires Steppable(c, s)
  {
    && !a.OrchestratorCancelled?
    && match s.phase
       case Waiting(_) => a.SourceSampled? ==> a.time.Some? && !AllDone(c, s)
       case Holding(_, _) => a.HoldReturns? ==> a.how.Done?
       case Observing(_, _, _) => a.ObservationReturns? ==> a.how.Done? && a.sample.Usable()
       case Planning(_, _, _) => a.PlanReturns? ==> PlanSucceeds(c, s, a)
       case Advancing(_, _, _, _) => a.AdvanceReturns? ==> a.how.Done?
       case Dispatching(i, _, _) => a.LoopYields? ==> !ActiveFailure(c, s, false) && (i + 1 < |c.Events()| ==> !AllDone(c, s))
       case _ => true
  }

  // ----- what one smooth step does -----

  /** From the trigger of event i to the start of the next: what each smooth step makes of the phase. */
  ghost predicate SmoothlyMoved(c: Case, s: Head, a: Action, n: Head)
    requires Steppable(c, s)
  {
    var all := c.RoleIds();
    match s.phase
    case Registering => n.phase == s.phase || n.phase == Waiting(0)
    case Waiting(i) =>
      n.phase == if a.SourceSampled? && a.time.Some? && c.Events()[i].trigger <= a.time.value then Holding(i, {}) else s.phase
    case Holding(i, held) =>
      if !a.HoldReturns? || a.role !in all then n.phase == s.phase
      else n.phase == if held + {a.role} == all then Draining(i, all) else Holding(i, held + {a.role})
    case Draining(i, held) =>
      n.phase == if a.TasksDrained? && AllDone(c, s) then Observing(i, held, map[]) else s.phase
    case Observing(i, held, samples) =>
      if !a.ObservationReturns? || a.role !in all then n.phase == s.phase
      else
        var more := samples[a.role := a.sample];
        n.phase == if more.Keys == all then Planning(i, held, more) else Observing(i, held, more)
    case Planning(i, _, _) =>
      if !a.PlanReturns? then n.phase == s.phase
      else a.outcome.Proposed? && n.phase.Advancing? && n.phase.i == i && n.phase.proposal == a.outcome.p && n.phase.arrived == {}
    case Advancing(i, p, next, arrived) =>
      if !a.AdvanceReturns? || a.role !in all then n.phase == s.phase
      else n.phase == if arrived + {a.role} == all then Dispatching(i, p, next) else Advancing(i, p, next, arrived + {a.role})
    case Dispatching(i, _, _) =>
      n.phase == if !a.LoopYields? then s.phase else if i + 1 == |c.Events()| then Finishing else Waiting(i + 1)
    case Finishing => n.phase == s.phase || n.phase.Ended?
    case _ => n.phase == s.phase
  }

  lemma CommittedPhase(c: Case, h: Hashes, s: Head, p: Proposal, validated: set<RoleId>, latency: real)
    requires s.phase.Planning? && s.phase.i < |c.Events()| && CoversRoles(c, p)
    ensures var n := Committed(c, h, s, p, validated, latency);
      n.phase.Advancing? ==> n.phase.i == s.phase.i && n.phase.proposal == p && n.phase.arrived == {}
  {
    hide Decide, CommitCall, CommittedRecord, CoversRoles, Case.Events, Case.RoleIds, UsableRoles, Flying;
  }

  /** A proposal that succeeds is committed. */
  lemma PlanningMoves(h: Hashes, c: Case, s: Head, outcome: PlanOutcome, validation: seq<Await>, latency: real)
    requires ValidCase(c) && Enabled(c) && s.phase.Planning? && s.phase.i < |c.Events()|
    requires PlanSucceeds(c, s, PlanReturns(outcome, validation, latency))
    ensures var n := PlanReturned(c, h, s, outcome, validation, latency);
      && n == Committed(c, h, s, outcome.p, ValidatedRoles(c, validation), latency)
      && n.phase.Advancing? && n.phase.i == s.phase.i && n.phase.proposal == outcome.p && n.phase.arrived == {}
  {
    EventTimes(c, s.phase.i);
    NoneInvalid(validation);
    assert c.roles != [];
    hide Committed, Committable, NoNegativeTimes, Prompt, CoversRoles, Case.Events, ValidCase, Enabled, ValidatedRoles;
    CommitAcceptedIff(h, c, s, outcome.p, ValidatedRoles(c, validation), latency);
    CommittedPhase(c, h, s, outcome.p, ValidatedRoles(c, validation), latency);
  }

  lemma EventTimes(c: Case, i: nat)
    requires ValidCase(c) && i < |c.Events()|
    ensures 0.0 < c.Events()[i].trigger && 0.0 < c.Events()[i].duration
  {
    assert c.Events()[i] in c.Events();
  }

  lemma {:induction false} NoneInvalid(results: seq<Await>)
    requires AllValid(results)
    ensures Validation(results) == Done
  {
    if results != [] { NoneInvalid(results[1..]); }
  }

  /** An orderly state: every sample so far is usable, and the head recovers from nothing and ends only when every event has
      been answered. */
  ghost predicate OnCourse(c: Case, s: Head) {
    && (s.phase.Observing? ==> AllUsable(s.phase.samples))
    && !s.phase.Recovering?
    && (s.phase.Finishing? || s.phase.Ended? ==> s.epoch == |c.Events()| + 1)
  }

  lemma UsableGrows(samples: map<RoleId, Sample>, r: RoleId, sample: Sample)
    requires AllUsable(samples) && sample.Usable()
    ensures AllUsable(samples[r := sample])
  {
  }

  lemma ObservingMoves(h: Hashes, c: Case, s: Head, a: Action)
    requires Inv(h, c, s) && Steppable(c, s) && s.phase.Observing? && OnCourse(c, s) && Smooth(c, s, a)
    ensures SmoothlyMoved(c, s, a, Step(c, h, s, a)) && OnCourse(c, Step(c, h, s, a))
  {
    EnrolledAlready(h, c, s, a);
    hide Inv, Case.RoleIds, Case.Events, AllUsable, Sample.Usable, AllDone, ActiveFailure, EnterEvent, Opened, WithTasks,
      ObservationReturned;
    if a.ObservationReturns? { SampleTaken(c, s, a.role, a.sample); }
  }

  lemma SampleTaken(c: Case, s: Head, role: RoleId, sample: Sample)
    requires s.phase.Observing? && s.phase.i < |c.Events()| && AllUsable(s.phase.samples) && sample.Usable()
    ensures var n := ObservationReturned(c, s, role, Done, sample);
      && (role !in c.RoleIds() ==> n == s)
      && (role in c.RoleIds() ==>
          var more := s.phase.samples[role := sample];
          AllUsable(more) && n.phase == if more.Keys == c.RoleIds() then Planning(s.phase.i, s.phase.held, more)
                                        else Observing(s.phase.i, s.phase.held, more))
  {
    hide Case.RoleIds, Case.Events, AllUsable, Sample.Usable;
    UsableGrows(s.phase.samples, role, sample);
  }

  /** Registration is over once the head has left it. */
  lemma EnrolledAlready(h: Hashes, c: Case, s: Head, a: Action)
    requires Inv(h, c, s) && Steppable(c, s) && !s.phase.Registering?
    ensures a.Register? ==> Step(c, h, s, a) == s
  {
    hide AllDone, EnterEvent, Opened;
  }

  /** In this epoch every role flies the proposal. */
  ghost predicate EachRuns(c: Case, tasks: map<TaskId, Task>, epoch: nat, p: Proposal)
    requires CoversRoles(c, p)
  {
    forall r {:trigger TaskId(epoch, r)} :: r in c.RoleIds() ==>
      TaskId(epoch, r) in tasks && tasks[TaskId(epoch, r)] == Task(p.trajectories[r], Running)
  }

  /** The tasks of a new epoch fly until they end. */
  lemma LaunchedFly(c: Case, s: Head)
    requires ValidCase(c) && Enabled(c) && s.phase.Advancing? && CoversRoles(c, s.phase.proposal)
    requires TasksInv(c.RoleIds(), s.tasks, s.active) && s.active == s.epoch
    ensures !AllDone(c, Launched(c, s)) && !ActiveFailure(c, Launched(c, s), false)
    ensures EachRuns(c, Launched(c, s).tasks, s.epoch + 1, s.phase.proposal)
  {
    WithTasksRuns(c, s.tasks, s.epoch + 1, s.phase.proposal.trajectories);
    assert c.roles[0] in c.RoleIds();
    hide ValidCase, Enabled, TasksInv, WithTasks, CoversRoles;
    AllFly(c, Launched(c, s), s.epoch + 1, s.phase.proposal);
  }

  lemma AllFly(c: Case, n: Head, epoch: nat, p: Proposal)
    requires CoversRoles(c, p) && n.active == epoch && EachRuns(c, n.tasks, epoch, p) && c.RoleIds() != {}
    ensures !AllDone(c, n) && !ActiveFailure(c, n, false)
  {
    var r :| r in c.RoleIds();
    hide CoversRoles, Case.RoleIds;
    assert TaskId(epoch, r) in n.tasks;
  }

  lemma OpeningMoves(h: Hashes, c: Case, s: Head, role: RoleId, trajectoryRole: RoleId, trajectory: Sha)
    requires ValidCase(c) && Enabled(c) && s.phase.Registering? && s.tasks == map[]
    ensures var n := Registered(c, h, s, role, trajectoryRole, trajectory); n.phase == s.phase || n.phase == Waiting(0)
  {
    hide ValidCase, EnterEvent, AllDone, Opened, Case.RoleIds;
    var trajectories := s.trajectories[role := trajectory];
    if trajectories.Keys == c.RoleIds() && role in c.RoleIds() {
      var ready := s.(trajectories := trajectories);
      EnteringFlown(c, h, ready);
    }
  }

  lemma EnteringFlown(c: Case, h: Hashes, s: Head)
    requires s.trajectories.Keys == c.RoleIds() && s.tasks == map[] && c.RoleIds() != {} && c.Events() != []
    ensures EnterEvent(c, Opened(c, h, s), 0).phase == Waiting(0)
  {
    RunningAfterOpening(c, h, s, s.phase);
    SamePhase(c, h, s);
    hide Opened, AllDone;
  }

  lemma WaitingMoves(c: Case, s: Head, time: Option<real>)
    requires s.phase.Waiting? && s.phase.i < |c.Events()| && time.Some? && !AllDone(c, s)
    ensures Sampled(c, s, time).phase ==
      if c.Events()[s.phase.i].trigger <= time.value then Holding(s.phase.i, {}) else s.phase
  {
    hide AllDone, Case.Events;
  }

  lemma YieldingMoves(c: Case, s: Head)
    requires s.phase.Dispatching? && s.records != [] && s.phase.i < |c.Events()|
    requires !ActiveFailure(c, s, false) && (s.phase.i + 1 < |c.Events()| ==> !AllDone(c, s))
    ensures Yielded(c, s) == Replaced(c, s).(phase := if s.phase.i + 1 == |c.Events()| then Finishing else Waiting(s.phase.i + 1))
  {
    hide ActiveFailure, Case.Events;
    assert AllDone(c, Replaced(c, s)) <==> AllDone(c, s);
    hide AllDone;
  }

  /** What the phases say of the round they belong to. */
  lemma RoundFacts(h: Hashes, c: Case, s: Head)
    requires Inv(h, c, s)
    ensures s.phase.Registering? ==> s.tasks == map[]
    ensures s.phase.Dispatching? ==> s.epoch == s.phase.i + 1
  {
  }

  /** Holding, draining and arriving, and the actions that are not for the phase. */
  lemma OtherMoves(h: Hashes, c: Case, s: Head, a: Action)
    requires Steppable(c, s) && !s.phase.Observing? && !s.phase.Recovering? && Smooth(c, s, a)
    requires !(a.PlanReturns? && s.phase.Planning?) && !(a.SourceSampled? && s.phase.Waiting?)
    requires !(a.LoopYields? && s.phase.Dispatching?)
    requires a.Register? ==> Step(c, h, s, a) == s
    ensures SmoothlyMoved(c, s, a, Step(c, h, s, a))
  {
    hide AllDone, ActiveFailure, PlanSucceeds, AllUsable, Case.Events, Case.RoleIds, EnterEvent, WithTasks, Opened, CoversRoles;
  }

  /** The actions that are for the phase and need more than their case. */
  lemma PhaseMoves(h: Hashes, c: Case, s: Head, a: Action)
    requires ValidCase(c) && Enabled(c) && Steppable(c, s) && Smooth(c, s, a) && (s.phase.Registering? ==> s.tasks == map[])
    requires (a.Register? && s.phase.Registering?) || (a.PlanReturns? && s.phase.Planning?)
          || (a.SourceSampled? && s.phase.Waiting?) || (a.LoopYields? && s.phase.Dispatching?)
    ensures SmoothlyMoved(c, s, a, Step(c, h, s, a))
  {
    hide ValidCase, Enabled, AllDone, ActiveFailure, Case.Events, Case.RoleIds, Replaced, Registered, PlanReturned, Yielded, Sampled,
      CoversRoles, Committable, NoNegativeTimes, Prompt, AllValid;
    match a
    case Register(role, trajectoryRole, trajectory) => OpeningMoves(h, c, s, role, trajectoryRole, trajectory);
    case PlanReturns(outcome, validation, latency) => PlanningMoves(h, c, s, outcome, validation, latency);
    case SourceSampled(time) => WaitingMoves(c, s, time);
    case LoopYields => YieldingMoves(c, s);
  }

  /** Every smooth step moves the round on as described. */
  lemma SmoothMoves(h: Hashes, c: Case, s: Head, a: Action)
    requires ValidCase(c) && Enabled(c) && Inv(h, c, s) && Steppable(c, s) && OnCourse(c, s) && Smooth(c, s, a)
    ensures SmoothlyMoved(c, s, a, Step(c, h, s, a))
  {
    RoundFacts(h, c, s);
    if !s.phase.Registering? { EnrolledAlready(h, c, s, a); }
    hide Inv, ValidCase, Enabled, Smooth, SmoothlyMoved, Step, Steppable;
    if s.phase.Observing? {
      ObservingMoves(h, c, s, a);
    } else if (a.Register? && s.phase.Registering?) || (a.PlanReturns? && s.phase.Planning?)
      || (a.SourceSampled? && s.phase.Waiting?) || (a.LoopYields? && s.phase.Dispatching?) {
      PhaseMoves(h, c, s, a);
    } else {
      OtherMoves(h, c, s, a);
    }
  }

  /** Past the last round only the tasks still change. */
  lemma LastEpochStays(h: Hashes, c: Case, s: Head, a: Action)
    requires Steppable(c, s) && (s.phase.Finishing? || s.phase.Ended?)
    requires a.Register? ==> Step(c, h, s, a) == s
    ensures Step(c, h, s, a).epoch == s.epoch
  {
    hide AllDone, ActiveFailure, EnterEvent, Opened;
  }

  lemma SmoothKeepsCourse(h: Hashes, c: Case, s: Head, a: Action)
    requires ValidCase(c) && Enabled(c) && Inv(h, c, s) && Steppable(c, s) && OnCourse(c, s) && Smooth(c, s, a)
    ensures OnCourse(c, Step(c, h, s, a))
  {
    SmoothMoves(h, c, s, a);
    RoundFacts(h, c, s);
    if !s.phase.Registering? { EnrolledAlready(h, c, s, a); }
    if s.phase.Observing? {
      ObservingMoves(h, c, s, a);
    } else {
      if s.phase.Dispatching? && a.LoopYields? { YieldedEpoch(c, s); }
      if s.phase.Finishing? || s.phase.Ended? { LastEpochStays(h, c, s, a); }
      CourseKept(c, s, a, Step(c, h, s, a));
    }
  }

  lemma YieldedEpoch(c: Case, s: Head)
    requires s.phase.Dispatching? && s.records != [] && s.phase.i < |c.Events()| && !ActiveFailure(c, s, false)
    ensures Yielded(c, s).epoch == s.epoch + 1
  {
    hide AllDone;
  }

  lemma CourseKept(c: Case, s: Head, a: Action, n: Head)
    requires Steppable(c, s) && OnCourse(c, s) && !s.phase.Observing? && SmoothlyMoved(c, s, a, n)
    requires s.phase.Dispatching? ==> s.epoch == s.phase.i + 1 && (a.LoopYields? ==> n.epoch == s.epoch + 1)
    requires s.phase.Finishing? || s.phase.Ended? ==> n.epoch == s.epoch
    ensures OnCourse(c, n)
  {
    hide AllDone, Case.Events, Case.RoleIds, CoversRoles;
  }

  // ----- a round is left only by answering its event -----

  /** Event i is answered: it is on record as delivered, the epoch after it is in force and under way, and the head goes on to
      the next event. */
  ghost predicate Answered(c: Case, n: Head, i: nat, p: Proposal) {
    && i < |c.Events()| && CoversRoles(c, p) && |n.records| == |n.commits| == i + 1
    && n.records[i].eventId == c.Events()[i].id && Delivered(c, n.records[i])
    && n.epoch == n.active == i + 2 && n.current == p.trajectories
    && (forall r {:trigger TaskId(i + 2, r)} :: r in c.RoleIds() ==>
        TaskId(i + 2, r) in n.tasks && n.tasks[TaskId(i + 2, r)].trajectory == p.trajectories[r])
    && n.commits[i].epoch.Some? && n.reservation == n.commits[i].epoch.value.reservation
    && n.phase == if i + 1 == |c.Events()| then Finishing else Waiting(i + 1)
  }

  /** While nothing goes wrong, an event's round goes on until every role has got to the cutover and flies the proposal, and
      then the event has been answered. */
  lemma LeftByAnswering(h: Hashes, c: Case, s: Head, a: Action, i: nat)
    requires ValidCase(c) && Enabled(c) && Inv(h, c, s) && Steppable(c, s) && OnCourse(c, s) && Smooth(c, s, a)
    requires InRound(s.phase, i) && !InRound(Step(c, h, s, a).phase, i)
    ensures s.phase.Dispatching? && a.LoopYields?
    ensures Answered(c, Step(c, h, s, a), i, s.phase.proposal)
  {
    SmoothMoves(h, c, s, a);
    LeftFromDispatching(c, s, a, Step(c, h, s, a), i);
    hide Inv, ValidCase, Enabled, OnCourse, AllDone, ActiveFailure, CoversRoles, SmoothlyMoved, Answered, Replaced, Yielded,
      Case.Events;
    YieldingMoves(c, s);
    YieldAnswers(h, c, s);
  }

  lemma LeftFromDispatching(c: Case, s: Head, a: Action, n: Head, i: nat)
    requires Steppable(c, s) && SmoothlyMoved(c, s, a, n) && InRound(s.phase, i) && !InRound(n.phase, i)
    ensures s.phase.Dispatching? && a.LoopYields?
  {
    hide AllDone, CoversRoles, Case.Events, Case.RoleIds;
  }

  lemma YieldAnswers(h: Hashes, c: Case, s: Head)
    requires Inv(h, c, s) && s.phase.Dispatching? && s.records != [] && s.phase.i < |c.Events()|
    requires Yielded(c, s) == Replaced(c, s).(phase := if s.phase.i + 1 == |c.Events()| then Finishing else Waiting(s.phase.i + 1))
    ensures Answered(c, Yielded(c, s), s.phase.i, s.phase.proposal)
  {
    DispatchingFacts(h, c, s);
    assert CommittedRound(c, s.epoch, s.records, s.commits, s.phase.i, s.phase.proposal, s.phase.next);
    hide *;
    var n := Replaced(c, s);
    ReplacedKeepsBooks(h, c, s);
    ReplacedSays(c, s, n);
    BooksSay(h, c, n, s.phase.i);
    NextEntered(c, n, s.phase.i, s.phase.proposal);
  }

  lemma NextEntered(c: Case, n: Head, i: nat, p: Proposal)
    requires i < |c.Events()| && CoversRoles(c, p) && |n.records| == |n.commits| == i + 1
    requires n.records[i].eventId == c.Events()[i].id && Delivered(c, n.records[i])
    requires n.epoch == n.active == i + 2 && n.current == p.trajectories
    requires forall r {:trigger TaskId(i + 2, r)} :: r in c.RoleIds() ==>
      TaskId(i + 2, r) in n.tasks && n.tasks[TaskId(i + 2, r)].trajectory == p.trajectories[r]
    requires n.commits[i].epoch.Some? && n.reservation == n.commits[i].epoch.value.reservation
    ensures Answered(c, n.(phase := if i + 1 == |c.Events()| then Finishing else Waiting(i + 1)), i, p)
  {
    hide Delivered, Case.Events, Case.RoleIds;
  }

  lemma ReplacedSays(c: Case, s: Head, n: Head)
    requires s.phase.Dispatching? && s.records != [] && n == Replaced(c, s)
    ensures n.epoch == s.epoch + 1 && n.active == s.active && n.current == s.phase.proposal.trajectories
    ensures |n.records| == |s.records| && n.commits == s.commits && n.tasks == s.tasks
  {
  }

  lemma DispatchingFacts(h: Hashes, c: Case, s: Head)
    requires Inv(h, c, s) && s.phase.Dispatching?
    ensures var i, p := s.phase.i, s.phase.proposal;
      && CommittedRound(c, s.epoch, s.records, s.commits, i, p, s.phase.next)
      && Books(h, c, s.trajectories, s.epoch, s.records, s.commits, s.reservation)
      && i < |c.Events()| && CoversRoles(c, p) && s.epoch == i + 1 && s.active == i + 2 && |s.records| == |s.commits| == i + 1
      && (forall r {:trigger TaskId(i + 2, r)} :: r in c.RoleIds() ==>
          TaskId(i + 2, r) in s.tasks && s.tasks[TaskId(i + 2, r)].trajectory == p.trajectories[r])
  {
    hide Books, Prepared;
  }

  lemma BooksSay(h: Hashes, c: Case, n: Head, i: nat)
    requires Books(h, c, n.trajectories, n.epoch, n.records, n.commits, n.reservation) && n.epoch == i + 2
    requires |n.records| == |n.commits| == i + 1 <= |c.Events()|
    ensures n.records[i].eventId == c.Events()[i].id && Delivered(c, n.records[i])
    ensures n.commits[i].epoch.Some? && n.reservation == n.commits[i].epoch.value.reservation
  {
    hide Delivered, CommitsChain;
  }

  // ----- every smooth run -----

  ghost predicate SmoothAt(c: Case, states: seq<Head>, actions: seq<Action>, j: nat)
    requires j < |actions| < |states|
  {
    Steppable(c, states[j]) && Smooth(c, states[j], actions[j])
  }

  lemma {:induction false} SmoothRunOnCourse(h: Hashes, c: Case, unset: Sha, states: seq<Head>, actions: seq<Action>, k: nat)
    requires ValidCase(c) && Enabled(c) && IsRun(h, c, unset, states, actions) && k < |states|
    requires forall j: nat :: j < k ==> SmoothAt(c, states, actions, j)
    ensures OnCourse(c, states[k])
  {
    if 0 < k {
      hide Step, OnCourse, Inv, Smooth, Steppable, InitialHead, ValidCase, Enabled;
      SmoothRunOnCourse(h, c, unset, states, actions, k - 1);
      ReachableInv(h, c, unset, states, actions, k - 1);
      assert Follows(h, c, states, actions, k - 1) && SmoothAt(c, states, actions, k - 1);
      SmoothKeepsCourse(h, c, states[k - 1], actions[k - 1]);
    }
  }

  lemma OverMeansAll(h: Hashes, c: Case, s: Head)
    requires Inv(h, c, s) && OnCourse(c, s) && (s.phase.Finishing? || s.phase.Ended?)
    ensures s.epoch == |c.Events()| + 1 <= s.active && TasksInv(c.RoleIds(), s.tasks, s.active)
  {
  }

  /** In a run in which nothing goes wrong the head comes to its end only when every accepted event has been answered, and the
      analyzer then finds the oracle to hold. */
  lemma SmoothRunHandlesAll(h: Hashes, c: Case, unset: Sha, states: seq<Head>, actions: seq<Action>, k: nat)
    requires ValidCase(c) && Enabled(c) && IsRun(h, c, unset, states, actions) && k < |states|
    requires forall j: nat :: j < k ==> SmoothAt(c, states, actions, j)
    requires states[k].phase.Finishing? || states[k].phase.Ended?
    ensures RuntimeHandled(c, states[k].records)
  {
    ReachableInv(h, c, unset, states, actions, k);
    SmoothRunOnCourse(h, c, unset, states, actions, k);
    OverMeansAll(h, c, states[k]);
    HeadAndAnalyzerAgree(h, c, unset, states, actions, k);
    hide Inv, RuntimeHandled, Case.Events, ValidCase, Enabled, IsRun, SmoothAt, TasksInv, DispatchedToAll;
    forall i: nat | i < |c.Events()| ensures DispatchedToAll(c, states[k], i) {
      AdoptedIsDispatched(c, states[k], i);
    }
  }

  // ----- what is on record when a round ends otherwise -----

  /** Why the head gives up, as it puts it on record: before the commit by falling back, with the proposal if there was one
      or with the refusal, after it by saying so on the record of the commit. */
  ghost predicate GivesUpAs(s: Head, a: Action, r: Record) {
    match s.phase
    case Waiting(_) => r.disposition.NotInFlight? && r.proposalSha.None?
    case Holding(_, _) => r.disposition.SafeFallbackTaken? && r.proposalSha.None?
    case Observing(_, _, _) => r.disposition.SafeFallbackTaken? && r.proposalSha.None?
    case Planning(_, _, _) =>
      && a.PlanReturns?
      && r.proposalSha == (if a.outcome.Proposed? then Some(a.outcome.p.sha) else None)
      && (r.disposition.SafeFallbackTaken?
          || (r.disposition.Decided? && !r.disposition.decision.Accepted? && r.execution == Some(NotDispatched)))
    case Advancing(_, _, _, _) => r.disposition == Decided(Accepted) && r.execution == Some(PostCommitSafeFallback)
    case Dispatching(_, _, _) => r.disposition == Decided(Accepted) && r.execution == Some(PostCommitSafeFallback)
    case _ => false
  }

  /** The record of event i is the last one, says why the head gives up, and claims no dispatch. */
  ghost predicate GivenUp(c: Case, s: Head, a: Action, n: Head, i: nat) {
    && i < |c.Events()| && |n.records| == n.epoch == i + 1
    && n.records[i].eventId == c.Events()[i].id && n.records[i].execution != Some(Dispatched)
    && GivesUpAs(s, a, n.records[i])
  }

  /** Event i has been dispatched; the head goes on to the next one, or it was the last, or the next is missed. */
  ghost predicate GoesOn(c: Case, s: Head, n: Head, i: nat) {
    && s.phase.Dispatching? && n.epoch == i + 2
    && (|| (n.phase == Waiting(i + 1) && |n.records| == i + 1)
        || (n.phase == Finishing && |n.records| == i + 1 == |c.Events()|)
        || (n.phase == Finishing && i + 1 < |c.Events()| && |n.records| == i + 2
            && n.records[i + 1] == ShortRecord(c.Events()[i + 1].id, NotInFlight, None)))
  }

  ghost predicate Leaves(c: Case, s: Head, a: Action, n: Head, i: nat) {
    n.phase == Ended(Raised) || InRound(n.phase, i) || GivenUp(c, s, a, n, i) || GoesOn(c, s, n, i)
  }

  /** What the invariant says of the books during round i. */
  ghost predicate RoundBooks(c: Case, s: Head, i: nat) {
    && InRound(s.phase, i) && i < |c.Events()| && s.epoch == i + 1
    && (if s.phase.Advancing? || s.phase.Dispatching? then
          |s.records| == i + 1 && CoversRoles(c, s.phase.proposal)
          && s.records[i].eventId == c.Events()[i].id && s.records[i].disposition == Decided(Accepted)
        else |s.records| == i)
  }

  lemma RoundIsOnBooks(h: Hashes, c: Case, s: Head, i: nat)
    requires Inv(h, c, s) && InRound(s.phase, i)
    ensures RoundBooks(c, s, i)
  {
    hide CommitsInv, TasksInv, FliesCurrent, NothingFlies, UsableRoles;
  }

  /** Why a commit of the head is refused, by the first thing that is wrong with it. */
  ghost predicate RefusedAs(c: Case, s: Head, e: ScenarioEvent, p: Proposal, latency: real, d: Disposition)
    requires s.phase.Planning?
  {
    if e.id in s.coordinator.decisions then d.DuplicateIdempotent?
    else if !(0 < e.sequence && (e.sourceId in s.coordinator.latest ==> s.coordinator.latest[e.sourceId] < e.sequence)) then
      d.RejectedStale?
    else if !e.authenticated || !c.limits.authority.AutoWithinFrozenLimits? then d.RejectedAuthority?
    else d.BlockedReactionHorizon? && !Prompt(c, e, s.phase.samples, p, latency)
  }

  /** What is put on record for a commit that is not accepted: a fallback where a time is negative, and otherwise the
      coordinator's reason. */
  lemma RefusalOnRecord(h: Hashes, c: Case, s: Head, p: Proposal, validated: set<RoleId>, latency: real)
    requires ValidCase(c) && c.roles != [] && s.phase.Planning? && s.phase.i < |c.Events()| && CoversRoles(c, p)
    requires !Committed(c, h, s, p, validated, latency).phase.Advancing?
    ensures var e, n := c.Events()[s.phase.i], Committed(c, h, s, p, validated, latency);
      var failed := e.id !in s.coordinator.decisions && !NoNegativeTimes(c, s.phase.samples, p, latency);
      && |n.records| == |s.records| + 1 && n.phase == Ended(Returned)
      && (failed ==> n.records[|s.records|] == ShortRecord(e.id, SafeFallbackTaken, Some(p.sha)))
      && (!failed ==> n.records[|s.records|].disposition.Decided?
                      && RefusedAs(c, s, e, p, latency, n.records[|s.records|].disposition.decision))
  {
    var e := c.Events()[s.phase.i];
    var call := CommitCall(c, s, e, s.phase.samples, p, latency);
    EventTimes(c, s.phase.i);
    CallTimes(c, s, e, p, latency);
    CallIsWhole(c, s, e, p, latency);
    PromptCall(c, s, e, p, latency);
    AnswerToCall(c.limits, h.reservation, s.coordinator, call);
    AllOrNothing(c.limits, h.reservation, s.coordinator, call);
    hide Decide, CoversAffected, SoundRoles, AllAcknowledged, InTime, Prompt, LatestCapture, CoversRoles, Case.Events, Case.RoleIds,
      UsableRoles, Flying, ValidCase, AtomicCommit, HorizonOf, NoNegativeTimes, ValidTiming;
  }

  lemma CallTimes(c: Case, s: Head, e: ScenarioEvent, p: Proposal, latency: real)
    requires s.phase.Planning? && CoversRoles(c, p) && 0.0 < e.trigger && 0.0 < e.duration
    ensures ValidTiming(CommitCall(c, s, e, s.phase.samples, p, latency).timing) <==> NoNegativeTimes(c, s.phase.samples, p, latency)
  {
    hide LatestCapture, CoversRoles;
  }

  /** The coordinator's answer to a whole call with automatic authority or none. */
  lemma AnswerToCall(limits: CaseLimits, hash: ReservationHash, s: CoordinatorState, call: Call)
    requires CoversAffected(call) && SoundRoles(limits, call) && AllAcknowledged(call) && !call.operatorApproved
    ensures var r := Decide(limits, hash, s, call).1; var e := call.event;
      if e.id in s.decisions then r.Success? && r.value.disposition.DuplicateIdempotent?
      else if !ValidTiming(call.timing) then r.Failure?
      else if !(0 < e.sequence && (e.sourceId in s.latest ==> s.latest[e.sourceId] < e.sequence)) then
        r.Success? && r.value.disposition.RejectedStale?
      else if !e.authenticated || !limits.authority.AutoWithinFrozenLimits? then r.Success? && r.value.disposition.RejectedAuthority?
      else if !InTime(limits, call) then r.Success? && r.value.disposition.BlockedReactionHorizon?
      else r.Success? && r.value.disposition.Accepted?
  {
    hide CoversAffected, SoundRoles, AllAcknowledged, InTime, HorizonOf, Decide, SafeWayOut;
    if call.event.id in s.decisions {
      DuplicateAnswered(limits, hash, s, call);
    } else if !ValidTiming(call.timing) {
      BadTimingRefused(limits, hash, s, call);
    } else if IsFresh(s, call) {
      FreshAnswered(limits, hash, s, call);
    } else {
      StaleAnswered(limits, hash, s, call);
    }
  }

  lemma RefusalRecorded(c: Case, h: Hashes, s: Head, p: Proposal, validated: set<RoleId>, latency: real, i: nat)
    requires RoundBooks(c, s, i) && s.phase.Planning? && CoversRoles(c, p)
    ensures var n := Committed(c, h, s, p, validated, latency);
      InRound(n.phase, i) || (|n.records| == i + 1 && n.epoch == i + 1 && n.records[i].eventId == c.Events()[i].id
        && n.records[i].execution != Some(Dispatched) && n.records[i].proposalSha == Some(p.sha)
        && (n.records[i].disposition.SafeFallbackTaken?
            || (n.records[i].disposition.Decided? && !n.records[i].disposition.decision.Accepted?
                && n.records[i].execution == Some(NotDispatched))))
  {
    var call := CommitCall(c, s, c.Events()[i], s.phase.samples, p, latency);
    DecisionNamesEvent(c.limits, h.reservation, s.coordinator, call);
    AllOrNothing(c.limits, h.reservation, s.coordinator, call);
    hide Decide, CommitCall, CoversRoles, Case.Events, Case.RoleIds, UsableRoles, Flying;
  }

  lemma PlanLeaves(c: Case, h: Hashes, s: Head, a: Action, i: nat)
    requires RoundBooks(c, s, i) && s.phase.Planning? && a.PlanReturns?
    ensures Leaves(c, s, a, PlanReturned(c, h, s, a.outcome, a.validation, a.acknowledgementLatency), i)
  {
    hide Committed, Validation, CoversRoles, Case.Events, ValidatedRoles;
    if a.outcome.Proposed? && CoversRoles(c, a.outcome.p) && |a.validation| == |c.roles| {
      RefusalRecorded(c, h, s, a.outcome.p, ValidatedRoles(c, a.validation), a.acknowledgementLatency, i);
    }
  }

  lemma YieldLeaves(c: Case, s: Head, i: nat)
    requires RoundBooks(c, s, i) && s.phase.Dispatching?
    ensures Leaves(c, s, LoopYields, Yielded(c, s), i)
  {
    hide ActiveFailure, AllDone, CoversRoles, Case.Events;
  }

  lemma AdvanceLeaves(c: Case, s: Head, role: RoleId, how: Await, i: nat)
    requires RoundBooks(c, s, i) && s.phase.Advancing?
    ensures Leaves(c, s, AdvanceReturns(role, how), AdvanceReturned(c, s, role, how), i)
  {
    hide WithTasks, CoversRoles, Case.Events, Case.RoleIds;
  }

  lemma CollectingLeaves(c: Case, h: Hashes, s: Head, a: Action, i: nat)
    requires RoundBooks(c, s, i) && Steppable(c, s)
    requires !(s.phase.Planning? && a.PlanReturns?) && !(s.phase.Dispatching? && a.LoopYields?)
    requires !(s.phase.Advancing? && a.AdvanceReturns?)
    requires a.Register? ==> Step(c, h, s, a) == s
    ensures Leaves(c, s, a, Step(c, h, s, a), i)
  {
    hide AllDone, ActiveFailure, AllUsable, CoversRoles, Case.Events, Case.RoleIds, EnterEvent, WithTasks, Opened;
  }

  /** However the round of event i ends, it is on record: either the event has been dispatched and the head goes on, or the
      last record names event i, claims no dispatch and says why, unless the head is cancelled or an error escapes it. */
  lemma RoundLeaves(h: Hashes, c: Case, s: Head, a: Action, i: nat)
    requires Inv(h, c, s) && Steppable(c, s) && InRound(s.phase, i)
    ensures Leaves(c, s, a, Step(c, h, s, a), i)
  {
    RoundIsOnBooks(h, c, s, i);
    EnrolledAlready(h, c, s, a);
    hide Inv, Leaves, RoundBooks;
    if s.phase.Planning? && a.PlanReturns? {
      PlanLeaves(c, h, s, a, i);
    } else if s.phase.Dispatching? && a.LoopYields? {
      YieldLeaves(c, s, i);
    } else if s.phase.Advancing? && a.AdvanceReturns? {
      AdvanceLeaves(c, s, a.role, a.how, i);
    } else {
      CollectingLeaves(c, h, s, a, i);
    }
  }

  // ----- every return -----

  /** Every accepted event has been answered, or the last record is about the event in hand and claims no dispatch. */
  ghost predicate Accounted(c: Case, s: Head) {
    || s.epoch == |c.Events()| + 1
    || (1 <= s.epoch <= |c.Events()| && |s.records| == s.epoch
        && s.records[s.epoch - 1].eventId == c.Events()[s.epoch - 1].id && s.records[s.epoch - 1].execution != Some(Dispatched))
  }

  ghost predicate OutOfRounds(p: Phase) { p.Recovering? || p.Finishing? || p == Ended(Returned) }

  lemma LeftAccounted(c: Case, s: Head, a: Action, n: Head, i: nat)
    requires Leaves(c, s, a, n, i) && OutOfRounds(n.phase)
    ensures Accounted(c, n)
  {
    hide GivesUpAs, Case.Events;
  }

  lemma OutStays(h: Hashes, c: Case, s: Head, a: Action)
    requires Steppable(c, s) && (s.phase.Recovering? || s.phase.Finishing? || s.phase.Ended?)
    requires a.Register? ==> Step(c, h, s, a) == s
    ensures var n := Step(c, h, s, a);
      n.epoch == s.epoch && n.records == s.records && (s.phase == Ended(Raised) ==> n.phase == s.phase)
  {
    hide AllDone, ActiveFailure, EnterEvent, Opened, Case.Events;
  }

  lemma RegisteringStays(h: Hashes, c: Case, s: Head, a: Action)
    requires ValidCase(c) && Steppable(c, s) && s.phase.Registering? && s.tasks == map[]
    ensures !OutOfRounds(Step(c, h, s, a).phase)
  {
    if a.Register? && Enabled(c) { OpeningMoves(h, c, s, a.role, a.trajectoryRole, a.trajectory); }
    hide ValidCase, Enabled, EnterEvent, Opened, AllDone, ActiveFailure;
  }

  lemma StepKeepsAccounts(h: Hashes, c: Case, s: Head, a: Action)
    requires ValidCase(c) && Inv(h, c, s) && Steppable(c, s) && (OutOfRounds(s.phase) ==> Accounted(c, s))
    ensures var n := Step(c, h, s, a); OutOfRounds(n.phase) ==> Accounted(c, n)
  {
    RoundFacts(h, c, s);
    if !s.phase.Registering? { EnrolledAlready(h, c, s, a); }
    hide Inv, Step, Leaves, ValidCase;
    if s.phase.Registering? {
      RegisteringStays(h, c, s, a);
    } else if s.phase.Recovering? || s.phase.Finishing? || s.phase.Ended? {
      OutStays(h, c, s, a);
    } else {
      RoundLeaves(h, c, s, a, s.phase.i);
      if OutOfRounds(Step(c, h, s, a).phase) { LeftAccounted(c, s, a, Step(c, h, s, a), s.phase.i); }
    }
  }

  lemma AccountsFollow(h: Hashes, c: Case, unset: Sha, states: seq<Head>, actions: seq<Action>, k: nat, m: nat)
    requires ValidCase(c) && IsRun(h, c, unset, states, actions) && m == k + 1 < |states|
    requires OutOfRounds(states[k].phase) ==> Accounted(c, states[k])
    ensures OutOfRounds(states[m].phase) ==> Accounted(c, states[m])
  {
    hide Step, Inv, ValidCase, Accounted, OutOfRounds, Steppable, InitialHead;
    ReachableInv(h, c, unset, states, actions, k);
    assert Follows(h, c, states, actions, k);
    StepKeepsAccounts(h, c, states[k], actions[k]);
  }

  /** In every run, a head that has returned has answered every accepted event, or its last record is about the event it was
      handling and claims no dispatch. */
  lemma {:induction false} EveryReturnIsAccounted(h: Hashes, c: Case, unset: Sha, states: seq<Head>, actions: seq<Action>, k: nat)
    requires ValidCase(c) && IsRun(h, c, unset, states, actions) && k < |states|
    ensures OutOfRounds(states[k].phase) ==> Accounted(c, states[k])
  {
    if k == 0 {
      assert states[0].phase.Registering?;
    } else {
      hide *;
      EveryReturnIsAccounted(h, c, unset, states, actions, k - 1);
      AccountsFollow(h, c, unset, states, actions, k - 1, k);
    }
  }
}
