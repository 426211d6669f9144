/** The changed-world execution head as a state machine: one atomic step for each stretch of code
    between two awaits, with the fleet, the planner and the clock as the environment. */
module HeadProtocol {
  import opened Wrappers
  import opened Roles
  import opened Vectors
  import opened Replanning

  datatype EventKind = ObstacleAdded | ObstacleMoved | ObstacleRemoved | PassageClosed | PassageOpened | OtherKind
  {
    predicate ChangesEnvironment() { !OtherKind? }
  }

  datatype ExpectedDisposition = AcceptedUpdate | OtherDisposition

  datatype ScenarioEvent = ScenarioEvent(
    id: string, kind: EventKind, expected: ExpectedDisposition, trigger: real, duration: real,
    sourceId: string, sequence: nat, authenticated: bool)
  {
    predicate AcceptedEnvironmentChange() { kind.ChangesEnvironment() && expected.AcceptedUpdate? }
  }

  /** The events the head handles, in authored order. */
  function HeadEvents(scenario: seq<ScenarioEvent>): (events: seq<ScenarioEvent>)
    ensures forall e :: e in events <==> e in scenario && e.AcceptedEnvironmentChange()
  {
    if scenario == [] then []
    else (if scenario[0].AcceptedEnvironmentChange() then [scenario[0]] else []) + HeadEvents(scenario[1..])
  }

  /** The places of the handled events in a scenario that starts at place `from`. */
  function Places(scenario: seq<ScenarioEvent>, from: nat): (at: seq<nat>)
    ensures |at| == |HeadEvents(scenario)|
    ensures forall k :: 0 <= k < |at| ==> from <= at[k] < from + |scenario|
  {
    if scenario == [] then []
    else (if scenario[0].AcceptedEnvironmentChange() then [from] else []) + Places(scenario[1..], from + 1)
  }

  lemma {:induction false} PlacesRise(scenario: seq<ScenarioEvent>, from: nat)
    ensures forall j, k :: 0 <= j < k < |Places(scenario, from)| ==> Places(scenario, from)[j] < Places(scenario, from)[k]
  {
    if scenario != [] { PlacesRise(scenario[1..], from + 1); }
  }

  lemma EventsUnfold(scenario: seq<ScenarioEvent>, from: nat)
    requires scenario != []
    ensures var handled := scenario[0].AcceptedEnvironmentChange();
      && HeadEvents(scenario) == (if handled then [scenario[0]] else []) + HeadEvents(scenario[1..])
      && Places(scenario, from) == (if handled then [from] else []) + Places(scenario[1..], from + 1)
  {
  }

  lemma {:induction false} PlaceOf(scenario: seq<ScenarioEvent>, from: nat, k: nat)
    requires k < |HeadEvents(scenario)| && scenario != []
    ensures HeadEvents(scenario)[k] == scenario[Places(scenario, from)[k] - from]
  {
    hide HeadEvents, Places, ScenarioEvent.AcceptedEnvironmentChange;
    EventsUnfold(scenario, from);
    var skipped := if scenario[0].AcceptedEnvironmentChange() then 1 else 0;
    if skipped <= k {
      NoEvents();
      PlaceOf(scenario[1..], from + 1, k - skipped);
      assert Places(scenario, from)[k] == Places(scenario[1..], from + 1)[k - skipped];
    }
  }

  lemma NoEvents()
    ensures HeadEvents([]) == []
  {
  }

  lemma {:induction false} HasPlace(scenario: seq<ScenarioEvent>, from: nat, i: nat)
    requires i < |scenario|
    ensures from + i in Places(scenario, from) <==> scenario[i].AcceptedEnvironmentChange()
  {
    hide ScenarioEvent.AcceptedEnvironmentChange;
    var rest := Places(scenario[1..], from + 1);
    if 0 < i {
      HasPlace(scenario[1..], from + 1, i - 1);
      assert from + i == from + 1 + (i - 1);
    } else {
      assert from !in rest;
    }
  }

  /** The handled events are the accepted ones, each occurrence once and in authored order. */
  lemma HeadEventsInOrder(scenario: seq<ScenarioEvent>)
    ensures var at := Places(scenario, 0);
      && |at| == |HeadEvents(scenario)|
      && (forall j, k :: 0 <= j < k < |at| ==> at[j] < at[k])
      && (forall k :: 0 <= k < |at| ==> HeadEvents(scenario)[k] == scenario[at[k]])
      && (forall i: nat :: i < |scenario| ==> (i in at <==> scenario[i].AcceptedEnvironmentChange()))
  {
    hide Places, HeadEvents, ScenarioEvent.AcceptedEnvironmentChange;
    PlacesRise(scenario, 0);
    forall k | 0 <= k < |HeadEvents(scenario)|
      ensures HeadEvents(scenario)[k] == scenario[Places(scenario, 0)[k]]
    {
      NoEvents();
      PlaceOf(scenario, 0, k);
    }
    forall i: nat | i < |scenario|
      ensures i in Places(scenario, 0) <==> scenario[i].AcceptedEnvironmentChange()
    {
      HasPlace(scenario, 0, i);
    }
  }

  datatype Case = Case(limits: CaseLimits, roles: seq<RoleId>, scenario: seq<ScenarioEvent>) {
    function Events(): seq<ScenarioEvent> { HeadEvents(scenario) }

    function RoleIds(): set<RoleId> { set r | r in roles }
  }

  /** Outside functions: the hash of the initial trajectories, of a reservation and of a decision. */
  datatype Hashes = Hashes(initial: seq<Sha> -> Sha, reservation: ReservationHash, decision: Decision -> Sha)

  /** What a validated case guarantees: as many distinct roles as drones, distinct event ids, and a
      positive lead for every event. */
  predicate ValidCase(c: Case) {
    && |c.roles| == c.limits.droneCount
    && (forall i, j :: 0 <= i < j < |c.roles| ==> c.roles[i] != c.roles[j])
    && (forall i, j :: 0 <= i < j < |c.scenario| ==> c.scenario[i].id != c.scenario[j].id)
    && (forall i :: 0 <= i < |c.scenario| ==> 0.0 < c.scenario[i].trigger && 0.0 < c.scenario[i].duration)
  }

  predicate Enabled(c: Case) {
    c.Events() != [] && 2 <= c.limits.droneCount <= 3 && c.limits.authority.AutoWithinFrozenLimits?
  }

  // ----- evidence -----

  datatype RecordedDisposition = NotInFlight | SafeFallbackTaken | Decided(decision: Disposition)

  datatype ExecutionDisposition = NotDispatched | PostCommitSafeFallback | Dispatched

  /** One record of the trace; None is an absent key. */
  datatype Record = Record(
    eventId: string, disposition: RecordedDisposition, execution: Option<ExecutionDisposition>,
    proposalSha: Option<string>, decisionSha: Option<string>, planSha: Option<string>, worldSha: Option<string>,
    trajectories: Option<map<RoleId, Sha>>, authorities: Option<map<RoleId, Sha>>,
    prepared: Option<seq<RoleId>>, dispatched: Option<seq<RoleId>>)

  function ShortRecord(id: string, disposition: RecordedDisposition, proposalSha: Option<string>): Record {
    Record(id, disposition, None, proposalSha, None, None, None, None, None, None, None)
  }

  datatype RouteAuthority = RouteAuthority(authority: Sha, certificate: Sha)

  datatype Proposal = Proposal(
    sha: Sha, planSha: Sha, worldSha: Sha, planningLatency: real,
    trajectories: map<RoleId, Sha>, authorities: map<RoleId, RouteAuthority>)

  /** What a constructed proposal guarantees: a trajectory and an authority for exactly the affected roles. */
  predicate CoversRoles(c: Case, p: Proposal) {
    p.trajectories.Keys == c.RoleIds() && p.authorities.Keys == c.RoleIds()
  }

  /** One call of the commit coordinator, with what the head had really seen when it called. */
  datatype Commit = Commit(
    eventId: string, oldEpoch: nat, oldReservation: Sha,
    cancellationAcknowledged: set<RoleId>, replacementAcknowledged: set<RoleId>,
    held: set<RoleId>, observed: set<RoleId>, validated: set<RoleId>, flying: set<TaskId>,
    epoch: Option<Epoch>)

  // ----- state -----

  datatype TaskStatus = Running | Finished | Failed | Cancelled

  datatype TaskId = TaskId(epoch: nat, role: RoleId)

  datatype Task = Task(trajectory: Sha, status: TaskStatus)

  datatype Sample = Sample(valid: bool, hasPosition: bool, sourceTime: real) {
    predicate Usable() { valid && hasPosition }
  }

  datatype Ending = Returned | Raised

  /** Where the orchestrator is suspended, with its local variables. */
  datatype Phase =
    | Registering
    | Waiting(i: nat)
    | Holding(i: nat, held: set<RoleId>)
    | Draining(i: nat, held: set<RoleId>)
    | Observing(i: nat, held: set<RoleId>, samples: map<RoleId, Sample>)
    | Planning(i: nat, held: set<RoleId>, samples: map<RoleId, Sample>)
    | Advancing(i: nat, proposal: Proposal, next: Epoch, arrived: set<RoleId>)
    | Dispatching(i: nat, proposal: Proposal, next: Epoch)
    | Recovering
    | Finishing
    | Ended(ending: Ending)

  datatype Head = Head(
    trajectories: map<RoleId, Sha>, tasks: map<TaskId, Task>, active: nat, phase: Phase,
    records: seq<Record>, commits: seq<Commit>,
    current: map<RoleId, Sha>, epoch: nat, reservation: Sha, coordinator: CoordinatorState)

  /** How an awaited call ended: normally, with an exception the head catches, or with another one. */
  datatype Await = Done | Caught | Uncaught

  datatype PlanOutcome = Proposed(p: Proposal) | PlanFailed | PlanRaised

  datatype Action =
    | Register(role: RoleId, trajectoryRole: RoleId, trajectory: Sha)
    | TaskEnds(id: TaskId, status: TaskStatus)
    | SourceSampled(time: Option<real>)
    | HoldReturns(role: RoleId, how: Await)
    | TasksDrained
    | ObservationReturns(role: RoleId, how: Await, sample: Sample)
    | PlanReturns(outcome: PlanOutcome, validation: seq<Await>, acknowledgementLatency: real)
    | AdvanceReturns(role: RoleId, how: Await)
    | LoopYields
    | OrchestratorCancelled

  function InitialHead(unset: Sha): Head {
    Head(map[], map[], 0, Registering, [], [], map[], 0, unset, EMPTY_COORDINATOR)
  }

  predicate AllDone(c: Case, s: Head) {
    forall r :: r in c.RoleIds() && TaskId(s.active, r) in s.tasks ==> s.tasks[TaskId(s.active, r)].status != Running
  }

  function Flying(tasks: map<TaskId, Task>): set<TaskId> {
    set id | id in tasks && tasks[id].status == Running
  }

  function WithTasks(c: Case, tasks: map<TaskId, Task>, epoch: nat, trajectories: map<RoleId, Sha>): map<TaskId, Task>
    requires c.RoleIds() <= trajectories.Keys
  {
    Started(c.roles, tasks, epoch, trajectories)
  }

  /** One running task per role, each flying that role's trajectory. */
  function Started(roles: seq<RoleId>, tasks: map<TaskId, Task>, epoch: nat, trajectories: map<RoleId, Sha>): map<TaskId, Task>
    requires (set r | r in roles) <= trajectories.Keys
  {
    if roles == [] then tasks
    else
      var last := |roles| - 1;
      assert (set r | r in roles[..last]) <= (set r | r in roles) && roles[last] in (set r | r in roles);
      Started(roles[..last], tasks, epoch, trajectories)[TaskId(epoch, roles[last]) := Task(trajectories[roles[last]], Running)]
  }

  /** The start of the loop body for event i, up to the first await. */
  function EnterEvent(c: Case, s: Head, i: nat): Head
    requires i <= |c.Events()|
  {
    if i == |c.Events()| then s.(phase := Finishing)
    else if AllDone(c, s) then MissEvent(c, s, i)
    else s.(phase := Waiting(i))
  }

  function MissEvent(c: Case, s: Head, i: nat): Head
    requires i < |c.Events()|
  {
    s.(records := s.records + [ShortRecord(c.Events()[i].id, NotInFlight, None)], phase := Finishing)
  }

  function FallBack(c: Case, s: Head, i: nat, proposalSha: Option<string>): Head
    requires i < |c.Events()|
  {
    s.(records := s.records + [ShortRecord(c.Events()[i].id, SafeFallbackTaken, proposalSha)], phase := Ended(Returned))
  }

  function End(s: Head, ending: Ending): Head {
    s.(phase := Ended(ending))
  }

  /** Cancellation is no error the orchestrator catches, whichever await it is suspended in. The gathered tasks are
      cancelled with it, which is a matter of their own endings. */
  function Interrupted(s: Head): Head {
    if s.phase.Registering? || s.phase.Ended? then s else End(s, Raised)
  }

  /** The trajectory hashes in role order. */
  function InitialHashes(c: Case, trajectories: map<RoleId, Sha>): (hashes: seq<Sha>)
    requires c.RoleIds() <= trajectories.Keys
    ensures |hashes| == |c.roles|
    ensures forall i :: 0 <= i < |c.roles| ==> c.roles[i] in trajectories && hashes[i] == trajectories[c.roles[i]]
  {
    seq(|c.roles|, i requires 0 <= i < |c.roles| => HashOf(c, trajectories, c.roles[i]))
  }

  function HashOf(c: Case, trajectories: map<RoleId, Sha>, role: RoleId): Sha
    requires c.RoleIds() <= trajectories.Keys && role in c.roles
  {
    assert role in c.RoleIds();
    trajectories[role]
  }

  /** The barrier opens: the first epoch flies the registered routes. */
  function Opened(c: Case, h: Hashes, s: Head): Head
    requires s.trajectories.Keys == c.RoleIds()
  {
    s.(tasks := WithTasks(c, s.tasks, 1, s.trajectories), active := 1, current := s.trajectories, epoch := 1,
       reservation := h.initial(InitialHashes(c, s.trajectories)))
  }

  /** Registration of one role's route; the last role opens the barrier and starts the first epoch. */
  function Registered(c: Case, h: Hashes, s: Head, role: RoleId, trajectoryRole: RoleId, trajectory: Sha): Head {
    if !Enabled(c) || role !in c.RoleIds() || trajectoryRole != role || role in s.trajectories then s
    else
      var trajectories := s.trajectories[role := trajectory];
      if trajectories.Keys == c.RoleIds() then EnterEvent(c, Opened(c, h, s.(trajectories := trajectories)), 0)
      else s.(trajectories := trajectories)
  }

  function Ends(s: Head, id: TaskId, status: TaskStatus): Head {
    if id in s.tasks && s.tasks[id].status == Running then s.(tasks := s.tasks[id := s.tasks[id].(status := status)]) else s
  }

  function Sampled(c: Case, s: Head, time: Option<real>): Head
    requires s.phase.Waiting? ==> s.phase.i < |c.Events()|
  {
    if !s.phase.Waiting? then s
    else if time.None? then End(s, Raised)
    else if AllDone(c, s) then MissEvent(c, s, s.phase.i)
    else if c.Events()[s.phase.i].trigger <= time.value then s.(phase := Holding(s.phase.i, {}))
    else s
  }

  function HoldReturned(c: Case, s: Head, role: RoleId, how: Await): Head
    requires s.phase.Holding? ==> s.phase.i < |c.Events()|
  {
    if !s.phase.Holding? || role !in c.RoleIds() then s
    else match how
      case Uncaught => End(s, Raised)
      case Caught => FallBack(c, s, s.phase.i, None)
      case Done =>
        var held := s.phase.held + {role};
        s.(phase := if held == c.RoleIds() then Draining(s.phase.i, held) else Holding(s.phase.i, held))
  }

  function ActiveFailure(c: Case, s: Head, alsoCancelled: bool): bool {
    exists r :: r in c.RoleIds() && TaskId(s.active, r) in s.tasks &&
      (s.tasks[TaskId(s.active, r)].status == Failed || (alsoCancelled && s.tasks[TaskId(s.active, r)].status == Cancelled))
  }

  function StartObserving(s: Head, i: nat, held: set<RoleId>): Head {
    s.(phase := Observing(i, held, map[]))
  }

  /** The gathered tasks have all ended. */
  function Drained(c: Case, s: Head): Head {
    if !AllDone(c, s) then s
    else match s.phase
      case Draining(i, held) => StartObserving(s, i, held)
      case Recovering => End(s, Returned)
      case Finishing => End(s, if ActiveFailure(c, s, true) then Raised else Returned)
      case _ => s
  }

  predicate AllUsable(samples: map<RoleId, Sample>) {
    forall r :: r in samples ==> samples[r].Usable()
  }

  /** The roles with a usable sample. */
  function UsableRoles(samples: map<RoleId, Sample>): set<RoleId> {
    set r | r in samples && samples[r].Usable()
  }

  function ObservationReturned(c: Case, s: Head, role: RoleId, how: Await, sample: Sample): Head
    requires s.phase.Observing? ==> s.phase.i < |c.Events()|
  {
    if !s.phase.Observing? || role !in c.RoleIds() then s
    else match how
      case Uncaught => End(s, Raised)
      case Caught => FallBack(c, s, s.phase.i, None)
      case Done =>
        var samples := s.phase.samples[role := sample];
        if samples.Keys != c.RoleIds() then s.(phase := Observing(s.phase.i, s.phase.held, samples))
        else if AllUsable(samples) then s.(phase := Planning(s.phase.i, s.phase.held, samples))
        else FallBack(c, s, s.phase.i, None)
  }

  /** The latest capture time among the observed roles. */
  function LatestCapture(roles: seq<RoleId>, samples: map<RoleId, Sample>): real {
    if roles == [] then 0.0
    else
      var here := if roles[0] in samples then samples[roles[0]].sourceTime else 0.0;
      if |roles| == 1 then here else Max(here, LatestCapture(roles[1..], samples))
  }

  function RuntimeEvent(c: Case, e: ScenarioEvent, samples: map<RoleId, Sample>): Event {
    Event(e.id, e.sourceId, e.sequence, e.trigger, Max(e.trigger, LatestCapture(c.roles, samples)),
          e.trigger + e.duration, e.authenticated, c.RoleIds())
  }

  const CUTOVER_GUARD: real := 0.10

  function CommitCall(c: Case, s: Head, e: ScenarioEvent, samples: map<RoleId, Sample>, p: Proposal, latency: real): Call
    requires CoversRoles(c, p)
  {
    var event := RuntimeEvent(c, e, samples);
    Call(event,
         Timing(LatestCapture(c.roles, samples), 0.0, p.planningLatency, latency, CUTOVER_GUARD, event.effective),
         true, s.epoch, s.reservation,
         seq(|c.roles|, i requires 0 <= i < |c.roles| =>
           Replacement(c.roles[i], if c.roles[i] in s.current then s.current[c.roles[i]] else p.sha,
                       HashOf(c, p.trajectories, c.roles[i]), true, c.roles[i] in c.RoleIds(), c.roles[i] in c.RoleIds())),
         |c.roles|, false)
  }

  /** The first command that failed validation, in role order. */
  function Validation(results: seq<Await>): Await {
    if results == [] then Done else if results[0] != Done then results[0] else Validation(results[1..])
  }

  function ValidatedRoles(c: Case, results: seq<Await>): set<RoleId>
    requires |results| == |c.roles|
  {
    set i | 0 <= i < |results| && results[i] == Done :: c.roles[i]
  }

  function CommittedRecord(c: Case, h: Hashes, p: Proposal, d: Decision): Record {
    Record(d.eventId, Decided(d.disposition), Some(NotDispatched), Some(p.sha), Some(h.decision(d)), Some(p.planSha),
           Some(p.worldSha), Some(p.trajectories), Some(map r | r in p.authorities :: p.authorities[r].authority),
           Some(c.roles), Some([]))
  }

  /** A proposal whose commands all validated goes to the coordinator. The decisions that carry an epoch
      are exactly the accepted ones (Replanning.AllOrNothing). */
  function Committed(c: Case, h: Hashes, s: Head, p: Proposal, validated: set<RoleId>, latency: real): Head
    requires s.phase.Planning? && s.phase.i < |c.Events()| && CoversRoles(c, p)
  {
    var e := c.Events()[s.phase.i];
    var call := CommitCall(c, s, e, s.phase.samples, p, latency);
    var (coordinator, result) := Decide(c.limits, h.reservation, s.coordinator, call);
    var log := Commit(e.id, s.epoch, s.reservation, c.RoleIds(), c.RoleIds(),
                      s.phase.held, UsableRoles(s.phase.samples), validated, Flying(s.tasks),
                      if result.Success? then result.value.epoch else None);
    var asked := s.(coordinator := coordinator, commits := s.commits + [log]);
    match result
    case Failure(_) => FallBack(c, asked, s.phase.i, Some(p.sha))
    case Success(d) =>
      asked.(records := s.records + [CommittedRecord(c, h, p, d)],
             phase := if d.epoch.Some? then Advancing(s.phase.i, p, d.epoch.value, {}) else Ended(Returned))
  }

  function PlanReturned(c: Case, h: Hashes, s: Head, outcome: PlanOutcome, validation: seq<Await>, latency: real): Head
    requires s.phase.Planning? ==> s.phase.i < |c.Events()|
  {
    if !s.phase.Planning? || |validation| != |c.roles| then s
    else match outcome
      case PlanRaised => End(s, Raised)
      case PlanFailed => FallBack(c, s, s.phase.i, None)
      case Proposed(p) =>
        if !CoversRoles(c, p) then s
        else match Validation(validation)
          case Uncaught => End(s, Raised)
          case Caught => FallBack(c, s, s.phase.i, Some(p.sha))
          case Done => Committed(c, h, s, p, ValidatedRoles(c, validation), latency)
  }

  /** The last record is the one of the event being handled. */
  function Annotated(s: Head, how: ExecutionDisposition): seq<Record>
    requires s.records != []
  {
    s.records[|s.records| - 1 := s.records[|s.records| - 1].(execution := Some(how))]
  }

  function WithArrived(s: Head, arrived: set<RoleId>): Head
    requires s.phase.Advancing?
  {
    s.(phase := s.phase.(arrived := arrived))
  }

  /** Every role reached the cutover: the tasks of the next epoch start. */
  function Launched(c: Case, s: Head): Head
    requires s.phase.Advancing? && CoversRoles(c, s.phase.proposal)
  {
    s.(tasks := WithTasks(c, s.tasks, s.epoch + 1, s.phase.proposal.trajectories), active := s.epoch + 1,
       phase := Dispatching(s.phase.i, s.phase.proposal, s.phase.next))
  }

  function AdvanceReturned(c: Case, s: Head, role: RoleId, how: Await): Head
    requires s.phase.Advancing? ==> s.records != [] && CoversRoles(c, s.phase.proposal)
  {
    if !s.phase.Advancing? || role !in c.RoleIds() then s
    else match how
      case Uncaught => End(s, Raised)
      case Caught => End(s.(records := Annotated(s, PostCommitSafeFallback)), Returned)
      case Done =>
        var arrived := s.phase.arrived + {role};
        if arrived != c.RoleIds() then WithArrived(s, arrived) else Launched(c, s)
  }

  /** The replacement flies: its record is completed and it becomes the current epoch. */
  function Replaced(c: Case, s: Head): Head
    requires s.phase.Dispatching? && s.records != []
  {
    var last := |s.records| - 1;
    var record := s.records[last].(dispatched := Some(c.roles), execution := Some(Dispatched));
    s.(records := s.records[last := record], current := s.phase.proposal.trajectories,
       epoch := s.epoch + 1, reservation := s.phase.next.reservation)
  }

  function Yielded(c: Case, s: Head): Head
    requires s.phase.Dispatching? ==> s.records != [] && s.phase.i < |c.Events()|
  {
    if !s.phase.Dispatching? then s
    else if ActiveFailure(c, s, false) then s.(records := Annotated(s, PostCommitSafeFallback), phase := Recovering)
    else EnterEvent(c, Replaced(c, s), s.phase.i + 1)
  }

  // ----- runs -----

  /** What every step needs of the state it is taken in. */
  predicate Steppable(c: Case, s: Head) {
    && ((s.phase.Waiting? || s.phase.Holding? || s.phase.Draining? || s.phase.Observing? || s.phase.Planning?
         || s.phase.Advancing? || s.phase.Dispatching?) ==> s.phase.i < |c.Events()|)
    && ((s.phase.Advancing? || s.phase.Dispatching?) ==> s.records != [] && CoversRoles(c, s.phase.proposal))
  }

  /** One action in one state; an action that is not possible there changes nothing. */
  function Step(c: Case, h: Hashes, s: Head, a: Action): Head
    requires Steppable(c, s)
  {
    match a
    case Register(role, trajectoryRole, trajectory) => Registered(c, h, s, role, trajectoryRole, trajectory)
    case TaskEnds(id, status) => Ends(s, id, status)
    case SourceSampled(time) => Sampled(c, s, time)
    case HoldReturns(role, how) => HoldReturned(c, s, role, how)
    case TasksDrained => Drained(c, s)
    case ObservationReturns(role, how, sample) => ObservationReturned(c, s, role, how, sample)
    case PlanReturns(outcome, validation, latency) => PlanReturned(c, h, s, outcome, validation, latency)
    case AdvanceReturns(role, how) => AdvanceReturned(c, s, role, how)
    case LoopYields => Yielded(c, s)
    case OrchestratorCancelled => Interrupted(s)
  }
}
