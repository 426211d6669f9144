/** The execution head itself: the fields its handlers update in place, each handler proved to take
    exactly one step of the protocol and to keep its invariant. */
module ExecutionHead {
  import opened Wrappers
  import opened Roles
  import opened Replanning
  import opened HeadProtocol
  import opened HeadSafety

  /** How a call of execute starts: without the head, refused, or waiting for the orchestrator. */
  datatype Entry = FliesAlone | WrongIdentity | DuplicateRoute | Joined

  lemma {:induction false} DistinctRolesCount(roles: seq<RoleId>)
    requires forall i, j :: 0 <= i < j < |roles| ==> roles[i] != roles[j]
    ensures |set r | r in roles| == |roles|
  {
    if roles != [] {
      DistinctRolesCount(roles[1..]);
      assert (set r | r in roles) == (set r | r in roles[1..]) + {roles[0]};
    } else {
      assert (set r | r in roles) == {};
    }
  }

  lemma FullSubset(part: set<RoleId>, whole: set<RoleId>)
    requires part <= whole
    ensures |part| == |whole| <==> part == whole
  {
    if |part| == |whole| {
      assert whole == part + (whole - part);
    }
  }

  /** The barrier counts registered routes; counting them is the same as knowing every role is there. */
  lemma BarrierCounts(c: Case, trajectories: map<RoleId, Sha>)
    requires ValidCase(c) && trajectories.Keys <= c.RoleIds()
    ensures |trajectories| == |c.roles| <==> trajectories.Keys == c.RoleIds()
  {
    DistinctRolesCount(c.roles);
    FullSubset(trajectories.Keys, c.RoleIds());
    assert |trajectories| == |trajectories.Keys|;
  }

  class CampaignExecutionHead {
    const campaign: Case
    const hashes: Hashes
    const coordinator: InFlightReplanCoordinator
    var trajectories: map<RoleId, Sha>
    var tasks: map<TaskId, Task>
    var active: nat
    var phase: Phase
    var records: seq<Record>
    var commits: seq<Commit>
    var current: map<RoleId, Sha>
    var epoch: nat
    var reservation: Sha

    function State(): Head
      reads this, coordinator
    {
      Head(trajectories, tasks, active, phase, records, commits, current, epoch, reservation, coordinator.State())
    }

    /** What each handler relies on. */
    ghost predicate Ready()
      reads this, coordinator
    {
      && ValidCase(campaign) && trajectories.Keys <= campaign.RoleIds()
      && coordinator.limits == campaign.limits && coordinator.hash == hashes.reservation
      && Steppable(campaign, State())
    }

    ghost predicate Valid()
      reads this, coordinator
    {
      && ValidCase(campaign)
      && coordinator.limits == campaign.limits && coordinator.hash == hashes.reservation
      && Inv(hashes, campaign, State())
    }

    constructor (campaign: Case, hashes: Hashes, unset: Sha)
      requires ValidCase(campaign)
      ensures Valid() && fresh(coordinator) && State() == InitialHead(unset)
      ensures this.campaign == campaign && this.hashes == hashes
    {
      this.campaign, this.hashes := campaign, hashes;
      coordinator := new InFlightReplanCoordinator(campaign.limits, hashes.reservation);
      trajectories, tasks, active, phase, records, commits := map[], map[], 0, Registering, [], [];
      current, epoch, reservation := map[], 0, unset;
    }

    /** Registers one role's route; the last one starts the orchestrator. */
    method Execute(role: RoleId, trajectoryRole: RoleId, trajectory: Sha) returns (entry: Entry)
      requires Ready()
      modifies this
      ensures State() == Registered(campaign, hashes, old(State()), role, trajectoryRole, trajectory)
      ensures entry == FliesAlone <==> !Enabled(campaign)
      ensures entry == Joined <==> Enabled(campaign) && role in campaign.RoleIds() && trajectoryRole == role
                                   && role !in old(trajectories)
      ensures entry == WrongIdentity <==> Enabled(campaign) && (role !in campaign.RoleIds() || trajectoryRole != role)
      ensures entry != Joined ==> unchanged(this)
    {
      if !Enabled(campaign) {
        return FliesAlone;
      }
      if role !in campaign.roles || trajectoryRole != role {
        return WrongIdentity;
      }
      if role in trajectories {
        return DuplicateRoute;
      }
      trajectories := trajectories[role := trajectory];
      BarrierCounts(campaign, trajectories);
      if |trajectories| == |campaign.roles| {
        OpenBarrier();
        StartEvent(0);
      }
      return Joined;
    }

    /** One task for each role, in role order. */
    method StartTasks(number: nat, routes: map<RoleId, Sha>)
      requires campaign.RoleIds() <= routes.Keys
      modifies this`tasks, this`active
      ensures tasks == WithTasks(campaign, old(tasks), number, routes) && active == number
    {
      var roles := campaign.roles;
      var k := 0;
      while k < |roles|
        invariant k <= |roles|
        invariant (set r | r in roles[..k]) <= routes.Keys
        invariant tasks == Started(roles[..k], old(tasks), number, routes)
      {
        assert roles[..k + 1][..k] == roles[..k];
        assert roles[k] in campaign.RoleIds();
        tasks := tasks[TaskId(number, roles[k]) := Task(routes[roles[k]], Running)];
        k := k + 1;
      }
      assert roles[..k] == roles;
      active := number;
    }

    method OpenBarrier()
      requires trajectories.Keys == campaign.RoleIds()
      modifies this
      ensures State() == Opened(campaign, hashes, old(State()))
    {
      StartTasks(1, trajectories);
      current, epoch := trajectories, 1;
      reservation := hashes.initial(InitialHashes(campaign, trajectories));
    }

    /** The top of the event loop. */
    method StartEvent(i: nat)
      requires i <= |campaign.Events()|
      modifies this`phase, this`records
      ensures State() == EnterEvent(campaign, old(State()), i)
    {
      if i == |campaign.Events()| {
        phase := Finishing;
      } else if AllDone(campaign, State()) {
        Miss(i);
      } else {
        phase := Waiting(i);
      }
    }

    method Miss(i: nat)
      requires i < |campaign.Events()|
      modifies this`phase, this`records
      ensures State() == MissEvent(campaign, old(State()), i)
    {
      records := records + [ShortRecord(campaign.Events()[i].id, NotInFlight, None)];
      phase := Finishing;
    }

    method TakeFallback(i: nat, proposalSha: Option<string>)
      requires i < |campaign.Events()|
      modifies this`phase, this`records
      ensures State() == FallBack(campaign, old(State()), i, proposalSha)
    {
      records := records + [ShortRecord(campaign.Events()[i].id, SafeFallbackTaken, proposalSha)];
      phase := Ended(Returned);
    }

    method OnTaskEnded(id: TaskId, status: TaskStatus)
      modifies this`tasks
      ensures State() == Ends(old(State()), id, status)
    {
      if id in tasks && tasks[id].status == Running {
        tasks := tasks[id := tasks[id].(status := status)];
      }
    }

    /** One sample of the wait for the event's trigger time; None is an observation that raised. */
    method OnSourceSample(time: Option<real>)
      requires Ready()
      modifies this`phase, this`records
      ensures State() == Sampled(campaign, old(State()), time)
    {
      if phase.Waiting? {
        if time.None? {
          phase := Ended(Raised);
        } else if AllDone(campaign, State()) {
          Miss(phase.i);
        } else if campaign.Events()[phase.i].trigger <= time.value {
          phase := Holding(phase.i, {});
        }
      }
    }

    method OnHoldReturned(role: RoleId, how: Await)
      requires Ready()
      modifies this`phase, this`records
      ensures State() == HoldReturned(campaign, old(State()), role, how)
    {
      if phase.Holding? && role in campaign.RoleIds() {
        match how
        case Uncaught => phase := Ended(Raised);
        case Caught => TakeFallback(phase.i, None);
        case Done =>
          var held := phase.held + {role};
          phase := if held == campaign.RoleIds() then Draining(phase.i, held) else Holding(phase.i, held);
      }
    }

    method OnTasksDrained()
      requires Ready()
      modifies this`phase
      ensures State() == Drained(campaign, old(State()))
    {
      if AllDone(campaign, State()) {
        match phase
        case Draining(i, held) => phase := Observing(i, held, map[]);
        case Recovering => phase := Ended(Returned);
        case Finishing => phase := Ended(if ActiveFailure(campaign, State(), true) then Raised else Returned);
        case _ =>
      }
    }

    method OnObservation(role: RoleId, how: Await, sample: Sample)
      requires Ready()
      modifies this`phase, this`records
      ensures State() == ObservationReturned(campaign, old(State()), role, how, sample)
    {
      if phase.Observing? && role in campaign.RoleIds() {
        match how
        case Uncaught => phase := Ended(Raised);
        case Caught => TakeFallback(phase.i, None);
        case Done =>
          var samples := phase.samples[role := sample];
          if samples.Keys != campaign.RoleIds() {
            phase := Observing(phase.i, phase.held, samples);
          } else if AllUsable(samples) {
            phase := Planning(phase.i, phase.held, samples);
          } else {
            TakeFallback(phase.i, None);
          }
      }
    }

    /** Validates the replacement commands role by role and stops at the first failure. */
    static method ValidateCommands(results: seq<Await>) returns (how: Await)
      ensures how == Validation(results)
    {
      var k := 0;
      while k < |results|
        invariant k <= |results|
        invariant Validation(results) == Validation(results[k..])
      {
        if results[k] != Done {
          return results[k];
        }
        assert results[k..][1..] == results[k + 1..];
        k := k + 1;
      }
      return Done;
    }

    /** The orchestrator's task is cancelled at the await it is suspended in. */
    method OnCancelled()
      requires Ready()
      modifies this`phase
      ensures State() == Interrupted(old(State()))
    {
      if !phase.Registering? && !phase.Ended? {
        phase := Ended(Raised);
      }
    }

    method OnPlan(outcome: PlanOutcome, validation: seq<Await>, latency: real)
      requires Ready()
      modifies this, coordinator
      ensures State() == PlanReturned(campaign, hashes, old(State()), outcome, validation, latency)
    {
      if phase.Planning? && |validation| == |campaign.roles| {
        match outcome
        case PlanRaised => phase := Ended(Raised);
        case PlanFailed => TakeFallback(phase.i, None);
        case Proposed(p) =>
          if CoversRoles(campaign, p) {
            var how := ValidateCommands(validation);
            match how {
              case Uncaught => phase := Ended(Raised);
              case Caught => TakeFallback(phase.i, Some(p.sha));
              case Done => Commit(p, ValidatedRoles(campaign, validation), latency);
            }
          }
      }
    }

    /** Asks the coordinator for one fleet epoch and records its decision. */
    method Commit(p: Proposal, validated: set<RoleId>, latency: real)
      requires Ready() && phase.Planning? && CoversRoles(campaign, p)
      modifies this, coordinator
      ensures State() == Committed(campaign, hashes, old(State()), p, validated, latency)
    {
      var i := phase.i;
      var e := campaign.Events()[i];
      var call := CommitCall(campaign, State(), e, phase.samples, p, latency);
      var result := coordinator.Replan(call);
      commits := commits + [HeadProtocol.Commit(e.id, epoch, reservation, campaign.RoleIds(), campaign.RoleIds(),
                            phase.held, UsableRoles(phase.samples), validated, Flying(tasks),
                            if result.Success? then result.value.epoch else None)];
      match result
      case Failure(_) => TakeFallback(i, Some(p.sha));
      case Success(d) =>
        records := records + [CommittedRecord(campaign, hashes, p, d)];
        phase := if d.epoch.Some? then Advancing(i, p, d.epoch.value, {}) else Ended(Returned);
    }

    method Annotate(how: ExecutionDisposition)
      requires records != []
      modifies this`records
      ensures records == Annotated(old(State()), how)
    {
      var last := |records| - 1;
      records := records[last := records[last].(execution := Some(how))];
    }

    method OnAdvance(role: RoleId, how: Await)
      requires Ready()
      modifies this`phase, this`records, this`tasks, this`active
      ensures State() == AdvanceReturned(campaign, old(State()), role, how)
    {
      if phase.Advancing? && role in campaign.RoleIds() {
        match how
        case Uncaught => phase := Ended(Raised);
        case Caught =>
          Annotate(PostCommitSafeFallback);
          phase := Ended(Returned);
        case Done =>
          var arrived := phase.arrived + {role};
          if arrived != campaign.RoleIds() {
            phase := phase.(arrived := arrived);
          } else {
            StartTasks(epoch + 1, phase.proposal.trajectories);
            phase := Dispatching(phase.i, phase.proposal, phase.next);
          }
      }
    }

    method Adopt()
      requires phase.Dispatching? && records != []
      modifies this
      ensures State() == Replaced(campaign, old(State()))
    {
      var last := |records| - 1;
      records := records[last := records[last].(dispatched := Some(campaign.roles), execution := Some(Dispatched))];
      current, reservation, epoch := phase.proposal.trajectories, phase.next.reservation, epoch + 1;
    }

    /** The new tasks have been given one turn of the event loop. */
    method OnYield()
      requires Ready()
      modifies this
      ensures State() == Yielded(campaign, old(State()))
    {
      if phase.Dispatching? {
        if ActiveFailure(campaign, State(), false) {
          Annotate(PostCommitSafeFallback);
          phase := Recovering;
        } else {
          Adopt();
          StartEvent(phase.i + 1);
        }
      }
    }

    /** Whatever happens next, the head takes that step of the protocol and keeps the invariant. */
    method Handle(a: Action)
      requires Valid()
      modifies this, coordinator
      ensures Valid() && old(Steppable(campaign, State()))
      ensures State() == Step(campaign, hashes, old(State()), a)
    {
      InvSteppable(hashes, campaign, State());
      StepKeepsInv(hashes, campaign, State(), a);
      match a
      case Register(role, trajectoryRole, trajectory) => var _ := Execute(role, trajectoryRole, trajectory);
      case TaskEnds(id, status) => OnTaskEnded(id, status);
      case SourceSampled(time) => OnSourceSample(time);
      case HoldReturns(role, how) => OnHoldReturned(role, how);
      case TasksDrained => OnTasksDrained();
      case ObservationReturns(role, how, sample) => OnObservation(role, how, sample);
      case PlanReturns(outcome, validation, latency) => OnPlan(outcome, validation, latency);
      case AdvanceReturns(role, how) => OnAdvance(role, how);
      case LoopYields => OnYield();
      case OrchestratorCancelled => OnCancelled();
    }
  }
}
