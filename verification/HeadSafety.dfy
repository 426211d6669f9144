/** What every reachable state of the execution head satisfies, over all interleavings and failures. */
module HeadSafety {
  import opened Wrappers
  import opened Roles
  import opened Vectors
  import opened Replanning
  import opened HeadProtocol

  // ----- the claims -----

  /** All trajectory tasks that are still running belong to one epoch. */
  ghost predicate SingleEpoch(tasks: map<TaskId, Task>, active: nat) {
    forall id :: id in tasks && tasks[id].status == Running ==> id.epoch == active
  }

  ghost predicate NothingFlies(tasks: map<TaskId, Task>) {
    forall id :: id in tasks ==> tasks[id].status != Running
  }

  /** What the head told the coordinator is what this round really did: every role held, observed and
      validated, and no trajectory task still running. */
  ghost predicate TruthfulCommit(roles: set<RoleId>, k: Commit) {
    && k.cancellationAcknowledged == k.held == roles
    && k.replacementAcknowledged == k.validated == roles
    && k.observed == roles
    && k.flying == {}
  }

  ghost predicate CommitAt(roles: set<RoleId>, e: ScenarioEvent, k: Commit, n: nat) {
    k.oldEpoch == n + 1 && k.eventId == e.id && TruthfulCommit(roles, k)
  }

  /** The reservation in force after n committed replacements. */
  ghost function ReservationAfter(initial: Sha, commits: seq<Commit>, n: nat): Sha
    requires n <= |commits|
    requires n == 0 || commits[n - 1].epoch.Some?
  {
    if n == 0 then initial else commits[n - 1].epoch.value.reservation
  }

  ghost predicate Chained(initial: Sha, commits: seq<Commit>, n: nat)
    requires n < |commits|
  {
    && (n == 0 || commits[n - 1].epoch.Some?)
    && commits[n].oldReservation == ReservationAfter(initial, commits, n)
  }

  /** The n-th commit, counting from one, names epoch n, event n and the reservation the commit before
      it produced; every commit but the last was accepted. */
  ghost predicate CommitsChain(roles: set<RoleId>, events: seq<ScenarioEvent>, initial: Sha, commits: seq<Commit>) {
    && |commits| <= |events|
    && (forall n :: 0 <= n < |commits| ==> CommitAt(roles, events[n], commits[n], n))
    && (forall n :: 0 <= n < |commits| ==> Chained(initial, commits, n))
  }

  /** The records name a prefix of the events in authored order, and all but the last were dispatched. */
  ghost predicate RecordsFollow(events: seq<ScenarioEvent>, records: seq<Record>) {
    && |records| <= |events|
    && (forall k :: 0 <= k < |records| ==> records[k].eventId == events[k].id)
    && (forall k :: 0 <= k < |records| - 1 ==> records[k].execution == Some(Dispatched))
  }

  // ----- the invariant, part by part -----

  /** Every epoch so far had a task for every role. */
  ghost predicate EveryRoleHasTask(roles: set<RoleId>, tasks: map<TaskId, Task>, active: nat) {
    forall e: nat, r {:trigger TaskId(e, r)} :: 1 <= e <= active && r in roles ==> TaskId(e, r) in tasks
  }

  ghost predicate TasksInv(roles: set<RoleId>, tasks: map<TaskId, Task>, active: nat) {
    && SingleEpoch(tasks, active)
    && (forall id :: id in tasks ==> id.role in roles && id.epoch <= active)
    && EveryRoleHasTask(roles, tasks, active)
    && (active == 0 ==> tasks == map[])
  }

  /** A record that promises a replacement prepared for every role. */
  ghost predicate Prepared(c: Case, r: Record) {
    && r.disposition == Decided(Accepted)
    && r.proposalSha.Some? && |r.proposalSha.value| == 64
    && r.decisionSha.Some? && |r.decisionSha.value| == 64
    && r.planSha.Some? && |r.planSha.value| == 64
    && r.worldSha.Some? && |r.worldSha.value| == 64
    && r.trajectories.Some? && r.trajectories.value.Keys == c.RoleIds()
    && r.authorities.Some? && r.authorities.value.Keys == c.RoleIds()
    && r.prepared == Some(c.roles)
  }

  ghost predicate Delivered(c: Case, r: Record) {
    r.execution == Some(Dispatched) && Prepared(c, r) && r.dispatched == Some(c.roles)
  }

  /** `done` events have been dispatched, and at most one more is on record. */
  ghost predicate RecordsInv(c: Case, records: seq<Record>, done: nat) {
    && done <= |records| <= done + 1 && |records| <= |c.Events()|
    && (forall k :: 0 <= k < |records| ==> records[k].eventId == c.Events()[k].id)
    && (forall k :: 0 <= k < done ==> Delivered(c, records[k]))
    && (forall k :: done <= k < |records| ==> records[k].execution != Some(Dispatched))
  }

  ghost predicate CommitsInv(c: Case, initial: Sha, commits: seq<Commit>, done: nat, reservation: Sha) {
    && CommitsChain(c.RoleIds(), c.Events(), initial, commits)
    && done <= |commits| <= done + 1
    && (forall n :: 0 <= n < done ==> commits[n].epoch.Some?)
    && reservation == ReservationAfter(initial, commits, done)
  }

  /** Each active task flies the trajectory the head has on its books for that role. */
  ghost predicate FliesCurrent(roles: set<RoleId>, tasks: map<TaskId, Task>, active: nat, on: map<RoleId, Sha>) {
    forall r {:trigger TaskId(active, r)} :: r in roles && TaskId(active, r) in tasks ==>
      r in on && tasks[TaskId(active, r)].trajectory == on[r]
  }

  ghost predicate RoundStart(c: Case, s: Head, i: nat) {
    && i < |c.Events()| && s.epoch == s.active == i + 1 && |s.records| == |s.commits| == i
    && FliesCurrent(c.RoleIds(), s.tasks, s.active, s.current)
  }

  ghost predicate CommittedRound(c: Case, epoch: nat, records: seq<Record>, commits: seq<Commit>, i: nat,
                                 p: Proposal, next: Epoch)
  {
    && i < |c.Events()| && epoch == i + 1 && |records| == |commits| == i + 1
    && CoversRoles(c, p) && commits[i].epoch == Some(next)
    && Prepared(c, records[i])
  }

  ghost predicate PhaseInv(c: Case, s: Head) {
    match s.phase
    case Registering => s.epoch == 0 && s.active == 0 && s.records == [] && s.commits == []
    case Waiting(i) => RoundStart(c, s, i)
    case Holding(i, held) => RoundStart(c, s, i)
    case Draining(i, held) => RoundStart(c, s, i) && held == c.RoleIds()
    case Observing(i, held, samples) => RoundStart(c, s, i) && held == c.RoleIds() && NothingFlies(s.tasks)
    case Planning(i, held, samples) =>
      RoundStart(c, s, i) && held == c.RoleIds() && NothingFlies(s.tasks) && samples.Keys == UsableRoles(samples) == c.RoleIds()
    case Advancing(i, p, next, arrived) =>
      CommittedRound(c, s.epoch, s.records, s.commits, i, p, next) && s.active == s.epoch && NothingFlies(s.tasks)
    case Dispatching(i, p, next) =>
      CommittedRound(c, s.epoch, s.records, s.commits, i, p, next) && s.active == s.epoch + 1
      && FliesCurrent(c.RoleIds(), s.tasks, s.active, p.trajectories)
    case Recovering => 1 <= s.epoch <= s.active
    case Finishing => 1 <= s.epoch <= s.active
    case Ended(_) => 1 <= s.epoch <= s.active
  }

  ghost function Initial(h: Hashes, c: Case, trajectories: map<RoleId, Sha>): Sha
    requires c.RoleIds() <= trajectories.Keys
  {
    h.initial(InitialHashes(c, trajectories))
  }

  /** What holds once the barrier has opened. */
  ghost predicate Books(h: Hashes, c: Case, trajectories: map<RoleId, Sha>, epoch: nat, records: seq<Record>,
                        commits: seq<Commit>, reservation: Sha)
  {
    && 1 <= epoch && trajectories.Keys == c.RoleIds()
    && RecordsInv(c, records, epoch - 1)
    && CommitsInv(c, Initial(h, c, trajectories), commits, epoch - 1, reservation)
  }

  ghost predicate Inv(h: Hashes, c: Case, s: Head) {
    && PhaseInv(c, s)
    && TasksInv(c.RoleIds(), s.tasks, s.active)
    && s.trajectories.Keys <= c.RoleIds()
    && (s.epoch != 0 ==> Books(h, c, s.trajectories, s.epoch, s.records, s.commits, s.reservation))
    && (s.phase.Registering? <==> s.epoch == 0)
  }

  // ----- preservation, one stretch of code at a time -----

  lemma InvSteppable(h: Hashes, c: Case, s: Head)
    requires Inv(h, c, s)
    ensures Steppable(c, s)
  {
  }

  /** The state between two events. */
  ghost predicate Between(h: Hashes, c: Case, s: Head, i: nat) {
    && s.epoch == s.active == i + 1 && |s.records| == |s.commits| == i <= |c.Events()|
    && FliesCurrent(c.RoleIds(), s.tasks, s.active, s.current)
    && TasksInv(c.RoleIds(), s.tasks, s.active)
    && Books(h, c, s.trajectories, s.epoch, s.records, s.commits, s.reservation)
  }

  /** An undispatched record for the next event keeps the books. */
  lemma RecordAdded(c: Case, records: seq<Record>, r: Record, done: nat)
    requires RecordsInv(c, records, done) && |records| == done < |c.Events()|
    requires r.eventId == c.Events()[done].id && r.execution != Some(Dispatched)
    ensures RecordsInv(c, records + [r], done)
  {
  }

  lemma MissKeepsInv(h: Hashes, c: Case, s: Head, i: nat)
    requires Between(h, c, s, i) && i < |c.Events()|
    ensures Inv(h, c, MissEvent(c, s, i))
  {
    RecordAdded(c, s.records, ShortRecord(c.Events()[i].id, NotInFlight, None), i);
  }

  lemma FallBackKeepsInv(h: Hashes, c: Case, s: Head, i: nat, sha: Option<string>)
    requires s.epoch == i + 1 <= s.active && |s.records| == i < |c.Events()|
    requires TasksInv(c.RoleIds(), s.tasks, s.active)
    requires Books(h, c, s.trajectories, s.epoch, s.records, s.commits, s.reservation)
    ensures Inv(h, c, FallBack(c, s, i, sha))
  {
    RecordAdded(c, s.records, ShortRecord(c.Events()[i].id, SafeFallbackTaken, sha), i);
  }

  lemma EnterKeepsInv(h: Hashes, c: Case, s: Head, i: nat)
    requires Between(h, c, s, i)
    ensures Inv(h, c, EnterEvent(c, s, i))
  {
    if i < |c.Events()| && AllDone(c, s) {
      MissKeepsInv(h, c, s, i);
    }
  }

  lemma {:induction false} StartedTasks(roles: seq<RoleId>, tasks: map<TaskId, Task>, epoch: nat, trajectories: map<RoleId, Sha>)
    requires (set r | r in roles) <= trajectories.Keys
    requires forall id :: id in tasks ==> id.epoch < epoch
    ensures var next := Started(roles, tasks, epoch, trajectories);
      && (forall r :: r in roles ==>
          TaskId(epoch, r) in next && next[TaskId(epoch, r)] == Task(trajectories[r], Running))
      && (forall id :: id in next && id !in tasks ==> id.epoch == epoch && id.role in roles)
      && (forall id :: id in tasks ==> id in next && next[id] == tasks[id])
  {
    if roles != [] {
      var last := |roles| - 1;
      StartedTasks(roles[..last], tasks, epoch, trajectories);
      assert roles == roles[..last] + [roles[last]];
    }
  }

  lemma WithTasksRuns(c: Case, tasks: map<TaskId, Task>, epoch: nat, trajectories: map<RoleId, Sha>)
    requires c.RoleIds() <= trajectories.Keys
    requires forall id :: id in tasks ==> id.epoch < epoch
    ensures var next := WithTasks(c, tasks, epoch, trajectories);
      && (forall r :: r in c.RoleIds() ==>
          TaskId(epoch, r) in next && next[TaskId(epoch, r)] == Task(trajectories[r], Running))
      && (forall id :: id in next && id !in tasks ==> id.epoch == epoch && id.role in c.RoleIds())
      && (forall id :: id in tasks ==> id in next && next[id] == tasks[id])
  {
    StartedTasks(c.roles, tasks, epoch, trajectories);
  }

  /** Starting an epoch: the old tasks have stopped, and the new ones are one for each role. */
  lemma LaunchKeepsTasks(roles: set<RoleId>, before: map<TaskId, Task>, tasks: map<TaskId, Task>, active: nat, epoch: nat,
                         trajectories: map<RoleId, Sha>)
    requires roles <= trajectories.Keys && epoch == active + 1
    requires TasksInv(roles, before, active) && NothingFlies(before)
    requires forall r :: r in roles ==> TaskId(epoch, r) in tasks && tasks[TaskId(epoch, r)] == Task(trajectories[r], Running)
    requires forall id :: id in tasks && id !in before ==> id.epoch == epoch && id.role in roles
    requires forall id :: id in before ==> id in tasks && tasks[id] == before[id]
    ensures TasksInv(roles, tasks, epoch)
    ensures FliesCurrent(roles, tasks, epoch, trajectories)
  {
  }

  lemma NewEpoch(c: Case, roles: set<RoleId>, tasks: map<TaskId, Task>, active: nat, epoch: nat, trajectories: map<RoleId, Sha>)
    requires roles == c.RoleIds() && roles <= trajectories.Keys && epoch == active + 1
    requires TasksInv(roles, tasks, active) && NothingFlies(tasks)
    ensures TasksInv(roles, WithTasks(c, tasks, epoch, trajectories), epoch)
    ensures FliesCurrent(roles, WithTasks(c, tasks, epoch, trajectories), epoch, trajectories)
  {
    WithTasksRuns(c, tasks, epoch, trajectories);
    LaunchKeepsTasks(roles, tasks, WithTasks(c, tasks, epoch, trajectories), active, epoch, trajectories);
  }

  lemma RegisteredKeepsInv(h: Hashes, c: Case, s: Head, role: RoleId, trajectoryRole: RoleId, trajectory: Sha)
    requires ValidCase(c) && Inv(h, c, s)
    ensures Inv(h, c, Registered(c, h, s, role, trajectoryRole, trajectory))
  {
    if Enabled(c) && role in c.RoleIds() && trajectoryRole == role && role !in s.trajectories {
      var trajectories := s.trajectories[role := trajectory];
      if trajectories.Keys == c.RoleIds() {
        NewEpoch(c, c.RoleIds(), s.tasks, 0, 1, trajectories);
        var started := Opened(c, h, s.(trajectories := trajectories));
        assert Between(h, c, started, 0);
        EnterKeepsInv(h, c, started, 0);
      }
    }
  }

  lemma EndingKeepsTasks(roles: set<RoleId>, tasks: map<TaskId, Task>, active: nat, on: map<RoleId, Sha>, id: TaskId,
                         status: TaskStatus)
    requires TasksInv(roles, tasks, active) && id in tasks && tasks[id].status == Running
    ensures TasksInv(roles, tasks[id := tasks[id].(status := status)], active)
    ensures FliesCurrent(roles, tasks, active, on) ==> FliesCurrent(roles, tasks[id := tasks[id].(status := status)], active, on)
  {
  }

  lemma EndsKeepsInv(h: Hashes, c: Case, s: Head, id: TaskId, status: TaskStatus)
    requires Inv(h, c, s)
    ensures Inv(h, c, Ends(s, id, status))
  {
    if id in s.tasks && s.tasks[id].status == Running {
      EndingKeepsTasks(c.RoleIds(), s.tasks, s.active, s.current, id, status);
      if s.phase.Dispatching? {
        EndingKeepsTasks(c.RoleIds(), s.tasks, s.active, s.phase.proposal.trajectories, id, status);
      }
    }
  }

  lemma SampledKeepsInv(h: Hashes, c: Case, s: Head, time: Option<real>)
    requires Inv(h, c, s) && Steppable(c, s)
    ensures Inv(h, c, Sampled(c, s, time))
  {
    if s.phase.Waiting? && time.Some? && AllDone(c, s) {
      MissKeepsInv(h, c, s, s.phase.i);
    }
  }

  lemma HoldKeepsInv(h: Hashes, c: Case, s: Head, role: RoleId, how: Await)
    requires Inv(h, c, s) && Steppable(c, s)
    ensures Inv(h, c, HoldReturned(c, s, role, how))
  {
    if s.phase.Holding? && role in c.RoleIds() && how.Caught? {
      FallBackKeepsInv(h, c, s, s.phase.i, None);
    }
  }

  lemma DrainKeepsInv(h: Hashes, c: Case, s: Head)
    requires Inv(h, c, s)
    ensures Inv(h, c, Drained(c, s))
  {
    if AllDone(c, s) {
      if s.phase.Draining? {
        ObservingKeepsInv(h, c, s, s.phase.i, s.phase.held);
      } else if s.phase.Recovering? {
        EndKeepsInv(h, c, s, Returned);
      } else if s.phase.Finishing? {
        EndKeepsInv(h, c, s, if ActiveFailure(c, s, true) then Raised else Returned);
      }
    }
  }

  lemma ObservingKeepsInv(h: Hashes, c: Case, s: Head, i: nat, held: set<RoleId>)
    requires RoundStart(c, s, i) && held == c.RoleIds() && AllDone(c, s)
    requires TasksInv(c.RoleIds(), s.tasks, s.active) && s.trajectories.Keys <= c.RoleIds()
    requires Books(h, c, s.trajectories, s.epoch, s.records, s.commits, s.reservation)
    ensures Inv(h, c, StartObserving(s, i, held))
  {
    NoneLeftFlying(c, s);
  }

  lemma NoneLeftFlying(c: Case, s: Head)
    requires TasksInv(c.RoleIds(), s.tasks, s.active) && AllDone(c, s)
    ensures NothingFlies(s.tasks)
  {
    forall id | id in s.tasks
      ensures s.tasks[id].status != Running
    {
      assert id.epoch == s.active ==> TaskId(s.active, id.role) == id;
    }
  }

  lemma AllUsableRoles(samples: map<RoleId, Sample>)
    ensures AllUsable(samples) <==> UsableRoles(samples) == samples.Keys
  {
    if UsableRoles(samples) == samples.Keys {
      forall r | r in samples ensures samples[r].Usable() {
        assert r in UsableRoles(samples);
      }
    }
  }

  lemma SamplesKeepInv(h: Hashes, c: Case, s: Head, samples: map<RoleId, Sample>)
    requires Inv(h, c, s) && s.phase.Observing?
    ensures Inv(h, c, s.(phase := Observing(s.phase.i, s.phase.held, samples)))
    ensures samples.Keys == UsableRoles(samples) == c.RoleIds() ==>
      Inv(h, c, s.(phase := Planning(s.phase.i, s.phase.held, samples)))
  {
  }

  lemma ObservationKeepsInv(h: Hashes, c: Case, s: Head, role: RoleId, how: Await, sample: Sample)
    requires Inv(h, c, s) && Steppable(c, s)
    ensures Inv(h, c, ObservationReturned(c, s, role, how, sample))
  {
    if s.phase.Observing? && role in c.RoleIds() {
      FallBackKeepsInv(h, c, s, s.phase.i, None);
      EndKeepsInv(h, c, s, Raised);
      SamplesKeepInv(h, c, s, s.phase.samples[role := sample]);
      AllUsableRoles(s.phase.samples[role := sample]);
    }
  }

  lemma {:induction false} AllValidated(results: seq<Await>)
    requires Validation(results) == Done
    ensures forall i :: 0 <= i < |results| ==> results[i] == Done
  {
    if results != [] { AllValidated(results[1..]); }
  }

  lemma ValidatedIsEveryRole(c: Case, results: seq<Await>)
    requires |results| == |c.roles| && Validation(results) == Done
    ensures ValidatedRoles(c, results) == c.RoleIds()
  {
    AllValidated(results);
    forall r | r in c.RoleIds() ensures r in ValidatedRoles(c, results) {
      var i :| 0 <= i < |c.roles| && c.roles[i] == r;
      assert results[i] == Done;
    }
  }

  lemma NoTaskFlying(tasks: map<TaskId, Task>)
    requires NothingFlies(tasks)
    ensures Flying(tasks) == {}
  {
  }

  lemma CommitKeepsInv(h: Hashes, c: Case, s: Head, p: Proposal, validated: set<RoleId>, latency: real)
    requires Inv(h, c, s) && s.phase.Planning? && CoversRoles(c, p) && validated == c.RoleIds()
    ensures Inv(h, c, Committed(c, h, s, p, validated, latency))
  {
    var i := s.phase.i;
    var call := CommitCall(c, s, c.Events()[i], s.phase.samples, p, latency);
    var (coordinator, result) := Decide(c.limits, h.reservation, s.coordinator, call);
    DecisionFacts(c.limits, h.reservation, s.coordinator, call);
    NoTaskFlying(s.tasks);
    var log := Commit(c.Events()[i].id, s.epoch, s.reservation, c.RoleIds(), c.RoleIds(), s.phase.held,
                      UsableRoles(s.phase.samples), validated, Flying(s.tasks),
                      if result.Success? then result.value.epoch else None);
    CommitLogged(c, Initial(h, c, s.trajectories), s.commits, i, s.reservation, log);
    var asked := s.(coordinator := coordinator, commits := s.commits + [log]);
    match result
    case Failure(_) => FallBackKeepsInv(h, c, asked, i, Some(p.sha));
    case Success(d) => DecidedKeepsInv(h, c, asked, i, p, d);
  }

  lemma PreparedByCommit(h: Hashes, c: Case, p: Proposal, d: Decision)
    requires CoversRoles(c, p) && d.disposition.Accepted?
    ensures Prepared(c, CommittedRecord(c, h, p, d))
  {
  }

  lemma DecidedKeepsInv(h: Hashes, c: Case, asked: Head, i: nat, p: Proposal, d: Decision)
    requires asked.epoch == asked.active == i + 1 && |asked.records| == i < |c.Events()| && |asked.commits| == i + 1
    requires asked.commits[i].epoch == d.epoch && CoversRoles(c, p)
    requires TasksInv(c.RoleIds(), asked.tasks, asked.active) && NothingFlies(asked.tasks)
    requires Books(h, c, asked.trajectories, asked.epoch, asked.records, asked.commits, asked.reservation)
    requires d.eventId == c.Events()[i].id && (d.epoch.Some? ==> d.disposition.Accepted?)
    ensures Inv(h, c, asked.(records := asked.records + [CommittedRecord(c, h, p, d)],
      phase := if d.epoch.Some? then Advancing(i, p, d.epoch.value, {}) else Ended(Returned)))
  {
    RecordAdded(c, asked.records, CommittedRecord(c, h, p, d), i);
    if d.epoch.Some? { PreparedByCommit(h, c, p, d); }
  }

  lemma {:induction false} LatestCaptureIsLatest(roles: seq<RoleId>, samples: map<RoleId, Sample>)
    requires roles != [] && forall r :: r in roles ==> r in samples
    ensures forall r :: r in roles ==> samples[r].sourceTime <= LatestCapture(roles, samples)
    ensures exists r :: r in roles && samples[r].sourceTime == LatestCapture(roles, samples)
  {
    if 1 < |roles| {
      LatestCaptureIsLatest(roles[1..], samples);
      assert roles == [roles[0]] + roles[1..];
      var r :| r in roles[1..] && samples[r].sourceTime == LatestCapture(roles[1..], samples);
      assert roles[0] in roles && r in roles;
    } else {
      assert roles[0] in roles;
    }
  }

  /** When the fleet was last seen, but not before the trigger. */
  ghost function SeenAt(c: Case, e: ScenarioEvent, samples: map<RoleId, Sample>): real {
    Max(e.trigger, LatestCapture(c.roles, samples))
  }

  /** The commit is in time: seen freshly, planned within the budget, and planning, acknowledgement and guard end before the
      event takes effect. */
  ghost predicate Prompt(c: Case, e: ScenarioEvent, samples: map<RoleId, Sample>, p: Proposal, latency: real) {
    var seen := SeenAt(c, e, samples);
    && seen - e.trigger <= c.limits.freshness && p.planningLatency <= c.limits.planningBudget
    && seen + p.planningLatency + latency + 0.1 <= e.trigger + e.duration + 1e-9
    && LatestCapture(c.roles, samples) + latency + 0.1 <= e.trigger + e.duration + 1e-9
  }

  /** What an accepted commit of the head guarantees about its round: it is prompt; the cutover is the later of planning,
      acknowledgement and guard after the fleet was seen and of acknowledgement and guard after the last capture; it
      continues the epoch and the reservation in force; and it moves every role from its current trajectory to the proposed
      one. */
  ghost predicate InTimeAndWhole(c: Case, s: Head, p: Proposal, latency: real, ep: Epoch)
    requires s.phase.Planning? && s.phase.i < |c.Events()| && CoversRoles(c, p)
  {
    var e := c.Events()[s.phase.i];
    var reacted := SeenAt(c, e, s.phase.samples) + p.planningLatency + latency + 0.1;
    var decided := LatestCapture(c.roles, s.phase.samples) + latency + 0.1;
    && e.authenticated && Prompt(c, e, s.phase.samples, p, latency)
    && reacted <= ep.cutover && decided <= ep.cutover && (ep.cutover == reacted || ep.cutover == decided)
    && ep.number == s.epoch + 1 && ep.oldReservation == s.reservation
    && RoleSet(ep.replacements) == c.RoleIds() && DistinctRoles(ep.replacements)
    && forall i :: 0 <= i < |ep.replacements| ==> ReplacesCurrent(c, s, p, ep.replacements[i])
  }

  ghost predicate ReplacesCurrent(c: Case, s: Head, p: Proposal, x: Replacement)
    requires CoversRoles(c, p)
  {
    && x.role in c.RoleIds() && x.trajectory == p.trajectories[x.role]
    && (x.role in s.current ==> x.oldTrajectory == s.current[x.role])
  }

  lemma PromptCall(c: Case, s: Head, e: ScenarioEvent, p: Proposal, latency: real)
    requires s.phase.Planning? && CoversRoles(c, p)
    ensures InTime(c.limits, CommitCall(c, s, e, s.phase.samples, p, latency)) <==> Prompt(c, e, s.phase.samples, p, latency)
  {
    hide LatestCapture;
  }

  lemma AcceptedCommitInTime(h: Hashes, c: Case, s: Head, p: Proposal, validated: set<RoleId>, latency: real)
    requires s.phase.Planning? && s.phase.i < |c.Events()| && CoversRoles(c, p)
    ensures var next := Committed(c, h, s, p, validated, latency);
      next.phase.Advancing? ==> InTimeAndWhole(c, s, p, latency, next.phase.next)
  {
    hide Decide, LatestCapture, Flying, UsableRoles, CommittedRecord, InTime, Prompt;
    var call := CommitCall(c, s, c.Events()[s.phase.i], s.phase.samples, p, latency);
    var result := Decide(c.limits, h.reservation, s.coordinator, call).1;
    AllOrNothing(c.limits, h.reservation, s.coordinator, call);
    if IsAccepted(result) {
      PromptCall(c, s, c.Events()[s.phase.i], p, latency);
      CoversIff(call);
      var ep := result.value.epoch.value;
      forall i | 0 <= i < |ep.replacements| ensures ReplacesCurrent(c, s, p, ep.replacements[i]) {
        assert c.roles[i] in c.RoleIds();
      }
    }
  }

  /** What the coordinator needs of a commit call of the head that is not about time: a first decision on this event, a fresh
      sequence number, authentication, and the case's own authority. */
  ghost predicate Committable(c: Case, coordinator: CoordinatorState, e: ScenarioEvent) {
    && e.id !in coordinator.decisions && e.authenticated && c.limits.authority.AutoWithinFrozenLimits?
    && 0 < e.sequence && (e.sourceId in coordinator.latest ==> coordinator.latest[e.sourceId] < e.sequence)
  }

  ghost predicate NoNegativeTimes(c: Case, samples: map<RoleId, Sample>, p: Proposal, latency: real) {
    0.0 <= LatestCapture(c.roles, samples) && 0.0 <= p.planningLatency && 0.0 <= latency
  }

  lemma CallIsWhole(c: Case, s: Head, e: ScenarioEvent, p: Proposal, latency: real)
    requires ValidCase(c) && c.roles != [] && s.phase.Planning? && CoversRoles(c, p)
    ensures var call := CommitCall(c, s, e, s.phase.samples, p, latency);
      CoversAffected(call) && SoundRoles(c.limits, call) && AllAcknowledged(call)
  {
    hide LatestCapture;
    var call := CommitCall(c, s, e, s.phase.samples, p, latency);
    forall i | 0 <= i < |c.roles| ensures c.roles[i] in c.RoleIds() && call.replacements[i].role == c.roles[i] {
    }
    forall r | r in call.event.affected ensures exists i :: 0 <= i < |call.replacements| && call.replacements[i].role == r {
      var i :| 0 <= i < |c.roles| && c.roles[i] == r;
      assert call.replacements[i].role == r;
    }
  }

  /** Exactly when the head's commit is accepted. */
  lemma CommitAcceptedIff(h: Hashes, c: Case, s: Head, p: Proposal, validated: set<RoleId>, latency: real)
    requires ValidCase(c) && c.roles != [] && s.phase.Planning? && s.phase.i < |c.Events()| && CoversRoles(c, p)
    requires 0.0 < c.Events()[s.phase.i].trigger && 0.0 < c.Events()[s.phase.i].duration
    ensures Committed(c, h, s, p, validated, latency).phase.Advancing? <==>
      && Committable(c, s.coordinator, c.Events()[s.phase.i]) && NoNegativeTimes(c, s.phase.samples, p, latency)
      && Prompt(c, c.Events()[s.phase.i], s.phase.samples, p, latency)
  {
    hide Decide, LatestCapture, Flying, UsableRoles, CommittedRecord, InTime, Prompt, CoversAffected, SoundRoles, AllAcknowledged,
         Case.Events, ValidCase;
    var e := c.Events()[s.phase.i];
    var call := CommitCall(c, s, e, s.phase.samples, p, latency);
    AllOrNothing(c.limits, h.reservation, s.coordinator, call);
    AcceptedIff(c.limits, h.reservation, s.coordinator, call);
    PromptCall(c, s, e, p, latency);
    CallIsWhole(c, s, e, p, latency);
  }

  lemma DecisionFacts(limits: CaseLimits, hash: ReservationHash, s: CoordinatorState, c: Call)
    ensures var r := Decide(limits, hash, s, c).1;
      r.Success? ==> r.value.eventId == c.event.id && (r.value.epoch.Some? ==> r.value.disposition.Accepted?)
  {
    AllOrNothing(limits, hash, s, c);
    DecisionNamesEvent(limits, hash, s, c);
  }

  lemma DecisionNamesEvent(limits: CaseLimits, hash: ReservationHash, s: CoordinatorState, c: Call)
    ensures var r := Decide(limits, hash, s, c).1; r.Success? ==> r.value.eventId == c.event.id
  {
  }

  /** Extending the log leaves the reservations of the commits before it as they were. */
  lemma ReservationUnmoved(initial: Sha, commits: seq<Commit>, log: Commit, n: nat)
    requires n <= |commits| && (n == 0 || commits[n - 1].epoch.Some?)
    ensures n == 0 || (commits + [log])[n - 1].epoch.Some?
    ensures ReservationAfter(initial, commits + [log], n) == ReservationAfter(initial, commits, n)
  {
    if 0 < n { assert (commits + [log])[n - 1] == commits[n - 1]; }
  }

  lemma ChainExtends(roles: set<RoleId>, events: seq<ScenarioEvent>, initial: Sha, commits: seq<Commit>, log: Commit)
    requires CommitsChain(roles, events, initial, commits) && |commits| < |events|
    requires forall n :: 0 <= n < |commits| ==> commits[n].epoch.Some?
    requires CommitAt(roles, events[|commits|], log, |commits|)
    requires log.oldReservation == ReservationAfter(initial, commits, |commits|)
    ensures CommitsChain(roles, events, initial, commits + [log])
  {
    var more := commits + [log];
    forall n | 0 <= n < |more|
      ensures Chained(initial, more, n)
    {
      assert n < |commits| ==> Chained(initial, commits, n);
      ReservationUnmoved(initial, commits, log, n);
    }
  }

  lemma CommitLogged(c: Case, initial: Sha, commits: seq<Commit>, i: nat, reservation: Sha, log: Commit)
    requires |commits| == i < |c.Events()| && CommitsInv(c, initial, commits, i, reservation)
    requires TruthfulCommit(c.RoleIds(), log) && log.eventId == c.Events()[i].id
    requires log.oldEpoch == i + 1 && log.oldReservation == reservation
    ensures CommitsInv(c, initial, commits + [log], i, reservation)
  {
    ChainExtends(c.RoleIds(), c.Events(), initial, commits, log);
    ReservationUnmoved(initial, commits, log, i);
  }

  lemma PlanKeepsInv(h: Hashes, c: Case, s: Head, outcome: PlanOutcome, validation: seq<Await>, latency: real)
    requires Inv(h, c, s) && Steppable(c, s)
    ensures Inv(h, c, PlanReturned(c, h, s, outcome, validation, latency))
  {
    hide Committed, FallBack, Validation, ValidatedRoles, CommitsInv, RecordsInv, TasksInv, FliesCurrent;
    if s.phase.Planning? && |validation| == |c.roles| {
      FallBackKeepsInv(h, c, s, s.phase.i, None);
      if outcome.Proposed? && CoversRoles(c, outcome.p) {
        FallBackKeepsInv(h, c, s, s.phase.i, Some(outcome.p.sha));
        if Validation(validation) == Done {
          ValidatedIsEveryRole(c, validation);
          CommitKeepsInv(h, c, s, outcome.p, ValidatedRoles(c, validation), latency);
        }
      }
    }
  }

  lemma AdvanceKeepsInv(h: Hashes, c: Case, s: Head, role: RoleId, how: Await)
    requires Inv(h, c, s) && Steppable(c, s)
    ensures Inv(h, c, AdvanceReturned(c, s, role, how))
  {
    if s.phase.Advancing? && role in c.RoleIds() {
      match how
      case Uncaught =>
        assert AdvanceReturned(c, s, role, how) == End(s, Raised);
        EndKeepsInv(h, c, s, Raised);
      case Caught =>
        assert AdvanceReturned(c, s, role, how) == End(s.(records := Annotated(s, PostCommitSafeFallback)), Returned);
        FailedAdvanceKeepsInv(h, c, s);
      case Done =>
        if s.phase.arrived + {role} == c.RoleIds() {
          assert AdvanceReturned(c, s, role, how) == Launched(c, s);
          LaunchKeepsInv(h, c, s);
        } else {
          assert AdvanceReturned(c, s, role, how) == WithArrived(s, s.phase.arrived + {role});
          ArrivalKeepsInv(h, c, s, s.phase.arrived + {role});
        }
    }
  }

  lemma EndKeepsInv(h: Hashes, c: Case, s: Head, ending: Ending)
    requires 1 <= s.epoch <= s.active
    requires TasksInv(c.RoleIds(), s.tasks, s.active)
    requires Books(h, c, s.trajectories, s.epoch, s.records, s.commits, s.reservation)
    ensures Inv(h, c, End(s, ending))
  {
  }

  lemma FailedAdvanceKeepsInv(h: Hashes, c: Case, s: Head)
    requires 1 <= s.epoch <= s.active && |s.records| == s.epoch
    requires TasksInv(c.RoleIds(), s.tasks, s.active)
    requires Books(h, c, s.trajectories, s.epoch, s.records, s.commits, s.reservation)
    ensures Inv(h, c, End(s.(records := Annotated(s, PostCommitSafeFallback)), Returned))
  {
    AnnotationKeepsRecords(c, s, PostCommitSafeFallback, s.epoch - 1);
  }

  lemma ArrivalKeepsInv(h: Hashes, c: Case, s: Head, arrived: set<RoleId>)
    requires Inv(h, c, s) && s.phase.Advancing?
    ensures Inv(h, c, WithArrived(s, arrived))
  {
  }

  lemma LaunchedTasks(c: Case, s: Head)
    requires s.phase.Advancing? && CoversRoles(c, s.phase.proposal)
    requires TasksInv(c.RoleIds(), s.tasks, s.active) && s.active == s.epoch && NothingFlies(s.tasks)
    ensures TasksInv(c.RoleIds(), Launched(c, s).tasks, s.epoch + 1)
    ensures FliesCurrent(c.RoleIds(), Launched(c, s).tasks, s.epoch + 1, s.phase.proposal.trajectories)
  {
    NewEpoch(c, c.RoleIds(), s.tasks, s.active, s.epoch + 1, s.phase.proposal.trajectories);
  }

  lemma LaunchKeepsInv(h: Hashes, c: Case, s: Head)
    requires s.phase.Advancing? && CommittedRound(c, s.epoch, s.records, s.commits, s.phase.i, s.phase.proposal, s.phase.next)
    requires Books(h, c, s.trajectories, s.epoch, s.records, s.commits, s.reservation)
    requires TasksInv(c.RoleIds(), s.tasks, s.active) && s.active == s.epoch && NothingFlies(s.tasks)
    ensures Inv(h, c, Launched(c, s))
  {
    LaunchedTasks(c, s);
    LaunchedKeepsInv(h, c, s, Launched(c, s));
  }

  lemma LaunchedKeepsInv(h: Hashes, c: Case, s: Head, next: Head)
    requires s.phase.Advancing? && CommittedRound(c, s.epoch, s.records, s.commits, s.phase.i, s.phase.proposal, s.phase.next)
    requires Books(h, c, s.trajectories, s.epoch, s.records, s.commits, s.reservation)
    requires TasksInv(c.RoleIds(), next.tasks, s.epoch + 1)
    requires FliesCurrent(c.RoleIds(), next.tasks, s.epoch + 1, s.phase.proposal.trajectories)
    requires next == s.(tasks := next.tasks, active := s.epoch + 1,
                        phase := Dispatching(s.phase.i, s.phase.proposal, s.phase.next))
    ensures Inv(h, c, next)
  {
  }

  lemma DispatchRecorded(c: Case, records: seq<Record>, record: Record, done: nat)
    requires RecordsInv(c, records, done) && |records| == done + 1
    requires record.eventId == records[done].eventId && Delivered(c, record)
    ensures RecordsInv(c, records[done := record], done + 1)
  {
  }

  lemma AnnotationKeepsRecords(c: Case, s: Head, how: ExecutionDisposition, done: nat)
    requires RecordsInv(c, s.records, done) && |s.records| == done + 1 && how != Dispatched
    ensures RecordsInv(c, Annotated(s, how), done)
  {
  }

  lemma ReservationMoves(c: Case, initial: Sha, commits: seq<Commit>, done: nat, reservation: Sha, next: Epoch)
    requires CommitsInv(c, initial, commits, done, reservation)
    requires |commits| == done + 1 && commits[done].epoch == Some(next)
    ensures CommitsInv(c, initial, commits, done + 1, next.reservation)
  {
  }

  lemma RecoveryKeepsInv(h: Hashes, c: Case, s: Head)
    requires 1 <= s.epoch <= s.active && |s.records| == s.epoch
    requires TasksInv(c.RoleIds(), s.tasks, s.active)
    requires Books(h, c, s.trajectories, s.epoch, s.records, s.commits, s.reservation)
    ensures Inv(h, c, s.(records := Annotated(s, PostCommitSafeFallback), phase := Recovering))
  {
    AnnotationKeepsRecords(c, s, PostCommitSafeFallback, s.epoch - 1);
  }

  lemma ReplacedKeepsBooks(h: Hashes, c: Case, s: Head)
    requires s.phase.Dispatching? && CommittedRound(c, s.epoch, s.records, s.commits, s.phase.i, s.phase.proposal, s.phase.next)
    requires Books(h, c, s.trajectories, s.epoch, s.records, s.commits, s.reservation)
    ensures var next := Replaced(c, s);
      Books(h, c, next.trajectories, next.epoch, next.records, next.commits, next.reservation)
  {
    var i := s.phase.i;
    DispatchRecorded(c, s.records, Replaced(c, s).records[i], i);
    ReservationMoves(c, Initial(h, c, s.trajectories), s.commits, i, s.reservation, s.phase.next);
  }

  lemma ReplacedKeepsInv(h: Hashes, c: Case, s: Head)
    requires s.phase.Dispatching? && CommittedRound(c, s.epoch, s.records, s.commits, s.phase.i, s.phase.proposal, s.phase.next)
    requires Books(h, c, s.trajectories, s.epoch, s.records, s.commits, s.reservation)
    requires s.active == s.epoch + 1 && TasksInv(c.RoleIds(), s.tasks, s.active)
    requires FliesCurrent(c.RoleIds(), s.tasks, s.active, s.phase.proposal.trajectories)
    ensures Inv(h, c, EnterEvent(c, Replaced(c, s), s.phase.i + 1))
  {
    ReplacedKeepsBooks(h, c, s);
    EnterKeepsInv(h, c, Replaced(c, s), s.phase.i + 1);
  }

  lemma YieldKeepsInv(h: Hashes, c: Case, s: Head)
    requires Inv(h, c, s) && Steppable(c, s)
    ensures Inv(h, c, Yielded(c, s))
  {
    if s.phase.Dispatching? {
      if ActiveFailure(c, s, false) {
        RecoveryKeepsInv(h, c, s);
      } else {
        assert Yielded(c, s) == EnterEvent(c, Replaced(c, s), s.phase.i + 1);
        ReplacedKeepsInv(h, c, s);
      }
    }
  }

  lemma InterruptKeepsInv(h: Hashes, c: Case, s: Head)
    requires Inv(h, c, s)
    ensures Inv(h, c, Interrupted(s))
  {
    if !s.phase.Registering? && !s.phase.Ended? { EndKeepsInv(h, c, s, Raised); }
  }

  lemma StepKeepsInv(h: Hashes, c: Case, s: Head, a: Action)
    requires ValidCase(c) && Inv(h, c, s) && Steppable(c, s)
    ensures Inv(h, c, Step(c, h, s, a))
  {
    hide Inv, Steppable, Registered, Ends, Sampled, HoldReturned, Drained, ObservationReturned, PlanReturned, AdvanceReturned,
         Yielded, Interrupted;
    match a
    case Register(role, trajectoryRole, trajectory) => RegisteredKeepsInv(h, c, s, role, trajectoryRole, trajectory);
    case TaskEnds(id, status) => EndsKeepsInv(h, c, s, id, status);
    case SourceSampled(time) => SampledKeepsInv(h, c, s, time);
    case HoldReturns(role, how) => HoldKeepsInv(h, c, s, role, how);
    case TasksDrained => DrainKeepsInv(h, c, s);
    case ObservationReturns(role, how, sample) => ObservationKeepsInv(h, c, s, role, how, sample);
    case PlanReturns(outcome, validation, latency) => PlanKeepsInv(h, c, s, outcome, validation, latency);
    case AdvanceReturns(role, how) => AdvanceKeepsInv(h, c, s, role, how);
    case LoopYields => YieldKeepsInv(h, c, s);
    case OrchestratorCancelled => InterruptKeepsInv(h, c, s);
  }

  // ----- every run -----

  /** A run visits a sequence of states, each reached from the one before it by some action. */
  ghost predicate IsRun(h: Hashes, c: Case, unset: Sha, states: seq<Head>, actions: seq<Action>) {
    && |states| == |actions| + 1
    && states[0] == InitialHead(unset)
    && forall k :: 0 <= k < |actions| ==> Follows(h, c, states, actions, k)
  }

  ghost predicate Follows(h: Hashes, c: Case, states: seq<Head>, actions: seq<Action>, k: nat)
    requires |states| == |actions| + 1 && k < |actions|
  {
    Steppable(c, states[k]) && states[k + 1] == Step(c, h, states[k], actions[k])
  }

  lemma {:induction false} ReachableInv(h: Hashes, c: Case, unset: Sha, states: seq<Head>, actions: seq<Action>, k: nat)
    requires ValidCase(c) && IsRun(h, c, unset, states, actions) && k < |states|
    ensures Inv(h, c, states[k])
  {
    if 0 < k {
      ReachableInv(h, c, unset, states, actions, k - 1);
      assert Follows(h, c, states, actions, k - 1);
      StepKeepsInv(h, c, states[k - 1], actions[k - 1]);
    }
  }

  /** No interleaving and no failure stops the model: every reachable state can take every action. */
  lemma EveryActionSteps(h: Hashes, c: Case, unset: Sha, states: seq<Head>, actions: seq<Action>, k: nat)
    requires ValidCase(c) && IsRun(h, c, unset, states, actions) && k < |states|
    ensures Steppable(c, states[k])
  {
    ReachableInv(h, c, unset, states, actions, k);
    InvSteppable(h, c, states[k]);
  }

  /** Once a task of a later epoch exists, every task of an earlier one has finished. */
  ghost predicate OldTasksFinished(tasks: map<TaskId, Task>) {
    forall old', new' :: old' in tasks && new' in tasks && old'.epoch < new'.epoch ==> tasks[old'].status != Running
  }

  /** In every state of every run all live trajectory tasks belong to one epoch, no task of a later epoch exists while
      one of an earlier epoch runs, what the coordinator was told is true and chained, and the records follow the events. */
  lemma EveryRunIsSafe(h: Hashes, c: Case, unset: Sha, states: seq<Head>, actions: seq<Action>, k: nat)
    requires ValidCase(c) && IsRun(h, c, unset, states, actions) && k < |states|
    ensures SingleEpoch(states[k].tasks, states[k].active) && OldTasksFinished(states[k].tasks)
    ensures RecordsFollow(c.Events(), states[k].records)
    ensures states[k].commits != [] ==> (
      && c.RoleIds() <= states[k].trajectories.Keys
      && CommitsChain(c.RoleIds(), c.Events(), Initial(h, c, states[k].trajectories), states[k].commits))
  {
    ReachableInv(h, c, unset, states, actions, k);
  }
}
