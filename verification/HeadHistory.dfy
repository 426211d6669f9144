/** What a run must contain before the head may claim it: every acknowledgement it reports to the
    coordinator, and every epoch it starts, goes back to events of that very round. */
module HeadHistory {
  import opened Wrappers
  import opened Roles
  import opened Replanning
  import opened HeadProtocol
  import opened HeadSafety

  // ----- what a step adds -----

  /** The round a phase belongs to, if it handles an event. */
  ghost predicate InRound(p: Phase, i: nat) {
    (p.Waiting? || p.Holding? || p.Draining? || p.Observing? || p.Planning? || p.Advancing? || p.Dispatching?) && p.i == i
  }

  ghost predicate PastTrigger(p: Phase) { p.Holding? || p.Draining? || p.Observing? || p.Planning? }

  ghost function HeldOf(p: Phase): set<RoleId> {
    if PastTrigger(p) then p.held else {}
  }

  ghost function SamplesOf(p: Phase): map<RoleId, Sample> {
    if p.Observing? || p.Planning? then p.samples else map[]
  }

  ghost function ArrivedOf(p: Phase): set<RoleId> {
    if p.Advancing? then p.arrived else {}
  }

  /** No acknowledgement is being collected. */
  ghost predicate Quiet(p: Phase) { !PastTrigger(p) && !p.Advancing? }

  // The ways a step can move the orchestrator.

  ghost predicate Stays(s: Head, n: Head) {
    n.phase == s.phase && n.commits == s.commits && n.active == s.active
  }

  ghost predicate TurnsQuiet(s: Head, n: Head) {
    Quiet(n.phase) && n.commits == s.commits && (n.active == s.active || (s.active == 0 && n.active == 1))
  }

  /** Past the trigger: a sample at or after the trigger time while a task is running. */
  ghost predicate Triggers(c: Case, s: Head, a: Action, n: Head) {
    && s.phase.Waiting? && s.phase.i < |c.Events()| && a.SourceSampled? && a.time.Some?
    && c.Events()[s.phase.i].trigger <= a.time.value && !AllDone(c, s)
    && n.phase == Holding(s.phase.i, {}) && n.commits == s.commits && n.active == s.active
  }

  ghost predicate Holds(s: Head, a: Action, n: Head) {
    && s.phase.Holding? && a.HoldReturns? && a.how.Done? && (n.phase.Holding? || n.phase.Draining?)
    && n.phase.i == s.phase.i && n.phase.held == s.phase.held + {a.role} && n.commits == s.commits && n.active == s.active
  }

  ghost predicate StartsObserving(s: Head, n: Head) {
    s.phase.Draining? && n.phase == Observing(s.phase.i, s.phase.held, map[]) && n.commits == s.commits && n.active == s.active
  }

  ghost predicate Observes(s: Head, a: Action, n: Head) {
    && s.phase.Observing? && a.ObservationReturns? && a.how.Done? && (n.phase.Observing? || n.phase.Planning?)
    && n.phase.i == s.phase.i && n.phase.held == s.phase.held && n.phase.samples == s.phase.samples[a.role := a.sample]
    && n.commits == s.commits && n.active == s.active
  }

  ghost predicate Logs(c: Case, s: Head, a: Action, n: Head) {
    && s.phase.Planning? && a.PlanReturns? && |a.validation| == |c.roles|
    && |n.commits| == |s.commits| + 1 && n.commits[..|s.commits|] == s.commits
    && n.commits[|s.commits|].held == s.phase.held
    && n.commits[|s.commits|].observed == UsableRoles(s.phase.samples)
    && n.commits[|s.commits|].validated == ValidatedRoles(c, a.validation)
    && !PastTrigger(n.phase) && (n.phase.Advancing? ==> n.phase.i == s.phase.i && n.phase.arrived == {})
    && n.active == s.active
  }

  ghost predicate Arrives(s: Head, a: Action, n: Head) {
    && s.phase.Advancing? && a.AdvanceReturns? && a.how.Done? && n.phase.Advancing? && n.phase.i == s.phase.i
    && n.phase.arrived == s.phase.arrived + {a.role} && n.commits == s.commits && n.active == s.active
  }

  ghost predicate Launches(c: Case, s: Head, a: Action, n: Head) {
    && s.phase.Advancing? && a.AdvanceReturns? && a.how.Done? && s.phase.arrived + {a.role} == c.RoleIds()
    && Quiet(n.phase) && n.commits == s.commits && n.active == s.epoch + 1
  }

  ghost predicate Moves(c: Case, s: Head, a: Action, n: Head) {
    || Stays(s, n) || TurnsQuiet(s, n) || Triggers(c, s, a, n) || Holds(s, a, n) || StartsObserving(s, n)
    || Observes(s, a, n) || Logs(c, s, a, n) || Arrives(s, a, n) || Launches(c, s, a, n)
  }

  lemma EnterMoves(c: Case, s: Head, i: nat)
    requires i <= |c.Events()|
    ensures Quiet(EnterEvent(c, s, i).phase)
    ensures EnterEvent(c, s, i).commits == s.commits && EnterEvent(c, s, i).active == s.active
  {
  }

  lemma RegisterMoves(h: Hashes, c: Case, s: Head, role: RoleId, trajectoryRole: RoleId, trajectory: Sha)
    requires Inv(h, c, s)
    ensures Moves(c, s, Register(role, trajectoryRole, trajectory), Registered(c, h, s, role, trajectoryRole, trajectory))
  {
    var n := Registered(c, h, s, role, trajectoryRole, trajectory);
    if s.epoch == 0 && s.trajectories[role := trajectory].Keys == c.RoleIds() {
      EnterMoves(c, Opened(c, h, s.(trajectories := s.trajectories[role := trajectory])), 0);
      hide EnterEvent, RecordsInv, CommitsInv, TasksInv, WithTasks, InitialHashes;
      assert TurnsQuiet(s, n) || Stays(s, n);
    } else {
      assert Stays(s, n);
    }
  }

  lemma SampleMoves(c: Case, s: Head, time: Option<real>)
    requires Steppable(c, s)
    ensures Moves(c, s, SourceSampled(time), Sampled(c, s, time))
  {
  }

  lemma HoldMoves(c: Case, s: Head, role: RoleId, how: Await)
    requires Steppable(c, s)
    ensures Moves(c, s, HoldReturns(role, how), HoldReturned(c, s, role, how))
  {
  }

  lemma DrainMoves(c: Case, s: Head)
    ensures Moves(c, s, TasksDrained, Drained(c, s))
  {
    hide ActiveFailure;
  }

  lemma ObservationMoves(c: Case, s: Head, role: RoleId, how: Await, sample: Sample)
    requires Steppable(c, s)
    ensures Moves(c, s, ObservationReturns(role, how, sample), ObservationReturned(c, s, role, how, sample))
  {
    hide AllUsable;
  }

  lemma PlanMoves(c: Case, h: Hashes, s: Head, outcome: PlanOutcome, validation: seq<Await>, latency: real)
    requires Steppable(c, s)
    ensures Moves(c, s, PlanReturns(outcome, validation, latency), PlanReturned(c, h, s, outcome, validation, latency))
  {
    hide Decide, CommitCall, CommittedRecord, ValidatedRoles, Validation, UsableRoles, Flying;
    var a, n := PlanReturns(outcome, validation, latency), PlanReturned(c, h, s, outcome, validation, latency);
    if s.phase.Planning? && |validation| == |c.roles| && outcome.Proposed? && CoversRoles(c, outcome.p)
      && Validation(validation) == Done {
      assert Logs(c, s, a, n);
    } else {
      assert Stays(s, n) || TurnsQuiet(s, n);
    }
  }

  lemma AdvanceMoves(c: Case, s: Head, role: RoleId, how: Await)
    requires Steppable(c, s)
    ensures Moves(c, s, AdvanceReturns(role, how), AdvanceReturned(c, s, role, how))
  {
    hide WithTasks;
  }

  lemma YieldMoves(c: Case, s: Head)
    requires Steppable(c, s)
    ensures Moves(c, s, LoopYields, Yielded(c, s))
  {
    if s.phase.Dispatching? && !ActiveFailure(c, s, false) {
      EnterMoves(c, Replaced(c, s), s.phase.i + 1);
    }
    hide EnterEvent, ActiveFailure;
  }

  /** Every step, whatever its outcome, is one of these moves. */
  lemma StepMoves(h: Hashes, c: Case, s: Head, a: Action)
    requires Inv(h, c, s) && Steppable(c, s)
    ensures Moves(c, s, a, Step(c, h, s, a))
  {
    hide Moves, Inv;
    match a
    case Register(role, trajectoryRole, trajectory) => RegisterMoves(h, c, s, role, trajectoryRole, trajectory);
    case TaskEnds(id, status) => EndMoves(c, s, id, status);
    case SourceSampled(time) => SampleMoves(c, s, time);
    case HoldReturns(role, how) => HoldMoves(c, s, role, how);
    case TasksDrained => DrainMoves(c, s);
    case ObservationReturns(role, how, sample) => ObservationMoves(c, s, role, how, sample);
    case PlanReturns(outcome, validation, latency) => PlanMoves(c, h, s, outcome, validation, latency);
    case AdvanceReturns(role, how) => AdvanceMoves(c, s, role, how);
    case LoopYields => YieldMoves(c, s);
    case OrchestratorCancelled => InterruptMoves(c, s);
  }

  lemma InterruptMoves(c: Case, s: Head)
    ensures Moves(c, s, OrchestratorCancelled, Interrupted(s))
  {
    if !s.phase.Registering? && !s.phase.Ended? { assert TurnsQuiet(s, Interrupted(s)); }
  }

  lemma EndMoves(c: Case, s: Head, id: TaskId, status: TaskStatus)
    ensures Moves(c, s, TaskEnds(id, status), Ends(s, id, status))
  {
  }

  // ----- evidence in a run -----

  ghost predicate TriggeredAt(c: Case, states: seq<Head>, actions: seq<Action>, j: nat, i: nat) {
    && j < |actions| < |states| && states[j].phase == Waiting(i) && i < |c.Events()|
    && actions[j].SourceSampled? && actions[j].time.Some? && c.Events()[i].trigger <= actions[j].time.value
    && !AllDone(c, states[j])
  }

  ghost predicate HeldAt(states: seq<Head>, actions: seq<Action>, j: nat, i: nat, r: RoleId) {
    j < |actions| < |states| && states[j].phase.Holding? && states[j].phase.i == i && actions[j] == HoldReturns(r, Done)
  }

  ghost predicate ObservedAt(states: seq<Head>, actions: seq<Action>, j: nat, i: nat, r: RoleId, sample: Sample) {
    && j < |actions| < |states| && states[j].phase.Observing? && states[j].phase.i == i
    && actions[j] == ObservationReturns(r, Done, sample)
  }

  ghost predicate ValidatedAt(c: Case, states: seq<Head>, actions: seq<Action>, j: nat, i: nat, r: RoleId) {
    && j < |actions| < |states| && states[j].phase.Planning? && states[j].phase.i == i
    && actions[j].PlanReturns? && |actions[j].validation| == |c.roles| && r in ValidatedRoles(c, actions[j].validation)
  }

  ghost predicate ArrivedAt(states: seq<Head>, actions: seq<Action>, j: nat, i: nat, r: RoleId) {
    j < |actions| < |states| && states[j].phase.Advancing? && states[j].phase.i == i && actions[j] == AdvanceReturns(r, Done)
  }

  // The same, somewhere among the first k actions.

  ghost predicate Triggered(c: Case, states: seq<Head>, actions: seq<Action>, k: nat, i: nat) {
    exists j: nat :: j < k && TriggeredAt(c, states, actions, j, i)
  }

  ghost predicate Held(states: seq<Head>, actions: seq<Action>, k: nat, i: nat, r: RoleId) {
    exists j: nat :: j < k && HeldAt(states, actions, j, i, r)
  }

  ghost predicate Observed(states: seq<Head>, actions: seq<Action>, k: nat, i: nat, r: RoleId, sample: Sample) {
    exists j: nat :: j < k && ObservedAt(states, actions, j, i, r, sample)
  }

  ghost predicate ObservedUsably(states: seq<Head>, actions: seq<Action>, k: nat, i: nat, r: RoleId) {
    exists sample: Sample :: sample.Usable() && Observed(states, actions, k, i, r, sample)
  }

  ghost predicate Validated(c: Case, states: seq<Head>, actions: seq<Action>, k: nat, i: nat, r: RoleId) {
    exists j: nat :: j < k && ValidatedAt(c, states, actions, j, i, r)
  }

  ghost predicate CutoverReached(states: seq<Head>, actions: seq<Action>, k: nat, i: nat, r: RoleId) {
    exists j: nat :: j < k && ArrivedAt(states, actions, j, i, r)
  }

  /** The first k actions of the run bear out commit n for role r. */
  ghost predicate Witnessed(c: Case, states: seq<Head>, actions: seq<Action>, k: nat, n: nat, r: RoleId) {
    && Triggered(c, states, actions, k, n) && Held(states, actions, k, n, r)
    && ObservedUsably(states, actions, k, n, r) && Validated(c, states, actions, k, n, r)
  }

  ghost predicate PhaseWitnessed(c: Case, states: seq<Head>, actions: seq<Action>, k: nat, p: Phase, i: nat) {
    && (PastTrigger(p) ==> Triggered(c, states, actions, k, i))
    && (forall r :: r in HeldOf(p) ==> Held(states, actions, k, i, r))
    && (forall r :: r in SamplesOf(p) ==> Observed(states, actions, k, i, r, SamplesOf(p)[r]))
    && (forall r :: r in ArrivedOf(p) ==> CutoverReached(states, actions, k, i, r))
  }

  ghost predicate CommitsWitnessed(c: Case, states: seq<Head>, actions: seq<Action>, k: nat, commits: nat) {
    forall n: nat, r :: n < commits && r in c.RoleIds() ==> Witnessed(c, states, actions, k, n, r)
  }

  /** Every epoch up to `active` but the first replaced one whose cutover every role had reached. */
  ghost predicate EpochsWitnessed(c: Case, states: seq<Head>, actions: seq<Action>, k: nat, active: nat) {
    forall n: nat, r :: n + 1 < active && r in c.RoleIds() ==> CutoverReached(states, actions, k, n, r)
  }

  // ----- one more action -----

  lemma WitnessedLater(c: Case, states: seq<Head>, actions: seq<Action>, k: nat, m: nat, n: nat, r: RoleId)
    requires k <= m && Witnessed(c, states, actions, k, n, r)
    ensures Witnessed(c, states, actions, m, n, r)
  {
    hide TriggeredAt, HeldAt, ObservedAt, ValidatedAt;
    var sample: Sample :| sample.Usable() && Observed(states, actions, k, n, r, sample);
    assert Observed(states, actions, m, n, r, sample);
  }

  /** State k+1 comes from state k by action k. */
  ghost predicate Moved(c: Case, states: seq<Head>, actions: seq<Action>, k: nat, m: nat) {
    |states| == |actions| + 1 && k < |actions| && m == k + 1 && Moves(c, states[k], actions[k], states[m])
  }

  lemma TriggerLater(c: Case, states: seq<Head>, actions: seq<Action>, k: nat, m: nat, i: nat)
    requires Moved(c, states, actions, k, m)
    requires PastTrigger(states[k].phase) && states[k].phase.i == i ==> Triggered(c, states, actions, k, i)
    requires PastTrigger(states[m].phase) && states[m].phase.i == i
    ensures Triggered(c, states, actions, m, i)
  {
    hide AllDone;
    if !(PastTrigger(states[k].phase) && states[k].phase.i == i) {
      assert TriggeredAt(c, states, actions, k, i);
    }
  }

  lemma HeldLater(c: Case, states: seq<Head>, actions: seq<Action>, k: nat, m: nat, i: nat, r: RoleId)
    requires Moved(c, states, actions, k, m)
    requires InRound(states[k].phase, i) && r in HeldOf(states[k].phase) ==> Held(states, actions, k, i, r)
    requires InRound(states[m].phase, i) && r in HeldOf(states[m].phase)
    ensures Held(states, actions, m, i, r)
  {
    if !(InRound(states[k].phase, i) && r in HeldOf(states[k].phase)) {
      assert HeldAt(states, actions, k, i, r);
    }
  }

  lemma ObservedLater(c: Case, states: seq<Head>, actions: seq<Action>, k: nat, m: nat, i: nat, r: RoleId)
    requires Moved(c, states, actions, k, m)
    requires InRound(states[k].phase, i) && r in SamplesOf(states[k].phase) ==>
      Observed(states, actions, k, i, r, SamplesOf(states[k].phase)[r])
    requires InRound(states[m].phase, i) && r in SamplesOf(states[m].phase)
    ensures Observed(states, actions, m, i, r, SamplesOf(states[m].phase)[r])
  {
    var sample := SamplesOf(states[m].phase)[r];
    if !(InRound(states[k].phase, i) && r in SamplesOf(states[k].phase) && SamplesOf(states[k].phase)[r] == sample) {
      assert ObservedAt(states, actions, k, i, r, sample);
    }
  }

  lemma ArrivedLater(c: Case, states: seq<Head>, actions: seq<Action>, k: nat, m: nat, i: nat, r: RoleId)
    requires Moved(c, states, actions, k, m)
    requires InRound(states[k].phase, i) && r in ArrivedOf(states[k].phase) ==> CutoverReached(states, actions, k, i, r)
    requires InRound(states[m].phase, i) && r in ArrivedOf(states[m].phase)
    ensures CutoverReached(states, actions, m, i, r)
  {
    if !(InRound(states[k].phase, i) && r in ArrivedOf(states[k].phase)) {
      assert ArrivedAt(states, actions, k, i, r);
    }
  }

  lemma PhaseLater(c: Case, states: seq<Head>, actions: seq<Action>, k: nat, m: nat, i: nat)
    requires Moved(c, states, actions, k, m)
    requires InRound(states[k].phase, i) ==> PhaseWitnessed(c, states, actions, k, states[k].phase, i)
    requires InRound(states[m].phase, i)
    ensures PhaseWitnessed(c, states, actions, m, states[m].phase, i)
  {
    hide Moves, Triggered, Held, Observed, CutoverReached, HeldOf, SamplesOf, ArrivedOf;
    var p := states[m].phase;
    if PastTrigger(p) { TriggerLater(c, states, actions, k, m, i); }
    forall r | r in HeldOf(p) ensures Held(states, actions, m, i, r) {
      HeldLater(c, states, actions, k, m, i, r);
    }
    forall r | r in SamplesOf(p) ensures Observed(states, actions, m, i, r, SamplesOf(p)[r]) {
      ObservedLater(c, states, actions, k, m, i, r);
    }
    forall r | r in ArrivedOf(p) ensures CutoverReached(states, actions, m, i, r) {
      ArrivedLater(c, states, actions, k, m, i, r);
    }
  }

  lemma CommitIsTruthful(h: Hashes, c: Case, s: Head, n: nat)
    requires Inv(h, c, s) && n < |s.commits|
    ensures TruthfulCommit(c.RoleIds(), s.commits[n])
  {
    assert s.epoch != 0;
    assert CommitAt(c.RoleIds(), c.Events()[n], s.commits[n], n);
  }

  lemma PlanningRound(h: Hashes, c: Case, s: Head)
    requires Inv(h, c, s) && s.phase.Planning?
    ensures |s.commits| == s.phase.i && s.phase.held == c.RoleIds()
    ensures UsableRoles(s.phase.samples) == s.phase.samples.Keys == c.RoleIds()
  {
  }

  lemma NewCommitWitnessed(h: Hashes, c: Case, states: seq<Head>, actions: seq<Action>, k: nat, m: nat, r: RoleId)
    requires Moved(c, states, actions, k, m) && Logs(c, states[k], actions[k], states[m])
    requires Inv(h, c, states[k]) && Inv(h, c, states[m])
    requires PhaseWitnessed(c, states, actions, k, states[k].phase, states[k].phase.i)
    requires r in c.RoleIds()
    ensures Witnessed(c, states, actions, m, |states[k].commits|, r)
  {
    hide Inv, Moves, TriggeredAt, HeldAt, ObservedAt;
    var s := states[k];
    PlanningRound(h, c, s);
    CommitIsTruthful(h, c, states[m], s.phase.i);
    assert r in HeldOf(s.phase) && r in SamplesOf(s.phase);
    var sample := SamplesOf(s.phase)[r];
    assert r in UsableRoles(s.phase.samples) && sample.Usable();
    assert Observed(states, actions, m, s.phase.i, r, sample);
    assert ValidatedAt(c, states, actions, k, s.phase.i, r);
  }

  // ----- every run -----

  /** Everything the state after k actions claims is borne out by those actions. */
  ghost predicate History(c: Case, states: seq<Head>, actions: seq<Action>, k: nat)
    requires k < |states|
  {
    && (forall i: nat :: InRound(states[k].phase, i) ==> PhaseWitnessed(c, states, actions, k, states[k].phase, i))
    && CommitsWitnessed(c, states, actions, k, |states[k].commits|)
    && EpochsWitnessed(c, states, actions, k, states[k].active)
  }

  lemma CommitsGrow(c: Case, s: Head, a: Action, n: Head)
    requires Moves(c, s, a, n)
    ensures n.commits == s.commits || Logs(c, s, a, n)
    ensures n.active == s.active || (s.active == 0 && n.active == 1) || Launches(c, s, a, n)
  {
  }

  lemma CommitsLater(h: Hashes, c: Case, states: seq<Head>, actions: seq<Action>, k: nat, m: nat)
    requires Moved(c, states, actions, k, m) && Inv(h, c, states[k]) && Inv(h, c, states[m]) && History(c, states, actions, k)
    ensures CommitsWitnessed(c, states, actions, m, |states[m].commits|)
  {
    hide Inv, Moves, Witnessed, PhaseWitnessed;
    CommitsGrow(c, states[k], actions[k], states[m]);
    var before, after := |states[k].commits|, |states[m].commits|;
    forall n: nat, r | n < after && r in c.RoleIds()
      ensures Witnessed(c, states, actions, m, n, r)
    {
      if n < before {
        WitnessedLater(c, states, actions, k, m, n, r);
      } else {
        assert InRound(states[k].phase, states[k].phase.i);
        NewCommitWitnessed(h, c, states, actions, k, m, r);
      }
    }
  }

  lemma EpochIsRound(h: Hashes, c: Case, s: Head)
    requires Inv(h, c, s) && s.phase.Advancing?
    ensures s.active == s.epoch == s.phase.i + 1
  {
  }

  /** An epoch after the first starts only when the last role reaches the cutover of the round that committed it. */
  lemma EpochsLater(h: Hashes, c: Case, states: seq<Head>, actions: seq<Action>, k: nat, m: nat)
    requires Moved(c, states, actions, k, m) && Inv(h, c, states[k]) && History(c, states, actions, k)
    ensures EpochsWitnessed(c, states, actions, m, states[m].active)
  {
    var s, a, active := states[k], actions[k], states[m].active;
    CommitsGrow(c, s, a, states[m]);
    if s.phase.Advancing? { EpochIsRound(h, c, s); }
    hide Inv, Moves;
    forall n: nat, r | n + 1 < active && r in c.RoleIds()
      ensures CutoverReached(states, actions, m, n, r)
    {
      if n + 1 < s.active {
        assert CutoverReached(states, actions, k, n, r);
      } else if r == a.role {
        assert ArrivedAt(states, actions, k, n, r);
      } else {
        assert InRound(s.phase, n) && r in ArrivedOf(s.phase);
        assert CutoverReached(states, actions, k, n, r);
      }
    }
  }

  lemma NoHistoryYet(c: Case, unset: Sha, states: seq<Head>, actions: seq<Action>)
    requires states != [] && states[0] == InitialHead(unset)
    ensures History(c, states, actions, 0)
  {
  }

  lemma HistoryGrows(h: Hashes, c: Case, states: seq<Head>, actions: seq<Action>, k: nat, m: nat)
    requires Moved(c, states, actions, k, m) && Inv(h, c, states[k]) && Inv(h, c, states[m]) && History(c, states, actions, k)
    ensures History(c, states, actions, m)
  {
    hide Inv, Moves, PhaseWitnessed, CommitsWitnessed, EpochsWitnessed;
    CommitsLater(h, c, states, actions, k, m);
    EpochsLater(h, c, states, actions, k, m);
    forall i: nat | InRound(states[m].phase, i) ensures PhaseWitnessed(c, states, actions, m, states[m].phase, i) {
      PhaseLater(c, states, actions, k, m, i);
    }
  }

  lemma {:induction false} RunHistory(h: Hashes, c: Case, unset: Sha, states: seq<Head>, actions: seq<Action>, k: nat)
    requires ValidCase(c) && IsRun(h, c, unset, states, actions) && k < |states|
    ensures History(c, states, actions, k)
  {
    hide Inv, Moves, Step, History, Steppable, InitialHead;
    if k == 0 {
      NoHistoryYet(c, unset, states, actions);
    } else {
      var p := k - 1;
      RunHistory(h, c, unset, states, actions, p);
      ReachableInv(h, c, unset, states, actions, p);
      ReachableInv(h, c, unset, states, actions, k);
      assert Follows(h, c, states, actions, p);
      StepMoves(h, c, states[p], actions[p]);
      HistoryGrows(h, c, states, actions, p, k);
    }
  }

  /** In every run, what the n-th commit acknowledges is true of its own round: a sample at or after the
      event's trigger time came while a task was running, and every role's hold returned, every role was
      usably observed and every role's replacement was validated. No replacement epoch starts before every role
      reached the cutover of the round that committed it. */
  lemma AcknowledgementsAreTrue(h: Hashes, c: Case, unset: Sha, states: seq<Head>, actions: seq<Action>, k: nat)
    requires ValidCase(c) && IsRun(h, c, unset, states, actions) && k < |states|
    ensures CommitsWitnessed(c, states, actions, k, |states[k].commits|)
    ensures EpochsWitnessed(c, states, actions, k, states[k].active)
  {
    RunHistory(h, c, unset, states, actions, k);
  }
}
