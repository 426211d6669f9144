/** How far the head still has to go: every step that moves it brings it nearer to its end. */
module HeadProgress {
  import opened Wrappers
  import opened Roles
  import opened Replanning
  import opened HeadProtocol
  import opened HeadSafety

  /** The stations of one round, counted from its end. */
  function Rank(p: Phase): nat {
    match p
    case Registering => 8
    case Waiting(_) => 7
    case Holding(_, _) => 6
    case Draining(_, _) => 5
    case Observing(_, _, _) => 4
    case Planning(_, _, _) => 3
    case Advancing(_, _, _, _) => 2
    case Dispatching(_, _, _) => 1
    case Recovering => 1
    case Finishing => 1
    case Ended(_) => 0
  }

  /** The rounds not yet over. */
  function RoundsLeft(events: nat, p: Phase): nat {
    if p.Registering? then events
    else if p.Recovering? || p.Finishing? || p.Ended? || events < p.i then 0
    else events - p.i
  }

  function Stage(events: nat, p: Phase): nat { 8 * RoundsLeft(events, p) + Rank(p) }

  /** The roles a collecting phase has heard of. */
  function Heard(s: Head): set<RoleId> {
    match s.phase
    case Registering => s.trajectories.Keys
    case Holding(_, held) => held
    case Observing(_, _, samples) => samples.Keys
    case Advancing(_, _, _, arrived) => arrived
    case _ => {}
  }

  predicate Collects(p: Phase) { p.Registering? || p.Holding? || p.Observing? || p.Advancing? }

  function Missing(c: Case, s: Head): nat {
    if Collects(s.phase) then |c.RoleIds() - Heard(s)| else 0
  }

  /** An earlier stage is left, or one more role is heard of. */
  ghost predicate Progresses(c: Case, s: Head, n: Head) {
    var e := |c.Events()|;
    Stage(e, n.phase) < Stage(e, s.phase) || (Stage(e, n.phase) == Stage(e, s.phase) && Missing(c, n) < Missing(c, s))
  }

  /** Nothing moves, or a role is observed a second time. */
  ghost predicate MarksTime(c: Case, s: Head, n: Head) {
    || (n.phase == s.phase && n.trajectories == s.trajectories)
    || (s.phase.Observing? && n.phase.Observing? && n.phase.i == s.phase.i && Heard(n) == Heard(s))
  }

  ghost predicate Advances(c: Case, s: Head, n: Head) { MarksTime(c, s, n) || Progresses(c, s, n) }

  lemma OneFewer(whole: set<RoleId>, part: set<RoleId>, r: RoleId)
    requires r in whole && r !in part
    ensures |whole - (part + {r})| < |whole - part|
  {
    assert whole - part == (whole - (part + {r})) + {r};
  }

  lemma EnteringProgresses(c: Case, s: Head, t: Head, i: nat)
    requires i <= |c.Events()| && 8 * (|c.Events()| - i) + 7 < Stage(|c.Events()|, s.phase)
    ensures Progresses(c, s, EnterEvent(c, t, i))
  {
    hide AllDone, Case.Events, Missing;
  }

  lemma SampleAdvances(c: Case, s: Head, time: Option<real>)
    requires s.phase.Waiting? ==> s.phase.i < |c.Events()|
    ensures Advances(c, s, Sampled(c, s, time))
  {
    hide AllDone, Case.RoleIds, Case.Events, Progresses;
    if Sampled(c, s, time).phase != s.phase { NextStation(c, s, Sampled(c, s, time)); }
  }

  lemma DrainAdvances(c: Case, s: Head)
    ensures Advances(c, s, Drained(c, s))
  {
    hide AllDone, ActiveFailure, Case.RoleIds, Case.Events, Progresses;
    if Drained(c, s).phase != s.phase { NextStation(c, s, Drained(c, s)); }
  }

  /** One more role is heard of in the same phase of the same round. */
  lemma HearingProgresses(c: Case, s: Head, n: Head, r: RoleId)
    requires Collects(s.phase) && Collects(n.phase) && r in c.RoleIds() && r !in Heard(s) && Heard(n) == Heard(s) + {r}
    requires Rank(n.phase) == Rank(s.phase) && RoundsLeft(|c.Events()|, n.phase) == RoundsLeft(|c.Events()|, s.phase)
    ensures Progresses(c, s, n)
  {
    hide Heard, Rank, RoundsLeft, Case.RoleIds, Case.Events;
    OneFewer(c.RoleIds(), Heard(s), r);
  }

  /** A station nearer to the end of the same round or of a later one. */
  lemma NextStation(c: Case, s: Head, n: Head)
    requires Rank(n.phase) < Rank(s.phase) && RoundsLeft(|c.Events()|, n.phase) <= RoundsLeft(|c.Events()|, s.phase)
    ensures Progresses(c, s, n)
  {
    hide Rank, RoundsLeft, Missing, Case.Events;
  }

  lemma HoldAdvances(c: Case, s: Head, role: RoleId, how: Await)
    requires s.phase.Holding? ==> s.phase.i < |c.Events()|
    ensures Advances(c, s, HoldReturned(c, s, role, how))
  {
    hide Case.RoleIds, Case.Events, Progresses;
    if s.phase.Holding? && role in c.RoleIds() {
      var n, held := HoldReturned(c, s, role, how), s.phase.held + {role};
      if !how.Done? || held == c.RoleIds() {
        NextStation(c, s, n);
      } else if role in s.phase.held {
        assert held == s.phase.held;
      } else {
        HearingProgresses(c, s, n, role);
      }
    }
  }

  lemma ObservationAdvances(c: Case, s: Head, role: RoleId, how: Await, sample: Sample)
    requires s.phase.Observing? ==> s.phase.i < |c.Events()|
    ensures Advances(c, s, ObservationReturned(c, s, role, how, sample))
  {
    hide AllUsable, Case.RoleIds, Case.Events, Progresses;
    if s.phase.Observing? && role in c.RoleIds() {
      var n, samples := ObservationReturned(c, s, role, how, sample), s.phase.samples[role := sample];
      assert samples.Keys == s.phase.samples.Keys + {role};
      if !how.Done? || samples.Keys == c.RoleIds() {
        NextStation(c, s, n);
      } else if role in s.phase.samples {
        assert Heard(n) == Heard(s);
      } else {
        HearingProgresses(c, s, n, role);
      }
    }
  }

  lemma PlanAdvances(c: Case, h: Hashes, s: Head, outcome: PlanOutcome, validation: seq<Await>, latency: real)
    requires s.phase.Planning? ==> s.phase.i < |c.Events()|
    ensures Advances(c, s, PlanReturned(c, h, s, outcome, validation, latency))
  {
    hide Decide, CommitCall, Validation, Case.RoleIds, Case.Events, Progresses;
    var n := PlanReturned(c, h, s, outcome, validation, latency);
    if n.phase != s.phase { NextStation(c, s, n); }
  }

  lemma ArrivalAdvances(c: Case, s: Head, role: RoleId, how: Await)
    requires s.phase.Advancing? ==> s.phase.i < |c.Events()| && s.records != [] && CoversRoles(c, s.phase.proposal)
    ensures Advances(c, s, AdvanceReturned(c, s, role, how))
  {
    hide WithTasks, Case.RoleIds, Case.Events, Progresses;
    if s.phase.Advancing? && role in c.RoleIds() {
      var n, arrived := AdvanceReturned(c, s, role, how), s.phase.arrived + {role};
      if !how.Done? || arrived == c.RoleIds() {
        NextStation(c, s, n);
      } else if role in s.phase.arrived {
        assert arrived == s.phase.arrived;
      } else {
        HearingProgresses(c, s, n, role);
      }
    }
  }

  lemma YieldAdvances(c: Case, s: Head)
    requires s.phase.Dispatching? ==> s.records != [] && s.phase.i < |c.Events()|
    ensures Advances(c, s, Yielded(c, s))
  {
    hide EnterEvent, ActiveFailure, Progresses, Replaced, Annotated, Case.Events;
    if s.phase.Dispatching? {
      if ActiveFailure(c, s, false) {
        EarlierStage(c, s, Yielded(c, s));
      } else {
        EnteringProgresses(c, s, Replaced(c, s), s.phase.i + 1);
      }
    }
  }

  lemma EarlierStage(c: Case, s: Head, n: Head)
    requires Stage(|c.Events()|, n.phase) < Stage(|c.Events()|, s.phase)
    ensures Progresses(c, s, n)
  {
  }

  lemma RegisteringAdvances(c: Case, h: Hashes, s: Head, role: RoleId, trajectoryRole: RoleId, trajectory: Sha)
    requires s.phase.Registering? || s.trajectories.Keys == c.RoleIds()
    ensures Advances(c, s, Registered(c, h, s, role, trajectoryRole, trajectory))
  {
    hide Case.RoleIds, Case.Events, EnterEvent, Enabled, Opened, Progresses;
    if Enabled(c) && role in c.RoleIds() && trajectoryRole == role && role !in s.trajectories {
      var trajectories := s.trajectories[role := trajectory];
      assert trajectories.Keys == s.trajectories.Keys + {role};
      var n := Registered(c, h, s, role, trajectoryRole, trajectory);
      if trajectories.Keys == c.RoleIds() {
        EnteringProgresses(c, s, Opened(c, h, s.(trajectories := trajectories)), 0);
      } else {
        HearingProgresses(c, s, n, role);
      }
    }
  }

  lemma InterruptAdvances(c: Case, s: Head)
    ensures Advances(c, s, Interrupted(s))
  {
    hide Case.RoleIds, Case.Events, Progresses;
    if !s.phase.Registering? && !s.phase.Ended? { NextStation(c, s, Interrupted(s)); }
  }

  /** Every step of the orchestrator that changes where it is brings it nearer to its end. What does not: polling the
      source time, a role heard of before, and actions that are not for the phase. */
  lemma StepAdvances(h: Hashes, c: Case, s: Head, a: Action)
    requires Inv(h, c, s) && Steppable(c, s)
    ensures Advances(c, s, Step(c, h, s, a))
  {
    assert s.phase.Registering? || s.trajectories.Keys == c.RoleIds();
    hide Inv, Advances, Registered, Sampled, HoldReturned, Drained, ObservationReturned, PlanReturned, AdvanceReturned, Yielded,
         Interrupted;
    match a
    case Register(role, trajectoryRole, trajectory) => RegisteringAdvances(c, h, s, role, trajectoryRole, trajectory);
    case TaskEnds(id, status) => EndAdvances(c, s, id, status);
    case SourceSampled(time) => SampleAdvances(c, s, time);
    case HoldReturns(role, how) => HoldAdvances(c, s, role, how);
    case TasksDrained => DrainAdvances(c, s);
    case ObservationReturns(role, how, sample) => ObservationAdvances(c, s, role, how, sample);
    case PlanReturns(outcome, validation, latency) => PlanAdvances(c, h, s, outcome, validation, latency);
    case AdvanceReturns(role, how) => ArrivalAdvances(c, s, role, how);
    case LoopYields => YieldAdvances(c, s);
    case OrchestratorCancelled => InterruptAdvances(c, s);
  }

  lemma EndAdvances(c: Case, s: Head, id: TaskId, status: TaskStatus)
    ensures Advances(c, s, Ends(s, id, status))
  {
  }

  // ----- the length of a run -----

  /** Stage and missing roles in one number. */
  function StepsToGo(c: Case, s: Head): nat {
    Stage(|c.Events()|, s.phase) * (|c.RoleIds()| + 1) + Missing(c, s)
  }

  lemma Lexicographic(x: nat, y: nat, m: nat, n: nat, k: nat)
    requires n <= k && (y < x || (y == x && n < m))
    ensures y * (k + 1) + n < x * (k + 1) + m
  {
    if y < x {
      assert (x - y - 1) * (k + 1) >= 0;
      assert x * (k + 1) == y * (k + 1) + (x - y - 1) * (k + 1) + (k + 1);
    }
  }

  lemma MissingAtMostAll(c: Case, s: Head)
    ensures Missing(c, s) <= |c.RoleIds()|
  {
    var rest := c.RoleIds() - Heard(s);
    assert c.RoleIds() == rest + (c.RoleIds() - rest);
  }

  lemma ProgressIsNearer(c: Case, s: Head, n: Head)
    requires Progresses(c, s, n)
    ensures StepsToGo(c, n) < StepsToGo(c, s)
  {
    hide Stage, Missing;
    MissingAtMostAll(c, n);
    Lexicographic(Stage(|c.Events()|, s.phase), Stage(|c.Events()|, n.phase), Missing(c, s), Missing(c, n), |c.RoleIds()|);
  }

  lemma MarkingTimeIsAsFar(c: Case, s: Head, n: Head)
    requires MarksTime(c, s, n)
    ensures StepsToGo(c, n) == StepsToGo(c, s)
  {
    assert Stage(|c.Events()|, n.phase) == Stage(|c.Events()|, s.phase);
    assert Missing(c, n) == Missing(c, s);
    hide Stage, Missing;
  }

  /** How many of the first k steps of a run bring the head nearer. */
  ghost function ProgressSteps(c: Case, states: seq<Head>, k: nat): nat
    requires k < |states|
  {
    if k == 0 then 0
    else ProgressSteps(c, states, k - 1) + (if StepsToGo(c, states[k]) < StepsToGo(c, states[k - 1]) then 1 else 0)
  }

  /** In every run, progress is bounded by where the head started: (8 |events| + 8) (|roles| + 1) + |roles| steps at most. */
  lemma {:induction false} ProgressIsBounded(h: Hashes, c: Case, unset: Sha, states: seq<Head>, actions: seq<Action>, k: nat)
    requires ValidCase(c) && IsRun(h, c, unset, states, actions) && k < |states|
    ensures ProgressSteps(c, states, k) + StepsToGo(c, states[k]) <= (8 * |c.Events()| + 8) * (|c.RoleIds()| + 1) + |c.RoleIds()|
  {
    if k == 0 {
      StepsAtStart(c, unset);
    } else {
      hide Inv, Step, StepsToGo, Advances, Steppable, IsRun;
      ProgressIsBounded(h, c, unset, states, actions, k - 1);
      RunStepAdvances(h, c, unset, states, actions, k - 1, k);
    }
  }

  lemma StepsAtStart(c: Case, unset: Sha)
    ensures StepsToGo(c, InitialHead(unset)) == (8 * |c.Events()| + 8) * (|c.RoleIds()| + 1) + |c.RoleIds()|
  {
    hide Case.RoleIds, Case.Events;
    assert c.RoleIds() - {} == c.RoleIds();
  }

  lemma RunStepAdvances(h: Hashes, c: Case, unset: Sha, states: seq<Head>, actions: seq<Action>, k: nat, m: nat)
    requires ValidCase(c) && IsRun(h, c, unset, states, actions) && m == k + 1 < |states|
    ensures Advances(c, states[k], states[m]) && StepsToGo(c, states[m]) <= StepsToGo(c, states[k])
  {
    hide Inv, Step, StepsToGo, MarksTime, Progresses, Steppable;
    ReachableInv(h, c, unset, states, actions, k);
    assert Follows(h, c, states, actions, k);
    StepAdvances(h, c, states[k], actions[k]);
    if MarksTime(c, states[k], states[m]) {
      MarkingTimeIsAsFar(c, states[k], states[m]);
    } else {
      ProgressIsNearer(c, states[k], states[m]);
    }
  }

  // ----- something can always happen -----

  /** A collecting phase still waits for some role. */
  ghost predicate StillMissing(c: Case, s: Head) {
    Collects(s.phase) ==> Heard(s) < c.RoleIds()
  }

  lemma AddedStrictly(whole: set<RoleId>, part: set<RoleId>, r: RoleId)
    requires part < whole && r in whole && part + {r} != whole
    ensures part + {r} < whole
  {
  }

  lemma EnteringCollectsNothing(c: Case, s: Head, i: nat)
    requires i <= |c.Events()|
    ensures !Collects(EnterEvent(c, s, i).phase)
  {
  }

  lemma RegisteringKeepsMissing(c: Case, h: Hashes, s: Head, role: RoleId, trajectoryRole: RoleId, trajectory: Sha)
    requires Enabled(c) && StillMissing(c, s)
    ensures StillMissing(c, Registered(c, h, s, role, trajectoryRole, trajectory))
  {
    hide EnterEvent, Opened, Enabled, Case.RoleIds, Case.Events;
    if role in c.RoleIds() && trajectoryRole == role && role !in s.trajectories {
      var trajectories := s.trajectories[role := trajectory];
      assert trajectories.Keys == s.trajectories.Keys + {role};
      if trajectories.Keys == c.RoleIds() {
        EnteringCollectsNothing(c, Opened(c, h, s.(trajectories := trajectories)), 0);
      } else if s.phase.Registering? {
        AddedStrictly(c.RoleIds(), s.trajectories.Keys, role);
      }
    }
  }

  lemma HoldKeepsMissing(c: Case, s: Head, role: RoleId, how: Await)
    requires StillMissing(c, s) && (s.phase.Holding? ==> s.phase.i < |c.Events()|)
    ensures StillMissing(c, HoldReturned(c, s, role, how))
  {
    hide Case.RoleIds, Case.Events;
    if s.phase.Holding? && s.phase.held + {role} != c.RoleIds() && role in c.RoleIds() {
      AddedStrictly(c.RoleIds(), s.phase.held, role);
    }
  }

  lemma ObservationKeepsMissing(c: Case, s: Head, role: RoleId, how: Await, sample: Sample)
    requires StillMissing(c, s) && (s.phase.Observing? ==> s.phase.i < |c.Events()|)
    ensures StillMissing(c, ObservationReturned(c, s, role, how, sample))
  {
    hide Case.RoleIds, Case.Events, AllUsable;
    if s.phase.Observing? && role in c.RoleIds() {
      var keys := s.phase.samples[role := sample].Keys;
      assert keys == s.phase.samples.Keys + {role};
      if keys != c.RoleIds() { AddedStrictly(c.RoleIds(), s.phase.samples.Keys, role); }
    }
  }

  lemma ArrivalKeepsMissing(c: Case, s: Head, role: RoleId, how: Await)
    requires s.phase.Advancing? ==> s.records != [] && CoversRoles(c, s.phase.proposal)
    requires StillMissing(c, s)
    ensures StillMissing(c, AdvanceReturned(c, s, role, how))
  {
    hide Case.RoleIds, Case.Events, WithTasks;
    if s.phase.Advancing? && role in c.RoleIds() && s.phase.arrived + {role} != c.RoleIds() {
      AddedStrictly(c.RoleIds(), s.phase.arrived, role);
    }
  }

  lemma YieldKeepsMissing(c: Case, s: Head)
    requires s.phase.Dispatching? ==> s.records != [] && s.phase.i < |c.Events()|
    requires StillMissing(c, s)
    ensures StillMissing(c, Yielded(c, s))
  {
    hide EnterEvent, ActiveFailure, Replaced;
    if s.phase.Dispatching? { EnteringCollectsNothing(c, Replaced(c, s), s.phase.i + 1); }
  }

  lemma PlanKeepsMissing(c: Case, h: Hashes, s: Head, outcome: PlanOutcome, validation: seq<Await>, latency: real)
    requires c.RoleIds() != {} && (s.phase.Planning? ==> s.phase.i < |c.Events()|)
    requires StillMissing(c, s)
    ensures StillMissing(c, PlanReturned(c, h, s, outcome, validation, latency))
  {
    hide Decide, CommitCall, Validation, Case.RoleIds, Case.Events;
  }

  lemma QuietKeepsMissing(c: Case, s: Head, time: Option<real>)
    requires c.RoleIds() != {} && (s.phase.Waiting? ==> s.phase.i < |c.Events()|)
    requires StillMissing(c, s)
    ensures StillMissing(c, Sampled(c, s, time)) && StillMissing(c, Drained(c, s)) && StillMissing(c, Interrupted(s))
  {
    hide AllDone, ActiveFailure, Case.RoleIds, Case.Events;
  }

  lemma EndKeepsMissing(c: Case, s: Head, id: TaskId, status: TaskStatus)
    requires StillMissing(c, s)
    ensures StillMissing(c, Ends(s, id, status))
  {
  }

  lemma StepKeepsMissing(h: Hashes, c: Case, s: Head, a: Action)
    requires Enabled(c) && c.RoleIds() != {} && Steppable(c, s) && StillMissing(c, s)
    ensures StillMissing(c, Step(c, h, s, a))
  {
    hide StillMissing, Registered, Sampled, HoldReturned, Drained, ObservationReturned, PlanReturned, AdvanceReturned, Yielded,
         Interrupted, Ends, Case.RoleIds;
    match a
    case Register(role, trajectoryRole, trajectory) => RegisteringKeepsMissing(c, h, s, role, trajectoryRole, trajectory);
    case TaskEnds(id, status) => EndKeepsMissing(c, s, id, status);
    case SourceSampled(time) => QuietKeepsMissing(c, s, time);
    case HoldReturns(role, how) => HoldKeepsMissing(c, s, role, how);
    case TasksDrained => QuietKeepsMissing(c, s, None);
    case ObservationReturns(role, how, sample) => ObservationKeepsMissing(c, s, role, how, sample);
    case PlanReturns(outcome, validation, latency) => PlanKeepsMissing(c, h, s, outcome, validation, latency);
    case AdvanceReturns(role, how) => ArrivalKeepsMissing(c, s, role, how);
    case LoopYields => YieldKeepsMissing(c, s);
    case OrchestratorCancelled => QuietKeepsMissing(c, s, None);
  }

  lemma EnabledHasRoles(c: Case)
    requires ValidCase(c) && Enabled(c)
    ensures c.RoleIds() != {}
  {
    assert c.roles[0] in c.RoleIds();
  }

  lemma {:induction false} RunStillMissing(h: Hashes, c: Case, unset: Sha, states: seq<Head>, actions: seq<Action>, k: nat)
    requires ValidCase(c) && Enabled(c) && IsRun(h, c, unset, states, actions) && k < |states|
    ensures StillMissing(c, states[k])
  {
    EnabledHasRoles(c);
    if 0 < k {
      hide Step, StillMissing, Steppable;
      RunStillMissing(h, c, unset, states, actions, k - 1);
      assert Follows(h, c, states, actions, k - 1);
      StepKeepsMissing(h, c, states[k - 1], actions[k - 1]);
    }
  }

  /** An action in which nothing raises and nobody cancels. */
  ghost predicate Orderly(a: Action) {
    match a
    case SourceSampled(time) => time.Some?
    case HoldReturns(_, how) => how.Done?
    case ObservationReturns(_, how, sample) => how.Done? && sample.Usable()
    case PlanReturns(outcome, _, _) => !outcome.PlanRaised?
    case AdvanceReturns(_, how) => how.Done?
    case OrchestratorCancelled => false
    case _ => true
  }

  /** The head waits for trajectories that are still flown. */
  ghost predicate WaitsForTasks(c: Case, s: Head) {
    (s.phase.Draining? || s.phase.Recovering? || s.phase.Finishing?) && !AllDone(c, s)
  }

  /** An orderly action that moves the head on, where there is one. */
  ghost function NextAction(c: Case, s: Head, r: RoleId, unset: Sha): Action
    requires s.phase.Waiting? ==> s.phase.i < |c.Events()|
  {
    match s.phase
    case Registering => Register(r, r, unset)
    case Waiting(i) => SourceSampled(Some(c.Events()[i].trigger))
    case Holding(_, _) => HoldReturns(r, Done)
    case Observing(_, _, _) => ObservationReturns(r, Done, Sample(true, true, 0.0))
    case Planning(_, _, _) => PlanReturns(PlanFailed, seq(|c.roles|, _ => Done), 0.0)
    case Advancing(_, _, _, _) => AdvanceReturns(r, Done)
    case Dispatching(_, _, _) => LoopYields
    case _ => TasksDrained
  }

  lemma NextActionMoves(h: Hashes, c: Case, s: Head, r: RoleId, unset: Sha)
    requires Enabled(c) && Steppable(c, s) && !s.phase.Ended? && !WaitsForTasks(c, s) && r in c.RoleIds()
    requires Collects(s.phase) ==> r !in Heard(s)
    ensures !MarksTime(c, s, Step(c, h, s, NextAction(c, s, r, unset)))
  {
    hide AllDone, ActiveFailure, Decide, CommitCall, Validation, WithTasks, AllUsable;
    var a := NextAction(c, s, r, unset);
    if s.phase.Registering? {
      var trajectories := s.trajectories[r := unset];
      assert r in trajectories;
    }
    if s.phase.Observing? { assert r in s.phase.samples[r := Sample(true, true, 0.0)]; }
    if s.phase.Holding? { assert r in s.phase.held + {r}; }
    if s.phase.Advancing? { assert r in s.phase.arrived + {r}; }
  }

  /** In no run does the head get stuck: until it has ended, it waits for trajectories that are still flown, or some orderly
      action brings it nearer to its end. */
  lemma NeverStuck(h: Hashes, c: Case, unset: Sha, states: seq<Head>, actions: seq<Action>, k: nat)
    requires ValidCase(c) && Enabled(c) && IsRun(h, c, unset, states, actions) && k < |states| && !states[k].phase.Ended?
    ensures Steppable(c, states[k])
    ensures WaitsForTasks(c, states[k])
         || exists a :: Orderly(a) && StepsToGo(c, Step(c, h, states[k], a)) < StepsToGo(c, states[k])
  {
    ReachableInv(h, c, unset, states, actions, k);
    InvSteppable(h, c, states[k]);
    RunStillMissing(h, c, unset, states, actions, k);
    EnabledHasRoles(c);
    hide *;
    if !WaitsForTasks(c, states[k]) { var a := SomeProgress(h, c, states[k], unset); }
  }

  lemma NextIsOrderly(c: Case, s: Head, r: RoleId, unset: Sha)
    requires s.phase.Waiting? ==> s.phase.i < |c.Events()|
    ensures Orderly(NextAction(c, s, r, unset))
  {
  }

  lemma SomeProgress(h: Hashes, c: Case, s: Head, unset: Sha) returns (a: Action)
    requires Enabled(c) && c.RoleIds() != {} && Inv(h, c, s) && Steppable(c, s) && StillMissing(c, s)
    requires !s.phase.Ended? && !WaitsForTasks(c, s)
    ensures Orderly(a) && StepsToGo(c, Step(c, h, s, a)) < StepsToGo(c, s)
  {
    assert s.phase.Waiting? ==> s.phase.i < |c.Events()|;
    hide *;
    var r := SomeMissing(c, s);
    a := NextAction(c, s, r, unset);
    NextIsOrderly(c, s, r, unset);
    NextActionMoves(h, c, s, r, unset);
    MovesMeansNearer(h, c, s, a);
  }

  lemma MovesMeansNearer(h: Hashes, c: Case, s: Head, a: Action)
    requires Inv(h, c, s) && Steppable(c, s) && !MarksTime(c, s, Step(c, h, s, a))
    ensures StepsToGo(c, Step(c, h, s, a)) < StepsToGo(c, s)
  {
    hide Inv, Step, StepsToGo, MarksTime, Progresses, Steppable;
    StepAdvances(h, c, s, a);
    ProgressIsNearer(c, s, Step(c, h, s, a));
  }

  lemma SomeMissing(c: Case, s: Head) returns (r: RoleId)
    requires StillMissing(c, s) && c.RoleIds() != {}
    ensures r in c.RoleIds() && (Collects(s.phase) ==> r !in Heard(s))
  {
    if Collects(s.phase) {
      r :| r in c.RoleIds() && r !in Heard(s);
    } else {
      r :| r in c.RoleIds();
    }
  }
}
