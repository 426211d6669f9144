/** One whole orderly round of the head, action by action. */
module OrderlyRounds {
  import opened Wrappers
  import opened Roles
  import opened Replanning
  import opened HeadProtocol
  import opened HeadSafety
  import opened HeadRound

  /** The state after a list of actions. */
  ghost function After(h: Hashes, c: Case, s: Head, actions: seq<Action>): Head
    decreases |actions|
  {
    if actions == [] || !Steppable(c, s) then s else After(h, c, Step(c, h, s, actions[0]), actions[1..])
  }

  lemma {:induction false} AfterBoth(h: Hashes, c: Case, s: Head, first: seq<Action>, second: seq<Action>)
    requires ValidCase(c) && Inv(h, c, s)
    ensures After(h, c, s, first + second) == After(h, c, After(h, c, s, first), second)
    ensures Inv(h, c, After(h, c, s, first))
    decreases |first|
  {
    hide Inv, Step, ValidCase;
    InvSteppable(h, c, s);
    if first == [] {
      assert first + second == second;
    } else {
      StepKeepsInv(h, c, s, first[0]);
      AfterBoth(h, c, Step(c, h, s, first[0]), first[1..], second);
      assert (first + second)[1..] == first[1..] + second && (first + second)[0] == first[0];
    }
  }

  /** What one orderly round brings: a time past the trigger; the order in which the holds return, the flights end, the roles
      are observed and get to the cutover; a sample for each role; and a proposal. */
  datatype Round = Round(
    time: real, holds: seq<RoleId>, landings: seq<RoleId>, ending: TaskStatus, looks: seq<RoleId>,
    samples: map<RoleId, Sample>, proposal: Proposal, latency: real, arrivals: seq<RoleId>)

  ghost function Holds(order: seq<RoleId>): seq<Action> {
    if order == [] then [] else [HoldReturns(order[0], Done)] + Holds(order[1..])
  }

  ghost function Landings(epoch: nat, order: seq<RoleId>, how: TaskStatus): seq<Action> {
    if order == [] then [] else [TaskEnds(TaskId(epoch, order[0]), how)] + Landings(epoch, order[1..], how)
  }

  ghost function Looks(order: seq<RoleId>, samples: map<RoleId, Sample>): seq<Action>
    requires forall r :: r in order ==> r in samples
  {
    if order == [] then [] else [ObservationReturns(order[0], Done, samples[order[0]])] + Looks(order[1..], samples)
  }

  ghost function Arrivals(order: seq<RoleId>): seq<Action> {
    if order == [] then [] else [AdvanceReturns(order[0], Done)] + Arrivals(order[1..])
  }

  ghost predicate Covers(order: seq<RoleId>, roles: set<RoleId>) { forall r :: r in roles ==> r in order }

  lemma OneStep(h: Hashes, c: Case, s: Head, a: Action)
    requires Steppable(c, s)
    ensures After(h, c, s, [a]) == Step(c, h, s, a)
  {
    hide Step, Steppable;
    assert [a][1..] == [];
  }

  lemma YieldIs(h: Hashes, c: Case, s: Head)
    requires Steppable(c, s)
    ensures After(h, c, s, [LoopYields]) == Yielded(c, s)
  {
    OneStep(h, c, s, LoopYields);
    hide Steppable, After, Yielded;
  }

  lemma PlanIs(h: Hashes, c: Case, s: Head, outcome: PlanOutcome, validation: seq<Await>, latency: real)
    requires Steppable(c, s)
    ensures After(h, c, s, [PlanReturns(outcome, validation, latency)]) == PlanReturned(c, h, s, outcome, validation, latency)
  {
    OneStep(h, c, s, PlanReturns(outcome, validation, latency));
    hide Steppable, After, PlanReturned;
  }

  lemma {:induction false} HoldsPass(h: Hashes, c: Case, s: Head, order: seq<RoleId>)
    requires Steppable(c, s) && !s.phase.Holding?
    ensures After(h, c, s, Holds(order)) == s
    decreases |order|
  {
    if order != [] { HoldsPass(h, c, s, order[1..]); }
  }

  /** In whatever order the holds return, the head then waits for the flights to end. */
  lemma {:induction false} HoldsLead(h: Hashes, c: Case, s: Head, order: seq<RoleId>)
    requires Steppable(c, s) && s.phase.Holding? && s.phase.held < c.RoleIds() && Covers(order, c.RoleIds() - s.phase.held)
    ensures After(h, c, s, Holds(order)) == s.(phase := Draining(s.phase.i, c.RoleIds()))
    decreases |order|
  {
    hide Case.Events, Case.RoleIds;
    var missing :| missing in c.RoleIds() && missing !in s.phase.held;
    assert missing in order;
    var r, rest := order[0], order[1..];
    assert Holds(order)[1..] == Holds(rest) && order == [r] + rest;
    var n := HoldReturned(c, s, r, Done);
    assert Step(c, h, s, HoldReturns(r, Done)) == n;
    if n.phase.Holding? {
      forall x | x in c.RoleIds() - n.phase.held ensures x in rest {
        assert x in order && x != r;
      }
      HoldsLead(h, c, n, rest);
    } else {
      HoldsPass(h, c, n, rest);
    }
  }

  ghost predicate HasLanded(tasks: map<TaskId, Task>, id: TaskId) { id in tasks ==> tasks[id].status != Running }

  /** The flights of the active epoch end, and nothing else changes. */
  lemma {:induction false} LandingsLead(h: Hashes, c: Case, s: Head, order: seq<RoleId>, how: TaskStatus)
    requires Steppable(c, s) && how != Running
    ensures var n := After(h, c, s, Landings(s.active, order, how));
      && n == s.(tasks := n.tasks)
      && (forall r :: r in c.RoleIds() && (r in order || HasLanded(s.tasks, TaskId(s.active, r))) ==>
          HasLanded(n.tasks, TaskId(s.active, r)))
    decreases |order|
  {
    hide Case.Events, Case.RoleIds;
    if order != [] {
      var n := Ends(s, TaskId(s.active, order[0]), how);
      assert Landings(s.active, order, how)[1..] == Landings(s.active, order[1..], how);
      LandingsLead(h, c, n, order[1..], how);
    }
  }

  lemma AllLanded(c: Case, s: Head, n: Head, order: seq<RoleId>)
    requires n == s.(tasks := n.tasks) && Covers(order, c.RoleIds())
    requires forall r :: r in c.RoleIds() && r in order ==> HasLanded(n.tasks, TaskId(s.active, r))
    ensures AllDone(c, n)
  {
  }

  lemma {:induction false} LooksPass(h: Hashes, c: Case, s: Head, order: seq<RoleId>, samples: map<RoleId, Sample>)
    requires Steppable(c, s) && !s.phase.Observing? && forall r :: r in order ==> r in samples
    ensures After(h, c, s, Looks(order, samples)) == s
    decreases |order|
  {
    if order != [] { LooksPass(h, c, s, order[1..], samples); }
  }

  /** In whatever order the roles are observed, the head then plans with every sample. */
  lemma {:induction false} LooksLead(h: Hashes, c: Case, s: Head, order: seq<RoleId>, samples: map<RoleId, Sample>)
    requires Steppable(c, s) && s.phase.Observing? && samples.Keys == c.RoleIds() && AllUsable(samples)
    requires s.phase.samples.Keys < c.RoleIds() && (forall r :: r in s.phase.samples ==> s.phase.samples[r] == samples[r])
    requires Covers(order, c.RoleIds() - s.phase.samples.Keys) && forall r :: r in order ==> r in samples
    ensures After(h, c, s, Looks(order, samples)) == s.(phase := Planning(s.phase.i, s.phase.held, samples))
    decreases |order|
  {
    hide Case.Events, Case.RoleIds;
    var missing :| missing in c.RoleIds() && missing !in s.phase.samples.Keys;
    assert missing in order;
    var r, rest := order[0], order[1..];
    assert Looks(order, samples)[1..] == Looks(rest, samples) && order == [r] + rest;
    var n := ObservationReturned(c, s, r, Done, samples[r]);
    assert Step(c, h, s, ObservationReturns(r, Done, samples[r])) == n;
    var more := s.phase.samples[r := samples[r]];
    assert forall x :: x in more ==> more[x] == samples[x];
    if more.Keys == c.RoleIds() {
      assert more == samples;
      LooksPass(h, c, n, rest, samples);
    } else {
      forall x | x in c.RoleIds() - more.Keys ensures x in rest {
        assert x in order && x != r;
      }
      LooksLead(h, c, n, rest, samples);
    }
  }

  lemma {:induction false} ArrivalsPass(h: Hashes, c: Case, s: Head, order: seq<RoleId>)
    requires Steppable(c, s) && !s.phase.Advancing?
    ensures After(h, c, s, Arrivals(order)) == s
    decreases |order|
  {
    if order != [] { ArrivalsPass(h, c, s, order[1..]); }
  }

  lemma ArrivalIs(h: Hashes, c: Case, s: Head, r: RoleId)
    requires Steppable(c, s) && s.phase.Advancing?
    ensures var n := AdvanceReturned(c, s, r, Done);
      && Step(c, h, s, AdvanceReturns(r, Done)) == n && Steppable(c, n)
      && (n.phase.Advancing? ==> n.phase.arrived == if r in c.RoleIds() then s.phase.arrived + {r} else s.phase.arrived)
      && (n.phase.Advancing? ==> Launched(c, n) == Launched(c, s))
      && (!n.phase.Advancing? ==> n == Launched(c, s))
  {
    hide Case.Events, Case.RoleIds, WithTasks, CoversRoles;
  }

  /** In whatever order the roles get to the cutover, the head then starts the next epoch. */
  lemma {:induction false} ArrivalsLead(h: Hashes, c: Case, s: Head, order: seq<RoleId>)
    requires Steppable(c, s) && s.phase.Advancing? && s.phase.arrived < c.RoleIds() && Covers(order, c.RoleIds() - s.phase.arrived)
    ensures After(h, c, s, Arrivals(order)) == Launched(c, s)
    decreases |order|
  {
    hide Case.Events, Case.RoleIds, WithTasks, CoversRoles;
    var missing :| missing in c.RoleIds() && missing !in s.phase.arrived;
    assert missing in order;
    var r, rest := order[0], order[1..];
    assert Arrivals(order)[1..] == Arrivals(rest) && order == [r] + rest;
    var n := AdvanceReturned(c, s, r, Done);
    hide Step, Launched;
    ArrivalIs(h, c, s, r);
    if n.phase.Advancing? {
      forall x | x in c.RoleIds() - n.phase.arrived ensures x in rest {
        assert x in order && x != r;
      }
      ArrivalsLead(h, c, n, rest);
    } else {
      ArrivalsPass(h, c, n, rest);
    }
  }

  /** An orderly round of event i, begun while it is waited for and some vehicle flies. */
  ghost predicate OrderlyRound(c: Case, s: Head, x: Round)
    requires s.phase.Waiting? && s.phase.i < |c.Events()|
  {
    var e, roles := c.Events()[s.phase.i], c.RoleIds();
    && !AllDone(c, s) && e.trigger <= x.time
    && Covers(x.holds, roles) && Covers(x.landings, roles) && x.ending != Running
    && Covers(x.looks, roles) && (forall r :: r in x.looks ==> r in roles) && x.samples.Keys == roles && AllUsable(x.samples)
    && CoversRoles(c, x.proposal) && Committable(c, s.coordinator, e)
    && NoNegativeTimes(c, x.samples, x.proposal, x.latency) && Prompt(c, e, x.samples, x.proposal, x.latency)
    && Covers(x.arrivals, roles)
  }

  /** The actions of the round, up to the plan and from it on. */
  ghost function Gathering(s: Head, x: Round): seq<Action>
    requires forall r :: r in x.looks ==> r in x.samples
  {
    [SourceSampled(Some(x.time))]
    + (Holds(x.holds) + (Landings(s.active, x.landings, x.ending) + ([TasksDrained] + Looks(x.looks, x.samples))))
  }

  ghost function EveryDone(n: nat): (results: seq<Await>)
    ensures |results| == n && AllValid(results)
  {
    if n == 0 then [] else [Done] + EveryDone(n - 1)
  }

  ghost function Replacing(c: Case, x: Round): seq<Action> {
    [PlanReturns(Proposed(x.proposal), EveryDone(|c.roles|), x.latency)] + (Arrivals(x.arrivals) + [LoopYields])
  }

  /** A step of the chain: from `s` by `first` to `mid`, and on from there. */
  lemma Chain(h: Hashes, c: Case, s: Head, first: seq<Action>, second: seq<Action>, mid: Head)
    requires ValidCase(c) && Inv(h, c, s) && After(h, c, s, first) == mid
    ensures After(h, c, s, first + second) == After(h, c, mid, second) && Inv(h, c, mid)
  {
    hide *;
    AfterBoth(h, c, s, first, second);
  }

  lemma TriggerLeads(h: Hashes, c: Case, s: Head, time: real)
    requires s.phase.Waiting? && s.phase.i < |c.Events()| && !AllDone(c, s) && c.Events()[s.phase.i].trigger <= time
    ensures After(h, c, s, [SourceSampled(Some(time))]) == s.(phase := Holding(s.phase.i, {}))
  {
    hide AllDone, Case.Events;
    OneStep(h, c, s, SourceSampled(Some(time)));
  }

  lemma DrainLeads(h: Hashes, c: Case, s: Head)
    requires s.phase.Draining? && s.phase.i < |c.Events()| && AllDone(c, s)
    ensures After(h, c, s, [TasksDrained]) == s.(phase := Observing(s.phase.i, s.phase.held, map[]))
  {
    hide AllDone, Case.Events;
    OneStep(h, c, s, TasksDrained);
  }

  /** Holding all roles and letting the flights end. */
  lemma StoppingLeads(h: Hashes, c: Case, s: Head, holds: seq<RoleId>, landings: seq<RoleId>, how: TaskStatus, rest: seq<Action>)
    returns (n: Head)
    requires ValidCase(c) && Inv(h, c, s) && c.RoleIds() != {}
    requires s.phase.Holding? && s.phase.i < |c.Events()| && s.phase.held == {}
    requires Covers(holds, c.RoleIds()) && Covers(landings, c.RoleIds()) && how != Running
    ensures After(h, c, s, Holds(holds) + (Landings(s.active, landings, how) + rest)) == After(h, c, n, rest)
    ensures Inv(h, c, n) && AllDone(c, n) && n == s.(tasks := n.tasks, phase := Draining(s.phase.i, c.RoleIds()))
  {
    hide ValidCase, Inv, Case.Events, Case.RoleIds, AllDone, After, Holds, Landings;
    var mid, ends := s.(phase := Draining(s.phase.i, c.RoleIds())), Landings(s.active, landings, how);
    assert c.RoleIds() - {} == c.RoleIds();
    HoldsLead(h, c, s, holds);
    Chain(h, c, s, Holds(holds), ends + rest, mid);
    LandingsLead(h, c, mid, landings, how);
    n := After(h, c, mid, ends);
    Chain(h, c, mid, ends, rest, n);
    AllLanded(c, mid, n, landings);
  }

  /** Observing the fleet at rest. */
  lemma ObservingLeads(h: Hashes, c: Case, s: Head, looks: seq<RoleId>, samples: map<RoleId, Sample>)
    requires ValidCase(c) && Inv(h, c, s) && s.phase.Draining? && s.phase.i < |c.Events()| && AllDone(c, s) && c.RoleIds() != {}
    requires samples.Keys == c.RoleIds() && AllUsable(samples)
    requires Covers(looks, c.RoleIds()) && forall r :: r in looks ==> r in samples
    ensures var n := After(h, c, s, [TasksDrained] + Looks(looks, samples));
      Inv(h, c, n) && n == s.(phase := Planning(s.phase.i, s.phase.held, samples))
  {
    hide ValidCase, Inv, Case.Events, Case.RoleIds, AllDone, AllUsable, After, Looks;
    var mid := s.(phase := Observing(s.phase.i, s.phase.held, map[]));
    DrainLeads(h, c, s);
    Chain(h, c, s, [TasksDrained], Looks(looks, samples), mid);
    assert c.RoleIds() - mid.phase.samples.Keys == c.RoleIds();
    LooksLead(h, c, mid, looks, samples);
    Chain(h, c, mid, Looks(looks, samples), [], After(h, c, mid, Looks(looks, samples)));
  }

  /** Up to the plan: the head waits, holds, lets the flights end and observes, and only the tasks and the phase change. */
  lemma GatheringLeads(h: Hashes, c: Case, s: Head, x: Round)
    requires ValidCase(c) && Enabled(c) && Inv(h, c, s) && s.phase.Waiting? && s.phase.i < |c.Events()| && OrderlyRound(c, s, x)
    ensures var n := After(h, c, s, Gathering(s, x));
      Inv(h, c, n) && n == s.(tasks := n.tasks, phase := Planning(s.phase.i, c.RoleIds(), x.samples))
  {
    assert c.RoleIds() != {} by { assert c.roles[0] in c.RoleIds(); }
    assert forall r :: r in x.looks ==> r in x.samples;
    var s1, looks := s.(phase := Holding(s.phase.i, {})), [TasksDrained] + Looks(x.looks, x.samples);
    hide ValidCase, Enabled, Inv, Case.Events, Case.RoleIds, Committable, NoNegativeTimes, Prompt, CoversRoles, After, Holds,
      Landings, Looks, AllDone, AllUsable, Covers;
    TriggerLeads(h, c, s, x.time);
    Chain(h, c, s, [SourceSampled(Some(x.time))], Holds(x.holds) + (Landings(s.active, x.landings, x.ending) + looks), s1);
    var s2 := StoppingLeads(h, c, s1, x.holds, x.landings, x.ending, looks);
    ObservingLeads(h, c, s2, x.looks, x.samples);
  }

  /** The record of round i is about the proposal: its identities, and for every role its trajectory and its authority. */
  ghost predicate About(n: Head, i: nat, p: Proposal) {
    && |n.records| == i + 1
    && n.records[i].proposalSha == Some(p.sha) && n.records[i].trajectories == Some(p.trajectories)
    && n.records[i].planSha == Some(p.planSha) && n.records[i].worldSha == Some(p.worldSha)
    && n.records[i].authorities.Some? && n.records[i].authorities.value.Keys == p.authorities.Keys
    && forall r :: r in p.authorities ==> n.records[i].authorities.value[r] == p.authorities[r].authority
  }

  /** What the committed proposal leaves: its own record, and the phase in which the roles go to the cutover. */
  ghost predicate UnderWay(c: Case, s: Head, n: Head, p: Proposal) {
    && s.phase.Planning? && n.phase.Advancing? && n.phase.i == s.phase.i && n.phase.proposal == p && n.phase.arrived == {}
    && About(n, |s.records|, p)
  }

  lemma CommittedUnderWay(c: Case, h: Hashes, s: Head, p: Proposal, validated: set<RoleId>, latency: real)
    requires s.phase.Planning? && s.phase.i < |c.Events()| && CoversRoles(c, p)
    requires Committed(c, h, s, p, validated, latency).phase.Advancing?
    ensures UnderWay(c, s, Committed(c, h, s, p, validated, latency), p)
  {
    hide Decide, CommitCall, CoversRoles, Case.Events, Case.RoleIds, UsableRoles, Flying;
  }

  lemma PlanLeads(h: Hashes, c: Case, s: Head, p: Proposal, latency: real)
    requires ValidCase(c) && Enabled(c) && s.phase.Planning? && s.phase.i < |c.Events()|
    requires PlanSucceeds(c, s, PlanReturns(Proposed(p), EveryDone(|c.roles|), latency))
    ensures UnderWay(c, s, After(h, c, s, [PlanReturns(Proposed(p), EveryDone(|c.roles|), latency)]), p)
  {
    var validation := EveryDone(|c.roles|);
    assert Steppable(c, s) && CoversRoles(c, p);
    hide ValidCase, Enabled, Case.Events, Case.RoleIds, Committed, PlanSucceeds, CoversRoles, UnderWay, After, PlanReturned, AllValid,
      ValidatedRoles, Steppable, EveryDone;
    PlanIs(h, c, s, Proposed(p), validation, latency);
    PlanningMoves(h, c, s, Proposed(p), validation, latency);
    CommittedUnderWay(c, h, s, p, ValidatedRoles(c, validation), latency);
  }

  /** What the whole round leaves besides the answer: the tasks of the new epoch run, and its record is about the proposal. */
  ghost predicate Flown(c: Case, n: Head, i: nat, p: Proposal) {
    CoversRoles(c, p) && EachRuns(c, n.tasks, i + 2, p) && About(n, i, p)
  }

  lemma ReplacedKeeps(c: Case, s: Head, i: nat, p: Proposal)
    requires s.phase.Dispatching? && About(s, i, p)
    ensures Replaced(c, s).tasks == s.tasks && About(Replaced(c, s), i, p)
  {
  }

  lemma YieldLeads(h: Hashes, c: Case, s: Head)
    requires Inv(h, c, s) && s.phase.Dispatching? && s.phase.i < |c.Events()| && About(s, s.phase.i, s.phase.proposal)
    requires Steppable(c, s) && !ActiveFailure(c, s, false) && !AllDone(c, s)
    ensures var n := After(h, c, s, [LoopYields]);
      Answered(c, n, s.phase.i, s.phase.proposal) && About(n, s.phase.i, s.phase.proposal) && n.tasks == s.tasks
  {
    assert s.records != [];
    hide Inv, Steppable, ActiveFailure, AllDone, Answered, Replaced, Yielded, Case.Events, Case.RoleIds, CoversRoles, After;
    YieldIs(h, c, s);
    YieldingMoves(c, s);
    YieldAnswers(h, c, s);
    ReplacedKeeps(c, s, s.phase.i, s.phase.proposal);
  }

  /** The yield after the launch, with every task still running. */
  lemma LaunchLeads(h: Hashes, c: Case, s: Head)
    requires s.phase.Advancing? && CoversRoles(c, s.phase.proposal) && About(s, s.phase.i, s.phase.proposal)
    requires ValidCase(c) && Enabled(c) && Inv(h, c, s) && Inv(h, c, Launched(c, s))
    ensures var n := After(h, c, Launched(c, s), [LoopYields]);
      Answered(c, n, s.phase.i, s.phase.proposal) && Flown(c, n, s.phase.i, s.phase.proposal)
  {
    hide ValidCase, Enabled, Inv, Case.Events, Case.RoleIds, AllDone, ActiveFailure, CoversRoles, TasksInv, Answered, Launched, After,
      Flown;
    var t := Launched(c, s);
    AdvancingFacts(h, c, s);
    LaunchedFly(c, s);
    LaunchedSays(c, s, t);
    YieldLeads(h, c, t);
    var n := After(h, c, t, [LoopYields]);
    FlownIf(c, n, s.phase.i, s.phase.proposal);
  }

  lemma FlownIf(c: Case, n: Head, i: nat, p: Proposal)
    requires CoversRoles(c, p) && EachRuns(c, n.tasks, i + 2, p) && About(n, i, p)
    ensures Flown(c, n, i, p)
  {
    hide About, CoversRoles, Case.RoleIds;
  }

  lemma AdvancingFacts(h: Hashes, c: Case, s: Head)
    requires Inv(h, c, s) && s.phase.Advancing?
    ensures s.phase.i < |c.Events()| && TasksInv(c.RoleIds(), s.tasks, s.active) && s.active == s.epoch == s.phase.i + 1
  {
  }

  lemma LaunchedSays(c: Case, s: Head, t: Head)
    requires s.phase.Advancing? && CoversRoles(c, s.phase.proposal) && t == Launched(c, s)
    ensures t.phase == Dispatching(s.phase.i, s.phase.proposal, s.phase.next) && t.records == s.records && t.active == s.epoch + 1
  {
    hide WithTasks, CoversRoles;
  }

  lemma FlyingLeads(h: Hashes, c: Case, s: Head, arrivals: seq<RoleId>)
    requires ValidCase(c) && Enabled(c) && Inv(h, c, s) && Steppable(c, s)
    requires s.phase.Advancing? && s.phase.arrived == {} && About(s, s.phase.i, s.phase.proposal) && Covers(arrivals, c.RoleIds())
    ensures var n := After(h, c, s, Arrivals(arrivals) + [LoopYields]);
      Inv(h, c, n) && Answered(c, n, s.phase.i, s.phase.proposal) && Flown(c, n, s.phase.i, s.phase.proposal)
  {
    assert c.RoleIds() != {} by { assert c.roles[0] in c.RoleIds(); }
    hide ValidCase, Enabled, Inv, Case.Events, Case.RoleIds, After, Arrivals, Answered, Flown, Launched, Covers, About, CoversRoles;
    assert c.RoleIds() - {} == c.RoleIds();
    ArrivalsLead(h, c, s, arrivals);
    Chain(h, c, s, Arrivals(arrivals), [LoopYields], Launched(c, s));
    Chain(h, c, Launched(c, s), [LoopYields], [], After(h, c, Launched(c, s), [LoopYields]));
    LaunchLeads(h, c, s);
  }

  /** From the plan on: the replacement is committed, flown to and launched. */
  lemma ReplacingLeads(h: Hashes, c: Case, s: Head, x: Round)
    requires ValidCase(c) && Enabled(c) && Inv(h, c, s) && s.phase.Planning? && |s.records| == s.phase.i < |c.Events()|
    requires PlanSucceeds(c, s, PlanReturns(Proposed(x.proposal), EveryDone(|c.roles|), x.latency))
    requires Covers(x.arrivals, c.RoleIds())
    ensures var n := After(h, c, s, Replacing(c, x));
      Inv(h, c, n) && Answered(c, n, s.phase.i, x.proposal) && Flown(c, n, s.phase.i, x.proposal)
  {
    var plan := [PlanReturns(Proposed(x.proposal), EveryDone(|c.roles|), x.latency)];
    hide ValidCase, Enabled, Inv, Case.Events, Case.RoleIds, PlanSucceeds, After, Arrivals, Answered, Flown, Covers;
    PlanLeads(h, c, s, x.proposal, x.latency);
    var s1 := After(h, c, s, plan);
    Chain(h, c, s, plan, Arrivals(x.arrivals) + [LoopYields], s1);
    InvSteppable(h, c, s1);
    FlyingLeads(h, c, s1, x.arrivals);
  }

  /** An orderly round delivers: from waiting for event i to the event answered, the replacement flown by every role and on
      record, and the next event waited for, whatever the order in which the roles report. */
  lemma OrderlyRoundDelivers(h: Hashes, c: Case, s: Head, x: Round)
    requires ValidCase(c) && Enabled(c) && Inv(h, c, s) && s.phase.Waiting? && s.phase.i < |c.Events()| && OrderlyRound(c, s, x)
    ensures var n := After(h, c, s, Gathering(s, x) + Replacing(c, x));
      Inv(h, c, n) && Answered(c, n, s.phase.i, x.proposal) && Flown(c, n, s.phase.i, x.proposal)
  {
    GatheringLeads(h, c, s, x);
    var s1 := After(h, c, s, Gathering(s, x));
    AfterBoth(h, c, s, Gathering(s, x), Replacing(c, x));
    assert |s1.records| == s1.phase.i;
    assert PlanSucceeds(c, s1, PlanReturns(Proposed(x.proposal), EveryDone(|c.roles|), x.latency)) by {
      hide Committable, NoNegativeTimes, Prompt, CoversRoles, Inv;
    }
    assert Covers(x.arrivals, c.RoleIds()) && CoversRoles(c, x.proposal);
    hide *;
    ReplacingLeads(h, c, s1, x);
  }
}
