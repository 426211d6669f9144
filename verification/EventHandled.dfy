/** The offline analyzer's reading of the head's trace: the runtime half of the EVENT_HANDLED oracle. */
module EventHandled {
  import opened Wrappers
  import opened Roles
  import opened Replanning
  import opened HeadProtocol
  import opened HeadSafety

  function AcceptedEnvironmentEvents(scenario: seq<ScenarioEvent>): set<string> {
    set e | e in scenario && e.AcceptedEnvironmentChange() :: e.id
  }

  predicate LooksLikeHash(value: Option<string>) {
    value.Some? && |value.value| == 64
  }

  predicate NamesRoles(names: Option<seq<RoleId>>, roles: set<RoleId>) {
    names.Some? && (set r | r in names.value) == roles
  }

  /** What the analyzer asks of one record before it counts. */
  predicate Handles(roles: set<RoleId>, r: Record) {
    && r.disposition == Decided(Accepted)
    && r.execution == Some(Dispatched)
    && r.trajectories.Some? && r.trajectories.value.Keys == roles
    && r.authorities.Some? && r.authorities.value.Keys == roles
    && NamesRoles(r.prepared, roles)
    && NamesRoles(r.dispatched, roles)
    && LooksLikeHash(r.proposalSha) && LooksLikeHash(r.decisionSha)
    && LooksLikeHash(r.planSha) && LooksLikeHash(r.worldSha)
  }

  function RuntimeHandledEvents(roles: set<RoleId>, records: seq<Record>): set<string> {
    set r | r in records && Handles(roles, r) :: r.eventId
  }

  predicate RuntimeHandled(c: Case, records: seq<Record>) {
    AcceptedEnvironmentEvents(c.scenario) <= RuntimeHandledEvents(c.RoleIds(), records)
  }

  /** Event i was really dispatched: the head adopted the epoch that answers it, with a task for every role. */
  ghost predicate DispatchedToAll(c: Case, s: Head, i: nat) {
    i + 2 <= s.epoch && forall r :: r in c.RoleIds() ==> TaskId(i + 2, r) in s.tasks
  }

  // ----- the events of the head and of the analyzer -----

  lemma {:induction false} HeadEventsDistinct(scenario: seq<ScenarioEvent>)
    requires forall i, j :: 0 <= i < j < |scenario| ==> scenario[i].id != scenario[j].id
    ensures forall i, j :: 0 <= i < j < |HeadEvents(scenario)| ==> HeadEvents(scenario)[i].id != HeadEvents(scenario)[j].id
  {
    if scenario != [] {
      HeadEventsDistinct(scenario[1..]);
      var later := HeadEvents(scenario[1..]);
      forall j | 0 <= j < |later| ensures later[j].id != scenario[0].id {
        assert later[j] in scenario[1..];
      }
    }
  }

  /** The head and the analyzer select the same events. */
  lemma SameEvents(c: Case)
    ensures AcceptedEnvironmentEvents(c.scenario) == set i | 0 <= i < |c.Events()| :: c.Events()[i].id
  {
    var events := c.Events();
    forall id | id in AcceptedEnvironmentEvents(c.scenario)
      ensures id in (set i | 0 <= i < |events| :: events[i].id)
    {
      var e :| e in c.scenario && e.AcceptedEnvironmentChange() && e.id == id;
      assert e in events;
    }
    forall id | id in (set i | 0 <= i < |events| :: events[i].id)
      ensures id in AcceptedEnvironmentEvents(c.scenario)
    {
      var i :| 0 <= i < |events| && events[i].id == id;
      assert events[i] in events;
    }
  }

  // ----- records -----

  /** Fallbacks, missed events and failures after the commit never count. */
  lemma OnlyDispatchedCounts(roles: set<RoleId>, r: Record)
    requires r.disposition.NotInFlight? || r.disposition.SafeFallbackTaken? || r.execution == Some(PostCommitSafeFallback)
             || r.execution == Some(NotDispatched)
    ensures !Handles(roles, r)
  {
  }

  lemma DeliveredHandles(c: Case, r: Record)
    requires Delivered(c, r)
    ensures Handles(c.RoleIds(), r)
  {
  }

  /** The analyzer credits exactly the events whose replacement the head adopted. */
  lemma CreditedEvents(c: Case, records: seq<Record>, done: nat)
    requires RecordsInv(c, records, done)
    ensures RuntimeHandledEvents(c.RoleIds(), records) == set i | 0 <= i < done :: c.Events()[i].id
  {
    var events := c.Events();
    forall id | id in RuntimeHandledEvents(c.RoleIds(), records)
      ensures id in (set i | 0 <= i < done :: events[i].id)
    {
      var r :| r in records && Handles(c.RoleIds(), r) && r.eventId == id;
      var k :| 0 <= k < |records| && records[k] == r;
      assert k < done;
    }
    forall id | id in (set i | 0 <= i < done :: events[i].id)
      ensures id in RuntimeHandledEvents(c.RoleIds(), records)
    {
      var i :| 0 <= i < done && events[i].id == id;
      DeliveredHandles(c, records[i]);
      assert records[i] in records;
    }
  }

  lemma AdoptedIsDispatched(c: Case, s: Head, i: nat)
    requires TasksInv(c.RoleIds(), s.tasks, s.active) && s.epoch <= s.active
    ensures DispatchedToAll(c, s, i) <==> i + 2 <= s.epoch
  {
  }

  /** In every reachable state the analyzer credits event i exactly when the head dispatched it to every role. */
  lemma CreditIsDispatch(h: Hashes, c: Case, unset: Sha, states: seq<Head>, actions: seq<Action>, k: nat, i: nat)
    requires ValidCase(c) && IsRun(h, c, unset, states, actions) && k < |states| && i < |c.Events()|
    ensures c.Events()[i].id in RuntimeHandledEvents(c.RoleIds(), states[k].records) <==> DispatchedToAll(c, states[k], i)
  {
    var s := states[k];
    ReachableInv(h, c, unset, states, actions, k);
    if s.epoch != 0 {
      CreditedEvents(c, s.records, s.epoch - 1);
      HeadEventsDistinct(c.scenario);
      AdoptedIsDispatched(c, s, i);
    }
  }

  /** The agreement of the two components: on the trace of any reachable state, the oracle holds exactly
      when every accepted environment event was dispatched to all roles. */
  lemma HeadAndAnalyzerAgree(h: Hashes, c: Case, unset: Sha, states: seq<Head>, actions: seq<Action>, k: nat)
    requires ValidCase(c) && IsRun(h, c, unset, states, actions) && k < |states|
    ensures RuntimeHandled(c, states[k].records) <==> forall i :: 0 <= i < |c.Events()| ==> DispatchedToAll(c, states[k], i)
  {
    var credited := RuntimeHandledEvents(c.RoleIds(), states[k].records);
    SameEvents(c);
    forall i | 0 <= i < |c.Events()|
      ensures c.Events()[i].id in credited <==> DispatchedToAll(c, states[k], i)
    {
      CreditIsDispatch(h, c, unset, states, actions, k, i);
    }
    if RuntimeHandled(c, states[k].records) {
      forall i | 0 <= i < |c.Events()| ensures DispatchedToAll(c, states[k], i) {
        assert c.Events()[i].id in credited;
      }
    }
  }
}
