/** The in-flight replanning coordinator: it sequences world events and commits one fleet epoch at a time. */
module Replanning {
  import opened Wrappers
  import opened Roles
  import opened Vectors

  /** A hexadecimal SHA-256 digest. */
  type Sha = s: string | |s| == 64 witness seq(64, i => '0')

  datatype Authority = AbortOnly | OperatorApprovalRequired | AutoWithinFrozenLimits

  datatype CaseLimits = CaseLimits(droneCount: nat, authority: Authority, planningBudget: real, freshness: real)

  datatype Event = Event(
    id: string, sourceId: string, sequence: nat, observed: real, received: real, effective: real,
    authenticated: bool, affected: set<RoleId>)

  datatype Replacement = Replacement(
    role: RoleId, oldTrajectory: Sha, trajectory: Sha, feasible: bool,
    cancellationAcknowledged: bool, replacementAcknowledged: bool)
  {
    predicate Complete() { feasible && cancellationAcknowledged && replacementAcknowledged }
  }

  datatype Timing = Timing(
    decision: real, queue: real, planning: real, acknowledgement: real, guard: real, oldSafeUntil: real)

  datatype Horizon = Horizon(cutover: real, passed: bool)

  datatype Fallback = ContinueOldSafeEpoch | FleetAbortAndLand

  datatype Disposition =
    Accepted | DuplicateIdempotent | RejectedStale | RejectedAuthority | BlockedReactionHorizon | BlockedAtomicCommit

  /** One reservation epoch that replaces the whole affected fleet. */
  datatype Epoch = Epoch(number: nat, oldReservation: Sha, reservation: Sha, cutover: real, replacements: seq<Replacement>)

  datatype Decision = Decision(
    eventId: string, disposition: Disposition, horizon: Horizon, oldEpoch: nat,
    epoch: Option<Epoch>, fallback: Option<Fallback>)

  datatype ReplanError = NegativeTiming | InvalidRoles

  /** The arguments of one call. */
  datatype Call = Call(
    event: Event, timing: Timing, oldStillSafe: bool, oldEpoch: nat, oldReservation: Sha,
    replacements: seq<Replacement>, certificates: nat, operatorApproved: bool)

  /** Hash of the new reservation: epoch number, replacements in role order, shared cutover time. */
  type ReservationHash = (nat, seq<Replacement>, real) -> Sha

  datatype CoordinatorState = CoordinatorState(latest: map<string, nat>, decisions: map<string, Decision>)

  const EMPTY_COORDINATOR := CoordinatorState(map[], map[])

  function Latest(latest: map<string, nat>, source: string): nat {
    if source in latest then latest[source] else 0
  }

  function RoleSet(replacements: seq<Replacement>): set<RoleId> {
    set r | r in replacements :: r.role
  }

  predicate DistinctRoles(replacements: seq<Replacement>) {
    forall i, j :: 0 <= i < j < |replacements| ==> replacements[i].role != replacements[j].role
  }

  predicate ValidTiming(t: Timing) {
    0.0 <= t.decision && 0.0 <= t.queue && 0.0 <= t.planning
    && 0.0 <= t.acknowledgement && 0.0 <= t.guard && 0.0 <= t.oldSafeUntil
  }

  function ReactionHorizon(limits: CaseLimits, e: Event, t: Timing): Horizon {
    var observation := e.received - e.observed;
    var total := observation + t.queue + t.planning + t.acknowledgement + t.guard;
    var cutover := Max(e.observed + total, t.decision + t.acknowledgement + t.guard);
    var deadline := Min(e.effective, t.oldSafeUntil);
    Horizon(cutover,
            observation <= limits.freshness && t.planning <= limits.planningBudget && cutover <= deadline + 1e-9)
  }

  function SafeFallback(oldStillSafe: bool): Fallback {
    if oldStillSafe then ContinueOldSafeEpoch else FleetAbortAndLand
  }

  function Rejection(c: Call, disposition: Disposition, horizon: Horizon, fallback: Fallback): Decision {
    Decision(c.event.id, disposition, horizon, c.oldEpoch, None, Some(fallback))
  }

  predicate OperatorMissing(limits: CaseLimits, c: Call) {
    limits.authority.AbortOnly? || (limits.authority.OperatorApprovalRequired? && !c.operatorApproved)
  }

  /** All or nothing: one epoch for every replacement, or none. */
  function AtomicFleetCommit(limits: CaseLimits, hash: ReservationHash, c: Call, cutover: real): Result<Option<Epoch>, ReplanError> {
    if c.replacements == [] || !DistinctRoles(c.replacements) || limits.droneCount < |c.replacements| then
      Failure(InvalidRoles)
    else if forall i :: 0 <= i < |c.replacements| ==> c.replacements[i].Complete() then
      Success(Some(Epoch(c.oldEpoch + 1, c.oldReservation, hash(c.oldEpoch + 1, c.replacements, cutover), cutover, c.replacements)))
    else
      Success(None)
  }

  /** The decision for an event that is neither a duplicate nor stale. */
  function FreshDecision(limits: CaseLimits, hash: ReservationHash, c: Call): Result<Decision, ReplanError> {
    var horizon := ReactionHorizon(limits, c.event, c.timing);
    if !c.event.authenticated then Success(Rejection(c, RejectedAuthority, horizon, ContinueOldSafeEpoch))
    else if OperatorMissing(limits, c) then Success(Rejection(c, RejectedAuthority, horizon, SafeFallback(c.oldStillSafe)))
    else if !horizon.passed then Success(Rejection(c, BlockedReactionHorizon, horizon, SafeFallback(c.oldStillSafe)))
    else if c.certificates != |c.replacements| || c.event.affected != RoleSet(c.replacements) then
      Success(Rejection(c, BlockedAtomicCommit, horizon, SafeFallback(c.oldStillSafe)))
    else
      match AtomicFleetCommit(limits, hash, c, horizon.cutover)
      case Failure(e) => Failure(e)
      case Success(None) => Success(Rejection(c, BlockedAtomicCommit, horizon, SafeFallback(c.oldStillSafe)))
      case Success(Some(epoch)) => Success(Decision(c.event.id, Accepted, horizon, c.oldEpoch, Some(epoch), None))
  }

  /** One call as a function of the coordinator's tables. */
  function Decide(limits: CaseLimits, hash: ReservationHash, s: CoordinatorState, c: Call)
    : (CoordinatorState, Result<Decision, ReplanError>)
  {
    var e := c.event;
    if e.id in s.decisions then
      var existing := s.decisions[e.id];
      var fallback := if existing.fallback.Some? then existing.fallback.value else ContinueOldSafeEpoch;
      (s, Success(Rejection(c, DuplicateIdempotent, existing.horizon, fallback)))
    else if !ValidTiming(c.timing) then (s, Failure(NegativeTiming))
    else if e.sequence <= Latest(s.latest, e.sourceId) then
      var stale := Rejection(c, RejectedStale, ReactionHorizon(limits, e, c.timing), SafeFallback(c.oldStillSafe));
      (s.(decisions := s.decisions[e.id := stale]), Success(stale))
    else
      var latest := s.latest[e.sourceId := e.sequence];
      match FreshDecision(limits, hash, c)
      case Failure(error) => (s.(latest := latest), Failure(error))
      case Success(d) => (CoordinatorState(latest, s.decisions[e.id := d]), Success(d))
  }

  class InFlightReplanCoordinator {
    const limits: CaseLimits
    const hash: ReservationHash
    var latest: map<string, nat>
    var decisions: map<string, Decision>

    constructor (limits: CaseLimits, hash: ReservationHash)
      ensures this.limits == limits && this.hash == hash
      ensures State() == EMPTY_COORDINATOR
    {
      this.limits, this.hash := limits, hash;
      latest, decisions := map[], map[];
    }

    function State(): CoordinatorState
      reads this
    {
      CoordinatorState(latest, decisions)
    }

    method Replan(c: Call) returns (result: Result<Decision, ReplanError>)
      modifies this
      ensures (State(), result) == Decide(limits, hash, old(State()), c)
    {
      var e := c.event;
      if e.id in decisions {
        var existing := decisions[e.id];
        var fallback := if existing.fallback.Some? then existing.fallback.value else ContinueOldSafeEpoch;
        return Success(Rejection(c, DuplicateIdempotent, existing.horizon, fallback));
      }
      if !ValidTiming(c.timing) {
        return Failure(NegativeTiming);
      }
      var horizon := ReactionHorizon(limits, e, c.timing);
      if e.sequence <= Latest(latest, e.sourceId) {
        var stale := Rejection(c, RejectedStale, horizon, SafeFallback(c.oldStillSafe));
        decisions := decisions[e.id := stale];
        return Success(stale);
      }
      latest := latest[e.sourceId := e.sequence];
      var decision;
      if !e.authenticated {
        decision := Rejection(c, RejectedAuthority, horizon, ContinueOldSafeEpoch);
      } else if OperatorMissing(limits, c) {
        decision := Rejection(c, RejectedAuthority, horizon, SafeFallback(c.oldStillSafe));
      } else if !horizon.passed {
        decision := Rejection(c, BlockedReactionHorizon, horizon, SafeFallback(c.oldStillSafe));
      } else if c.certificates != |c.replacements| || e.affected != RoleSet(c.replacements) {
        decision := Rejection(c, BlockedAtomicCommit, horizon, SafeFallback(c.oldStillSafe));
      } else {
        var fleet := AtomicFleetCommit(limits, hash, c, horizon.cutover);
        if fleet.Failure? {
          return Failure(fleet.error);
        }
        if fleet.value.Some? {
          decision := Decision(e.id, Accepted, horizon, c.oldEpoch, fleet.value, None);
        } else {
          decision := Rejection(c, BlockedAtomicCommit, horizon, SafeFallback(c.oldStillSafe));
        }
      }
      decisions := decisions[e.id := decision];
      return Success(decision);
    }
  }

  // ----- every history of calls -----

  predicate IsAccepted(r: Result<Decision, ReplanError>) {
    r.Success? && r.value.disposition.Accepted?
  }

  /** When everything that has to happen before the cutover is over: observing, queueing, planning, acknowledging and the
      guard. */
  ghost function Reacted(c: Call): real {
    c.event.received + c.timing.queue + c.timing.planning + c.timing.acknowledgement + c.timing.guard
  }

  /** And when acknowledgement and guard are over, counted from the decision. */
  ghost function Decided(c: Call): real { c.timing.decision + c.timing.acknowledgement + c.timing.guard }

  /** The world was seen freshly, planning kept its budget, and both instants are before the event takes effect and before
      the old epoch stops being safe. */
  ghost predicate InTime(limits: CaseLimits, c: Call) {
    && c.event.received - c.event.observed <= limits.freshness && c.timing.planning <= limits.planningBudget
    && Reacted(c) <= c.event.effective + 1e-9 && Reacted(c) <= c.timing.oldSafeUntil + 1e-9
    && Decided(c) <= c.event.effective + 1e-9 && Decided(c) <= c.timing.oldSafeUntil + 1e-9
  }

  /** The cutover is the later of the two instants. */
  ghost predicate CutsOverAt(c: Call, cutover: real) {
    Reacted(c) <= cutover && Decided(c) <= cutover && (cutover == Reacted(c) || cutover == Decided(c))
  }

  ghost predicate HorizonOf(limits: CaseLimits, c: Call, h: Horizon) {
    CutsOverAt(c, h.cutover) && (h.passed <==> InTime(limits, c))
  }

  /** The case lets the system replan by itself, or an operator has approved. */
  ghost predicate Admitted(limits: CaseLimits, c: Call) {
    limits.authority.AutoWithinFrozenLimits? || (limits.authority.OperatorApprovalRequired? && c.operatorApproved)
  }

  /** One certificate for each replacement, and a replacement for exactly the affected roles. */
  ghost predicate CoversAffected(c: Call) {
    && c.certificates == |c.replacements|
    && forall r :: r in c.event.affected <==> exists i :: 0 <= i < |c.replacements| && c.replacements[i].role == r
  }

  /** A replacement for one role or more, none twice, no more than there are vehicles. */
  ghost predicate SoundRoles(limits: CaseLimits, c: Call) {
    1 <= |c.replacements| <= limits.droneCount && DistinctRoles(c.replacements)
  }

  ghost predicate AllAcknowledged(c: Call) {
    forall i :: 0 <= i < |c.replacements| ==>
      c.replacements[i].feasible && c.replacements[i].cancellationAcknowledged && c.replacements[i].replacementAcknowledged
  }

  /** Stay in the old epoch while it is safe, and land otherwise. */
  ghost predicate SafeWayOut(c: Call, fallback: Option<Fallback>) {
    fallback == if c.oldStillSafe then Some(ContinueOldSafeEpoch) else Some(FleetAbortAndLand)
  }

  ghost predicate Refuses(limits: CaseLimits, c: Call, d: Decision, disposition: Disposition) {
    && d.eventId == c.event.id && d.disposition == disposition && d.oldEpoch == c.oldEpoch && d.epoch.None?
    && HorizonOf(limits, c, d.horizon)
  }

  /** One successor epoch that carries every replacement at the cutover. */
  ghost predicate Commits(limits: CaseLimits, hash: ReservationHash, c: Call, d: Decision) {
    && d.eventId == c.event.id && d.disposition.Accepted? && d.oldEpoch == c.oldEpoch && d.fallback.None?
    && HorizonOf(limits, c, d.horizon) && d.epoch.Some?
    && d.epoch.value.number == c.oldEpoch + 1 && d.epoch.value.oldReservation == c.oldReservation
    && d.epoch.value.replacements == c.replacements && d.epoch.value.cutover == d.horizon.cutover
    && d.epoch.value.reservation == hash(c.oldEpoch + 1, c.replacements, d.horizon.cutover)
  }

  /** An event with a new id, valid timing and a sequence number its source has not reached yet. */
  ghost predicate IsFresh(s: CoordinatorState, c: Call) {
    c.event.id !in s.decisions && ValidTiming(c.timing)
    && (c.event.sourceId in s.latest ==> s.latest[c.event.sourceId] < c.event.sequence)
    && 0 < c.event.sequence
  }

  lemma HorizonIs(limits: CaseLimits, c: Call)
    ensures HorizonOf(limits, c, ReactionHorizon(limits, c.event, c.timing))
  {
  }

  lemma CoversIff(c: Call)
    ensures c.event.affected == RoleSet(c.replacements) && c.certificates == |c.replacements| <==> CoversAffected(c)
  {
    var roles := RoleSet(c.replacements);
    forall r ensures r in roles <==> exists i :: 0 <= i < |c.replacements| && c.replacements[i].role == r {
      if r in roles { var x :| x in c.replacements && x.role == r; }
    }
  }

  /** A repeated event id is answered as a duplicate with the horizon on record, and changes nothing. */
  lemma DuplicateAnswered(limits: CaseLimits, hash: ReservationHash, s: CoordinatorState, c: Call)
    requires c.event.id in s.decisions
    ensures var (n, r) := Decide(limits, hash, s, c); var first := s.decisions[c.event.id];
      && n == s && r.Success? && r.value.disposition == DuplicateIdempotent && r.value.eventId == c.event.id
      && r.value.oldEpoch == c.oldEpoch && r.value.epoch.None? && r.value.horizon == first.horizon
      && r.value.fallback == if first.fallback.Some? then first.fallback else Some(ContinueOldSafeEpoch)
  {
  }

  /** A negative time is refused before anything is recorded. */
  lemma BadTimingRefused(limits: CaseLimits, hash: ReservationHash, s: CoordinatorState, c: Call)
    requires c.event.id !in s.decisions
    ensures var (n, r) := Decide(limits, hash, s, c); var t := c.timing;
      r == Failure(NegativeTiming) <==> (t.decision < 0.0 || t.queue < 0.0 || t.planning < 0.0 || t.acknowledgement < 0.0
                                         || t.guard < 0.0 || t.oldSafeUntil < 0.0)
    ensures Decide(limits, hash, s, c).1 == Failure(NegativeTiming) ==> Decide(limits, hash, s, c).0 == s
  {
  }

  /** A sequence number its source has reached is stale: recorded under the event id, and nothing else. */
  lemma StaleAnswered(limits: CaseLimits, hash: ReservationHash, s: CoordinatorState, c: Call)
    requires c.event.id !in s.decisions && ValidTiming(c.timing) && !IsFresh(s, c)
    ensures var (n, r) := Decide(limits, hash, s, c);
      && r.Success? && Refuses(limits, c, r.value, RejectedStale) && SafeWayOut(c, r.value.fallback)
      && n == s.(decisions := s.decisions[c.event.id := r.value])
  {
    HorizonIs(limits, c);
    hide HorizonOf, ReactionHorizon;
  }

  /** What a fresh event gets, by the first condition it fails. */
  ghost predicate FreshAnswer(limits: CaseLimits, hash: ReservationHash, c: Call, r: Result<Decision, ReplanError>) {
    if !c.event.authenticated then
      r.Success? && Refuses(limits, c, r.value, RejectedAuthority) && r.value.fallback == Some(ContinueOldSafeEpoch)
    else if !Admitted(limits, c) then
      r.Success? && Refuses(limits, c, r.value, RejectedAuthority) && SafeWayOut(c, r.value.fallback)
    else if !InTime(limits, c) then
      r.Success? && Refuses(limits, c, r.value, BlockedReactionHorizon) && SafeWayOut(c, r.value.fallback)
    else if !CoversAffected(c) then
      r.Success? && Refuses(limits, c, r.value, BlockedAtomicCommit) && SafeWayOut(c, r.value.fallback)
    else if !SoundRoles(limits, c) then r == Failure(InvalidRoles)
    else if !AllAcknowledged(c) then
      r.Success? && Refuses(limits, c, r.value, BlockedAtomicCommit) && SafeWayOut(c, r.value.fallback)
    else r.Success? && Commits(limits, hash, c, r.value)
  }

  lemma FreshAnswered(limits: CaseLimits, hash: ReservationHash, s: CoordinatorState, c: Call)
    requires IsFresh(s, c)
    ensures FreshAnswer(limits, hash, c, Decide(limits, hash, s, c).1)
  {
    HorizonIs(limits, c);
    CoversIff(c);
    hide ReactionHorizon, RoleSet, CoversAffected, DistinctRoles, InTime, CutsOverAt;
  }

  /** A fresh event moves its source's sequence number on, and its decision, if there is one, is recorded. */
  lemma FreshRecorded(limits: CaseLimits, hash: ReservationHash, s: CoordinatorState, c: Call)
    requires IsFresh(s, c)
    ensures var (n, r) := Decide(limits, hash, s, c);
      && n.latest == s.latest[c.event.sourceId := c.event.sequence]
      && n.decisions == if r.Success? then s.decisions[c.event.id := r.value] else s.decisions
  {
    hide FreshDecision;
  }

  /** Exactly when a call is accepted: the event is fresh and authenticated, the authority admits it, there is time, and every
      affected role has one certified, feasible and doubly acknowledged replacement. */
  lemma AcceptedIff(limits: CaseLimits, hash: ReservationHash, s: CoordinatorState, c: Call)
    ensures IsAccepted(Decide(limits, hash, s, c).1) <==>
      && IsFresh(s, c) && c.event.authenticated && Admitted(limits, c) && InTime(limits, c)
      && CoversAffected(c) && SoundRoles(limits, c) && AllAcknowledged(c)
  {
    hide Decide, Admitted, InTime, CoversAffected, SoundRoles, AllAcknowledged, HorizonOf, SafeWayOut, IsFresh;
    if IsFresh(s, c) {
      FreshAnswered(limits, hash, s, c);
    } else {
      NotFreshAnswered(limits, hash, s, c);
    }
  }

  lemma NotFreshAnswered(limits: CaseLimits, hash: ReservationHash, s: CoordinatorState, c: Call)
    requires !IsFresh(s, c)
    ensures !IsAccepted(Decide(limits, hash, s, c).1)
  {
  }

  /** What an acceptance stands for: an authenticated event in time, every replacement certified and
      acknowledged on both sides, and one successor epoch that carries all of them. */
  ghost predicate AtomicCommit(limits: CaseLimits, hash: ReservationHash, c: Call, d: Decision) {
    && c.event.authenticated && Admitted(limits, c) && InTime(limits, c)
    && CoversAffected(c) && SoundRoles(limits, c) && AllAcknowledged(c) && Commits(limits, hash, c, d)
  }

  /** A decision accepts exactly when it carries an epoch, and then the commit is whole. */
  lemma AllOrNothing(limits: CaseLimits, hash: ReservationHash, s: CoordinatorState, c: Call)
    ensures var r := Decide(limits, hash, s, c).1;
      && (r.Success? ==> (r.value.epoch.Some? <==> r.value.disposition.Accepted?))
      && (IsAccepted(r) ==> AtomicCommit(limits, hash, c, r.value))
  {
    AcceptedIff(limits, hash, s, c);
    EpochMeansAccepted(limits, hash, s, c);
    if IsAccepted(Decide(limits, hash, s, c).1) {
      hide Decide, Admitted, InTime, CoversAffected, SoundRoles, AllAcknowledged, HorizonOf, SafeWayOut, IsFresh, Commits;
      FreshAnswered(limits, hash, s, c);
    }
  }

  lemma EpochMeansAccepted(limits: CaseLimits, hash: ReservationHash, s: CoordinatorState, c: Call)
    ensures var r := Decide(limits, hash, s, c).1; r.Success? ==> (r.value.epoch.Some? <==> r.value.disposition.Accepted?)
  {
    hide ReactionHorizon;
  }

  function Outcomes(limits: CaseLimits, hash: ReservationHash, s: CoordinatorState, calls: seq<Call>)
    : (results: seq<Result<Decision, ReplanError>>)
    ensures |results| == |calls|
    decreases |calls|
  {
    if calls == [] then []
    else
      var (next, r) := Decide(limits, hash, s, calls[0]);
      [r] + Outcomes(limits, hash, next, calls[1..])
  }

  lemma {:induction false} AcceptedIsFresh(limits: CaseLimits, hash: ReservationHash, s: CoordinatorState, calls: seq<Call>, j: nat)
    requires j < |calls| && IsAccepted(Outcomes(limits, hash, s, calls)[j])
    ensures calls[j].event.id !in s.decisions
    ensures Latest(s.latest, calls[j].event.sourceId) < calls[j].event.sequence
    decreases |calls|
  {
    if 0 < j {
      AcceptedIsFresh(limits, hash, Decide(limits, hash, s, calls[0]).0, calls[1..], j - 1);
    }
  }

  /** Over every history of calls, an event id commits at most one epoch and the accepted sequence
      numbers of one source strictly increase. */
  lemma {:induction false} AcceptedInOrder(
    limits: CaseLimits, hash: ReservationHash, s: CoordinatorState, calls: seq<Call>, i: nat, j: nat)
    requires i < j < |calls|
    requires IsAccepted(Outcomes(limits, hash, s, calls)[i]) && IsAccepted(Outcomes(limits, hash, s, calls)[j])
    ensures calls[i].event.id != calls[j].event.id
    ensures calls[i].event.sourceId == calls[j].event.sourceId ==> calls[i].event.sequence < calls[j].event.sequence
    decreases |calls|
  {
    var next := Decide(limits, hash, s, calls[0]).0;
    if i == 0 {
      AcceptedIsFresh(limits, hash, next, calls[1..], j - 1);
    } else {
      AcceptedInOrder(limits, hash, next, calls[1..], i - 1, j - 1);
    }
  }
}
