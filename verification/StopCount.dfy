/** Unintended stops: low-speed runs followed by renewed motion. */
module StopCount {
  import opened Wrappers
  import opened TimeSeries

  type Speeds = seq<Stamped<real>>

  datatype Parameters = Parameters(threshold: real, persistence: real)

  predicate Low(p: Parameters, s: Stamped<real>) { s.value <= p.threshold }

  /** Some declared stop falls in the run, give or take the persistence. */
  predicate Declared(p: Parameters, declared: seq<real>, start: real, resumed: real) {
    exists d :: d in declared && start - p.persistence <= d <= resumed + p.persistence
  }

  /** The samples i..j-1 are a maximal run of low speed, and j is the faster sample that ends it. */
  ghost predicate LowRun(p: Parameters, values: Speeds, i: nat, j: nat) {
    && i < j < |values|
    && (forall k :: i <= k < j ==> Low(p, values[k]))
    && !Low(p, values[j])
    && (i == 0 || !Low(p, values[i - 1]))
  }

  ghost predicate Unintended(p: Parameters, declared: seq<real>, values: Speeds, i: nat, j: nat) {
    && LowRun(p, values, i, j)
    && p.persistence <= values[j].time - values[i].time
    && p.persistence < values[|values| - 1].time - values[j].time
    && !Declared(p, declared, values[i].time, values[j].time)
  }

  /** The unintended stops that ended before sample n. */
  ghost function StopsBefore(p: Parameters, declared: seq<real>, values: Speeds, n: nat): set<(nat, nat)> {
    set i: nat, j: nat | i < n && j < n && Unintended(p, declared, values, i, j) :: (i, j)
  }

  ghost function Stops(p: Parameters, declared: seq<real>, values: Speeds): set<(nat, nat)> {
    StopsBefore(p, declared, values, |values|)
  }

  /** A run that began at sample i is still going on before sample k. */
  ghost predicate Running(p: Parameters, values: Speeds, i: nat, k: nat) {
    && i < k <= |values|
    && (forall m :: i <= m < k ==> Low(p, values[m]))
    && (i == 0 || !Low(p, values[i - 1]))
  }

  lemma OneRunEndsHere(p: Parameters, values: Speeds, i: nat, k: nat, other: nat)
    requires Running(p, values, i, k) && LowRun(p, values, other, k)
    ensures other == i
  {
  }

  lemma NoneEndsHere(p: Parameters, declared: seq<real>, values: Speeds, k: nat)
    requires k < |values|
    requires forall i: nat :: !Unintended(p, declared, values, i, k)
    ensures StopsBefore(p, declared, values, k + 1) == StopsBefore(p, declared, values, k)
  {
  }

  lemma OneEndsHere(p: Parameters, declared: seq<real>, values: Speeds, i: nat, k: nat)
    requires k < |values| && Running(p, values, i, k) && Unintended(p, declared, values, i, k)
    ensures |StopsBefore(p, declared, values, k + 1)| == |StopsBefore(p, declared, values, k)| + 1
  {
    forall other: nat | Unintended(p, declared, values, other, k) ensures other == i {
      OneRunEndsHere(p, values, i, k, other);
    }
    assert StopsBefore(p, declared, values, k + 1) == StopsBefore(p, declared, values, k) + {(i, k)};
  }

  /** The running flag is exact: at sample k a run is open just when the sample before it was low. */
  lemma RunEnds(p: Parameters, declared: seq<real>, values: Speeds, i: nat, k: nat)
    requires k < |values| && Running(p, values, i, k) && !Unintended(p, declared, values, i, k)
    ensures StopsBefore(p, declared, values, k + 1) == StopsBefore(p, declared, values, k)
  {
    forall other: nat ensures !Unintended(p, declared, values, other, k) {
      if LowRun(p, values, other, k) { OneRunEndsHere(p, values, i, k, other); }
    }
    NoneEndsHere(p, declared, values, k);
  }

  lemma NoRunOpen(p: Parameters, declared: seq<real>, values: Speeds, k: nat)
    requires k < |values| && (k == 0 || !Low(p, values[k - 1]) || Low(p, values[k]))
    ensures StopsBefore(p, declared, values, k + 1) == StopsBefore(p, declared, values, k)
  {
    forall other: nat ensures !Unintended(p, declared, values, other, k) {
    }
    NoneEndsHere(p, declared, values, k);
  }

  method CountStops(p: Parameters, declared: seq<real>, values: Speeds) returns (count: nat)
    ensures count == |Stops(p, declared, values)|
  {
    hide StopsBefore;
    count := 0;
    var start: Option<real> := None;
    ghost var began := 0;
    assert StopsBefore(p, declared, values, 0) == {} by { NoStopYet(p, declared, values); }
    for k := 0 to |values|
      invariant count == |StopsBefore(p, declared, values, k)|
      invariant start.None? ==> k == 0 || !Low(p, values[k - 1])
      invariant start.Some? ==> Running(p, values, began, k) && start.value == values[began].time
    {
      var now := values[k];
      if Low(p, now) {
        NoRunOpen(p, declared, values, k);
        if start.None? {
          start, began := Some(now.time), k;
        }
      } else if start.Some? {
        var terminal := values[|values| - 1].time - now.time <= p.persistence;
        if p.persistence <= now.time - start.value && !terminal && !Declared(p, declared, start.value, now.time) {
          OneEndsHere(p, declared, values, began, k);
          count := count + 1;
        } else {
          RunEnds(p, declared, values, began, k);
        }
        start := None;
      } else {
        NoRunOpen(p, declared, values, k);
      }
    }
  }

  lemma NoStopYet(p: Parameters, declared: seq<real>, values: Speeds)
    ensures StopsBefore(p, declared, values, 0) == {}
  {
  }

  // ----- what the count means -----

  /** A declared stop is within the persistence of some instant of the run. */
  ghost predicate DeclaredNear(p: Parameters, declared: seq<real>, start: real, resumed: real) {
    exists d, t :: d in declared && NearInstant(p, d, t) && start <= t <= resumed
  }

  ghost predicate NearInstant(p: Parameters, d: real, t: real) { -p.persistence <= d - t <= p.persistence }

  lemma DeclaredIff(p: Parameters, declared: seq<real>, start: real, resumed: real)
    requires start <= resumed && 0.0 <= p.persistence
    ensures Declared(p, declared, start, resumed) <==> DeclaredNear(p, declared, start, resumed)
  {
    if d :| d in declared && start - p.persistence <= d <= resumed + p.persistence {
      var t := if d < start then start else if resumed < d then resumed else d;
      assert NearInstant(p, d, t) && start <= t <= resumed;
    }
    if d, t :| d in declared && NearInstant(p, d, t) && start <= t <= resumed {
      assert start - p.persistence <= d <= resumed + p.persistence;
    }
  }

  /** What is counted, on samples in the order of time: the longest runs at or below the threshold that a faster sample ends,
      that last at least the persistence and end more than it before the last sample, with no declared stop near them. */
  lemma StopMeans(p: Parameters, declared: seq<real>, values: Speeds, i: nat, j: nat)
    requires Ascending(values) && 0.0 <= p.persistence
    ensures (i, j) in Stops(p, declared, values) <==>
      && i < j < |values| && (forall k :: i <= k < j ==> values[k].value <= p.threshold) && p.threshold < values[j].value
      && (i == 0 || p.threshold < values[i - 1].value)
      && p.persistence <= values[j].time - values[i].time && values[j].time + p.persistence < values[|values| - 1].time
      && !DeclaredNear(p, declared, values[i].time, values[j].time)
  {
    if i < j < |values| { DeclaredIff(p, declared, values[i].time, values[j].time); }
    hide Declared, DeclaredNear;
  }

  /** Counted runs do not overlap: each is followed by a faster sample before the next begins. */
  lemma StopsAreDisjoint(p: Parameters, declared: seq<real>, values: Speeds, a: (nat, nat), b: (nat, nat))
    requires a in Stops(p, declared, values) && b in Stops(p, declared, values) && a != b
    ensures a.1 < b.0 || b.1 < a.0
  {
    var i, j, m, n := a.0, a.1, b.0, b.1;
    assert i != m;
  }

  /** A trailing low-speed run is never counted: every counted run is over more than the persistence before the end. */
  lemma TrailingRunNotCounted(p: Parameters, declared: seq<real>, values: Speeds, stop: (nat, nat))
    requires stop in Stops(p, declared, values)
    ensures stop.1 < |values| && !Low(p, values[stop.1])
    ensures values[stop.1].time + p.persistence < values[|values| - 1].time
  {
  }

  lemma SmallerSet<T>(a: set<T>, b: set<T>)
    requires a <= b
    ensures |a| <= |b|
  {
    assert b == a + (b - a);
  }

  /** Declaring more stops never raises the count. */
  lemma MoreDeclaredFewerStops(p: Parameters, fewer: seq<real>, more: seq<real>, values: Speeds)
    requires forall d :: d in fewer ==> d in more
    ensures Stops(p, more, values) <= Stops(p, fewer, values)
    ensures |Stops(p, more, values)| <= |Stops(p, fewer, values)|
  {
    forall i: nat, j: nat | Unintended(p, more, values, i, j)
      ensures Unintended(p, fewer, values, i, j)
    {
    }
    SmallerSet(Stops(p, more, values), Stops(p, fewer, values));
  }
}
