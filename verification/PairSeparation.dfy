/** Minimum separation of two vehicles from their telemetry: a two-pointer nearest-time join. */
module PairSeparation {
  import opened Wrappers
  import opened Vectors
  import opened TimeSeries

  datatype Fix = Fix(vehicle: string, estimate: Option<Vector3>, truth: Option<Vector3>)

  type Telemetry = seq<Stamped<Fix>>

  datatype Channel = Estimate | Truth

  datatype Report = Report(
    vehicles: (string, string), aligned: nat, minimumEstimated: Option<real>, minimumTruth: Option<real>,
    closestAt: Option<real>)

  datatype JoinError = NoSamples

  function Reading(f: Fix, channel: Channel): Option<Vector3> {
    match channel case Estimate => f.estimate case Truth => f.truth
  }

  function TimeGap(s: Stamped<Fix>, t: real): real { Abs(s.time - t) }

  // ----- the brute-force join -----

  /** j is nearest to t over the whole sequence, and the last such index. */
  ghost predicate IsNearest(right: Telemetry, t: real, j: nat) {
    && j < |right|
    && (forall m :: 0 <= m < |right| ==> TimeGap(right[j], t) <= TimeGap(right[m], t))
    && (forall m :: j < m < |right| ==> TimeGap(right[j], t) < TimeGap(right[m], t))
  }

  function NearestIndex(right: Telemetry, t: real): (j: nat)
    requires right != []
    ensures IsNearest(right, t, j)
  {
    var n := |right| - 1;
    if n == 0 then 0
    else
      var k := NearestIndex(right[..n], t);
      assert forall m :: 0 <= m < n ==> right[..n][m] == right[m];
      if TimeGap(right[n], t) <= TimeGap(right[k], t) then n else k
  }

  /** The distance one left sample contributes: its nearest right sample must be within the tolerance
      and both must have a position. */
  function Contribution(root: real -> real, channel: Channel, s: Stamped<Fix>, right: Telemetry, tolerance: real): Option<real>
    requires right != []
  {
    var candidate := right[NearestIndex(right, s.time)];
    var here, there := Reading(s.value, channel), Reading(candidate.value, channel);
    if tolerance < TimeGap(candidate, s.time) || here.None? || there.None? then None
    else Some(Distance(root, here.value, there.value))
  }

  function Separations(root: real -> real, channel: Channel, left: Telemetry, right: Telemetry, tolerance: real)
    : (r: seq<Stamped<real>>)
    requires right != []
    ensures |r| <= |left|
  {
    if left == [] then []
    else
      var n := |left| - 1;
      var d := Contribution(root, channel, left[n], right, tolerance);
      Separations(root, channel, left[..n], right, tolerance) + (if d.Some? then [Stamped(left[n].time, d.value)] else [])
  }

  ghost predicate FirstSmallest(s: seq<Stamped<real>>, k: int) {
    && 0 <= k < |s|
    && (forall m :: 0 <= m < |s| ==> s[k].value <= s[m].value)
    && (forall m :: 0 <= m < k ==> s[k].value < s[m].value)
  }

  function SmallestIndex(s: seq<Stamped<real>>): (k: nat)
    requires s != []
    ensures FirstSmallest(s, k)
  {
    var n := |s| - 1;
    if n == 0 then 0
    else
      var k := SmallestIndex(s[..n]);
      assert forall m :: 0 <= m < n ==> s[..n][m] == s[m];
      if s[k].value <= s[n].value then k else n
  }

  /** The first of the smallest entries. */
  function Smallest(s: seq<Stamped<real>>): Option<Stamped<real>> {
    if s == [] then None else Some(s[SmallestIndex(s)])
  }

  function ValueOf(s: Option<Stamped<real>>): Option<real> { if s.Some? then Some(s.value.value) else None }

  function TimeOf(s: Option<Stamped<real>>): Option<real> { if s.Some? then Some(s.value.time) else None }

  /** Python's order on strings, by code point. */
  predicate StringAtMost(a: string, b: string) {
    a == "" || (b != "" && (a[0] < b[0] || (a[0] == b[0] && StringAtMost(a[1..], b[1..]))))
  }

  function SortedPair(a: string, b: string): (string, string) {
    if StringAtMost(a, b) then (a, b) else (b, a)
  }

  function BruteForce(root: real -> real, left: Telemetry, right: Telemetry, tolerance: real): Report
    requires left != [] && right != []
  {
    var estimated := Separations(root, Estimate, left, right, tolerance);
    var truth := Separations(root, Truth, left, right, tolerance);
    Report(SortedPair(left[0].value.vehicle, right[0].value.vehicle),
           if |estimated| < |truth| then |truth| else |estimated|,
           ValueOf(Smallest(estimated)), ValueOf(Smallest(truth)), TimeOf(Smallest(truth)))
  }

  // ----- why one forward pass is enough -----

  lemma NearestUnique(right: Telemetry, t: real, j: nat, k: nat)
    requires IsNearest(right, t, j) && IsNearest(right, t, k)
    ensures j == k
  {
    assert TimeGap(right[j], t) == TimeGap(right[k], t);
  }

  /** Everything up to r is no nearer to t than r. */
  ghost predicate PassedOver(right: Telemetry, t: real, r: nat) {
    r < |right| && forall m :: 0 <= m <= r ==> TimeGap(right[r], t) <= TimeGap(right[m], t)
  }

  /** What was passed over for one time stays behind for every later time. */
  lemma StaysBehind(right: Telemetry, earlier: real, later: real, r: nat)
    requires Ascending(right) && PassedOver(right, earlier, r) && earlier <= later
    ensures PassedOver(right, later, r)
  {
    forall m | 0 <= m <= r
      ensures TimeGap(right[r], later) <= TimeGap(right[m], later)
    {
      assert right[m].time <= right[r].time && TimeGap(right[r], earlier) <= TimeGap(right[m], earlier);
    }
  }

  /** The first step that would go further away is the turning point. */
  lemma TurningPoint(right: Telemetry, t: real, r: nat)
    requires Ascending(right) && PassedOver(right, t, r)
    requires r + 1 < |right| ==> TimeGap(right[r], t) < TimeGap(right[r + 1], t)
    ensures IsNearest(right, t, r)
  {
    forall m | r < m < |right|
      ensures TimeGap(right[r], t) < TimeGap(right[m], t)
    {
      assert right[r].time <= right[r + 1].time <= right[m].time;
    }
  }

  /** Moves the right pointer forward while the next sample is no further away. */
  method Seek(right: Telemetry, t: real, start: nat) returns (r: nat)
    requires Ascending(right) && PassedOver(right, t, start)
    ensures start <= r && PassedOver(right, t, r)
    ensures r == NearestIndex(right, t)
  {
    r := start;
    while r + 1 < |right| && TimeGap(right[r + 1], t) <= TimeGap(right[r], t)
      invariant start <= r && PassedOver(right, t, r)
    {
      r := r + 1;
    }
    TurningPoint(right, t, r);
    NearestUnique(right, t, r, NearestIndex(right, t));
  }

  /** The list of separations so far, with the one of this pair if both have a position. */
  function Measured(root: real -> real, channel: Channel, sofar: seq<Stamped<real>>, here: Stamped<Fix>, candidate: Stamped<Fix>)
    : seq<Stamped<real>>
  {
    var a, b := Reading(here.value, channel), Reading(candidate.value, channel);
    if a.Some? && b.Some? then sofar + [Stamped(here.time, Distance(root, a.value, b.value))] else sofar
  }

  lemma SeparationsStep(root: real -> real, channel: Channel, left: Telemetry, right: Telemetry, tolerance: real, k: nat)
    requires right != [] && k < |left|
    ensures var candidate := right[NearestIndex(right, left[k].time)];
      var sofar := Separations(root, channel, left[..k], right, tolerance);
      Separations(root, channel, left[..k + 1], right, tolerance)
      == if TimeGap(candidate, left[k].time) <= tolerance then Measured(root, channel, sofar, left[k], candidate) else sofar
  {
    assert left[..k + 1][..k] == left[..k];
  }

  /** The two-pointer join: in all it moves the right pointer at most |second| - 1 times. */
  method Join(root: real -> real, first: Telemetry, second: Telemetry, tolerance: real)
    returns (result: Result<Report, JoinError>, ghost advances: nat)
    ensures result.Failure? <==> first == [] || second == []
    ensures result.Success? ==> result.value == BruteForce(root, SortByTime(first), SortByTime(second), tolerance)
    ensures advances <= if second == [] then 0 else |second| - 1
  {
    hide Separations, Contribution, Smallest, Measured, Distance, StringAtMost;
    var left, right := SortByTime(first), SortByTime(second);
    SortIsStable(first);
    SortIsStable(second);
    advances := 0;
    if left == [] || right == [] {
      return Failure(NoSamples), advances;
    }
    var r := 0;
    ghost var clock := left[0].time;
    var estimated: seq<Stamped<real>>, truth: seq<Stamped<real>> := [], [];
    for k := 0 to |left|
      invariant r == advances && PassedOver(right, clock, r)
      invariant k < |left| ==> clock <= left[k].time
      invariant estimated == Separations(root, Estimate, left[..k], right, tolerance)
      invariant truth == Separations(root, Truth, left[..k], right, tolerance)
    {
      var here := left[k];
      StaysBehind(right, clock, here.time, r);
      var next := Seek(right, here.time, r);
      advances := advances + (next - r);
      clock, r := here.time, next;
      var candidate := right[r];
      SeparationsStep(root, Estimate, left, right, tolerance, k);
      SeparationsStep(root, Truth, left, right, tolerance, k);
      if TimeGap(candidate, here.time) <= tolerance {
        estimated := Measured(root, Estimate, estimated, here, candidate);
        truth := Measured(root, Truth, truth, here, candidate);
      }
    }
    assert left[..|left|] == left;
    var closest := Smallest(truth);
    result := Success(Report(
      SortedPair(left[0].value.vehicle, right[0].value.vehicle),
      if |estimated| < |truth| then |truth| else |estimated|,
      ValueOf(Smallest(estimated)), ValueOf(closest), TimeOf(closest)));
  }

  // ----- what the reported minimum means -----

  /** Left sample i and right sample j are joined and at distance d in this channel. */
  ghost predicate JoinedAt(root: real -> real, channel: Channel, left: Telemetry, right: Telemetry, tolerance: real,
                           i: int, j: int, d: real)
  {
    && 0 <= i < |left| && 0 <= j && IsNearest(right, left[i].time, j) && TimeGap(right[j], left[i].time) <= tolerance
    && Reading(left[i].value, channel).Some? && Reading(right[j].value, channel).Some?
    && d == Distance(root, Reading(left[i].value, channel).value, Reading(right[j].value, channel).value)
  }

  lemma ContributionIsJoin(root: real -> real, channel: Channel, left: Telemetry, right: Telemetry, tolerance: real, i: nat)
    requires right != [] && i < |left|
    ensures var d := Contribution(root, channel, left[i], right, tolerance);
      d.Some? ==> JoinedAt(root, channel, left, right, tolerance, i, NearestIndex(right, left[i].time), d.value)
    ensures forall j, d :: JoinedAt(root, channel, left, right, tolerance, i, j, d) ==>
      Contribution(root, channel, left[i], right, tolerance) == Some(d)
  {
    hide IsNearest, Distance;
    forall j, d | JoinedAt(root, channel, left, right, tolerance, i, j, d)
      ensures Contribution(root, channel, left[i], right, tolerance) == Some(d)
    {
      NearestUnique(right, left[i].time, j, NearestIndex(right, left[i].time));
    }
  }

  /** The reported separations are those of the left samples that have one, in their order. */
  lemma {:induction false} SeparationIsContribution(root: real -> real, channel: Channel, left: Telemetry, right: Telemetry,
                                                    tolerance: real, e: Stamped<real>)
    requires right != []
    ensures e in Separations(root, channel, left, right, tolerance) <==>
      exists i :: 0 <= i < |left| && Stamps(e, left[i], Contribution(root, channel, left[i], right, tolerance))
  {
    hide Contribution;
    if left != [] {
      var n := |left| - 1;
      var shorter := left[..n];
      SeparationIsContribution(root, channel, shorter, right, tolerance, e);
      var d := Contribution(root, channel, left[n], right, tolerance);
      assert e in Separations(root, channel, left, right, tolerance) <==>
        e in Separations(root, channel, shorter, right, tolerance) || Stamps(e, left[n], d);
      assert forall i :: 0 <= i < n ==> shorter[i] == left[i];
    }
  }

  ghost predicate Stamps(e: Stamped<real>, s: Stamped<Fix>, d: Option<real>) { d.Some? && e == Stamped(s.time, d.value) }

  lemma JoinIsReported(root: real -> real, channel: Channel, left: Telemetry, right: Telemetry, tolerance: real,
                       i: int, j: int, d: real)
    requires right != [] && JoinedAt(root, channel, left, right, tolerance, i, j, d)
    ensures 0 <= i < |left| && Stamped(left[i].time, d) in Separations(root, channel, left, right, tolerance)
  {
    assert 0 <= i < |left|;
    hide *;
    ContributionIsJoin(root, channel, left, right, tolerance, i);
    StampsItself(left[i], d);
    SeparationIsContribution(root, channel, left, right, tolerance, Stamped(left[i].time, d));
  }

  lemma StampsItself(s: Stamped<Fix>, d: real)
    ensures Stamps(Stamped(s.time, d), s, Some(d))
  {
  }

  lemma ReportIsJoin(root: real -> real, channel: Channel, left: Telemetry, right: Telemetry, tolerance: real, e: Stamped<real>)
    returns (i: nat, j: nat)
    requires right != [] && e in Separations(root, channel, left, right, tolerance)
    ensures i < |left| && left[i].time == e.time && JoinedAt(root, channel, left, right, tolerance, i, j, e.value)
  {
    hide Contribution, JoinedAt, Separations;
    SeparationIsContribution(root, channel, left, right, tolerance, e);
    i :| 0 <= i < |left| && Stamps(e, left[i], Contribution(root, channel, left[i], right, tolerance));
    j := NearestIndex(right, left[i].time);
    ContributionIsJoin(root, channel, left, right, tolerance, i);
  }

  /** The reported minimum is a lower bound on the distance of every joined pair, and some pair attains it. */
  lemma MinimumOverAllJoins(root: real -> real, channel: Channel, left: Telemetry, right: Telemetry, tolerance: real)
    requires right != []
    ensures var least := Smallest(Separations(root, channel, left, right, tolerance));
      && (forall i, j, d :: JoinedAt(root, channel, left, right, tolerance, i, j, d) ==> least.Some? && least.value.value <= d)
      && (least.Some? ==> exists i, j :: JoinedAt(root, channel, left, right, tolerance, i, j, least.value.value)
                                         && left[i].time == least.value.time)
  {
    hide Contribution, JoinedAt, Separations, Distance;
    var all := Separations(root, channel, left, right, tolerance);
    var least := Smallest(all);
    forall i, j, d | JoinedAt(root, channel, left, right, tolerance, i, j, d)
      ensures least.Some? && least.value.value <= d
    {
      JoinIsReported(root, channel, left, right, tolerance, i, j, d);
      var k :| 0 <= k < |all| && all[k] == Stamped(left[i].time, d);
    }
    if least.Some? {
      assert least.value == all[SmallestIndex(all)];
      var i, j := ReportIsJoin(root, channel, left, right, tolerance, least.value);
    }
  }

  // ----- what the whole report says -----

  /** The order of dictionaries: a prefix comes first, and otherwise the first difference decides. */
  ghost predicate InDictionary(a: string, b: string) {
    a <= b || exists i :: 0 <= i < |a| && i < |b| && a[..i] == b[..i] && a[i] < b[i]
  }

  lemma {:induction false} StringOrder(a: string, b: string)
    ensures StringAtMost(a, b) <==> InDictionary(a, b)
  {
    if a == "" {
      assert a <= b;
    } else if b != "" {
      StringOrder(a[1..], b[1..]);
      if a[0] < b[0] {
        assert a[..0] == b[..0];
      } else if a[0] == b[0] {
        DictionaryTail(a, b);
      }
    }
  }

  lemma DictionaryTail(a: string, b: string)
    requires a != "" && b != "" && a[0] == b[0]
    ensures InDictionary(a, b) <==> InDictionary(a[1..], b[1..])
  {
    var c, d := a[1..], b[1..];
    assert a == [a[0]] + c && b == [b[0]] + d;
    assert a <= b <==> c <= d;
    if i :| 0 <= i < |a| && i < |b| && a[..i] == b[..i] && a[i] < b[i] {
      assert c[..i - 1] == a[1..i] == a[..i][1..] && d[..i - 1] == b[1..i] == b[..i][1..];
    }
    if i :| 0 <= i < |c| && i < |d| && c[..i] == d[..i] && c[i] < d[i] {
      assert a[..i + 1] == [a[0]] + c[..i] && b[..i + 1] == [b[0]] + d[..i];
      assert a[i + 1] < b[i + 1];
    }
  }

  lemma {:induction false} StringsCompare(a: string, b: string)
    ensures StringAtMost(a, b) || StringAtMost(b, a)
  {
    if a != "" && b != "" { StringsCompare(a[1..], b[1..]); }
  }

  /** Left sample i is joined in this channel. */
  ghost predicate IsJoined(root: real -> real, channel: Channel, left: Telemetry, right: Telemetry, tolerance: real, i: int) {
    exists j, d :: JoinedAt(root, channel, left, right, tolerance, i, j, d)
  }

  ghost function JoinedSamples(root: real -> real, channel: Channel, left: Telemetry, right: Telemetry, tolerance: real): set<int> {
    set i | 0 <= i < |left| && IsJoined(root, channel, left, right, tolerance, i)
  }

  lemma JoinedIff(root: real -> real, channel: Channel, left: Telemetry, right: Telemetry, tolerance: real, i: nat)
    requires right != [] && i < |left|
    ensures IsJoined(root, channel, left, right, tolerance, i) <==> Contribution(root, channel, left[i], right, tolerance).Some?
  {
    hide Contribution, JoinedAt;
    ContributionIsJoin(root, channel, left, right, tolerance, i);
    if Contribution(root, channel, left[i], right, tolerance).Some? {
      assert JoinedAt(root, channel, left, right, tolerance, i, NearestIndex(right, left[i].time),
                      Contribution(root, channel, left[i], right, tolerance).value);
    }
  }

  /** One separation for each joined left sample. */
  lemma {:induction false} SeparationsCount(root: real -> real, channel: Channel, left: Telemetry, right: Telemetry, tolerance: real)
    requires right != []
    ensures |Separations(root, channel, left, right, tolerance)| == |JoinedSamples(root, channel, left, right, tolerance)|
  {
    hide Contribution, JoinedAt, IsJoined;
    if left != [] {
      var n := |left| - 1;
      SeparationsCount(root, channel, left[..n], right, tolerance);
      var before := JoinedSamples(root, channel, left[..n], right, tolerance);
      var all := JoinedSamples(root, channel, left, right, tolerance);
      forall i | 0 <= i < n
        ensures IsJoined(root, channel, left[..n], right, tolerance, i) <==> IsJoined(root, channel, left, right, tolerance, i)
      {
        JoinedIff(root, channel, left, right, tolerance, i);
        JoinedIff(root, channel, left[..n], right, tolerance, i);
      }
      JoinedIff(root, channel, left, right, tolerance, n);
      assert all == if n in all then before + {n} else before;
    } else {
      assert JoinedSamples(root, channel, left, right, tolerance) == {};
    }
  }

  /** The separations come in the order of time. */
  lemma {:induction false} SeparationsAscend(root: real -> real, channel: Channel, left: Telemetry, right: Telemetry, tolerance: real)
    requires right != [] && Ascending(left)
    ensures Ascending(Separations(root, channel, left, right, tolerance))
    ensures forall e :: e in Separations(root, channel, left, right, tolerance) ==> left != [] && e.time <= left[|left| - 1].time
  {
    if left != [] {
      var n := |left| - 1;
      var earlier, d := Separations(root, channel, left[..n], right, tolerance), Contribution(root, channel, left[n], right, tolerance);
      SeparationsAscend(root, channel, left[..n], right, tolerance);
      assert Separations(root, channel, left, right, tolerance) == earlier + if d.Some? then [Stamped(left[n].time, d.value)] else [];
      hide Contribution, Separations;
      forall e | e in earlier ensures e.time <= left[n].time {
        assert left[..n][|left[..n]| - 1] == left[n - 1];
      }
    }
  }

  /** The minimum of a channel: absent exactly when nothing is joined, below every joined pair and attained by one. */
  ghost predicate IsMinimum(root: real -> real, channel: Channel, left: Telemetry, right: Telemetry, tolerance: real,
                            least: Option<real>)
  {
    && (forall i, j, d :: JoinedAt(root, channel, left, right, tolerance, i, j, d) ==> least.Some? && least.value <= d)
    && (least.Some? ==> exists i, j :: JoinedAt(root, channel, left, right, tolerance, i, j, least.value))
  }

  /** The time of the closest approach: the earliest time at which a joined pair is at the minimum. */
  ghost predicate IsClosestTime(root: real -> real, left: Telemetry, right: Telemetry, tolerance: real, least: Option<real>,
                                at: Option<real>)
  {
    && (at.Some? <==> least.Some?)
    && (at.Some? ==>
        && (exists i, j :: JoinedAt(root, Truth, left, right, tolerance, i, j, least.value) && left[i].time == at.value)
        && (forall i, j :: 0 <= i < |left| && JoinedAt(root, Truth, left, right, tolerance, i, j, least.value) ==>
            at.value <= left[i].time))
  }

  lemma MinimumOf(root: real -> real, channel: Channel, left: Telemetry, right: Telemetry, tolerance: real)
    requires right != []
    ensures IsMinimum(root, channel, left, right, tolerance, ValueOf(Smallest(Separations(root, channel, left, right, tolerance))))
  {
    hide JoinedAt, Separations, Smallest;
    MinimumOverAllJoins(root, channel, left, right, tolerance);
  }

  lemma ClosestTimeOf(root: real -> real, left: Telemetry, right: Telemetry, tolerance: real)
    requires right != [] && Ascending(left)
    ensures var least := Smallest(Separations(root, Truth, left, right, tolerance));
      IsClosestTime(root, left, right, tolerance, ValueOf(least), TimeOf(least))
  {
    hide JoinedAt, Separations;
    var all := Separations(root, Truth, left, right, tolerance);
    MinimumOverAllJoins(root, Truth, left, right, tolerance);
    SeparationsAscend(root, Truth, left, right, tolerance);
    var least := Smallest(all);
    forall i, j | least.Some? && 0 <= i < |left| && JoinedAt(root, Truth, left, right, tolerance, i, j, least.value.value)
      ensures least.value.time <= left[i].time
    {
      JoinIsReported(root, Truth, left, right, tolerance, i, j, least.value.value);
      var k :| 0 <= k < |all| && all[k] == Stamped(left[i].time, least.value.value);
      assert SmallestIndex(all) <= k;
    }
  }

  /** The whole report: both vehicles in order of name, the larger number of joined samples of the two channels, the minimum
      of each channel over all joined pairs, and the earliest time of the smaller true separation. */
  lemma ReportMeans(root: real -> real, left: Telemetry, right: Telemetry, tolerance: real)
    requires left != [] && right != [] && Ascending(left)
    ensures var r := BruteForce(root, left, right, tolerance);
      var a, b := left[0].value.vehicle, right[0].value.vehicle;
      var estimated := |JoinedSamples(root, Estimate, left, right, tolerance)|;
      var truth := |JoinedSamples(root, Truth, left, right, tolerance)|;
      && (r.vehicles == (a, b) || r.vehicles == (b, a)) && InDictionary(r.vehicles.0, r.vehicles.1)
      && estimated <= r.aligned && truth <= r.aligned && (r.aligned == estimated || r.aligned == truth)
      && IsMinimum(root, Estimate, left, right, tolerance, r.minimumEstimated)
      && IsMinimum(root, Truth, left, right, tolerance, r.minimumTruth)
      && IsClosestTime(root, left, right, tolerance, r.minimumTruth, r.closestAt)
  {
    var a, b := left[0].value.vehicle, right[0].value.vehicle;
    StringOrder(a, b);
    StringOrder(b, a);
    StringsCompare(a, b);
    SeparationsCount(root, Estimate, left, right, tolerance);
    SeparationsCount(root, Truth, left, right, tolerance);
    MinimumOf(root, Estimate, left, right, tolerance);
    MinimumOf(root, Truth, left, right, tolerance);
    ClosestTimeOf(root, left, right, tolerance);
    hide Separations, Smallest, IsMinimum, IsClosestTime, JoinedSamples, InDictionary, StringAtMost;
  }
}
