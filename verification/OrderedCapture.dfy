/** Ordered capture of authored goal regions by dense trajectory samples. */
module OrderedCapture {
  import opened Wrappers
  import opened Vectors
  import opened TimeSeries

  type Track = seq<Stamped<Vector3>>

  datatype Entry = Entry(time: real, expected: string, entered: string) {
    predicate SamePair(other: Entry) { expected == other.expected && entered == other.entered }
  }

  // ----- the longest prefix of goals a track can match -----

  /** at[0] < at[1] < ... are sample indices whose positions lie in goals 0, 1, ... */
  ghost predicate Matches(goals: seq<Region3D>, samples: Track, at: seq<nat>) {
    && |at| <= |goals|
    && (forall k :: 0 <= k < |at| ==> at[k] < |samples| && goals[k].Contains(samples[at[k]].value))
    && (forall k, m :: 0 <= k < m < |at| ==> at[k] < at[m])
  }

  ghost predicate CanMatch(goals: seq<Region3D>, samples: Track, n: nat) {
    exists at: seq<nat> :: |at| == n && Matches(goals, samples, at)
  }

  /** How many goals the greedy scan captures. */
  function Captured(goals: seq<Region3D>, samples: Track): (n: nat)
    ensures n <= |goals|
  {
    if samples == [] then 0
    else
      var c := Captured(goals, samples[..|samples| - 1]);
      if c < |goals| && goals[c].Contains(samples[|samples| - 1].value) then c + 1 else c
  }

  lemma {:induction false} CapturedMatches(goals: seq<Region3D>, samples: Track) returns (at: seq<nat>)
    ensures |at| == Captured(goals, samples) && Matches(goals, samples, at)
  {
    if samples == [] {
      at := [];
    } else {
      var n := |samples| - 1;
      at := CapturedMatches(goals, samples[..n]);
      var c := |at|;
      if c < |goals| && goals[c].Contains(samples[n].value) { at := at + [n]; }
    }
  }

  lemma MatchShrinks(goals: seq<Region3D>, samples: Track, at: seq<nat>)
    requires samples != [] && Matches(goals, samples, at)
    requires at == [] || at[|at| - 1] < |samples| - 1
    ensures Matches(goals, samples[..|samples| - 1], at)
  {
  }

  lemma {:induction false} NoLongerMatch(goals: seq<Region3D>, samples: Track, at: seq<nat>)
    requires Matches(goals, samples, at)
    ensures |at| <= Captured(goals, samples)
  {
    if at != [] {
      var n, m := |samples| - 1, |at| - 1;
      assert at[m] <= n;
      if at[m] < n {
        MatchShrinks(goals, samples, at);
        NoLongerMatch(goals, samples[..n], at);
      } else {
        assert goals[m].Contains(samples[at[m]].value);
        MatchShrinks(goals, samples, at[..m]);
        NoLongerMatch(goals, samples[..n], at[..m]);
      }
    }
  }

  /** The greedy scan is optimal: exactly the prefixes up to its count can be matched at all. */
  lemma GreedyIsOptimal(goals: seq<Region3D>, samples: Track, n: nat)
    ensures CanMatch(goals, samples, n) <==> n <= Captured(goals, samples)
  {
    if CanMatch(goals, samples, n) {
      var at: seq<nat> :| |at| == n && Matches(goals, samples, at);
      NoLongerMatch(goals, samples, at);
    }
    if n <= Captured(goals, samples) {
      var at := CapturedMatches(goals, samples);
      assert Matches(goals, samples, at[..n]);
    }
  }

  lemma {:induction false} AppendingNeverShortens(goals: seq<Region3D>, samples: Track, more: Track)
    ensures Captured(goals, samples) <= Captured(goals, samples + more)
  {
    if more == [] {
      assert samples + more == samples;
    } else {
      var n := |more| - 1;
      AppendingNeverShortens(goals, samples, more[..n]);
      assert (samples + more)[..|samples| + n] == samples + more[..n];
    }
  }

  // ----- entering a goal out of order -----

  predicate SameGeometry(a: Region3D, b: Region3D) { a.minimum == b.minimum && a.maximum == b.maximum }

  /** Goal f lies ahead of the expected goal e and has a geometry not expected or captured yet. */
  predicate Novel(goals: seq<Region3D>, e: nat, f: nat)
    requires e < f < |goals|
  {
    forall g :: 0 <= g <= e ==> !SameGeometry(goals[g], goals[f])
  }

  predicate Enters(goals: seq<Region3D>, e: nat, p: Vector3, f: nat)
    requires e < f < |goals|
  {
    Novel(goals, e, f) && goals[f].Contains(p)
  }

  ghost predicate EntersFirst(goals: seq<Region3D>, e: nat, p: Vector3, f: nat) {
    e < f < |goals| && Enters(goals, e, p, f) && forall g :: e < g < f ==> !Enters(goals, e, p, g)
  }

  /** Sample k lies outside the goal expected then and in the goal f ahead of it. */
  ghost predicate DeviatesAt(goals: seq<Region3D>, samples: Track, k: int, f: nat) {
    && 0 <= k < |samples| && Captured(goals, samples[..k]) < |goals|
    && !goals[Captured(goals, samples[..k])].Contains(samples[k].value)
    && EntersFirst(goals, Captured(goals, samples[..k]), samples[k].value, f)
  }

  ghost function EntryOf(goals: seq<Region3D>, samples: Track, k: int, f: nat): Entry
    requires DeviatesAt(goals, samples, k, f)
  {
    Entry(samples[k].time, goals[Captured(goals, samples[..k])].id, goals[f].id)
  }

  ghost predicate Listed(entries: seq<Entry>, e: Entry) {
    exists i :: 0 <= i < |entries| && entries[i].SamePair(e)
  }

  /** Sample k is the first to deviate from the pair of goals that e names. */
  ghost predicate FirstOfPair(goals: seq<Region3D>, samples: Track, k: int, f: nat, e: Entry) {
    && DeviatesAt(goals, samples, k, f) && EntryOf(goals, samples, k, f) == e
    && forall m, g: nat :: DeviatesAt(goals, samples, m, g) && m < k ==> !EntryOf(goals, samples, m, g).SamePair(e)
  }

  ghost predicate IsDeviation(goals: seq<Region3D>, samples: Track, n: nat, e: Entry) {
    exists k, f: nat :: k < n && FirstOfPair(goals, samples, k, f, e)
  }

  /** The first sample that deviates from the pair of `d` comes before the one of `e`. */
  ghost predicate ComesBefore(goals: seq<Region3D>, samples: Track, d: Entry, e: Entry) {
    exists k, l, f: nat, g: nat :: k < l && FirstOfPair(goals, samples, k, f, d) && FirstOfPair(goals, samples, l, g, e)
  }

  ghost predicate AllListed(goals: seq<Region3D>, samples: Track, n: nat, entries: seq<Entry>) {
    forall k, f: nat :: DeviatesAt(goals, samples, k, f) && k < n ==> Listed(entries, EntryOf(goals, samples, k, f))
  }

  ghost predicate OnlyDeviations(goals: seq<Region3D>, samples: Track, n: nat, entries: seq<Entry>) {
    forall i :: 0 <= i < |entries| ==> IsDeviation(goals, samples, n, entries[i])
  }

  ghost predicate InSampleOrder(goals: seq<Region3D>, samples: Track, entries: seq<Entry>) {
    forall i, j :: 0 <= i < j < |entries| ==> ComesBefore(goals, samples, entries[i], entries[j])
  }

  ghost predicate OncePerPair(entries: seq<Entry>) {
    forall i, j :: 0 <= i < j < |entries| ==> !entries[i].SamePair(entries[j])
  }

  /** Every deviation among the first n samples is listed, once for its pair of goals and at the first sample
      of that pair, in the order of those samples, and nothing else is. */
  ghost predicate ListsDeviations(goals: seq<Region3D>, samples: Track, n: nat, entries: seq<Entry>) {
    && AllListed(goals, samples, n, entries) && OnlyDeviations(goals, samples, n, entries)
    && InSampleOrder(goals, samples, entries) && OncePerPair(entries)
  }

  method EnteredAhead(goals: seq<Region3D>, e: nat, p: Vector3) returns (f: Option<nat>)
    requires e < |goals|
    ensures f.Some? ==> EntersFirst(goals, e, p, f.value)
    ensures f.None? ==> forall g :: e < g < |goals| ==> !Enters(goals, e, p, g)
  {
    for g := e + 1 to |goals|
      invariant forall h :: e < h < g ==> !Enters(goals, e, p, h)
    {
      if Novel(goals, e, g) && goals[g].Contains(p) {
        return Some(g);
      }
    }
    return None;
  }

  lemma FirstEntryUnique(goals: seq<Region3D>, e: nat, p: Vector3, f: nat, g: nat)
    requires EntersFirst(goals, e, p, f) && EntersFirst(goals, e, p, g)
    ensures f == g
  {
  }

  ghost predicate SamePoints(a: Region3D, b: Region3D) { forall q :: a.Contains(q) <==> b.Contains(q) }

  /** Region f is not one of the regions up to the expected goal e. */
  ghost predicate NewRegion(goals: seq<Region3D>, e: nat, f: nat)
    requires e < f < |goals|
  {
    forall g :: 0 <= g <= e ==> !SamePoints(goals[g], goals[f])
  }

  lemma SameGeometryIff(a: Region3D, b: Region3D)
    requires a.Ordered() && b.Ordered()
    ensures SameGeometry(a, b) <==> SamePoints(a, b)
  {
    if SamePoints(a, b) {
      assert a.Contains(a.minimum) && a.Contains(a.maximum) && b.Contains(b.minimum) && b.Contains(b.maximum);
      assert b.Contains(a.minimum) && b.Contains(a.maximum) && a.Contains(b.minimum) && a.Contains(b.maximum);
    }
  }

  lemma NovelIff(goals: seq<Region3D>, e: nat, f: nat)
    requires e < f < |goals| && forall g :: 0 <= g < |goals| ==> goals[g].Ordered()
    ensures Novel(goals, e, f) <==> NewRegion(goals, e, f)
  {
    hide SameGeometry, SamePoints, Region3D.Ordered;
    forall g | 0 <= g <= e ensures SameGeometry(goals[g], goals[f]) <==> SamePoints(goals[g], goals[f]) {
      SameGeometryIff(goals[g], goals[f]);
    }
  }

  /** What entering a goal ahead means: the point lies in it, it is no region already expected or captured, and the same is
      true of no goal before it. */
  lemma EntersFirstIff(goals: seq<Region3D>, e: nat, p: Vector3, f: nat)
    requires forall g :: 0 <= g < |goals| ==> goals[g].Ordered()
    ensures EntersFirst(goals, e, p, f) <==>
      && e < f < |goals| && goals[f].Contains(p) && NewRegion(goals, e, f)
      && forall g :: e < g < f && goals[g].Contains(p) ==> !NewRegion(goals, e, g)
  {
    hide Novel, NewRegion, Region3D.Contains, Region3D.Ordered;
    forall g | e < g < |goals| ensures Enters(goals, e, p, g) <==> NewRegion(goals, e, g) && goals[g].Contains(p) {
      NovelIff(goals, e, g);
    }
  }

  lemma DeviationStays(goals: seq<Region3D>, samples: Track, n: nat, m: nat, entries: seq<Entry>)
    requires n <= m && OnlyDeviations(goals, samples, n, entries)
    ensures OnlyDeviations(goals, samples, m, entries)
  {
    hide FirstOfPair;
    forall i | 0 <= i < |entries| ensures IsDeviation(goals, samples, m, entries[i]) {
      var k, f: nat :| k < n && FirstOfPair(goals, samples, k, f, entries[i]);
      assert k < m && FirstOfPair(goals, samples, k, f, entries[i]);
    }
  }

  lemma NothingNew(goals: seq<Region3D>, samples: Track, n: nat, entries: seq<Entry>)
    requires n < |samples| && ListsDeviations(goals, samples, n, entries)
    requires forall f: nat :: DeviatesAt(goals, samples, n, f) ==> Listed(entries, EntryOf(goals, samples, n, f))
    ensures ListsDeviations(goals, samples, n + 1, entries)
  {
    DeviationStays(goals, samples, n, n + 1, entries);
    hide DeviatesAt, EntryOf, Listed, OnlyDeviations, InSampleOrder, OncePerPair;
  }

  /** A new pair is appended. */
  lemma OneMore(goals: seq<Region3D>, samples: Track, n: nat, f: nat, entries: seq<Entry>)
    requires n < |samples| && ListsDeviations(goals, samples, n, entries) && DeviatesAt(goals, samples, n, f)
    requires !Listed(entries, EntryOf(goals, samples, n, f))
    ensures ListsDeviations(goals, samples, n + 1, entries + [EntryOf(goals, samples, n, f)])
  {
    hide DeviatesAt, FirstOfPair, EntryOf, AllListed, OnlyDeviations, InSampleOrder;
    NewPairIsFirst(goals, samples, n, f, entries);
    StillListed(goals, samples, n, f, entries);
    NewComesLast(goals, samples, n, f, entries, EntryOf(goals, samples, n, f));
  }

  lemma StillListed(goals: seq<Region3D>, samples: Track, n: nat, f: nat, entries: seq<Entry>)
    requires n < |samples| && AllListed(goals, samples, n, entries) && DeviatesAt(goals, samples, n, f)
    ensures AllListed(goals, samples, n + 1, entries + [EntryOf(goals, samples, n, f)])
  {
    var more := entries + [EntryOf(goals, samples, n, f)];
    forall k, g: nat | DeviatesAt(goals, samples, k, g) && k < n + 1
      ensures Listed(more, EntryOf(goals, samples, k, g))
    {
      if k < n {
        var i :| 0 <= i < |entries| && entries[i].SamePair(EntryOf(goals, samples, k, g));
        assert more[i] == entries[i];
      } else {
        FirstEntryUnique(goals, Captured(goals, samples[..n]), samples[n].value, f, g);
        assert more[|entries|].SamePair(EntryOf(goals, samples, k, g));
      }
    }
  }

  lemma NewComesLast(goals: seq<Region3D>, samples: Track, n: nat, f: nat, entries: seq<Entry>, e: Entry)
    requires OnlyDeviations(goals, samples, n, entries) && InSampleOrder(goals, samples, entries)
    requires FirstOfPair(goals, samples, n, f, e)
    ensures OnlyDeviations(goals, samples, n + 1, entries + [e]) && InSampleOrder(goals, samples, entries + [e])
  {
    hide FirstOfPair;
    DeviationStays(goals, samples, n, n + 1, entries);
    forall i | 0 <= i < |entries| ensures ComesBefore(goals, samples, entries[i], e) {
      assert IsDeviation(goals, samples, n, entries[i]);
      var k, g: nat :| k < n && FirstOfPair(goals, samples, k, g, entries[i]);
      assert k < n && FirstOfPair(goals, samples, k, g, entries[i]) && FirstOfPair(goals, samples, n, f, e);
    }
    hide ComesBefore;
    assert IsDeviation(goals, samples, n + 1, e);
  }

  lemma NewPairIsFirst(goals: seq<Region3D>, samples: Track, n: nat, f: nat, entries: seq<Entry>)
    requires n < |samples| && ListsDeviations(goals, samples, n, entries) && DeviatesAt(goals, samples, n, f)
    requires !Listed(entries, EntryOf(goals, samples, n, f))
    ensures FirstOfPair(goals, samples, n, f, EntryOf(goals, samples, n, f))
  {
    var e := EntryOf(goals, samples, n, f);
    forall m, g: nat | DeviatesAt(goals, samples, m, g) && m < n
      ensures !EntryOf(goals, samples, m, g).SamePair(e)
    {
      assert Listed(entries, EntryOf(goals, samples, m, g));
    }
  }

  /** Records the deviation of one sample, unless its pair of goals is on the list. */
  method NoteDeviation(goals: seq<Region3D>, samples: Track, n: nat, expected: nat, entries: seq<Entry>)
    returns (more: seq<Entry>)
    requires n < |samples| && ListsDeviations(goals, samples, n, entries)
    requires expected == Captured(goals, samples[..n]) < |goals| && !goals[expected].Contains(samples[n].value)
    ensures ListsDeviations(goals, samples, n + 1, more)
  {
    var ahead := EnteredAhead(goals, expected, samples[n].value);
    more := entries;
    if ahead.Some? {
      var e := Entry(samples[n].time, goals[expected].id, goals[ahead.value].id);
      assert DeviatesAt(goals, samples, n, ahead.value) && e == EntryOf(goals, samples, n, ahead.value);
      if exists i :: 0 <= i < |entries| && entries[i].SamePair(e) {
        forall f: nat | DeviatesAt(goals, samples, n, f) ensures Listed(entries, EntryOf(goals, samples, n, f)) {
          FirstEntryUnique(goals, expected, samples[n].value, ahead.value, f);
        }
        NothingNew(goals, samples, n, entries);
      } else {
        OneMore(goals, samples, n, ahead.value, entries);
        more := entries + [e];
      }
    } else {
      NothingNew(goals, samples, n, entries);
    }
  }

  function Ids(goals: seq<Region3D>): (r: seq<string>)
    ensures |r| == |goals| && forall i :: 0 <= i < |goals| ==> r[i] == goals[i].id
  {
    seq(|goals|, i requires 0 <= i < |goals| => goals[i].id)
  }

  datatype Observation = Observation(order: seq<string>, outOfOrder: seq<Entry>, complete: bool)

  lemma CapturedStep(goals: seq<Region3D>, samples: Track, k: nat)
    requires k < |samples|
    ensures var c := Captured(goals, samples[..k]);
      Captured(goals, samples[..k + 1]) == if c < |goals| && goals[c].Contains(samples[k].value) then c + 1 else c
  {
    assert samples[..k + 1][..k] == samples[..k];
  }

  /** After every goal is captured nothing changes any more. */
  lemma {:induction false} AllCaptured(goals: seq<Region3D>, samples: Track, k: nat, n: nat)
    requires k <= n <= |samples| && Captured(goals, samples[..k]) == |goals|
    ensures Captured(goals, samples[..n]) == |goals|
    decreases n
  {
    if k < n {
      AllCaptured(goals, samples, k, n - 1);
      CapturedStep(goals, samples, n - 1);
    }
  }

  lemma NoDeviationAfter(goals: seq<Region3D>, samples: Track, k: nat, entries: seq<Entry>)
    requires k <= |samples| && Captured(goals, samples[..k]) == |goals|
    requires ListsDeviations(goals, samples, k, entries)
    ensures ListsDeviations(goals, samples, |samples|, entries)
    ensures Captured(goals, samples) == |goals|
  {
    forall m, f: nat | DeviatesAt(goals, samples, m, f)
      ensures m < k
    {
      if k <= m { AllCaptured(goals, samples, k, m); }
    }
    AllCaptured(goals, samples, k, |samples|);
    assert samples[..|samples|] == samples;
  }

  /** The scan: goals in authored order, one per sample at most. The flag that should ask for leaving a
      region before the next capture never holds, so adjacent samples capture goals that share a region. */
  method ObserveOrder(goals: seq<Region3D>, samples: Track) returns (seen: Observation)
    ensures seen.order == Ids(goals[..Captured(goals, samples)])
    ensures ListsDeviations(goals, samples, |samples|, seen.outOfOrder)
    ensures seen.complete <==> Captured(goals, samples) == |goals| && seen.outOfOrder == []
  {
    var expected := 0;
    var order: seq<string>, outOfOrder: seq<Entry> := [], [];
    var wasInside := false;
    var k := 0;
    while k < |samples| && expected < |goals|
      invariant k <= |samples| && expected == Captured(goals, samples[..k])
      invariant order == Ids(goals[..expected])
      invariant ListsDeviations(goals, samples, k, outOfOrder)
      invariant !wasInside
    {
      var point := samples[k].value;
      var inside := goals[expected].Contains(point);
      CapturedStep(goals, samples, k);
      if inside && !wasInside {
        NothingNew(goals, samples, k, outOfOrder);
        order := order + [goals[expected].id];
        expected := expected + 1;
        wasInside := false;
      } else {
        wasInside := inside;
        outOfOrder := NoteDeviation(goals, samples, k, expected, outOfOrder);
      }
      k := k + 1;
    }
    if k < |samples| {
      NoDeviationAfter(goals, samples, k, outOfOrder);
    } else {
      assert samples[..k] == samples;
    }
    seen := Observation(order, outOfOrder, order == Ids(goals) && outOfOrder == []);
    assert goals[..|goals|] == goals;
  }

  /** What `complete` says: all goals can be matched in order, and no sample strays into a goal ahead. */
  lemma CompleteMeans(goals: seq<Region3D>, samples: Track, seen: Observation)
    requires ListsDeviations(goals, samples, |samples|, seen.outOfOrder)
    requires seen.complete <==> Captured(goals, samples) == |goals| && seen.outOfOrder == []
    ensures seen.complete <==> CanMatch(goals, samples, |goals|) && forall k, f: nat :: !DeviatesAt(goals, samples, k, f)
  {
    GreedyIsOptimal(goals, samples, |goals|);
    if forall k, f: nat :: !DeviatesAt(goals, samples, k, f) {
      assert seen.outOfOrder != [] ==> IsDeviation(goals, samples, |samples|, seen.outOfOrder[0]);
    }
  }

  // ----- one dwell, two captures -----

  /** What the unused flag asks for: a sample captures the expected goal only on entering it. */
  function StrictCaptured(goals: seq<Region3D>, samples: Track): (n: nat)
    ensures n <= |goals|
  {
    if samples == [] then 0
    else
      var n := |samples| - 1;
      var c := StrictCaptured(goals, samples[..n]);
      if c < |goals| && goals[c].Contains(samples[n].value) && !(0 < n && goals[c].Contains(samples[n - 1].value)) then c + 1
      else c
  }

  /** Two adjacent samples of one dwell capture a goal that is authored twice. */
  lemma OneDwellTwoCaptures(a: Region3D, p: Vector3, t: real, u: real)
    requires a.Contains(p)
    ensures Captured([a, a], [Stamped(t, p), Stamped(u, p)]) == 2
    ensures StrictCaptured([a, a], [Stamped(t, p), Stamped(u, p)]) == 1
  {
    var goals, samples := [a, a], [Stamped(t, p), Stamped(u, p)];
    assert samples[..1] == [Stamped(t, p)] && samples[..1][..0] == [];
    assert Captured(goals, samples[..1]) == 1;
    assert StrictCaptured(goals, samples[..1]) == 1;
  }

  /** Whether two regions share a point, read off their corners. */
  predicate Touch(a: Region3D, b: Region3D) {
    && Max(a.minimum.x, b.minimum.x) <= Min(a.maximum.x, b.maximum.x)
    && Max(a.minimum.y, b.minimum.y) <= Min(a.maximum.y, b.maximum.y)
    && Max(a.minimum.z, b.minimum.z) <= Min(a.maximum.z, b.maximum.z)
  }

  function SharedPoint(a: Region3D, b: Region3D): Vector3 {
    Vector3(Max(a.minimum.x, b.minimum.x), Max(a.minimum.y, b.minimum.y), Max(a.minimum.z, b.minimum.z))
  }

  lemma TouchMeansShared(a: Region3D, b: Region3D)
    ensures Touch(a, b) <==> exists p :: a.Contains(p) && b.Contains(p)
  {
    if Touch(a, b) {
      assert a.Contains(SharedPoint(a, b)) && b.Contains(SharedPoint(a, b));
    }
  }

  predicate NeighboursApart(goals: seq<Region3D>) {
    forall c :: 0 < c < |goals| ==> ApartAt(goals, c)
  }

  predicate ApartAt(goals: seq<Region3D>, c: nat)
    requires 0 < c < |goals|
  {
    !Touch(goals[c - 1], goals[c])
  }

  /** With neighbouring goals apart, the last sample is never in the goal expected next, so it is always entered. */
  lemma {:induction false} ApartMeansStrict(goals: seq<Region3D>, samples: Track)
    requires NeighboursApart(goals)
    ensures Captured(goals, samples) == StrictCaptured(goals, samples)
    ensures samples != [] && Captured(goals, samples) < |goals| ==>
      !goals[Captured(goals, samples)].Contains(samples[|samples| - 1].value)
  {
    if samples != [] {
      var n := |samples| - 1;
      ApartMeansStrict(goals, samples[..n]);
      var c := Captured(goals, samples[..n]);
      if 0 < n { assert samples[..n][n - 1] == samples[n - 1]; }
      if c + 1 < |goals| && goals[c].Contains(samples[n].value) {
        assert ApartAt(goals, c + 1);
        TouchMeansShared(goals[c], goals[c + 1]);
      }
    }
  }

  /** A point outside every goal. */
  lemma {:induction false} FarPoint(goals: seq<Region3D>) returns (far: Vector3)
    ensures forall c :: 0 <= c < |goals| ==> goals[c].maximum.x < far.x
  {
    if goals == [] {
      far := Vector3(0.0, 0.0, 0.0);
    } else {
      var n := |goals| - 1;
      var before := FarPoint(goals[..n]);
      far := Vector3(Max(before.x, goals[n].maximum.x + 1.0), 0.0, 0.0);
      forall c | 0 <= c < |goals| ensures goals[c].maximum.x < far.x {
        if c < n { assert goals[..n][c] == goals[c]; }
      }
    }
  }

  /** A track that visits the first c goals one by one and leaves for `far` after each. */
  function Tour(goals: seq<Region3D>, c: nat, far: Vector3): Track
    requires c <= |goals|
  {
    if c == 0 then [] else Tour(goals, c - 1, far) + [Stamped(0.0, goals[c - 1].Center()), Stamped(0.0, far)]
  }

  /** One more sample decides both counts. */
  lemma CountStep(goals: seq<Region3D>, samples: Track, x: Stamped<Vector3>)
    ensures var c := Captured(goals, samples);
      Captured(goals, samples + [x]) == if c < |goals| && goals[c].Contains(x.value) then c + 1 else c
    ensures var c := StrictCaptured(goals, samples);
      StrictCaptured(goals, samples + [x]) ==
      if c < |goals| && goals[c].Contains(x.value) && !(samples != [] && goals[c].Contains(samples[|samples| - 1].value))
      then c + 1 else c
  {
    assert (samples + [x])[..|samples|] == samples;
  }

  lemma CenterInside(goal: Region3D)
    requires goal.Ordered()
    ensures goal.Contains(goal.Center())
  {
  }

  lemma {:induction false} TourCaptures(goals: seq<Region3D>, c: nat, far: Vector3)
    requires c <= |goals| && forall g :: 0 <= g < |goals| ==> goals[g].Ordered() && goals[g].maximum.x < far.x
    ensures Captured(goals, Tour(goals, c, far)) == StrictCaptured(goals, Tour(goals, c, far)) == c
    ensures Tour(goals, c, far) != [] ==> Tour(goals, c, far)[|Tour(goals, c, far)| - 1].value == far
  {
    if 0 < c {
      TourCaptures(goals, c - 1, far);
      var before, visit, leave := Tour(goals, c - 1, far), Stamped(0.0, goals[c - 1].Center()), Stamped(0.0, far);
      assert Tour(goals, c, far) == before + [visit] + [leave];
      OutsideAll(goals, far);
      CenterInside(goals[c - 1]);
      hide Captured, StrictCaptured, Tour, Region3D.Contains, Region3D.Center, Region3D.Ordered;
      CountStep(goals, before, visit);
      CountStep(goals, before + [visit], leave);
    }
  }

  lemma OutsideAll(goals: seq<Region3D>, far: Vector3)
    requires forall g :: 0 <= g < |goals| ==> goals[g].maximum.x < far.x
    ensures forall g :: 0 <= g < |goals| ==> !goals[g].Contains(far)
  {
  }

  /** Where two neighbouring goals share a point, a dwell of two samples there sets the counts apart. */
  lemma SharedDwell(goals: seq<Region3D>, c: nat)
    requires 0 < c < |goals| && Touch(goals[c - 1], goals[c])
    requires forall g :: 0 <= g < |goals| ==> goals[g].Ordered()
    ensures exists samples :: Captured(goals, samples) == c + 1 && StrictCaptured(goals, samples) == c
  {
    var far := FarPoint(goals);
    hide Captured, StrictCaptured, Tour;
    var tour, p := Tour(goals, c - 1, far), SharedPoint(goals[c - 1], goals[c]);
    TourCaptures(goals, c - 1, far);
    DwellAfter(goals, c, tour, far, p);
  }

  lemma DwellAfter(goals: seq<Region3D>, c: nat, tour: Track, far: Vector3, p: Vector3)
    requires 0 < c < |goals| && goals[c - 1].maximum.x < far.x && goals[c - 1].Contains(p) && goals[c].Contains(p)
    requires Captured(goals, tour) == StrictCaptured(goals, tour) == c - 1
    requires tour == [] || tour[|tour| - 1].value == far
    ensures Captured(goals, tour + [Stamped(0.0, p)] + [Stamped(0.0, p)]) == c + 1
    ensures StrictCaptured(goals, tour + [Stamped(0.0, p)] + [Stamped(0.0, p)]) == c
  {
    hide Captured, StrictCaptured;
    CountStep(goals, tour, Stamped(0.0, p));
    CountStep(goals, tour + [Stamped(0.0, p)], Stamped(0.0, p));
  }

  /** Exactly when capturing goals one per sample is capturing them on entry: neighbouring goals share no point. */
  lemma CaptureIsEntryIff(goals: seq<Region3D>)
    requires forall g :: 0 <= g < |goals| ==> goals[g].Ordered()
    ensures (forall samples :: Captured(goals, samples) == StrictCaptured(goals, samples)) <==> NeighboursApart(goals)
  {
    if NeighboursApart(goals) {
      forall samples ensures Captured(goals, samples) == StrictCaptured(goals, samples) {
        ApartMeansStrict(goals, samples);
      }
    } else {
      var c: nat :| 0 < c < |goals| && !ApartAt(goals, c);
      SharedDwell(goals, c);
    }
  }
}
