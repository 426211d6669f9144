/** Distance from a segment to a box: slab test first, ternary search otherwise. */
module BoxClearance {
  import opened Vectors
  import opened RouteTiming

  const PARALLEL: real := 1e-15
  const SNAP_ERROR: real := 2e-15
  const SEARCH_STEPS: nat := 64

  function AxisGap(v: real, low: real, high: real): real { Max(Max(low - v, 0.0), v - high) }

  function Gap(p: Vector3, box: Region3D): Vector3 {
    Vector3(AxisGap(p.x, box.minimum.x, box.maximum.x),
            AxisGap(p.y, box.minimum.y, box.maximum.y),
            AxisGap(p.z, box.minimum.z, box.maximum.z))
  }

  /** Distance from a point to a box. */
  function BoxDistance(root: real -> real, p: Vector3, box: Region3D): real {
    Norm(root, Gap(p, box))
  }

  function ClampAxis(v: real, low: real, high: real): real { Max(low, Min(high, v)) }

  function Nearest(p: Vector3, box: Region3D): Vector3 {
    Vector3(ClampAxis(p.x, box.minimum.x, box.maximum.x),
            ClampAxis(p.y, box.minimum.y, box.maximum.y),
            ClampAxis(p.z, box.minimum.z, box.maximum.z))
  }

  lemma SmallerAxis(a: real, b: real)
    requires -b <= a <= b
    ensures a * a <= b * b
  {
    ProductNonNegative(b - a, b + a);
  }

  lemma AxisGapSquare(v: real, w: real, low: real, high: real)
    requires low <= high && low <= w <= high
    ensures AxisGap(v, low, high) * AxisGap(v, low, high) <= (v - w) * (v - w)
  {
    if v <= w { SmallerAxis(AxisGap(v, low, high), w - v); assert (w - v) * (w - v) == (v - w) * (v - w); }
    else { SmallerAxis(AxisGap(v, low, high), v - w); }
  }

  /** The box distance is the smallest distance to a point of the box. */
  lemma BoxDistanceLeast(root: real -> real, p: Vector3, box: Region3D, w: Vector3)
    requires IsRoot(root) && box.Ordered() && box.Contains(w)
    ensures BoxDistance(root, p, box) <= Distance(root, p, w)
  {
    AxisGapSquare(p.x, w.x, box.minimum.x, box.maximum.x);
    AxisGapSquare(p.y, w.y, box.minimum.y, box.maximum.y);
    AxisGapSquare(p.z, w.z, box.minimum.z, box.maximum.z);
    NormMonotone(root, Gap(p, box), Subtract(p, w));
  }

  /** ... and it is reached at the nearest point. */
  lemma BoxDistanceReached(root: real -> real, p: Vector3, box: Region3D)
    requires IsRoot(root) && box.Ordered()
    ensures box.Contains(Nearest(p, box))
    ensures BoxDistance(root, p, box) == Distance(root, p, Nearest(p, box))
  {
    var g, d := Gap(p, box), Subtract(p, Nearest(p, box));
    assert g.x == d.x || g.x == -d.x;
    assert g.y == d.y || g.y == -d.y;
    assert g.z == d.z || g.z == -d.z;
    SquareOfSign(g.x, d.x);
    SquareOfSign(g.y, d.y);
    SquareOfSign(g.z, d.z);
    assert Dot(g, g) == Dot(d, d);
  }

  lemma SquareOfSign(a: real, b: real)
    requires a == b || a == -b
    ensures a * a == b * b
  {
  }

  lemma DistanceTriangle(root: real -> real, a: Vector3, b: Vector3, c: Vector3)
    requires IsRoot(root)
    ensures Distance(root, a, c) <= Distance(root, a, b) + Distance(root, b, c)
  {
    Triangle(root, Subtract(a, b), Subtract(b, c));
    assert Add(Subtract(a, b), Subtract(b, c)) == Subtract(a, c);
  }

  /** Moving a point changes its box distance by no more than the move. */
  lemma BoxDistanceLipschitz(root: real -> real, p: Vector3, q: Vector3, box: Region3D)
    requires IsRoot(root) && box.Ordered()
    ensures BoxDistance(root, p, box) <= BoxDistance(root, q, box) + Distance(root, p, q)
  {
    BoxDistanceReached(root, q, box);
    BoxDistanceLeast(root, p, box, Nearest(q, box));
    DistanceTriangle(root, p, q, Nearest(q, box));
  }

  lemma MixSplit(a: real, b: real, c: real, d: real, u: real, v: real, f: real)
    requires u == a - c && v == b - d
    ensures Mix(a, b, f) - Mix(c, d, f) == u * (1.0 - f) + v * f
  {
  }

  lemma LerpSplit(a: Vector3, b: Vector3, c: Vector3, d: Vector3, u: Vector3, v: Vector3, f: real)
    requires u == Subtract(a, c) && v == Subtract(b, d)
    ensures Subtract(Lerp(a, b, f), Lerp(c, d, f)) == Add(Scale(u, 1.0 - f), Scale(v, f))
  {
    hide Mix;
    MixSplit(a.x, b.x, c.x, d.x, u.x, v.x, f);
    MixSplit(a.y, b.y, c.y, d.y, u.y, v.y, f);
    MixSplit(a.z, b.z, c.z, d.z, u.z, v.z, f);
  }

  /** Distance to a box is convex along a segment. */
  lemma BoxDistanceConvex(root: real -> real, a: Vector3, b: Vector3, f: real, box: Region3D)
    requires IsRoot(root) && box.Ordered() && 0.0 <= f <= 1.0
    ensures BoxDistance(root, Lerp(a, b, f), box)
         <= (1.0 - f) * BoxDistance(root, a, box) + f * BoxDistance(root, b, box)
  {
    var na, nb := Nearest(a, box), Nearest(b, box);
    BoxDistanceReached(root, a, box);
    BoxDistanceReached(root, b, box);
    RegionConvex(box, na, nb, f);
    BoxDistanceLeast(root, Lerp(a, b, f), box, Lerp(na, nb, f));
    LerpSplit(a, b, na, nb, Subtract(a, na), Subtract(b, nb), f);
    WeightedTriangle(root, Subtract(a, na), Subtract(b, nb), f);
  }

  lemma WeightedTriangle(root: real -> real, u: Vector3, v: Vector3, f: real)
    requires IsRoot(root) && 0.0 <= f <= 1.0
    ensures Norm(root, Add(Scale(u, 1.0 - f), Scale(v, f))) <= (1.0 - f) * Norm(root, u) + f * Norm(root, v)
  {
    Triangle(root, Scale(u, 1.0 - f), Scale(v, f));
    NormScaled(root, u, 1.0 - f, 1.0 - f);
    NormScaled(root, v, f, f);
  }

  /** Box distance at a fraction of a segment. */
  function BoxDistanceAt(root: real -> real, start: Vector3, end: Vector3, box: Region3D, u: real): real {
    BoxDistance(root, Lerp(start, end, u), box)
  }

  lemma AlongConvex(root: real -> real, start: Vector3, end: Vector3, box: Region3D, u: real, v: real, f: real)
    requires IsRoot(root) && box.Ordered() && 0.0 <= f <= 1.0
    ensures BoxDistanceAt(root, start, end, box, Mix(u, v, f))
         <= (1.0 - f) * BoxDistanceAt(root, start, end, box, u) + f * BoxDistanceAt(root, start, end, box, v)
  {
    LerpAffine(start, end, u, v, f);
    BoxDistanceConvex(root, Lerp(start, end, u), Lerp(start, end, v), f, box);
  }

  /** If the middle of three fractions is no nearer than one side, the other side is no nearer than the middle. */
  lemma NoDipBeyond(root: real -> real, start: Vector3, end: Vector3, box: Region3D, side: real, middle: real, other: real)
    requires IsRoot(root) && box.Ordered()
    requires side < middle <= other || other <= middle < side
    requires BoxDistanceAt(root, start, end, box, side) <= BoxDistanceAt(root, start, end, box, middle)
    ensures BoxDistanceAt(root, start, end, box, middle) <= BoxDistanceAt(root, start, end, box, other)
  {
    var f := FractionBetween(side, middle, other);
    AlongConvex(root, start, end, box, side, other, f);
    WeightedNotBelow(BoxDistanceAt(root, start, end, box, side), BoxDistanceAt(root, start, end, box, middle),
                     BoxDistanceAt(root, start, end, box, other), f);
  }

  lemma FractionBetween(side: real, middle: real, other: real) returns (f: real)
    requires side < middle <= other || other <= middle < side
    ensures 0.0 < f <= 1.0 && Mix(side, other, f) == middle
  {
    if side < other {
      f := (middle - side) / (other - side);
      Quotient(middle - side, other - side);
      assert f * (other - side) == middle - side;
    } else {
      f := (side - middle) / (side - other);
      Quotient(side - middle, side - other);
      assert f * (side - other) == side - middle;
      assert (other - side) * f == -(f * (side - other));
    }
  }

  lemma WeightedNotBelow(side: real, middle: real, other: real, f: real)
    requires 0.0 < f <= 1.0
    requires side <= middle <= (1.0 - f) * side + f * other
    ensures middle <= other
  {
    ProductNonNegative(1.0 - f, middle - side);
    assert (1.0 - f) * (middle - side) + f * (middle - other) == middle - ((1.0 - f) * side + f * other);
    if other < middle {
      ProductPositive(f, middle - other);
    }
  }

  lemma AlongLipschitz(root: real -> real, start: Vector3, end: Vector3, box: Region3D, u: real, v: real)
    requires IsRoot(root) && box.Ordered()
    ensures BoxDistanceAt(root, start, end, box, u)
         <= BoxDistanceAt(root, start, end, box, v) + Abs(u - v) * Distance(root, start, end)
  {
    var p, q := Lerp(start, end, u), Lerp(start, end, v);
    BoxDistanceLipschitz(root, p, q, box);
    LengthBetween(root, start, end, u, v);
  }

  lemma LengthBetween(root: real -> real, start: Vector3, end: Vector3, u: real, v: real)
    requires IsRoot(root)
    ensures Distance(root, Lerp(start, end, u), Lerp(start, end, v)) == Abs(u - v) * Distance(root, start, end)
  {
    StepAlong(start, end, u, v);
    assert Abs(u - v) * Abs(u - v) == (u - v) * (u - v);
    NormScaled(root, Subtract(end, start), u - v, Abs(u - v));
    DistanceSymmetric(root, start, end);
    assert Distance(root, start, end) == Norm(root, Subtract(end, start));
  }

  lemma StepAlong(start: Vector3, end: Vector3, u: real, v: real)
    ensures Subtract(Lerp(start, end, u), Lerp(start, end, v)) == Scale(Subtract(end, start), u - v)
  {
    var l, r := Subtract(Lerp(start, end, u), Lerp(start, end, v)), Scale(Subtract(end, start), u - v);
    assert l.x == r.x by { MixStep(start.x, end.x, u, v); }
    assert l.y == r.y by { MixStep(start.y, end.y, u, v); }
    assert l.z == r.z by { MixStep(start.z, end.z, u, v); }
  }

  lemma MixStep(a: real, b: real, u: real, v: real)
    ensures Mix(a, b, u) - Mix(a, b, v) == (b - a) * (u - v)
  {
  }

  // ----- the slab test -----

  /** One coordinate of a segment against one pair of box faces. */
  datatype Slab = Slab(before: real, after: real, low: real, high: real) {
    /** Whether the segment's coordinate is between the faces at a fraction; a change too small to
        divide by counts as no change. */
    predicate Holds(f: real) {
      if Abs(after - before) <= 1e-15 then low <= before <= high
      else low <= Mix(before, after, f) <= high
    }
  }

  function Slabs(start: Vector3, end: Vector3, box: Region3D): seq<Slab> {
    [Slab(start.x, end.x, box.minimum.x, box.maximum.x),
     Slab(start.y, end.y, box.minimum.y, box.maximum.y),
     Slab(start.z, end.z, box.minimum.z, box.maximum.z)]
  }

  ghost predicate AllHold(slabs: seq<Slab>, f: real) {
    forall i :: 0 <= i < |slabs| ==> slabs[i].Holds(f)
  }

  lemma SlabInterval(s: Slab, f: real)
    requires PARALLEL < Abs(s.after - s.before)
    requires s.low <= s.high
    ensures var a, b := (s.low - s.before) / (s.after - s.before), (s.high - s.before) / (s.after - s.before);
      s.Holds(f) <==> Min(a, b) <= f <= Max(a, b)
  {
    var d := s.after - s.before;
    var a, b := (s.low - s.before) / d, (s.high - s.before) / d;
    assert a * d == s.low - s.before;
    assert b * d == s.high - s.before;
    BetweenFaces(s.before, s.low, s.high, d, a, b, f);
  }

  lemma BetweenFaces(before: real, low: real, high: real, d: real, a: real, b: real, f: real)
    requires d != 0.0 && low <= high
    requires a * d == low - before && b * d == high - before
    ensures low <= before + d * f <= high <==> Min(a, b) <= f <= Max(a, b)
  {
    Scaling(a, f, d);
    Scaling(f, b, d);
    Scaling(a, b, d);
    assert d * f == f * d;
  }

  lemma Scaling(a: real, b: real, d: real)
    requires d != 0.0
    ensures 0.0 < d ==> (a * d <= b * d <==> a <= b)
    ensures d < 0.0 ==> (a * d <= b * d <==> b <= a)
  {
    if a < b {
      if 0.0 < d { ProductPositive(b - a, d); } else { ProductPositive(b - a, -d); }
    } else if b < a {
      if 0.0 < d { ProductPositive(a - b, d); } else { ProductPositive(a - b, -d); }
    }
  }

  /** A fraction of the segment between all the given faces. */
  ghost predicate Inside(slabs: seq<Slab>, f: real) {
    0.0 <= f <= 1.0 && AllHold(slabs, f)
  }

  /** [entry, exit] is the set of fractions between all the faces seen so far. */
  ghost predicate Window(slabs: seq<Slab>, entry: real, exit: real) {
    forall f :: Inside(slabs, f) <==> entry <= f <= exit
  }

  lemma InsideOneMore(seen: seq<Slab>, s: Slab, f: real)
    ensures Inside(seen + [s], f) <==> Inside(seen, f) && s.Holds(f)
  {
    var more := seen + [s];
    if AllHold(more, f) {
      forall k | 0 <= k < |seen| ensures seen[k].Holds(f) { assert more[k].Holds(f); }
      assert more[|seen|].Holds(f);
    }
  }

  lemma WindowCut(seen: seq<Slab>, s: Slab, entry: real, exit: real, near: real, far: real)
    requires Window(seen, entry, exit)
    requires forall f :: 0.0 <= f <= 1.0 ==> (s.Holds(f) <==> near <= f <= far)
    ensures Window(seen + [s], Max(entry, near), Min(exit, far))
  {
    forall f
      ensures Inside(seen + [s], f) <==> Max(entry, near) <= f <= Min(exit, far)
    {
      InsideOneMore(seen, s, f);
      assert Inside(seen, f) <==> entry <= f <= exit;
    }
  }

  lemma InsidePrefix(slabs: seq<Slab>, n: nat, f: real)
    requires n <= |slabs| && Inside(slabs, f)
    ensures Inside(slabs[..n], f)
  {
  }

  /** Exact on every input: true exactly when all three coordinates are between their faces at one
      common fraction. */
  method SegmentIntersectsAabb(start: Vector3, end: Vector3, box: Region3D) returns (hit: bool)
    requires box.Ordered()
    ensures hit <==> exists f :: Inside(Slabs(start, end, box), f)
  {
    var slabs := Slabs(start, end, box);
    var entry, exit := 0.0, 1.0;
    for i := 0 to |slabs|
      invariant entry <= exit
      invariant Window(slabs[..i], entry, exit)
    {
      var s := slabs[i];
      var delta := s.after - s.before;
      assert slabs[..i + 1] == slabs[..i] + [s];
      if Abs(delta) <= PARALLEL {
        if s.before < s.low || s.high < s.before {
          forall f ensures !Inside(slabs, f) { assert !slabs[i].Holds(f); }
          return false;
        }
        forall f | 0.0 <= f <= 1.0 ensures s.Holds(f) <==> 0.0 <= f <= 1.0 {}
        WindowInUnit(slabs[..i], entry, exit);
        WindowCut(slabs[..i], s, entry, exit, 0.0, 1.0);
      } else {
        var near, far := (s.low - s.before) / delta, (s.high - s.before) / delta;
        if far < near {
          near, far := far, near;
        }
        forall f ensures s.Holds(f) <==> near <= f <= far { SlabInterval(s, f); }
        WindowCut(slabs[..i], s, entry, exit, near, far);
        entry, exit := Max(entry, near), Min(exit, far);
        if exit < entry {
          forall f | Inside(slabs, f) ensures false { InsidePrefix(slabs, i + 1, f); }
          return false;
        }
      }
    }
    assert slabs[..|slabs|] == slabs;
    assert Inside(slabs, entry);
    return true;
  }

  lemma WindowInUnit(slabs: seq<Slab>, entry: real, exit: real)
    requires Window(slabs, entry, exit) && entry <= exit
    ensures 0.0 <= entry && exit <= 1.0
  {
    assert Inside(slabs, entry) && Inside(slabs, exit);
  }

  /** When no coordinate changes by a tiny non-zero amount, the slab test is a true intersection test. */
  lemma SlabsAreBox(start: Vector3, end: Vector3, box: Region3D, f: real)
    requires forall s :: s in Slabs(start, end, box) ==> s.after == s.before || PARALLEL < Abs(s.after - s.before)
    ensures AllHold(Slabs(start, end, box), f) <==> box.Contains(Lerp(start, end, f))
  {
    var slabs := Slabs(start, end, box);
    assert slabs[0] in slabs && slabs[1] in slabs && slabs[2] in slabs;
    StillAxis(slabs[0], f);
    StillAxis(slabs[1], f);
    StillAxis(slabs[2], f);
  }

  /** No axis change is non-zero and yet too small to divide by. */
  predicate NoThinAxis(start: Vector3, end: Vector3) {
    forall s :: s in [(start.x, end.x), (start.y, end.y), (start.z, end.z)] ==> !ThinChange(s.0, s.1)
  }

  predicate ThinChange(before: real, after: real) {
    before != after && Abs(after - before) <= 1e-15
  }

  /** What the slab test decides, and what it is meant to decide. */
  ghost predicate SlabHit(start: Vector3, end: Vector3, box: Region3D) {
    exists f :: Inside(Slabs(start, end, box), f)
  }

  ghost predicate Meets(start: Vector3, end: Vector3, box: Region3D) {
    exists f :: 0.0 <= f <= 1.0 && box.Contains(Lerp(start, end, f))
  }

  ghost predicate SlabTestRight(start: Vector3, end: Vector3, box: Region3D) {
    SlabHit(start, end, box) <==> Meets(start, end, box)
  }

  /** The box that is just the end of the segment is met, and missed when an axis is thin. */
  lemma EndPointMissed(start: Vector3, end: Vector3, id: string)
    requires !NoThinAxis(start, end)
    ensures Region3D(id, end, end).Ordered() && !SlabTestRight(start, end, Region3D(id, end, end))
  {
    var box := Region3D(id, end, end);
    var slabs := Slabs(start, end, box);
    assert Lerp(start, end, 1.0) == end && box.Contains(Lerp(start, end, 1.0));
    forall f ensures !Inside(slabs, f) {
      assert !slabs[0].Holds(f) || !slabs[1].Holds(f) || !slabs[2].Holds(f);
    }
  }

  lemma SlabTestRightWithoutThin(start: Vector3, end: Vector3, box: Region3D)
    requires NoThinAxis(start, end)
    ensures SlabTestRight(start, end, box)
  {
    var axes, slabs := [(start.x, end.x), (start.y, end.y), (start.z, end.z)], Slabs(start, end, box);
    forall i | 0 <= i < 3 ensures slabs[i].after == slabs[i].before || PARALLEL < Abs(slabs[i].after - slabs[i].before) {
      assert axes[i] in axes;
    }
    forall f ensures Inside(slabs, f) <==> 0.0 <= f <= 1.0 && box.Contains(Lerp(start, end, f)) {
      SlabsAreBox(start, end, box, f);
    }
  }

  /** Exactly when the slab test can be trusted: it agrees with true intersection for every ordered box just when
      no axis change is thin. */
  lemma SlabTestRightIff(start: Vector3, end: Vector3)
    ensures (forall box: Region3D :: box.Ordered() ==> SlabTestRight(start, end, box)) <==> NoThinAxis(start, end)
  {
    if NoThinAxis(start, end) {
      forall box: Region3D | box.Ordered() ensures SlabTestRight(start, end, box) {
        SlabTestRightWithoutThin(start, end, box);
      }
    } else {
      EndPointMissed(start, end, "");
    }
  }

  /** On an axis the test takes for parallel it can err both ways: it misses a box that only the end
      touches, and it reports a box that no point of the segment lies in. */
  lemma ThinAxisErrs()
    ensures var start, end := Vector3(0.0, 0.0, 0.0), Vector3(1e-15, 0.0, 0.0);
      var box := Region3D("", Vector3(1e-15, 0.0, 0.0), Vector3(1.0, 0.0, 0.0));
      box.Contains(Lerp(start, end, 1.0)) && forall f :: !Inside(Slabs(start, end, box), f)
    ensures var start, end := Vector3(0.0, 0.0, 0.0), Vector3(1e-15, 1.0, 0.0);
      var box := Region3D("", Vector3(0.0, 1.0, 0.0), Vector3(0.0, 2.0, 0.0));
      Inside(Slabs(start, end, box), 1.0) && forall f :: 0.0 <= f <= 1.0 ==> !box.Contains(Lerp(start, end, f))
  {
    var missed := Slabs(Vector3(0.0, 0.0, 0.0), Vector3(1e-15, 0.0, 0.0),
                        Region3D("", Vector3(1e-15, 0.0, 0.0), Vector3(1.0, 0.0, 0.0)));
    forall f ensures !Inside(missed, f) {
      assert !missed[0].Holds(f);
    }
  }

  lemma StillAxis(s: Slab, f: real)
    requires s.after == s.before || PARALLEL < Abs(s.after - s.before)
    ensures s.Holds(f) <==> s.low <= Mix(s.before, s.after, f) <= s.high
  {
    if s.after == s.before {
      assert (s.after - s.before) * f == 0.0;
    }
  }

  lemma HeldAxisGap(s: Slab, f: real)
    requires s.low <= s.high && 0.0 <= f <= 1.0 && s.Holds(f)
    ensures 0.0 <= AxisGap(Mix(s.before, s.after, f), s.low, s.high) <= PARALLEL
  {
    MixNearStart(s.before, s.after, f);
  }

  lemma MixNearStart(a: real, b: real, f: real)
    requires 0.0 <= f <= 1.0
    ensures a - Abs(b - a) <= Mix(a, b, f) <= a + Abs(b - a)
  {
    if a <= b { MixBetween(a, b, f, a, b); } else { MixBetween(a, b, f, b, a); }
  }

  /** A reported hit is a point of the segment within two femtometres of the box. */
  lemma HitIsClose(root: real -> real, start: Vector3, end: Vector3, box: Region3D, f: real)
    requires IsRoot(root) && box.Ordered()
    requires Inside(Slabs(start, end, box), f)
    ensures BoxDistanceAt(root, start, end, box, f) <= 2e-15
  {
    var slabs := Slabs(start, end, box);
    assert slabs[0].Holds(f) && slabs[1].Holds(f) && slabs[2].Holds(f);
    HeldAxisGap(slabs[0], f);
    HeldAxisGap(slabs[1], f);
    HeldAxisGap(slabs[2], f);
    SmallGap(root, Gap(Lerp(start, end, f), box));
  }

  lemma SmallGap(root: real -> real, g: Vector3)
    requires IsRoot(root)
    requires 0.0 <= g.x <= PARALLEL && 0.0 <= g.y <= PARALLEL && 0.0 <= g.z <= PARALLEL
    ensures Norm(root, g) <= SNAP_ERROR
  {
    SmallerAxis(g.x, PARALLEL);
    SmallerAxis(g.y, PARALLEL);
    SmallerAxis(g.z, PARALLEL);
    NormAtMost(root, g, SNAP_ERROR);
  }

  // ----- the ternary search -----

  /** (2/3)^n */
  function Shrink(n: nat): real { if n == 0 then 1.0 else Shrink(n - 1) * 2.0 / 3.0 }

  lemma {:induction false} ShrinkPositive(n: nat)
    ensures 0.0 < Shrink(n)
  {
    if 0 < n { ShrinkPositive(n - 1); }
  }

  /** How far above the true minimum the search may stop on a segment of a given length. */
  function SearchError(length: real): real { HalfWidth(length, Shrink(SEARCH_STEPS)) }

  function HalfWidth(length: real, width: real): real { length * width / 2.0 }

  lemma {:induction false} ShrinkSplits(m: nat, n: nat)
    ensures Shrink(m + n) == Shrink(m) * Shrink(n)
  {
    if 0 < n { ShrinkSplits(m, n - 1); }
  }

  lemma ShrinkDoubled(n: nat, bound: real)
    requires Shrink(n) <= bound
    ensures Shrink(2 * n) <= bound * bound
  {
    ShrinkPositive(n);
    ShrinkSplits(n, n);
    ProductNonNegative(bound - Shrink(n), bound);
    ProductNonNegative(bound - Shrink(n), Shrink(n));
  }

  /** The search error in numbers: less than three picometres for a metre. */
  lemma SearchErrorSmall(length: real)
    requires 0.0 <= length
    ensures SearchError(length) <= length * 3e-12
  {
    assert Shrink(4) == 16.0 / 81.0 by { assert Shrink(2) == 4.0 / 9.0; }
    assert Shrink(4) <= 0.1976;
    ShrinkDoubled(4, 0.1976);
    assert Shrink(8) <= 0.03905;
    ShrinkDoubled(8, 0.03905);
    assert Shrink(16) <= 0.001525;
    ShrinkDoubled(16, 0.001525);
    assert Shrink(32) <= 0.000002326;
    ShrinkDoubled(32, 0.000002326);
    assert Shrink(SEARCH_STEPS) <= 6e-12;
    ProductNonNegative(6e-12 - Shrink(SEARCH_STEPS), length);
  }

  /** v is no farther from the box than u. */
  ghost predicate NoFarther(root: real -> real, start: Vector3, end: Vector3, box: Region3D, v: real, u: real) {
    BoxDistanceAt(root, start, end, box, v) <= BoxDistanceAt(root, start, end, box, u)
  }

  ghost predicate Matched(root: real -> real, start: Vector3, end: Vector3, box: Region3D, low: real, high: real, u: real) {
    exists v :: low <= v <= high && NoFarther(root, start, end, box, v, u)
  }

  /** Every fraction of the segment is matched by one in the bracket that is no farther from the box. */
  ghost predicate Brackets(root: real -> real, start: Vector3, end: Vector3, box: Region3D, low: real, high: real) {
    forall u :: 0.0 <= u <= 1.0 ==> Matched(root, start, end, box, low, high, u)
  }

  lemma Narrow(root: real -> real, start: Vector3, end: Vector3, box: Region3D,
               low: real, high: real, first: real, second: real)
    requires IsRoot(root) && box.Ordered()
    requires low < first < second < high
    requires Brackets(root, start, end, box, low, high)
    ensures if BoxDistanceAt(root, start, end, box, first) <= BoxDistanceAt(root, start, end, box, second)
      then Brackets(root, start, end, box, low, second)
      else Brackets(root, start, end, box, first, high)
  {
    var nearFirst := BoxDistanceAt(root, start, end, box, first) <= BoxDistanceAt(root, start, end, box, second);
    var newLow, newHigh := if nearFirst then low else first, if nearFirst then second else high;
    forall u | 0.0 <= u <= 1.0
      ensures Matched(root, start, end, box, newLow, newHigh, u)
    {
      assert Matched(root, start, end, box, low, high, u);
      var v :| low <= v <= high && NoFarther(root, start, end, box, v, u);
      if nearFirst && second < v {
        NoDipBeyond(root, start, end, box, first, second, v);
        assert NoFarther(root, start, end, box, second, u);
      } else if !nearFirst && v < first {
        NoDipBeyond(root, start, end, box, second, first, v);
        assert NoFarther(root, start, end, box, first, u);
      }
    }
  }

  lemma SearchErrorNonNegative(root: real -> real, start: Vector3, end: Vector3)
    requires IsRoot(root)
    ensures 0.0 <= SearchError(Distance(root, start, end))
  {
    ShrinkPositive(SEARCH_STEPS);
    NormIsRoot(root, Subtract(start, end));
    ProductNonNegative(Distance(root, start, end), Shrink(SEARCH_STEPS));
  }

  lemma WholeSegmentBrackets(root: real -> real, start: Vector3, end: Vector3, box: Region3D)
    ensures Brackets(root, start, end, box, 0.0, 1.0)
  {
    forall u | 0.0 <= u <= 1.0
      ensures Matched(root, start, end, box, 0.0, 1.0, u)
    {
      assert NoFarther(root, start, end, box, u, u);
    }
  }

  lemma MiddleSound(root: real -> real, start: Vector3, end: Vector3, box: Region3D, low: real, high: real, u: real)
    requires IsRoot(root) && box.Ordered() && low <= high
    requires Matched(root, start, end, box, low, high, u)
    ensures BoxDistanceAt(root, start, end, box, (low + high) / 2.0)
         <= BoxDistanceAt(root, start, end, box, u) + HalfWidth(Distance(root, start, end), high - low)
  {
    var v :| low <= v <= high && NoFarther(root, start, end, box, v, u);
    var middle := (low + high) / 2.0;
    AlongLipschitz(root, start, end, box, middle, v);
    NormIsRoot(root, Subtract(start, end));
    Halved(Abs(middle - v), Distance(root, start, end), high - low);
  }

  lemma Halved(step: real, length: real, width: real)
    requires 0.0 <= length && step <= width / 2.0
    ensures step * length <= HalfWidth(length, width)
  {
    ProductNonNegative(width / 2.0 - step, length);
  }

  lemma BoxDistanceNonNegative(root: real -> real, p: Vector3, box: Region3D)
    requires IsRoot(root)
    ensures 0.0 <= BoxDistance(root, p, box)
  {
    NormIsRoot(root, Gap(p, box));
  }

  /** Two-sided bound at every fraction of the segment: the result exceeds no box distance on it by
      more than half of (2/3)^64 lengths, and some point of it is within two femtometres of the result. */
  method SegmentAabbDistance(root: real -> real, start: Vector3, end: Vector3, box: Region3D) returns (distance: real)
    requires IsRoot(root) && box.Ordered()
    ensures forall u :: 0.0 <= u <= 1.0 ==>
      distance <= BoxDistanceAt(root, start, end, box, u) + SearchError(Distance(root, start, end))
    ensures exists u :: 0.0 <= u <= 1.0 && BoxDistanceAt(root, start, end, box, u) <= distance + 2e-15
    ensures 0.0 <= distance
  {
    SearchErrorNonNegative(root, start, end);
    var hit := SegmentIntersectsAabb(start, end, box);
    if hit {
      ghost var f :| Inside(Slabs(start, end, box), f);
      HitIsClose(root, start, end, box, f);
      forall u { BoxDistanceNonNegative(root, Lerp(start, end, u), box); }
      return 0.0;
    }
    var low, high := 0.0, 1.0;
    WholeSegmentBrackets(root, start, end, box);
    for i := 0 to SEARCH_STEPS
      invariant 0.0 <= low < high <= 1.0
      invariant high - low == Shrink(i)
      invariant Brackets(root, start, end, box, low, high)
    {
      var first := low + (high - low) / 3.0;
      var second := high - (high - low) / 3.0;
      Narrow(root, start, end, box, low, high, first, second);
      if BoxDistanceAt(root, start, end, box, first) <= BoxDistanceAt(root, start, end, box, second) {
        high := second;
      } else {
        low := first;
      }
    }
    distance := BoxDistanceAt(root, start, end, box, (low + high) / 2.0);
    BoxDistanceNonNegative(root, Lerp(start, end, (low + high) / 2.0), box);
    forall u | 0.0 <= u <= 1.0
      ensures distance <= BoxDistanceAt(root, start, end, box, u) + SearchError(Distance(root, start, end))
    {
      MiddleSound(root, start, end, box, low, high, u);
    }
  }
}
