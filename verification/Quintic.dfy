/** Quintic segments between trajectory points. */
module Quintic {
  import opened Vectors

  // ----- one axis of one segment -----

  /** Position, velocity and acceleration on one axis. */
  datatype Jet = Jet(position: real, velocity: real, acceleration: real)

  datatype Polynomial = Polynomial(a0: real, a1: real, a2: real, a3: real, a4: real, a5: real) {
    function Position(t: real): real {
      a0 + a1 * t + a2 * (t * t) + a3 * (t * t * t) + a4 * (t * t * t * t) + a5 * (t * t * t * t * t)
    }

    function Velocity(t: real): real {
      a1 + 2.0 * a2 * t + 3.0 * a3 * (t * t) + 4.0 * a4 * (t * t * t) + 5.0 * a5 * (t * t * t * t)
    }

    function Acceleration(t: real): real {
      2.0 * a2 + 6.0 * a3 * t + 12.0 * a4 * (t * t) + 20.0 * a5 * (t * t * t)
    }

    function At(t: real): Jet { Jet(Position(t), Velocity(t), Acceleration(t)) }
  }

  /** What the start's quadratic misses at the end, scaled to position: position, velocity and acceleration. */
  datatype Misses = Misses(c0: real, c1: real, c2: real)

  function MissesOf(start: Jet, end: Jet, duration: real): Misses {
    var a2 := start.acceleration / 2.0;
    Misses(end.position - (start.position + start.velocity * duration + a2 * (duration * duration)),
           end.velocity - (start.velocity + 2.0 * a2 * duration),
           end.acceleration - 2.0 * a2)
  }

  function Coefficients(start: Jet, end: Jet, duration: real): Polynomial
    requires 0.0 < duration
  {
    var d, m := duration, MissesOf(start, end, duration);
    assert 0.0 < d * d * d && 0.0 < d * d * d * d && 0.0 < d * d * d * d * d by { PowersPositive(d); }
    Polynomial(start.position, start.velocity, start.acceleration / 2.0,
               (10.0 * m.c0 - 4.0 * m.c1 * d + 0.5 * m.c2 * (d * d)) / (d * d * d),
               (-15.0 * m.c0 + 7.0 * m.c1 * d - m.c2 * (d * d)) / (d * d * d * d),
               (6.0 * m.c0 - 3.0 * m.c1 * d + 0.5 * m.c2 * (d * d)) / (d * d * d * d * d))
  }

  function QuinticAxis(start: Jet, end: Jet, duration: real, elapsed: real): Jet
    requires 0.0 < duration
  {
    Coefficients(start, end, duration).At(Max(0.0, Min(duration, elapsed)))
  }

  lemma Product(a: real, b: real) returns (e: real)
    requires 0.0 < a && 0.0 < b
    ensures e == a * b && 0.0 < e
  {
    e := a * b;
    ProductPositive(a, b);
  }

  lemma PowersPositive(d: real)
    requires 0.0 < d
    ensures 0.0 < d * d && 0.0 < d * d * d && 0.0 < d * d * d * d && 0.0 < d * d * d * d * d
  {
    var square := Product(d, d);
    var cube := Product(square, d);
    var fourth := Product(cube, d);
    var fifth := Product(fourth, d);
  }

  /** The three leading terms at the end of the segment, free of divisions. */
  ghost predicate LeadingTerms(p: Polynomial, m: Misses, d: real) {
    && p.a3 * (d * d * d) == 10.0 * m.c0 - 4.0 * (m.c1 * d) + 0.5 * (m.c2 * (d * d))
    && p.a4 * (d * d * d * d) == -15.0 * m.c0 + 7.0 * (m.c1 * d) - m.c2 * (d * d)
    && p.a5 * (d * d * d * d * d) == 6.0 * m.c0 - 3.0 * (m.c1 * d) + 0.5 * (m.c2 * (d * d))
  }

  lemma LeadingTermsHold(start: Jet, end: Jet, d: real)
    requires 0.0 < d
    ensures LeadingTerms(Coefficients(start, end, d), MissesOf(start, end, d), d)
  {
    PowersPositive(d);
    var m := MissesOf(start, end, d);
    QuotientBack(10.0 * m.c0 - 4.0 * m.c1 * d + 0.5 * m.c2 * (d * d), d * d * d);
    QuotientBack(-15.0 * m.c0 + 7.0 * m.c1 * d - m.c2 * (d * d), d * d * d * d);
    QuotientBack(6.0 * m.c0 - 3.0 * m.c1 * d + 0.5 * m.c2 * (d * d), d * d * d * d * d);
  }

  ghost predicate SameMultiple(x: real, y: real, d: real) { x * d == y * d }

  lemma CancelFactor(x: real, y: real, d: real)
    requires d != 0.0 && SameMultiple(x, y, d)
    ensures x == y
  {
    assert (x - y) * d == 0.0;
  }

  lemma EndPosition(p: Polynomial, m: Misses, d: real)
    requires LeadingTerms(p, m, d)
    ensures p.Position(d) == p.a0 + p.a1 * d + p.a2 * (d * d) + m.c0
  {
  }

  // The products of the next lemmas are named by predicates, so that facts about them pass from lemma to lemma.

  ghost predicate Times(a: real, b: real, v: real) { a * b == v }

  ghost predicate Triple(a: real, b: real, c: real, v: real) { a * (b * c) == v }

  lemma Regroup(a: real, b: real, c: real, v: real) returns (ab: real)
    requires Triple(a, b, c, v)
    ensures Times(a, b, ab) && Times(ab, c, v)
  {
    ab := a * b;
    assert a * (b * c) == ab * c;
  }

  /** b3, b4 and b5 are the leading terms over w; y0, y1 and y2 are the scaled misses. */
  lemma VelocityBalance(b3: real, b4: real, b5: real, w: real, y0: real, y1: real, y2: real, c: real)
    requires Times(b3, w, 10.0 * y0 - 4.0 * y1 + 0.5 * y2) && Times(b4, w, -15.0 * y0 + 7.0 * y1 - y2)
    requires Times(b5, w, 6.0 * y0 - 3.0 * y1 + 0.5 * y2) && Times(c, w, y1) && w != 0.0
    ensures 3.0 * b3 + 4.0 * b4 + 5.0 * b5 == c
  {
    var high := 3.0 * b3 + 4.0 * b4 + 5.0 * b5;
    assert high * w == 3.0 * (b3 * w) + 4.0 * (b4 * w) + 5.0 * (b5 * w);
    assert SameMultiple(high, c, w);
    CancelFactor(high, c, w);
  }

  lemma AccelerationBalance(b3: real, b4: real, b5: real, w: real, y0: real, y1: real, y2: real, c: real)
    requires Times(b3, w, 10.0 * y0 - 4.0 * y1 + 0.5 * y2) && Times(b4, w, -15.0 * y0 + 7.0 * y1 - y2)
    requires Times(b5, w, 6.0 * y0 - 3.0 * y1 + 0.5 * y2) && Times(c, w, y2) && w != 0.0
    ensures 6.0 * b3 + 12.0 * b4 + 20.0 * b5 == c
  {
    var high := 6.0 * b3 + 12.0 * b4 + 20.0 * b5;
    assert high * w == 6.0 * (b3 * w) + 12.0 * (b4 * w) + 20.0 * (b5 * w);
    assert SameMultiple(high, c, w);
    CancelFactor(high, c, w);
  }

  ghost predicate VelocityIs(p: Polynomial, d: real, high: real) { p.Velocity(d) == p.a1 + 2.0 * p.a2 * d + high }

  lemma VelocityParts(p: Polynomial, d: real, b3: real, b4: real, b5: real)
    requires Times(p.a3, d * d, b3) && Times(p.a4, d * d * d, b4) && Times(p.a5, d * d * d * d, b5)
    ensures VelocityIs(p, d, 3.0 * b3 + 4.0 * b4 + 5.0 * b5)
  {
  }

  ghost predicate AccelerationIs(p: Polynomial, d: real, high: real) { p.Acceleration(d) == 2.0 * p.a2 + high }

  lemma AccelerationParts(p: Polynomial, d: real, b3: real, b4: real, b5: real)
    requires Times(p.a3, d, b3) && Times(p.a4, d * d, b4) && Times(p.a5, d * d * d, b5)
    ensures AccelerationIs(p, d, 6.0 * b3 + 12.0 * b4 + 20.0 * b5)
  {
  }

  /** The leading terms, with y1 and y2 for the scaled misses. */
  lemma LeadingValues(p: Polynomial, m: Misses, d: real, y1: real, y2: real)
    requires LeadingTerms(p, m, d) && Times(m.c1, d, y1) && Times(m.c2, d * d, y2)
    ensures Times(p.a3, d * d * d, 10.0 * m.c0 - 4.0 * y1 + 0.5 * y2)
    ensures Times(p.a4, d * d * d * d, -15.0 * m.c0 + 7.0 * y1 - y2)
    ensures Times(p.a5, d * d * d * d * d, 6.0 * m.c0 - 3.0 * y1 + 0.5 * y2)
  {
  }

  lemma SplitPower(a: real, b: real, c: real, power: real, v: real)
    requires Times(a, power, v) && power == b * c
    ensures Triple(a, b, c, v)
  {
  }

  lemma MultiplyOut(a: real, b: real) returns (v: real)
    ensures Times(a, b, v)
  {
    v := a * b;
  }

  lemma EndVelocity(p: Polynomial, m: Misses, d: real)
    requires LeadingTerms(p, m, d) && 0.0 < d
    ensures VelocityIs(p, d, m.c1)
  {
    hide *;
    var y0 := m.c0;
    var y1 := MultiplyOut(m.c1, d);
    var y2 := MultiplyOut(m.c2, d * d);
    var v3, v4, v5 := 10.0 * y0 - 4.0 * y1 + 0.5 * y2, -15.0 * y0 + 7.0 * y1 - y2, 6.0 * y0 - 3.0 * y1 + 0.5 * y2;
    LeadingValues(p, m, d, y1, y2);
    SplitPower(p.a3, d * d, d, d * d * d, v3);
    SplitPower(p.a4, d * d * d, d, d * d * d * d, v4);
    SplitPower(p.a5, d * d * d * d, d, d * d * d * d * d, v5);
    var b3 := Regroup(p.a3, d * d, d, v3);
    var b4 := Regroup(p.a4, d * d * d, d, v4);
    var b5 := Regroup(p.a5, d * d * d * d, d, v5);
    VelocityBalance(b3, b4, b5, d, y0, y1, y2, m.c1);
    VelocityParts(p, d, b3, b4, b5);
  }

  lemma EndAcceleration(p: Polynomial, m: Misses, d: real)
    requires LeadingTerms(p, m, d) && 0.0 < d
    ensures AccelerationIs(p, d, m.c2)
  {
    hide *;
    var y0, w := m.c0, d * d;
    var y1 := MultiplyOut(m.c1, d);
    var y2 := MultiplyOut(m.c2, d * d);
    var v3, v4, v5 := 10.0 * y0 - 4.0 * y1 + 0.5 * y2, -15.0 * y0 + 7.0 * y1 - y2, 6.0 * y0 - 3.0 * y1 + 0.5 * y2;
    LeadingValues(p, m, d, y1, y2);
    SplitPower(p.a3, d, d * d, d * d * d, v3);
    SplitPower(p.a4, d * d, d * d, d * d * d * d, v4);
    SplitPower(p.a5, d * d * d, d * d, d * d * d * d * d, v5);
    ProductPositive(d, d);
    var b3 := Regroup(p.a3, d, d * d, v3);
    var b4 := Regroup(p.a4, d * d, d * d, v4);
    var b5 := Regroup(p.a5, d * d * d, d * d, v5);
    AccelerationBalance(b3, b4, b5, w, y0, y1, y2, m.c2);
    AccelerationParts(p, d, b3, b4, b5);
  }

  lemma StartCoefficients(start: Jet, end: Jet, duration: real)
    requires 0.0 < duration
    ensures var p := Coefficients(start, end, duration);
      p.a0 == start.position && p.a1 == start.velocity && p.a2 == start.acceleration / 2.0
  {
  }

  /** The segment meets all six boundary values, and time outside it is clamped to its ends. */
  lemma MeetsBoundary(start: Jet, end: Jet, duration: real, elapsed: real)
    requires 0.0 < duration
    ensures elapsed <= 0.0 ==> QuinticAxis(start, end, duration, elapsed) == start
    ensures duration <= elapsed ==> QuinticAxis(start, end, duration, elapsed) == end
  {
    var p, m := Coefficients(start, end, duration), MissesOf(start, end, duration);
    LeadingTermsHold(start, end, duration);
    StartCoefficients(start, end, duration);
    assert p.At(0.0) == start by { AtStart(p); }
    assert p.At(duration) == end by { AtEnd(start, end, duration, p, m); }
    hide Coefficients, Polynomial.Position, Polynomial.Velocity, Polynomial.Acceleration;
  }

  lemma AtStart(p: Polynomial)
    ensures p.At(0.0) == Jet(p.a0, p.a1, 2.0 * p.a2)
  {
  }

  lemma AtEnd(start: Jet, end: Jet, duration: real, p: Polynomial, m: Misses)
    requires 0.0 < duration && m == MissesOf(start, end, duration) && LeadingTerms(p, m, duration)
    requires p.a0 == start.position && p.a1 == start.velocity && p.a2 == start.acceleration / 2.0
    ensures p.At(duration) == end
  {
    hide LeadingTerms, Polynomial.Position, Polynomial.Velocity, Polynomial.Acceleration;
    EndPosition(p, m, duration);
    EndVelocity(p, m, duration);
    EndAcceleration(p, m, duration);
  }

  // ----- reproduction -----

  lemma MissesOfPolynomial(p: Polynomial, d: real)
    ensures var m := MissesOf(p.At(0.0), p.At(d), d);
      && m.c0 == p.a3 * (d * d * d) + p.a4 * (d * d * d * d) + p.a5 * (d * d * d * d * d)
      && m.c1 == 3.0 * p.a3 * (d * d) + 4.0 * p.a4 * (d * d * d) + 5.0 * p.a5 * (d * d * d * d)
      && m.c2 == 6.0 * p.a3 * d + 12.0 * p.a4 * (d * d) + 20.0 * p.a5 * (d * d * d)
  {
    assert p.At(0.0) == Jet(p.a0, p.a1, 2.0 * p.a2);
  }

  lemma ScaledVelocityMiss(p: Polynomial, d: real)
    ensures MissesOf(p.At(0.0), p.At(d), d).c1 * d
         == 3.0 * (p.a3 * (d * d * d)) + 4.0 * (p.a4 * (d * d * d * d)) + 5.0 * (p.a5 * (d * d * d * d * d))
  {
    var c := MissesOf(p.At(0.0), p.At(d), d).c1;
    MissesOfPolynomial(p, d);
    hide MissesOf;
    assert c * d == (3.0 * p.a3 * (d * d) + 4.0 * p.a4 * (d * d * d) + 5.0 * p.a5 * (d * d * d * d)) * d;
  }

  lemma ScaledAccelerationMiss(p: Polynomial, d: real)
    ensures MissesOf(p.At(0.0), p.At(d), d).c2 * (d * d)
         == 6.0 * (p.a3 * (d * d * d)) + 12.0 * (p.a4 * (d * d * d * d)) + 20.0 * (p.a5 * (d * d * d * d * d))
  {
    var c := MissesOf(p.At(0.0), p.At(d), d).c2;
    MissesOfPolynomial(p, d);
    hide MissesOf;
    assert c * (d * d) == (6.0 * p.a3 * d + 12.0 * p.a4 * (d * d) + 20.0 * p.a5 * (d * d * d)) * (d * d);
  }

  /** Every polynomial of degree at most five is rebuilt from its two end jets. */
  lemma RebuildsPolynomial(p: Polynomial, duration: real)
    requires 0.0 < duration
    ensures Coefficients(p.At(0.0), p.At(duration), duration) == p
  {
    var d, q := duration, Coefficients(p.At(0.0), p.At(duration), duration);
    var m := MissesOf(p.At(0.0), p.At(d), d);
    MissesOfPolynomial(p, d);
    ScaledVelocityMiss(p, d);
    ScaledAccelerationMiss(p, d);
    LeadingTermsHold(p.At(0.0), p.At(d), d);
    PowersPositive(d);
    assert SameMultiple(q.a3, p.a3, d * d * d);
    assert SameMultiple(q.a4, p.a4, d * d * d * d);
    assert SameMultiple(q.a5, p.a5, d * d * d * d * d);
    CancelFactor(q.a3, p.a3, d * d * d);
    CancelFactor(q.a4, p.a4, d * d * d * d);
    CancelFactor(q.a5, p.a5, d * d * d * d * d);
    assert p.At(0.0) == Jet(p.a0, p.a1, 2.0 * p.a2);
  }

  /** So the segment is the one such polynomial through its end jets, at every time inside it. */
  lemma ReproducesPolynomial(p: Polynomial, duration: real, t: real)
    requires 0.0 < duration && 0.0 <= t <= duration
    ensures QuinticAxis(p.At(0.0), p.At(duration), duration, t) == p.At(t)
  {
    RebuildsPolynomial(p, duration);
  }

  // ----- velocity and acceleration are derivatives -----

  ghost function PositionRemainder(p: Polynomial, t: real, h: real): real {
    p.a2 + p.a3 * (3.0 * t + h) + p.a4 * (6.0 * (t * t) + 4.0 * (t * h) + h * h)
    + p.a5 * (10.0 * (t * t * t) + 10.0 * (t * t * h) + 5.0 * (t * h * h) + h * h * h)
  }

  ghost function VelocityRemainder(p: Polynomial, t: real, h: real): real {
    3.0 * p.a3 + 4.0 * p.a4 * (3.0 * t + h) + 5.0 * p.a5 * (6.0 * (t * t) + 4.0 * (t * h) + h * h)
  }

  lemma SquareShift(t: real, h: real)
    ensures (t + h) * (t + h) == t * t + 2.0 * (t * h) + h * h
  {
  }

  lemma CubeShift(t: real, h: real)
    ensures (t + h) * (t + h) * (t + h) == t * t * t + h * (3.0 * (t * t)) + h * h * (3.0 * t + h)
  {
  }

  lemma FourthShift(t: real, h: real)
    ensures (t + h) * (t + h) * (t + h) * (t + h)
         == t * t * t * t + h * (4.0 * (t * t * t)) + h * h * (6.0 * (t * t) + 4.0 * (t * h) + h * h)
  {
    CubeShift(t, h);
    var s := t + h;
    assert s * s * s * s == s * s * s * t + s * s * s * h;
  }

  lemma FifthShift(t: real, h: real)
    ensures (t + h) * (t + h) * (t + h) * (t + h) * (t + h)
         == t * t * t * t * t + h * (5.0 * (t * t * t * t))
            + h * h * (10.0 * (t * t * t) + 10.0 * (t * t * h) + 5.0 * (t * h * h) + h * h * h)
  {
    FourthShift(t, h);
    var s := t + h;
    assert s * s * s * s * s == s * s * s * s * t + s * s * s * s * h;
  }

  /** The velocity is the derivative of the position: the rest is of second order in the time step. */
  lemma VelocityIsDerivative(p: Polynomial, t: real, h: real)
    ensures p.Position(t + h) == p.Position(t) + h * p.Velocity(t) + h * h * PositionRemainder(p, t, h)
  {
    SquareShift(t, h);
    CubeShift(t, h);
    FourthShift(t, h);
    FifthShift(t, h);
  }

  lemma AccelerationIsDerivative(p: Polynomial, t: real, h: real)
    ensures p.Velocity(t + h) == p.Velocity(t) + h * p.Acceleration(t) + h * h * VelocityRemainder(p, t, h)
  {
    SquareShift(t, h);
    CubeShift(t, h);
    FourthShift(t, h);
  }

  // ----- the same curve from another origin -----

  /** The polynomial as seen from time c. */
  function From(p: Polynomial, c: real): Polynomial {
    Polynomial(p.Position(c), p.Velocity(c), p.Acceleration(c) / 2.0,
               p.a3 + 4.0 * p.a4 * c + 10.0 * p.a5 * (c * c), p.a4 + 5.0 * p.a5 * c, p.a5)
  }

  ghost predicate SamePosition(p: Polynomial, c: real, u: real) { From(p, c).Position(u) == p.Position(c + u) }

  ghost predicate SameVelocity(p: Polynomial, c: real, u: real) { From(p, c).Velocity(u) == p.Velocity(c + u) }

  ghost predicate SameAcceleration(p: Polynomial, c: real, u: real) { From(p, c).Acceleration(u) == p.Acceleration(c + u) }

  /** What a polynomial is beyond its value and slope at zero. */
  ghost function Tail(q: Polynomial, u: real): real { q.a2 + q.a3 * u + q.a4 * (u * u) + q.a5 * (u * u * u) }

  /** A value, a slope, and w for what is beyond them. */
  ghost predicate Expands(value: real, start: real, slope: real, u: real, w: real) {
    value == start + u * slope + u * u * w
  }

  lemma TailExpands(q: Polynomial, u: real)
    ensures Expands(q.Position(u), q.a0, q.a1, u, Tail(q, u))
  {
  }

  lemma RemainderExpands(p: Polynomial, c: real, u: real)
    ensures Expands(p.Position(c + u), p.Position(c), p.Velocity(c), u, PositionRemainder(p, c, u))
  {
    VelocityIsDerivative(p, c, u);
  }

  lemma VelocityExpands(p: Polynomial, c: real, u: real)
    ensures Expands(p.Velocity(c + u), p.Velocity(c), p.Acceleration(c), u, VelocityRemainder(p, c, u))
  {
    AccelerationIsDerivative(p, c, u);
  }

  lemma TailFrom(p: Polynomial, c: real, u: real)
    ensures Tail(From(p, c), u) == PositionRemainder(p, c, u)
  {
  }

  lemma FromStarts(p: Polynomial, c: real)
    ensures From(p, c).a0 == p.Position(c) && From(p, c).a1 == p.Velocity(c)
  {
  }

  lemma OneValue(x: real, y: real, start: real, slope: real, u: real, w: real)
    requires Expands(x, start, slope, u, w) && Expands(y, start, slope, u, w)
    ensures x == y
  {
  }

  lemma PositionFrom(p: Polynomial, c: real, u: real)
    ensures SamePosition(p, c, u)
  {
    hide Expands, Tail, PositionRemainder, From, Polynomial.Position, Polynomial.Velocity;
    TailExpands(From(p, c), u);
    RemainderExpands(p, c, u);
    TailFrom(p, c, u);
    FromStarts(p, c);
    OneValue(From(p, c).Position(u), p.Position(c + u), p.Position(c), p.Velocity(c), u, PositionRemainder(p, c, u));
  }

  lemma VelocityFrom(p: Polynomial, c: real, u: real)
    ensures SameVelocity(p, c, u)
  {
  }

  lemma AccelerationFrom(p: Polynomial, c: real, u: real)
    ensures SameAcceleration(p, c, u)
  {
  }

  lemma SameCurve(p: Polynomial, c: real, u: real)
    ensures From(p, c).At(u) == p.At(c + u)
  {
    PositionFrom(p, c, u);
    VelocityFrom(p, c, u);
    AccelerationFrom(p, c, u);
    hide Polynomial.Position, Polynomial.Velocity, Polynomial.Acceleration, From;
  }
}
