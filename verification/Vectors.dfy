/** Three-dimensional points, axis-aligned regions and the Euclidean norm.

    `math.sqrt` is an outside function: it enters as a parameter `root`, and every
    lemma that needs it requires only `IsRoot(root)`, the defining law of the
    non-negative square root. */
module Vectors {

  datatype Vector3 = Vector3(x: real, y: real, z: real)

  datatype Region3D = Region3D(id: string, minimum: Vector3, maximum: Vector3) {
    /** The validator of a region: no minimum exceeds its maximum. */
    predicate Ordered() {
      minimum.x <= maximum.x && minimum.y <= maximum.y && minimum.z <= maximum.z
    }

    predicate Contains(p: Vector3) {
      && minimum.x <= p.x <= maximum.x
      && minimum.y <= p.y <= maximum.y
      && minimum.z <= p.z <= maximum.z
    }

    function Center(): Vector3 {
      Vector3((minimum.x + maximum.x) / 2.0, (minimum.y + maximum.y) / 2.0, (minimum.z + maximum.z) / 2.0)
    }
  }

  datatype Axis = X | Y | Z

  function On(p: Vector3, a: Axis): real {
    match a case X => p.x case Y => p.y case Z => p.z
  }

  function Max(a: real, b: real): real { if a < b then b else a }

  function Min(a: real, b: real): real { if b < a then b else a }

  function Abs(a: real): real { if a < 0.0 then -a else a }

  /** Python's math.isclose with its default relative tolerance and the absolute one the callers give. */
  predicate IsClose(a: real, b: real) {
    Abs(a - b) <= Max(1e-9 * Max(Abs(a), Abs(b)), 1e-9)
  }

  function Add(a: Vector3, b: Vector3): Vector3 { Vector3(a.x + b.x, a.y + b.y, a.z + b.z) }

  function Subtract(a: Vector3, b: Vector3): Vector3 { Vector3(a.x - b.x, a.y - b.y, a.z - b.z) }

  function Scale(a: Vector3, k: real): Vector3 { Vector3(a.x * k, a.y * k, a.z * k) }

  function Dot(a: Vector3, b: Vector3): real { a.x * b.x + a.y * b.y + a.z * b.z }

  function Mix(a: real, b: real, f: real): real { a + (b - a) * f }

  function Lerp(a: Vector3, b: Vector3, f: real): Vector3 {
    Vector3(Mix(a.x, b.x, f), Mix(a.y, b.y, f), Mix(a.z, b.z, f))
  }

  ghost predicate RootAt(root: real -> real, v: real) {
    0.0 <= v ==> 0.0 <= root(v) && root(v) * root(v) == v
  }

  /** The law of the non-negative square root. */
  ghost predicate IsRoot(root: real -> real) {
    forall v: real :: RootAt(root, v)
  }

  function Norm(root: real -> real, v: Vector3): real { root(Dot(v, v)) }

  function Distance(root: real -> real, a: Vector3, b: Vector3): real { Norm(root, Subtract(a, b)) }

  lemma SquareNonNegative(a: real)
    ensures 0.0 <= a * a
  {
  }

  lemma ProductNonNegative(a: real, b: real)
    requires 0.0 <= a && 0.0 <= b
    ensures 0.0 <= a * b
  {
  }

  lemma ProductPositive(a: real, b: real)
    requires 0.0 < a && 0.0 < b
    ensures 0.0 < a * b
  {
  }

  lemma QuotientBack(a: real, b: real)
    requires b != 0.0
    ensures a / b * b == a
  {
  }

  lemma QuotientIs(a: real, b: real, q: real)
    requires b != 0.0 && q * b == a
    ensures a / b == q
  {
  }

  lemma EqualMultiples(q: real, t: real, u: real)
    requires q * t == q * u && t != u
    ensures q == 0.0
  {
    assert q * (t - u) == 0.0;
  }

  lemma NormIsRoot(root: real -> real, v: Vector3)
    requires IsRoot(root)
    ensures 0.0 <= Dot(v, v)
    ensures 0.0 <= Norm(root, v)
    ensures Norm(root, v) * Norm(root, v) == Dot(v, v)
  {
    SquareNonNegative(v.x);
    SquareNonNegative(v.y);
    SquareNonNegative(v.z);
    assert RootAt(root, Dot(v, v));
  }

  lemma LessBySquare(a: real, b: real)
    requires 0.0 <= b
    requires a * a <= b * b
    ensures a <= b
  {
    if b < a {
      ProductPositive(a - b, a + b);
    }
  }

  lemma NormMonotone(root: real -> real, u: Vector3, v: Vector3)
    requires IsRoot(root)
    requires Dot(u, u) <= Dot(v, v)
    ensures Norm(root, u) <= Norm(root, v)
  {
    NormIsRoot(root, u);
    NormIsRoot(root, v);
    LessBySquare(Norm(root, u), Norm(root, v));
  }

  lemma Lagrange(a: real, b: real, c: real, d: real, e: real, f: real)
    ensures (a * a + b * b + c * c) * (d * d + e * e + f * f)
         == (a * d + b * e + c * f) * (a * d + b * e + c * f)
            + (a * e - b * d) * (a * e - b * d) + (b * f - c * e) * (b * f - c * e) + (c * d - a * f) * (c * d - a * f)
  {
    SquareOfSum(a * d, b * e, c * f);
    SquareOfSum(a * e, -(b * d), 0.0);
    SquareOfSum(b * f, -(c * e), 0.0);
    SquareOfSum(c * d, -(a * f), 0.0);
  }

  lemma SquareOfSum(p: real, q: real, r: real)
    ensures (p + q + r) * (p + q + r) == p * p + q * q + r * r + 2.0 * (p * q) + 2.0 * (q * r) + 2.0 * (p * r)
  {
  }

  /** Lagrange's identity bounds the squared inner product. */
  lemma CauchySchwarzSquared(u: Vector3, v: Vector3)
    ensures Dot(u, v) * Dot(u, v) <= Dot(u, u) * Dot(v, v)
  {
    var p, q, r := u.x * v.y - u.y * v.x, u.y * v.z - u.z * v.y, u.z * v.x - u.x * v.z;
    SquareNonNegative(p);
    SquareNonNegative(q);
    SquareNonNegative(r);
    Lagrange(u.x, u.y, u.z, v.x, v.y, v.z);
  }

  lemma CauchySchwarz(root: real -> real, u: Vector3, v: Vector3)
    requires IsRoot(root)
    ensures Dot(u, v) <= Norm(root, u) * Norm(root, v)
  {
    var a, b := Norm(root, u), Norm(root, v);
    NormIsRoot(root, u);
    NormIsRoot(root, v);
    CauchySchwarzSquared(u, v);
    assert (a * b) * (a * b) == (a * a) * (b * b);
    LessBySquare(Dot(u, v), a * b);
  }

  lemma Triangle(root: real -> real, u: Vector3, v: Vector3)
    requires IsRoot(root)
    ensures Norm(root, Add(u, v)) <= Norm(root, u) + Norm(root, v)
  {
    var a, b, c := Norm(root, u), Norm(root, v), Norm(root, Add(u, v));
    NormIsRoot(root, u);
    NormIsRoot(root, v);
    NormIsRoot(root, Add(u, v));
    CauchySchwarz(root, u, v);
    assert Dot(Add(u, v), Add(u, v)) == Dot(u, u) + 2.0 * Dot(u, v) + Dot(v, v);
    assert (a + b) * (a + b) == a * a + 2.0 * (a * b) + b * b;
    LessBySquare(c, a + b);
  }

  /** Scaling by k scales the norm by the size of k. */
  lemma NormScaled(root: real -> real, v: Vector3, k: real, size: real)
    requires IsRoot(root)
    requires 0.0 <= size && size * size == k * k
    ensures Norm(root, Scale(v, k)) == size * Norm(root, v)
  {
    var n, s := Norm(root, v), Norm(root, Scale(v, k));
    NormIsRoot(root, v);
    NormIsRoot(root, Scale(v, k));
    DotScaled(v, k);
    var t := size * n;
    ProductNonNegative(size, n);
    SquareOfProduct(size, n);
    LessBySquare(s, t);
    LessBySquare(t, s);
  }

  lemma SquareOfProduct(a: real, b: real)
    ensures (a * b) * (a * b) == (a * a) * (b * b)
  {
  }

  lemma DotScaled(v: Vector3, k: real)
    ensures Dot(Scale(v, k), Scale(v, k)) == (k * k) * Dot(v, v)
  {
    SquareOfProduct(v.x, k);
    SquareOfProduct(v.y, k);
    SquareOfProduct(v.z, k);
  }

  /** The length of a small vector is small. */
  lemma NormAtMost(root: real -> real, v: Vector3, bound: real)
    requires IsRoot(root)
    requires 0.0 <= bound && Dot(v, v) <= bound * bound
    ensures 0.0 <= Norm(root, v) <= bound
  {
    NormIsRoot(root, v);
    LessBySquare(Norm(root, v), bound);
  }

  lemma DistanceSymmetric(root: real -> real, a: Vector3, b: Vector3)
    requires IsRoot(root)
    ensures Distance(root, a, b) == Distance(root, b, a)
  {
    assert Dot(Subtract(a, b), Subtract(a, b)) == Dot(Subtract(b, a), Subtract(b, a));
  }

  lemma SquareZero(a: real)
    requires a * a <= 0.0
    ensures a == 0.0
  {
    LessBySquare(a, 0.0);
    assert (-a) * (-a) == a * a;
    LessBySquare(-a, 0.0);
  }

  lemma ZeroDistance(root: real -> real, a: Vector3, b: Vector3)
    requires IsRoot(root) && Distance(root, a, b) == 0.0
    ensures a == b
  {
    var d := Subtract(a, b);
    NormIsRoot(root, d);
    SquareNonNegative(d.x);
    SquareNonNegative(d.y);
    SquareNonNegative(d.z);
    SquareZero(d.x);
    SquareZero(d.y);
    SquareZero(d.z);
  }

  /** A product of a fraction with a non-negative number stays below that number. */
  lemma FractionOf(f: real, a: real)
    requires 0.0 <= f <= 1.0 && 0.0 <= a
    ensures 0.0 <= f * a <= a
  {
  }

  /** Mixing stays between its ends, so a box that holds both ends holds the segment. */
  lemma RegionConvex(region: Region3D, a: Vector3, b: Vector3, f: real)
    requires 0.0 <= f <= 1.0
    requires region.Contains(a) && region.Contains(b)
    ensures region.Contains(Lerp(a, b, f))
  {
    MixBetween(a.x, b.x, f, region.minimum.x, region.maximum.x);
    MixBetween(a.y, b.y, f, region.minimum.y, region.maximum.y);
    MixBetween(a.z, b.z, f, region.minimum.z, region.maximum.z);
  }

  lemma MixBetween(a: real, b: real, f: real, low: real, high: real)
    requires 0.0 <= f <= 1.0
    requires low <= a <= high && low <= b <= high
    ensures low <= Mix(a, b, f) <= high
  {
    ProductNonNegative(a - low, 1.0 - f);
    ProductNonNegative(b - low, f);
    ProductNonNegative(high - a, 1.0 - f);
    ProductNonNegative(high - b, f);
    assert Mix(a, b, f) - low == (a - low) * (1.0 - f) + (b - low) * f;
    assert high - Mix(a, b, f) == (high - a) * (1.0 - f) + (high - b) * f;
  }

  lemma MixInjective(a: real, b: real, u: real, v: real)
    requires a != b && Mix(a, b, u) == Mix(a, b, v)
    ensures u == v
  {
    if u != v { EqualMultiples(b - a, u, v); }
  }
}
