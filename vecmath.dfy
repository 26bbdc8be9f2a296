/**
  The vector maths the controller relies on, over the reals.

  The square root is not definable here, so every member that needs a length
  takes the square root as a parameter `sqrt` together with the assumption
  `IsSqrt(sqrt)`: on non-negative arguments it returns the non-negative root.
*/
module VecMath {

  datatype Vec2 = Vec2(x: real, y: real)

  datatype Vec3 = Vec3(x: real, y: real, z: real)

  const Zero: Vec3 := Vec3(0.0, 0.0, 0.0)
  const Up: Vec3 := Vec3(0.0, 1.0, 0.0)
  const Down: Vec3 := Vec3(0.0, -1.0, 0.0)
  const Vec2Zero: Vec2 := Vec2(0.0, 0.0)

  function Add(a: Vec3, b: Vec3): Vec3 { Vec3(a.x + b.x, a.y + b.y, a.z + b.z) }

  function Sub(a: Vec3, b: Vec3): Vec3 { Vec3(a.x - b.x, a.y - b.y, a.z - b.z) }

  function Neg(a: Vec3): Vec3 { Vec3(-a.x, -a.y, -a.z) }

  function Scale(a: Vec3, k: real): Vec3 { Vec3(k * a.x, k * a.y, k * a.z) }

  function Dot(a: Vec3, b: Vec3): real { a.x * b.x + a.y * b.y + a.z * b.z }

  function LengthSq(a: Vec3): real { Dot(a, a) }

  /** `vec3(v.x, 0.0, v.z)` */
  function Flat(a: Vec3): Vec3 { Vec3(a.x, 0.0, a.z) }

  /** `a.xz().distance_squared(b.xz())` */
  function XzDistanceSq(a: Vec3, b: Vec3): real
  {
    (a.x - b.x) * (a.x - b.x) + (a.z - b.z) * (a.z - b.z)
  }

  /**
    A product of two variables, as a named term. A step and the function
    that specifies it compute such products through `Mul`, so that the two
    are matched by their arguments instead of by non-linear arithmetic.
  */
  function Mul(a: real, b: real): real { a * b }

  /** A quotient of two variables, named for the same reason as `Mul`. */
  function Div(a: real, b: real): real
    requires b != 0.0
  {
    a / b
  }

  function Min(a: real, b: real): real { if a <= b then a else b }

  function Max(a: real, b: real): real { if a >= b then a else b }

  /** `f32::clamp(lo, hi)` */
  function Clamp(v: real, lo: real, hi: real): real
    requires lo <= hi
  {
    if v < lo then lo else if v > hi then hi else v
  }

  /** `f32::signum` on a real: the sign of -0.0 is not modelled, so 0.0 gives 1.0. */
  function Signum(v: real): real { if v < 0.0 then -1.0 else 1.0 }

  function Abs(v: real): real { if v < 0.0 then -v else v }

  ghost predicate IsSqrt(sqrt: real -> real)
  {
    forall x :: 0.0 <= x ==> 0.0 <= sqrt(x) && sqrt(x) * sqrt(x) == x
  }

  lemma ZeroProduct(x: real, y: real)
    requires x * y == 0.0 && y != 0.0
    ensures x == 0.0
  {
    assert x == (x * y) / y;
  }

  lemma SquareZero(x: real)
    requires x * x == 0.0
    ensures x == 0.0
  {
    if x != 0.0 { ZeroProduct(x, x); }
  }

  lemma SquaresNonNegative(a: Vec3)
    ensures 0.0 <= LengthSq(a)
    ensures LengthSq(a) == 0.0 <==> a == Zero
  {
    assert 0.0 <= a.x * a.x && 0.0 <= a.y * a.y && 0.0 <= a.z * a.z;
    if LengthSq(a) == 0.0 {
      assert a.x * a.x == 0.0 && a.y * a.y == 0.0 && a.z * a.z == 0.0;
      SquareZero(a.x);
      SquareZero(a.y);
      SquareZero(a.z);
    }
  }

  lemma LengthSqScale(a: Vec3, k: real)
    ensures LengthSq(Scale(a, k)) == k * k * LengthSq(a)
  {
    assert (k * a.x) * (k * a.x) == k * k * (a.x * a.x);
    assert (k * a.y) * (k * a.y) == k * k * (a.y * a.y);
    assert (k * a.z) * (k * a.z) == k * k * (a.z * a.z);
  }

  lemma SqrtAt(sqrt: real -> real, x: real)
    requires IsSqrt(sqrt) && 0.0 <= x
    ensures 0.0 <= sqrt(x) && sqrt(x) * sqrt(x) == x
    ensures sqrt(x) == 0.0 <==> x == 0.0
  {
    var n := sqrt(x);
    if x == 0.0 { SquareZero(n); }
  }

  lemma SqrtOfLengthSq(sqrt: real -> real, v: Vec3)
    requires IsSqrt(sqrt)
    ensures 0.0 <= sqrt(LengthSq(v)) && sqrt(LengthSq(v)) * sqrt(LengthSq(v)) == LengthSq(v)
    ensures sqrt(LengthSq(v)) == 0.0 <==> v == Zero
  {
    SquaresNonNegative(v);
    SqrtAt(sqrt, LengthSq(v));
  }

  /** `Vec3::length`, with the square root taken as given. */
  function Length(sqrt: real -> real, v: Vec3): real
  {
    sqrt(LengthSq(v))
  }

  /** What `Length` gives when `sqrt` is the square root: the non-negative root of `LengthSq`, zero only for zero. */
  lemma LengthFacts(sqrt: real -> real, v: Vec3)
    requires IsSqrt(sqrt)
    ensures 0.0 <= Length(sqrt, v) && Length(sqrt, v) * Length(sqrt, v) == LengthSq(v)
    ensures Length(sqrt, v) == 0.0 <==> v == Zero
  {
    SqrtOfLengthSq(sqrt, v);
  }

  /** A non-negative number is determined by its square. */
  lemma RootUnique(a: real, b: real)
    requires 0.0 <= a && 0.0 <= b && a * a == b * b
    ensures a == b
  {
    assert (a - b) * (a + b) == a * a - b * b;
    if a + b != 0.0 { ZeroProduct(a - b, a + b); }
  }

  /** Scaling a unit vector by an inverse length gives a unit vector. */
  lemma {:induction false} InverseScaleIsUnit(v: Vec3, n: real)
    requires 0.0 < n && n * n == LengthSq(v)
    ensures LengthSq(Scale(v, 1.0 / n)) == 1.0
    ensures Scale(Scale(v, 1.0 / n), n) == v
  {
    var k := 1.0 / n;
    LengthSqScale(v, k);
    assert k * n == 1.0;
    calc {
      k * k * LengthSq(v);
      == k * k * (n * n);
      == (k * n) * (k * n);
      == 1.0;
    }
    assert Scale(Scale(v, k), n) == Vec3(n * (k * v.x), n * (k * v.y), n * (k * v.z));
  }

  /** `Vec3::normalize_or_zero`: the zero vector stays zero. */
  function NormalizeOrZero(sqrt: real -> real, v: Vec3): Vec3
  {
    var n := Length(sqrt, v);
    if n == 0.0 then Zero else Scale(v, 1.0 / n)
  }

  /** Whatever `sqrt` gives, normalising keeps the zero vector and horizontal vectors. */
  lemma NormalizeShape(sqrt: real -> real, v: Vec3)
    ensures v == Zero ==> NormalizeOrZero(sqrt, v) == Zero
    ensures v.y == 0.0 ==> NormalizeOrZero(sqrt, v).y == 0.0
  {
    var n := Length(sqrt, v);
    if n != 0.0 {
      assert NormalizeOrZero(sqrt, v) == Scale(v, 1.0 / n);
      assert Scale(v, 1.0 / n).y == (1.0 / n) * v.y;
    }
  }

  /** `(v + k d)·u = v·u + k (u·d)` */
  lemma DotAddScaled(v: Vec3, d: Vec3, k: real, u: Vec3)
    ensures Dot(Add(v, Scale(d, k)), u) == Dot(v, u) + k * Dot(u, d)
  {
    assert (v.x + k * d.x) * u.x == v.x * u.x + k * (u.x * d.x);
    assert (v.y + k * d.y) * u.y == v.y * u.y + k * (u.y * d.y);
    assert (v.z + k * d.z) * u.z == v.z * u.z + k * (u.z * d.z);
  }

  /**
    With the square root, normalising gives the zero vector for zero and
    otherwise a unit vector that the length scales back to the input; a
    horizontal vector stays horizontal.
  */
  lemma NormalizeFacts(sqrt: real -> real, v: Vec3)
    requires IsSqrt(sqrt)
    ensures v == Zero ==> NormalizeOrZero(sqrt, v) == Zero
    ensures v != Zero ==> LengthSq(NormalizeOrZero(sqrt, v)) == 1.0
                          && Scale(NormalizeOrZero(sqrt, v), Length(sqrt, v)) == v
    ensures v.y == 0.0 ==> NormalizeOrZero(sqrt, v).y == 0.0
  {
    var n := Length(sqrt, v);
    LengthFacts(sqrt, v);
    if n != 0.0 {
      InverseScaleIsUnit(v, n);
    }
  }

  /**
    `Vec3::clamp_length_max(max)` (also `clamp_length(0.0, max)`): a vector
    longer than `max` is shortened to length `max` along the same direction.
  */
  function ClampLengthMax(sqrt: real -> real, v: Vec3, max: real): Vec3
  {
    if LengthSq(v) > max * max then Scale(NormalizeOrZero(sqrt, v), max) else v
  }

  /** Clamping bounds the length by `max`, keeps a short enough vector, and keeps the direction of a long one. */
  lemma ClampFacts(sqrt: real -> real, v: Vec3, max: real)
    requires IsSqrt(sqrt) && 0.0 <= max
    ensures LengthSq(ClampLengthMax(sqrt, v, max)) <= max * max
    ensures LengthSq(v) <= max * max ==> ClampLengthMax(sqrt, v, max) == v
    ensures max * max < LengthSq(v) ==>
              LengthSq(ClampLengthMax(sqrt, v, max)) == max * max
              && Scale(ClampLengthMax(sqrt, v, max), Length(sqrt, v)) == Scale(v, max)
  {
    if LengthSq(v) > max * max {
      var n := Length(sqrt, v);
      LengthFacts(sqrt, v);
      ClampedLength(v, n, max);
    }
  }

  lemma ClampedLength(v: Vec3, n: real, max: real)
    requires 0.0 <= max && 0.0 <= n && n * n == LengthSq(v) && max * max < LengthSq(v)
    ensures 0.0 < n
    ensures LengthSq(Scale(Scale(v, 1.0 / n), max)) == max * max
    ensures Scale(Scale(Scale(v, 1.0 / n), max), n) == Scale(v, max)
  {
    assert 0.0 <= max * max;
    var u := Scale(v, 1.0 / n);
    InverseScaleIsUnit(v, n);
    LengthSqScale(u, max);
    assert Scale(Scale(u, max), n) == Scale(Scale(u, n), max);
  }

  /** Components along a unit direction: `d·(v + k d) = d·v + k`. */
  lemma DotAlongUnit(v: Vec3, d: Vec3, k: real)
    requires LengthSq(d) == 1.0
    ensures Dot(Add(v, Scale(d, k)), d) == Dot(v, d) + k
  {
    assert Dot(Add(v, Scale(d, k)), d) == Dot(v, d) + k * LengthSq(d);
  }

  /** Squares order non-negative numbers. */
  lemma SquareMonotone(d: real, u: real)
    requires 0.0 <= d && 0.0 <= u && d * d <= u * u
    ensures d <= u
  {
    if u + d != 0.0 {
      assert u - d == (u * u - d * d) / (u + d);
    }
  }

  /** `LengthSq(Scale(Up, k)) == k * k`, and the same for `Down`. */
  lemma VerticalLengthSq(k: real)
    ensures LengthSq(Scale(Up, k)) == k * k
    ensures LengthSq(Scale(Down, k)) == k * k
  {
  }
}
