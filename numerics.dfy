/** The few pieces of f32 arithmetic the renderer relies on, stated over exact reals:
    rounding to the grid (floor, fract, the `as i32` cast), `signum`, the
    remainder operator `%` on floats, and the 2D vectors of the math library. */
module Numerics {

  /** The standard library's `PI` and `TAU`, written out to the digits of their definitions. */
  const Pi: real := 3.14159265358979323846264338327950288
  const Tau: real := 6.28318530717958647692528676655900577

  datatype Vec2 = Vec2(x: real, y: real)

  const Zero: Vec2 := Vec2(0.0, 0.0)

  function Add(a: Vec2, b: Vec2): Vec2 { Vec2(a.x + b.x, a.y + b.y) }

  function Scale(a: Vec2, k: real): Vec2 { Vec2(a.x * k, a.y * k) }

  function Dot(a: Vec2, b: Vec2): real { a.x * b.x + a.y * b.y }

  /** Squared Euclidean length; `length() > 0` holds exactly when this is positive. */
  function LengthSq(a: Vec2): (r: real)
    ensures r >= 0.0
    ensures a == Zero ==> r == 0.0
  {
    SquareNonNegative(a.x);
    SquareNonNegative(a.y);
    a.x * a.x + a.y * a.y
  }

  lemma SquareNonNegative(x: real)
    ensures x * x >= 0.0
  {
    if x < 0.0 {
      assert x * x == (-x) * (-x);
    }
  }

  /** Vector rotation as the math library defines it: `v` rotated by the unit
      vector `rot`, i.e. complex multiplication. */
  function Rotate(v: Vec2, rot: Vec2): Vec2
  {
    Vec2(v.x * rot.x - v.y * rot.y, v.y * rot.x + v.x * rot.y)
  }

  lemma RotateScalesLength(v: Vec2, rot: Vec2)
    ensures LengthSq(Rotate(v, rot)) == LengthSq(v) * LengthSq(rot)
  {
    var r := Rotate(v, rot);
    calc {
      LengthSq(r);
      (v.x * rot.x - v.y * rot.y) * (v.x * rot.x - v.y * rot.y)
        + (v.y * rot.x + v.x * rot.y) * (v.y * rot.x + v.x * rot.y);
      (v.x * v.x + v.y * v.y) * (rot.x * rot.x + rot.y * rot.y);
    }
  }

  /** Rotating the unit vector of angle 0 by `v` gives `v`. */
  lemma RotateUnitX(v: Vec2)
    ensures Rotate(Vec2(1.0, 0.0), v) == v
  {
  }

  /** `f32::floor` followed by `as i32` (the cast is exact on the floor of an in-range value). */
  function Floor(x: real): (r: int)
    ensures r as real <= x < r as real + 1.0
  {
    x.Floor
  }

  /** The fractional part, as `x - floor(x)`. */
  function Fract(x: real): (r: real)
    ensures 0.0 <= r < 1.0
    ensures (x - r).Floor as real == x - r
    ensures r == 0.0 <==> x == Floor(x) as real
  {
    x - Floor(x) as real
  }

  /** The fractional part of each component. */
  function FractVec(v: Vec2): Vec2 { Vec2(Fract(v.x), Fract(v.y)) }

  /** The `as i32` cast of a float: rounds toward zero. */
  function Trunc(x: real): (r: int)
    ensures x >= 0.0 ==> 0 <= r && r as real <= x < r as real + 1.0
    ensures x < 0.0 ==> r <= 0 && r as real - 1.0 < x <= r as real
  {
    if x >= 0.0 then Floor(x) else -Floor(-x)
  }

  function Abs(x: real): (r: real)
    ensures r >= 0.0 && (r == x || r == -x)
  {
    if x < 0.0 then -x else x
  }

  /** `f32::signum` on a non-NaN value: -1 for negatives, 1 otherwise
      (positive zero included). */
  function Signum(x: real): (r: real)
    ensures r == 1.0 || r == -1.0
    ensures r < 0.0 <==> x < 0.0
  {
    if x < 0.0 then -1.0 else 1.0
  }

  /** Rust's `%` on floats: `x - trunc(x / y) * y`. The remainder lies
      strictly between `-y` and `y` and keeps the sign of the dividend; the
      dividend minus the remainder is a whole multiple of `y`, so the two
      name the same angle when `y` is a full turn; and a dividend already in
      (-y, y) comes back unchanged. */
  function RustRem(x: real, y: real): (r: real)
    requires y > 0.0
    ensures -y < r < y
    ensures x >= 0.0 ==> r >= 0.0
    ensures x <= 0.0 ==> r <= 0.0
    ensures IsWholeMultiple(x - r, y)
    ensures -y < x < y ==> r == x
  {
    var q := Trunc(x / y);
    TruncatedFraction(x / y, q);
    RemainderBounds(x, y, q);
    WholeMultipleOfTimes(q, y);
    x - q as real * y
  }

  /** `d` is an integer multiple of `y`: `d / y` has no fractional part. */
  predicate IsWholeMultiple(d: real, y: real)
    requires y != 0.0
  {
    (d / y).Floor as real == d / y
  }

  lemma WholeMultipleOfTimes(q: int, y: real)
    requires y != 0.0
    ensures IsWholeMultiple(q as real * y, y)
  {
    TimesThenDivide(q as real, y);
  }

  /** The remainder for a quotient `q` that drops less than 1 from `x / y`,
      toward zero. */
  lemma RemainderBounds(x: real, y: real, q: int)
    requires y > 0.0
    requires x / y >= 0.0 ==> 0.0 <= x / y - q as real < 1.0
    requires x / y <= 0.0 ==> -1.0 < x / y - q as real <= 0.0
    ensures var r := x - q as real * y;
      && -y < r < y
      && (x >= 0.0 ==> r >= 0.0)
      && (x <= 0.0 ==> r <= 0.0)
      && (-y < x < y ==> r == x)
  {
    QuotientTimesDivisor(x, y);
    if -y < x < y {
      QuotientWithinUnit(x, y);
      assert q == 0;
    }
    RemainderOfTruncated(x, x / y, y, q as real);
  }

  /** The same remainder, for any quotient `t` with `t * y == x` and a whole
      part `m` that drops less than 1 from it toward zero. */
  lemma RemainderOfTruncated(x: real, t: real, y: real, m: real)
    requires y > 0.0 && t * y == x
    requires t >= 0.0 ==> 0.0 <= t - m < 1.0
    requires t <= 0.0 ==> -1.0 < t - m <= 0.0
    requires -1.0 < t < 1.0 ==> m == 0.0
    ensures var r := x - m * y;
      && -y < r < y
      && (t >= 0.0 ==> r >= 0.0)
      && (t <= 0.0 ==> r <= 0.0)
      && (-1.0 < t < 1.0 ==> r == x)
  {
    var e := t - m;
    SubtractTimes(t, m, y);
    assert x - m * y == e * y;
    ScaledFraction(e, y);
  }

  /** What truncation drops from `t` is less than 1 in size and has the sign of `t`. */
  lemma TruncatedFraction(t: real, q: int)
    requires q == Trunc(t)
    ensures t >= 0.0 ==> 0.0 <= t - q as real < 1.0
    ensures t <= 0.0 ==> -1.0 < t - q as real <= 0.0
  {
  }

  lemma ScaledFraction(e: real, y: real)
    requires y > 0.0 && -1.0 < e < 1.0
    ensures -y < e * y < y
    ensures e >= 0.0 ==> e * y >= 0.0
    ensures e <= 0.0 ==> e * y <= 0.0
  {
    MulLt(-1.0, e, y);
    MulLt(e, 1.0, y);
    if e >= 0.0 {
      MulLe(0.0, e, y);
    } else {
      MulLe(e, 0.0, y);
    }
  }

  lemma SubtractTimes(a: real, b: real, c: real)
    ensures a * c - b * c == (a - b) * c
  {
  }

  lemma TimesThenDivide(a: real, y: real)
    requires y != 0.0
    ensures a * y / y == a
  {
  }

  lemma MulLt(a: real, b: real, c: real)
    requires a < b && c > 0.0
    ensures a * c < b * c
  {
  }

  lemma QuotientTimesDivisor(x: real, y: real)
    requires y > 0.0
    ensures x / y * y == x
    ensures x >= 0.0 <==> x / y >= 0.0
  {
  }

  lemma QuotientWithinUnit(x: real, y: real)
    requires y > 0.0 && -y < x < y
    ensures -1.0 < x / y < 1.0
  {
    QuotientTimesDivisor(x, y);
    var t := x / y;
    if t >= 1.0 {
      MulLe(1.0, t, y);
      assert false;
    }
    if t <= -1.0 {
      MulLe(t, -1.0, y);
      assert false;
    }
  }

  lemma MulLe(a: real, b: real, c: real)
    requires a <= b && c > 0.0
    ensures a * c <= b * c
  {
  }
}
