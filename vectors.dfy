/**
 * QVector (qvector.h, qvector.cpp): the 2D vector value every other part of
 * the engine computes with. Single-precision floats are modelled as reals.
 * The transcendental functions the engine calls (sqrt, sin, cos, atan2, asin)
 * are not given definitions: every operation that needs one takes a `Numerics`
 * value and uses its functions without assuming more than the few laws below.
 */
module Vectors {
  import Reals

  datatype Vec = Vec(x: real, y: real)

  /** QSides: the side of a reference direction a vector points to. */
  datatype Side = Up | Right | Down | Left | NoSide

  /** M_PI and M_PI_2 as the C library defines them (double precision). */
  const PI: real := 3.141592653589793
  const HALF_PI: real := 1.5707963267948966

  /** Default for GetVectorSide's maxAngleDefiningSide. */
  const DEFAULT_SIDE_ANGLE: real := 0.785398

  datatype Maths = Maths(sqrt: real -> real, sin: real -> real, cos: real -> real,
                         atan2: (real, real) -> real, asin: real -> real)

  /**
   * The math library the engine links against. Only the laws of sqrt that the
   * engine's own guards rely on are assumed: it is 0 at 0, never negative, and
   * nonzero on a nonzero argument.
   */
  type Numerics = m: Maths | SqrtLaws(m)
    witness Maths(z => if z == 0.0 then 0.0 else 1.0, z => 0.0, z => 1.0, (y, x) => 0.0, z => z)

  ghost predicate SqrtLaws(m: Maths)
  {
    m.sqrt(0.0) == 0.0 && forall z: real :: 0.0 <= m.sqrt(z) && (z != 0.0 ==> m.sqrt(z) != 0.0)
  }

  /** The square root is exact on `x` (used only where a property depends on it). */
  predicate ExactSqrt(num: Numerics, x: real)
  {
    0.0 <= num.sqrt(x) && num.sqrt(x) * num.sqrt(x) == x
  }

  function Zero(): Vec { Vec(0.0, 0.0) }
  function UpDir(): Vec { Vec(0.0, -1.0) }
  function DownDir(): Vec { Vec(0.0, 1.0) }
  function RightDir(): Vec { Vec(1.0, 0.0) }
  function LeftDir(): Vec { Vec(-1.0, 0.0) }

  // ---------------------------------------------------------------- operators

  function Add(a: Vec, b: Vec): Vec { Vec(a.x + b.x, a.y + b.y) }
  function Sub(a: Vec, b: Vec): Vec { Vec(a.x - b.x, a.y - b.y) }
  function Neg(a: Vec): Vec { Vec(-a.x, -a.y) }
  /** Both `point * value` and `value * point`. */
  function Scale(a: Vec, k: real): Vec { Vec(a.x * k, a.y * k) }
  /** `point / value`; the overload `value / point` also divides the point by the value. */
  function DivScalar(a: Vec, k: real): Vec
    requires k != 0.0
  {
    Vec(a.x / k, a.y / k)
  }
  /** Componentwise `*=` and `/=` with another vector. */
  function MulVec(a: Vec, b: Vec): Vec { Vec(a.x * b.x, a.y * b.y) }

  /** operator== compares both coordinates; operator!= is its negation. */
  predicate Equal(a: Vec, b: Vec) { a.x == b.x && a.y == b.y }
  predicate NotEqual(a: Vec, b: Vec) { !(a.x == b.x && a.y == b.y) }

  function Dot(a: Vec, b: Vec): real { a.x * b.x + a.y * b.y }
  function LengthSquared(a: Vec): real { a.x * a.x + a.y * a.y }
  function Perpendicular(a: Vec): Vec { Vec(a.y, -a.x) }
  function Length(num: Numerics, a: Vec): real { num.sqrt(LengthSquared(a)) }

  /** Unit vector in the direction of `a`; the zero vector maps to Zero(). */
  function Normalized(num: Numerics, a: Vec): (r: Vec)
    ensures a == Zero() ==> r == Zero()
    ensures LengthSquared(a) != 0.0 ==> exists k: real :: 0.0 < k && r == Scale(a, k)
  {
    if a.x == 0.0 && a.y == 0.0 then Zero()
    else
      var lsq := LengthSquared(a);
      if lsq == 0.0 then Zero()
      else
        var l := num.sqrt(lsq);
        var r := Vec(a.x / l, a.y / l);
        assert r == Scale(a, 1.0 / l);
        r
  }

  /** `a` rotated by `angle` radians; an angle of exactly 0 returns `a` untouched. */
  function Rotated(num: Numerics, a: Vec, angle: real): Vec
  {
    if angle == 0.0 then a
    else
      var c := num.cos(angle);
      var s := num.sin(angle);
      Vec(a.x * c - a.y * s, a.x * s + a.y * c)
  }

  /** The sine the angle computation feeds to asin, clamped into [-1, 1] first. */
  function ClampUnit(s: real): (r: real)
    ensures -1.0 <= r <= 1.0
    ensures -1.0 <= s <= 1.0 ==> r == s
  {
    if s < -1.0 then -1.0 else if s > 1.0 then 1.0 else s
  }

  /**
   * The (cosine, sine) pair AngleBetweenTwoVectors divides out of the dot
   * products; both are 0 when the two lengths add up to 0.
   */
  function CosSin(num: Numerics, v: Vec, reference: Vec): (real, real)
  {
    var totalLength := Length(num, v) + Length(num, reference);
    var dot := Dot(v, reference);
    var perpDot := Dot(v, Perpendicular(reference));
    if totalLength != 0.0 then (dot / totalLength, perpDot / totalLength) else (0.0, 0.0)
  }

  function AngleBetweenTwoVectors(num: Numerics, v: Vec, reference: Vec): real
  {
    var (cosA, sinA) := CosSin(num, v, reference);
    -num.atan2(num.asin(ClampUnit(sinA)), cosA)
  }

  /** The classification GetVectorSide applies to the angle between the vector and "up". */
  function ClassifySide(ang: real, maxAngle: real): Side
  {
    if Abs(ang) < maxAngle then Up
    else if HALF_PI - maxAngle < ang < HALF_PI + maxAngle then Right
    else if -(HALF_PI + maxAngle) < ang < -(HALF_PI - maxAngle) then Left
    else if Abs(ang) > PI - maxAngle then Down
    else NoSide
  }

  function GetVectorSide(num: Numerics, v: Vec, referenceUp: Vec, maxAngle: real): Side
  {
    ClassifySide(AngleBetweenTwoVectors(num, v, referenceUp), maxAngle)
  }

  function Abs(a: real): (r: real)
    ensures 0.0 <= r && (r == a || r == -a)
  {
    if a < 0.0 then -a else a
  }

  function Mirror(s: Side): Side
  {
    match s
    case Right => Left
    case Left => Right
    case _ => s
  }

  // ---------------------------------------------------------------- lemmas

  /** The perpendicular is orthogonal to the vector, and taking it twice negates the vector. */
  lemma PerpendicularLaws(a: Vec)
    ensures Dot(Perpendicular(a), a) == 0.0
    ensures Perpendicular(Perpendicular(a)) == Neg(a)
  {
  }

  /** Dot is symmetric and linear in each argument; LengthSquared is the self dot product and never negative. */
  lemma DotLaws(a: Vec, b: Vec, c: Vec, k: real)
    ensures Dot(a, b) == Dot(b, a)
    ensures Dot(Add(a, b), c) == Dot(a, c) + Dot(b, c)
    ensures Dot(Scale(a, k), b) == k * Dot(a, b)
    ensures LengthSquared(a) == Dot(a, a)
  {
  }

  /** A square is never negative, so neither is LengthSquared. */
  lemma LengthSquaredNonnegative(a: Vec)
    ensures 0.0 <= LengthSquared(a)
  {
    Reals.SquareNonnegative(a.x);
    Reals.SquareNonnegative(a.y);
  }

  /** Subtraction undoes addition, and == is componentwise equality whose negation is !=. */
  lemma ArithmeticLaws(a: Vec, b: Vec)
    ensures Add(Sub(a, b), b) == a
    ensures Sub(Add(a, b), b) == a
    ensures Add(a, Neg(a)) == Zero()
    ensures Equal(a, b) <==> a == b
    ensures NotEqual(a, b) <==> !Equal(a, b)
  {
  }

  /** The zero vector has length 0; a vector with a nonzero LengthSquared has a nonzero length. */
  lemma LengthZero(num: Numerics, a: Vec)
    ensures a == Zero() ==> Length(num, a) == 0.0
    ensures Length(num, a) == 0.0 <==> LengthSquared(a) == 0.0
    ensures 0.0 <= Length(num, a)
  {
  }

  /** With an exact square root, a vector of nonzero length normalizes to a unit vector. */
  lemma NormalizedIsUnit(num: Numerics, a: Vec)
    requires LengthSquared(a) != 0.0
    requires ExactSqrt(num, LengthSquared(a))
    ensures LengthSquared(Normalized(num, a)) == 1.0
  {
    var l := num.sqrt(LengthSquared(a));
    assert a.x != 0.0 || a.y != 0.0;
    var r := Normalized(num, a);
    assert r == Vec(a.x / l, a.y / l);
    Reals.UnitQuotient(a.x, a.y, l, LengthSquared(a));
  }

  /** Scaling the unit vector back by the length recovers the vector. */
  lemma NormalizedScale(num: Numerics, a: Vec)
    requires LengthSquared(a) != 0.0
    ensures Scale(Normalized(num, a), Length(num, a)) == a
  {
    assert a.x != 0.0 || a.y != 0.0;
  }

  /** Normalized scales a vector of nonzero length by the positive factor 1 / Length. */
  lemma NormalizedFactor(num: Numerics, a: Vec) returns (k: real)
    requires LengthSquared(a) != 0.0
    ensures 0.0 < k && Normalized(num, a) == Scale(a, k)
  {
    var l := Length(num, a);
    assert 0.0 < l;
    k := 1.0 / l;
    assert a.x != 0.0 || a.y != 0.0;
  }

  /** A rotation by a nonzero angle whose sine and cosine are consistent preserves length. */
  lemma RotatedKeepsLength(num: Numerics, a: Vec, angle: real)
    requires num.sin(angle) * num.sin(angle) + num.cos(angle) * num.cos(angle) == 1.0
    ensures LengthSquared(Rotated(num, a, angle)) == LengthSquared(a)
  {
    if angle != 0.0 {
      var c, s := num.cos(angle), num.sin(angle);
      calc {
        LengthSquared(Rotated(num, a, angle));
        (a.x * c - a.y * s) * (a.x * c - a.y * s) + (a.x * s + a.y * c) * (a.x * s + a.y * c);
        (a.x * a.x + a.y * a.y) * (s * s + c * c);
        LengthSquared(a);
      }
    }
  }

  /** Rotating by 0 is the identity. */
  lemma RotatedByZero(num: Numerics, a: Vec)
    ensures Rotated(num, a, 0.0) == a
  {
  }

  /**
   * When both vectors are zero the angle is computed from cosA = sinA = 0
   * instead of dividing by a zero total length.
   */
  lemma AngleOfZeroVectors(num: Numerics)
    ensures CosSin(num, Zero(), Zero()) == (0.0, 0.0)
    ensures AngleBetweenTwoVectors(num, Zero(), Zero()) == -num.atan2(num.asin(0.0), 0.0)
  {
  }

  /** asin always receives an argument in [-1, 1], whatever the two vectors are. */
  lemma AngleAsinArgument(num: Numerics, v: Vec, reference: Vec)
    ensures -1.0 <= ClampUnit(CosSin(num, v, reference).1) <= 1.0
    ensures AngleBetweenTwoVectors(num, v, reference) ==
              -num.atan2(num.asin(ClampUnit(CosSin(num, v, reference).1)), CosSin(num, v, reference).0)
  {
  }

  /** UP is exactly the band |ang| < max. */
  lemma SideUpIff(ang: real, maxAngle: real)
    ensures ClassifySide(ang, maxAngle) == Up <==> Abs(ang) < maxAngle
  {
  }

  /**
   * Outside the UP band, RIGHT and LEFT are the two bands around +pi/2 and
   * -pi/2; DOWN is |ang| > pi - max when no earlier band matched; NONE otherwise.
   */
  lemma SideBands(ang: real, maxAngle: real)
    requires maxAngle <= Abs(ang)
    ensures ClassifySide(ang, maxAngle) == Right <==> HALF_PI - maxAngle < ang < HALF_PI + maxAngle
    ensures ClassifySide(ang, maxAngle) == Left <==>
              !(HALF_PI - maxAngle < ang < HALF_PI + maxAngle) && -(HALF_PI + maxAngle) < ang < -(HALF_PI - maxAngle)
    ensures ClassifySide(ang, maxAngle) == Down <==>
              !(HALF_PI - maxAngle < ang < HALF_PI + maxAngle) &&
              !(-(HALF_PI + maxAngle) < ang < -(HALF_PI - maxAngle)) && Abs(ang) > PI - maxAngle
  {
  }

  /** The classification is mirror-symmetric: negating the angle swaps RIGHT and LEFT and keeps the rest. */
  lemma {:induction false} SideMirror(ang: real, maxAngle: real)
    ensures ClassifySide(-ang, maxAngle) == Mirror(ClassifySide(ang, maxAngle))
  {
    if Abs(ang) < maxAngle {
      assert Abs(-ang) < maxAngle;
    } else if HALF_PI - maxAngle < ang < HALF_PI + maxAngle {
      assert -(HALF_PI + maxAngle) < -ang < -(HALF_PI - maxAngle);
      assert !(HALF_PI - maxAngle < -ang < HALF_PI + maxAngle);
    } else if -(HALF_PI + maxAngle) < ang < -(HALF_PI - maxAngle) {
      assert HALF_PI - maxAngle < -ang < HALF_PI + maxAngle;
    }
  }

  /** With the default band width (just under pi/4) the five sides partition the angles into disjoint bands. */
  lemma DefaultSidesDisjoint(ang: real)
    ensures ClassifySide(ang, DEFAULT_SIDE_ANGLE) == Right ==> 0.0 < ang
    ensures ClassifySide(ang, DEFAULT_SIDE_ANGLE) == Left ==> ang < 0.0
    ensures ClassifySide(ang, DEFAULT_SIDE_ANGLE) == NoSide ==>
              Abs(ang) <= PI - DEFAULT_SIDE_ANGLE
  {
  }
}
