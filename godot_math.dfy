/**
 * The engine's 3D math as far as the solver's configuration and the limit-cone tests use it.
 * Vectors are triples of exact reals, so every dot/cross test is an exact polynomial.
 * Trigonometry, square roots and rotations are not definable here; they are gathered in an
 * `Engine` value passed as a parameter, and `Sound` states the laws exact arithmetic gives them.
 */
module GodotMath {

  /** Math_PI and Math_TAU as the engine writes them. */
  const PI: real := 3.1415926535897932384626433833
  const TAU: real := 6.2831853071795864769252867666

  /** CMP_EPSILON, the tolerance of the engine's approximate comparisons. */
  const CMP_EPSILON: real := 0.00001

  /** DBL_TRUE_MIN, the smallest positive subnormal double. */
  const DBL_TRUE_MIN: real := 4.9406564584124654e-324

  /** Math::deg_to_rad. */
  function DegToRad(degrees: real): (r: real)
    ensures degrees > 0.0 ==> 0.0 < r < degrees
    ensures degrees == 0.0 ==> r == 0.0
  {
    degrees * (PI / 180.0)
  }

  /** Math::is_zero_approx: strictly within CMP_EPSILON of zero. */
  predicate IsZeroApprox(s: real) {
    -CMP_EPSILON < s < CMP_EPSILON
  }

  datatype Vec3 = Vec3(x: real, y: real, z: real)

  /** Vector3(), the default-constructed vector. */
  const Zero: Vec3 := Vec3(0.0, 0.0, 0.0)

  /** Vector3(0, 1, 0), the fallback cone centre. */
  const Up: Vec3 := Vec3(0.0, 1.0, 0.0)

  function Dot(a: Vec3, b: Vec3): real {
    a.x * b.x + a.y * b.y + a.z * b.z
  }

  function Cross(a: Vec3, b: Vec3): Vec3 {
    Vec3(a.y * b.z - a.z * b.y, a.z * b.x - a.x * b.z, a.x * b.y - a.y * b.x)
  }

  function Scale(v: Vec3, k: real): Vec3 {
    Vec3(v.x * k, v.y * k, v.z * k)
  }

  /** Vector3::length_squared: a sum of squares, never negative. */
  function LengthSquared(v: Vec3): (r: real)
    ensures r >= 0.0
  {
    SquareNonNegative(v.x);
    SquareNonNegative(v.y);
    SquareNonNegative(v.z);
    Dot(v, v)
  }

  lemma SquareNonNegative(a: real)
    ensures a * a >= 0.0
  {
  }

  /** The cross product is orthogonal to both of its factors. */
  lemma CrossOrthogonal(a: Vec3, b: Vec3)
    ensures Dot(Cross(a, b), a) == 0.0
    ensures Dot(Cross(a, b), b) == 0.0
  {
  }

  /**
   * The numeric routines the source calls but whose values cannot be computed over the reals:
   * Math::cos, Basis(Quaternion(axis, angle)).xform(v), and Vector3::normalized.
   */
  datatype Engine = Engine(
    cos: real -> real,
    rotate: (Vec3, real, Vec3) -> Vec3,
    normalized: Vec3 -> Vec3)

  /**
   * The laws those routines obey in exact arithmetic:
   * normalizing a vector of squared length zero gives zero (the engine's own convention),
   * normalizing anything else gives a unit vector pointing the same way, and a unit vector is
   * left as it is; rotating v about a non-zero axis orthogonal to v keeps its length and turns
   * it by the angle, so that the cosine between v and its image is cos(angle).
   */
  ghost predicate Sound(e: Engine) {
    && (forall v {:trigger e.normalized(v)} :: LengthSquared(v) == 0.0 ==> e.normalized(v) == Zero)
    && (forall v {:trigger e.normalized(v)} :: LengthSquared(v) > 0.0 ==>
          LengthSquared(e.normalized(v)) == 1.0
          && Cross(e.normalized(v), v) == Zero
          && Dot(e.normalized(v), v) > 0.0)
    && (forall v {:trigger e.normalized(v)} :: LengthSquared(v) == 1.0 ==> e.normalized(v) == v)
    && (forall axis, angle, v {:trigger e.rotate(axis, angle, v)} :: LengthSquared(axis) > 0.0 && Dot(axis, v) == 0.0 ==>
          LengthSquared(e.rotate(axis, angle, v)) == LengthSquared(v)
          && Dot(e.rotate(axis, angle, v), v) == e.cos(angle) * LengthSquared(v))
  }

  /** A sound engine normalizes the fallback centre to itself. */
  lemma NormalizedUp(e: Engine)
    ensures Sound(e) ==> e.normalized(Up) == Up
  {
  }
}
