/** Three-component vectors standing for Unity's Vector3, over exact reals.
    Only the operations the gravity system uses are defined here; the
    normalisation of a vector is not (it needs a square root) and is passed
    in as a function wherever it is used. */
module Vectors {

  datatype Vec3 = Vec3(x: real, y: real, z: real)

  /** Vector3.zero */
  const Zero: Vec3 := Vec3(0.0, 0.0, 0.0)

  /** Tolerance of Unity's Vector3 equality operator: two vectors compare equal
      when the magnitude of their difference is below this value. */
  const Epsilon: real := 0.00001

  function Add(a: Vec3, b: Vec3): Vec3 {
    Vec3(a.x + b.x, a.y + b.y, a.z + b.z)
  }

  function Sub(a: Vec3, b: Vec3): Vec3 {
    Vec3(a.x - b.x, a.y - b.y, a.z - b.z)
  }

  function Neg(a: Vec3): Vec3 {
    Vec3(-a.x, -a.y, -a.z)
  }

  function Scale(a: Vec3, k: real): Vec3 {
    Vec3(a.x * k, a.y * k, a.z * k)
  }

  /** Vector3.SqrMagnitude / sqrMagnitude */
  function SqrMag(a: Vec3): (r: real)
    ensures r >= 0.0
  {
    a.x * a.x + a.y * a.y + a.z * a.z
  }

  /** `v == Vector3.zero` as Unity evaluates it: the squared magnitude of the
      difference is compared with the squared tolerance. */
  predicate ApproxZero(v: Vec3): (r: bool)
    ensures v == Zero ==> r
  {
    SqrMag(v) < Epsilon * Epsilon
  }

  /** A vector that compares equal to zero is within the tolerance in every
      component. */
  lemma ApproxZeroSmall(v: Vec3)
    requires ApproxZero(v)
    ensures -Epsilon < v.x < Epsilon && -Epsilon < v.y < Epsilon && -Epsilon < v.z < Epsilon
  {
    SmallSquare(v.x, v.y * v.y + v.z * v.z);
    SmallSquare(v.y, v.x * v.x + v.z * v.z);
    SmallSquare(v.z, v.x * v.x + v.y * v.y);
  }

  /** A component whose square, plus something non-negative, is below the
      squared tolerance is itself within the tolerance. */
  lemma SmallSquare(c: real, rest: real)
    requires rest >= 0.0
    ensures c * c + rest < Epsilon * Epsilon ==> -Epsilon < c < Epsilon
  {
    if c >= Epsilon {
      assert c * c >= Epsilon * c >= Epsilon * Epsilon;
    } else if c <= -Epsilon {
      assert c * c >= -Epsilon * c >= Epsilon * Epsilon;
    }
  }

  lemma SubSwap(a: Vec3, b: Vec3)
    ensures Sub(a, b) == Neg(Sub(b, a))
    ensures SqrMag(Neg(a)) == SqrMag(a)
  {
  }
}
