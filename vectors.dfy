/** Three-component vectors over the reals, standing for the subset of
    three.js `Vector3` arithmetic that the curve engine uses. */
module Vectors {

  datatype Vec3 = Vec3(x: real, y: real, z: real)

  /** An orientation triple of Euler angles, as stored in a slot's `rotation`. */
  datatype Euler = Euler(x: real, y: real, z: real)

  /** The three basis columns handed to `Matrix4.makeBasis`. */
  datatype Basis = Basis(xAxis: Vec3, yAxis: Vec3, zAxis: Vec3)

  const Origin := Vec3(0.0, 0.0, 0.0)
  const NoRotation := Euler(0.0, 0.0, 0.0)

  /** `Math.round`: the nearest integer, halves rounded towards +infinity. */
  function Round(x: real): int {
    (x + 0.5).Floor
  }

  /** `Math.round` moves its argument by at most one half. */
  lemma RoundBounds(x: real)
    ensures x - 0.5 < Round(x) as real
    ensures Round(x) as real <= x + 0.5
  {
  }

  function Add(a: Vec3, b: Vec3): Vec3 { Vec3(a.x + b.x, a.y + b.y, a.z + b.z) }

  function Sub(a: Vec3, b: Vec3): Vec3 { Vec3(a.x - b.x, a.y - b.y, a.z - b.z) }

  function Scale(a: Vec3, s: real): Vec3 { Vec3(a.x * s, a.y * s, a.z * s) }

  function Neg(a: Vec3): Vec3 { Vec3(-a.x, -a.y, -a.z) }

  function Dot(a: Vec3, b: Vec3): real { a.x * b.x + a.y * b.y + a.z * b.z }

  /** `crossVectors(a, b)`: the right-handed cross product a × b. */
  function Cross(a: Vec3, b: Vec3): Vec3 {
    Vec3(a.y * b.z - a.z * b.y, a.z * b.x - a.x * b.z, a.x * b.y - a.y * b.x)
  }

  function LengthSq(a: Vec3): real { Dot(a, a) }

  /** `distanceToSquared`. */
  function DistSq(a: Vec3, b: Vec3): real { LengthSq(Sub(a, b)) }

  /** The cross product is orthogonal to both of its factors. */
  lemma CrossOrthogonal(a: Vec3, b: Vec3)
    ensures Dot(Cross(a, b), a) == 0.0 && Dot(Cross(a, b), b) == 0.0
  {
  }

  /** A squared length is never negative. */
  lemma LengthSqNonNegative(a: Vec3)
    ensures LengthSq(a) >= 0.0
  {
  }

  /** A squared distance is never negative, and a point is at squared distance zero from itself. */
  lemma DistSqFacts(a: Vec3, b: Vec3)
    ensures DistSq(a, b) >= 0.0
    ensures DistSq(a, a) == 0.0
  {
    LengthSqNonNegative(Sub(a, b));
  }
}
