/**
 * The small part of THREE.Vector3 the camera logic relies on: component-wise
 * arithmetic and linear interpolation (`lerpVectors`, `lerp`). Coordinates are
 * exact reals; floating-point rounding is not modelled.
 */
module Geometry {

  datatype Vec3 = Vec3(x: real, y: real, z: real)

  const Origin: Vec3 := Vec3(0.0, 0.0, 0.0)

  function Add(a: Vec3, b: Vec3): Vec3 {
    Vec3(a.x + b.x, a.y + b.y, a.z + b.z)
  }

  function Sub(a: Vec3, b: Vec3): Vec3 {
    Vec3(a.x - b.x, a.y - b.y, a.z - b.z)
  }

  function Times(a: Vec3, k: real): Vec3 {
    Vec3(a.x * k, a.y * k, a.z * k)
  }

  /** `v.lerpVectors(a, b, t)`: a + (b - a) * t, component by component. */
  function Lerp(a: Vec3, b: Vec3, t: real): Vec3 {
    Vec3(a.x + (b.x - a.x) * t, a.y + (b.y - a.y) * t, a.z + (b.z - a.z) * t)
  }

  /** Interpolation starts at `a` and ends exactly at `b`. */
  lemma LerpEnds(a: Vec3, b: Vec3)
    ensures Lerp(a, b, 0.0) == a
    ensures Lerp(a, b, 1.0) == b
  {
  }

  /** Interpolating towards the point one is already at stays there, whatever the factor. */
  lemma LerpStays(a: Vec3, t: real)
    ensures Lerp(a, a, t) == a
  {
  }
}
