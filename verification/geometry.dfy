/**
 Real-valued three-component vectors, standing in for the game engine's f32 `Vec3`.
 Rounding is not modelled: every component is an exact real.
 */
module Geometry {

  datatype Vec3 = Vec3(x: real, y: real, z: real)

  /** The three coordinate axes, used to speak about "one component" of a vector. */
  datatype Axis = X | Y | Z

  const Zero: Vec3 := Vec3(0.0, 0.0, 0.0)

  function Get(v: Vec3, a: Axis): real {
    match a
    case X => v.x
    case Y => v.y
    case Z => v.z
  }

  function Add(u: Vec3, v: Vec3): Vec3 {
    Vec3(u.x + v.x, u.y + v.y, u.z + v.z)
  }

  function Sub(u: Vec3, v: Vec3): Vec3 {
    Vec3(u.x - v.x, u.y - v.y, u.z - v.z)
  }

  function Scale(v: Vec3, k: real): Vec3 {
    Vec3(v.x * k, v.y * k, v.z * k)
  }

  function Abs(r: real): (a: real)
    ensures a >= 0.0
    ensures a == r || a == -r
  {
    if r < 0.0 then -r else r
  }

  /** Rust's `f32::signum`, where the zero that arises here is `+0.0`, whose sign is `+1`. */
  function Signum(r: real): (s: real)
    ensures s == 1.0 || s == -1.0
    ensures r >= 0.0 ==> s == 1.0
    ensures s * r == Abs(r)
  {
    if r >= 0.0 then 1.0 else -1.0
  }

  function Max(a: real, b: real): (m: real)
    ensures m >= a && m >= b
    ensures m == a || m == b
  {
    if a >= b then a else b
  }

  /** Rust's `f32::clamp(lo, hi)`, which panics unless `lo <= hi`. */
  function Clamp(r: real, lo: real, hi: real): (c: real)
    requires lo <= hi
    ensures lo <= c <= hi
    ensures lo <= r <= hi ==> c == r
    ensures r < lo ==> c == lo
    ensures r > hi ==> c == hi
  {
    if r < lo then lo else if r > hi then hi else r
  }
}
