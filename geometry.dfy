/**
 * Points in the game's world and the two horizontal axes a layer can
 * slide along. Coordinates are exact reals.
 */
module Geometry {

  /** The horizontal axis a layer slides along ("x" or "z" in the game). */
  datatype Axis = X | Z

  datatype Vec3 = Vec3(x: real, y: real, z: real)

  /** The axis a layer spawned after a commit on `a` slides along. */
  function Other(a: Axis): (b: Axis)
    ensures b != a
  {
    if a == X then Z else X
  }

  /** The coordinate of `v` on the horizontal axis `a` (`position[direction]`). */
  function Coord(v: Vec3, a: Axis): real
  {
    if a == X then v.x else v.z
  }

  /** `v` moved by `d` along `a` (`position[direction] += d`). */
  function Shift(v: Vec3, a: Axis, d: real): (r: Vec3)
    ensures Coord(r, a) == Coord(v, a) + d
    ensures Coord(r, Other(a)) == Coord(v, Other(a))
    ensures r.y == v.y
  {
    if a == X then v.(x := v.x + d) else v.(z := v.z + d)
  }

  /** `Math.abs`. */
  function Abs(x: real): (r: real)
    ensures r >= 0.0
    ensures r == x || r == -x
  {
    if x < 0.0 then -x else x
  }

  /** `Math.sign` on the reals: -1, 0 or 1. */
  function Sign(x: real): (r: real)
    ensures r * Abs(x) == x
    ensures r == 0.0 <==> x == 0.0
    ensures r == 1.0 || r == -1.0 || r == 0.0
  {
    if x < 0.0 then -1.0 else if x > 0.0 then 1.0 else 0.0
  }

  function Min(a: real, b: real): (r: real)
    ensures r <= a && r <= b && (r == a || r == b)
  {
    if a <= b then a else b
  }

  function Max(a: real, b: real): (r: real)
    ensures r >= a && r >= b && (r == a || r == b)
  {
    if a >= b then a else b
  }
}
