/**
 * The records `generateBox` returns: a box with a render mesh position, a
 * rigid body (position, half-extents, mass), a width along X and a depth
 * along Z. Layers of the stack also carry the axis they slide along; the
 * foundation and the falling overhangs have none.
 */
module Boxes {
  import opened Wrappers
  import opened Geometry

  /** `boxHeight`: the height of every layer. */
  const BoxHeight: real := 1.0
  /** `originalBoxSize`: width and depth of the foundation and the first layer. */
  const OriginalBoxSize: real := 3.0
  /** The mass of a falling box; every other body has mass 0 (static). */
  const FallingMass: real := 5.0
  /** Where a freshly spawned layer starts on its sliding axis. */
  const SpawnOffset: real := -10.0

  /**
   * The physics body: its position, the half-extents of the box shape most
   * recently given to it, and its mass.
   */
  datatype Body = Body(position: Vec3, halfExtents: Vec3, mass: real)

  /** A layer or an overhang. `mesh` is the position of the rendered mesh. */
  datatype Box = Box(mesh: Vec3, body: Body, width: real, depth: real, direction: Option<Axis>)

  /** The mesh and the body agree: same centre, and the body's latest box shape has the record's extents. */
  predicate Synced(b: Box)
  {
    b.mesh == b.body.position
    && b.body.halfExtents == Vec3(b.width / 2.0, BoxHeight / 2.0, b.depth / 2.0)
  }

  /** The extent of `b` along `a`: its width on X, its depth on Z. */
  function Extent(b: Box, a: Axis): real
  {
    if a == X then b.width else b.depth
  }

  /** Low and high end of the interval `b` covers on axis `a`. */
  function Lo(b: Box, a: Axis): real
  {
    Coord(b.mesh, a) - Extent(b, a) / 2.0
  }

  function Hi(b: Box, a: Axis): real
  {
    Coord(b.mesh, a) + Extent(b, a) / 2.0
  }

  /**
   * `generateBox`: mesh and body are created at the same point with the
   * given extents; the body is dynamic exactly when `falling`.
   */
  function GenerateBox(x: real, y: real, z: real, width: real, depth: real, falling: bool): (b: Box)
    ensures Synced(b)
    ensures b.mesh == Vec3(x, y, z) && b.width == width && b.depth == depth
    ensures b.body.mass == if falling then FallingMass else 0.0
    ensures b.direction == None
  {
    var mass := if falling then FallingMass else 0.0;
    Box(Vec3(x, y, z), Body(Vec3(x, y, z), Vec3(width / 2.0, BoxHeight / 2.0, depth / 2.0), mass), width, depth, None)
  }

  /** `addLayer`'s record for a stack that already holds `index` layers. */
  function MakeLayer(x: real, z: real, width: real, depth: real, direction: Option<Axis>, index: nat): (b: Box)
    ensures Synced(b) && b.body.mass == 0.0
    ensures b.mesh == Vec3(x, BoxHeight * index as real, z)
    ensures b.width == width && b.depth == depth && b.direction == direction
  {
    GenerateBox(x, BoxHeight * index as real, z, width, depth, false).(direction := direction)
  }

  /** `addOverhang`'s record for a stack that holds `stackLength` layers: at the top layer's height. */
  function MakeOverhang(x: real, z: real, width: real, depth: real, stackLength: nat): (b: Box)
    ensures Synced(b) && b.body.mass == FallingMass
    ensures b.mesh == Vec3(x, BoxHeight * (stackLength as real - 1.0), z)
    ensures b.width == width && b.depth == depth && b.direction == None
  {
    GenerateBox(x, BoxHeight * (stackLength as real - 1.0), z, width, depth, true)
  }
}
