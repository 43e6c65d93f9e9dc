/**
 * The cut made when the player commits the moving top layer: the part that
 * rests on the layer below stays (trimmed in place), the part that sticks
 * out becomes a falling overhang, and the next layer is laid out on the
 * other axis.
 */
module Slicing {
  import opened Wrappers
  import opened Geometry
  import opened Boxes

  /**
   * The outcome of a successful cut: the trimmed top layer, the overhang's
   * centre and extents, and the start point and axis of the next layer.
   */
  datatype Cut = Cut(
    trimmed: Box,
    overhangX: real, overhangZ: real, overhangWidth: real, overhangDepth: real,
    nextX: real, nextZ: real, nextDirection: Axis)

  /** The overhang's centre coordinate on axis `a`. */
  function OverhangCoord(c: Cut, a: Axis): real
  {
    if a == X then c.overhangX else c.overhangZ
  }

  /** The overhang's extent along axis `a`. */
  function OverhangExtent(c: Cut, a: Axis): real
  {
    if a == X then c.overhangWidth else c.overhangDepth
  }

  /** The next layer's start coordinate on axis `a`. */
  function NextCoord(c: Cut, a: Axis): real
  {
    if a == X then c.nextX else c.nextZ
  }

  /** `delta`: signed offset of the top layer's centre from the centre below it. */
  function Delta(top: Box, below: Box, dir: Axis): (d: real)
    ensures Coord(below.mesh, dir) + d == Coord(top.mesh, dir)
  {
    Coord(top.mesh, dir) - Coord(below.mesh, dir)
  }

  /**
   * The click handler's geometry. `None` is a miss: the centres are at least
   * the top layer's extent apart, so nothing is cut.
   */
  function Slice(top: Box, below: Box, dir: Axis): (r: Option<Cut>)
    ensures r.None? <==> Abs(Delta(top, below, dir)) >= Extent(top, dir)
  {
    var delta := Delta(top, below, dir);
    var overhangSize := Abs(delta);
    var size := Extent(top, dir);
    var overLap := size - overhangSize;
    if overLap > 0.0 then
      var newWidth := if dir == X then overLap else top.width;
      var newDepth := if dir == Z then overLap else top.depth;
      var mesh := Shift(top.mesh, dir, -delta / 2.0);
      // the body gets a box shape of the trimmed extents
      var body := top.body.(
        position := Shift(top.body.position, dir, -delta / 2.0),
        halfExtents := Vec3(newWidth / 2.0, BoxHeight / 2.0, newDepth / 2.0));
      var trimmed := top.(width := newWidth, depth := newDepth, mesh := mesh, body := body);
      var overhangShift := (overLap / 2.0 + overhangSize / 2.0) * Sign(delta);
      Some(Cut(
        trimmed,
        if dir == X then mesh.x + overhangShift else mesh.x,
        if dir == Z then mesh.z + overhangShift else mesh.z,
        if dir == X then overhangSize else newWidth,
        if dir == Z then overhangSize else newDepth,
        if dir == X then mesh.x else SpawnOffset,
        if dir == Z then mesh.z else SpawnOffset,
        Other(dir)))
    else
      None
  }

  /**
   * Extent conservation: along the cut axis the trimmed layer and the
   * overhang together are exactly as long as the top layer was; across it
   * both keep the top layer's extent. The overhang is empty exactly when
   * the layer was dropped dead centre.
   */
  lemma SliceConservesExtent(top: Box, below: Box, dir: Axis)
    requires Slice(top, below, dir).Some?
    ensures var c := Slice(top, below, dir).value;
      && Extent(c.trimmed, dir) + OverhangExtent(c, dir) == Extent(top, dir)
      && Extent(c.trimmed, dir) > 0.0
      && OverhangExtent(c, dir) == Abs(Delta(top, below, dir))
      && (OverhangExtent(c, dir) == 0.0 <==> Delta(top, below, dir) == 0.0)
      && Extent(c.trimmed, Other(dir)) == Extent(top, Other(dir))
      && OverhangExtent(c, Other(dir)) == Extent(top, Other(dir))
  {
  }

  /**
   * Seamless adjacency: the trimmed part and the overhang meet at one
   * boundary on the side the layer overshot, and together cover exactly
   * the interval the top layer covered. The trimmed centre is halfway
   * between the two centres.
   */
  lemma SliceSeam(top: Box, below: Box, dir: Axis)
    requires Slice(top, below, dir).Some?
    ensures var c := Slice(top, below, dir).value;
      var delta := Delta(top, below, dir);
      var overLap := Extent(c.trimmed, dir);
      var h := OverhangCoord(c, dir);
      var s := OverhangExtent(c, dir);
      && Coord(c.trimmed.mesh, dir) + Sign(delta) * overLap / 2.0 == h - Sign(delta) * s / 2.0
      && Coord(c.trimmed.mesh, dir) == Coord(below.mesh, dir) + delta / 2.0
      && Min(Lo(c.trimmed, dir), h - s / 2.0) == Lo(top, dir)
      && Max(Hi(c.trimmed, dir), h + s / 2.0) == Hi(top, dir)
  {
    SliceConservesExtent(top, below, dir);
  }

  /**
   * When the two layers have equal extent on the cut axis (which the game
   * keeps), the trimmed layer covers exactly the intersection of the top
   * layer's and the lower layer's intervals, and a miss is exactly the case
   * where that intersection has no positive length.
   */
  lemma SliceIsIntersection(top: Box, below: Box, dir: Axis)
    requires Extent(top, dir) == Extent(below, dir)
    ensures Slice(top, below, dir).None? <==> Min(Hi(top, dir), Hi(below, dir)) <= Max(Lo(top, dir), Lo(below, dir))
    ensures Slice(top, below, dir).Some? ==>
      var t := Slice(top, below, dir).value.trimmed;
      && Lo(t, dir) == Max(Lo(top, dir), Lo(below, dir))
      && Hi(t, dir) == Min(Hi(top, dir), Hi(below, dir))
  {
    if Slice(top, below, dir).Some? {
      SliceConservesExtent(top, below, dir);
    }
  }

  /**
   * Everything the cut does not touch: the trimmed layer keeps its height,
   * its coordinate across the cut axis, its direction and mass, and stays in
   * sync with its body; the overhang sits beside it on the same line.
   */
  lemma SliceKeeps(top: Box, below: Box, dir: Axis)
    requires Slice(top, below, dir).Some?
    ensures var c := Slice(top, below, dir).value;
      && c.trimmed.mesh.y == top.mesh.y
      && Coord(c.trimmed.mesh, Other(dir)) == Coord(top.mesh, Other(dir))
      && OverhangCoord(c, Other(dir)) == Coord(top.mesh, Other(dir))
      && c.trimmed.direction == top.direction
      && c.trimmed.body.mass == top.body.mass
      && (Synced(top) ==> Synced(c.trimmed))
      && ((c.trimmed.width > 0.0 && c.trimmed.depth > 0.0) <==> (top.width > 0.0 && top.depth > 0.0))
  {
    SliceConservesExtent(top, below, dir);
  }

  /**
   * The next layer slides on the other axis, starts at the spawn offset on
   * it, and sits straight above the trimmed layer on the axis just cut.
   */
  lemma SliceNextLayer(top: Box, below: Box, dir: Axis)
    requires Slice(top, below, dir).Some?
    ensures var c := Slice(top, below, dir).value;
      && c.nextDirection == Other(dir)
      && NextCoord(c, c.nextDirection) == SpawnOffset
      && NextCoord(c, dir) == Coord(c.trimmed.mesh, dir)
  {
  }

  /**
   * The first commit of a game, with the first layer stopped at x = -1
   * above the 3 by 3 foundation: 2 units stay, centred at -0.5; the 1 unit
   * overhang falls centred at -2; the next layer starts at z = -10.
   */
  lemma SliceWorkedExample()
    ensures var top := MakeLayer(-1.0, 0.0, 3.0, 3.0, Some(X), 1);
      var below := MakeLayer(0.0, 0.0, 3.0, 3.0, None, 0);
      var r := Slice(top, below, X);
      && r.Some?
      && r.value.trimmed.width == 2.0 && r.value.trimmed.depth == 3.0
      && r.value.trimmed.mesh == Vec3(-0.5, 1.0, 0.0) && r.value.trimmed.body.position == Vec3(-0.5, 1.0, 0.0)
      && r.value.overhangX == -2.0 && r.value.overhangZ == 0.0
      && r.value.overhangWidth == 1.0 && r.value.overhangDepth == 3.0
      && r.value.nextX == -0.5 && r.value.nextZ == -10.0 && r.value.nextDirection == Z
  {
  }
}
