/**
 * The game's module-level state as an object: the `stack` and `overhangs`
 * arrays, the `gameSatred` flag and the camera's height. `Click` is the
 * click handler and `Tick` the kinematic part of `animation`; each is
 * proved to do exactly what the matching function of `Session` says.
 */
module Stacker {
  import opened Wrappers
  import opened Geometry
  import opened Boxes
  import opened Slicing
  import opened Session

  class Game {
    var stack: seq<Box>
    var overhangs: seq<Box>
    var started: bool
    var cameraY: real

    /** The state as a value. */
    function Model(): State
      reads this
    {
      State(stack, overhangs, started, cameraY)
    }

    predicate Valid()
      reads this
    {
      Inv(Model())
    }

    /** `init`: the foundation, then the first layer; the camera starts at height 4. */
    constructor ()
      ensures Valid() && Model() == Init()
    {
      stack := [];
      overhangs := [];
      started := false;
      cameraY := CameraStartY;
      new;
      AddLayer(0.0, 0.0, OriginalBoxSize, OriginalBoxSize, None);
      AddLayer(SpawnOffset, 0.0, OriginalBoxSize, OriginalBoxSize, Some(X));
      InitInv();
    }

    /** `addLayer`: a static box one level above the current top. */
    method AddLayer(x: real, z: real, width: real, depth: real, direction: Option<Axis>)
      modifies this`stack
      ensures stack == old(stack) + [MakeLayer(x, z, width, depth, direction, |old(stack)|)]
    {
      var layer := MakeLayer(x, z, width, depth, direction, |stack|);
      stack := stack + [layer];
    }

    /** `addOverhang`: a falling box at the height of the current top layer. */
    method AddOverhang(x: real, z: real, width: real, depth: real)
      modifies this`overhangs
      ensures overhangs == old(overhangs) + [MakeOverhang(x, z, width, depth, |stack|)]
    {
      var overhang := MakeOverhang(x, z, width, depth, |stack|);
      overhangs := overhangs + [overhang];
    }

    /** The click handler. */
    method Click()
      requires Valid()
      modifies this
      ensures Valid()
      ensures Model() == ClickStep(old(Model()))
    {
      ClickKeepsInv(Model());
      if !started {
        started := true;
      } else {
        var n := |stack|;
        var topLayer := stack[n - 1];
        var prevLayer := stack[n - 2];
        var direction := topLayer.direction.value;
        var cut := Slice(topLayer, prevLayer, direction);
        if cut.Some? {
          var c := cut.value;
          // the top layer is trimmed in place: extents, mesh and body
          stack := stack[n - 1 := c.trimmed];
          AddOverhang(c.overhangX, c.overhangZ, c.overhangWidth, c.overhangDepth);
          AddLayer(c.nextX, c.nextZ, c.trimmed.width, c.trimmed.depth, Some(c.nextDirection));
        }
      }
    }

    /** One frame of `animation`, without the physics step and the render call. */
    method Tick()
      requires Valid() && started
      modifies this`stack, this`cameraY
      ensures Valid()
      ensures Model() == TickStep(old(Model()))
    {
      TickKeepsInv(Model());
      var n := |stack|;
      var topLayer := stack[n - 1];
      var direction := topLayer.direction.value;
      topLayer := topLayer.(mesh := Shift(topLayer.mesh, direction, Speed));
      topLayer := topLayer.(body := topLayer.body.(position := Shift(topLayer.body.position, direction, Speed)));
      stack := stack[n - 1 := topLayer];
      if cameraY < CameraTarget(n) {
        cameraY := cameraY + Speed;
      }
    }
  }
}
