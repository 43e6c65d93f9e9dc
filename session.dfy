/**
 * The game as a state machine over values: the stack of layers (index 0 is
 * the foundation, the last one is the layer that moves), the falling
 * overhangs, whether the first click has started the animation loop, and
 * the camera's height. `ClickStep` is the click handler, `TickStep` the
 * kinematic part of one animation frame. The class in game.dfy is proved
 * to follow these functions.
 */
module Session {
  import opened Wrappers
  import opened Geometry
  import opened Boxes
  import opened Slicing

  /** How far the moving layer, and the camera when it follows, move per frame. */
  const Speed: real := 0.1
  /** The camera's initial height. */
  const CameraStartY: real := 4.0
  /** How far above `boxHeight * (stack.length - 2)` the camera stops rising. */
  const CameraOffset: real := 4.0

  datatype State = State(stack: seq<Box>, overhangs: seq<Box>, started: bool, cameraY: real)

  /** What the browser delivers: a click, or an animation frame. */
  datatype Event = Click | Frame

  /** The foundation laid by `init`: centred at the origin, no direction. */
  function Foundation(): (f: Box)
    ensures LayerOk(f, 0)
    ensures f.mesh == Vec3(0.0, 0.0, 0.0) && f.direction == None
    ensures f.width == OriginalBoxSize && f.depth == OriginalBoxSize
  {
    MakeLayer(0.0, 0.0, OriginalBoxSize, OriginalBoxSize, None, 0)
  }

  /** `init`: the foundation, then the first layer sliding on X from the spawn offset. */
  function Init(): (s: State)
    ensures WellFormed(s) && !s.started && s.overhangs == [] && |s.stack| == 2
    ensures s.stack[1].mesh == Vec3(SpawnOffset, BoxHeight, 0.0) && s.stack[1].direction == Some(X)
  {
    State([Foundation(), MakeLayer(SpawnOffset, 0.0, OriginalBoxSize, OriginalBoxSize, Some(X), 1)],
          [], false, CameraStartY)
  }

  /** What the click handler and the frame need: a layer below the top one, and a top layer that has a direction. */
  predicate WellFormed(s: State)
  {
    |s.stack| >= 2 && s.stack[|s.stack| - 1].direction.Some?
  }

  /** The axis of the layer at index `i` (from 1 on): X, Z, X, ... */
  function DirectionAt(i: nat): Axis
  {
    if i % 2 == 1 then X else Z
  }

  /** The height the camera rises to while the stack holds `stackLength` layers. */
  function CameraTarget(stackLength: nat): real
  {
    BoxHeight * (stackLength as real - 2.0) + CameraOffset
  }

  /** The camera follow rule of one frame. */
  function CameraNext(y: real, stackLength: nat): (r: real)
    ensures r >= y
    ensures r == y + Speed <==> y < CameraTarget(stackLength)
    ensures r == y <==> y >= CameraTarget(stackLength)
  {
    if y < CameraTarget(stackLength) then y + Speed else y
  }

  /** A layer at index `i` as the game keeps it. */
  predicate LayerOk(b: Box, i: nat)
  {
    Synced(b) && b.width > 0.0 && b.depth > 0.0
    && b.mesh.y == BoxHeight * i as real
    && b.body.mass == 0.0
    && (i >= 1 ==> b.direction == Some(DirectionAt(i)))
  }

  /** An overhang as the game creates it. */
  predicate OverhangOk(o: Box)
  {
    Synced(o) && o.width >= 0.0 && o.depth >= 0.0
    && o.body.mass == FallingMass && o.direction == None
  }

  /**
   * The invariant kept from `init` on. Every layer has positive extents, a
   * mesh in sync with its body, the height of its index and the axis of
   * its index; each layer above the foundation lines up with the one below
   * it on the axis it does not slide along; the moving layer is as wide and
   * deep as the one below it; there is one overhang per committed cut; and
   * the camera never rises more than one step above its target.
   */
  predicate Inv(s: State)
  {
    |s.stack| >= 2
    && s.stack[0] == Foundation()
    && (forall i :: 0 <= i < |s.stack| ==> LayerOk(s.stack[i], i))
    && (forall i :: 1 <= i < |s.stack| ==>
          Coord(s.stack[i].mesh, Other(DirectionAt(i))) == Coord(s.stack[i - 1].mesh, Other(DirectionAt(i))))
    && s.stack[|s.stack| - 1].width == s.stack[|s.stack| - 2].width
    && s.stack[|s.stack| - 1].depth == s.stack[|s.stack| - 2].depth
    && |s.overhangs| == |s.stack| - 2
    && (forall j :: 0 <= j < |s.overhangs| ==> OverhangOk(s.overhangs[j]))
    && CameraStartY <= s.cameraY < CameraTarget(|s.stack|) + Speed
  }

  /** The click handler. Before the start it only starts the loop; a miss changes nothing. */
  function ClickStep(s: State): (r: State)
    requires WellFormed(s)
    ensures WellFormed(r) && r.started
    ensures |s.stack| <= |r.stack| <= |s.stack| + 1
  {
    if !s.started then
      s.(started := true)
    else
      var n := |s.stack|;
      var top := s.stack[n - 1];
      match Slice(top, s.stack[n - 2], top.direction.value)
      case None => s
      case Some(c) =>
        s.(stack := s.stack[n - 1 := c.trimmed]
                    + [MakeLayer(c.nextX, c.nextZ, c.trimmed.width, c.trimmed.depth, Some(c.nextDirection), n)],
           overhangs := s.overhangs + [MakeOverhang(c.overhangX, c.overhangZ, c.overhangWidth, c.overhangDepth, n)])
  }

  /** The moving layer's mesh and body, both moved one step along `dir`. */
  function Advance(b: Box, dir: Axis): (r: Box)
    ensures Coord(r.mesh, dir) == Coord(b.mesh, dir) + Speed
    ensures Coord(r.body.position, dir) == Coord(b.body.position, dir) + Speed
    ensures Coord(r.mesh, Other(dir)) == Coord(b.mesh, Other(dir)) && r.mesh.y == b.mesh.y
    ensures Coord(r.body.position, Other(dir)) == Coord(b.body.position, Other(dir))
    ensures r.body.position.y == b.body.position.y
    ensures r.width == b.width && r.depth == b.depth && r.direction == b.direction
    ensures r.body.mass == b.body.mass && r.body.halfExtents == b.body.halfExtents
    ensures Synced(b) ==> Synced(r)
  {
    b.(mesh := Shift(b.mesh, dir, Speed), body := b.body.(position := Shift(b.body.position, dir, Speed)))
  }

  /** The kinematic part of one animation frame: move the top layer, let the camera follow. */
  function TickStep(s: State): (r: State)
    requires WellFormed(s)
    ensures WellFormed(r) && |r.stack| == |s.stack| && r.started == s.started
  {
    var n := |s.stack|;
    var top := s.stack[n - 1];
    s.(stack := s.stack[n - 1 := Advance(top, top.direction.value)], cameraY := CameraNext(s.cameraY, n))
  }

  /** One event. Frames before the first click do nothing: the loop is not running yet. */
  function Step(s: State, e: Event): (r: State)
    requires WellFormed(s)
    ensures WellFormed(r)
  {
    match e
    case Click => ClickStep(s)
    case Frame => if s.started then TickStep(s) else s
  }

  /** `init` establishes the invariant. */
  lemma InitInv()
    ensures Inv(Init())
  {
  }

  /** The axis assigned to each index flips from one index to the next. */
  lemma ParityFlips(n: nat)
    requires n >= 2
    ensures DirectionAt(n) == Other(DirectionAt(n - 1))
  {
  }

  /** A click, whatever its outcome, keeps the invariant. */
  lemma ClickKeepsInv(s: State)
    requires Inv(s)
    ensures Inv(ClickStep(s))
  {
    var n := |s.stack|;
    var top := s.stack[n - 1];
    var below := s.stack[n - 2];
    if s.started && Slice(top, below, top.direction.value).Some? {
      var dir := top.direction.value;
      SliceConservesExtent(top, below, dir);
      SliceKeeps(top, below, dir);
      ParityFlips(n);
      assert LayerOk(ClickStep(s).stack[n], n);
    }
  }

  /** A frame keeps the invariant. */
  lemma TickKeepsInv(s: State)
    requires Inv(s)
    ensures Inv(TickStep(s))
  {
  }

  /** Any event keeps the invariant. */
  lemma StepKeepsInv(s: State, e: Event)
    requires Inv(s)
    ensures Inv(Step(s, e))
    ensures e == Frame && !s.started ==> Step(s, e) == s
  {
    match e
    case Click => ClickKeepsInv(s);
    case Frame => if s.started { TickKeepsInv(s); }
  }

  /**
   * The game after a sequence of events. Every state reached keeps `Inv`,
   * and the layers that were committed before the sequence stay as they were.
   */
  function Run(s: State, events: seq<Event>): (r: State)
    requires Inv(s)
    ensures Inv(r)
    ensures |r.stack| >= |s.stack| && |r.overhangs| >= |s.overhangs|
    ensures forall i :: 0 <= i < |s.stack| - 1 ==> r.stack[i] == s.stack[i]
    ensures forall j :: 0 <= j < |s.overhangs| ==> r.overhangs[j] == s.overhangs[j]
    decreases |events|
  {
    if events == [] then
      s
    else
      StepKeepsInv(s, events[0]);
      Run(Step(s, events[0]), events[1..])
  }

  /** Before the game has started a click only sets the flag. */
  lemma ClickBeforeStart(s: State)
    requires WellFormed(s) && !s.started
    ensures var r := ClickStep(s);
      r.started && r.stack == s.stack && r.overhangs == s.overhangs && r.cameraY == s.cameraY
  {
  }

  /** A miss (no positive overlap) changes nothing at all, not even the flag. */
  lemma ClickMiss(s: State)
    requires WellFormed(s) && s.started
    requires var top := s.stack[|s.stack| - 1];
      var dir := top.direction.value;
      Extent(top, dir) - Abs(Delta(top, s.stack[|s.stack| - 2], dir)) <= 0.0
    ensures ClickStep(s) == s
  {
  }

  /**
   * A successful commit: the top layer is replaced by its trimmed part, one
   * overhang and one new layer are appended, and everything else is as it
   * was. The overhang falls from the top layer's height; the new layer is
   * static, has the trimmed extents, slides on the other axis from the spawn
   * offset, and sits above the trimmed layer on the axis just cut.
   */
  lemma ClickCommit(s: State)
    requires Inv(s) && s.started
    requires var top := s.stack[|s.stack| - 1];
      var dir := top.direction.value;
      Extent(top, dir) - Abs(Delta(top, s.stack[|s.stack| - 2], dir)) > 0.0
    ensures var n := |s.stack|;
      var top := s.stack[n - 1];
      var dir := top.direction.value;
      var c := Slice(top, s.stack[n - 2], dir).value;
      var r := ClickStep(s);
      && |r.stack| == n + 1 && |r.overhangs| == |s.overhangs| + 1
      && (forall i :: 0 <= i < n - 1 ==> r.stack[i] == s.stack[i])
      && (forall j :: 0 <= j < |s.overhangs| ==> r.overhangs[j] == s.overhangs[j])
      && r.stack[n - 1] == c.trimmed
      && r.overhangs[|s.overhangs|].mesh.y == top.mesh.y
      && r.overhangs[|s.overhangs|].body.mass == FallingMass
      && Extent(r.overhangs[|s.overhangs|], dir) == Abs(Delta(top, s.stack[n - 2], dir))
      && Extent(r.overhangs[|s.overhangs|], Other(dir)) == Extent(top, Other(dir))
      && Coord(r.overhangs[|s.overhangs|].mesh, dir) == OverhangCoord(c, dir)
      && r.stack[n].width == c.trimmed.width && r.stack[n].depth == c.trimmed.depth
      && r.stack[n].direction == Some(Other(dir))
      && r.stack[n].mesh.y == BoxHeight * n as real
      && r.stack[n].body.mass == 0.0
      && Coord(r.stack[n].mesh, dir) == Coord(c.trimmed.mesh, dir)
      && Coord(r.stack[n].mesh, Other(dir)) == SpawnOffset
      && r.started && r.cameraY == s.cameraY
  {
    var n := |s.stack|;
    var top := s.stack[n - 1];
    var dir := top.direction.value;
    SliceConservesExtent(top, s.stack[n - 2], dir);
    SliceKeeps(top, s.stack[n - 2], dir);
  }

  /**
   * A frame moves only the top layer, mesh and body alike, by exactly one
   * step along its direction. The camera never descends, and rises by one
   * step exactly when it is below its target.
   */
  lemma TickMovesTopOnly(s: State)
    requires WellFormed(s)
    ensures |TickStep(s).stack| == |s.stack|
    ensures var top := s.stack[|s.stack| - 1];
      TickStep(s).stack[|s.stack| - 1] == Advance(top, top.direction.value)
    ensures forall i :: 0 <= i < |s.stack| - 1 ==> TickStep(s).stack[i] == s.stack[i]
    ensures var top := s.stack[|s.stack| - 1];
      var dir := top.direction.value;
      var moved := TickStep(s).stack[|s.stack| - 1];
      && Coord(moved.mesh, dir) == Coord(top.mesh, dir) + Speed
      && Coord(moved.body.position, dir) == Coord(top.body.position, dir) + Speed
      && Coord(moved.mesh, Other(dir)) == Coord(top.mesh, Other(dir))
      && moved.mesh.y == top.mesh.y
      && moved.width == top.width && moved.depth == top.depth
    ensures TickStep(s).overhangs == s.overhangs && TickStep(s).started == s.started
    ensures TickStep(s).cameraY >= s.cameraY
    ensures TickStep(s).cameraY == s.cameraY + Speed <==> s.cameraY < CameraTarget(|s.stack|)
  {
  }

  /** Layers from index 1 on alternate their axis, starting with X. */
  lemma AlternatingAxes(s: State)
    requires Inv(s)
    ensures s.stack[1].direction == Some(X)
    ensures forall i :: 1 <= i < |s.stack| - 1 ==> s.stack[i].direction != s.stack[i + 1].direction
  {
    forall i | 1 <= i < |s.stack| - 1
      ensures s.stack[i].direction != s.stack[i + 1].direction
    {
      ParityFlips(i + 1);
    }
  }

  /**
   * Mesh and body of every layer and overhang coincide in every state the
   * game reaches. For the layers this is the sync that creation, frames and
   * trims keep. For the overhangs it holds here because the model never
   * moves them after creation; the engine does, and the game keeps them in
   * sync at the end of each frame by copying each body's position to its
   * mesh, which is not part of this model.
   */
  lemma ReachedStatesSynced(events: seq<Event>)
    ensures var r := (InitInv(); Run(Init(), events));
      && (forall i :: 0 <= i < |r.stack| ==> r.stack[i].mesh == r.stack[i].body.position)
      && (forall j :: 0 <= j < |r.overhangs| ==> r.overhangs[j].mesh == r.overhangs[j].body.position)
  {
    InitInv();
    var r := Run(Init(), events);
    assert forall i :: 0 <= i < |r.stack| ==> LayerOk(r.stack[i], i);
    assert forall j :: 0 <= j < |r.overhangs| ==> OverhangOk(r.overhangs[j]);
  }

  /**
   * The top layer has already passed the layer below it by its full extent.
   * Frames only move it further the same way, so this is final.
   */
  predicate PassedBelow(s: State)
    requires WellFormed(s)
  {
    var top := s.stack[|s.stack| - 1];
    var dir := top.direction.value;
    Delta(top, s.stack[|s.stack| - 2], dir) >= Extent(top, dir)
  }

  /**
   * After a late miss every later click misses too: whatever clicks and
   * frames follow, no layer and no overhang is ever added again.
   */
  lemma {:induction false} LateMissIsFinal(s: State, events: seq<Event>)
    requires Inv(s) && s.started && PassedBelow(s)
    ensures |Run(s, events).stack| == |s.stack| && Run(s, events).overhangs == s.overhangs
    decreases |events|
  {
    if events != [] {
      StepKeepsInv(s, events[0]);
      var next := Step(s, events[0]);
      if events[0] == Click {
        ClickMiss(s);
      } else {
        TickMovesTopOnly(s);
      }
      LateMissIsFinal(next, events[1..]);
    }
  }
}
