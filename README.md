# Stack-and-slice game core

A model of the game state of a browser block-stacking game (`main.js`). A stack
of boxes starts with a 3 by 3 foundation and a first layer that slides along X
from x = -10. Each animation frame moves the top layer 0.1 along its axis and
lets the camera rise. The first click only starts the animation loop. Every
later click cuts the top layer against the layer below it:

- the part that overlaps stays, trimmed in place;
- the part that sticks out becomes a falling overhang;
- a new layer with the trimmed extents starts sliding on the other axis from -10.

A click whose overlap is not positive does nothing.

Every box carries two positions: the rendered mesh's and the physics body's.
The model keeps both and proves that they never diverge.

Files and modules:

- `wrappers.dfy` (`Wrappers`): `Option`.
- `geometry.dfy` (`Geometry`): the axes X and Z, points, `Math.abs` and `Math.sign` on reals.
- `boxes.dfy` (`Boxes`): the constants, the box record `generateBox` builds, `addLayer`'s and `addOverhang`'s records.
- `slicing.dfy` (`Slicing`): the cut made on a click, as a pure function `Slice`, with its geometric properties.
- `session.dfy` (`Session`): the game as a state machine over values. It has the invariant `Inv` kept from `init` on, the click and frame steps, and `Run`, which plays any sequence of clicks and frames.
- `game.dfy` (`Stacker`): class `Game` with the module-level state as fields (`stack`, `overhangs`, `started`, `cameraY`). Its methods `Click` and `Tick` update that state in place and are proved to follow `Session.ClickStep` and `Session.TickStep`.

Coordinates are exact `real`s. Constants as in the source: box height 1,
foundation size 3, speed 0.1, spawn offset -10, falling mass 5, camera start
height 4 and camera follow offset 4.

The code has no game-over state: a click with non-positive overlap changes
nothing, and the top layer keeps sliding. A click made too early can be
followed by a successful one. After a late miss the layer has already passed
the one below it and only moves further away, so every later click misses.

## Model

| member | source | states |
|---|---|---|
| `Geometry.Abs` | main.js:113 | `overhangSize` is non-negative and is either `delta` or `-delta` |
| `Geometry.Sign` | main.js:142 | the sign is -1, 0 or 1; it is 0 exactly at 0; `sign(x) * abs(x) == x` |
| `Geometry.Shift` | main.js:131 | moving a point along one axis changes that coordinate by exactly the amount; the other horizontal coordinate and the height stay |
| `Geometry.Other` | main.js:153 | the next layer's axis differs from the current one |
| `Boxes.GenerateBox` | main.js:75-98 | mesh and body are created at the same point; the body's half-extents are half the width, height and depth; the mass is 5 for a falling box and 0 otherwise |
| `Boxes.MakeLayer` | main.js:62-67 | a layer is static, sits at `boxHeight * index`, is in sync with its body and carries its direction |
| `Boxes.MakeOverhang` | main.js:69-73 | an overhang has mass 5 and sits at `boxHeight * (stack.length - 1)`, the height of the current top layer |
| `Slicing.Delta` | main.js:111 | `delta` is the signed offset that carries the lower centre onto the top centre along the axis |
| `Slicing.Slice` | main.js:109-153 | a click misses (no cut) exactly when the centres are at least the top layer's extent apart along its axis |
| `Slicing.SliceConservesExtent` | main.js:113-146 | the trimmed extent plus the overhang extent along the axis equals the pre-commit size; the trimmed extent is positive; the overhang extent is `abs(delta)`, which is 0 exactly when `delta == 0`; across the axis both keep the top layer's extent |
| `Slicing.SliceSeam` | main.js:131-144 | the trimmed part and the overhang meet exactly: `newCentre + sign(delta)*overLap/2 == overhangCentre - sign(delta)*overhangSize/2`; their union is `[c - size/2, c + size/2]`; the trimmed centre is the lower centre plus `delta/2` |
| `Slicing.SliceIsIntersection` | main.js:111-131 | when the two layers have the same extent, the trimmed interval is the intersection of the two layers' intervals, and a miss is exactly an intersection of no positive length |
| `Slicing.SliceKeeps` | main.js:122-144 | the trim keeps height, cross-axis coordinate, direction and mass; it keeps mesh and body in sync; extents stay positive; the overhang lies on the same cross-axis line |
| `Slicing.SliceNextLayer` | main.js:151-153 | the next layer slides on the other axis, starts at -10 on it, and inherits the trimmed layer's coordinate on the axis just cut |
| `Slicing.SliceWorkedExample` | main.js:111-153 | stopping the first layer at x = -1 keeps width 2 centred at -0.5, drops a 1 by 3 overhang centred at x = -2, and spawns the next layer at (-0.5, z = -10) on Z |
| `Session.CameraNext` | main.js:176-178 | the camera never descends; it rises by exactly `speed` iff it is below `boxHeight*(stack.length-2)+4`, and otherwise stays |
| `Session.Advance` | main.js:171-174 | a frame moves the mesh and the body of a layer by exactly 0.1 along its direction and nothing else, so a synced layer stays synced |
| `Session.Foundation` | main.js:27 | the foundation is a valid static layer at index 0, centred at the origin, 3 by 3, with no direction |
| `Session.Init` | main.js:26-30 | `init` builds two layers, the second at (-10, 1, 0) sliding on X; no overhangs; not started (main.js:8) |
| `Session.ClickStep` | main.js:100-159 | the click handler over the state as a value; its contract says the result is well formed, is started, and has at most one more layer; its behaviour is stated by `ClickBeforeStart`, `ClickMiss`, `ClickCommit` and `ClickKeepsInv` |
| `Session.TickStep` | main.js:170-178 | the kinematic part of a frame over the state as a value; its contract keeps well-formedness, the stack length and `started`; its behaviour is stated by `TickMovesTopOnly` and `TickKeepsInv` |
| `Session.Step` | main.js:100-104 | one click or frame; frames do nothing until the first click has started the loop; keeps the state well formed |
| `Session.LateMissIsFinal` | main.js:111-120 | once the top layer is a full extent past the layer below, no sequence of clicks and frames ever adds a layer or an overhang again |
| `Session.InitInv` | main.js:26-30 | the state `init` builds (foundation at the origin, first layer at x = -10 on X, no overhangs, camera at 4, not started) satisfies the game invariant |
| `Session.ParityFlips` | main.js:153 | the axis assigned to index n is the complement of the axis at index n - 1 |
| `Session.ClickKeepsInv` | main.js:100-159 | a click keeps the invariant: positive extents, mesh equal to body, layer heights, alternating axes with X at index 1, layers aligned on their non-sliding axis, equal extents of the top two layers, one overhang per cut with non-negative extents and mass 5, camera below target plus one step |
| `Session.TickKeepsInv` | main.js:170-178 | a frame keeps the same invariant |
| `Session.StepKeepsInv` | main.js:100-178 | any click or frame keeps the invariant; before the start, frames do nothing |
| `Session.Run` | main.js:100-178 | every state reached through any sequence of clicks and frames satisfies the invariant; layers committed earlier and overhangs already created never change afterwards |
| `Session.ClickBeforeStart` | main.js:101-104 | before the game has started, a click only sets `started`; stack, overhangs and camera are unchanged |
| `Session.ClickMiss` | main.js:118-120 | a click with `overLap <= 0` leaves the whole state unchanged, `started` included |
| `Session.ClickCommit` | main.js:120-156 | a successful click replaces the top layer by its trimmed part and appends one overhang and one layer; all earlier entries are unchanged; the overhang has the top layer's height, mass 5 and the cut-off extents; the new layer has the trimmed extents, the flipped direction, height `boxHeight * index`, mass 0, the trimmed coordinate on the cut axis and -10 on its own axis; `started` and the camera stay |
| `Session.TickMovesTopOnly` | main.js:170-178 | a frame changes only the top layer, and that layer becomes `Advance` of it: mesh and body move exactly 0.1 along its direction and nothing else about it changes; overhangs and `started` stay; the camera never descends and rises by `speed` iff it is below the target |
| `Session.AlternatingAxes` | main.js:153 | in every valid state the layer at index 1 slides on X and consecutive layers from index 1 on slide on different axes |
| `Session.ReachedStatesSynced` | main.js:80-89 | in every state reached from `init`, each layer's and each overhang's mesh position equals its body position; for overhangs this holds in the model because they never move after creation, while the game restores it each frame by copying body to mesh (main.js:165), which is not modelled |
| `Stacker.Game.constructor` | main.js:26-30 | the new game is exactly the `init` state, so it satisfies the invariant |
| `Stacker.Game.AddLayer` | main.js:62-67 | appends exactly one static layer at the next height with the given direction |
| `Stacker.Game.AddOverhang` | main.js:69-73 | appends exactly one falling box at the height of the current top layer |
| `Stacker.Game.Click` | main.js:100-159 | the handler changes the state exactly as `ClickStep` says and keeps the invariant |
| `Stacker.Game.Tick` | main.js:170-178 | a frame changes the state exactly as `TickStep` says and keeps the invariant |

## Left out

- Rendering is not modelled: the scene, lights, orthographic camera projection, renderer and `render` calls (main.js:24-59, 181). The camera is reduced to its height: it starts at 4 (main.js:52), and its x, z and `lookAt` are not modelled.
- Mesh colours and materials (main.js:76-79) are visual only and are not modelled.
- The mesh `scale` (main.js:130) is not modelled; `width` and `depth` carry the extents.
- DOM lookups and the `click` listener wiring (main.js:10-12, 100) are not modelled; the handler body is the method `Click`.
- Starting the animation loop is not modelled as such (main.js:102). It is the `started` flag: `Tick` requires it, and `Session.Step` ignores frames before it is set.
- The physics world is a foreign engine and is not modelled: gravity, broadphase, solver iterations, `world.step`, and copying each overhang's body position and quaternion to its mesh (main.js:19-22, 161-168, 180).
- Stacker.Game.Tick: covers only the kinematic and camera part of a frame (main.js:171-178). Overhang positions stay as created in the model, while the engine moves them in the source.
- Resizing the body on a trim (main.js:134-138) is not modelled as the code does it. Line 137 assigns `shape = []`, but a Cannon body keeps its shapes in `shapes`, so the full-size box stays on the body and line 138 appends the trimmed box beside it. The model records only the intended new half-extents `newWidth/2, boxHeight/2, newDepth/2`, and `Boxes.Synced` speaks of that latest shape only, not of the body's whole collision geometry.
- Boxes are values in the model. Trimming the top layer in place is modelled as replacing the last stack entry with its trimmed value. Nothing else refers to these objects, so the model loses no aliasing.
- JavaScript numbers are IEEE-754 doubles; the model uses exact reals and ignores rounding.
- The `score` element (main.js:10) is never updated by the code and is not modelled. The number of overhangs equals the number of successful cuts, `|stack| - 2`, as part of `Session.Inv`.
- Session.ClickCommit: stated for states satisfying `Session.Inv`, which every reachable state does (`Session.Run`). The handler itself needs only two layers and a direction on the top one.
