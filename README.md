# raycast-test, modelled in Dafny

raycast-test is a small first-person ray-caster. A player stands on a grid
whose occupied cells are walls. Each frame the arrow keys turn the player and
W, A, S, D move it. For each screen column the renderer then casts a ray and
draws a vertical wall slice, sized and shaded by the hit distance.

The model covers three parts:

- the grid traversal `raycast`, with its two branches;
- the turning and movement logic of `update_player`;
- the per-column arithmetic of `draw_scene`.

## Modules

- `options.dfy`: `Option`, for `Option<f32>`.
- `numerics.dfy`: the f32 operations the code relies on, stated over exact reals:
  - `floor` and `fract`, and the `as i32` cast (`Trunc`, rounding toward zero);
  - `signum`, and the float remainder `%` (`RustRem`);
  - 2D vectors with `dot`, squared length and `rotate`.
- `raycaster.dfy`: the cast, in two layers.
  - The reference definition: iteration `k` of a cast is a `Probe`, the cell it tests plus the distance it would return. `CastPath` is the 99 probes of `1..RAYCAST_DEPTH`, and `CastResult` is the distance of the first probe whose cell is a wall (`FirstHit`).
  - The imperative code: `Raycast`, `RaycastAxisAligned` and `RaycastGeneral` are the source's loops with their early returns. Each is proved equal to `CastResult`.
  - The lemmas prove the properties the algorithm relies on:
    - the axis-aligned cell sequence and its initial length;
    - the iteration bound, and that the first wall is the one reported;
    - one unit step per iteration in the general branch, and its tie-break;
    - distances that are non-negative and never decrease.
- `scenarios.dfy` and `sample_world.dfy`: casts worked through concretely:
  - along a row;
  - at the depth bound;
  - along a diagonal with ties;
  - in the 24-cell world the program spawns at start-up, including the centre column of the start-up view.
- `player.dfy`: the player's `Transform` as a class. `UpdatePlayer` is split into its turning half and its movement half; `MovementDirection` is the `+=` accumulation of the movement keys.
- `scene.dfy`: the column pass of `draw_scene`:
  - focal length, column angle and ray direction;
  - the slice drawn for a hit;
  - `DrawScene`, which loops over the columns and calls `Raycast` once per column; entry `i` of its result is column `i`'s draw (`ColumnDrawsAt`).

## Modelling decisions

- **Numbers.** f32 is modelled as `real`; `i32` as `int`.
- **Library calls as parameters.** Keys become booleans, and the frame time becomes a `dt` parameter. These library operations are passed in as function parameters, since their library code is not part of this model:
  - `Vec2::from_angle`;
  - `normalize`;
  - `tan`, `atan` and `cos`.
- **`fract`** is taken as `x - floor(x)`, the definition in the glam version this Bevy generation uses (newer glam uses `x - trunc(x)`). The axis-aligned initial length and both intercepts depend on this choice.
- **Axis-aligned step.** The step is `direction as i32`, a truncation, not the sign of the direction.
  - A component of magnitude below 1 steps 0. With a step of `(0, 0)` every iteration re-tests the starting cell (`Raycaster.AxisZeroStepRetestsStart`).
  - The model follows the code here, not a sign-based reading of this branch, which would always step one cell.
- **Heading range.** The heading is reduced with the float `%`, which keeps the dividend's sign, so it lies in (-TAU, TAU), not in [0, TAU) as a normalised angle would. The model follows the code (`PlayerControl.NextRotation`).
- **Iteration count.** Both loops run `1..RAYCAST_DEPTH`, which is 99 iterations (`Raycaster.CastPath`, `Scenarios.CastDepthBound`).
- **Backward from a grid line, the axis-aligned branch overshoots by one unit.** A ray starting exactly on a grid line and going along -x or -y gets initial length 1 (`Raycaster.AxisBackwardFromGridLineOvershoots`, `Raycaster.AxisBackwardFromGridLineOvershootsY`). The cell it enters, however, begins at distance 0. For the four unit axis directions, every other start places the reported distance exactly on the shared grid line (`Raycaster.AxisProbeOnSharedEdge`, `Raycaster.AxisProbeOnSharedEdgeY`); so does every step of the general branch (`Raycaster.AdvanceOnSharedEdge`).
  - The general branch's intercept formula would give 0 for the same crossing.
  - In the start-up world, from the origin facing -x, the cast reports 3, although the face of wall (-3, 0) is 2 away (`SampleWorld.SampleWorldAlongXAxis`).
  - The model keeps the code's behaviour.
- **Draw calls.** Each column's `gizmos.line_2d` call is modelled as a `ColumnDraw` value.
  - A column whose cast hits nothing draws nothing (`NoWall`).
  - When `distance * cos(angle)` is 0, f32 division gives an infinite slice. The model records that case as `Unbounded` instead of computing it.

## Model

| member | source | states |
|---|---|---|
| Numerics.LengthSq | src/main.rs:67 | the squared length is non-negative and 0 for the zero vector |
| Numerics.RotateScalesLength | src/main.rs:70 | rotating by a vector multiplies the squared length by that vector's squared length, so rotating by a unit vector preserves length |
| Numerics.RotateUnitX | src/main.rs:174 | the unit vector of angle 0 rotated by `v` is `v` |
| Numerics.Floor | src/main.rs:79 | `floor` then `as i32`: the greatest integer not above `x` |
| Numerics.Fract | src/main.rs:82 | the fractional part lies in [0, 1), `x` minus it is an integer, and it is 0 exactly on integers |
| Numerics.Trunc | src/main.rs:88-89 | `as i32` rounds toward zero: non-negative for non-negative `x` and within 1 of `x` on the side of zero |
| Numerics.Signum | src/main.rs:110 | `signum` is -1 or 1, and negative exactly for negative inputs |
| Numerics.RustRem | src/main.rs:52 | the float remainder lies in (-y, y), keeps the sign of the dividend, differs from the dividend by a whole multiple of y, and returns a dividend already in (-y, y) unchanged |
| Raycaster.FirstWallIndex | src/main.rs:128-130 | the index of the first probe whose cell is a wall, or the path length: every earlier cell is open |
| Raycaster.FirstHitIsFirstWall | src/main.rs:113-133 | a walk over a path returns the first wall probe's distance, and `None` exactly when no probed cell is a wall |
| Raycaster.FirstHitAt | src/main.rs:128-130 | a wall probe preceded only by open cells is the one reported |
| Raycaster.FirstHitCons | src/main.rs:128-130 | one probe then the rest: its distance when its cell is a wall, else the result of the rest |
| Raycaster.AxisCellClosedForm | src/main.rs:87-89 | iteration `k` of the axis-aligned branch tests `floor(start) + k * trunc(direction)` |
| Raycaster.AxisInitialLengthOnGridLine | src/main.rs:82-85 | starting on a grid line across the ray's axis gives initial length 1, whatever the direction |
| Raycaster.AxisInitialLengthUnit | src/main.rs:82-85 | for the four unit axis directions the initial length is in (0, 1]: `1 - fract` forward, `fract` backward, 1 backward from a grid line |
| Raycaster.AxisNeverRetestsStart | src/main.rs:87-91 | with a non-zero truncated step the starting cell is never tested |
| Raycaster.AxisProbeOnSharedEdge | src/main.rs:82-93 | along a unit x direction, except backward from a grid line, each reported distance reaches exactly the grid line between the cell left and the cell entered |
| Raycaster.AxisBackwardFromGridLineOvershoots | src/main.rs:82-93 | backward along x from a grid line, each reported distance is one more than the distance to the line crossed |
| Raycaster.AxisProbeOnSharedEdgeY | src/main.rs:82-93 | along a unit y direction, except toward -y from a grid line, each reported distance reaches exactly the grid line between the cell left and the cell entered |
| Raycaster.AxisBackwardFromGridLineOvershootsY | src/main.rs:82-93 | toward -y from a grid line, each reported distance is one more than the distance to the line crossed |
| Raycaster.AxisLongDirectionNegativeLength | src/main.rs:82-93 | the initial length assumes a unit direction: three quarters across a cell along (2, 0), the first cell tested is two ahead and is reported at distance -0.5 |
| Raycaster.StepDirection | src/main.rs:110 | the general branch steps +1 or -1 per axis, by the sign of that direction component |
| Raycaster.AdvanceStepsOneUnit | src/main.rs:114-126 | each general iteration moves one unit along one axis, the way of its sign, along x exactly when the x crossing is strictly nearer (ties step along y), and reports that crossing's distance |
| Raycaster.GeneralCellAhead | src/main.rs:113-126 | after `k` general iterations the cell is `k` unit steps from the start cell, each taken the way of the direction's sign |
| Raycaster.GeneralNeverRetestsStart | src/main.rs:113-128 | the general branch never tests its starting cell |
| Raycaster.XInterceptNonNegative | src/main.rs:98-102 | from a cell ahead of the origin, the next vertical crossing is at a non-negative length |
| Raycaster.YInterceptNonNegative | src/main.rs:104-108 | from a cell ahead of the origin, the next horizontal crossing is at a non-negative length |
| Raycaster.XInterceptNext | src/main.rs:98-102 | each further vertical line in the step direction lies `1 / abs(direction.x)` further along the ray |
| Raycaster.YInterceptNext | src/main.rs:104-108 | each further horizontal line in the step direction lies `1 / abs(direction.y)` further along the ray |
| Raycaster.AdvanceNonDecreasing | src/main.rs:114-126 | from a cell ahead of the origin, an iteration reports a non-negative distance, and the next one reports at least as much |
| Raycaster.GeneralDistancesNonDecreasing | src/main.rs:113-126 | the distances the general branch reports are non-negative and never decrease from one iteration to a later one |
| Raycaster.AdvanceOnSharedEdge | src/main.rs:98-126 | each general iteration's distance brings the ray exactly onto the grid line between the cell left and the cell entered |
| Raycaster.ProbesFrom | src/main.rs:87 | the probes from iteration `k` on number `RAYCAST_DEPTH - k` |
| Raycaster.CastPath | src/main.rs:87 | a cast examines `RAYCAST_DEPTH - 1` = 99 cells |
| Raycaster.ProbesFromAt | src/main.rs:87 | position `j` of the probes from `k` is iteration `k + j` |
| Raycaster.CastPathAt | src/main.rs:113 | position `i` of a cast's path is iteration `i + 1` |
| Raycaster.CastResultIsFirstWall | src/main.rs:74-134 | a cast examines 99 cells, returns `None` exactly when none is a wall, and otherwise returns the distance of the first wall cell |
| Raycaster.AxisZeroStepRetestsStart | src/main.rs:87-93 | with step (0, 0) the cast returns the initial length exactly when the start cell is a wall, and `None` otherwise |
| Raycaster.CastHitsAt | src/main.rs:128-130 | a cast returns iteration `k`'s distance when its cell is a wall and no earlier iteration's cell is |
| Raycaster.CastMisses | src/main.rs:131-133 | a cast returns `None` when no iteration's cell is a wall |
| Raycaster.AxisCastHit | src/main.rs:87-93 | an axis-aligned cast whose first wall is at iteration `k` returns the initial length plus `k - 1` |
| Raycaster.CastWithoutWalls | src/main.rs:91 | without walls every cast returns `None` |
| Raycaster.CastFromStep | src/main.rs:113-131 | the result from iteration `k` on is that iteration's distance on a wall, and otherwise the result from `k + 1` on |
| Raycaster.AxisProbeStep | src/main.rs:87-93 | axis-aligned iteration `k` tests the previous cell plus the truncated direction, at the initial length plus `k - 1` |
| Raycaster.Raycast | src/main.rs:74-134 | the cast returns `CastResult`, the first wall along its 99-cell path |
| Raycaster.RaycastAxisAligned | src/main.rs:81-96 | the axis-aligned loop, with its early return, returns `CastResult` |
| Raycaster.AxisStartLength | src/main.rs:82-85 | the running length starts at the axis-aligned initial length |
| Raycaster.RaycastGeneral | src/main.rs:110-133 | the general loop, with its early return, returns `CastResult` |
| Raycaster.GeneralStep | src/main.rs:114-126 | one general iteration's body enters the cell and reports the distance `Advance` defines for it |
| Scenarios.CastAlongRow | src/main.rs:81-96 | along +x from cell (0, 0), a wall at (3, 0) is reported at `3 - start.x`, the distance to its face |
| Scenarios.CastDepthBound | src/main.rs:87-95 | along +x from cell (0, 0), a wall in cell (99, 0) is still found and one in cell (100, 0) is not |
| Scenarios.CastAlongDiagonal | src/main.rs:113-130 | along a diagonal from `(f, f)` ties step along y: the cells entered are (0,1), (1,1), (1,2), (2,2), and a wall at (2,2) is reported at the length reaching its corner |
| Scenarios.CastAlongRowZero | src/main.rs:81-96 | from x = 0 in cell (0, 0), with walls at (±3, 0) and open cells between, casts along +x and -x both return 3 |
| Scenarios.CastAlongRowZeroToward | src/main.rs:81-96 | from x = 0 in cell (0, 0), with a wall at 3 cells along ±x and open cells between, the cast that way returns 3 |
| SampleWorld.SampleWallsOnRowZero | src/main.rs:21 | the start-up walls include (3, 0) and (-3, 0) and none of the cells between |
| SampleWorld.SampleWorldAlongXAxis | src/main.rs:20-21 | in the start-up world, from x = 0 in cell (0, 0), casts along +x and along -x both return 3 |
| PlayerControl.Transform.constructor | src/main.rs:28-31 | a transform holds the given position and heading |
| PlayerControl.TurnDelta | src/main.rs:45-50 | left turns by `+speed * dt`, right by `-speed * dt`, both or neither by 0 |
| PlayerControl.NextRotation | src/main.rs:45-52 | the new heading lies in (-TAU, TAU) and differs from the turned heading by a whole number of turns, so it points the same way; a turned heading already in that range is kept; the sign of the turned heading is kept |
| PlayerControl.LocalDirection | src/main.rs:54-65 | the summed movement direction has components in {-1, 0, 1}, the sign of each given by its pair of keys, and is zero exactly when W/S and A/D cancel |
| PlayerControl.UpdatePlayer | src/main.rs:36-72 | the frame's update sets the heading to the turned and reduced heading, then moves the position along that new heading |
| PlayerControl.Turn | src/main.rs:45-52 | the turning half sets the heading to `NextRotation` and leaves the position unchanged |
| PlayerControl.Move | src/main.rs:67-71 | the movement half moves the position as `NextPosition` says and leaves the heading unchanged |
| PlayerControl.MovementDirection | src/main.rs:43-65 | accumulating the W, A, S, D unit vectors from zero yields the local direction |
| PlayerControl.MovesIffKeysDoNotCancel | src/main.rs:54-67 | the direction has non-zero length exactly when W/S or A/D do not cancel |
| PlayerControl.CancellingKeysKeepPosition | src/main.rs:54-71 | with no movement keys, or with each opposite pair cancelling, the position does not change |
| PlayerControl.OppositeTurnsCancel | src/main.rs:45-52 | holding both arrow keys leaves a heading in (-TAU, TAU) unchanged |
| PlayerControl.IdleHeadingIsStable | src/main.rs:52 | without a net turn, reducing an already reduced heading changes nothing |
| PlayerControl.StrideLength | src/main.rs:67-70 | with unit normalisation and a unit heading vector, a moving frame covers exactly `PLAYER_SPEED * dt`, diagonals included |
| Scene.Focal | src/main.rs:172 | the focal length is positive for a positive width, and times twice the tangent of half the field of view gives the width |
| Scene.WallSlice | src/main.rs:187-194 | a hit draws a line at `width / 2 - column`, symmetric about 0, whose height times `distance * cos` is the screen height and whose lightness times the distance is 3; unbounded exactly when `distance * cos` is 0 |
| Scene.ColumnDraws | src/main.rs:171-194 | the pass draws one entry per column |
| Scene.ColumnDrawsAt | src/main.rs:171-194 | entry i of the pass is column i's own draw: the cast along its ray and, on a hit, its slice |
| Scene.ColumnCount | src/main.rs:171 | the columns are `0 .. width as i32`: for a non-negative width the count is its whole part (at most the width, less than the width plus 1); at least one for a width of 1 or more, none below 1 |
| Scene.DrawScene | src/main.rs:171-194 | the column loop draws, in order, each column's draw for its own ray |
| Scene.DrawColumn | src/main.rs:172-194 | one column's angle, ray, cast and slice give that column's draw |
| Scene.ColumnDrawMatchesCast | src/main.rs:176-194 | a column draws nothing exactly when its cast returns `None`, and on a hit draws at `width / 2 - column` |
| Scene.NearerIsBrighter | src/main.rs:189 | the nearer of two walls is drawn with strictly greater lightness |
| Scene.NearerIsTaller | src/main.rs:187 | within a column, the nearer of two walls is drawn strictly taller, and both have positive height |
| Scene.CentreColumn | src/main.rs:172-187 | the centre column's ray is the heading's unit vector, and a hit there is drawn with cosine 1, its height the screen height over the distance |
| Scene.CentreColumnHit | src/main.rs:172-194 | a centre-column hit at distance `d` spans `height / d` centred on 0 at x = 0, with lightness `3 / d` |
| SampleWorld.SampleWorldCentreColumn | src/main.rs:171-194 | in the start-up world, facing +x from x = 0 in cell (0, 0), the centre column shows the wall three units away: a third of the screen height tall, at lightness 1 |

## Left out

- Bevy plumbing is not modelled: `main`, `setup`, components, queries, `Res<Time>`, `ButtonInput` and `Window`. Their values arrive as parameters.
- The gizmo drawing and the `DEBUG_MAP_MODE` overlay (src/main.rs:150-169, 178-185) are not modelled. The constant is `false`, and the overlay only draws.
- `tan`, `atan`, `cos`, `Vec2::from_angle`, `length` and `normalize` are parameters or not modelled. Their library code is not part of this model. `length() > 0` is modelled as a positive squared length.
- IEEE-754 behaviour is not modelled:
  - rounding;
  - `-0.0`, for which `-0.0 < 0.0` is false at src/main.rs:84;
  - NaN from a zero direction;
  - infinities from a zero distance;
  - overflow of `as i32` on huge values.
- Raycast: distances and cells are exact reals and unbounded integers, not f32 and i32.
- Color::hsl clamping of the lightness to [0, 1] is library behaviour and is not modelled. Only the value `3 / distance` is.
- Scene.WallSlice: when `distance * cos(angle)` is 0, f32 draws a line of infinite height. The model records this as `Unbounded` without computing it.
- PlayerControl.NextRotation: real arithmetic, without f32 rounding of the accumulated heading.
- PlayerControl.StrideLength: assumes that `normalize` and `from_angle` return unit vectors, since neither is part of this model.
- The commented-out floor gradient (src/main.rs:190-191, 196-199) is not modelled: it is dead code.
