/** The ray-caster: a grid traversal (digital differential analyser) that walks
    from the cell holding the ray's origin into neighbouring cells and reports
    the ray length at which it enters the first occupied cell.

    A cast runs a bounded number of iterations. The model describes iteration
    `k` by a probe: the cell tested in that iteration and the distance the
    cast returns if that cell is a wall. The probes of iterations
    `1 .. RaycastDepth - 1` form the cast's path, and the cast returns the
    distance of the first probe whose cell is a wall (`FirstHit`). */
module Raycaster {
  import opened Options
  import opened Numerics

  /** The cast loops over `1..RaycastDepth`, so it runs `RaycastDepth - 1` iterations. */
  const RaycastDepth: int := 100

  /** A grid cell `(cx, cy)`, the unit square `[cx, cx + 1) x [cy, cy + 1)`. */
  type Cell = (int, int)

  /** One loop iteration of a cast: the cell it tests, and the distance
      returned when that cell is a wall. */
  datatype Probe = Probe(cell: Cell, distance: real)

  /** The cell holding the ray's origin. */
  function StartCell(start: Vec2): Cell
  {
    (Floor(start.x), Floor(start.y))
  }

  /** The cast takes its axis-aligned branch when either component of the direction is exactly 0. */
  predicate IsAxisAligned(direction: Vec2)
  {
    direction.x == 0.0 || direction.y == 0.0
  }

  // ---------------------------------------------------------------------------
  // First hit along a path of probes

  /** What a cast over `path` returns: the distance of the first probe whose
      cell is a wall, or `None` when no probed cell is a wall. */
  function FirstHit(walls: seq<Cell>, path: seq<Probe>): Option<real>
  {
    if path == [] then None
    else if path[0].cell in walls then Some(path[0].distance)
    else FirstHit(walls, path[1..])
  }

  /** The position of the first probe whose cell is a wall, or `|path|` when there is none. */
  function FirstWallIndex(walls: seq<Cell>, path: seq<Probe>): (i: nat)
    ensures i <= |path|
    ensures forall j :: 0 <= j < i ==> path[j].cell !in walls
    ensures i < |path| ==> path[i].cell in walls
  {
    if path == [] then 0
    else if path[0].cell in walls then 0
    else 1 + FirstWallIndex(walls, path[1..])
  }

  /** `FirstHit` returns exactly the distance of the first wall probe, and
      `None` exactly when no probe's cell is a wall. */
  lemma {:induction false} FirstHitIsFirstWall(walls: seq<Cell>, path: seq<Probe>)
    ensures FirstHit(walls, path) ==
      (if FirstWallIndex(walls, path) < |path| then Some(path[FirstWallIndex(walls, path)].distance) else None)
    ensures FirstHit(walls, path) == None <==> forall j :: 0 <= j < |path| ==> path[j].cell !in walls
  {
    if path != [] && path[0].cell !in walls {
      FirstHitIsFirstWall(walls, path[1..]);
      assert forall j :: 1 <= j < |path| ==> path[j] == path[1..][j - 1];
    }
  }

  /** A probe whose cell is a wall and that follows only non-wall probes is the one reported. */
  lemma FirstHitAt(walls: seq<Cell>, path: seq<Probe>, i: nat)
    requires i < |path| && path[i].cell in walls
    requires forall j :: 0 <= j < i ==> path[j].cell !in walls
    ensures FirstHit(walls, path) == Some(path[i].distance)
  {
    FirstHitIsFirstWall(walls, path);
    var k := FirstWallIndex(walls, path);
    assert k <= i && !(k < i);
  }

  /** One probe followed by the rest: that probe's distance when its cell is
      a wall, and otherwise the result of the rest. */
  lemma FirstHitCons(walls: seq<Cell>, p: Probe, rest: seq<Probe>)
    ensures FirstHit(walls, [p] + rest) == if p.cell in walls then Some(p.distance) else FirstHit(walls, rest)
  {
    assert ([p] + rest)[1..] == rest;
  }

  // ---------------------------------------------------------------------------
  // Axis-aligned branch

  /** The length reported for the first cell entered: the fractional part of
      the origin, dotted with the direction, taken as its absolute value when
      negative and subtracted from 1 otherwise. */
  function AxisInitialLength(start: Vec2, direction: Vec2): real
  {
    var v := Dot(FractVec(start), direction);
    if v < 0.0 then Abs(v) else 1.0 - v
  }

  /** The per-iteration step of the axis-aligned branch: each direction
      component cast with `as i32`. */
  function AxisStep(direction: Vec2): Cell
  {
    (Trunc(direction.x), Trunc(direction.y))
  }

  /** The cell after `k` axis-aligned steps. */
  function AxisCell(start: Vec2, direction: Vec2, k: nat): Cell
  {
    if k == 0 then StartCell(start)
    else
      var c := AxisCell(start, direction, k - 1);
      (c.0 + AxisStep(direction).0, c.1 + AxisStep(direction).1)
  }

  /** Iteration `k` (from 1) of the axis-aligned branch: it tests the cell
      after `k` steps and reports the initial length plus `k - 1`. */
  function AxisProbe(start: Vec2, direction: Vec2, k: nat): Probe
    requires k >= 1
  {
    Probe(AxisCell(start, direction, k), AxisInitialLength(start, direction) + (k - 1) as real)
  }

  /** On iteration `k` the axis-aligned branch tests `floor(start) + k * trunc(direction)`. */
  lemma {:induction false} AxisCellClosedForm(start: Vec2, direction: Vec2, k: nat)
    ensures AxisCell(start, direction, k) ==
      (Floor(start.x) + k * Trunc(direction.x), Floor(start.y) + k * Trunc(direction.y))
  {
    if k > 0 {
      AxisCellClosedForm(start, direction, k - 1);
      var tx, ty := Trunc(direction.x), Trunc(direction.y);
      assert (k - 1) * tx + tx == k * tx;
      assert (k - 1) * ty + ty == k * ty;
    }
  }

  /** Starting on a grid line across the ray's axis gives an initial length of 1, whatever the direction. */
  lemma AxisInitialLengthOnGridLine(start: Vec2, direction: Vec2)
    requires (direction.y == 0.0 && Fract(start.x) == 0.0) || (direction.x == 0.0 && Fract(start.y) == 0.0)
    ensures AxisInitialLength(start, direction) == 1.0
  {
    if direction.y == 0.0 && Fract(start.x) == 0.0 {
      assert Fract(start.x) * direction.x == 0.0;
    } else {
      assert Fract(start.y) * direction.y == 0.0;
    }
  }

  /** For the four unit axis directions the initial length lies in (0, 1]: it
      is `1 - fract` going forward along the axis, and `fract` going backward
      except from a grid line, where it is 1. */
  lemma AxisInitialLengthUnit(start: Vec2, direction: Vec2)
    requires direction == Vec2(1.0, 0.0) || direction == Vec2(-1.0, 0.0) || direction == Vec2(0.0, 1.0) || direction == Vec2(0.0, -1.0)
    ensures 0.0 < AxisInitialLength(start, direction) <= 1.0
    ensures direction == Vec2(1.0, 0.0) ==> AxisInitialLength(start, direction) == 1.0 - Fract(start.x)
    ensures direction == Vec2(0.0, 1.0) ==> AxisInitialLength(start, direction) == 1.0 - Fract(start.y)
    ensures direction == Vec2(-1.0, 0.0) ==>
      AxisInitialLength(start, direction) == if Fract(start.x) == 0.0 then 1.0 else Fract(start.x)
    ensures direction == Vec2(0.0, -1.0) ==>
      AxisInitialLength(start, direction) == if Fract(start.y) == 0.0 then 1.0 else Fract(start.y)
  {
    var f := FractVec(start);
    if direction.y == 0.0 {
      assert Dot(f, direction) == f.x * direction.x;
    } else {
      assert Dot(f, direction) == f.y * direction.y;
    }
  }

  /** With a non-zero step the axis-aligned branch never tests its starting cell. */
  lemma AxisNeverRetestsStart(start: Vec2, direction: Vec2, k: nat)
    requires AxisStep(direction) != (0, 0)
    requires k >= 1
    ensures AxisProbe(start, direction, k).cell != StartCell(start)
  {
    AxisCellClosedForm(start, direction, k);
    var tx, ty := Trunc(direction.x), Trunc(direction.y);
    if tx != 0 {
      NonZeroProduct(k, tx);
    } else {
      NonZeroProduct(k, ty);
    }
  }

  lemma NonZeroProduct(k: int, t: int)
    requires k > 0 && t != 0
    ensures k * t != 0
  {
    if t > 0 {
      assert k * t >= t;
    } else {
      assert k * -t >= -t;
    }
  }

  /** Along a unit x direction, unless the ray starts on a grid line and goes
      backward, the distance reported on iteration `k` brings the ray exactly
      to the grid line shared by the cell it leaves and the cell it enters. */
  lemma AxisProbeOnSharedEdge(start: Vec2, direction: Vec2, k: nat)
    requires direction == Vec2(1.0, 0.0) || direction == Vec2(-1.0, 0.0)
    requires direction.x < 0.0 ==> Fract(start.x) != 0.0
    requires k >= 1
    ensures var p := AxisProbe(start, direction, k);
      start.x + p.distance * direction.x ==
        (if direction.x > 0.0 then p.cell.0 else AxisCell(start, direction, k - 1).0) as real
  {
    AxisCellClosedForm(start, direction, k - 1);
    AxisCellClosedForm(start, direction, k);
    AxisInitialLengthUnit(start, direction);
  }

  /** Going backward along x from a grid line, every reported distance is one
      more than the distance to the grid line actually crossed: the ray is
      carried to the far edge of the cell it enters. */
  lemma AxisBackwardFromGridLineOvershoots(start: Vec2, k: nat)
    requires Fract(start.x) == 0.0
    requires k >= 1
    ensures var p := AxisProbe(start, Vec2(-1.0, 0.0), k);
      && start.x - p.distance == p.cell.0 as real
      && start.x - (p.distance - 1.0) == AxisCell(start, Vec2(-1.0, 0.0), k - 1).0 as real
  {
    var direction := Vec2(-1.0, 0.0);
    AxisCellClosedForm(start, direction, k - 1);
    AxisCellClosedForm(start, direction, k);
    AxisInitialLengthOnGridLine(start, direction);
  }

  /** The same along a unit y direction: unless the ray starts on a
      horizontal grid line and goes toward -y, each reported distance brings
      the ray exactly to the shared grid line. */
  lemma AxisProbeOnSharedEdgeY(start: Vec2, direction: Vec2, k: nat)
    requires direction == Vec2(0.0, 1.0) || direction == Vec2(0.0, -1.0)
    requires direction.y < 0.0 ==> Fract(start.y) != 0.0
    requires k >= 1
    ensures var p := AxisProbe(start, direction, k);
      start.y + p.distance * direction.y ==
        (if direction.y > 0.0 then p.cell.1 else AxisCell(start, direction, k - 1).1) as real
  {
    AxisCellClosedForm(start, direction, k - 1);
    AxisCellClosedForm(start, direction, k);
    AxisInitialLengthUnit(start, direction);
  }

  /** Going backward along y from a grid line overshoots by one unit, as along x. */
  lemma AxisBackwardFromGridLineOvershootsY(start: Vec2, k: nat)
    requires Fract(start.y) == 0.0
    requires k >= 1
    ensures var p := AxisProbe(start, Vec2(0.0, -1.0), k);
      && start.y - p.distance == p.cell.1 as real
      && start.y - (p.distance - 1.0) == AxisCell(start, Vec2(0.0, -1.0), k - 1).1 as real
  {
    var direction := Vec2(0.0, -1.0);
    AxisCellClosedForm(start, direction, k - 1);
    AxisCellClosedForm(start, direction, k);
    AxisInitialLengthOnGridLine(start, direction);
  }

  /** The initial length treats the direction as a unit vector: along a longer
      axis direction it can be negative. From three quarters of the way
      across a cell along (2, 0), the first cell tested is two cells ahead
      and is reported at distance -0.5. */
  lemma AxisLongDirectionNegativeLength(start: Vec2)
    requires Fract(start.x) == 0.75
    ensures AxisInitialLength(start, Vec2(2.0, 0.0)) == -0.5
    ensures AxisProbe(start, Vec2(2.0, 0.0), 1) == Probe((Floor(start.x) + 2, Floor(start.y)), -0.5)
  {
    assert Dot(FractVec(start), Vec2(2.0, 0.0)) == 1.5;
    assert AxisStep(Vec2(2.0, 0.0)) == (2, 0);
    assert AxisCell(start, Vec2(2.0, 0.0), 1) == (Floor(start.x) + 2, Floor(start.y));
  }

  // ---------------------------------------------------------------------------
  // General branch

  /** Ray length at which the ray crosses the `x`-th vertical grid line away
      from its starting cell. Going toward negative x the line crossed is the
      cell's near edge, one further than `x` counts, hence the `+ 1`. */
  function XIntercept(start: Vec2, direction: Vec2, x: int): real
    requires direction.x != 0.0
  {
    var a := x as real - Fract(start.x);
    (if direction.x < 0.0 then a + 1.0 else a) / direction.x
  }

  /** Ray length at which the ray crosses the `y`-th horizontal grid line; as `XIntercept`. */
  function YIntercept(start: Vec2, direction: Vec2, y: int): real
    requires direction.y != 0.0
  {
    var a := y as real - Fract(start.y);
    (if direction.y < 0.0 then a + 1.0 else a) / direction.y
  }

  /** The per-iteration step of the general branch: the signum of each
      direction component, cast with `as i32`. */
  function StepDirection(direction: Vec2): (step: Cell)
    ensures step.0 == (if direction.x < 0.0 then -1 else 1)
    ensures step.1 == (if direction.y < 0.0 then -1 else 1)
  {
    (Trunc(Signum(direction.x)), Trunc(Signum(direction.y)))
  }

  /** One iteration of the general branch from `cell`: the crossings of the next
      vertical and horizontal grid lines, counted from the cells stepped so far,
      and a step into the cell beyond the strictly nearer one (the horizontal
      one on a tie). */
  function Advance(start: Vec2, direction: Vec2, cell: Cell): Probe
    requires !IsAxisAligned(direction)
  {
    var stepsTaken := (cell.0 - Floor(start.x), cell.1 - Floor(start.y));
    var step := StepDirection(direction);
    var xDistance := XIntercept(start, direction, stepsTaken.0 + step.0);
    var yDistance := YIntercept(start, direction, stepsTaken.1 + step.1);
    if xDistance < yDistance then Probe((cell.0 + step.0, cell.1), xDistance)
    else Probe((cell.0, cell.1 + step.1), yDistance)
  }

  /** The cell after `k` iterations of the general branch. */
  function GeneralCell(start: Vec2, direction: Vec2, k: nat): Cell
    requires !IsAxisAligned(direction)
  {
    if k == 0 then StartCell(start) else Advance(start, direction, GeneralCell(start, direction, k - 1)).cell
  }

  /** Iteration `k` (from 1) of the general branch: it advances from the cell after `k - 1` iterations. */
  function GeneralProbe(start: Vec2, direction: Vec2, k: nat): Probe
    requires !IsAxisAligned(direction) && k >= 1
  {
    Advance(start, direction, GeneralCell(start, direction, k - 1))
  }

  /** A cell lies ahead of the origin when every step taken so far went the
      way of the direction's signum. */
  predicate Ahead(start: Vec2, direction: Vec2, cell: Cell)
  {
    && (direction.x < 0.0 ==> cell.0 <= Floor(start.x))
    && (direction.x >= 0.0 ==> cell.0 >= Floor(start.x))
    && (direction.y < 0.0 ==> cell.1 <= Floor(start.y))
    && (direction.y >= 0.0 ==> cell.1 >= Floor(start.y))
  }

  /** Grid (Manhattan) distance between two cells. */
  function GridDistance(a: Cell, b: Cell): nat
  {
    (if a.0 <= b.0 then b.0 - a.0 else a.0 - b.0) + (if a.1 <= b.1 then b.1 - a.1 else a.1 - b.1)
  }

  /** Each iteration moves exactly one unit along exactly one axis, in the
      direction of that component's sign: along x exactly when the next
      vertical crossing is strictly nearer than the next horizontal one, so a
      tie steps along y. */
  lemma AdvanceStepsOneUnit(start: Vec2, direction: Vec2, cell: Cell)
    requires !IsAxisAligned(direction)
    ensures var p := Advance(start, direction, cell);
      var stepsTaken := (cell.0 - Floor(start.x), cell.1 - Floor(start.y));
      var xDistance := XIntercept(start, direction, stepsTaken.0 + StepDirection(direction).0);
      var yDistance := YIntercept(start, direction, stepsTaken.1 + StepDirection(direction).1);
      && GridDistance(cell, p.cell) == 1
      && (p.cell.0 != cell.0 <==> xDistance < yDistance)
      && (p.cell.0 != cell.0 ==> p.cell.0 - cell.0 == (if direction.x < 0.0 then -1 else 1) && p.distance == xDistance)
      && (p.cell.1 != cell.1 ==> p.cell.1 - cell.1 == (if direction.y < 0.0 then -1 else 1) && p.distance == yDistance)
  {
  }

  /** After `k` iterations the current cell is `k` unit steps from the start
      cell, each taken the way of the direction's sign. */
  lemma {:induction false} GeneralCellAhead(start: Vec2, direction: Vec2, k: nat)
    requires !IsAxisAligned(direction)
    ensures Ahead(start, direction, GeneralCell(start, direction, k))
    ensures GridDistance(StartCell(start), GeneralCell(start, direction, k)) == k
  {
    if k > 0 {
      GeneralCellAhead(start, direction, k - 1);
      AdvanceStepsOneUnit(start, direction, GeneralCell(start, direction, k - 1));
    }
  }

  /** The general branch never tests its starting cell. */
  lemma GeneralNeverRetestsStart(start: Vec2, direction: Vec2, k: nat)
    requires !IsAxisAligned(direction) && k >= 1
    ensures GeneralProbe(start, direction, k).cell != StartCell(start)
  {
    GeneralCellAhead(start, direction, k);
  }

  lemma DivNonNegative(a: real, d: real)
    requires d != 0.0
    requires (a >= 0.0 && d > 0.0) || (a <= 0.0 && d < 0.0)
    ensures a / d >= 0.0
  {
    if d < 0.0 {
      assert a / d == (-a) / (-d);
    }
  }

  lemma DivTimes(a: real, d: real)
    requires d != 0.0
    ensures a / d * d == a
  {
  }

  lemma DivAddOne(a: real, d: real)
    requires d != 0.0
    ensures (a + 1.0) / d == a / d + 1.0 / d
  {
  }

  /** From a cell ahead of the origin, the next vertical crossing is at a non-negative ray length. */
  lemma XInterceptNonNegative(start: Vec2, direction: Vec2, cell: Cell)
    requires direction.x != 0.0 && Ahead(start, direction, cell)
    ensures XIntercept(start, direction, cell.0 - Floor(start.x) + StepDirection(direction).0) >= 0.0
  {
    var n := cell.0 - Floor(start.x) + StepDirection(direction).0;
    var a := n as real - Fract(start.x);
    if direction.x < 0.0 {
      DivNonNegative(a + 1.0, direction.x);
    } else {
      DivNonNegative(a, direction.x);
    }
  }

  /** As `XInterceptNonNegative`, for horizontal crossings. */
  lemma YInterceptNonNegative(start: Vec2, direction: Vec2, cell: Cell)
    requires direction.y != 0.0 && Ahead(start, direction, cell)
    ensures YIntercept(start, direction, cell.1 - Floor(start.y) + StepDirection(direction).1) >= 0.0
  {
    var n := cell.1 - Floor(start.y) + StepDirection(direction).1;
    var a := n as real - Fract(start.y);
    if direction.y < 0.0 {
      DivNonNegative(a + 1.0, direction.y);
    } else {
      DivNonNegative(a, direction.y);
    }
  }

  /** Crossing one more vertical grid line in the step direction lies
      `1 / |direction.x|` further along the ray. */
  lemma XInterceptNext(start: Vec2, direction: Vec2, n: int)
    requires direction.x != 0.0
    ensures var s := StepDirection(direction).0;
      XIntercept(start, direction, n + s) == XIntercept(start, direction, n) + 1.0 / Abs(direction.x)
  {
    var a := n as real - Fract(start.x);
    if direction.x < 0.0 {
      DivAddOne(-(a + 1.0), -direction.x);
      assert (a + 1.0) / direction.x == -(a + 1.0) / -direction.x;
      assert (a - 1.0 + 1.0) / direction.x == -(a + 1.0 - 1.0) / -direction.x;
    } else {
      DivAddOne(a, direction.x);
    }
  }

  /** As `XInterceptNext`, for horizontal crossings. */
  lemma YInterceptNext(start: Vec2, direction: Vec2, n: int)
    requires direction.y != 0.0
    ensures var s := StepDirection(direction).1;
      YIntercept(start, direction, n + s) == YIntercept(start, direction, n) + 1.0 / Abs(direction.y)
  {
    var a := n as real - Fract(start.y);
    if direction.y < 0.0 {
      DivAddOne(-(a + 1.0), -direction.y);
      assert (a + 1.0) / direction.y == -(a + 1.0) / -direction.y;
      assert (a - 1.0 + 1.0) / direction.y == -(a + 1.0 - 1.0) / -direction.y;
    } else {
      DivAddOne(a, direction.y);
    }
  }

  lemma ReciprocalPositive(d: real)
    requires d > 0.0
    ensures 1.0 / d > 0.0
  {
  }

  /** From a cell ahead of the origin, one iteration reports a non-negative
      distance, and the iteration after it reports a distance at least as large. */
  lemma AdvanceNonDecreasing(start: Vec2, direction: Vec2, cell: Cell)
    requires !IsAxisAligned(direction) && Ahead(start, direction, cell)
    ensures var p := Advance(start, direction, cell);
      0.0 <= p.distance <= Advance(start, direction, p.cell).distance
  {
    var step := StepDirection(direction);
    var sx, sy := cell.0 - Floor(start.x), cell.1 - Floor(start.y);
    XInterceptNonNegative(start, direction, cell);
    YInterceptNonNegative(start, direction, cell);
    XInterceptNext(start, direction, sx + step.0);
    YInterceptNext(start, direction, sy + step.1);
    ReciprocalPositive(Abs(direction.x));
    ReciprocalPositive(Abs(direction.y));
  }

  /** Along the general branch the reported distances are non-negative and
      never decrease from one iteration to a later one. */
  lemma {:induction false} GeneralDistancesNonDecreasing(start: Vec2, direction: Vec2, i: nat, j: nat)
    requires !IsAxisAligned(direction)
    requires 1 <= i <= j
    ensures 0.0 <= GeneralProbe(start, direction, i).distance <= GeneralProbe(start, direction, j).distance
  {
    if i < j {
      GeneralDistancesNonDecreasing(start, direction, i, j - 1);
      GeneralCellAhead(start, direction, j - 2);
      AdvanceNonDecreasing(start, direction, GeneralCell(start, direction, j - 2));
    } else {
      GeneralCellAhead(start, direction, i - 1);
      AdvanceNonDecreasing(start, direction, GeneralCell(start, direction, i - 1));
    }
  }

  /** Each distance the general branch reports brings the ray exactly onto the
      grid line shared by the cell it leaves and the cell it enters. */
  lemma AdvanceOnSharedEdge(start: Vec2, direction: Vec2, cell: Cell)
    requires !IsAxisAligned(direction)
    ensures var p := Advance(start, direction, cell);
      && (p.cell.0 != cell.0 ==>
            start.x + p.distance * direction.x == (if direction.x > 0.0 then p.cell.0 else cell.0) as real)
      && (p.cell.1 != cell.1 ==>
            start.y + p.distance * direction.y == (if direction.y > 0.0 then p.cell.1 else cell.1) as real)
  {
    var step := StepDirection(direction);
    var nx := cell.0 - Floor(start.x) + step.0;
    var ny := cell.1 - Floor(start.y) + step.1;
    var ax := nx as real - Fract(start.x);
    var ay := ny as real - Fract(start.y);
    DivTimes(if direction.x < 0.0 then ax + 1.0 else ax, direction.x);
    DivTimes(if direction.y < 0.0 then ay + 1.0 else ay, direction.y);
  }

  // ---------------------------------------------------------------------------
  // The cast

  /** Iteration `k` of a cast, in the branch its direction selects. */
  function CastProbe(start: Vec2, direction: Vec2, k: nat): Probe
    requires k >= 1
  {
    if IsAxisAligned(direction) then AxisProbe(start, direction, k) else GeneralProbe(start, direction, k)
  }

  /** The probes of iterations `k .. RaycastDepth - 1`, in order. */
  function ProbesFrom(start: Vec2, direction: Vec2, k: nat): (path: seq<Probe>)
    requires k >= 1
    ensures |path| == if k < RaycastDepth then RaycastDepth - k else 0
    decreases RaycastDepth - k
  {
    if k >= RaycastDepth then [] else [CastProbe(start, direction, k)] + ProbesFrom(start, direction, k + 1)
  }

  /** The probes a cast examines: one per iteration of `1..RaycastDepth`. */
  function CastPath(start: Vec2, direction: Vec2): (path: seq<Probe>)
    ensures |path| == RaycastDepth - 1
  {
    ProbesFrom(start, direction, 1)
  }

  lemma {:induction false} ProbesFromAt(start: Vec2, direction: Vec2, k: nat, j: nat)
    requires k >= 1 && k + j < RaycastDepth
    ensures ProbesFrom(start, direction, k)[j] == CastProbe(start, direction, k + j)
    decreases j
  {
    if j > 0 {
      ProbesFromAt(start, direction, k + 1, j - 1);
    }
  }

  /** Position `i` of a cast's path is iteration `i + 1`. */
  lemma CastPathAt(start: Vec2, direction: Vec2, i: nat)
    requires i < RaycastDepth - 1
    ensures CastPath(start, direction)[i] == CastProbe(start, direction, i + 1)
  {
    ProbesFromAt(start, direction, 1, i);
  }

  /** The result of casting a ray from `start` along `direction` against `walls`. */
  function CastResult(walls: seq<Cell>, start: Vec2, direction: Vec2): Option<real>
  {
    FirstHit(walls, CastPath(start, direction))
  }

  /** A cast examines at most `RaycastDepth - 1` cells. It returns `None`
      exactly when none of them is a wall, and otherwise the distance reported
      with the first of them that is; every cell tested before it is open. */
  lemma CastResultIsFirstWall(walls: seq<Cell>, start: Vec2, direction: Vec2)
    ensures var path := CastPath(start, direction);
      && |path| == RaycastDepth - 1
      && (CastResult(walls, start, direction) == None <==> forall j :: 0 <= j < |path| ==> path[j].cell !in walls)
      && (CastResult(walls, start, direction).Some? ==>
            var i := FirstWallIndex(walls, path);
            i < |path| && path[i].cell in walls && CastResult(walls, start, direction) == Some(path[i].distance))
  {
    FirstHitIsFirstWall(walls, CastPath(start, direction));
  }

  /** With a step of `(0, 0)` (a zero direction, or components of magnitude
      below 1) every iteration of the axis-aligned branch re-tests the starting
      cell: the cast hits at the initial length exactly when that cell is a wall. */
  lemma AxisZeroStepRetestsStart(walls: seq<Cell>, start: Vec2, direction: Vec2)
    requires IsAxisAligned(direction) && AxisStep(direction) == (0, 0)
    ensures CastResult(walls, start, direction) ==
      (if StartCell(start) in walls then Some(AxisInitialLength(start, direction)) else None)
  {
    var path := CastPath(start, direction);
    forall i | 0 <= i < |path| ensures path[i].cell == StartCell(start) {
      CastPathAt(start, direction, i);
      AxisCellClosedForm(start, direction, i + 1);
    }
    FirstHitIsFirstWall(walls, path);
    if StartCell(start) in walls {
      CastPathAt(start, direction, 0);
      FirstHitAt(walls, path, 0);
    }
  }

  /** A cast reports iteration `k` when its cell is a wall and no earlier iteration's cell is. */
  lemma CastHitsAt(walls: seq<Cell>, start: Vec2, direction: Vec2, k: nat)
    requires 1 <= k < RaycastDepth
    requires CastProbe(start, direction, k).cell in walls
    requires forall m :: 1 <= m < k ==> CastProbe(start, direction, m).cell !in walls
    ensures CastResult(walls, start, direction) == Some(CastProbe(start, direction, k).distance)
  {
    var path := CastPath(start, direction);
    forall j | 0 <= j < k - 1
      ensures path[j].cell !in walls
    {
      CastPathAt(start, direction, j);
    }
    CastPathAt(start, direction, k - 1);
    FirstHitAt(walls, path, k - 1);
  }

  /** A cast reports nothing when no iteration's cell is a wall. */
  lemma CastMisses(walls: seq<Cell>, start: Vec2, direction: Vec2)
    requires forall m :: 1 <= m < RaycastDepth ==> CastProbe(start, direction, m).cell !in walls
    ensures CastResult(walls, start, direction) == None
  {
    var path := CastPath(start, direction);
    forall j | 0 <= j < |path|
      ensures path[j].cell !in walls
    {
      CastPathAt(start, direction, j);
    }
    FirstHitIsFirstWall(walls, path);
  }

  /** In the axis-aligned branch the cast returns the initial length plus
      `k - 1`, where `k` is the first iteration whose cell is a wall. */
  lemma AxisCastHit(walls: seq<Cell>, start: Vec2, direction: Vec2, k: nat)
    requires IsAxisAligned(direction) && 1 <= k < RaycastDepth
    requires AxisCell(start, direction, k) in walls
    requires forall m :: 1 <= m < k ==> AxisCell(start, direction, m) !in walls
    ensures CastResult(walls, start, direction) == Some(AxisInitialLength(start, direction) + (k - 1) as real)
  {
    CastHitsAt(walls, start, direction, k);
  }

  /** Without walls every cast reports nothing. */
  lemma CastWithoutWalls(start: Vec2, direction: Vec2)
    ensures CastResult([], start, direction) == None
  {
    FirstHitIsFirstWall([], CastPath(start, direction));
  }

  /** The cast: walks the grid from the origin's cell and returns the ray
      length at the first wall cell entered, or `None` after `RaycastDepth - 1`
      cells without one. `walls` is searched linearly, as the list it is. */
  method Raycast(walls: seq<Cell>, start: Vec2, direction: Vec2) returns (r: Option<real>)
    ensures r == CastResult(walls, start, direction)
  {
    if direction.x == 0.0 || direction.y == 0.0 {
      r := RaycastAxisAligned(walls, start, direction);
    } else {
      r := RaycastGeneral(walls, start, direction);
    }
  }

  /** The result from iteration `k` on: iteration `k`'s distance when its
      cell is a wall, and otherwise the result from iteration `k + 1` on. */
  lemma CastFromStep(walls: seq<Cell>, start: Vec2, direction: Vec2, k: nat)
    requires 1 <= k < RaycastDepth
    ensures FirstHit(walls, ProbesFrom(start, direction, k)) ==
      var p := CastProbe(start, direction, k);
      if p.cell in walls then Some(p.distance) else FirstHit(walls, ProbesFrom(start, direction, k + 1))
  {
    FirstHitCons(walls, CastProbe(start, direction, k), ProbesFrom(start, direction, k + 1));
  }

  /** Iteration `k` of the axis-aligned branch moves one truncated
      direction step on from the cell of iteration `k - 1`. */
  lemma AxisProbeStep(start: Vec2, direction: Vec2, k: nat)
    requires IsAxisAligned(direction) && k >= 1
    ensures var previous := AxisCell(start, direction, k - 1);
      && AxisCell(start, direction, k) == (previous.0 + Trunc(direction.x), previous.1 + Trunc(direction.y))
      && CastProbe(start, direction, k) ==
           Probe(AxisCell(start, direction, k), AxisInitialLength(start, direction) + (k - 1) as real)
  {
  }

  /** The axis-aligned branch of `Raycast`: one `as i32`-truncated direction
      step per iteration, one unit of length per cell after the first. */
  method RaycastAxisAligned(walls: seq<Cell>, start: Vec2, direction: Vec2) returns (r: Option<real>)
    requires IsAxisAligned(direction)
    ensures r == CastResult(walls, start, direction)
  {
    var currentCell := StartCell(start);
    var rayLength := AxisStartLength(start, direction);
    for i := 1 to RaycastDepth
      invariant currentCell == AxisCell(start, direction, i - 1)
      invariant rayLength == AxisInitialLength(start, direction) + (i - 1) as real
      invariant CastResult(walls, start, direction) == FirstHit(walls, ProbesFrom(start, direction, i))
    {
      CastFromStep(walls, start, direction, i);
      AxisProbeStep(start, direction, i);
      currentCell := (currentCell.0 + Trunc(direction.x), currentCell.1 + Trunc(direction.y));
      if currentCell in walls { return Some(rayLength); }
      rayLength := rayLength + 1.0;
    }
    return None;
  }

  /** The length the axis-aligned branch starts from: the fractional part
      of the origin dotted with the direction, then its absolute value when
      negative, and 1 minus it otherwise. */
  method AxisStartLength(start: Vec2, direction: Vec2) returns (rayLength: real)
    ensures rayLength == AxisInitialLength(start, direction)
  {
    rayLength := Dot(FractVec(start), direction);
    if rayLength < 0.0 {
      rayLength := Abs(rayLength);
    } else {
      rayLength := 1.0 - rayLength;
    }
  }

  /** The general branch of `Raycast`: per iteration, step into the cell
      beyond the nearer grid-line crossing and test it. */
  method RaycastGeneral(walls: seq<Cell>, start: Vec2, direction: Vec2) returns (r: Option<real>)
    requires !IsAxisAligned(direction)
    ensures r == CastResult(walls, start, direction)
  {
    var currentCell := StartCell(start);
    var stepDirection := StepDirection(direction);
    for i := 1 to RaycastDepth
      invariant currentCell == GeneralCell(start, direction, i - 1)
      invariant CastResult(walls, start, direction) == FirstHit(walls, ProbesFrom(start, direction, i))
    {
      CastFromStep(walls, start, direction, i);
      var distance: real;
      currentCell, distance := GeneralStep(start, direction, stepDirection, currentCell);
      assert CastProbe(start, direction, i) == Probe(currentCell, distance);
      if currentCell in walls { return Some(distance); }
    }
    return None;
  }

  /** The body of one iteration of the general branch: the steps taken so
      far, the distances to the next vertical and horizontal grid lines, and
      the step across the strictly nearer one (the horizontal one on a tie). */
  method GeneralStep(start: Vec2, direction: Vec2, stepDirection: Cell, currentCell: Cell)
    returns (nextCell: Cell, distance: real)
    requires !IsAxisAligned(direction) && stepDirection == StepDirection(direction)
    ensures Probe(nextCell, distance) == Advance(start, direction, currentCell)
  {
    var stepsTaken := (currentCell.0 - Floor(start.x), currentCell.1 - Floor(start.y));
    var xInterceptDistance := XIntercept(start, direction, stepsTaken.0 + stepDirection.0);
    var yInterceptDistance := YIntercept(start, direction, stepsTaken.1 + stepDirection.1);
    if xInterceptDistance < yInterceptDistance {
      nextCell := (currentCell.0 + stepDirection.0, currentCell.1);
      distance := xInterceptDistance;
    } else {
      nextCell := (currentCell.0, currentCell.1 + stepDirection.1);
      distance := yInterceptDistance;
    }
  }
}
