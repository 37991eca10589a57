/** The renderer's per-column pass: for each screen column it casts a ray at
    that column's angle and, on a hit, draws a vertical wall slice whose
    height falls off with distance and whose lightness is `3 / distance`.
    The trigonometric functions and the unit vector of an angle come in as
    parameters, and the drawing calls are modelled as one draw per column. */
module Scene {
  import opened Options
  import opened Numerics
  import opened Raycaster
  import opened PlayerControl

  /** The horizontal field of view: a quarter turn. */
  const Fov: real := Pi / 2.0

  /** The trigonometry the renderer calls, as the host's math library computes it. */
  datatype Trig = Trig(tan: real -> real, atan: real -> real, cos: real -> real, fromAngle: real -> Vec2)

  /** What the renderer needs of the trigonometry: the tangent of half the
      field of view, which it divides by, is positive (it is 1). */
  predicate ValidTrig(trig: Trig)
  {
    trig.tan(Fov / 2.0) > 0.0
  }

  /** What one column draws: nothing when its ray hits no wall; a vertical
      line at `x` from `bottom` to `top` with the given lightness; or, when
      the hit distance times the column's cosine is 0, a line of unbounded
      height, which floating point draws from infinity to infinity. */
  datatype ColumnDraw =
    | NoWall
    | Slice(x: real, bottom: real, top: real, lightness: real)
    | Unbounded(x: real)

  /** The focal length in pixels: the screen's half width over the tangent of half the field of view. */
  function Focal(width: real, trig: Trig): (focal: real)
    requires ValidTrig(trig)
    ensures width > 0.0 ==> focal > 0.0
    ensures focal * (2.0 * trig.tan(Fov / 2.0)) == width
  {
    width / (2.0 * trig.tan(Fov / 2.0))
  }

  /** The angle of a column's ray away from the view direction: the arctangent
      of the column's offset from the screen centre over the focal length. */
  function ColumnAngle(column: int, width: real, trig: Trig): real
    requires ValidTrig(trig) && width > 0.0
  {
    trig.atan((column as real - width / 2.0) / Focal(width, trig))
  }

  /** The direction of a column's ray: the unit vector of its angle, rotated by the player's heading. */
  function RayDirection(column: int, width: real, rotation: real, trig: Trig): Vec2
    requires ValidTrig(trig) && width > 0.0
  {
    Rotate(trig.fromAngle(ColumnAngle(column, width, trig)), trig.fromAngle(rotation))
  }

  /** The slice drawn for a hit at `distance` in a column whose angle has
      cosine `cosAngle`: centred vertically on the screen, as tall as the
      screen height over the distance corrected by the cosine, at horizontal
      position `width / 2 - column`, with lightness `3 / distance`. */
  function WallSlice(column: int, width: real, height: real, distance: real, cosAngle: real): (draw: ColumnDraw)
    ensures draw != NoWall
    ensures draw.x == width / 2.0 - column as real
    ensures draw.Unbounded? <==> distance * cosAngle == 0.0
    ensures draw.Slice? ==>
      && draw.top == -draw.bottom
      && (draw.top - draw.bottom) * (distance * cosAngle) == height
      && draw.lightness * distance == 3.0
  {
    var x := width / 2.0 - column as real;
    if distance * cosAngle == 0.0 then Unbounded(x)
    else
      var size := height / (distance * cosAngle);
      Slice(x, -size / 2.0, size / 2.0, 3.0 / distance)
  }

  /** What column `column` draws for a player at `position` facing `rotation`. */
  function ColumnDrawAt(walls: seq<Cell>, position: Vec2, rotation: real, width: real, height: real,
                        trig: Trig, column: int): ColumnDraw
    requires ValidTrig(trig) && width > 0.0
  {
    match CastResult(walls, position, RayDirection(column, width, rotation, trig))
    case None => NoWall
    case Some(distance) => WallSlice(column, width, height, distance, trig.cos(ColumnAngle(column, width, trig)))
  }

  /** The draws of columns `0 .. count - 1`, in order. */
  function ColumnDraws(walls: seq<Cell>, position: Vec2, rotation: real, width: real, height: real,
                       trig: Trig, count: nat): (draws: seq<ColumnDraw>)
    requires ValidTrig(trig) && (count == 0 || width > 0.0)
    ensures |draws| == count
  {
    if count == 0 then []
    else ColumnDraws(walls, position, rotation, width, height, trig, count - 1)
         + [ColumnDrawAt(walls, position, rotation, width, height, trig, count - 1)]
  }

  /** Entry `i` of the pass is column `i`'s own draw. */
  lemma {:induction false} ColumnDrawsAt(walls: seq<Cell>, position: Vec2, rotation: real, width: real, height: real,
                                         trig: Trig, count: nat, i: nat)
    requires ValidTrig(trig) && width > 0.0 && i < count
    ensures ColumnDraws(walls, position, rotation, width, height, trig, count)[i]
         == ColumnDrawAt(walls, position, rotation, width, height, trig, i)
  {
    var prefix := ColumnDraws(walls, position, rotation, width, height, trig, count - 1);
    var last := ColumnDrawAt(walls, position, rotation, width, height, trig, count - 1);
    assert ColumnDraws(walls, position, rotation, width, height, trig, count) == prefix + [last];
    if i == count - 1 {
      assert (prefix + [last])[i] == last;
    } else {
      ColumnDrawsAt(walls, position, rotation, width, height, trig, count - 1, i);
      assert (prefix + [last])[i] == prefix[i];
    }
  }

  /** The number of columns rendered: the window width cast with `as i32`,
      which makes the range of columns empty when it is not positive. */
  function ColumnCount(width: real): (n: nat)
    ensures n > 0 ==> width >= n as real
    ensures width >= 1.0 ==> n > 0
    ensures n as real <= width || n == 0
    ensures width >= 0.0 ==> n as real <= width < n as real + 1.0
  {
    if Trunc(width) > 0 then Trunc(width) else 0
  }

  /** The per-column pass: one cast and one draw per column, left to right. */
  method DrawScene(walls: seq<Cell>, player: Transform, width: real, height: real, trig: Trig)
    returns (draws: seq<ColumnDraw>)
    requires ValidTrig(trig)
    ensures draws == ColumnDraws(walls, player.position, player.rotation, width, height, trig, ColumnCount(width))
  {
    draws := [];
    var columns := ColumnCount(width);
    var column := 0;
    while column < columns
      invariant column <= columns
      invariant draws == ColumnDraws(walls, player.position, player.rotation, width, height, trig, column)
    {
      var draw := DrawColumn(walls, player, width, height, trig, column);
      assert ColumnDraws(walls, player.position, player.rotation, width, height, trig, column + 1) == draws + [draw];
      draws := draws + [draw];
      column := column + 1;
    }
  }

  /** One column of the pass: its ray's angle and direction, the cast, and
      the slice when the cast hits. */
  method DrawColumn(walls: seq<Cell>, player: Transform, width: real, height: real, trig: Trig, column: int)
    returns (draw: ColumnDraw)
    requires ValidTrig(trig) && width > 0.0
    ensures draw == ColumnDrawAt(walls, player.position, player.rotation, width, height, trig, column)
  {
    var angle := ColumnAngle(column, width, trig);
    var rayDirection := RayDirection(column, width, player.rotation, trig);

    var wallDistance := Raycast(walls, player.position, rayDirection);

    if wallDistance.Some? {
      draw := WallSlice(column, width, height, wallDistance.value, trig.cos(angle));
    } else {
      draw := NoWall;
    }
  }

  /** Each column draws what a cast along its own ray finds: nothing exactly
      when the cast reports no wall, and otherwise a line at `width / 2 - column`. */
  lemma ColumnDrawMatchesCast(walls: seq<Cell>, position: Vec2, rotation: real, width: real, height: real,
                              trig: Trig, column: int)
    requires ValidTrig(trig) && width > 0.0
    ensures var draw := ColumnDrawAt(walls, position, rotation, width, height, trig, column);
      var cast := CastResult(walls, position, RayDirection(column, width, rotation, trig));
      && (draw == NoWall <==> cast == None)
      && (cast.Some? ==> draw.x == width / 2.0 - column as real)
  {
  }

  /** Nearer walls are drawn brighter: lightness strictly decreases with distance. */
  lemma NearerIsBrighter(column: int, width: real, height: real, d1: real, d2: real, cosAngle: real)
    requires 0.0 < d1 < d2 && cosAngle != 0.0
    ensures WallSlice(column, width, height, d1, cosAngle).lightness > WallSlice(column, width, height, d2, cosAngle).lightness
  {
    ReciprocalDecreases(3.0, d1, d2);
  }

  /** Within a column, nearer walls are drawn taller. */
  lemma NearerIsTaller(column: int, width: real, height: real, d1: real, d2: real, cosAngle: real)
    requires 0.0 < d1 < d2 && cosAngle > 0.0 && height > 0.0
    ensures var s1 := WallSlice(column, width, height, d1, cosAngle);
      var s2 := WallSlice(column, width, height, d2, cosAngle);
      s1.top - s1.bottom > s2.top - s2.bottom > 0.0
  {
    var p1, p2 := d1 * cosAngle, d2 * cosAngle;
    assert 0.0 < p1 < p2;
    ReciprocalDecreases(height, p1, p2);
    QuotientPositive(height, p2);
  }

  lemma ReciprocalDecreases(k: real, a: real, b: real)
    requires k > 0.0 && 0.0 < a < b
    ensures k / a > k / b
  {
  }

  lemma QuotientPositive(k: real, a: real)
    requires k > 0.0 && a > 0.0
    ensures k / a > 0.0
  {
  }

  /** The column at the screen centre looks straight ahead: when the
      arctangent of 0 is 0 and the cosine of 0 is 1, its ray is the heading's
      unit vector and its slice is the screen height over the distance. */
  lemma CentreColumn(walls: seq<Cell>, position: Vec2, rotation: real, width: real, height: real,
                     trig: Trig, column: int)
    requires ValidTrig(trig) && width > 0.0
    requires column as real == width / 2.0
    requires trig.atan(0.0) == 0.0 && trig.cos(0.0) == 1.0 && trig.fromAngle(0.0) == Vec2(1.0, 0.0)
    ensures RayDirection(column, width, rotation, trig) == trig.fromAngle(rotation)
    ensures var draw := ColumnDrawAt(walls, position, rotation, width, height, trig, column);
      match CastResult(walls, position, trig.fromAngle(rotation))
      case None => draw == NoWall
      case Some(d) => draw == WallSlice(column, width, height, d, 1.0) && (d != 0.0 ==> draw.top - draw.bottom == height / d)
  {
    assert ColumnAngle(column, width, trig) == 0.0;
    RotateUnitX(trig.fromAngle(rotation));
  }

  /** A centre-column hit at a positive distance `d`, when the arctangent
      of 0 is 0 and the cosine of 0 is 1: the slice spans `height / d`
      centred on the screen, at x = 0, with lightness `3 / d`. */
  lemma CentreColumnHit(walls: seq<Cell>, position: Vec2, rotation: real, width: real, height: real,
                        trig: Trig, column: int, d: real)
    requires ValidTrig(trig) && width > 0.0
    requires column as real == width / 2.0
    requires trig.atan(0.0) == 0.0 && trig.cos(0.0) == 1.0 && trig.fromAngle(0.0) == Vec2(1.0, 0.0)
    requires CastResult(walls, position, trig.fromAngle(rotation)) == Some(d) && d > 0.0
    ensures ColumnDrawAt(walls, position, rotation, width, height, trig, column)
         == Slice(0.0, -height / (2.0 * d), height / (2.0 * d), 3.0 / d)
  {
    CentreColumn(walls, position, rotation, width, height, trig, column);
  }
}
