/** The world the program spawns at start-up, and casts through it. */
module SampleWorld {
  import opened Options
  import opened Numerics
  import opened Raycaster
  import opened Scenarios
  import opened Scene

  /** The walls the program spawns at start-up: a closed ring of 24 cells around the origin. */
  function SampleWalls(): seq<Cell>
  {
    [(-3, -3), (-2, -3), (-1, -3), (-1, -4), (0, -4), (1, -4), (2, -4), (2, -3), (2, -2), (3, -2), (3, -1), (3, 0),
     (3, 1), (3, 2), (2, 2), (1, 2), (0, 2), (-1, 2), (-2, 2), (-3, 2), (-3, 1), (-3, 0), (-3, -1), (-3, -2)]
  }

  /** On row 0 the sample world has walls at x = -3 and x = 3 and open cells between. */
  lemma SampleWallsOnRowZero()
    ensures (3, 0) in SampleWalls() && (-3, 0) in SampleWalls()
    ensures forall x :: -2 <= x <= 2 ==> (x, 0) !in SampleWalls()
  {
    var w := SampleWalls();
    assert w[11] == (3, 0) && w[21] == (-3, 0);
    assert forall i | 0 <= i < |w| :: w[i].1 != 0 || w[i].0 == -3 || w[i].0 == 3;
  }

  /** In the sample world, from a point on the line x = 0 inside cell (0, 0),
      a ray along +x reports 3, the distance to the face of wall (3, 0). A ray
      along -x also reports 3, although the face of wall (-3, 0) is at x = -2,
      2 away: starting on a grid line and going backward, the axis-aligned
      branch reports one unit too much. */
  lemma SampleWorldAlongXAxis(start: Vec2)
    requires start.x == 0.0 && Floor(start.y) == 0
    ensures CastResult(SampleWalls(), start, Vec2(1.0, 0.0)) == Some(3.0)
    ensures CastResult(SampleWalls(), start, Vec2(-1.0, 0.0)) == Some(3.0)
  {
    SampleWallsOnRowZero();
    CastAlongRowZero(SampleWalls(), start);
  }

  /** The start-up view: a player in cell (0, 0) on the line x = 0, facing
      +x, sees at the centre column the wall (3, 0) three units away, drawn a
      third of the screen height tall with lightness 1. */
  lemma SampleWorldCentreColumn(position: Vec2, rotation: real, width: real, height: real, trig: Trig, column: int)
    requires ValidTrig(trig) && width > 0.0
    requires column as real == width / 2.0
    requires trig.atan(0.0) == 0.0 && trig.cos(0.0) == 1.0 && trig.fromAngle(0.0) == Vec2(1.0, 0.0)
    requires trig.fromAngle(rotation) == Vec2(1.0, 0.0)
    requires position.x == 0.0 && Floor(position.y) == 0
    ensures ColumnDrawAt(SampleWalls(), position, rotation, width, height, trig, column)
         == Slice(0.0, -height / 6.0, height / 6.0, 1.0)
  {
    SampleWorldAlongXAxis(position);
    CentreColumnHit(SampleWalls(), position, rotation, width, height, trig, column, 3.0);
  }
}
