/** Concrete casts worked through the model: a ray along a grid row, the
    iteration bound, a diagonal ray with its tie-breaks, and the sample world
    the program starts with. */
module Scenarios {
  import opened Options
  import opened Numerics
  import opened Raycaster

  /** Along +x from anywhere in cell (0, 0), the cells of row 0 are entered
      in order and a wall in cell (3, 0) is reported at exactly the distance
      to its face at x = 3. */
  lemma CastAlongRow(start: Vec2)
    requires StartCell(start) == (0, 0)
    ensures CastResult([(3, 0)], start, Vec2(1.0, 0.0)) == Some(3.0 - start.x)
  {
    var direction := Vec2(1.0, 0.0);
    assert AxisInitialLength(start, direction) == 1.0 - start.x;
    AxisCellClosedForm(start, direction, 1);
    AxisCellClosedForm(start, direction, 2);
    AxisCellClosedForm(start, direction, 3);
    AxisCastHit([(3, 0)], start, direction, 3);
  }

  /** The cast examines 99 cells: along +x from cell (0, 0) a wall in cell
      (99, 0) is still found, and a wall in cell (100, 0) is not. */
  lemma CastDepthBound(start: Vec2)
    requires StartCell(start) == (0, 0)
    ensures CastResult([(99, 0)], start, Vec2(1.0, 0.0)) == Some(99.0 - start.x)
    ensures CastResult([(100, 0)], start, Vec2(1.0, 0.0)) == None
  {
    var direction := Vec2(1.0, 0.0);
    assert AxisInitialLength(start, direction) == 1.0 - start.x;
    forall m: nat | 1 <= m < RaycastDepth
      ensures AxisCell(start, direction, m) == CastProbe(start, direction, m).cell == (m, 0)
    {
      AxisCellClosedForm(start, direction, m);
    }
    AxisCastHit([(99, 0)], start, direction, 99);
    CastMisses([(100, 0)], start, direction);
  }

  /** A diagonal ray from a point `(f, f)` of cell (0, 0): the crossings of the
      vertical and horizontal grid lines tie at every corner, and each tie
      steps along y first. The cells entered are (0, 1), (1, 1), (1, 2),
      (2, 2), and a wall in (2, 2) is reported at the ray length that reaches
      its corner (2, 2). */
  lemma CastAlongDiagonal(start: Vec2, s: real)
    requires StartCell(start) == (0, 0) && start.x == start.y
    requires s > 0.0
    ensures CastProbe(start, Vec2(s, s), 1).cell == (0, 1)
    ensures CastProbe(start, Vec2(s, s), 2).cell == (1, 1)
    ensures CastProbe(start, Vec2(s, s), 3).cell == (1, 2)
    ensures CastProbe(start, Vec2(s, s), 4).cell == (2, 2)
    ensures CastResult([(2, 2)], start, Vec2(s, s)) == Some((2.0 - start.x) / s)
  {
    var direction := Vec2(s, s);
    var f := start.x;
    assert Fract(start.x) == f && Fract(start.y) == f;
    assert XIntercept(start, direction, 1) == YIntercept(start, direction, 1) == (1.0 - f) / s;
    assert XIntercept(start, direction, 2) == YIntercept(start, direction, 2) == (2.0 - f) / s;
    assert YIntercept(start, direction, 3) == (3.0 - f) / s;
    DivLess(1.0 - f, 2.0 - f, s);
    DivLess(2.0 - f, 3.0 - f, s);
    assert GeneralCell(start, direction, 1) == (0, 1);
    assert GeneralCell(start, direction, 2) == (1, 1);
    assert GeneralCell(start, direction, 3) == (1, 2);
    assert GeneralProbe(start, direction, 4) == Probe((2, 2), (2.0 - f) / s);
    CastHitsAt([(2, 2)], start, direction, 4);
  }

  lemma DivLess(a: real, b: real, d: real)
    requires a < b && d > 0.0
    ensures a / d < b / d
  {
  }

  /** From a point on the line x = 0 inside cell (0, 0), with walls at
      (3, 0) and (-3, 0) and open cells between, casts along +x and -x both
      report 3. */
  lemma CastAlongRowZero(walls: seq<Cell>, start: Vec2)
    requires start.x == 0.0 && Floor(start.y) == 0
    requires (3, 0) in walls && (-3, 0) in walls
    requires forall x :: -2 <= x <= 2 ==> (x, 0) !in walls
    ensures CastResult(walls, start, Vec2(1.0, 0.0)) == Some(3.0)
    ensures CastResult(walls, start, Vec2(-1.0, 0.0)) == Some(3.0)
  {
    CastAlongRowZeroToward(walls, start, 1);
    CastAlongRowZeroToward(walls, start, -1);
  }

  /** One half of `CastAlongRowZero`: the cast along `sign` times x. */
  lemma CastAlongRowZeroToward(walls: seq<Cell>, start: Vec2, sign: int)
    requires sign == 1 || sign == -1
    requires start.x == 0.0 && Floor(start.y) == 0
    requires (3 * sign, 0) in walls
    requires forall x :: -2 <= x <= 2 ==> (x, 0) !in walls
    ensures CastResult(walls, start, Vec2(sign as real, 0.0)) == Some(3.0)
  {
    var direction := Vec2(sign as real, 0.0);
    AxisInitialLengthOnGridLine(start, direction);
    AxisCellClosedForm(start, direction, 1);
    AxisCellClosedForm(start, direction, 2);
    AxisCellClosedForm(start, direction, 3);
    AxisCastHit(walls, start, direction, 3);
  }
}
