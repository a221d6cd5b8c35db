/** The brick grid of one level: 6 rows of 9 bricks in row-major order, each
    row with its own colour and point value (jogo.py, create_bricks). */
module Grid {
  import opened Entities

  const ROW_COLORS: seq<Color> := [Red, Orange, Yellow, Green, Blue, Purple]
  const ROW_POINTS: seq<int> := [10, 8, 6, 4, 2, 1]

  /** Brick `i` of a fresh grid: row `i / 9`, column `i % 9`; columns are 85
      pixels apart from x = 20, rows 35 pixels apart from y = 50. */
  function GridBrick(i: int): Brick
    requires 0 <= i < 54
  {
    NewBrick((i % 9) * 85 + 20, (i / 9) * 35 + 50, ROW_COLORS[i / 9], ROW_POINTS[i / 9])
  }

  /** The grid every level starts with. */
  function FreshGrid(): seq<Brick> {
    seq(54, i requires 0 <= i < 54 => GridBrick(i))
  }

  /** A list of bricks that is a fresh grid up to which bricks are still
      visible. */
  ghost predicate GridShaped(bricks: seq<Brick>) {
    |bricks| == 54 &&
    forall i :: 0 <= i < 54 ==> bricks[i] == GridBrick(i).(visible := bricks[i].visible)
  }

  /** Whether no brick is visible any more (Python's `all(not b.visible ...)`). */
  predicate Cleared(bricks: seq<Brick>) {
    forall k :: 0 <= k < |bricks| ==> !bricks[k].visible
  }

  /** The points still to be won: the sum over the visible bricks. */
  function VisiblePoints(bricks: seq<Brick>): int {
    if bricks == [] then 0
    else (if bricks[0].visible then bricks[0].points else 0) + VisiblePoints(bricks[1..])
  }

  /** Whether two bricks' closed rectangles share a point. */
  predicate BoxesMeet(a: Brick, b: Brick) {
    a.x <= b.x + b.width && b.x <= a.x + a.width &&
    a.y <= b.y + b.height && b.y <= a.y + a.height
  }

  /** A fresh grid has 54 visible 80 x 30 bricks, brick `i` at
      ((i % 9) * 85 + 20, (i / 9) * 35 + 50) and worth [10, 8, 6, 4, 2, 1][i / 9]. */
  lemma FreshGridLayout()
    ensures GridShaped(FreshGrid())
    ensures |FreshGrid()| == 54 && !Cleared(FreshGrid())
    ensures forall i :: 0 <= i < |FreshGrid()| ==>
      var b := FreshGrid()[i];
      && b.visible && b.width == 80 && b.height == 30
      && b.x == (i % 9) * 85 + 20 && b.y == (i / 9) * 35 + 50
      && b.points == ROW_POINTS[i / 9] && b.color == ROW_COLORS[i / 9]
  {
    assert FreshGrid()[0].visible;
  }

  /** No two bricks of a grid touch: neighbours are 5 pixels apart. */
  lemma {:induction false} GridDisjoint(bricks: seq<Brick>, i: int, j: int)
    requires GridShaped(bricks)
    requires 0 <= i < 54 && 0 <= j < 54 && i != j
    ensures !BoxesMeet(bricks[i], bricks[j])
  {
    var ri, ci, rj, cj := i / 9, i % 9, j / 9, j % 9;
    assert i == 9 * ri + ci && j == 9 * rj + cj;
    assert ri != rj || ci != cj;
  }

  lemma {:induction false} VisiblePointsAppend(a: seq<Brick>, b: seq<Brick>)
    ensures VisiblePoints(a + b) == VisiblePoints(a) + VisiblePoints(b)
  {
    if a != [] {
      assert (a + b)[1..] == a[1..] + b;
      VisiblePointsAppend(a[1..], b);
    } else {
      assert a + b == b;
    }
  }

  /** A row of visible bricks all worth `p` is worth `p` per brick. */
  lemma {:induction false} VisiblePointsUniform(s: seq<Brick>, p: int)
    requires forall k :: 0 <= k < |s| ==> s[k].visible && s[k].points == p
    ensures VisiblePoints(s) == |s| * p
  {
    if s != [] {
      VisiblePointsUniform(s[1..], p);
    }
  }

  /** The value of the first `r` rows. */
  function RowsTotal(r: nat): int
    requires r <= 6
  {
    if r == 0 then 0 else RowsTotal(r - 1) + 9 * ROW_POINTS[r - 1]
  }

  lemma {:induction false} GridPrefixPoints(r: nat)
    requires r <= 6
    ensures VisiblePoints(FreshGrid()[..9 * r]) == RowsTotal(r)
  {
    if r > 0 {
      GridPrefixPoints(r - 1);
      var g := FreshGrid();
      var row := g[9 * (r - 1) .. 9 * r];
      assert g[..9 * r] == g[..9 * (r - 1)] + row;
      VisiblePointsAppend(g[..9 * (r - 1)], row);
      forall k | 0 <= k < |row|
        ensures row[k].visible && row[k].points == ROW_POINTS[r - 1]
      {
        assert row[k] == GridBrick(9 * (r - 1) + k);
        assert (9 * (r - 1) + k) / 9 == r - 1;
      }
      VisiblePointsUniform(row, ROW_POINTS[r - 1]);
    }
  }

  /** A fresh grid is worth 9 * (10 + 8 + 6 + 4 + 2 + 1) = 279 points. */
  lemma GridTotalPoints()
    ensures VisiblePoints(FreshGrid()) == 279
  {
    GridPrefixPoints(6);
    assert FreshGrid()[..54] == FreshGrid();
  }

  /** Hiding one visible brick removes exactly its points from what is left
      to win. */
  lemma {:induction false} VisiblePointsHide(bricks: seq<Brick>, i: int)
    requires 0 <= i < |bricks| && bricks[i].visible
    ensures VisiblePoints(bricks[i := bricks[i].(visible := false)])
         == VisiblePoints(bricks) - bricks[i].points
  {
    var hidden := bricks[i := bricks[i].(visible := false)];
    if i > 0 {
      assert hidden[1..] == bricks[1..][i - 1 := bricks[i].(visible := false)];
      VisiblePointsHide(bricks[1..], i - 1);
    } else {
      assert hidden[1..] == bricks[1..];
    }
  }
}
