/** `np.rot90(grid, k)` for k in 0..3 as index arithmetic over a grid of
    `h` rows and `w` columns, and the coordinate bookkeeping the field of
    view needs: where a world cell lands in the rotated grid and back. */
module Rotation {
  import opened Grids

  /** Rows of the grid after `k` quarter turns. */
  function RotatedRows(w: int, h: int, k: int): int {
    if k % 2 == 1 then w else h
  }

  /** Columns of the grid after `k` quarter turns. */
  function RotatedCols(w: int, h: int, k: int): int {
    if k % 2 == 1 then h else w
  }

  /** Row and column, in the rotated grid, of world cell `(x, y)`. */
  function RotatedCoords(w: int, h: int, k: int, x: int, y: int): (int, int) {
    if k == 1 then (w - 1 - x, y)
    else if k == 2 then (h - 1 - y, w - 1 - x)
    else if k == 3 then (x, h - 1 - y)
    else (y, x)
  }

  /** World column and row `(x, y)` shown at row `i`, column `j` of the rotated grid. */
  function WorldCoords(w: int, h: int, k: int, i: int, j: int): (int, int) {
    if k == 1 then (w - 1 - i, j)
    else if k == 2 then (w - 1 - j, h - 1 - i)
    else if k == 3 then (i, h - 1 - j)
    else (j, i)
  }

  /** The two coordinate maps are inverse to each other and match the two
      bounding boxes exactly: a rotated index is in range iff its world
      cell is. */
  lemma CoordsInverse(w: int, h: int, k: int, x: int, y: int, i: int, j: int)
    requires 0 <= k < 4
    ensures RotatedCoords(w, h, k, x, y) == (i, j) <==> WorldCoords(w, h, k, i, j) == (x, y)
    ensures WorldCoords(w, h, k, i, j) == (x, y) ==>
              (InBounds(w, h, x, y) <==> InBounds(RotatedCols(w, h, k), RotatedRows(w, h, k), j, i))
  {
  }

  /** `np.rot90(g, k)`: rotates counter-clockwise `k` times. */
  function Rot90<T>(g: seq<seq<T>>, w: nat, h: nat, k: int): (r: seq<seq<T>>)
    requires Shaped(g, w, h) && 0 <= k < 4
    ensures Shaped(r, RotatedCols(w, h, k), RotatedRows(w, h, k))
  {
    if k == 1 then
      seq(w, i requires 0 <= i < w => seq(h, j requires 0 <= j < h => g[j][w - 1 - i]))
    else if k == 2 then
      seq(h, i requires 0 <= i < h => seq(w, j requires 0 <= j < w => g[h - 1 - i][w - 1 - j]))
    else if k == 3 then
      seq(w, i requires 0 <= i < w => seq(h, j requires 0 <= j < h => g[h - 1 - j][i]))
    else
      g
  }

  /** Every world cell reappears in the rotated grid at `RotatedCoords`. */
  lemma Rot90Keeps<T>(g: seq<seq<T>>, w: nat, h: nat, k: int, x: int, y: int)
    requires Shaped(g, w, h) && 0 <= k < 4 && InBounds(w, h, x, y)
    ensures var (i, j) := RotatedCoords(w, h, k, x, y);
            InBounds(RotatedCols(w, h, k), RotatedRows(w, h, k), j, i) && Rot90(g, w, h, k)[i][j] == g[y][x]
  {
    var r := Rot90(g, w, h, k);
    if k == 1 {
      assert r[w - 1 - x][y] == g[y][w - 1 - (w - 1 - x)];
    } else if k == 2 {
      assert r[h - 1 - y][w - 1 - x] == g[h - 1 - (h - 1 - y)][w - 1 - (w - 1 - x)];
    } else if k == 3 {
      assert r[x][h - 1 - y] == g[h - 1 - (h - 1 - y)][x];
    }
  }

  /** Every cell of the rotated grid shows the world cell `WorldCoords` names. */
  lemma Rot90At<T>(g: seq<seq<T>>, w: nat, h: nat, k: int, i: int, j: int)
    requires Shaped(g, w, h) && 0 <= k < 4
    requires InBounds(RotatedCols(w, h, k), RotatedRows(w, h, k), j, i)
    ensures var (x, y) := WorldCoords(w, h, k, i, j);
            InBounds(w, h, x, y) && Rot90(g, w, h, k)[i][j] == g[y][x]
  {
    var r := Rot90(g, w, h, k);
    if k == 1 {
      assert r[i][j] == g[j][w - 1 - i];
    } else if k == 2 {
      assert r[i][j] == g[h - 1 - i][w - 1 - j];
    } else if k == 3 {
      assert r[i][j] == g[h - 1 - j][i];
    }
  }

  /** The grid of `(row, column)` pairs the source rotates alongside the
      cells to find the agent again. */
  function CoordGrid(w: nat, h: nat): (r: seq<seq<(int, int)>>)
    ensures Shaped(r, w, h)
  {
    seq(h, y => seq(w, x => (y, x)))
  }

  /** The `argwhere` lookup: in the rotated coordinate grid, the pair `(y, x)`
      sits at `RotatedCoords(x, y)` and nowhere else, so the first match is
      that position. */
  lemma LocateInRotated(w: nat, h: nat, k: int, x: int, y: int, i: int, j: int)
    requires 0 <= k < 4 && InBounds(w, h, x, y)
    requires InBounds(RotatedCols(w, h, k), RotatedRows(w, h, k), j, i)
    ensures Rot90(CoordGrid(w, h), w, h, k)[i][j] == (y, x) <==> RotatedCoords(w, h, k, x, y) == (i, j)
  {
    Rot90At(CoordGrid(w, h), w, h, k, i, j);
    var (x', y') := WorldCoords(w, h, k, i, j);
    CoordsInverse(w, h, k, x, y, i, j);
    CoordsInverse(w, h, k, x', y', i, j);
  }
}
