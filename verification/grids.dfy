/** The 2D grid of cells, indexed `[row = y][column = x]`, with bounded reads
    and writes and cell counting. */
module Grids {
  import opened Enums

  type Grid = seq<seq<Cell>>

  /** `g` has `h` rows of `w` columns each. */
  ghost predicate Shaped<T>(g: seq<seq<T>>, w: int, h: int) {
    |g| == h && forall y :: 0 <= y < h ==> |g[y]| == w
  }

  predicate InBounds(w: int, h: int, x: int, y: int) {
    0 <= x < w && 0 <= y < h
  }

  /** Writes `c` at column `x`, row `y`; every other coordinate keeps its cell. */
  function Put(g: Grid, w: int, h: int, x: int, y: int, c: Cell): (r: Grid)
    requires Shaped(g, w, h) && InBounds(w, h, x, y)
    ensures Shaped(r, w, h)
    ensures r[y][x] == c
    ensures forall y', x' :: InBounds(w, h, x', y') && (x', y') != (x, y) ==> r[y'][x'] == g[y'][x']
  {
    g[y := g[y][x := c]]
  }

  /** Number of entries of `row` equal to `c`. */
  function CountRow(row: seq<Cell>, c: Cell): nat {
    if |row| == 0 then 0 else (if row[0] == c then 1 else 0) + CountRow(row[1..], c)
  }

  /** Number of coordinates of `g` holding `c` (numpy's `len(grid[grid == c])`). */
  function Count(g: Grid, c: Cell): nat {
    if |g| == 0 then 0 else CountRow(g[0], c) + Count(g[1..], c)
  }

  function Indicator(b: bool): nat {
    if b then 1 else 0
  }

  lemma {:induction false} CountRowUpdate(row: seq<Cell>, x: int, v: Cell, c: Cell)
    requires 0 <= x < |row|
    ensures CountRow(row[x := v], c) == CountRow(row, c) - Indicator(row[x] == c) + Indicator(v == c)
  {
    if x == 0 {
      assert row[x := v][1..] == row[1..];
    } else {
      assert row[x := v][1..] == row[1..][x - 1 := v];
      CountRowUpdate(row[1..], x - 1, v, c);
    }
  }

  lemma {:induction false} CountUpdate(g: Grid, y: int, row: seq<Cell>, c: Cell)
    requires 0 <= y < |g|
    ensures Count(g[y := row], c) == Count(g, c) - CountRow(g[y], c) + CountRow(row, c)
  {
    if y == 0 {
      assert g[y := row][1..] == g[1..];
    } else {
      assert g[y := row][1..] == g[1..][y - 1 := row];
      CountUpdate(g[1..], y - 1, row, c);
    }
  }

  /** Writing one cell changes the count of `c` by the cell that left and
      the cell that arrived, and by nothing else. */
  lemma CountPut(g: Grid, w: int, h: int, x: int, y: int, v: Cell, c: Cell)
    requires Shaped(g, w, h) && InBounds(w, h, x, y)
    ensures Count(Put(g, w, h, x, y, v), c) == Count(g, c) - Indicator(g[y][x] == c) + Indicator(v == c)
  {
    CountRowUpdate(g[y], x, v, c);
    CountUpdate(g, y, g[y][x := v], c);
  }

  lemma {:induction false} CountRowZero(row: seq<Cell>, c: Cell)
    ensures CountRow(row, c) == 0 <==> forall x :: 0 <= x < |row| ==> row[x] != c
  {
    if |row| > 0 {
      CountRowZero(row[1..], c);
      assert forall x :: 1 <= x < |row| ==> row[x] == row[1..][x - 1];
    }
  }

  /** A grid counts no `c` exactly when no coordinate holds `c`. */
  lemma {:induction false} CountZero(g: Grid, w: int, h: int, c: Cell)
    requires Shaped(g, w, h)
    ensures Count(g, c) == 0 <==> forall y, x :: InBounds(w, h, x, y) ==> g[y][x] != c
  {
    if |g| > 0 {
      CountRowZero(g[0], c);
      CountZero(g[1..], w, h - 1, c);
      assert forall y :: 1 <= y < |g| ==> g[y] == g[1..][y - 1];
    }
  }
  lemma {:induction false} CountRowGrows(row: seq<Cell>, row': seq<Cell>, c: Cell)
    requires |row'| == |row|
    requires forall x :: 0 <= x < |row| ==> row'[x] == row[x] || row'[x] == c
    ensures CountRow(row', c) >= CountRow(row, c)
  {
    if |row| > 0 {
      assert forall x :: 0 <= x < |row| - 1 ==> row'[1..][x] == row'[x + 1] && row[1..][x] == row[x + 1];
      CountRowGrows(row[1..], row'[1..], c);
    }
  }

  /** A change that only ever writes `c` never lowers the count of `c`. */
  lemma {:induction false} CountGrows(g: Grid, g': Grid, w: int, h: int, c: Cell)
    requires Shaped(g, w, h) && Shaped(g', w, h)
    requires forall y, x :: InBounds(w, h, x, y) ==> g'[y][x] == g[y][x] || g'[y][x] == c
    ensures Count(g', c) >= Count(g, c)
  {
    if |g| > 0 {
      CountRowGrows(g[0], g'[0], c);
      assert forall y :: 0 <= y < |g| - 1 ==> g'[1..][y] == g'[y + 1] && g[1..][y] == g[y + 1];
      CountGrows(g[1..], g'[1..], w, h - 1, c);
    }
  }
}
