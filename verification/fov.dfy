/** Field-of-view extraction (`_pad_grid`, `_extract_fov`, `_get_observation`):
    the grid is rotated so that the agent looks "down" the rotated rows, padded
    with EMPTY cells, and a window `front` rows deep and `2 * side + 1` columns
    wide is cut out starting at the agent's own row, then coloured. */
module Fov {
  import opened Wrappers
  import opened Enums
  import opened Poses
  import opened Grids
  import opened Rotation

  /** Quarter turns applied for each orientation: DOWN 0, LEFT 1, UP 2, RIGHT 3. */
  function QuarterTurns(o: Orientation): (k: int)
    ensures 0 <= k < 4
  {
    match o
    case Left => 1
    case Up => 2
    case Right => 3
    case Down => 0
  }

  /** Pad widths `(before, after)` along one axis for a window reaching
      `span` cells on either side of `coord` on an axis of length `dim`. */
  function PadWidths(coord: int, span: int, dim: int): (int, int) {
    (if coord - span < 0 then span - coord else 0,
     if coord + span - dim + 1 > 0 then coord + span - dim + 1 else 0)
  }

  /** The pads are never negative and, when `dim` is the true length of the
      axis and `coord` lies on it, the padded axis holds the whole window
      `[coord - span, coord + span]`. */
  lemma PadWidthsCover(coord: int, span: int, dim: int)
    requires 0 <= coord < dim && 0 <= span
    ensures var (lo, hi) := PadWidths(coord, span, dim);
            0 <= lo && 0 <= hi &&
            lo + coord - span >= 0 && lo + coord + span < lo + dim + hi
  {
  }

  /** `np.pad(..., mode="constant")` of a `rows` x `cols` grid with `fill`. */
  function Pad(g: Grid, cols: nat, rows: nat, xPad: (nat, nat), yPad: (nat, nat), fill: Cell)
    : (r: Grid)
    requires Shaped(g, cols, rows)
    ensures Shaped(r, xPad.0 + cols + xPad.1, yPad.0 + rows + yPad.1)
  {
    seq(yPad.0 + rows + yPad.1, a requires 0 <= a < yPad.0 + rows + yPad.1 =>
      seq(xPad.0 + cols + xPad.1, b requires 0 <= b < xPad.0 + cols + xPad.1 =>
        if InBounds(cols, rows, b - xPad.0, a - yPad.0) then g[a - yPad.0][b - xPad.0] else fill))
  }

  /** The padded grid holds the original shifted by the leading pads, and
      `fill` everywhere else. */
  lemma PadAt(g: Grid, cols: nat, rows: nat, xPad: (nat, nat), yPad: (nat, nat), fill: Cell, a: int, b: int)
    requires Shaped(g, cols, rows)
    requires InBounds(xPad.0 + cols + xPad.1, yPad.0 + rows + yPad.1, b, a)
    ensures InBounds(cols, rows, b - xPad.0, a - yPad.0) ==>
              Pad(g, cols, rows, xPad, yPad, fill)[a][b] == g[a - yPad.0][b - xPad.0]
    ensures !InBounds(cols, rows, b - xPad.0, a - yPad.0) ==> Pad(g, cols, rows, xPad, yPad, fill)[a][b] == fill
  {
  }

  /** `_pad_grid`: pads around `(x, y)` with reaches `xl`, `yl`, measuring the
      axes as `dimX` and `dimY` (the source passes the unrotated grid width
      and height here, whatever the rotation). Returns the pad widths too. */
  function PadGrid(g: seq<seq<Cell>>, cols: nat, rows: nat, x: int, y: int, xl: int, yl: int, dimX: int, dimY: int)
    : (r: (seq<seq<Cell>>, (nat, nat), (nat, nat)))
    requires Shaped(g, cols, rows)
    ensures r.1 == PadWidths(x, xl, dimX) && r.2 == PadWidths(y, yl, dimY)
    ensures Shaped(r.0, r.1.0 + cols + r.1.1, r.2.0 + rows + r.2.1)
  {
    var (xlo, xhi) := PadWidths(x, xl, dimX);
    var (ylo, yhi) := PadWidths(y, yl, dimY);
    var xPad: (nat, nat) := (xlo, xhi);
    var yPad: (nat, nat) := (ylo, yhi);
    (Pad(g, cols, rows, xPad, yPad, Empty), xPad, yPad)
  }

  /** Length of numpy's `s[a:b]` on an axis of length `len`, for `0 <= a`. */
  function SliceLen(len: nat, a: nat, b: int): nat {
    var lo := if a < len then a else len;
    var hi := if b < lo then lo else if b < len then b else len;
    hi - lo
  }

  /** numpy's `s[a:b]` for `0 <= a`: both bounds are clipped to the length. */
  function Slice<T>(s: seq<T>, a: nat, b: int): (r: seq<T>)
    ensures |r| == SliceLen(|s|, a, b)
    ensures forall i :: 0 <= i < |r| ==> r[i] == s[a + i]
  {
    var lo := if a < |s| then a else |s|;
    var hi := if b < lo then lo else if b < |s| then b else |s|;
    s[lo..hi]
  }

  datatype FovError = IncorrectShape | EmptyFieldOfView

  /** The world coordinates seen `i` rows ahead of the agent and `d` columns
      towards its left: `i` steps along the forward axis, `d` along the left one. */
  function ViewCoords(p: Pose, i: int, d: int): (int, int) {
    match p.o
    case Up => (p.x - d, p.y - i)
    case Right => (p.x + i, p.y - d)
    case Down => (p.x + d, p.y + i)
    case Left => (p.x - i, p.y + d)
  }

  /** Offsets are steps along the pose's own axes: one row further is one
      step forward, one column further is one step to the left. */
  lemma ViewCoordsFollowSteps(p: Pose, i: int, d: int)
    ensures var q := Pose(ViewCoords(p, i, d).0, ViewCoords(p, i, d).1, p.o);
            ViewCoords(p, i + 1, d) == (MoveForward(q).x, MoveForward(q).y) &&
            ViewCoords(p, i, d + 1) == (MoveLeft(q).x, MoveLeft(q).y)
  {
  }

  /** What the agent should see at that offset: the world cell, or EMPTY off the grid. */
  function ViewCell(g: Grid, w: nat, h: nat, p: Pose, i: int, d: int): Cell
    requires Shaped(g, w, h)
  {
    var (x, y) := ViewCoords(p, i, d);
    if InBounds(w, h, x, y) then g[y][x] else Empty
  }

  /** The world cell shown at row `i`, column `j` of the grid turned `k`
      quarter turns, or `fill` when that position lies outside it. */
  function WorldCell(g: Grid, w: nat, h: nat, k: int, i: int, j: int, fill: Cell): Cell
    requires Shaped(g, w, h)
  {
    var (x, y) := WorldCoords(w, h, k, i, j);
    if InBounds(w, h, x, y) then g[y][x] else fill
  }

  /** Rotating, locating the agent and offsetting within the rotated grid
      lands on `ViewCoords`. */
  lemma RotatedViewCoords(w: nat, h: nat, p: Pose, i: int, d: int)
    ensures var k := QuarterTurns(p.o);
            var (ry, rx) := RotatedCoords(w, h, k, p.x, p.y);
            WorldCoords(w, h, k, ry + i, rx + d) == ViewCoords(p, i, d)
  {
  }

  /** Hence a view cell is the cell the rotated grid shows at the agent's
      rotated position offset by `i` rows and `d` columns. */
  lemma ViewCellRotated(g: Grid, w: nat, h: nat, p: Pose, k: int, ry: int, rx: int, i: int, d: int, ri: int, rj: int)
    requires Shaped(g, w, h)
    requires k == QuarterTurns(p.o) && (ry, rx) == RotatedCoords(w, h, k, p.x, p.y)
    requires ri == ry + i && rj == rx + d
    ensures ViewCell(g, w, h, p, i, d) == WorldCell(g, w, h, k, ri, rj, Empty)
  {
    RotatedViewCoords(w, h, p, i, d);
  }

  /** The bookkeeping of one extraction: quarter turns, rotated grid size,
      the agent's rotated row and column, pad widths and crop origin. */
  datatype Window = Window(k: int, rows: nat, cols: nat, ry: nat, rx: nat,
                           xPad: (nat, nat), yPad: (nat, nat), sx: nat, sy: nat)
  {
    function PaddedRows(): nat { yPad.0 + rows + yPad.1 }
    function PaddedCols(): nat { xPad.0 + cols + xPad.1 }
  }

  /** The window of an agent at `p`, with pad axes measured as `dimX` by `dimY`;
      the reach along rows is `front + k % 2`, as in the source. */
  function WindowOf(w: nat, h: nat, p: Pose, front: nat, side: nat, dimX: int, dimY: int): (win: Window)
    requires InBounds(w, h, p.x, p.y)
    ensures win.k == QuarterTurns(p.o)
    ensures win.rows == RotatedRows(w, h, win.k) && win.cols == RotatedCols(w, h, win.k)
    ensures (win.ry, win.rx) == RotatedCoords(w, h, win.k, p.x, p.y)
    ensures win.ry < win.rows && win.rx < win.cols
    ensures win.xPad == PadWidths(win.rx, side, dimX)
    ensures win.yPad == PadWidths(win.ry, front + win.k % 2, dimY)
    ensures win.sx == win.xPad.0 + win.rx - side && win.sy == win.yPad.0 + win.ry
  {
    var k := QuarterTurns(p.o);
    var (ry, rx) := RotatedCoords(w, h, k, p.x, p.y);
    CoordsInverse(w, h, k, p.x, p.y, ry, rx);
    var (xlo, xhi) := PadWidths(rx, side, dimX);
    var (ylo, yhi) := PadWidths(ry, front + k % 2, dimY);
    Window(k, RotatedRows(w, h, k), RotatedCols(w, h, k), ry, rx, (xlo, xhi), (ylo, yhi),
           xlo + rx - side, ylo + ry)
  }

  /** The source's assertion: the cropped array is `front` x `2 * side + 1`. */
  predicate ShapeOk(win: Window, front: nat, side: nat) {
    SliceLen(win.PaddedRows(), win.sy, win.sy + front) == front &&
    SliceLen(win.PaddedCols(), win.sx, win.sx + 2 * side + 1) == 2 * side + 1
  }

  /** `padded[sy:sy + depth, sx:sx + breadth]` with numpy's clipping. */
  function Crop(padded: Grid, pc: nat, pr: nat, sy: nat, sx: nat, depth: nat, breadth: nat): (r: Grid)
    requires Shaped(padded, pc, pr)
    ensures SliceLen(pr, sy, sy + depth) == depth && SliceLen(pc, sx, sx + breadth) == breadth ==>
              Shaped(r, breadth, depth)
  {
    var band := Slice(padded, sy, sy + depth);
    seq(|band|, i requires 0 <= i < |band| => Slice(band[i], sx, sx + breadth))
  }

  /** When neither axis was clipped, the crop is the `depth` x `breadth`
      block of `padded` at `(sy, sx)`. */
  lemma CropAt(padded: Grid, pc: nat, pr: nat, sy: nat, sx: nat, depth: nat, breadth: nat, i: int, j: int,
               a: int, b: int)
    requires Shaped(padded, pc, pr)
    requires SliceLen(pr, sy, sy + depth) == depth && SliceLen(pc, sx, sx + breadth) == breadth
    requires 0 <= i < depth && 0 <= j < breadth && a == sy + i && b == sx + j
    ensures 0 <= a < pr && 0 <= b < pc
    ensures Crop(padded, pc, pr, sy, sx, depth, breadth)[i][j] == padded[a][b]
  {
  }

  /** `_extract_fov` with the pad axes measured as `dimX` by `dimY`: fails
      exactly when the source's shape assertion does. */
  function ExtractFovWith(g: Grid, w: nat, h: nat, p: Pose, front: nat, side: nat, dimX: int, dimY: int)
    : (r: Result<seq<seq<Cell>>, FovError>)
    requires Shaped(g, w, h) && InBounds(w, h, p.x, p.y)
    ensures r.Success? <==> ShapeOk(WindowOf(w, h, p, front, side, dimX, dimY), front, side)
    ensures r.Success? ==> Shaped(r.value, 2 * side + 1, front)
    ensures r.Failure? ==> r.error == IncorrectShape
  {
    var win := WindowOf(w, h, p, front, side, dimX, dimY);
    var padded := Pad(Rot90(g, w, h, win.k), win.cols, win.rows, win.xPad, win.yPad, Empty);
    if ShapeOk(win, front, side) then
      Success(Crop(padded, win.PaddedCols(), win.PaddedRows(), win.sy, win.sx, front, 2 * side + 1))
    else
      Failure(IncorrectShape)
  }

  /** A successful extraction shows, at row `i` and column `j`, the world
      cell `i` steps ahead of the agent and `j - side` steps to its left,
      EMPTY off the grid. */
  lemma ExtractFovWithView(g: Grid, w: nat, h: nat, p: Pose, front: nat, side: nat, dimX: int, dimY: int)
    requires Shaped(g, w, h) && InBounds(w, h, p.x, p.y)
    requires ExtractFovWith(g, w, h, p, front, side, dimX, dimY).Success?
    ensures var fov := ExtractFovWith(g, w, h, p, front, side, dimX, dimY).value;
            forall i, j :: 0 <= i < front && 0 <= j < 2 * side + 1 ==> fov[i][j] == ViewCell(g, w, h, p, i, j - side)
  {
    var win := WindowOf(w, h, p, front, side, dimX, dimY);
    var padded := Pad(Rot90(g, w, h, win.k), win.cols, win.rows, win.xPad, win.yPad, Empty);
    var fov := Crop(padded, win.PaddedCols(), win.PaddedRows(), win.sy, win.sx, front, 2 * side + 1);
    CropIsView(g, w, h, p, front, side, win, padded, fov);
  }

  /** When the shape check passes, every cropped cell is the view cell at
      the same offset. */
  lemma CropIsView(g: Grid, w: nat, h: nat, p: Pose, front: nat, side: nat, win: Window, padded: Grid, fov: Grid)
    requires Shaped(g, w, h) && InBounds(w, h, p.x, p.y)
    requires win.k == QuarterTurns(p.o)
    requires win.rows == RotatedRows(w, h, win.k) && win.cols == RotatedCols(w, h, win.k)
    requires (win.ry, win.rx) == RotatedCoords(w, h, win.k, p.x, p.y)
    requires win.sx == win.xPad.0 + win.rx - side && win.sy == win.yPad.0 + win.ry
    requires padded == Pad(Rot90(g, w, h, win.k), win.cols, win.rows, win.xPad, win.yPad, Empty)
    requires ShapeOk(win, front, side)
    requires fov == Crop(padded, win.PaddedCols(), win.PaddedRows(), win.sy, win.sx, front, 2 * side + 1)
    ensures Shaped(fov, 2 * side + 1, front)
    ensures forall i, j :: 0 <= i < front && 0 <= j < 2 * side + 1 ==>
              fov[i][j] == ViewCell(g, w, h, p, i, j - side)
  {
    forall i, j | 0 <= i < front && 0 <= j < 2 * side + 1
      ensures fov[i][j] == ViewCell(g, w, h, p, i, j - side)
    {
      CropCell(g, w, h, p, front, side, win, padded, fov, i, j);
    }
  }

  lemma CropCell(g: Grid, w: nat, h: nat, p: Pose, front: nat, side: nat, win: Window, padded: Grid, fov: Grid,
                 i: int, j: int)
    requires Shaped(g, w, h) && InBounds(w, h, p.x, p.y)
    requires win.k == QuarterTurns(p.o)
    requires win.rows == RotatedRows(w, h, win.k) && win.cols == RotatedCols(w, h, win.k)
    requires (win.ry, win.rx) == RotatedCoords(w, h, win.k, p.x, p.y)
    requires win.sx == win.xPad.0 + win.rx - side && win.sy == win.yPad.0 + win.ry
    requires padded == Pad(Rot90(g, w, h, win.k), win.cols, win.rows, win.xPad, win.yPad, Empty)
    requires ShapeOk(win, front, side)
    requires fov == Crop(padded, win.PaddedCols(), win.PaddedRows(), win.sy, win.sx, front, 2 * side + 1)
    requires 0 <= i < front && 0 <= j < 2 * side + 1
    ensures fov[i][j] == ViewCell(g, w, h, p, i, j - side)
  {
    var a, b, d := win.sy + i, win.sx + j, j - side;
    CropAt(padded, win.PaddedCols(), win.PaddedRows(), win.sy, win.sx, front, 2 * side + 1, i, j, a, b);
    PaddedIsView(g, w, h, p, win, a, b, i, d);
    ViewCellShift(g, w, h, p, i, j, side, d);
  }

  /** The column offset `d` bound to `j - side` names the same view cell.
      Kept as a lemma of its own: proved here in an empty context it is
      immediate, while inside `CropCell` the solver unfolds `ViewCell`
      against everything else in scope. */
  lemma ViewCellShift(g: Grid, w: nat, h: nat, p: Pose, i: int, j: int, side: int, d: int)
    requires Shaped(g, w, h) && d == j - side
    ensures ViewCell(g, w, h, p, i, d) == ViewCell(g, w, h, p, i, j - side)
  {
  }

  lemma PaddedIsView(g: Grid, w: nat, h: nat, p: Pose, win: Window, a: int, b: int, i: int, d: int)
    requires Shaped(g, w, h) && InBounds(w, h, p.x, p.y)
    requires win.k == QuarterTurns(p.o)
    requires win.rows == RotatedRows(w, h, win.k) && win.cols == RotatedCols(w, h, win.k)
    requires (win.ry, win.rx) == RotatedCoords(w, h, win.k, p.x, p.y)
    requires InBounds(win.PaddedCols(), win.PaddedRows(), b, a)
    requires a == win.yPad.0 + win.ry + i && b == win.xPad.0 + win.rx + d
    ensures Pad(Rot90(g, w, h, win.k), win.cols, win.rows, win.xPad, win.yPad, Empty)[a][b] == ViewCell(g, w, h, p, i, d)
  {
    var ri, rj := win.ry + i, win.rx + d;
    PaddedRotatedAt(g, w, h, win.k, win.rows, win.cols, win.xPad, win.yPad, Empty, a, b, ri, rj);
    ViewCellRotated(g, w, h, p, win.k, win.ry, win.rx, i, d, ri, rj);
  }

  /** A cell of the padded rotation is the world cell it came from, or the
      fill where it lies outside the rotated grid. */
  lemma PaddedRotatedAt(g: Grid, w: nat, h: nat, k: int, rows: nat, cols: nat,
                           xPad: (nat, nat), yPad: (nat, nat), fill: Cell, a: int, b: int, i: int, j: int)
    requires Shaped(g, w, h) && 0 <= k < 4
    requires rows == RotatedRows(w, h, k) && cols == RotatedCols(w, h, k)
    requires InBounds(xPad.0 + cols + xPad.1, yPad.0 + rows + yPad.1, b, a)
    requires a == yPad.0 + i && b == xPad.0 + j
    ensures Pad(Rot90(g, w, h, k), cols, rows, xPad, yPad, fill)[a][b] == WorldCell(g, w, h, k, i, j, fill)
  {
    var (x, y) := WorldCoords(w, h, k, i, j);
    CoordsInverse(w, h, k, x, y, i, j);
    PadAt(Rot90(g, w, h, k), cols, rows, xPad, yPad, fill, a, b);
    if InBounds(cols, rows, j, i) {
      Rot90At(g, w, h, k, i, j);
    }
  }

  /** `_extract_fov` as written: pads measured with the unrotated grid width
      and height. */
  function ExtractFov(g: Grid, w: nat, h: nat, p: Pose, front: nat, side: nat): (r: Result<seq<seq<Cell>>, FovError>)
    requires Shaped(g, w, h) && InBounds(w, h, p.x, p.y)
    ensures r.Success? ==> Shaped(r.value, 2 * side + 1, front)
    ensures r.Failure? ==> r.error == IncorrectShape
  {
    ExtractFovWith(g, w, h, p, front, side, w, h)
  }

  /** What a successful extraction holds: the view cells, and in row 0,
      column `side`, the agent's own cell. */
  lemma ExtractFovView(g: Grid, w: nat, h: nat, p: Pose, front: nat, side: nat)
    requires Shaped(g, w, h) && InBounds(w, h, p.x, p.y)
    requires ExtractFov(g, w, h, p, front, side).Success?
    ensures var fov := ExtractFov(g, w, h, p, front, side).value;
            && (forall i, j :: 0 <= i < front && 0 <= j < 2 * side + 1 ==> fov[i][j] == ViewCell(g, w, h, p, i, j - side))
            && (front > 0 ==> fov[0][side] == g[p.y][p.x])
  {
    ExtractFovWithView(g, w, h, p, front, side, w, h);
  }

  /** The extraction with the pads measured on the rotated grid's own axes. */
  function ExtractFovCorrected(g: Grid, w: nat, h: nat, p: Pose, front: nat, side: nat)
    : (r: Result<seq<seq<Cell>>, FovError>)
    requires Shaped(g, w, h) && InBounds(w, h, p.x, p.y)
    ensures r.Success?
    ensures Shaped(r.value, 2 * side + 1, front)
  {
    var k := QuarterTurns(p.o);
    ShapeHoldsWithTrueAxes(g, w, h, p, front, side, RotatedCols(w, h, k), RotatedRows(w, h, k));
    ExtractFovWith(g, w, h, p, front, side, RotatedCols(w, h, k), RotatedRows(w, h, k))
  }

  /** The corrected extraction never fails, has the promised shape, and shows
      the view cells for every orientation and grid shape. */
  lemma ExtractFovCorrectedView(g: Grid, w: nat, h: nat, p: Pose, front: nat, side: nat)
    requires Shaped(g, w, h) && InBounds(w, h, p.x, p.y)
    ensures var r := ExtractFovCorrected(g, w, h, p, front, side);
            && r.Success? && Shaped(r.value, 2 * side + 1, front)
            && forall i, j :: 0 <= i < front && 0 <= j < 2 * side + 1 ==> r.value[i][j] == ViewCell(g, w, h, p, i, j - side)
  {
    var k := QuarterTurns(p.o);
    ShapeHoldsWithTrueAxes(g, w, h, p, front, side, RotatedCols(w, h, k), RotatedRows(w, h, k));
    ExtractFovWithView(g, w, h, p, front, side, RotatedCols(w, h, k), RotatedRows(w, h, k));
  }

  /** The shape assertion cannot fail when each pad axis is measured at
      least as long as the rotated grid's axis it pads. */
  lemma ShapeHoldsWithTrueAxes(g: Grid, w: nat, h: nat, p: Pose, front: nat, side: nat, dimX: int, dimY: int)
    requires Shaped(g, w, h) && InBounds(w, h, p.x, p.y)
    requires var k := QuarterTurns(p.o); dimX <= RotatedCols(w, h, k) && dimY <= RotatedRows(w, h, k)
    ensures ExtractFovWith(g, w, h, p, front, side, dimX, dimY).Success?
  {
    var win := WindowOf(w, h, p, front, side, dimX, dimY);
    assert win.sy + front <= win.PaddedRows();
    assert win.sx + 2 * side + 1 <= win.PaddedCols();
    assert ShapeOk(win, front, side);
  }

  /** For DOWN and UP (no transposition), and for every orientation on a
      square grid, the extraction as written never trips its shape check. */
  lemma ExtractFovSucceeds(g: Grid, w: nat, h: nat, p: Pose, front: nat, side: nat)
    requires Shaped(g, w, h) && InBounds(w, h, p.x, p.y)
    requires QuarterTurns(p.o) % 2 == 0 || w == h
    ensures ExtractFov(g, w, h, p, front, side).Success?
  {
    ShapeHoldsWithTrueAxes(g, w, h, p, front, side, w, h);
  }

  /** On a 1-wide, 4-tall grid an agent facing LEFT with a 2-deep view trips
      the shape check: the transposed grid is 1 row tall, and the bottom pad,
      measured against the height 4, adds no row. */
  lemma ExtractFovFailsOnTallGrid()
    ensures var g := [[Empty], [Empty], [Empty], [Empty]];
            ExtractFov(g, 1, 4, Pose(0, 0, Left), 2, 0).Failure?
  {
    var g := [[Empty], [Empty], [Empty], [Empty]];
    assert Shaped(g, 1, 4);
    TallGridWindow();
  }

  /** The window of that agent: three pad rows go on top, none below, so
      only one row is left from the crop's start. */
  lemma TallGridWindow()
    ensures var win := WindowOf(1, 4, Pose(0, 0, Left), 2, 0, 1, 4);
            win.yPad == (3, 0) && win.sy == 3 && win.PaddedRows() == 4 && !ShapeOk(win, 2, 0)
  {
    var win := WindowOf(1, 4, Pose(0, 0, Left), 2, 0, 1, 4);
    assert win.k == 1 && win.rows == 1 && win.ry == 0;
    assert SliceLen(4, 3, 5) == 1;
  }

  /** Colours of the rendered observation. */
  datatype Color = Black | Green | Red | Blue

  /** `GRID_CELL_COLORS`. */
  function CellColor(c: Cell): Color {
    match c
    case Empty => Black
    case Resource => Green
    case Agent => Red
  }

  /** Colours a field of view cell by cell. */
  function Colour(fov: Grid, depth: nat, breadth: nat): (r: seq<seq<Color>>)
    requires Shaped(fov, breadth, depth)
    ensures Shaped(r, breadth, depth)
    ensures forall i, j :: 0 <= i < depth && 0 <= j < breadth ==> r[i][j] == CellColor(fov[i][j])
  {
    seq(depth, i requires 0 <= i < depth => seq(breadth, j requires 0 <= j < breadth => CellColor(fov[i][j])))
  }

  /** `_get_observation` for an agent at `p`: the coloured field of view with
      the agent's own cell (row 0, centre column) marked in the own-agent
      colour. With no row to mark, the source's indexing raises. */
  function Observation(g: Grid, w: nat, h: nat, p: Pose, front: nat, side: nat)
    : (r: Result<seq<seq<Color>>, FovError>)
    requires Shaped(g, w, h) && InBounds(w, h, p.x, p.y)
    ensures r.Success? <==> ExtractFov(g, w, h, p, front, side).Success? && front > 0
    ensures r.Success? ==> Shaped(r.value, 2 * side + 1, front) && r.value[0][side] == Blue
  {
    match ExtractFov(g, w, h, p, front, side)
    case Failure(e) => Failure(e)
    case Success(fov) =>
      if front == 0 then Failure(EmptyFieldOfView)
      else
        var coloured := Colour(fov, front, 2 * side + 1);
        Success(coloured[0 := coloured[0][side := Blue]])
  }

  /** Every other cell of the observation is the colour of the view cell;
      the marked cell is the agent's own cell (see `ViewCellOwn`). */
  lemma ObservationView(g: Grid, w: nat, h: nat, p: Pose, front: nat, side: nat)
    requires Shaped(g, w, h) && InBounds(w, h, p.x, p.y)
    requires Observation(g, w, h, p, front, side).Success?
    ensures var obs := Observation(g, w, h, p, front, side).value;
            forall i, j :: 0 <= i < front && 0 <= j < 2 * side + 1 && (i, j) != (0, side) ==>
              obs[i][j] == CellColor(ViewCell(g, w, h, p, i, j - side))
  {
    var fov := ExtractFov(g, w, h, p, front, side).value;
    ExtractFovView(g, w, h, p, front, side);
    var coloured := Colour(fov, front, 2 * side + 1);
    MarkKeepsOthers(coloured, front, 2 * side + 1, side);
  }

  /** Marking the agent's own cell leaves every other cell as it was. */
  lemma MarkKeepsOthers(c: seq<seq<Color>>, depth: nat, breadth: nat, col: nat)
    requires Shaped(c, breadth, depth) && 0 < depth && col < breadth
    ensures var m := c[0 := c[0][col := Blue]];
            Shaped(m, breadth, depth) &&
            forall i, j :: 0 <= i < depth && 0 <= j < breadth && (i, j) != (0, col) ==> m[i][j] == c[i][j]
  {
  }

  /** The view cell at offset (0, 0) is the agent's own cell, which is red
      before the marking whenever the agent stands on an AGENT cell. */
  lemma ViewCellOwn(g: Grid, w: nat, h: nat, p: Pose)
    requires Shaped(g, w, h) && InBounds(w, h, p.x, p.y)
    ensures ViewCell(g, w, h, p, 0, 0) == g[p.y][p.x]
    ensures g[p.y][p.x] == Agent ==> CellColor(ViewCell(g, w, h, p, 0, 0)) == Red
  {
  }
}
