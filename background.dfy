/** The two procedural backgrounds. Both derive a grid resolution from the
    cursor (clamped to the canvas) and give every cell a blend position in
    [0, 1]: the tile gradient blends three hues across and down, the soft grid
    turns the average of its two positions into a light grey. */
module Background {
  import opened P5Math

  /** `int(map(constrain(cursor, 0, extent), 0, extent, 1, maxCount))`: the
      number of columns (or rows) for a cursor coordinate. */
  function GridCount(cursor: real, extent: real, maxCount: int): (n: int)
    requires 0.0 < extent && 1 <= maxCount < TwoTo31
    ensures 1 <= n <= maxCount
    ensures cursor <= 0.0 ==> n == 1
    ensures extent <= cursor ==> n == maxCount
    ensures 1 < maxCount && cursor < extent ==> n < maxCount
  {
    var c := Constrain(cursor, 0.0, extent);
    var v := Remap(c, 0.0, extent, 1.0, maxCount as real);
    RemapBetween(c, 0.0, extent, 1.0, maxCount as real);
    ToInt32(v)
  }

  /** Moving the cursor right (or down) never coarsens the grid. */
  lemma GridCountMonotone(c1: real, c2: real, extent: real, maxCount: int)
    requires 0.0 < extent && 1 <= maxCount < TwoTo31
    requires c1 <= c2
    ensures GridCount(c1, extent, maxCount) <= GridCount(c2, extent, maxCount)
  {
    var a := Constrain(c1, 0.0, extent);
    var b := Constrain(c2, 0.0, extent);
    var k := maxCount as real - 1.0;
    DivMonotone(a, b, extent);
    MulMonotone(a / extent, b / extent, k);
    var va := Remap(a, 0.0, extent, 1.0, maxCount as real);
    var vb := Remap(b, 0.0, extent, 1.0, maxCount as real);
    assert va == a / extent * k + 1.0;
    assert vb == b / extent * k + 1.0;
    RemapBetween(a, 0.0, extent, 1.0, maxCount as real);
    RemapBetween(b, 0.0, extent, 1.0, maxCount as real);
    ToInt32Monotone(va, vb);
  }

  /** `count>1 ? i/(count-1) : 0`: a cell's position along one axis, guarded
      against the one-cell grid, where it is 0 instead of a division by zero. */
  function Fraction(i: nat, count: int): (f: real)
    requires 1 <= count
    ensures i < count ==> 0.0 <= f <= 1.0
    ensures i == 0 ==> f == 0.0
    ensures 1 < count && i == count - 1 ==> f == 1.0
    ensures count == 1 ==> f == 0.0
  {
    if count > 1 then
      RatioBounds(i as real, (count - 1) as real);
      i as real / (count - 1) as real
    else 0.0
  }

  /** The tile gradient's horizontal blend, computed from the running cell
      counter: `cols>1 ? (idx%cols)/(cols-1) : 0`. */
  function ColumnBlend(idx: nat, cols: int): (t: real)
    requires 1 <= cols
    ensures 0.0 <= t <= 1.0
    ensures cols == 1 ==> t == 0.0
    ensures idx % cols == 0 ==> t == 0.0
    ensures 1 < cols && idx % cols == cols - 1 ==> t == 1.0
  {
    Fraction(idx % cols, cols)
  }

  /** The tile gradient's vertical blend: `y/(rows-1||1)`, where a zero
      divisor is replaced by 1. Within the grid it is the row's position. */
  function RowBlend(y: nat, rows: int): (t: real)
    requires 1 <= rows
    ensures y < rows ==> 0.0 <= t <= 1.0
    ensures y < rows ==> t == Fraction(y, rows)
  {
    var divisor := if rows - 1 != 0 then rows - 1 else 1;
    y as real / divisor as real
  }

  /** The soft grid's blend: the mean of the column and row positions. */
  function SoftBlend(xx: nat, yy: nat, cols: int, rows: int): (t: real)
    requires 1 <= cols && 1 <= rows
    ensures xx < cols && yy < rows ==> 0.0 <= t <= 1.0
    ensures xx == 0 && yy == 0 ==> t == 0.0
    ensures 1 < cols && 1 < rows && xx == cols - 1 && yy == rows - 1 ==> t == 1.0
  {
    (Fraction(xx, cols) + Fraction(yy, rows)) * 0.5
  }

  /** The grey levels the soft grid runs between. */
  const ShadeLow: real := 220.0
  const ShadeHigh: real := 255.0

  /** `lerp(220, 255, t)`: the grey of one soft-grid cell. */
  function SoftShade(xx: nat, yy: nat, cols: int, rows: int): (shade: real)
    requires 1 <= cols && 1 <= rows
    ensures xx < cols && yy < rows ==> ShadeLow <= shade <= ShadeHigh
    ensures xx == 0 && yy == 0 ==> shade == ShadeLow
    ensures 1 < cols && 1 < rows && xx == cols - 1 && yy == rows - 1 ==> shade == ShadeHigh
  {
    Lerp(ShadeLow, ShadeHigh, SoftBlend(xx, yy, cols, rows))
  }

  /** A cell of the soft grid gets lighter, never darker, further right or down. */
  lemma SoftShadeMonotone(x1: nat, y1: nat, x2: nat, y2: nat, cols: int, rows: int)
    requires 1 <= cols && x1 <= x2 < cols && 1 <= rows && y1 <= y2 < rows
    ensures SoftShade(x1, y1, cols, rows) <= SoftShade(x2, y2, cols, rows)
  {
    if cols > 1 {
      DivMonotone(x1 as real, x2 as real, (cols - 1) as real);
    }
    if rows > 1 {
      DivMonotone(y1 as real, y2 as real, (rows - 1) as real);
    }
  }

  /** One drawn tile: its column and row and its two blend positions. */
  datatype Tile = Tile(col: nat, row: nat, across: real, down: real)

  /** The tile the drawing loop emits as its `idx`-th cell (row-major). */
  function TileAt(idx: nat, cols: int, rows: int): (tile: Tile)
    requires 1 <= cols && 1 <= rows
    ensures tile.col < cols
    ensures idx < cols * rows ==> tile.row < rows && 0.0 <= tile.across <= 1.0 && 0.0 <= tile.down <= 1.0
  {
    RowBelow(idx, cols, rows);
    Tile(idx % cols, idx / cols, ColumnBlend(idx, cols), RowBlend(idx / cols, rows))
  }

  lemma RowBelow(idx: nat, cols: int, rows: int)
    requires 1 <= cols && 1 <= rows
    ensures idx < cols * rows ==> idx / cols < rows
  {
  }

  lemma MulGrows(a: int, b: int)
    requires 1 <= a && 1 <= b
    ensures a * b >= a
  {
    assert a * b == a * (b - 1) + a;
  }

  /** The cell counter of row y, column x is y*cols + x: its remainder is the
      column and its quotient the row. */
  lemma CellIndex(y: nat, x: nat, cols: int)
    requires 1 <= cols && x < cols
    ensures (y * cols + x) % cols == x && (y * cols + x) / cols == y
  {
    var idx := y * cols + x;
    var q, r := idx / cols, idx % cols;
    assert idx == cols * q + r;
    if q > y {
      MulGrows(cols, q - y);
      assert false;
    } else if q < y {
      MulGrows(cols, y - q);
      assert false;
    }
  }

  /** The nested loop of the tile background: every cell in row-major order,
      counted by `idx`, with its two blend positions. */
  method TileGrid(cols: int, rows: int) returns (tiles: seq<Tile>)
    requires 1 <= cols && 1 <= rows
    ensures |tiles| == cols * rows
    ensures forall k :: 0 <= k < |tiles| ==> tiles[k] == TileAt(k, cols, rows)
    ensures forall k :: 0 <= k < |tiles| ==> 0.0 <= tiles[k].across <= 1.0 && 0.0 <= tiles[k].down <= 1.0
  {
    tiles := [];
    var idx := 0;
    var y := 0;
    while y < rows
      invariant 0 <= y <= rows
      invariant idx == y * cols == |tiles|
      invariant forall k :: 0 <= k < |tiles| ==> tiles[k] == TileAt(k, cols, rows)
    {
      tiles, idx := TileRow(tiles, idx, y, cols, rows);
      assert idx == (y + 1) * cols;
      y := y + 1;
    }
  }

  /** The inner loop of the tile background: the cells of row `y`, appended
      to those of the rows above while `idx` keeps counting. */
  method TileRow(above: seq<Tile>, idx0: nat, y: nat, cols: int, rows: int) returns (tiles: seq<Tile>, idx: nat)
    requires 1 <= cols && 1 <= rows
    requires idx0 == y * cols == |above|
    requires forall k :: 0 <= k < |above| ==> above[k] == TileAt(k, cols, rows)
    ensures idx == idx0 + cols == |tiles|
    ensures forall k :: 0 <= k < |tiles| ==> tiles[k] == TileAt(k, cols, rows)
  {
    tiles, idx := above, idx0;
    var x := 0;
    while x < cols
      invariant 0 <= x <= cols
      invariant idx == idx0 + x == |tiles|
      invariant forall k :: 0 <= k < |tiles| ==> tiles[k] == TileAt(k, cols, rows)
    {
      CellIndex(y, x, cols);
      tiles := tiles + [Tile(x, y, ColumnBlend(idx, cols), RowBlend(y, rows))];
      idx := idx + 1;
      x := x + 1;
    }
  }

  /** The soft grid's grey for cell `idx` in row-major order. */
  function ShadeAt(idx: nat, cols: int, rows: int): (shade: real)
    requires 1 <= cols && 1 <= rows
    ensures idx < cols * rows ==> ShadeLow <= shade <= ShadeHigh
  {
    RowBelow(idx, cols, rows);
    SoftShade(idx % cols, idx / cols, cols, rows)
  }

  /** The nested loop of the soft background: the grey of every cell, row by row. */
  method SoftGrid(cols: int, rows: int) returns (shades: seq<real>)
    requires 1 <= cols && 1 <= rows
    ensures |shades| == cols * rows
    ensures forall k :: 0 <= k < |shades| ==> shades[k] == ShadeAt(k, cols, rows)
    ensures forall k :: 0 <= k < |shades| ==> ShadeLow <= shades[k] <= ShadeHigh
  {
    shades := [];
    var yy := 0;
    while yy < rows
      invariant 0 <= yy <= rows
      invariant |shades| == yy * cols
      invariant forall k :: 0 <= k < |shades| ==> shades[k] == ShadeAt(k, cols, rows)
    {
      shades := SoftRow(shades, yy, cols, rows);
      assert |shades| == (yy + 1) * cols;
      yy := yy + 1;
    }
  }

  /** The inner loop of the soft background: the greys of row `yy`. */
  method SoftRow(above: seq<real>, yy: nat, cols: int, rows: int) returns (shades: seq<real>)
    requires 1 <= cols && 1 <= rows
    requires |above| == yy * cols
    requires forall k :: 0 <= k < |above| ==> above[k] == ShadeAt(k, cols, rows)
    ensures |shades| == |above| + cols
    ensures forall k :: 0 <= k < |shades| ==> shades[k] == ShadeAt(k, cols, rows)
  {
    shades := above;
    var xx := 0;
    while xx < cols
      invariant 0 <= xx <= cols
      invariant |shades| == |above| + xx
      invariant forall k :: 0 <= k < |shades| ==> shades[k] == ShadeAt(k, cols, rows)
    {
      CellIndex(yy, xx, cols);
      shades := shades + [SoftShade(xx, yy, cols, rows)];
      xx := xx + 1;
    }
  }

  datatype Shape = Rect | Ellipse

  /** Which background a word gets, with its grid limits. */
  datatype Backdrop =
    | Soft(maxCols: int, maxRows: int)
    | Tiles(maxCols: int, maxRows: int, shape: Shape, hues: seq<int>)

  /** The dispatch at the top of each frame: the third word gets the 30x15
      soft grid, the first the 50x10 rectangle tiles, any other the 60x12
      ellipse tiles. */
  function BackdropFor(word: nat): (b: Backdrop)
    ensures 1 <= b.maxCols < TwoTo31 && 1 <= b.maxRows < TwoTo31
    ensures b.Soft? <==> word == 2
    ensures b.Tiles? ==> |b.hues| == 3
    ensures word == 2 ==> b.maxCols == 30 && b.maxRows == 15
    ensures word == 0 ==> b.maxCols == 50 && b.maxRows == 10 && b.shape == Rect && b.hues == [290, 180, 60]
    ensures word != 0 && word != 2 ==> b.maxCols == 60 && b.maxRows == 12 && b.shape == Ellipse && b.hues == [30, 200, 120]
  {
    if word == 2 then Soft(30, 15)
    else if word == 0 then Tiles(50, 10, Rect, [290, 180, 60])
    else Tiles(60, 12, Ellipse, [30, 200, 120])
  }

  /** What one frame's background consists of. */
  datatype Cells =
    | SoftCells(cols: int, rows: int, shades: seq<real>)
    | TileCells(cols: int, rows: int, tiles: seq<Tile>)

  /** One frame's background for the current word and cursor on a canvas of
      the given size: the grid resolution and every cell's blend values. */
  method DrawBackground(word: nat, mouseX: real, mouseY: real, width: real, height: real)
    returns (cells: Cells)
    requires 0.0 < width && 0.0 < height
    ensures cells.SoftCells? <==> word == 2
    ensures cells.cols == GridCount(mouseX, width, BackdropFor(word).maxCols)
    ensures cells.rows == GridCount(mouseY, height, BackdropFor(word).maxRows)
    ensures 1 <= cells.cols <= BackdropFor(word).maxCols && 1 <= cells.rows <= BackdropFor(word).maxRows
    ensures cells.SoftCells? ==>
      && |cells.shades| == cells.cols * cells.rows
      && (forall k :: 0 <= k < |cells.shades| ==> cells.shades[k] == ShadeAt(k, cells.cols, cells.rows))
      && (forall k :: 0 <= k < |cells.shades| ==> ShadeLow <= cells.shades[k] <= ShadeHigh)
    ensures cells.TileCells? ==>
      && |cells.tiles| == cells.cols * cells.rows
      && forall k :: 0 <= k < |cells.tiles| ==> cells.tiles[k] == TileAt(k, cells.cols, cells.rows)
  {
    var b := BackdropFor(word);
    var cols := GridCount(mouseX, width, b.maxCols);
    var rows := GridCount(mouseY, height, b.maxRows);
    if b.Soft? {
      var shades := SoftGrid(cols, rows);
      cells := SoftCells(cols, rows, shades);
    } else {
      var tiles := TileGrid(cols, rows);
      cells := TileCells(cols, rows, tiles);
    }
  }
}
