/** The spatial binning behind the heatmap chart
    (realtime-visualizer/src/components/Heatmap.jsx): the chart area is cut
    into 40-pixel square cells and every position sample whose first face
    point passes the truthiness filter adds one to the cell it falls in. */
module Heatmap {
  import opened Wrappers

  /** Side of one grid cell, in pixels. */
  const GridSize: int := 40

  /** A detected face centre, in pixels of the captured frame. */
  datatype FacePoint = FacePoint(x: int, y: int)

  /** One element of the heatmap series: the `facePoints` the detector
      reported for one frame. */
  datatype Sample = Sample(facePoints: seq<FacePoint>)

  /** One rectangle of the chart: its top-left corner and its count. */
  datatype Cell = Cell(x: int, y: int, count: nat)

  /** `Math.floor(width / gridSize)`: whole cells across. */
  function Columns(width: nat): nat {
    width / GridSize
  }

  /** `Math.floor(height / gridSize)`: whole cells down. */
  function Rows(height: nat): nat {
    height / GridSize
  }

  /** Division with remainder by a positive divisor, pinned down: the values
      `(i % cols, i / cols)` of a cell index are its column and row. */
  lemma DivModUnique(row: int, col: int, cols: int)
    requires 0 <= col < cols
    ensures (row * cols + col) / cols == row
    ensures (row * cols + col) % cols == col
  {
    var n := row * cols + col;
    var q, r := n / cols, n % cols;
    assert n == q * cols + r;
    var d := q - row;
    assert d * cols == q * cols - row * cols;
    assert d * cols == col - r;
    if d >= 1 {
      MulAtLeast(d, cols);
    } else if d <= -1 {
      assert (-d) * cols == -(d * cols);
      MulAtLeast(-d, cols);
    }
  }

  lemma MulAtLeast(d: int, c: int)
    requires d >= 1 && c > 0
    ensures d * c >= c
  {
    assert d * c == (d - 1) * c + c;
  }

  lemma ProductBound(row: int, col: int, rows: int, cols: int)
    requires 0 <= row < rows && 0 <= col < cols
    ensures 0 <= row * cols + col < rows * cols
  {
    assert row * cols <= (rows - 1) * cols;
  }

  /** The initial `heatmapData`: `rows * cols` cells, cell `i` at column
      `i % cols` and row `i / cols`, all counts 0. */
  function EmptyGrid(rows: nat, cols: nat): (g: seq<Cell>)
    ensures |g| == rows * cols
    ensures forall i :: 0 <= i < |g| ==> g[i].count == 0
  {
    if cols == 0 then []
    else seq(rows * cols, i requires 0 <= i < rows * cols =>
               Cell((i % cols) * GridSize, (i / cols) * GridSize, 0))
  }

  /** The cells tile the chart: the cell at row `row` and column `col` sits
      at index `row * cols + col`, with its corner at `(col * 40, row * 40)`. */
  lemma GridTiles(rows: nat, cols: nat, row: int, col: int)
    requires 0 <= row < rows && 0 <= col < cols
    ensures 0 <= row * cols + col < |EmptyGrid(rows, cols)|
    ensures 0 <= row * cols + col < |EmptyGrid(rows, cols)| ==>
              EmptyGrid(rows, cols)[row * cols + col] == Cell(col * GridSize, row * GridSize, 0)
  {
    ProductBound(row, col, rows, cols);
    DivModUnique(row, col, cols);
  }

  /** Every cell of the grid is at the position its index names. */
  lemma GridPositions(rows: nat, cols: nat, i: int)
    requires 0 <= i < rows * cols
    ensures cols > 0
    ensures EmptyGrid(rows, cols)[i] == Cell((i % cols) * GridSize, (i / cols) * GridSize, 0)
  {
  }

  /** JavaScript truthiness of a coordinate: every number except 0. */
  predicate Truthy(v: int) {
    v != 0
  }

  /** The index `row * cols + col` a sample is counted at, before the
      range check, or None when the sample is skipped: it has no face point,
      or its first point has a falsy (zero) coordinate. Only the first point
      is ever read. */
  function CellIndex(s: Sample, cols: nat): (r: Option<int>)
    ensures r.None? <==>
              |s.facePoints| == 0 || s.facePoints[0].x == 0 || s.facePoints[0].y == 0
  {
    if |s.facePoints| == 0 || !Truthy(s.facePoints[0].x) || !Truthy(s.facePoints[0].y) then None
    else
      var p := s.facePoints[0];
      Some((p.y / GridSize) * cols + p.x / GridSize)
  }

  /** The cell a sample increments: `heatmapData[index]` exists exactly
      when the index lies in `[0, rows * cols)`. */
  function Bin(s: Sample, rows: nat, cols: nat): (r: Option<nat>)
    ensures r.Some? ==> r.value < rows * cols
  {
    match CellIndex(s, cols)
    case Some(i) => if 0 <= i < rows * cols then Some(i as nat) else None
    case None => None
  }

  /** A sample is counted at `i` iff it passes the filter and its index is
      `i` and in range; there is no separate check that the column is below
      `cols`. */
  lemma BinIff(s: Sample, rows: nat, cols: nat, i: int)
    ensures Bin(s, rows, cols) == Some(i) <==>
              && |s.facePoints| > 0
              && Truthy(s.facePoints[0].x) && Truthy(s.facePoints[0].y)
              && i == (s.facePoints[0].y / GridSize) * cols + s.facePoints[0].x / GridSize
              && 0 <= i < rows * cols
  {
  }

  /** Only the first face point matters: whatever follows it never changes
      where, or whether, a sample is counted. */
  lemma OnlyFirstPointCounts(p: FacePoint, rest1: seq<FacePoint>, rest2: seq<FacePoint>, rows: nat, cols: nat)
    ensures Bin(Sample([p] + rest1), rows, cols) == Bin(Sample([p] + rest2), rows, cols)
  {
    assert ([p] + rest1)[0] == p == ([p] + rest2)[0];
  }

  /** A point strictly inside the chart's whole cells is counted in the cell
      whose square contains it. */
  lemma BinContainsPoint(s: Sample, rows: nat, cols: nat)
    requires |s.facePoints| > 0
    requires 0 < s.facePoints[0].x < cols * GridSize
    requires 0 < s.facePoints[0].y < rows * GridSize
    ensures Bin(s, rows, cols).Some?
    ensures Bin(s, rows, cols).Some? ==>
              var c := EmptyGrid(rows, cols)[Bin(s, rows, cols).value];
              c.x <= s.facePoints[0].x < c.x + GridSize && c.y <= s.facePoints[0].y < c.y + GridSize
  {
    var p := s.facePoints[0];
    var row, col := p.y / GridSize, p.x / GridSize;
    assert col < cols;
    assert row < rows;
    GridTiles(rows, cols, row, col);
  }

  /** `Math.floor(v / 40)` is `k` exactly when `v` lies in `[40k, 40k + 40)`. */
  lemma FloorDiv(v: int, k: int)
    requires k * GridSize <= v < k * GridSize + GridSize
    ensures v / GridSize == k
  {
    DivModUnique(k, v - k * GridSize, GridSize);
  }

  /** Multiplying by a non-negative factor keeps order. */
  lemma MulMono(a: int, b: int, c: int)
    requires a <= b && 0 <= c
    ensures a * c <= b * c
  {
    assert b * c - a * c == (b - a) * c;
  }

  /** There is no check that the column is below `cols`: a point in the
      strip right of the last whole column (a chart width that is not a
      multiple of 40), in any row but the last, is counted in the first
      cell of the next row, a cell that does not contain it. On a 500 x 480
      chart (12 x 12 cells) the point (490, 20) lands in cell 12, at (0, 40). */
  lemma PastLastColumnWrapsToNextRow(p: FacePoint, rest: seq<FacePoint>, rows: nat, cols: nat, row: int)
    requires 0 < cols && 0 <= row < rows - 1
    requires cols * GridSize <= p.x < cols * GridSize + GridSize
    requires 0 < p.y && row * GridSize <= p.y < row * GridSize + GridSize
    ensures Bin(Sample([p] + rest), rows, cols) == Some((row + 1) * cols)
    ensures Bin(Sample([p] + rest), rows, cols).Some? ==>
              var c := EmptyGrid(rows, cols)[Bin(Sample([p] + rest), rows, cols).value];
              c == Cell(0, (row + 1) * GridSize, 0) && !(c.x <= p.x < c.x + GridSize)
  {
    assert ([p] + rest)[0] == p;
    FloorDiv(p.x, cols);
    FloorDiv(p.y, row);
    assert row * cols + cols == (row + 1) * cols;
    GridTiles(rows, cols, row + 1, 0);
  }

  /** A point below the last whole row is never counted, unlike one right
      of the last whole column. Detected face centres are never negative
      (server/face_detector.py:24), which is what rules out an index that
      wraps back into the grid from a negative column. */
  lemma PastLastRowIsDropped(p: FacePoint, rest: seq<FacePoint>, rows: nat, cols: nat)
    requires 0 <= p.x && rows * GridSize <= p.y
    ensures Bin(Sample([p] + rest), rows, cols) == None
  {
    assert ([p] + rest)[0] == p;
    if p.x != 0 && p.y != 0 {
      var q := p.y / GridSize;
      if q < rows {
        MulMono(q, rows - 1, GridSize);
        assert false;
      }
      MulMono(rows, q, cols);
      assert q * cols + p.x / GridSize >= rows * cols;
    }
  }

  /* ---------------------------------------------------------------- */
  /* Accumulating the counts                                           */
  /* ---------------------------------------------------------------- */

  /** The number of samples of `data` counted at cell `i`. */
  function Hits(data: seq<Sample>, rows: nat, cols: nat, i: int): nat
    decreases |data|
  {
    if data == [] then 0
    else Hits(data[..|data| - 1], rows, cols, i) + (if Bin(data[|data| - 1], rows, cols) == Some(i) then 1 else 0)
  }

  /** The number of samples of `data` that are counted at all. */
  function Binned(data: seq<Sample>, rows: nat, cols: nat): nat
    decreases |data|
  {
    if data == [] then 0
    else Binned(data[..|data| - 1], rows, cols) + (if Bin(data[|data| - 1], rows, cols).Some? then 1 else 0)
  }

  /** The sum of all counts of a grid. */
  function TotalCount(cells: seq<Cell>): nat
    decreases |cells|
  {
    if cells == [] then 0 else TotalCount(cells[..|cells| - 1]) + cells[|cells| - 1].count
  }

  lemma {:induction false} BinnedAtMostAll(data: seq<Sample>, rows: nat, cols: nat)
    ensures Binned(data, rows, cols) <= |data|
    decreases |data|
  {
    if data != [] {
      BinnedAtMostAll(data[..|data| - 1], rows, cols);
    }
  }

  lemma {:induction false} TotalCountZero(cells: seq<Cell>)
    requires forall i :: 0 <= i < |cells| ==> cells[i].count == 0
    ensures TotalCount(cells) == 0
    decreases |cells|
  {
    if cells != [] {
      TotalCountZero(cells[..|cells| - 1]);
    }
  }

  /** Adding one to a single cell adds one to the total. */
  lemma {:induction false} TotalCountBump(cells: seq<Cell>, i: nat)
    requires i < |cells|
    ensures TotalCount(cells[i := cells[i].(count := cells[i].count + 1)]) == TotalCount(cells) + 1
    decreases |cells|
  {
    var bumped := cells[i := cells[i].(count := cells[i].count + 1)];
    var n := |cells| - 1;
    assert bumped[..n] == if i < n then cells[..n][i := cells[i].(count := cells[i].count + 1)] else cells[..n];
    if i < n {
      TotalCountBump(cells[..n], i);
    }
  }

  /** One step of `data.forEach`: the sample adds exactly one to the cell it
      is counted at, if any, and every other cell, and every position, stays
      as it was. */
  function AddSample(cells: seq<Cell>, s: Sample, rows: nat, cols: nat): (r: seq<Cell>)
    requires |cells| == rows * cols
    ensures |r| == |cells|
    ensures forall i :: 0 <= i < |r| ==>
              r[i].x == cells[i].x && r[i].y == cells[i].y &&
              r[i].count == cells[i].count + (if Bin(s, rows, cols) == Some(i) then 1 else 0)
    ensures TotalCount(r) == TotalCount(cells) + (if Bin(s, rows, cols).Some? then 1 else 0)
  {
    match Bin(s, rows, cols)
    case None => cells
    case Some(i) =>
      TotalCountBump(cells, i);
      cells[i := cells[i].(count := cells[i].count + 1)]
  }

  /** The effect of Heatmap.jsx lines 11-35: the grid for a `width` x `height`
      chart with every sample of `data` counted. It is the empty grid (whose
      cell positions `GridPositions` gives) with each cell's count replaced
      by the number of samples binned at it, and the counts add up to the
      number of samples counted at all, never more than the number of
      samples. */
  method BuildHeatmap(data: seq<Sample>, width: nat, height: nat) returns (cells: seq<Cell>)
    ensures |cells| == Rows(height) * Columns(width)
    ensures forall i :: 0 <= i < |cells| ==>
              i < |EmptyGrid(Rows(height), Columns(width))| &&
              cells[i] == EmptyGrid(Rows(height), Columns(width))[i].(count := Hits(data, Rows(height), Columns(width), i))
    ensures TotalCount(cells) == Binned(data, Rows(height), Columns(width))
    ensures TotalCount(cells) <= |data|
  {
    var cols := Columns(width);
    var rows := Rows(height);
    cells := EmptyGrid(rows, cols);
    TotalCountZero(cells);
    var j := 0;
    while j < |data|
      invariant 0 <= j <= |data|
      invariant |cells| == rows * cols
      invariant forall i :: 0 <= i < |cells| ==>
                  cells[i].x == EmptyGrid(rows, cols)[i].x && cells[i].y == EmptyGrid(rows, cols)[i].y
      invariant forall i :: 0 <= i < |cells| ==> cells[i].count == Hits(data[..j], rows, cols, i)
      invariant TotalCount(cells) == Binned(data[..j], rows, cols)
    {
      assert data[..j + 1][..j] == data[..j];
      cells := AddSample(cells, data[j], rows, cols);
      j := j + 1;
    }
    assert data[..j] == data;
    BinnedAtMostAll(data, rows, cols);
  }
}
