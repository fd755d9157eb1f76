/**
 The matrix products of cpp/src/runtime/cpu_backend.cpp. The reference loops and the 32 x 32 x 32
 tiled loops are proved to write the same buffer for arbitrary scalar operators: every cell is
 the same left fold over the inner index in increasing order.
 */
module MatrixProduct {
  import opened Basics
  import opened GraphIR
  import opened Tensors
  import opened Views
  import DivMod

  /** A product of a rows x inner matrix with an inner x columns matrix, the latter possibly stored transposed. */
  datatype Problem = Problem(rows: nat, inner: nat, columns: nat, transposed: bool) {
    function Cells(): nat { rows * columns }
    function LeftCount(): nat { rows * inner }
    function RightCount(): nat { if transposed then columns * inner else inner * columns }
    function LeftIndex(row: nat, k: nat): nat { row * inner + k }
    function RightIndex(k: nat, column: nat): nat {
      if transposed then column * inner + k else k * columns + column
    }
  }

  predicate Operands(q: Problem, x: seq<Scalar>, y: seq<Scalar>) {
    |x| == q.LeftCount() && |y| == q.RightCount()
  }

  lemma OperandIndices(q: Problem, row: nat, column: nat, k: nat)
    requires row < q.rows && column < q.columns && k < q.inner
    ensures q.LeftIndex(row, k) < q.LeftCount() && q.RightIndex(k, column) < q.RightCount()
  {
    DivMod.CellBound(row, k, q.rows, q.inner);
    DivMod.CellBound(column, k, q.columns, q.inner);
    DivMod.CellBound(k, column, q.inner, q.columns);
  }

  /** The first k products of a cell, accumulated from zero in increasing order. */
  function PartialCell(A: Arith, q: Problem, x: seq<Scalar>, y: seq<Scalar>, row: nat, column: nat, k: nat): Scalar
    requires Operands(q, x, y) && row < q.rows && column < q.columns && k <= q.inner
  {
    if k == 0 then A.zero
    else
      OperandIndices(q, row, column, k - 1);
      A.add(PartialCell(A, q, x, y, row, column, k - 1),
            A.mul(x[q.LeftIndex(row, k - 1)], y[q.RightIndex(k - 1, column)]))
  }

  /** Row and column of every cell of the output buffer. */
  datatype Grid = Grid(rowOf: seq<nat>, columnOf: seq<nat>)

  ghost predicate IsGrid(q: Problem, g: Grid) {
    && |g.rowOf| == |g.columnOf| == q.Cells()
    && forall j {:trigger g.rowOf[j]} {:trigger g.columnOf[j]} | 0 <= j < q.Cells() ::
         g.rowOf[j] < q.rows && g.columnOf[j] < q.columns && j == g.rowOf[j] * q.columns + g.columnOf[j]
  }

  function CellPosition(q: Problem, i: nat): (p: (nat, nat))
    requires i < q.Cells()
    ensures p.0 < q.rows && p.1 < q.columns && i == p.0 * q.columns + p.1
  {
    DivMod.QuotientBound(i, q.rows, q.columns);
    DivMod.Recompose(i, q.columns);
    (i / q.columns, i % q.columns)
  }

  ghost function GridOf(q: Problem): (g: Grid)
    ensures IsGrid(q, g)
  {
    var n := q.Cells();
    Grid(seq(n, i requires 0 <= i < n => CellPosition(q, i).0),
         seq(n, i requires 0 <= i < n => CellPosition(q, i).1))
  }

  /** The cell at [row, column] and its index determine each other. */
  lemma CellOf(q: Problem, g: Grid, row: nat, column: nat)
    requires IsGrid(q, g) && row < q.rows && column < q.columns
    ensures row * q.columns + column < q.Cells()
    ensures g.rowOf[row * q.columns + column] == row && g.columnOf[row * q.columns + column] == column
  {
    DivMod.CellBound(row, column, q.rows, q.columns);
    var i := row * q.columns + column;
    DivMod.QuotientRemainder(row, column, q.columns);
    DivMod.QuotientRemainder(g.rowOf[i], g.columnOf[i], q.columns);
  }

  /** The complete product, cell by cell. */
  ghost function ProductOf(A: Arith, q: Problem, x: seq<Scalar>, y: seq<Scalar>): (r: seq<Scalar>)
    requires Operands(q, x, y)
    ensures |r| == q.Cells()
  {
    var g := GridOf(q);
    seq(q.Cells(), i requires 0 <= i < q.Cells() => PartialCell(A, q, x, y, g.rowOf[i], g.columnOf[i], q.inner))
  }

  /** The operand matrices are in memory, apart from the output matrix. */
  ghost predicate InMemory(q: Problem, left: array<Scalar>, leftBase: nat, right: array<Scalar>, rightBase: nat,
                           output: array<Scalar>, base: nat, x: seq<Scalar>, y: seq<Scalar>)
    reads left, right
  {
    && Operands(q, x, y)
    && leftBase + |x| <= left.Length && rightBase + |y| <= right.Length && base + q.Cells() <= output.Length
    && ApartRanges(left, leftBase, |x|, output, base, q.Cells())
    && ApartRanges(right, rightBase, |y|, output, base, q.Cells())
    && Segment(left, leftBase, x) && Segment(right, rightBase, y)
  }

  /** The innermost loop: extends a running sum from inner index `low` to `high`. */
  method AccumulateCell(A: Arith, q: Problem, left: array<Scalar>, leftBase: nat, right: array<Scalar>, rightBase: nat,
                        row: nat, column: nat, low: nat, high: nat, start: Scalar,
                        ghost x: seq<Scalar>, ghost y: seq<Scalar>)
    returns (sum: Scalar)
    requires Operands(q, x, y)
    requires leftBase + |x| <= left.Length && rightBase + |y| <= right.Length
    requires Segment(left, leftBase, x) && Segment(right, rightBase, y)
    requires row < q.rows && column < q.columns && low <= high <= q.inner
    requires start == PartialCell(A, q, x, y, row, column, low)
    ensures sum == PartialCell(A, q, x, y, row, column, high)
  {
    sum := start;
    for k := low to high
      invariant sum == PartialCell(A, q, x, y, row, column, k)
    {
      OperandIndices(q, row, column, k);
      sum := A.add(sum, A.mul(left[leftBase + q.LeftIndex(row, k)], right[rightBase + q.RightIndex(k, column)]));
    }
  }

  /** `reference_matmul` and the reference branch of `linear`, for one matrix. */
  method ReferenceProduct(A: Arith, q: Problem, left: array<Scalar>, leftBase: nat, right: array<Scalar>, rightBase: nat,
                          output: array<Scalar>, base: nat, ghost x: seq<Scalar>, ghost y: seq<Scalar>)
    requires InMemory(q, left, leftBase, right, rightBase, output, base, x, y)
    modifies output
    ensures OnlyRange(output, base, q.Cells())
    ensures Segment(output, base, ProductOf(A, q, x, y))
  {
    ghost var target := ProductOf(A, q, x, y);
    ghost var first: nat := 0;
    for row := 0 to q.rows
      invariant first == row * q.columns <= q.Cells()
      invariant OnlyRange(output, base, q.Cells())
      invariant Segment(left, leftBase, x) && Segment(right, rightBase, y)
      invariant SegmentBelow(output, base, target, first)
    {
      NextRow(q, row);
      ReferenceRow(A, q, left, leftBase, right, rightBase, output, base, row, first, x, y, target);
      first := first + q.columns;
    }
  }

  lemma NextRow(q: Problem, row: nat)
    requires row < q.rows
    ensures (row + 1) * q.columns == row * q.columns + q.columns <= q.Cells()
  {
    DivMod.MulMonotone(row + 1, q.rows, q.columns);
  }

  method ReferenceRow(A: Arith, q: Problem, left: array<Scalar>, leftBase: nat, right: array<Scalar>, rightBase: nat,
                      output: array<Scalar>, base: nat, row: nat, ghost first: nat,
                      ghost x: seq<Scalar>, ghost y: seq<Scalar>, ghost target: seq<Scalar>)
    requires InMemory(q, left, leftBase, right, rightBase, output, base, x, y)
    requires row < q.rows && first == row * q.columns && first + q.columns <= q.Cells()
    requires target == ProductOf(A, q, x, y) && SegmentBelow(output, base, target, first)
    modifies output
    ensures OnlyRange(output, base, q.Cells())
    ensures SegmentBelow(output, base, target, first + q.columns)
  {
    for column := 0 to q.columns
      invariant OnlyRange(output, base, q.Cells())
      invariant Segment(left, leftBase, x) && Segment(right, rightBase, y)
      invariant SegmentBelow(output, base, target, first + column)
    {
      CellOf(q, GridOf(q), row, column);
      var sum := AccumulateCell(A, q, left, leftBase, right, rightBase, row, column, 0, q.inner, A.zero, x, y);
      assert sum == target[first + column];
      output[base + row * q.columns + column] := sum;
    }
  }

  // ----- the tiled loops -----

  const TILE: nat := 32

  /** Cell j holds its first progress[j] products. */
  ghost predicate Accumulated(A: Arith, q: Problem, g: Grid, x: seq<Scalar>, y: seq<Scalar>,
                              output: array<Scalar>, base: nat, progress: seq<nat>)
    requires Operands(q, x, y) && IsGrid(q, g) && base + q.Cells() <= output.Length
    reads output
  {
    && |progress| == q.Cells()
    && (forall j | 0 <= j < |progress| :: progress[j] <= q.inner)
    && forall p | base <= p < base + q.Cells() ::
         output[p] == PartialCell(A, q, x, y, g.rowOf[p - base], g.columnOf[p - base], progress[p - base])
  }

  /** A block of cells. */
  datatype Tile = Tile(rowLow: nat, rowHigh: nat, columnLow: nat, columnHigh: nat) {
    predicate Has(row: nat, column: nat) {
      rowLow <= row < rowHigh && columnLow <= column < columnHigh
    }
  }

  /** Progress is `value` inside the tile and unchanged outside. */
  ghost predicate AdvancedOn(q: Problem, g: Grid, before: seq<nat>, after: seq<nat>, tile: Tile, value: nat)
    requires IsGrid(q, g) && |before| == |after| == q.Cells()
  {
    forall j {:trigger after[j]} | 0 <= j < |after| ::
      after[j] == if tile.Has(g.rowOf[j], g.columnOf[j]) then value else before[j]
  }

  ghost predicate UniformOn(q: Problem, g: Grid, progress: seq<nat>, tile: Tile, value: nat)
    requires IsGrid(q, g) && |progress| == q.Cells()
  {
    forall j {:trigger progress[j]} | 0 <= j < |progress| ::
      tile.Has(g.rowOf[j], g.columnOf[j]) ==> progress[j] == value
  }

  /** Everything the tiled loops keep. */
  ghost predicate TiledState(A: Arith, q: Problem, g: Grid, left: array<Scalar>, leftBase: nat,
                             right: array<Scalar>, rightBase: nat, output: array<Scalar>, base: nat,
                             x: seq<Scalar>, y: seq<Scalar>, progress: seq<nat>)
    requires IsGrid(q, g)
    reads left, right, output
  {
    && InMemory(q, left, leftBase, right, rightBase, output, base, x, y)
    && Accumulated(A, q, g, x, y, output, base, progress)
  }

  /** Loads the running sum of one cell, extends it, and stores it. */
  method UpdateCell(A: Arith, q: Problem, left: array<Scalar>, leftBase: nat, right: array<Scalar>, rightBase: nat,
                    output: array<Scalar>, base: nat, row: nat, column: nat, low: nat, high: nat,
                    ghost g: Grid, ghost x: seq<Scalar>, ghost y: seq<Scalar>, ghost progress: seq<nat>)
    returns (ghost after: seq<nat>)
    requires IsGrid(q, g) && TiledState(A, q, g, left, leftBase, right, rightBase, output, base, x, y, progress)
    requires row < q.rows && column < q.columns && low <= high <= q.inner
    requires UniformOn(q, g, progress, Tile(row, row + 1, column, column + 1), low)
    modifies output
    ensures TiledState(A, q, g, left, leftBase, right, rightBase, output, base, x, y, after)
    ensures |after| == |progress| && AdvancedOn(q, g, progress, after, Tile(row, row + 1, column, column + 1), high)
    ensures OnlyRange(output, base, q.Cells())
  {
    CellOf(q, g, row, column);
    var i := row * q.columns + column;
    assert progress[i] == low;
    var sum := AccumulateCell(A, q, left, leftBase, right, rightBase, row, column, low, high, output[base + i], x, y);
    output[base + i] := sum;
    after := progress[i := high];
  }

  method UpdateRow(A: Arith, q: Problem, left: array<Scalar>, leftBase: nat, right: array<Scalar>, rightBase: nat,
                   output: array<Scalar>, base: nat, row: nat, columnLow: nat, columnHigh: nat, low: nat, high: nat,
                   ghost g: Grid, ghost x: seq<Scalar>, ghost y: seq<Scalar>, ghost progress: seq<nat>)
    returns (ghost after: seq<nat>)
    requires IsGrid(q, g) && TiledState(A, q, g, left, leftBase, right, rightBase, output, base, x, y, progress)
    requires row < q.rows && columnLow <= columnHigh <= q.columns && low <= high <= q.inner
    requires UniformOn(q, g, progress, Tile(row, row + 1, columnLow, columnHigh), low)
    modifies output
    ensures TiledState(A, q, g, left, leftBase, right, rightBase, output, base, x, y, after)
    ensures |after| == |progress| && AdvancedOn(q, g, progress, after, Tile(row, row + 1, columnLow, columnHigh), high)
    ensures OnlyRange(output, base, q.Cells())
  {
    after := progress;
    for column := columnLow to columnHigh
      invariant TiledState(A, q, g, left, leftBase, right, rightBase, output, base, x, y, after)
      invariant |after| == |progress| && AdvancedOn(q, g, progress, after, Tile(row, row + 1, columnLow, column), high)
      invariant OnlyRange(output, base, q.Cells())
    {
      after := UpdateCell(A, q, left, leftBase, right, rightBase, output, base, row, column, low, high, g, x, y, after);
    }
  }

  /** The two loops over the cells of one tile, for one tile of the inner index. */
  method UpdateTile(A: Arith, q: Problem, left: array<Scalar>, leftBase: nat, right: array<Scalar>, rightBase: nat,
                    output: array<Scalar>, base: nat, tile: Tile, low: nat, high: nat,
                    ghost g: Grid, ghost x: seq<Scalar>, ghost y: seq<Scalar>, ghost progress: seq<nat>)
    returns (ghost after: seq<nat>)
    requires IsGrid(q, g) && TiledState(A, q, g, left, leftBase, right, rightBase, output, base, x, y, progress)
    requires tile.rowLow <= tile.rowHigh <= q.rows && tile.columnLow <= tile.columnHigh <= q.columns
    requires low <= high <= q.inner && UniformOn(q, g, progress, tile, low)
    modifies output
    ensures TiledState(A, q, g, left, leftBase, right, rightBase, output, base, x, y, after)
    ensures |after| == |progress| && AdvancedOn(q, g, progress, after, tile, high)
    ensures OnlyRange(output, base, q.Cells())
  {
    after := progress;
    for row := tile.rowLow to tile.rowHigh
      invariant TiledState(A, q, g, left, leftBase, right, rightBase, output, base, x, y, after)
      invariant |after| == |progress| && AdvancedOn(q, g, progress, after, tile.(rowHigh := row), high)
      invariant OnlyRange(output, base, q.Cells())
    {
      after := UpdateRow(A, q, left, leftBase, right, rightBase, output, base, row,
                         tile.columnLow, tile.columnHigh, low, high, g, x, y, after);
    }
  }

  /** The loop over tiles of the inner index: takes one tile of cells from nothing to complete. */
  method CompleteTile(A: Arith, q: Problem, left: array<Scalar>, leftBase: nat, right: array<Scalar>, rightBase: nat,
                      output: array<Scalar>, base: nat, tile: Tile,
                      ghost g: Grid, ghost x: seq<Scalar>, ghost y: seq<Scalar>, ghost progress: seq<nat>)
    returns (ghost after: seq<nat>)
    requires IsGrid(q, g) && TiledState(A, q, g, left, leftBase, right, rightBase, output, base, x, y, progress)
    requires tile.rowLow <= tile.rowHigh <= q.rows && tile.columnLow <= tile.columnHigh <= q.columns
    requires UniformOn(q, g, progress, tile, 0)
    modifies output
    ensures TiledState(A, q, g, left, leftBase, right, rightBase, output, base, x, y, after)
    ensures |after| == |progress| && AdvancedOn(q, g, progress, after, tile, q.inner)
    ensures OnlyRange(output, base, q.Cells())
  {
    after := progress;
    var innerTile := 0;
    while innerTile < q.inner
      invariant TiledState(A, q, g, left, leftBase, right, rightBase, output, base, x, y, after)
      invariant |after| == |progress| && AdvancedOn(q, g, progress, after, tile, Min(innerTile, q.inner))
      invariant OnlyRange(output, base, q.Cells())
      decreases q.inner - innerTile
    {
      var innerEnd := Min(innerTile + TILE, q.inner);
      after := UpdateTile(A, q, left, leftBase, right, rightBase, output, base, tile, innerTile, innerEnd,
                          g, x, y, after);
      innerTile := innerTile + TILE;
    }
  }

  /** The loop over tiles of columns, for one band of rows. */
  method CompleteBand(A: Arith, q: Problem, left: array<Scalar>, leftBase: nat, right: array<Scalar>, rightBase: nat,
                      output: array<Scalar>, base: nat, rowLow: nat, rowHigh: nat,
                      ghost g: Grid, ghost x: seq<Scalar>, ghost y: seq<Scalar>, ghost progress: seq<nat>)
    returns (ghost after: seq<nat>)
    requires IsGrid(q, g) && TiledState(A, q, g, left, leftBase, right, rightBase, output, base, x, y, progress)
    requires rowLow <= rowHigh <= q.rows
    requires UniformOn(q, g, progress, Tile(rowLow, rowHigh, 0, q.columns), 0)
    modifies output
    ensures TiledState(A, q, g, left, leftBase, right, rightBase, output, base, x, y, after)
    ensures |after| == |progress|
    ensures AdvancedOn(q, g, progress, after, Tile(rowLow, rowHigh, 0, q.columns), q.inner)
    ensures OnlyRange(output, base, q.Cells())
  {
    after := progress;
    var columnTile := 0;
    while columnTile < q.columns
      invariant TiledState(A, q, g, left, leftBase, right, rightBase, output, base, x, y, after)
      invariant |after| == |progress|
      invariant AdvancedOn(q, g, progress, after, Tile(rowLow, rowHigh, 0, Min(columnTile, q.columns)), q.inner)
      invariant OnlyRange(output, base, q.Cells())
      decreases q.columns - columnTile
    {
      var columnEnd := Min(columnTile + TILE, q.columns);
      after := CompleteTile(A, q, left, leftBase, right, rightBase, output, base,
                            Tile(rowLow, rowHigh, columnTile, columnEnd), g, x, y, after);
      columnTile := columnTile + TILE;
    }
  }

  /**
   `tiled_matmul` and the tiled branch of `linear`, for one matrix whose cells have been zeroed:
   the buffer ends up exactly as ReferenceProduct leaves it.
   */
  method TiledProduct(A: Arith, q: Problem, left: array<Scalar>, leftBase: nat, right: array<Scalar>, rightBase: nat,
                      output: array<Scalar>, base: nat, ghost x: seq<Scalar>, ghost y: seq<Scalar>)
    requires InMemory(q, left, leftBase, right, rightBase, output, base, x, y)
    requires forall p | base <= p < base + q.Cells() :: output[p] == A.zero
    modifies output
    ensures OnlyRange(output, base, q.Cells())
    ensures Segment(output, base, ProductOf(A, q, x, y))
  {
    ghost var g := GridOf(q);
    ghost var start: seq<nat> := seq(q.Cells(), _ => 0);
    ghost var progress := start;
    var rowTile := 0;
    while rowTile < q.rows
      invariant TiledState(A, q, g, left, leftBase, right, rightBase, output, base, x, y, progress)
      invariant |progress| == |start|
      invariant AdvancedOn(q, g, start, progress, Tile(0, Min(rowTile, q.rows), 0, q.columns), q.inner)
      invariant OnlyRange(output, base, q.Cells())
      decreases q.rows - rowTile
    {
      var rowEnd := Min(rowTile + TILE, q.rows);
      progress := CompleteBand(A, q, left, leftBase, right, rightBase, output, base, rowTile, rowEnd,
                               g, x, y, progress);
      rowTile := rowTile + TILE;
    }
    assert forall j | 0 <= j < |progress| :: progress[j] == q.inner;
  }
}
