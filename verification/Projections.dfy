/** Batched matrix product, linear layer and fused bias-GELU of cpp/src/runtime/cpu_backend.cpp. */
module ProjectionKernels {
  import opened Basics
  import opened GraphIR
  import opened Shapes
  import opened Tensors
  import opened TensorSizes
  import opened IndexArithmetic
  import opened Views
  import opened MatrixProduct
  import DivMod

  /** The coordinate definition of a cell folds the same products as the kernels. */
  lemma {:induction false} DotIsPartial(A: Arith, q: Problem, x: seq<Scalar>, y: seq<Scalar>, row: nat, column: nat,
                                        u: seq<Scalar>, v: seq<Scalar>, k: nat)
    requires Operands(q, x, y) && row < q.rows && column < q.columns && k <= q.inner == |u| == |v|
    requires forall t: nat | t < q.inner :: q.LeftIndex(row, t) < |x| && u[t] == x[q.LeftIndex(row, t)]
    requires forall t: nat | t < q.inner :: q.RightIndex(t, column) < |y| && v[t] == y[q.RightIndex(t, column)]
    ensures Dot(A, u, v, k) == PartialCell(A, q, x, y, row, column, k)
  {
    if k > 0 {
      DotIsPartial(A, q, x, y, row, column, u, v, k - 1);
      assert u[k - 1] == x[q.LeftIndex(row, k - 1)];
    }
  }

  // ----- batches -----

  function Batch(s: Shape): Shape
    requires |s| >= 2
  {
    s[..|s| - 2]
  }

  /** Dimensions of one matrix of a batched product. */
  function ProblemOf(left: Shape, right: Shape): Problem
    requires Positive(left) && Positive(right) && |left| >= 2 && |right| >= 2
  {
    Problem(left[|left| - 2], left[|left| - 1], right[|right| - 1], false)
  }

  /** A shape of rank two or more is its batch shape times the matrix size. */
  lemma BatchCount(s: Shape, m: nat)
    requires Positive(s) && |s| >= 2 && m == s[|s| - 2] * s[|s| - 1]
    ensures Positive(Batch(s)) && m > 0 && Count(s) == Count(Batch(s)) * m
  {
    assert s == Batch(s) + [s[|s| - 2], s[|s| - 1]];
    CountAppend(Batch(s), [s[|s| - 2], s[|s| - 1]]);
    MatrixCount(s[|s| - 2], s[|s| - 1]);
    DivMod.MulMonotone(1, s[|s| - 2], s[|s| - 1]);
  }

  lemma MatrixCount(rows: int, columns: int)
    ensures Count([rows, columns]) == rows * columns
  {
    assert [rows, columns][1..] == [columns];
    assert [columns][1..] == [];
    assert Count([columns]) == columns;
  }

  /** Matrix `batch` of a tensor starts at batch * m and ends inside it. */
  lemma MatrixBounds(batch: nat, batches: nat, m: nat, total: nat)
    requires batch < batches && total == batches * m
    ensures 0 <= batch * m && batch * m + m == (batch + 1) * m <= total
  {
    DivMod.MulMonotone(batch + 1, batches, m);
  }

  /** The matrix of an operand that output batch `batch` uses. */
  function OperandMatrix(t: Tensor, output: Shape, batch: nat, m: nat): (r: seq<Scalar>)
    requires |t.shape| >= 2 && m == t.shape[|t.shape| - 2] * t.shape[|t.shape| - 1]
    requires Positive(output) && batch < Count(output) && BroadcastsTo(Batch(t.shape), output)
    ensures |r| == m
  {
    BatchCount(t.shape, m);
    var k := GatherOf(output, Batch(t.shape), batch);
    MatrixBounds(k, Count(Batch(t.shape)), m, |t.data|);
    t.data[k * m..k * m + m]
  }

  lemma OperandMatrixAt(t: Tensor, output: Shape, batch: nat, m: nat, row: nat, column: nat)
    requires |t.shape| >= 2 && m == t.shape[|t.shape| - 2] * t.shape[|t.shape| - 1]
    requires Positive(output) && batch < Count(output) && BroadcastsTo(Batch(t.shape), output)
    requires row < t.shape[|t.shape| - 2] && column < t.shape[|t.shape| - 1]
    ensures InBounds(output, Decode(output, batch))
    ensures var p := Project(Decode(output, batch), Batch(t.shape));
      && InBounds(Batch(t.shape), p) && InBounds(t.shape, p + [row, column])
      && row * t.shape[|t.shape| - 1] + column < m
      && At(t, p + [row, column]) == OperandMatrix(t, output, batch, m)[row * t.shape[|t.shape| - 1] + column]
  {
    DecodeInBounds(output, batch);
    var p := Project(Decode(output, batch), Batch(t.shape));
    ProjectInBounds(output, Batch(t.shape), Decode(output, batch));
    MatrixIndex(t.shape, p, row, column);
    DivMod.CellBound(row, column, t.shape[|t.shape| - 2], t.shape[|t.shape| - 1]);
    BatchCount(t.shape, m);
    MatrixBounds(GatherOf(output, Batch(t.shape), batch), Count(Batch(t.shape)), m, |t.data|);
  }

  /** What the shape contract of a batched product says about its parts. */
  lemma ProductShapes(left: Shape, right: Shape)
    requires Positive(left) && Positive(right) && MatMulShape(left, right).Some?
    ensures var out := MatMulShape(left, right).value;
      && Positive(out) && |out| >= 2
      && BroadcastShape(Batch(left), Batch(right)) == Some(Batch(out))
      && BroadcastsTo(Batch(left), Batch(out)) && BroadcastsTo(Batch(right), Batch(out))
      && out[|out| - 2] == left[|left| - 2] && out[|out| - 1] == right[|right| - 1]
      && left[|left| - 1] == right[|right| - 2]
  {
    MatMulShapePositive(left, right);
    BroadcastOperands(Batch(left), Batch(right));
    var out := MatMulShape(left, right).value;
    assert Batch(out) == BroadcastShape(Batch(left), Batch(right)).value;
  }

  /** Problem, batch shape and operand shapes fit together. */
  predicate BatchedProblem(q: Problem, left: Shape, right: Shape, batchShape: Shape) {
    && Positive(left) && Positive(right) && Positive(batchShape) && |left| >= 2 && |right| >= 2
    && q == ProblemOf(left, right)
    && left[|left| - 2] * left[|left| - 1] == q.LeftCount()
    && right[|right| - 2] * right[|right| - 1] == q.RightCount()
    && BroadcastsTo(Batch(left), batchShape) && BroadcastsTo(Batch(right), batchShape)
  }

  lemma RowAgrees(X: Tensor, output: Shape, batch: nat, row: nat, t: nat)
    requires |X.shape| >= 2 && row < X.shape[|X.shape| - 2] && t < X.shape[|X.shape| - 1]
    requires Positive(output) && batch < Count(output) && BroadcastsTo(Batch(X.shape), output)
    ensures var m := X.shape[|X.shape| - 2] * X.shape[|X.shape| - 1];
      var p := Project(CoordinateOf(output, batch), Batch(X.shape));
      && InBounds(Batch(X.shape), p) && row * X.shape[|X.shape| - 1] + t < m
      && MatrixRow(X, p, row)[t] == OperandMatrix(X, output, batch, m)[row * X.shape[|X.shape| - 1] + t]
  {
    OperandMatrixAt(X, output, batch, X.shape[|X.shape| - 2] * X.shape[|X.shape| - 1], row, t);
  }

  lemma ColumnAgrees(Y: Tensor, output: Shape, batch: nat, t: nat, column: nat)
    requires |Y.shape| >= 2 && t < Y.shape[|Y.shape| - 2] && column < Y.shape[|Y.shape| - 1]
    requires Positive(output) && batch < Count(output) && BroadcastsTo(Batch(Y.shape), output)
    ensures var m := Y.shape[|Y.shape| - 2] * Y.shape[|Y.shape| - 1];
      var r := Project(CoordinateOf(output, batch), Batch(Y.shape));
      && InBounds(Batch(Y.shape), r) && t * Y.shape[|Y.shape| - 1] + column < m
      && MatrixColumn(Y, r, column)[t] == OperandMatrix(Y, output, batch, m)[t * Y.shape[|Y.shape| - 1] + column]
  {
    OperandMatrixAt(Y, output, batch, Y.shape[|Y.shape| - 2] * Y.shape[|Y.shape| - 1], t, column);
  }

  lemma CellAgrees(A: Arith, X: Tensor, Y: Tensor, output: Shape, batch: nat, row: nat, column: nat)
    requires |X.shape| >= 2 && |Y.shape| >= 2 && X.shape[|X.shape| - 1] == Y.shape[|Y.shape| - 2]
    requires Positive(output) && batch < Count(output)
    requires BroadcastsTo(Batch(X.shape), output) && BroadcastsTo(Batch(Y.shape), output)
    requires var q := ProblemOf(X.shape, Y.shape); row < q.rows && column < q.columns
    ensures var q := ProblemOf(X.shape, Y.shape);
      var p := Project(CoordinateOf(output, batch), Batch(X.shape));
      var r := Project(CoordinateOf(output, batch), Batch(Y.shape));
      && InBounds(Batch(X.shape), p) && InBounds(Batch(Y.shape), r)
      && Dot(A, MatrixRow(X, p, row), MatrixColumn(Y, r, column), q.inner)
         == PartialCell(A, q, OperandMatrix(X, output, batch, q.LeftCount()),
                        OperandMatrix(Y, output, batch, q.RightCount()), row, column, q.inner)
  {
    var q := ProblemOf(X.shape, Y.shape);
    RowAgrees(X, output, batch, row, 0);
    ColumnAgrees(Y, output, batch, 0, column);
    var u := MatrixRow(X, Project(CoordinateOf(output, batch), Batch(X.shape)), row);
    var v := MatrixColumn(Y, Project(CoordinateOf(output, batch), Batch(Y.shape)), column);
    var x := OperandMatrix(X, output, batch, q.LeftCount());
    var y := OperandMatrix(Y, output, batch, q.RightCount());
    forall t: nat | t < q.inner
      ensures q.LeftIndex(row, t) < |x| && u[t] == x[q.LeftIndex(row, t)]
      ensures q.RightIndex(t, column) < |y| && v[t] == y[q.RightIndex(t, column)]
    {
      RowAgrees(X, output, batch, row, t);
      ColumnAgrees(Y, output, batch, t, column);
    }
    DotIsPartial(A, q, x, y, row, column, u, v, q.inner);
  }

  /** The batch part of the strides of a tensor are those of its batch shape, times the matrix size. */
  lemma BatchStrides(s: Shape, m: nat)
    requires Positive(s) && |s| >= 2 && m == s[|s| - 2] * s[|s| - 1]
    ensures forall a | 0 <= a < |s| - 2 :: Strides(s)[a] == Count(Batch(s)[a + 1..]) * m
  {
    forall a | 0 <= a < |s| - 2 ensures Strides(s)[a] == Count(Batch(s)[a + 1..]) * m {
      BatchCount(s[a + 1..], m);
      assert Batch(s[a + 1..]) == Batch(s)[a + 1..];
    }
  }

  /** `batch_base_offset`: where the matrix of this operand for output batch `batch` begins. */
  method MatrixOffset(v: View, strides: seq<int>, output: Shape, outputStrides: seq<int>, batch: nat, m: nat,
                      ghost t: Tensor)
    returns (offset: nat)
    requires Backed(v) && |v.shape| >= 2 && m == v.shape[|v.shape| - 2] * v.shape[|v.shape| - 1]
    requires t.shape == v.shape && Holds(v, t.data)
    requires Positive(output) && batch < Count(output) && BroadcastsTo(Batch(v.shape), output)
    requires strides == Strides(v.shape) && outputStrides == Strides(output)
    ensures v.base <= offset && offset + m <= v.base + Count(v.shape)
    ensures Segment(v.data, offset, OperandMatrix(t, output, batch, m))
  {
    BatchStrides(v.shape, m);
    BatchCount(v.shape, m);
    var k := GatherIndex(batch, output, outputStrides, Batch(v.shape), strides, m);
    MatrixBounds(GatherOf(output, Batch(v.shape), batch), Count(Batch(v.shape)), m, Count(v.shape));
    offset := v.base + k;
  }

  /** The operands of a batched product are in memory. */
  ghost predicate ProductViews(left: View, right: View, output: View, X: Tensor, Y: Tensor)
    reads left.data, right.data
  {
    && Backed(left) && Backed(right) && Backed(output) && Apart(left, output) && Apart(right, output)
    && X.shape == left.shape && Y.shape == right.shape
    && Holds(left, X.data) && Holds(right, Y.data)
  }

  predicate ZeroFrom(A: Arith, a: array<Scalar>, low: nat, high: nat)
    requires high <= a.Length
    reads a
  {
    forall p | low <= p < high :: a[p] == A.zero
  }

  /** Cells [batch * m, batch * m + m) of `target` are the product of the matrices of this batch. */
  ghost predicate BatchMatches(A: Arith, q: Problem, X: Tensor, Y: Tensor, batchShape: Shape,
                               target: seq<Scalar>, batch: nat)
    requires BatchedProblem(q, X.shape, Y.shape, batchShape) && batch < Count(batchShape)
  {
    var first := batch * q.Cells();
    && 0 <= first <= first + q.Cells() <= |target|
    && target[first..first + q.Cells()]
       == ProductOf(A, q, OperandMatrix(X, batchShape, batch, q.LeftCount()),
                    OperandMatrix(Y, batchShape, batch, q.RightCount()))
  }

  /** Linear index of cell i of matrix `batch`. */
  lemma CellIndex(out: Shape, c: Coords, batch: nat, q: Problem, row: nat, column: nat, first: nat, i: nat)
    requires Positive(out) && |out| >= 2 && out[|out| - 2] == q.rows && out[|out| - 1] == q.columns
    requires InBounds(Batch(out), c) && Encode(Batch(out), c) == batch
    requires row < q.rows && column < q.columns
    requires first == batch * (q.rows * q.columns) && i == row * q.columns + column
    ensures InBounds(out, c + [row, column]) && Encode(out, c + [row, column]) == first + i
  {
    MatrixIndex(out, c, row, column);
  }

  /** Cell i of matrix `batch` of the product is cell i of the product of the operand matrices. */
  lemma OneCell(A: Arith, X: Tensor, Y: Tensor, out: Shape, q: Problem, batch: nat, c: Coords, i: nat)
    requires MatMulShape(X.shape, Y.shape) == Some(out) && InBounds(out, c)
    requires BatchedProblem(q, X.shape, Y.shape, Batch(out)) && batch < Count(Batch(out))
    requires X.shape[|X.shape| - 1] == Y.shape[|Y.shape| - 2]
    requires i < q.Cells()
    requires c == CoordinateOf(Batch(out), batch) + [GridOf(q).rowOf[i], GridOf(q).columnOf[i]]
    ensures MatMulCell(A, X, Y, c)
         == ProductOf(A, q, OperandMatrix(X, Batch(out), batch, q.LeftCount()),
                      OperandMatrix(Y, Batch(out), batch, q.RightCount()))[i]
  {
    assert BatchOf(c) == CoordinateOf(Batch(out), batch);
    BatchInBounds(X.shape, Y.shape, c);
    CellAgrees(A, X, Y, Batch(out), batch, GridOf(q).rowOf[i], GridOf(q).columnOf[i]);
  }

  /** `data` holds the cells of the reference product. */
  ghost predicate ProductCells(A: Arith, X: Tensor, Y: Tensor, out: Shape, data: seq<Scalar>) {
    && MatMulShape(X.shape, Y.shape) == Some(out) && Positive(out) && |data| == Count(out)
    && forall i: nat {:trigger data[i]} | i < |data| :: data[i] == MatMulCell(A, X, Y, CoordinateOf(out, i))
  }

  lemma OneBatch(A: Arith, X: Tensor, Y: Tensor, out: Shape, q: Problem, batch: nat, first: nat, data: seq<Scalar>)
    requires ProductCells(A, X, Y, out, data) && |out| >= 2
    requires BatchedProblem(q, X.shape, Y.shape, Batch(out)) && batch < Count(Batch(out))
    requires out[|out| - 2] == q.rows && out[|out| - 1] == q.columns
    requires first == batch * q.Cells() && first + q.Cells() <= |data|
    requires X.shape[|X.shape| - 1] == Y.shape[|Y.shape| - 2]
    ensures data[first..first + q.Cells()]
         == ProductOf(A, q, OperandMatrix(X, Batch(out), batch, q.LeftCount()),
                      OperandMatrix(Y, Batch(out), batch, q.RightCount()))
  {
    var product := ProductOf(A, q, OperandMatrix(X, Batch(out), batch, q.LeftCount()),
                             OperandMatrix(Y, Batch(out), batch, q.RightCount()));
    var g, c := GridOf(q), CoordinateOf(Batch(out), batch);
    EncodeDecode(Batch(out), batch);
    forall i: nat | i < q.Cells() ensures data[first + i] == product[i] {
      CellIndex(out, c, batch, q, g.rowOf[i], g.columnOf[i], first, i);
      DecodeEncode(out, c + [g.rowOf[i], g.columnOf[i]]);
      OneCell(A, X, Y, out, q, batch, CoordinateOf(out, first + i), i);
    }
    SliceIs(data, first, product);
  }

  /** The reference product, seen batch by batch. */
  lemma ProductByBatches(A: Arith, X: Tensor, Y: Tensor, out: Shape, q: Problem, data: seq<Scalar>)
    requires ProductCells(A, X, Y, out, data) && q == ProblemOf(X.shape, Y.shape)
    ensures |out| >= 2 && BatchedProblem(q, X.shape, Y.shape, Batch(out))
    ensures |data| == Count(Batch(out)) * q.Cells()
    ensures forall batch: nat | batch < Count(Batch(out)) ::
      BatchMatches(A, q, X, Y, Batch(out), data, batch)
  {
    ProductShapes(X.shape, Y.shape);
    BatchCount(out, q.Cells());
    forall batch: nat | batch < Count(Batch(out))
      ensures BatchMatches(A, q, X, Y, Batch(out), data, batch)
    {
      MatrixBounds(batch, Count(Batch(out)), q.Cells(), |data|);
      OneBatch(A, X, Y, out, q, batch, batch * q.Cells(), data);
    }
  }

  /** One iteration of the batch loop: the two offsets, then one matrix product. */
  method BatchStep(A: Arith, tiled: bool, q: Problem, left: View, right: View, output: View,
                   batchShape: Shape, batchStrides: seq<int>, leftStrides: seq<int>, rightStrides: seq<int>,
                   batch: nat, ghost first: nat, ghost X: Tensor, ghost Y: Tensor, ghost target: seq<Scalar>)
    requires ProductViews(left, right, output, X, Y) && BatchedProblem(q, left.shape, right.shape, batchShape)
    requires batch < Count(batchShape) && batchStrides == Strides(batchShape)
    requires leftStrides == Strides(left.shape) && rightStrides == Strides(right.shape)
    requires first == batch * q.Cells() && |target| == Count(output.shape)
    requires BatchMatches(A, q, X, Y, batchShape, target, batch)
    requires SegmentBelow(output.data, output.base, target, first)
    requires tiled ==> ZeroFrom(A, output.data, output.base + first, output.base + |target|)
    modifies output.data
    ensures OnlyWrites(output)
    ensures SegmentBelow(output.data, output.base, target, first + q.Cells())
    ensures tiled ==> ZeroFrom(A, output.data, output.base + first + q.Cells(), output.base + |target|)
  {
    hide BroadcastsTo, Strides, Count;
    var leftOffset := MatrixOffset(left, leftStrides, batchShape, batchStrides, batch, q.LeftCount(), X);
    var rightOffset := MatrixOffset(right, rightStrides, batchShape, batchStrides, batch, q.RightCount(), Y);
    ghost var x := OperandMatrix(X, batchShape, batch, q.LeftCount());
    ghost var y := OperandMatrix(Y, batchShape, batch, q.RightCount());
    Regrouped(batch, q.rows, q.columns);
    var base := output.base + batch * q.rows * q.columns;
    hide OperandMatrix, ProductViews, BatchedProblem;
    MatrixInPlace(A, tiled, q, left.data, leftOffset, right.data, rightOffset, output, base, first, x, y, target);
  }

  /** One matrix of the output, after those before it. */
  method MatrixInPlace(A: Arith, tiled: bool, q: Problem, left: array<Scalar>, leftBase: nat,
                       right: array<Scalar>, rightBase: nat, output: View, base: nat, ghost first: nat,
                       ghost x: seq<Scalar>, ghost y: seq<Scalar>, ghost target: seq<Scalar>)
    requires Backed(output) && |target| == Count(output.shape) && base == output.base + first
    requires InMemory(q, left, leftBase, right, rightBase, output.data, base, x, y)
    requires first + q.Cells() <= |target| && target[first..first + q.Cells()] == ProductOf(A, q, x, y)
    requires SegmentBelow(output.data, output.base, target, first)
    requires tiled ==> ZeroFrom(A, output.data, output.base + first, output.base + |target|)
    modifies output.data
    ensures OnlyWrites(output)
    ensures SegmentBelow(output.data, output.base, target, first + q.Cells())
    ensures tiled ==> ZeroFrom(A, output.data, output.base + first + q.Cells(), output.base + |target|)
  {
    assert Operands(q, x, y);
    hide Count, InMemory, ProductOf;
    OneMatrix(A, tiled, q, left, leftBase, right, rightBase, output.data, base, x, y);
    SegmentExtends(output.data, output.base, target, first, ProductOf(A, q, x, y));
  }

  lemma Regrouped(batch: nat, rows: nat, columns: nat)
    ensures batch * rows * columns == batch * (rows * columns)
  {
  }

  /** One matrix, with whichever loops were selected. */
  method OneMatrix(A: Arith, tiled: bool, q: Problem, left: array<Scalar>, leftBase: nat,
                   right: array<Scalar>, rightBase: nat, output: array<Scalar>, base: nat,
                   ghost x: seq<Scalar>, ghost y: seq<Scalar>)
    requires InMemory(q, left, leftBase, right, rightBase, output, base, x, y)
    requires tiled ==> ZeroFrom(A, output, base, base + q.Cells())
    modifies output
    ensures OnlyRange(output, base, q.Cells())
    ensures Segment(output, base, ProductOf(A, q, x, y))
  {
    if tiled {
      TiledProduct(A, q, left, leftBase, right, rightBase, output, base, x, y);
    } else {
      ReferenceProduct(A, q, left, leftBase, right, rightBase, output, base, x, y);
    }
  }

  method BatchLoop(A: Arith, tiled: bool, q: Problem, left: View, right: View, output: View,
                   batchShape: Shape, batchStrides: seq<int>, leftStrides: seq<int>, rightStrides: seq<int>,
                   batches: nat, ghost X: Tensor, ghost Y: Tensor, ghost target: seq<Scalar>)
    requires ProductViews(left, right, output, X, Y) && BatchedProblem(q, left.shape, right.shape, batchShape)
    requires batchStrides == Strides(batchShape) && batches == Count(batchShape)
    requires leftStrides == Strides(left.shape) && rightStrides == Strides(right.shape)
    requires |target| == Count(output.shape) == batches * q.Cells()
    requires forall batch: nat | batch < batches :: BatchMatches(A, q, X, Y, batchShape, target, batch)
    requires tiled ==> ZeroFrom(A, output.data, output.base, output.base + |target|)
    modifies output.data
    ensures OnlyWrites(output)
    ensures Segment(output.data, output.base, target)
  {
    ghost var first: nat := 0;
    for batch := 0 to batches
      invariant OnlyWrites(output)
      invariant ProductViews(left, right, output, X, Y)
      invariant first == batch * q.Cells() <= |target|
      invariant SegmentBelow(output.data, output.base, target, first)
      invariant tiled ==> ZeroFrom(A, output.data, output.base + first, output.base + |target|)
    {
      assert BatchMatches(A, q, X, Y, batchShape, target, batch);
      BatchStep(A, tiled, q, left, right, output, batchShape, batchStrides, leftStrides, rightStrides, batch,
                first, X, Y, target);
      NextBatch(batch, q.Cells());
      first := first + q.Cells();
    }
  }

  lemma NextBatch(batch: nat, m: nat)
    ensures (batch + 1) * m == batch * m + m
  {
  }

  /** std::fill_n with zeros. */
  method FillZero(A: Arith, a: array<Scalar>, base: nat, n: nat)
    requires base + n <= a.Length
    modifies a
    ensures OnlyRange(a, base, n) && ZeroFrom(A, a, base, base + n)
  {
    for i := 0 to n
      invariant OnlyRange(a, base, n) && ZeroFrom(A, a, base, base + i)
    {
      a[base + i] := A.zero;
    }
  }

  /** The shape checks of both matrix products. */
  method CheckMatMulShapes(left: Shape, right: Shape, output: Shape) returns (ok: bool)
    ensures ok <==> MatMulShape(left, right) == Some(output)
  {
    if |left| < 2 || |right| < 2 || |output| < 2 {
      return false;
    }
    if left[|left| - 1] != right[|right| - 2]
      || output[|output| - 2] != left[|left| - 2] || output[|output| - 1] != right[|right| - 1] {
      return false;
    }
    var batch := ComputeBroadcastShape(Batch(left), Batch(right));
    assert output == Batch(output) + [output[|output| - 2], output[|output| - 1]];
    return batch == Some(Batch(output));
  }

  /**
   `reference_matmul` (tiled == false) and `tiled_matmul` (tiled == true): both leave the
   reference product in the output, whatever the scalar operators are.
   */
  method MatMulInto(A: Arith, tiled: bool, left: View, right: View, output: View) returns (s: Status)
    requires Backed(left) && Backed(right) && Backed(output) && Apart(left, output) && Apart(right, output)
    modifies output.data
    ensures OnlyWrites(output)
    ensures s == Success <==> MatMulShape(left.shape, right.shape) == Some(output.shape)
    ensures s == Success ==> old(MatMulOf(A, TensorOf(left), TensorOf(right))) == Some(TensorOf(output))
  {
    var accepted := CheckMatMulShapes(left.shape, right.shape, output.shape);
    if !accepted {
      return Failure(InvalidArgument);
    }
    ghost var X, Y := TensorOf(left), TensorOf(right);
    ghost var target := MatMulOf(A, X, Y).value;
    assert ProductCells(A, X, Y, output.shape, target.data);
    ProductByBatches(A, X, Y, output.shape, ProblemOf(left.shape, right.shape), target.data);
    s := MatMulBatches(A, tiled, left, right, output, X, Y, target.data);
    if s == Success {
      SegmentIsTensor(output, target);
    }
  }

  /** Strides, zero fill, and the batch loop. */
  method MatMulBatches(A: Arith, tiled: bool, left: View, right: View, output: View,
                       ghost X: Tensor, ghost Y: Tensor, ghost target: seq<Scalar>)
    returns (s: Status)
    requires ProductViews(left, right, output, X, Y)
    requires |output.shape| >= 2 && |left.shape| >= 2 && |right.shape| >= 2
    requires BatchedProblem(ProblemOf(left.shape, right.shape), left.shape, right.shape, Batch(output.shape))
    requires |target| == Count(output.shape)
      == Count(Batch(output.shape)) * ProblemOf(left.shape, right.shape).Cells()
    requires forall batch: nat | batch < Count(Batch(output.shape)) ::
      BatchMatches(A, ProblemOf(left.shape, right.shape), X, Y, Batch(output.shape), target, batch)
    modifies output.data
    ensures s == Success
    ensures OnlyWrites(output) && Segment(output.data, output.base, target)
  {
    var q := ProblemOf(left.shape, right.shape);
    var batchShape := Batch(output.shape);
    BatchCountBound(output.shape);
    var batchStrides := RowMajorStrides(batchShape);
    var leftStrides := RowMajorStrides(left.shape);
    var rightStrides := RowMajorStrides(right.shape);
    var batches := CheckedTensorElementCount(batchShape);
    var count := CheckedTensorElementCount(output.shape);
    if batchStrides.Err? || leftStrides.Err? || rightStrides.Err? || batches.Err? || count.Err? {
      return Failure(Overflow);
    }
    if tiled {
      FillZero(A, output.data, output.base, count.value);
    }
    BatchLoop(A, tiled, q, left, right, output, batchShape, batchStrides.value, leftStrides.value,
              rightStrides.value, batches.value, X, Y, target);
    return Success;
  }

  lemma BatchCountBound(s: Shape)
    requires Positive(s) && |s| >= 2
    ensures Positive(Batch(s)) && Count(Batch(s)) <= Count(s)
  {
    PrefixCountBound(s, |s| - 2);
  }

  // ----- linear -----

  /** Rows of the flattened input, features, and the transposed weight. */
  function LinearProblem(input: Shape, weight: Shape): Problem
    requires Positive(input) && Positive(weight) && input != [] && |weight| == 2
  {
    CountPositive(input[..|input| - 1]);
    Problem(Count(input[..|input| - 1]), weight[1], weight[0], true)
  }

  lemma LaneCount(s: Shape)
    requires Positive(s) && s != []
    ensures Positive(s[..|s| - 1]) && Count(s) == Count(s[..|s| - 1]) * s[|s| - 1]
  {
    assert s == s[..|s| - 1] + [s[|s| - 1]];
    CountAppend(s[..|s| - 1], [s[|s| - 1]]);
    assert [s[|s| - 1]][1..] == [];
    assert Count([s[|s| - 1]]) == s[|s| - 1];
  }

  /** Element t of the lane an output cell reads, in the flattened input. */
  lemma LaneElement(X: Tensor, row: nat, t: nat)
    requires X.shape != [] && row < Count(X.shape[..|X.shape| - 1]) && t < X.shape[|X.shape| - 1]
    ensures Positive(X.shape[..|X.shape| - 1])
    ensures row * X.shape[|X.shape| - 1] + t < |X.data|
    ensures LastLane(X, CoordinateOf(X.shape[..|X.shape| - 1], row))[t] == X.data[row * X.shape[|X.shape| - 1] + t]
  {
    var prefix := X.shape[..|X.shape| - 1];
    LaneCount(X.shape);
    EncodeDecode(prefix, row);
    LaneIndex(X.shape, CoordinateOf(prefix, row), t);
    EncodeBound(X.shape, CoordinateOf(prefix, row) + [t]);
  }

  /** Row `column` of a weight matrix. */
  lemma WeightElement(W: Tensor, column: nat, t: nat)
    requires |W.shape| == 2 && column < W.shape[0] && t < W.shape[1]
    ensures InBounds(W.shape[..1], [column])
    ensures column * W.shape[1] + t < |W.data|
    ensures LastLane(W, [column])[t] == W.data[column * W.shape[1] + t]
  {
    assert W.shape[..1] == [W.shape[0]];
    LaneIndex(W.shape, [column], t);
    assert [W.shape[0]][1..] == [] && [column][1..] == [];
    assert Encode([W.shape[0]], [column]) == column;
    EncodeBound(W.shape, [column] + [t]);
  }

  /** Linear index of the cell in row `row`, feature `column` of the output. */
  lemma LinearCellIndex(prefix: Shape, features: int, row: nat, column: nat)
    requires Positive(prefix) && features > 0 && row < Count(prefix) && column < features
    ensures Positive(prefix + [features])
    ensures row * features + column < Count(prefix + [features])
    ensures CoordinateOf(prefix + [features], row * features + column) == CoordinateOf(prefix, row) + [column]
  {
    EncodeDecode(prefix, row);
    DivMod.MulMonotone(0, row, features);
    LinearCoordinate(prefix, features, CoordinateOf(prefix, row), column, prefix + [features], row * features + column);
  }

  lemma LinearCoordinate(prefix: Shape, features: int, c: Coords, column: nat, out: Shape, i: nat)
    requires Positive(prefix) && features > 0 && InBounds(prefix, c) && column < features
    requires out == prefix + [features] && i == Encode(prefix, c) * features + column
    ensures Positive(out) && i < Count(out) && Decode(out, i) == c + [column]
  {
    assert out[..|out| - 1] == prefix;
    LaneIndex(out, c, column);
    EncodeBound(out, c + [column]);
    DecodeEncode(out, c + [column]);
  }

  /** A linear layer is one product of the flattened input with the transposed weight. */
  lemma LinearIsProduct(A: Arith, X: Tensor, W: Tensor, out: Shape, q: Problem, data: seq<Scalar>)
    requires LinearShape(X.shape, W.shape) == Some(out) && q == LinearProblem(X.shape, W.shape)
    requires LinearOf(A, X, W).Some? && data == LinearOf(A, X, W).value.data
    ensures Operands(q, X.data, W.data)
    ensures |data| == q.Cells() && data == ProductOf(A, q, X.data, W.data)
  {
    LaneCount(X.shape);
    LaneCount(W.shape);
    LaneCount(out);
    var prefix := X.shape[..|X.shape| - 1];
    assert out[..|out| - 1] == prefix;
    WeightCount(W.shape);
    forall i: nat | i < q.Cells() ensures data[i] == ProductOf(A, q, X.data, W.data)[i] {
      LinearElement(A, X, W, out, q, i);
    }
  }

  lemma LinearElement(A: Arith, X: Tensor, W: Tensor, out: Shape, q: Problem, i: nat)
    requires LinearShape(X.shape, W.shape) == Some(out) && q == LinearProblem(X.shape, W.shape)
    requires LinearOf(A, X, W).Some? && i < q.Cells() == |LinearOf(A, X, W).value.data|
    requires Operands(q, X.data, W.data)
    ensures LinearOf(A, X, W).value.data[i] == ProductOf(A, q, X.data, W.data)[i]
  {
    var g, prefix := GridOf(q), X.shape[..|X.shape| - 1];
    assert out == prefix + [W.shape[0]];
    LinearCellIndex(prefix, W.shape[0], g.rowOf[i], g.columnOf[i]);
    var c := CoordinateOf(out, i);
    assert LinearOf(A, X, W).value.data[i] == LinearCell(A, X, W, c);
    hide LinearCell, LinearOf, Decode, Count;
    LinearCellAgrees(A, X, W, q, g.rowOf[i], g.columnOf[i], c);
  }

  lemma WeightCount(s: Shape)
    requires |s| == 2
    ensures Count(s) == s[0] * s[1]
  {
    assert s == [s[0], s[1]];
    MatrixCount(s[0], s[1]);
  }

  lemma LinearCellAgrees(A: Arith, X: Tensor, W: Tensor, q: Problem, row: nat, column: nat, c: Coords)
    requires LinearShape(X.shape, W.shape).Some? && q == LinearProblem(X.shape, W.shape)
    requires Operands(q, X.data, W.data) && row < q.rows && column < q.columns
    requires InBounds(LinearShape(X.shape, W.shape).value, c)
    requires Positive(X.shape[..|X.shape| - 1])
    requires c == CoordinateOf(X.shape[..|X.shape| - 1], row) + [column]
    ensures LinearCell(A, X, W, c) == PartialCell(A, q, X.data, W.data, row, column, q.inner)
  {
    var n := |X.shape| - 1;
    assert c[..n] == CoordinateOf(X.shape[..n], row);
    var u := LastLane(X, c[..n]);
    WeightElement(W, column, 0);
    var v := LastLane(W, [column]);
    forall t: nat | t < q.inner
      ensures q.LeftIndex(row, t) < |X.data| && u[t] == X.data[q.LeftIndex(row, t)]
      ensures q.RightIndex(t, column) < |W.data| && v[t] == W.data[q.RightIndex(t, column)]
    {
      LaneElement(X, row, t);
      WeightElement(W, column, t);
    }
    DotIsPartial(A, q, X.data, W.data, row, column, u, v, q.inner);
  }

  /** The shape checks of `linear`. */
  predicate LinearAccepts(input: Shape, weight: Shape, output: Shape) {
    && input != [] && |weight| == 2 && output != []
    && weight[1] == input[|input| - 1] && output[|output| - 1] == weight[0]
  }

  /** What `linear` takes on trust: the output has no more rows than the input, or it would read past the end. */
  predicate RowsFit(input: Shape, output: Shape) {
    input != [] && output != [] ==> Count(output[..|output| - 1]) <= Count(input[..|input| - 1])
  }

  /** The product `linear` performs: the row count is divided out of the output count. */
  function WrittenProblem(input: Shape, weight: Shape, output: Shape): Problem
    requires Positive(input) && Positive(weight) && Positive(output) && LinearAccepts(input, weight, output)
  {
    CountPositive(output[..|output| - 1]);
    Problem(Count(output[..|output| - 1]), weight[1], weight[0], true)
  }

  lemma LinearSizes(input: Shape, weight: Shape, output: Shape, q: Problem)
    requires Positive(input) && Positive(weight) && Positive(output)
    requires LinearAccepts(input, weight, output) && RowsFit(input, output)
    requires q == WrittenProblem(input, weight, output)
    ensures Count(output) == q.Cells() && q.LeftCount() <= Count(input) && Count(weight) == q.RightCount()
    ensures Count(output) % weight[0] == 0 && Count(output) / weight[0] == q.rows
    ensures LinearShape(input, weight) == Some(output) ==>
      q == LinearProblem(input, weight) && q.LeftCount() == Count(input)
  {
    LaneCount(input);
    LaneCount(output);
    WeightCount(weight);
    DivMod.QuotientRemainder(q.rows, 0, weight[0]);
    DivMod.MulMonotone(q.rows, Count(input[..|input| - 1]), q.inner);
    if LinearShape(input, weight) == Some(output) {
      assert output[..|output| - 1] == input[..|input| - 1];
    }
  }

  /** The product of the first rows of the input, as many as the output has. */
  ghost function LinearRows(A: Arith, input: Tensor, weight: Tensor, output: Shape): seq<Scalar>
    requires Positive(output) && LinearAccepts(input.shape, weight.shape, output) && RowsFit(input.shape, output)
  {
    var q := WrittenProblem(input.shape, weight.shape, output);
    LinearSizes(input.shape, weight.shape, output, q);
    ProductOf(A, q, input.data[..q.LeftCount()], weight.data)
  }

  /** With as many rows as the input it is the linear layer. */
  lemma LinearRowsAll(A: Arith, input: Tensor, weight: Tensor, output: Shape)
    requires Positive(output) && LinearShape(input.shape, weight.shape) == Some(output)
    requires LinearAccepts(input.shape, weight.shape, output) && RowsFit(input.shape, output)
    ensures LinearOf(A, input, weight).Some?
    ensures LinearOf(A, input, weight).value.data == LinearRows(A, input, weight, output)
  {
    var q := WrittenProblem(input.shape, weight.shape, output);
    LinearSizes(input.shape, weight.shape, output, q);
    assert input.data[..q.LeftCount()] == input.data;
    LinearIsProduct(A, input, weight, output, q, LinearOf(A, input, weight).value.data);
  }

  /** The loops of `linear`. */
  method LinearLoops(A: Arith, tiled: bool, q: Problem, input: View, weight: View, output: View)
    requires Backed(input) && Backed(weight) && Backed(output) && Apart(input, output) && Apart(weight, output)
    requires LinearAccepts(input.shape, weight.shape, output.shape) && RowsFit(input.shape, output.shape)
    requires q == WrittenProblem(input.shape, weight.shape, output.shape)
    modifies output.data
    ensures OnlyWrites(output)
    ensures TensorOf(output).data == old(LinearRows(A, TensorOf(input), TensorOf(weight), output.shape))
  {
    LinearSizes(input.shape, weight.shape, output.shape, q);
    hide Count, LinearAccepts, RowsFit, WrittenProblem;
    ghost var W, rows := TensorOf(weight).data, TensorOf(input).data[..q.LeftCount()];
    if tiled {
      FillZero(A, output.data, output.base, q.Cells());
    }
    OneMatrix(A, tiled, q, input.data, input.base, weight.data, weight.base, output.data, output.base, rows, W);
    assert TensorOf(output).data == ProductOf(A, q, rows, W);
  }

  /**
   `linear` without the bias: reference or tiled loops over the flattened rows. The checks do not compare row
   counts: an output with fewer rows than the input gets the first of them.
   */
  method LinearInto(A: Arith, tiled: bool, input: View, weight: View, output: View) returns (s: Status)
    requires Backed(input) && Backed(weight) && Backed(output) && Apart(input, output) && Apart(weight, output)
    requires LinearAccepts(input.shape, weight.shape, output.shape) ==> RowsFit(input.shape, output.shape)
    modifies output.data
    ensures OnlyWrites(output)
    ensures s == Success <==> LinearAccepts(input.shape, weight.shape, output.shape)
    ensures s == Success ==> TensorOf(output).data == old(LinearRows(A, TensorOf(input), TensorOf(weight), output.shape))
    ensures s == Success && LinearShape(input.shape, weight.shape) == Some(output.shape) ==>
      old(LinearOf(A, TensorOf(input), TensorOf(weight))) == Some(TensorOf(output))
  {
    hide LinearOf, Count;
    if input.shape == [] || |weight.shape| != 2 || output.shape == [] {
      return Failure(InvalidArgument);
    }
    var features := weight.shape[0];
    if weight.shape[1] != input.shape[|input.shape| - 1] || output.shape[|output.shape| - 1] != features {
      return Failure(InvalidArgument);
    }
    LinearSizes(input.shape, weight.shape, output.shape, WrittenProblem(input.shape, weight.shape, output.shape));
    var count := CheckedTensorElementCount(output.shape);
    if count.Err? || count.value % features != 0 {
      return Failure(InvalidArgument);
    }
    var q := Problem(count.value / features, input.shape[|input.shape| - 1], features, true);
    ghost var X, W := TensorOf(input), TensorOf(weight);
    LinearLoops(A, tiled, q, input, weight, output);
    if LinearShape(input.shape, weight.shape) == Some(output.shape) {
      LinearRowsAll(A, X, W, output.shape);
    }
    return Success;
  }
}
