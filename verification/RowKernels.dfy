/** Kernels of cpp/src/runtime/cpu_backend.cpp that work row by row: RMS normalisation and the causal mask. */
module RowKernels {
  import opened Basics
  import opened GraphIR
  import opened Shapes
  import opened Tensors
  import opened Evaluator
  import opened TensorSizes
  import opened IndexArithmetic
  import opened Views
  import DivMod

  lemma NextRow(row: nat, rows: nat, width: nat)
    requires row < rows
    ensures (row + 1) * width == row * width + width <= rows * width
  {
    DivMod.MulMonotone(row + 1, rows, width);
  }

  // ----- RMS normalisation -----

  /** One normalised and weighted row. */
  function NormalisedRow(A: Arith, x: seq<Scalar>, w: seq<Scalar>, epsilon: Scalar): (r: seq<Scalar>)
    requires |x| == |w|
    ensures |r| == |x|
  {
    seq(|x|, k requires 0 <= k < |x| => A.mul(A.mul(x[k], InverseRms(A, x, epsilon)), w[k]))
  }

  /** The shape checks of `rms_norm`. */
  predicate RmsNormAccepts(input: Shape, weight: Shape, output: Shape) {
    input != [] && |weight| == 1 && input == output && weight[0] == input[|input| - 1]
  }

  /** Row r of the reference result is the normalised row r of the input. */
  lemma RmsNormRows(A: Arith, X: Tensor, W: Tensor, epsilon: Scalar, row: nat, first: nat, width: nat)
    requires X.shape != [] && W.shape == [X.shape[|X.shape| - 1]] && width == X.shape[|X.shape| - 1]
    requires first == row * width && first + width <= |X.data|
    ensures |W.data| == width
    ensures RmsNormOf(A, X, W, epsilon).value.data[first..first + width]
         == NormalisedRow(A, X.data[first..first + width], W.data, epsilon)
  {
    WeightAt(W, width, 0);
    LaneIsRow(X, row, first, width);
    var out := RmsNormOf(A, X, W, epsilon).value.data;
    var normalised: seq<Scalar> := NormalisedRow(A, X.data[first..first + width], W.data, epsilon);
    forall k | 0 <= k < width ensures out[first + k] == normalised[k] {
      DivMod.QuotientRemainder(row, k, width);
      RmsNormElement(A, X, W, epsilon, row, k, first + k);
    }
    SliceIs(out, first, normalised);
  }

  lemma WeightAt(W: Tensor, width: nat, k: nat)
    requires W.shape == [width] && k < width
    ensures |W.data| == width && InBounds(W.shape, [k]) && At(W, [k]) == W.data[k]
  {
    assert W.shape[1..] == [] && [k][1..] == [];
    assert Count(W.shape[1..]) == 1;
    assert Encode(W.shape[1..], [k][1..]) == 0;
  }

  lemma RmsNormElement(A: Arith, X: Tensor, W: Tensor, epsilon: Scalar, row: nat, k: nat, i: nat)
    requires X.shape != [] && W.shape == [X.shape[|X.shape| - 1]] && i < |X.data|
    requires i / X.shape[|X.shape| - 1] == row && i % X.shape[|X.shape| - 1] == k
    ensures k < |W.data| && row < Count(X.shape[..|X.shape| - 1])
    ensures RmsNormOf(A, X, W, epsilon).value.data[i]
         == A.mul(A.mul(X.data[i], InverseRms(A, LastLane(X, CoordinateOf(X.shape[..|X.shape| - 1], row)), epsilon)),
                  W.data[k])
  {
    var n := |X.shape| - 1;
    LaneCoordinates(X.shape, i);
    var c := CoordinateOf(X.shape, i);
    assert c[..n] == CoordinateOf(X.shape[..n], row) && c[n] == k;
    WeightAt(W, X.shape[n], k);
    CellAt(X, i);
    assert RmsNormOf(A, X, W, epsilon).value.data[i] == RmsNormCell(A, X, W, epsilon, c);
  }

  lemma CellAt(X: Tensor, i: nat)
    requires i < |X.data|
    ensures At(X, CoordinateOf(X.shape, i)) == X.data[i]
  {
    EncodeDecode(X.shape, i);
  }

  /** A lane along the last dimension is a stretch of the data. */
  lemma LaneIsRow(X: Tensor, row: nat, first: nat, width: nat)
    requires X.shape != [] && width == X.shape[|X.shape| - 1]
    requires first == row * width && first + width <= |X.data|
    ensures row < Count(X.shape[..|X.shape| - 1])
    ensures LastLane(X, CoordinateOf(X.shape[..|X.shape| - 1], row)) == X.data[first..first + width]
  {
    var prefix := X.shape[..|X.shape| - 1];
    LaneCoordinates(X.shape, first);
    DivMod.QuotientRemainder(row, 0, width);
    var c := CoordinateOf(prefix, row);
    EncodeDecode(prefix, row);
    forall k | 0 <= k < width ensures LastLane(X, c)[k] == X.data[first..first + width][k] {
      LaneIndex(X.shape, c, k);
    }
  }

  method SumSquares(A: Arith, source: array<Scalar>, start: nat, width: nat, ghost x: seq<Scalar>)
    returns (sum: Scalar)
    requires start + width <= source.Length && |x| == width && Segment(source, start, x)
    ensures sum == SumOfSquares(A, x, width)
  {
    sum := A.zero;
    for column := 0 to width
      invariant sum == SumOfSquares(A, x, column)
    {
      var value := source[start + column];
      assert value == x[column];
      sum := A.add(sum, A.mul(value, value));
    }
  }

  /** The two loops over one row. */
  method NormaliseRow(A: Arith, source: array<Scalar>, start: nat, weight: array<Scalar>, weightStart: nat,
                      target: array<Scalar>, base: nat, width: nat, epsilon: Scalar,
                      ghost x: seq<Scalar>, ghost w: seq<Scalar>)
    requires start + width <= source.Length && weightStart + width <= weight.Length && base + width <= target.Length
    requires |x| == |w| == width && Segment(source, start, x) && Segment(weight, weightStart, w)
    requires ApartRanges(source, start, width, target, base, width)
    requires ApartRanges(weight, weightStart, width, target, base, width)
    modifies target
    ensures OnlyRange(target, base, width) && Segment(target, base, NormalisedRow(A, x, w, epsilon))
  {
    var sum := SumSquares(A, source, start, width, x);
    var meanSquare := A.div(sum, A.ofCount(width));
    var inverseRms := A.div(A.one, A.sqrt(A.add(meanSquare, epsilon)));
    assert inverseRms == InverseRms(A, x, epsilon);
    ghost var y := NormalisedRow(A, x, w, epsilon);
    for column := 0 to width
      invariant OnlyRange(target, base, width)
      invariant Segment(source, start, x) && Segment(weight, weightStart, w)
      invariant SegmentBelow(target, base, y, column)
    {
      assert y[column] == A.mul(A.mul(x[column], inverseRms), w[column]);
      target[base + column] := A.mul(A.mul(source[start + column], inverseRms), weight[weightStart + column]);
    }
  }

  /** `rms_norm` */
  method RmsNormInto(A: Arith, attributes: Attributes, inputs: seq<View>, output: View) returns (s: Status)
    requires KernelViews(inputs, output)
    modifies output.data
    ensures OnlyWrites(output)
    ensures s == Success <==>
      |inputs| == 2 && RmsNormAccepts(inputs[0].shape, inputs[1].shape, output.shape)
      && "epsilon" in attributes && IsNumber(attributes["epsilon"]) && A.positiveElement(attributes["epsilon"])
    ensures s == Success ==>
      old(RmsNormOf(A, TensorOf(inputs[0]), TensorOf(inputs[1]), A.literal(attributes["epsilon"])))
      == Some(TensorOf(output))
  {
    if |inputs| != 2 || inputs[0].shape == [] || |inputs[1].shape| != 1
      || inputs[0].shape != output.shape || inputs[1].shape[0] != inputs[0].shape[|inputs[0].shape| - 1] {
      return Failure(InvalidArgument);
    }
    if "epsilon" !in attributes || !IsNumber(attributes["epsilon"]) {
      return Failure(InvalidArgument);
    }
    if !A.positiveElement(attributes["epsilon"]) {
      return Failure(InvalidArgument);
    }
    var epsilon := A.literal(attributes["epsilon"]);
    var count := CheckedTensorElementCount(output.shape);
    if count.Err? {
      return Failure(Overflow);
    }
    var width := inputs[0].shape[|inputs[0].shape| - 1];
    RmsNormLoop(A, inputs[0], inputs[1], output, width, count.value / width, epsilon,
                TensorOf(inputs[0]), TensorOf(inputs[1]));
    return Success;
  }

  method RmsNormLoop(A: Arith, input: View, weight: View, output: View, width: nat, rows: nat, epsilon: Scalar,
                     ghost X: Tensor, ghost W: Tensor)
    requires Backed(input) && Backed(weight) && Backed(output) && Apart(input, output) && Apart(weight, output)
    requires RmsNormAccepts(input.shape, weight.shape, output.shape) && width == weight.shape[0]
    requires rows == Count(output.shape) / width
    requires X.shape == input.shape && W.shape == weight.shape && Holds(input, X.data) && Holds(weight, W.data)
    modifies output.data
    ensures OnlyWrites(output)
    ensures RmsNormOf(A, X, W, epsilon) == Some(TensorOf(output))
  {
    ghost var target := RmsNormOf(A, X, W, epsilon).value;
    RowsTimesWidth(output.shape, width, rows);
    WeightAt(W, width, 0);
    ghost var first: nat := 0;
    for row := 0 to rows
      invariant first == row * width <= rows * width
      invariant OnlyWrites(output) && Holds(input, X.data) && Holds(weight, W.data)
      invariant SegmentBelow(output.data, output.base, target.data, first)
    {
      NextRow(row, rows, width);
      RmsNormStep(A, input, weight, output, row, width, epsilon, first, X, W, target.data);
      first := first + width;
    }
    SegmentIsTensor(output, target);
  }

  method RmsNormStep(A: Arith, input: View, weight: View, output: View, row: nat, width: nat, epsilon: Scalar,
                     ghost first: nat, ghost X: Tensor, ghost W: Tensor, ghost target: seq<Scalar>)
    requires Backed(input) && Backed(weight) && Backed(output) && Apart(input, output) && Apart(weight, output)
    requires RmsNormAccepts(input.shape, weight.shape, output.shape) && width == weight.shape[0]
    requires X.shape == input.shape && W.shape == weight.shape && Holds(input, X.data) && Holds(weight, W.data)
    requires first == row * width && first + width <= |X.data|
    requires target == RmsNormOf(A, X, W, epsilon).value.data && SegmentBelow(output.data, output.base, target, first)
    modifies output.data
    ensures OnlyWrites(output) && SegmentBelow(output.data, output.base, target, first + width)
  {
    RmsNormRows(A, X, W, epsilon, row, first, width);
    SubSegment(input.data, input.base, X.data, first, width);
    NormaliseRow(A, input.data, input.base + row * width, weight.data, weight.base,
                 output.data, output.base + row * width, width, epsilon, X.data[first..first + width], W.data);
    SegmentExtends(output.data, output.base, target, first, target[first..first + width]);
  }

  lemma RowsTimesWidth(shape: Shape, width: nat, rows: nat)
    requires Positive(shape) && shape != [] && width == shape[|shape| - 1] && rows == Count(shape) / width
    ensures rows * width == Count(shape)
  {
    assert shape == shape[..|shape| - 1] + [width];
    CountAppend(shape[..|shape| - 1], [width]);
    assert [width][1..] == [];
    assert Count([width]) == width;
    CountPositive(shape[..|shape| - 1]);
    DivMod.QuotientRemainder(Count(shape[..|shape| - 1]), 0, width);
  }

  // ----- causal mask -----

  /** Element i of the masked tensor, by its row and column within its matrix. */
  lemma MaskElement(A: Arith, X: Tensor, diagonal: int, i: nat, m: nat, row: nat, column: nat)
    requires |X.shape| >= 2 && i < |X.data| && m == X.shape[|X.shape| - 2] * X.shape[|X.shape| - 1] && m > 0
    requires i % m == row * X.shape[|X.shape| - 1] + column && column < X.shape[|X.shape| - 1]
    ensures CausalMaskOf(A, X, diagonal).value.data[i]
         == if column > row + diagonal then A.negativeInfinity else X.data[i]
  {
    MatrixCoordinates(X.shape, i, m);
    DivMod.QuotientRemainder(row, column, X.shape[|X.shape| - 1]);
    CellAt(X, i);
    var c := CoordinateOf(X.shape, i);
    assert CausalMaskOf(A, X, diagonal).value.data[i] == MaskCell(A, X, diagonal, c);
  }

  /** y is x with everything right of `boundary` masked. */
  predicate MaskedRow(A: Arith, x: seq<Scalar>, y: seq<Scalar>, boundary: int) {
    |x| == |y| && forall k | 0 <= k < |y| :: y[k] == if k > boundary then A.negativeInfinity else x[k]
  }

  /** Row `row` of matrix `matrix` starts at first = matrix * m + row * width. */
  lemma MaskRowElements(A: Arith, X: Tensor, diagonal: int, m: nat, matrix: nat, row: nat, width: nat, first: nat)
    requires |X.shape| >= 2 && width == X.shape[|X.shape| - 1] && row < X.shape[|X.shape| - 2]
    requires m == X.shape[|X.shape| - 2] * width && first == matrix * m + row * width && first + width <= |X.data|
    ensures MaskedRow(A, X.data[first..first + width],
                      CausalMaskOf(A, X, diagonal).value.data[first..first + width], row + diagonal)
  {
    var x: seq<Scalar>, y: seq<Scalar> :=
      X.data[first..first + width], CausalMaskOf(A, X, diagonal).value.data[first..first + width];
    forall k | 0 <= k < width ensures y[k] == if k > row + diagonal then A.negativeInfinity else x[k] {
      DivMod.CellBound(row, k, X.shape[|X.shape| - 2], width);
      DivMod.QuotientRemainder(matrix, row * width + k, m);
      MaskElement(A, X, diagonal, first + k, m, row, k);
    }
  }

  method MaskRow(A: Arith, source: array<Scalar>, start: nat, target: array<Scalar>, base: nat, width: nat,
                 row: nat, diagonal: int, ghost x: seq<Scalar>, ghost y: seq<Scalar>)
    requires start + width <= source.Length && base + width <= target.Length
    requires |x| == |y| == width && Segment(source, start, x) && MaskedRow(A, x, y, row + diagonal)
    requires ApartRanges(source, start, width, target, base, width)
    modifies target
    ensures OnlyRange(target, base, width) && Segment(target, base, y)
  {
    for column := 0 to width
      invariant OnlyRange(target, base, width) && Segment(source, start, x)
      invariant SegmentBelow(target, base, y, column)
    {
      var boundary := row + diagonal;
      assert y[column] == if column > boundary then A.negativeInfinity else x[column];
      target[base + column] := if column > boundary then A.negativeInfinity else source[start + column];
    }
  }

  /** The loop over the rows of one matrix. */
  method MaskMatrix(A: Arith, input: View, output: View, matrix: nat, rows: nat, width: nat, diagonal: int,
                    ghost begin: nat, ghost X: Tensor, ghost target: seq<Scalar>)
    requires Backed(input) && Backed(output) && Apart(input, output) && input.shape == output.shape
    requires X.shape == input.shape && Holds(input, X.data)
    requires |X.shape| >= 2 && rows == X.shape[|X.shape| - 2] && width == X.shape[|X.shape| - 1]
    requires begin == matrix * (rows * width) && begin + rows * width <= |X.data|
    requires target == CausalMaskOf(A, X, diagonal).value.data
    requires SegmentBelow(output.data, output.base, target, begin)
    modifies output.data
    ensures OnlyWrites(output) && SegmentBelow(output.data, output.base, target, begin + rows * width)
  {
    Regrouped(matrix, rows, width);
    var base := matrix * rows * width;
    ghost var first := begin;
    for row := 0 to rows
      invariant first == begin + row * width <= begin + rows * width
      invariant OnlyWrites(output) && Holds(input, X.data)
      invariant SegmentBelow(output.data, output.base, target, first)
    {
      NextRow(row, rows, width);
      MaskRowElements(A, X, diagonal, rows * width, matrix, row, width, first);
      MaskStep(A, input, output, row, width, diagonal, base + row * width, X, target);
      first := first + width;
    }
  }

  method MaskStep(A: Arith, input: View, output: View, row: nat, width: nat, diagonal: int,
                  first: nat, ghost X: Tensor, ghost target: seq<Scalar>)
    requires Backed(input) && Backed(output) && Apart(input, output) && input.shape == output.shape
    requires X.shape == input.shape && Holds(input, X.data)
    requires first + width <= |X.data| == |target|
    requires MaskedRow(A, X.data[first..first + width], target[first..first + width], row + diagonal)
    requires SegmentBelow(output.data, output.base, target, first)
    modifies output.data
    ensures OnlyWrites(output) && SegmentBelow(output.data, output.base, target, first + width)
  {
    SubSegment(input.data, input.base, X.data, first, width);
    MaskRow(A, input.data, input.base + first, output.data, output.base + first, width,
            row, diagonal, X.data[first..first + width], target[first..first + width]);
    SegmentExtends(output.data, output.base, target, first, target[first..first + width]);
  }

  lemma Regrouped(matrix: nat, rows: nat, width: nat)
    ensures matrix * rows * width == matrix * (rows * width)
  {
  }

  /** The checks of `causal_mask`. */
  predicate MaskAccepts(attributes: Attributes, input: Shape, output: Shape) {
    && input == output && |output| >= 2 && output[|output| - 2] == output[|output| - 1]
    && "masked_value" in attributes && attributes["masked_value"] == JString("-inf")
    && ("diagonal" in attributes ==> attributes["diagonal"].JInt?)
  }

  /** `causal_mask` */
  method CausalMaskInto(A: Arith, attributes: Attributes, inputs: seq<View>, output: View) returns (s: Status)
    requires KernelViews(inputs, output)
    modifies output.data
    ensures OnlyWrites(output)
    ensures s == Success <==> |inputs| == 1 && MaskAccepts(attributes, inputs[0].shape, output.shape)
    ensures s == Success ==> old(MaskOperation(A, attributes, TensorOf(inputs[0]))) == Some(TensorOf(output))
  {
    if |inputs| != 1 || inputs[0].shape != output.shape || |output.shape| < 2
      || output.shape[|output.shape| - 2] != output.shape[|output.shape| - 1] {
      return Failure(InvalidArgument);
    }
    if "masked_value" !in attributes || attributes["masked_value"] != JString("-inf") {
      return Failure(Unsupported);
    }
    var diagonal := 0;
    if "diagonal" in attributes {
      if !attributes["diagonal"].JInt? {
        return Failure(InvalidArgument);
      }
      diagonal := attributes["diagonal"].integer;
    }
    var query, key := output.shape[|output.shape| - 2], output.shape[|output.shape| - 1];
    var count := CheckedTensorElementCount(output.shape);
    if count.Err? {
      return Failure(Overflow);
    }
    MatrixCountOf(output.shape, query * key);
    MaskLoop(A, inputs[0], output, count.value / (query * key), query, key, diagonal, TensorOf(inputs[0]));
    return Success;
  }

  lemma MatrixCountOf(shape: Shape, m: nat)
    requires Positive(shape) && |shape| >= 2 && m == shape[|shape| - 2] * shape[|shape| - 1]
    ensures m > 0 && Count(shape) / m * m == Count(shape)
  {
    DivMod.MulMonotone(1, shape[|shape| - 2], shape[|shape| - 1]);
    CountSplit(shape, |shape| - 2);
    var tail := shape[|shape| - 2..];
    assert tail == [shape[|shape| - 2], shape[|shape| - 1]] && tail[1..] == [shape[|shape| - 1]];
    assert tail[1..][1..] == [];
    assert Count(tail[1..]) == shape[|shape| - 1];
    CountPositive(shape[..|shape| - 2]);
    DivMod.QuotientRemainder(Count(shape[..|shape| - 2]), 0, m);
  }

  method MaskLoop(A: Arith, input: View, output: View, matrices: nat, rows: nat, width: nat, diagonal: int,
                  ghost X: Tensor)
    requires Backed(input) && Backed(output) && Apart(input, output) && input.shape == output.shape
    requires X.shape == input.shape && Holds(input, X.data)
    requires |X.shape| >= 2 && rows == X.shape[|X.shape| - 2] && width == X.shape[|X.shape| - 1]
    requires matrices * (rows * width) == |X.data|
    modifies output.data
    ensures OnlyWrites(output) && CausalMaskOf(A, X, diagonal) == Some(TensorOf(output))
  {
    ghost var target := CausalMaskOf(A, X, diagonal).value;
    ghost var m := rows * width;
    ghost var first: nat := 0;
    for matrix := 0 to matrices
      invariant first == matrix * m <= matrices * m
      invariant OnlyWrites(output) && Holds(input, X.data)
      invariant SegmentBelow(output.data, output.base, target.data, first)
    {
      NextRow(matrix, matrices, m);
      MaskMatrix(A, input, output, matrix, rows, width, diagonal, first, X, target.data);
      first := first + m;
    }
    SegmentIsTensor(output, target);
  }
}
