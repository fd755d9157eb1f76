/** What operations that only move or mask elements evaluate to, entry by entry (python/forgeir/reference/evaluator.py). */
module OperationMeaning {
  import opened Basics
  import opened GraphIR
  import opened Shapes
  import opened Tensors
  import opened Evaluator

  /** Entry (row, column) of a causal mask: minus infinity right of the diagonal the attribute moves to the right. */
  lemma MaskedEntry(A: Arith, op: Operation, x: Tensor, shape: Shape, c: Coords)
    requires op.kind.CausalMask? && |x.shape| >= 2 && InBounds(x.shape, c)
    requires "diagonal" in op.attributes ==> op.attributes["diagonal"].JInt?
    ensures var y := EvaluateOperation(A, op, [x], shape);
      && y.Some? && y.value.shape == x.shape
      && var row, column := c[|c| - 2], c[|c| - 1];
      && (if "diagonal" in op.attributes
          then At(y.value, c) == if column - row > op.attributes["diagonal"].integer then A.negativeInfinity else At(x, c)
          else At(y.value, c) == if column > row then A.negativeInfinity else At(x, c))
  {
    DecodeEncode(x.shape, c);
    EncodeBound(x.shape, c);
  }

  /** Axis k of a transposed tensor is axis p[k] of the operand. */
  lemma TransposedEntry(A: Arith, op: Operation, x: Tensor, shape: Shape, p: seq<int>, c: Coords)
    requires op.kind.Transpose? && IntegerArrayOf(op.attributes, "permutation") == Some(p)
    requires IsPermutation(p, |x.shape|) && InBounds(x.shape, c)
    ensures var y := EvaluateOperation(A, op, [x], shape);
      && y.Some? && |y.value.shape| == |x.shape|
      && (forall k | 0 <= k < |p| :: y.value.shape[k] == x.shape[p[k]])
      && var d := seq(|p|, k requires 0 <= k < |p| => c[p[k]]);
      && InBounds(y.value.shape, d) && At(y.value, d) == At(x, c)
  {
    var d := seq(|p|, k requires 0 <= k < |p| => c[p[k]]);
    assert InBounds(Permute(x.shape, p), d);
    TransposeAt(x, p, d);
    assert Unpermute(d, p) == c;
  }

  /** A reshape moves no element: entries with the same place in row-major order are equal. */
  lemma ReshapedEntry(A: Arith, op: Operation, x: Tensor, shape: Shape, c: Coords, d: Coords)
    requires op.kind.Reshape? && Positive(shape) && Count(shape) == Count(x.shape)
    requires InBounds(x.shape, c) && InBounds(shape, d) && Encode(x.shape, c) == Encode(shape, d)
    ensures var y := EvaluateOperation(A, op, [x], shape);
      y.Some? && y.value.shape == shape && At(y.value, d) == At(x, c)
  {
    EncodeBound(x.shape, c);
    EncodeBound(shape, d);
  }
}
