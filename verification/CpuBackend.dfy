/** The fused bias-GELU epilogue and the dispatch of CpuBackend::execute (cpp/src/runtime/cpu_backend.cpp). */
module CpuBackend {
  import opened Basics
  import opened GraphIR
  import opened Shapes
  import opened Tensors
  import opened Evaluator
  import opened TensorSizes
  import opened IndexArithmetic
  import opened Views
  import opened ElementwiseKernels
  import opened TransposeKernel
  import opened ProjectionKernels
  import opened RowKernels
  import opened SoftmaxKernel
  import DivMod

  // ----- fused bias and activation -----

  /** A rank-one bias as wide as the last dimension. */
  predicate BiasFits(bias: Shape, output: Shape) {
    |bias| == 1 && output != [] && bias[0] == output[|output| - 1]
  }

  /** Broadcasting a fitting bias adds element i modulo the width. */
  lemma BiasElement(f: (Scalar, Scalar) -> Scalar, X: Tensor, b: Tensor, i: nat)
    requires BiasFits(b.shape, X.shape) && i < |X.data|
    ensures Binary(f, X, b).Some? && |Binary(f, X, b).value.data| == |X.data|
    ensures i % b.shape[0] < |b.data|
    ensures Binary(f, X, b).value.data[i] == f(X.data[i], b.data[i % b.shape[0]])
  {
    BiasSpreads(X.shape, b.shape);
    var c, width := CoordinateOf(X.shape, i), b.shape[0];
    LaneCoordinates(X.shape, i);
    ProjectSelf(X.shape, c);
    CellAt(X, i);
    assert c[|c| - 1] == i % width;
    assert Project(c, b.shape) == [i % width] by {
      assert width == 1 ==> i % width == 0;
    }
    WeightAt(b, width, i % width);
    assert Binary(f, X, b).value.data[i] == BinaryCell(f, X, b, c);
  }

  /** `apply_fused_bias_gelu`: in place over the projection already in the output. */
  method ApplyFusedBiasGelu(A: Arith, op: Operation, bias: View, output: View, ghost X: Tensor, ghost b: Tensor)
    returns (s: Status)
    requires Backed(bias) && Backed(output) && Apart(bias, output)
    requires TensorOf(output) == X && TensorOf(bias) == b
    modifies output.data
    ensures OnlyWrites(output)
    ensures s == Success <==> BiasFits(bias.shape, output.shape) && FusedContract(op)
    ensures s == Success ==> Binary(A.add, X, b).Some?
    ensures s == Success ==> TensorOf(output) == Map(A.gelu, Binary(A.add, X, b).value)
  {
    if |bias.shape| != 1 || output.shape == [] || bias.shape[0] != output.shape[|output.shape| - 1] {
      return Failure(InvalidArgument);
    }
    if !FusedContract(op) {
      return Failure(Unsupported);
    }
    var count := CheckedTensorElementCount(output.shape);
    if count.Err? {
      return Failure(Overflow);
    }
    BiasSpreads(X.shape, b.shape);
    ghost var target := Map(A.gelu, Binary(A.add, X, b).value);
    forall i: nat | i < |X.data|
      ensures i % bias.shape[0] < |b.data|
      ensures target.data[i] == A.gelu(A.add(X.data[i], b.data[i % bias.shape[0]]))
    {
      BiasElement(A.add, X, b, i);
    }
    BiasLoop(A, bias, output, output.shape[|output.shape| - 1], count.value, X.data, b.data, target.data);
    SegmentIsTensor(output, target);
    return Success;
  }

  method BiasLoop(A: Arith, bias: View, output: View, width: nat, n: nat,
                  ghost x: seq<Scalar>, ghost b: seq<Scalar>, ghost y: seq<Scalar>)
    requires Backed(bias) && Backed(output) && Apart(bias, output) && n == Count(output.shape) && width > 0
    requires |x| == |y| == n && |b| == Count(bias.shape) && Holds(bias, b) && Holds(output, x)
    requires forall i: nat | i < n :: i % width < |b| && y[i] == A.gelu(A.add(x[i], b[i % width]))
    modifies output.data
    ensures OnlyWrites(output) && Segment(output.data, output.base, y)
  {
    hide Count, Positive;
    for index := 0 to n
      invariant OnlyWrites(output) && Holds(bias, b)
      invariant SegmentBelow(output.data, output.base, y, index)
      invariant forall p | output.base + index <= p < output.base + n :: output.data[p] == x[p - output.base]
    {
      assert y[index] == A.gelu(A.add(x[index], b[index % width]));
      output.data[output.base + index] :=
        A.gelu(A.add(output.data[output.base + index], bias.data[bias.base + index % width]));
    }
  }

  // ----- what the backend computes -----

  /** A result counts only if it has the declared shape. */
  function Shaped(t: Option<Tensor>, shape: Shape): Option<Tensor> {
    if t.Some? && t.value.shape == shape then t else None
  }

  /** Without a bias the backend does not look at the activation attributes. */
  function CpuProjection(A: Arith, op: Operation, operands: seq<Tensor>): Option<Tensor>
    requires |operands| == 2 || |operands| == 3
  {
    var product := Product(A, op.kind.Linear?, operands[0], operands[1]);
    if product.None? || |operands| == 2 then product
    else
      var biased := Binary(A.add, product.value, operands[2]);
      if biased.Some? && BiasFits(operands[2].shape, product.value.shape) && FusedContract(op)
      then Some(Map(A.gelu, biased.value))
      else None
  }

  function CpuRmsNorm(A: Arith, attributes: Attributes, operands: seq<Tensor>): Option<Tensor>
    requires |operands| == 2
  {
    if "epsilon" in attributes && IsNumber(attributes["epsilon"]) && A.positiveElement(attributes["epsilon"])
    then RmsNormOf(A, operands[0], operands[1], A.literal(attributes["epsilon"]))
    else None
  }

  /** The tensor a kernel leaves in its output; None when it reports an error. */
  function CpuResult(A: Arith, op: Operation, operands: seq<Tensor>, shape: Shape): Option<Tensor> {
    if !ArityOk(op, |operands|) then None
    else
      match op.kind
      case Input | Parameter | Constant => None
      case MatMul | Linear => CpuProjection(A, op, operands)
      case Add => Binary(A.add, operands[0], operands[1])
      case Multiply => Binary(A.mul, operands[0], operands[1])
      case Divide => Binary(A.div, operands[0], operands[1])
      case RmsNorm => CpuRmsNorm(A, op.attributes, operands)
      case Gelu => if ExactGelu(op.attributes) then Some(Map(A.gelu, operands[0])) else None
      case Softmax => SoftmaxOperation(A, op.attributes, operands[0])
      case Reshape => ReshapeOf(operands[0], shape)
      case Transpose => TransposeOperation(op.attributes, operands[0])
      case CausalMask =>
        if MaskAccepts(op.attributes, operands[0].shape, operands[0].shape)
        then MaskOperation(A, op.attributes, operands[0])
        else None
  }

  function CpuOperation(A: Arith, op: Operation, operands: seq<Tensor>, shape: Shape): Option<Tensor> {
    Shaped(CpuResult(A, op, operands, shape), shape)
  }

  /** `linear` relies on its caller for the leading dimensions of the output. */
  predicate LinearTrusted(op: Operation, inputs: seq<View>, output: View) {
    op.kind.Linear? && |inputs| >= 2 && LinearAccepts(inputs[0].shape, inputs[1].shape, output.shape) ==>
      LinearShape(inputs[0].shape, inputs[1].shape) == Some(output.shape)
  }

  /** The operand views denote these tensors. */
  ghost predicate Denote(inputs: seq<View>, operands: seq<Tensor>)
    requires forall k | 0 <= k < |inputs| :: Backed(inputs[k])
    reads set k | 0 <= k < |inputs| :: inputs[k].data
  {
    |operands| == |inputs| && forall k | 0 <= k < |inputs| :: operands[k] == TensorOf(inputs[k])
  }

  /** The kernel either leaves what `expected` says or fails where it says nothing. */
  ghost predicate Delivers(s: Status, expected: Option<Tensor>, output: View)
    requires Backed(output)
    reads output.data
  {
    expected == if s == Success then Some(TensorOf(output)) else None
  }

  /** The plain product of `matmul` and `linear`. */
  method ProductInto(A: Arith, tiled: bool, linear: bool, left: View, right: View, output: View,
                     ghost x: Tensor, ghost y: Tensor)
    returns (s: Status)
    requires Backed(left) && Backed(right) && Backed(output) && Apart(left, output) && Apart(right, output)
    requires x == TensorOf(left) && y == TensorOf(right)
    requires linear && LinearAccepts(left.shape, right.shape, output.shape) ==>
      LinearShape(left.shape, right.shape) == Some(output.shape)
    modifies output.data
    ensures OnlyWrites(output)
    ensures Delivers(s, Shaped(Product(A, linear, x, y), output.shape), output)
  {
    if linear {
      LinearAgreement(left.shape, right.shape, output.shape);
      s := LinearInto(A, tiled, left, right, output);
    } else {
      s := MatMulInto(A, tiled, left, right, output);
    }
  }

  lemma LinearAgreement(input: Shape, weight: Shape, output: Shape)
    requires LinearAccepts(input, weight, output) ==> LinearShape(input, weight) == Some(output)
    ensures LinearAccepts(input, weight, output) <==> LinearShape(input, weight) == Some(output)
    ensures LinearAccepts(input, weight, output) ==> RowsFit(input, output)
  {
    if LinearShape(input, weight) == Some(output) {
      assert output[..|output| - 1] == input[..|input| - 1];
    }
  }

  /** What the epilogue adds to a product of the declared shape. */
  lemma ProjectionResult(A: Arith, op: Operation, operands: seq<Tensor>, shape: Shape)
    requires op.IsProjection()
    ensures var product := if |operands| >= 2 then Product(A, op.kind.Linear?, operands[0], operands[1]) else None;
      CpuOperation(A, op, operands, shape)
      == if |operands| == 2 then Shaped(product, shape)
         else if |operands| != 3 || Shaped(product, shape).None?
           || !BiasFits(operands[2].shape, shape) || !FusedContract(op) then None
         else if Binary(A.add, product.value, operands[2]).None? then None
         else Some(Map(A.gelu, Binary(A.add, product.value, operands[2]).value))
  {
    hide Product, Binary, Count;
    if |operands| == 3 {
      var product := Product(A, op.kind.Linear?, operands[0], operands[1]);
      if product.Some? && BiasFits(operands[2].shape, product.value.shape) {
        BiasSpreads(product.value.shape, operands[2].shape);
      }
    }
  }

  /** `matmul` and `linear` */
  method ExecuteProjection(A: Arith, tiled: bool, op: Operation, inputs: seq<View>, output: View,
                           ghost operands: seq<Tensor>)
    returns (s: Status)
    requires op.IsProjection() && KernelViews(inputs, output) && Denote(inputs, operands)
    requires LinearTrusted(op, inputs, output)
    modifies output.data
    ensures OnlyWrites(output)
    ensures Delivers(s, CpuOperation(A, op, operands, output.shape), output)
  {
    ProjectionResult(A, op, operands, output.shape);
    if |inputs| != 2 && |inputs| != 3 {
      return Failure(InvalidArgument);
    }
    ghost var expected := CpuOperation(A, op, operands, output.shape);
    s := ProductInto(A, tiled, op.kind.Linear?, inputs[0], inputs[1], output, operands[0], operands[1]);
    if |inputs| == 3 && s == Success {
      s := ApplyFusedBiasGelu(A, op, inputs[2], output, TensorOf(output), operands[2]);
    }
  }

  /** The elementwise operators. */
  function BinaryOperator(A: Arith, kind: OperationType): Option<(Scalar, Scalar) -> Scalar> {
    match kind
    case Add => Some(A.add)
    case Multiply => Some(A.mul)
    case Divide => Some(A.div)
    case _ => None
  }

  method ExecuteBinary(A: Arith, op: Operation, inputs: seq<View>, output: View, ghost operands: seq<Tensor>)
    returns (s: Status)
    requires BinaryOperator(A, op.kind).Some? && KernelViews(inputs, output) && Denote(inputs, operands)
    modifies output.data
    ensures OnlyWrites(output)
    ensures Delivers(s, CpuOperation(A, op, operands, output.shape), output)
  {
    s := ElementwiseBinary(BinaryOperator(A, op.kind).value, inputs, output);
  }

  method ExecuteRmsNorm(A: Arith, op: Operation, inputs: seq<View>, output: View, ghost operands: seq<Tensor>)
    returns (s: Status)
    requires op.kind.RmsNorm? && KernelViews(inputs, output) && Denote(inputs, operands)
    modifies output.data
    ensures OnlyWrites(output)
    ensures Delivers(s, CpuOperation(A, op, operands, output.shape), output)
  {
    s := RmsNormInto(A, op.attributes, inputs, output);
  }

  method ExecuteSoftmax(A: Arith, op: Operation, inputs: seq<View>, output: View, ghost operands: seq<Tensor>)
    returns (s: Status)
    requires op.kind.Softmax? && KernelViews(inputs, output) && Denote(inputs, operands)
    modifies output.data
    ensures OnlyWrites(output)
    ensures Delivers(s, CpuOperation(A, op, operands, output.shape), output)
  {
    s := SoftmaxInto(A, op.attributes, inputs, output);
  }

  method ExecuteMask(A: Arith, op: Operation, inputs: seq<View>, output: View, ghost operands: seq<Tensor>)
    returns (s: Status)
    requires op.kind.CausalMask? && KernelViews(inputs, output) && Denote(inputs, operands)
    modifies output.data
    ensures OnlyWrites(output)
    ensures Delivers(s, CpuOperation(A, op, operands, output.shape), output)
  {
    s := CausalMaskInto(A, op.attributes, inputs, output);
  }

  /** GELU and the movement kernels. */
  method ExecuteCopying(A: Arith, op: Operation, inputs: seq<View>, output: View, ghost operands: seq<Tensor>)
    returns (s: Status)
    requires op.kind.Gelu? || op.kind.Reshape? || op.kind.Transpose?
    requires KernelViews(inputs, output) && Denote(inputs, operands)
    modifies output.data
    ensures OnlyWrites(output)
    ensures Delivers(s, CpuOperation(A, op, operands, output.shape), output)
  {
    if op.kind.Gelu? {
      s := GeluInto(A, op.attributes, inputs, output);
    } else if op.kind.Reshape? {
      s := CopyReshaped(inputs, output);
    } else {
      s := TransposeInto(op.attributes, inputs, output);
    }
  }

  /** `validate_view` on every view: backed memory passes all its checks but contiguity. */
  method ViewsContiguous(inputs: seq<View>, output: View) returns (accepted: bool)
    requires KernelViews(inputs, output)
    ensures accepted <==> output.contiguous && forall k | 0 <= k < |inputs| :: inputs[k].contiguous
  {
    if !output.contiguous {
      return false;
    }
    for k := 0 to |inputs|
      invariant forall j | 0 <= j < k :: inputs[j].contiguous
    {
      if !inputs[k].contiguous {
        return false;
      }
    }
    return true;
  }

  /**
   `CpuBackend::execute`. The result is a function of the operand tensors alone: nothing that was
   in the output before is read, and nothing outside the output is written.
   */
  method Execute(A: Arith, tiled: bool, op: Operation, inputs: seq<View>, output: View, ghost operands: seq<Tensor>)
    returns (s: Status)
    requires KernelViews(inputs, output) && Denote(inputs, operands) && LinearTrusted(op, inputs, output)
    modifies output.data
    ensures OnlyWrites(output)
    ensures output.contiguous && (forall k | 0 <= k < |inputs| :: inputs[k].contiguous) ==>
      Delivers(s, CpuOperation(A, op, operands, output.shape), output)
    ensures !(output.contiguous && (forall k | 0 <= k < |inputs| :: inputs[k].contiguous)) ==> s == Failure(Unsupported)
  {
    var accepted := ViewsContiguous(inputs, output);
    if !accepted {
      return Failure(Unsupported);
    }
    match op.kind {
      case MatMul | Linear => s := ExecuteProjection(A, tiled, op, inputs, output, operands);
      case Add | Multiply | Divide => s := ExecuteBinary(A, op, inputs, output, operands);
      case RmsNorm => s := ExecuteRmsNorm(A, op, inputs, output, operands);
      case Softmax => s := ExecuteSoftmax(A, op, inputs, output, operands);
      case CausalMask => s := ExecuteMask(A, op, inputs, output, operands);
      case Gelu | Reshape | Transpose => s := ExecuteCopying(A, op, inputs, output, operands);
      case Input | Parameter | Constant => s := Failure(InvalidArgument);
    }
  }
}
