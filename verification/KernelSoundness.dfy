/**
 How the verifier, the CPU kernels and the reference evaluator fit together, one operation at a
 time: which verified operations a kernel accepts, and when it computes what the evaluator does.
 */
module KernelSoundness {
  import opened Basics
  import opened GraphIR
  import opened Shapes
  import opened Tensors
  import opened Evaluator
  import opened Views
  import opened RowKernels
  import opened SoftmaxKernel
  import opened CpuBackend
  import opened SemanticVerifier
  import opened ProjectionKernels

  /** The attribute conventions the CPU kernels implement; a caller can check them on the operation alone. */
  predicate Supported(A: Arith, op: Operation) {
    match op.kind
    case Input | Parameter | Constant => false
    case MatMul | Linear => |op.inputs| == 3 ==> FusedContract(op)
    case Gelu => ExactGelu(op.attributes)
    case RmsNorm =>
      "epsilon" in op.attributes && IsNumber(op.attributes["epsilon"]) && A.positiveElement(op.attributes["epsilon"])
    case CausalMask =>
      && "masked_value" in op.attributes && op.attributes["masked_value"] == JString("-inf")
      && ("diagonal" in op.attributes ==> op.attributes["diagonal"].JInt?)
    case Add | Multiply | Divide | Softmax | Reshape | Transpose => true
  }

  /** The operands have their declared shapes. */
  predicate Typed(types: Types, op: Operation, operands: seq<Tensor>)
    requires Resolved(types, op)
  {
    |operands| == |op.inputs| && forall k | 0 <= k < |operands| :: operands[k].shape == InputShape(types, op, k)
  }

  lemma ProjectionRuns(A: Arith, types: Types, op: Operation, operands: seq<Tensor>)
    requires Resolved(types, op) && op.IsProjection() && ShapeOk(A, types, op) && Typed(types, op, operands)
    ensures Product(A, op.kind.Linear?, operands[0], operands[1]).Some?
    ensures Product(A, op.kind.Linear?, operands[0], operands[1]).value.shape == types[op.output].shape
    ensures |operands| == 3 ==> BiasFits(operands[2].shape, types[op.output].shape)
    ensures |operands| == 3 ==>
      Binary(A.add, Product(A, op.kind.Linear?, operands[0], operands[1]).value, operands[2]).Some?
  {
    if |operands| == 3 {
      BiasSpreads(types[op.output].shape, operands[2].shape);
    }
  }

  /**
   On a verified operation no shape, stride or overflow check of any kernel can fire: the kernel
   succeeds exactly when it supports the operation's attributes.
   */
  lemma VerifiedOperationRuns(A: Arith, types: Types, op: Operation, operands: seq<Tensor>)
    requires Resolved(types, op) && !op.IsDeclaration() && ShapeOk(A, types, op) && Typed(types, op, operands)
    ensures CpuOperation(A, op, operands, types[op.output].shape).Some? <==> Supported(A, op)
  {
    var shape := types[op.output].shape;
    if op.IsProjection() {
      ProjectionRuns(A, types, op, operands);
      ProjectionResult(A, op, operands, shape);
    }
  }

  /** A linear layer declares the shape its operands imply. */
  predicate LinearTyped(types: Types, op: Operation)
    requires Resolved(types, op)
  {
    op.kind.Linear? ==> LinearShape(InputShape(types, op, 0), InputShape(types, op, 1)) == Some(types[op.output].shape)
  }

  /** The verifier leaves nothing for `linear` to take on trust. */
  lemma VerifiedLinearIsTyped(A: Arith, types: Types, op: Operation)
    requires Resolved(types, op) && ShapeOk(A, types, op)
    ensures LinearTyped(types, op)
  {
  }

  lemma TypedLinearIsTrusted(types: Types, op: Operation, inputs: seq<View>, output: View)
    requires Resolved(types, op) && LinearTyped(types, op)
    requires |inputs| == |op.inputs| && forall k | 0 <= k < |inputs| :: inputs[k].shape == InputShape(types, op, k)
    requires output.shape == types[op.output].shape
    ensures LinearTrusted(op, inputs, output)
  {
  }

  /** Not a two-operand projection that asks for an activation. */
  predicate Plain(op: Operation) {
    op.IsProjection() && |op.inputs| == 2 ==> !Activated(op)
  }

  /** Whatever a kernel computes for a verified operation, the reference evaluator computes too. */
  lemma KernelAgreesWithEvaluator(A: Arith, types: Types, op: Operation, operands: seq<Tensor>)
    requires Resolved(types, op) && !op.IsDeclaration() && ShapeOk(A, types, op) && Typed(types, op, operands)
    requires Plain(op) && Supported(A, op)
    ensures EvaluateOperation(A, op, operands, types[op.output].shape)
         == CpuOperation(A, op, operands, types[op.output].shape)
  {
    var shape := types[op.output].shape;
    if op.IsProjection() {
      ProjectionRuns(A, types, op, operands);
      ProjectionResult(A, op, operands, shape);
    }
  }

  /**
   A two-operand projection: the kernel ignores an activation attribute and the evaluator honours
   it, so they agree under every arithmetic exactly when there is none.
   */
  lemma ProjectionAgreement(op: Operation, x: Tensor, y: Tensor, shape: Shape)
    requires op.IsProjection()
    requires (if op.kind.Linear? then LinearShape(x.shape, y.shape) else MatMulShape(x.shape, y.shape)) == Some(shape)
    ensures (forall A: Arith :: CpuOperation(A, op, [x, y], shape) == EvaluateOperation(A, op, [x, y], shape))
       <==> !Activated(op)
  {
    forall A: Arith | !Activated(op)
      ensures CpuOperation(A, op, [x, y], shape) == EvaluateOperation(A, op, [x, y], shape)
    {
      ProjectionResult(A, op, [x, y], shape);
    }
    if Activated(op) {
      ActivatedDiffers(op, x, y, shape);
    }
  }

  lemma ActivatedDiffers(op: Operation, x: Tensor, y: Tensor, shape: Shape)
    requires op.IsProjection() && Activated(op)
    requires (if op.kind.Linear? then LinearShape(x.shape, y.shape) else MatMulShape(x.shape, y.shape)) == Some(shape)
    ensures CpuOperation(Increments(), op, [x, y], shape) != EvaluateOperation(Increments(), op, [x, y], shape)
  {
    var A := Increments();
    ProjectionResult(A, op, [x, y], shape);
    assert [x, y][0] == x && [x, y][1] == y;
    ActivationShows(Product(A, op.kind.Linear?, x, y).value);
  }

  /** One by one: a 1x1 product that asks for an activation. */
  function ActivatedProduct(): Operation {
    Operation("op2", MatMul, ["v0", "v1"], "v2",
              map["fused_activation" := JString("GELU"), "fused_activation_approximate" := JString("none")])
  }

  function ProductTypes(): Types {
    var d := Descriptor(Float32, [1, 1]);
    map["v0" := d, "v1" := d, "v2" := d]
  }

  /** The verifier accepts such an operation, and on it the kernel and the evaluator differ. */
  lemma ActivatedProductDiverges(x: Tensor, y: Tensor)
    requires x.shape == [1, 1] && y.shape == [1, 1]
    ensures Resolved(ProductTypes(), ActivatedProduct())
    ensures OperationOk(Increments(), ProductTypes(), ActivatedProduct())
    ensures CpuOperation(Increments(), ActivatedProduct(), [x, y], [1, 1])
         != EvaluateOperation(Increments(), ActivatedProduct(), [x, y], [1, 1])
  {
    var s: Shape := [1, 1];
    var empty: Shape := [];
    assert s[..0] == empty && BroadcastShape(empty, empty) == Some(empty) by {
      assert BroadcastShape(empty, empty).value == empty;
    }
    assert empty + [1, 1] == s;
    assert MatMulShape(s, s) == Some(s);
    ActivatedDiffers(ActivatedProduct(), x, y, s);
  }
}
