/** The shape and data-type rules of cpp/src/passes/semantic_verifier.cpp. */
module SemanticVerifier {
  import opened Basics
  import opened GraphIR
  import opened Shapes
  import opened Tensors
  import opened Sequential
  import opened Evaluator
  import opened TensorSizes
  import opened IndexArithmetic
  import opened TransposeKernel

  type Types = map<Id, Descriptor>

  /** What the loader guarantees about every operation: known values and the right operand count. */
  predicate Resolved(types: Types, op: Operation) {
    && op.output in types
    && (forall k | 0 <= k < |op.inputs| :: op.inputs[k] in types)
    && ArityOk(op, |op.inputs|)
  }

  function InputShape(types: Types, op: Operation, k: nat): Shape
    requires Resolved(types, op) && k < |op.inputs|
  {
    types[op.inputs[k]].shape
  }

  // ----- shape inference -----

  /** The boolean attribute `bias` agrees with the operand count. */
  predicate BiasDeclared(op: Operation) {
    op.HasFlag("bias", |op.inputs| == 3)
  }

  predicate FeaturesDeclared(op: Operation, weight: Shape) {
    |weight| == 2
    && IntegerOf(op.attributes, "in_features") == Some(weight[1])
    && IntegerOf(op.attributes, "out_features") == Some(weight[0])
  }

  function InferMatMul(types: Types, op: Operation): Option<Shape>
    requires Resolved(types, op) && op.kind.MatMul?
  {
    var product := MatMulShape(InputShape(types, op, 0), InputShape(types, op, 1));
    if product.None? then None
    else if |op.inputs| == 3
      && !(BiasDeclared(op) && InputShape(types, op, 2) == [product.value[|product.value| - 1]])
    then None
    else product
  }

  function InferLinear(types: Types, op: Operation): Option<Shape>
    requires Resolved(types, op) && op.kind.Linear?
  {
    var weight := InputShape(types, op, 1);
    var product := LinearShape(InputShape(types, op, 0), weight);
    if product.None? || !BiasDeclared(op) || !FeaturesDeclared(op, weight)
      || (|op.inputs| == 3 && InputShape(types, op, 2) != [weight[0]])
    then None
    else product
  }

  predicate RmsNormRules(A: Arith, types: Types, op: Operation)
    requires Resolved(types, op) && op.kind.RmsNorm?
  {
    var input := InputShape(types, op, 0);
    var axis := IntegerOf(op.attributes, "axis");
    && input != [] && InputShape(types, op, 1) == [input[|input| - 1]]
    && axis.Some? && (axis.value == -1 || axis.value == |input| - 1)
    && "epsilon" in op.attributes && IsNumber(op.attributes["epsilon"]) && A.positive(op.attributes["epsilon"])
  }

  /** Reshape targets are explicit, positive, and have as many elements as the input. */
  function InferReshape(op: Operation, input: Shape): Option<Shape> {
    var target := IntegerArrayOf(op.attributes, "shape");
    if target.Some? && Positive(target.value) && Count(target.value) == Count(input) <= UINT64_MAX
    then target else None
  }

  function InferTranspose(op: Operation, input: Shape): Option<Shape> {
    var p := IntegerArrayOf(op.attributes, "permutation");
    if p.Some? && IsPermutation(p.value, |input|) then Some(Permute(input, p.value)) else None
  }

  predicate AxisInRange(op: Operation, rank: nat) {
    var axis := IntegerOf(op.attributes, "axis");
    axis.Some? && -(rank as int) <= axis.value < rank
  }

  predicate SquareMatrices(input: Shape) {
    |input| >= 2 && input[|input| - 2] == input[|input| - 1]
  }

  /** The output shape the operands and attributes imply; None when a rule is violated. */
  function InferredShape(A: Arith, types: Types, op: Operation): Option<Shape>
    requires Resolved(types, op) && !op.IsDeclaration()
  {
    var input := InputShape(types, op, 0);
    match op.kind
    case MatMul => InferMatMul(types, op)
    case Linear => InferLinear(types, op)
    case Add | Multiply | Divide => BroadcastShape(input, InputShape(types, op, 1))
    case RmsNorm => if RmsNormRules(A, types, op) then Some(input) else None
    case Gelu => Some(input)
    case Softmax => if AxisInRange(op, |input|) then Some(input) else None
    case Reshape => InferReshape(op, input)
    case Transpose => InferTranspose(op, input)
    case CausalMask => if SquareMatrices(input) then Some(input) else None
  }

  predicate ShapeOk(A: Arith, types: Types, op: Operation)
    requires Resolved(types, op)
  {
    op.IsDeclaration() || InferredShape(A, types, op) == Some(types[op.output].shape)
  }

  // ----- data types -----

  predicate SameDType(types: Types, op: Operation, requireFloat: bool)
    requires Resolved(types, op) && |op.inputs| > 0
  {
    var expected := types[op.inputs[0]].dtype;
    && (forall k | 0 <= k < |op.inputs| :: types[op.inputs[k]].dtype == expected)
    && (if requireFloat then expected.Float32? else !expected.Boolean?)
    && types[op.output].dtype == expected
  }

  function LiteralType(j: Json): Option<DataType> {
    match j
    case JBool(_) => Some(Boolean)
    case JInt(_) => Some(Int64)
    case JFloat(_) => Some(Float32)
    case _ => None
  }

  predicate ConstantRules(attributes: Attributes, d: Descriptor) {
    "value" in attributes && LiteralType(attributes["value"]) == Some(d.dtype) && d.shape == []
  }

  predicate DTypeOk(types: Types, op: Operation)
    requires Resolved(types, op)
  {
    match op.kind
    case Input | Parameter => true
    case Constant => ConstantRules(op.attributes, types[op.output])
    case MatMul | Linear | Add | Multiply => SameDType(types, op, false)
    case Divide | RmsNorm | Gelu | Softmax | CausalMask => SameDType(types, op, true)
    case Reshape | Transpose => types[op.output].dtype == types[op.inputs[0]].dtype
  }

  predicate OperationOk(A: Arith, types: Types, op: Operation)
    requires Resolved(types, op)
  {
    ShapeOk(A, types, op) && DTypeOk(types, op)
  }

  /** The verifier's judgement on a graph. */
  predicate Verified(A: Arith, types: Types, ops: seq<Operation>) {
    forall i {:trigger Resolved(types, ops[i])} | 0 <= i < |ops| ::
      Resolved(types, ops[i]) && OperationOk(A, types, ops[i])
  }

  /** The judgement does not depend on the order of the operations. */
  lemma VerifiedElsewhere(A: Arith, types: Types, a: seq<Operation>, b: seq<Operation>)
    requires SameOperations(a, b) && Verified(A, types, a)
    ensures Verified(A, types, b)
  {
    forall i | 0 <= i < |b| ensures Resolved(types, b[i]) && OperationOk(A, types, b[i]) {
      assert b[i] in a;
      var k :| 0 <= k < |a| && a[k] == b[i];
      assert Resolved(types, a[k]);
    }
  }

  // ----- the verifier -----

  /** `matmul_dimensions` */
  method MatMulDimensions(left: Shape, right: Shape) returns (r: Option<Shape>)
    ensures r == MatMulShape(left, right)
  {
    if |left| < 2 || |right| < 2 {
      return None;
    }
    if left[|left| - 1] != right[|right| - 2] {
      return None;
    }
    var batch := ComputeBroadcastShape(left[..|left| - 2], right[..|right| - 2]);
    if batch.None? {
      return None;
    }
    var result := batch.value + [left[|left| - 2]] + [right[|right| - 1]];
    assert result == batch.value + [left[|left| - 2], right[|right| - 1]];
    return Some(result);
  }

  /** `integer_array_attribute` */
  method ReadIntegerArray(attributes: Attributes, name: string) returns (r: Option<seq<int>>)
    ensures r == IntegerArrayOf(attributes, name)
  {
    if name !in attributes || !attributes[name].JArray? {
      return None;
    }
    var items := attributes[name].items;
    var values: seq<int> := [];
    for k := 0 to |items|
      invariant |values| == k
      invariant forall j | 0 <= j < k :: items[j] == JInt(values[j])
    {
      if !items[k].JInt? {
        IntegersAt(items, k);
        return None;
      }
      values := values + [items[k].integer];
    }
    IntegersComplete(items, values);
    return Some(values);
  }

  /** `verify_reshape_shape` up to the comparison with the declared shape. */
  method ReshapeDimensions(op: Operation, input: Shape) returns (r: Option<Shape>)
    requires Positive(input)
    ensures r == InferReshape(op, input)
  {
    var target := ReadIntegerArray(op.attributes, "shape");
    if target.None? {
      return None;
    }
    for k := 0 to |target.value|
      invariant forall j | 0 <= j < k :: target.value[j] > 0
    {
      if target.value[k] <= 0 {
        return None;
      }
    }
    var inputElements := CheckedTensorElementCount(input);
    var targetElements := CheckedTensorElementCount(target.value);
    if inputElements.Err? || targetElements.Err? || inputElements.value != targetElements.value {
      return None;
    }
    return target;
  }

  /** `verify_transpose_shape` up to the comparison with the declared shape. */
  method TransposeDimensions(op: Operation, input: Shape) returns (r: Option<Shape>)
    ensures r == InferTranspose(op, input)
  {
    var permutation := ReadIntegerArray(op.attributes, "permutation");
    if permutation.None? || |permutation.value| != |input| {
      return None;
    }
    var p := permutation.value;
    var seen: set<int> := {};
    var expected: Shape := [];
    for k := 0 to |p|
      invariant |expected| == k
      invariant forall a | 0 <= a < k :: 0 <= p[a] < |input| && p[a] in seen && expected[a] == input[p[a]]
      invariant forall x <- seen :: x in p[..k]
      invariant forall a, b | 0 <= a < b < k :: p[a] != p[b]
    {
      if p[k] < 0 || p[k] >= |input| || p[k] in seen {
        return None;
      }
      seen := seen + {p[k]};
      expected := expected + [input[p[k]]];
      assert p[..k + 1] == p[..k] + [p[k]];
    }
    assert expected == Permute(input, p);
    return Some(expected);
  }

  /** `integer_attribute` */
  method ReadInteger(attributes: Attributes, name: string) returns (r: Option<int>)
    ensures r == IntegerOf(attributes, name)
  {
    if name !in attributes || !attributes[name].JInt? {
      return None;
    }
    return Some(attributes[name].integer);
  }

  /** `verify_linear_shape` up to the comparison with the declared shape. */
  method LinearDimensions(types: Types, op: Operation) returns (r: Option<Shape>)
    requires Resolved(types, op) && op.kind.Linear?
    ensures r == InferLinear(types, op)
  {
    var input, weight := InputShape(types, op, 0), InputShape(types, op, 1);
    if input == [] || |weight| != 2 {
      return None;
    }
    if "bias" !in op.attributes || !op.attributes["bias"].JBool? {
      return None;
    }
    var hasBias := op.attributes["bias"].flag;
    if |op.inputs| != if hasBias then 3 else 2 {
      return None;
    }
    var outFeatures, inFeatures := weight[0], weight[1];
    if input[|input| - 1] != inFeatures {
      return None;
    }
    var declaredIn := ReadInteger(op.attributes, "in_features");
    var declaredOut := ReadInteger(op.attributes, "out_features");
    if declaredIn.None? || declaredOut.None? || declaredIn.value != inFeatures || declaredOut.value != outFeatures {
      return None;
    }
    if hasBias && InputShape(types, op, 2) != [outFeatures] {
      return None;
    }
    return Some(input[..|input| - 1] + [outFeatures]);
  }

  /** `verify_rms_norm_shape` up to the comparison with the declared shape. */
  method RmsNormDimensions(A: Arith, types: Types, op: Operation) returns (r: Option<Shape>)
    requires Resolved(types, op) && op.kind.RmsNorm?
    ensures r == if RmsNormRules(A, types, op) then Some(InputShape(types, op, 0)) else None
  {
    var input := InputShape(types, op, 0);
    if input == [] || InputShape(types, op, 1) != [input[|input| - 1]] {
      return None;
    }
    var axis := ReadInteger(op.attributes, "axis");
    if axis.None? || (axis.value != -1 && axis.value != |input| - 1) {
      return None;
    }
    if "epsilon" !in op.attributes || !IsNumber(op.attributes["epsilon"]) || !A.positive(op.attributes["epsilon"]) {
      return None;
    }
    return Some(input);
  }

  /** `verify_softmax_shape` up to the comparison with the declared shape. */
  method SoftmaxDimensions(types: Types, op: Operation) returns (r: Option<Shape>)
    requires Resolved(types, op) && op.kind.Softmax?
    ensures r == if AxisInRange(op, |InputShape(types, op, 0)|) then Some(InputShape(types, op, 0)) else None
  {
    var input := InputShape(types, op, 0);
    var axis := ReadInteger(op.attributes, "axis");
    if |input| == 0 || axis.None? || axis.value < -(|input| as int) || axis.value >= |input| {
      return None;
    }
    return Some(input);
  }

  /** `verify_operation_shape`: true when it adds no diagnostic. */
  method VerifyOperationShape(A: Arith, types: Types, op: Operation) returns (accepted: bool)
    requires Resolved(types, op) && forall id <- types :: Positive(types[id].shape)
    ensures accepted <==> ShapeOk(A, types, op)
  {
    if op.IsDeclaration() {
      return true;
    }
    var input, declared := InputShape(types, op, 0), types[op.output].shape;
    var expected: Option<Shape> := None;
    match op.kind {
      case MatMul =>
        expected := MatMulDimensions(input, InputShape(types, op, 1));
        if expected.Some? && |op.inputs| == 3 {
          if !op.HasFlag("bias", true) || InputShape(types, op, 2) != [expected.value[|expected.value| - 1]] {
            return false;
          }
        }
      case Linear =>
        expected := LinearDimensions(types, op);
      case Add | Multiply | Divide =>
        expected := ComputeBroadcastShape(input, InputShape(types, op, 1));
      case RmsNorm =>
        expected := RmsNormDimensions(A, types, op);
      case Gelu =>
        expected := Some(input);
      case Softmax =>
        expected := SoftmaxDimensions(types, op);
      case Reshape =>
        expected := ReshapeDimensions(op, input);
      case Transpose =>
        expected := TransposeDimensions(op, input);
      case CausalMask =>
        expected := if SquareMatrices(input) then Some(input) else None;
    }
    return expected == Some(declared);
  }

  /** `require_same_dtype` */
  method RequireSameDType(types: Types, op: Operation, requireFloat: bool) returns (accepted: bool)
    requires Resolved(types, op) && |op.inputs| > 0
    ensures accepted <==> SameDType(types, op, requireFloat)
  {
    var expected := types[op.inputs[0]].dtype;
    for k := 0 to |op.inputs|
      invariant forall j | 0 <= j < k :: types[op.inputs[j]].dtype == expected
    {
      if types[op.inputs[k]].dtype != expected {
        return false;
      }
    }
    if (requireFloat && expected != Float32) || (!requireFloat && expected == Boolean) {
      return false;
    }
    return types[op.output].dtype == expected;
  }

  /** `verify_operation_dtype`: true when it adds no diagnostic. */
  method VerifyOperationDType(types: Types, op: Operation) returns (accepted: bool)
    requires Resolved(types, op)
    ensures accepted <==> DTypeOk(types, op)
  {
    match op.kind {
      case Input | Parameter => accepted := true;
      case Constant => accepted := ConstantRules(op.attributes, types[op.output]);
      case MatMul | Linear | Add | Multiply => accepted := RequireSameDType(types, op, false);
      case Divide | RmsNorm | Gelu | Softmax | CausalMask => accepted := RequireSameDType(types, op, true);
      case Reshape | Transpose => accepted := types[op.output].dtype == types[op.inputs[0]].dtype;
    }
  }

  /** GraphVerifierPass: both sweeps always run, and any diagnostic rejects the graph. */
  method VerifyGraph(A: Arith, values: seq<Value>, ops: seq<Operation>) returns (s: Status)
    requires forall i | 0 <= i < |ops| :: Resolved(Descriptors(values), ops[i])
    requires forall v <- values :: Positive(v.descriptor.shape)
    ensures s == Success <==> Verified(A, Descriptors(values), ops)
    ensures s != Success ==> s == Failure(FailedPrecondition)
  {
    var types := IndexValues(values);
    DescriptorsPositive(values);
    var shapes := VerifyShapes(A, types, ops);
    var dtypes := VerifyDTypes(types, ops);
    return if shapes == 0 && dtypes == 0 then Success else Failure(FailedPrecondition);
  }

  /** `verify_graph_shapes`: the number of diagnostics. */
  method VerifyShapes(A: Arith, types: Types, ops: seq<Operation>) returns (diagnostics: nat)
    requires forall i | 0 <= i < |ops| :: Resolved(types, ops[i])
    requires forall id <- types :: Positive(types[id].shape)
    ensures diagnostics == 0 <==> forall i | 0 <= i < |ops| :: ShapeOk(A, types, ops[i])
  {
    diagnostics := 0;
    for i := 0 to |ops|
      invariant diagnostics == 0 <==> forall j | 0 <= j < i :: ShapeOk(A, types, ops[j])
    {
      var accepted := VerifyOperationShape(A, types, ops[i]);
      if !accepted {
        diagnostics := diagnostics + 1;
      }
    }
  }

  /** `verify_graph_dtypes`: the number of diagnostics. */
  method VerifyDTypes(types: Types, ops: seq<Operation>) returns (diagnostics: nat)
    requires forall i | 0 <= i < |ops| :: Resolved(types, ops[i])
    ensures diagnostics == 0 <==> forall i | 0 <= i < |ops| :: DTypeOk(types, ops[i])
  {
    diagnostics := 0;
    for i := 0 to |ops|
      invariant diagnostics == 0 <==> forall j | 0 <= j < i :: DTypeOk(types, ops[j])
    {
      var accepted := VerifyOperationDType(types, ops[i]);
      if !accepted {
        diagnostics := diagnostics + 1;
      }
    }
  }

  /** The map GraphContext builds with emplace: the first value of an identifier wins. */
  method IndexValues(values: seq<Value>) returns (types: Types)
    ensures types == Descriptors(values)
  {
    types := map[];
    for k := 0 to |values|
      invariant types == Descriptors(values[..k])
    {
      assert values[..k + 1][..k] == values[..k];
      if values[k].id !in types {
        types := types[values[k].id := values[k].descriptor];
      }
    }
    assert values[..|values|] == values;
  }

  lemma {:induction false} DescriptorsPositive(values: seq<Value>)
    requires forall v <- values :: Positive(v.descriptor.shape)
    ensures forall id <- Descriptors(values) :: Positive(Descriptors(values)[id].shape)
  {
    if values != [] {
      DescriptorsPositive(values[..|values| - 1]);
      assert values[|values| - 1] in values;
    }
  }
}
