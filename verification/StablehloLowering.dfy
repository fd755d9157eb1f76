/** cpp/src/mlir/stablehlo_lowering.cpp */
module StablehloLowering {
  import opened Basics
  import opened GraphIR
  import opened Shapes
  import opened Tensors
  import opened Evaluator
  import opened SemanticVerifier
  import opened StablehloSyntax
  import opened StablehloMeaning
  import opened StablehloPatterns
  import opened StablehloProducts

  // ----- what can be lowered -----

  predicate GeluLowers(types: Types, op: Operation)
    requires op.output in types
  {
    types[op.output].dtype.Float32? && ExactGelu(op.attributes)
  }

  /** The operations `emit_operation` accepts. */
  predicate Lowers(finite: Scalar -> bool, types: Types, op: Operation)
    requires op.output in types
  {
    match op.kind
    case Constant =>
      "value" in op.attributes && LiteralType(op.attributes["value"]).Some?
      && (op.attributes["value"].JFloat? ==> finite(op.attributes["value"].number))
    case MatMul | Linear =>
      "fused_activation" in op.attributes ==>
        op.attributes["fused_activation"] == JString("GELU") && GeluLowers(types, op)
    case Gelu => GeluLowers(types, op)
    case RmsNorm | Softmax => types[op.output].dtype.Float32?
    case CausalMask => false
    case _ => true
  }

  // ----- how an emission changes what is defined -----

  /** The types and the values of the names defined so far. */
  datatype Memory = Memory(env: Environment, state: State)

  /** `name` has type `t` and holds `value`. */
  ghost predicate Bound(m: Memory, name: string, t: TensorType, value: Tensor) {
    name in m.env && m.env[name] == t && name in m.state && m.state[name] == value
  }

  /** Nothing happens to a name, unless it is a new temporary. */
  ghost predicate Kept(a: Memory, b: Memory, name: string) {
    && (name in a.env ==> name in b.env && b.env[name] == a.env[name])
    && (name in a.env && name in a.state ==> name in b.state && b.state[name] == a.state[name])
    && (name in b.env && name !in a.env ==> !IsVariable(name))
  }

  ghost predicate Grows(a: Memory, b: Memory) {
    forall name {:trigger Kept(a, b, name)} :: Kept(a, b, name)
  }

  /** Only `result` and temporaries are new. */
  ghost predicate Defines(a: Memory, b: Memory, result: string, t: TensorType, value: Tensor) {
    && Bound(b, result, t, value)
    && forall name {:trigger Kept(a, b, name)} | name != result :: Kept(a, b, name)
  }

  lemma Unchanged(a: Memory)
    ensures Grows(a, a)
  {
  }

  lemma GrowsTwice(a: Memory, b: Memory, c: Memory)
    requires Grows(a, b) && Grows(b, c)
    ensures Grows(a, c)
  {
    forall name ensures Kept(a, c, name) {
      assert Kept(a, b, name) && Kept(b, c, name);
    }
  }

  lemma GrowsThenDefines(a: Memory, b: Memory, c: Memory, result: string, t: TensorType, value: Tensor)
    requires Grows(a, b) && Defines(b, c, result, t, value)
    ensures Defines(a, c, result, t, value)
  {
    forall name | name != result ensures Kept(a, c, name) {
      assert Kept(a, b, name) && Kept(b, c, name);
    }
  }

  lemma Carry(a: Memory, b: Memory, name: string, t: TensorType, value: Tensor)
    requires Grows(a, b) && Bound(a, name, t, value)
    ensures Bound(b, name, t, value)
  {
    assert Kept(a, b, name);
  }

  lemma StillAbsent(a: Memory, b: Memory, name: string)
    requires Grows(a, b) && IsVariable(name) && name !in a.env
    ensures name !in b.env
  {
    assert Kept(a, b, name);
  }

  function With(m: Memory, name: string, t: TensorType, value: Tensor): Memory {
    Memory(m.env[name := t], m.state[name := value])
  }

  lemma WithTemporary(m: Memory, name: string, t: TensorType, value: Tensor)
    requires name !in m.env && !IsVariable(name)
    ensures Grows(m, With(m, name, t, value)) && Bound(With(m, name, t, value), name, t, value)
  {
  }

  lemma WithResult(m: Memory, name: string, t: TensorType, value: Tensor)
    ensures Defines(m, With(m, name, t, value), name, t, value)
  {
  }

  // ----- names -----

  ghost predicate NamesBelow(env: Environment, n: nat) {
    forall name <- env :: IsVariable(name) || TemporaryBelow(name, n)
  }

  lemma NextIsFresh(env: Environment, n: nat)
    requires NamesBelow(env, n)
    ensures Temporary(n) !in env && !IsVariable(Temporary(n)) && TemporaryBelow(Temporary(n), n + 1)
    ensures "%lhs" !in env && "%rhs" !in env && Temporary(n) !in {"%lhs", "%rhs"}
    ensures NamesBelow(env, n + 1)
  {
    assert IsVariable("%v");
    TemporariesAreFresh("%v", n);
    forall name <- env ensures name != Temporary(n) && name != "%lhs" && name != "%rhs" {
      TemporariesAreFresh(name, n);
    }
    forall name <- env | !IsVariable(name) ensures TemporaryBelow(name, n + 1) {
      var k: nat :| k < n && name == Temporary(k);
    }
  }

  /** Every name has a tensor of its type's shape. */
  ghost predicate Shaped(m: Memory) {
    m.state.Keys == m.env.Keys && forall name <- m.env :: m.state[name].shape == m.env[name].shape
  }

  lemma ShapeOf(m: Memory, name: string, t: TensorType, value: Tensor)
    requires Shaped(m) && Bound(m, name, t, value)
    ensures value.shape == t.shape
  {
  }

  // ----- instructions that are well typed and compute a value -----

  ghost predicate Ready(M: Model, m: Memory, i: Instruction, value: Tensor) {
    && WellTyped(m.env, i)
    && (forall k | 0 <= k < |i.operands| :: i.operands[k] in m.state)
    && Denote(M, i.kind, Values(m.state, i.operands), i.resultType.shape) == Some(value)
  }

  lemma ConstantReady(M: Model, m: Memory, result: string, literal: Literal, t: TensorType)
    requires result !in m.env && LiteralFits(literal, t.dtype) && Positive(t.shape)
    ensures Ready(M, m, Instruction(result, ConstantOp(literal), [], [], t), Filled(t.shape, M.LiteralValue(literal)))
  {
    assert Values(m.state, []) == [];
  }

  lemma BroadcastReady(M: Model, m: Memory, result: string, operand: string, x: TensorType, r: TensorType,
                       dimensions: seq<int>, t: Tensor)
    requires result !in m.env && Bound(m, operand, x, t) && x.dtype == r.dtype
    requires BroadcastTyped(x.shape, r.shape, dimensions) && Positive(r.shape)
    ensures Ready(M, m, Instruction(result, BroadcastInDim(dimensions), [operand], [x], r),
                  BroadcastOf(t, dimensions, r.shape))
  {
    assert Values(m.state, [operand]) == [t];
  }

  lemma BinaryReady(M: Model, m: Memory, result: string, name: BinaryName, left: string, right: string, t: TensorType,
                    x: Tensor, y: Tensor)
    requires result !in m.env && Bound(m, left, t, x) && Bound(m, right, t, y)
    requires !t.dtype.Boolean? && x.shape == y.shape == t.shape
    ensures Ready(M, m, Instruction(result, Elementwise(name), [left, right], [t, t], t), Zip(M.BinaryMeaning(name), x, y))
  {
    assert Values(m.state, [left, right]) == [x, y];
  }

  lemma UnaryReady(M: Model, m: Memory, result: string, name: UnaryName, operand: string, t: TensorType, x: Tensor)
    requires result !in m.env && Bound(m, operand, t, x) && t.dtype.Float32? && x.shape == t.shape
    ensures Ready(M, m, Instruction(result, Unary(name), [operand], [t], t), Map(M.UnaryMeaning(name), x))
  {
    assert Values(m.state, [operand]) == [x];
  }

  lemma ReduceReady(M: Model, m: Memory, result: string, reduced: string, reducer: BinaryName, operand: string,
                    initial: string, shape: Shape, axis: nat, t: Tensor, first: Scalar)
    requires result !in m.env && reduced !in m.env && "%lhs" !in m.env && "%rhs" !in m.env
    requires result != reduced && result !in {"%lhs", "%rhs"} && reduced !in {"%lhs", "%rhs"}
    requires axis < |shape| && Positive(shape) && t.shape == shape && Bound(m, operand, Descriptor(Float32, shape), t)
    requires Bound(m, initial, Descriptor(Float32, []), Filled([], first))
    ensures Ready(M, m,
                  Instruction(result, Reduce([axis], reducer, reduced, Descriptor(Float32, [])), [operand, initial],
                              [Descriptor(Float32, shape), Descriptor(Float32, [])],
                              Descriptor(Float32, WithoutAxis(shape, axis))),
                  ReduceOf(M.BinaryMeaning(reducer), t, first, axis))
  {
    RemainingWithoutAxis(shape, axis);
    assert Values(m.state, [operand, initial]) == [t, Filled([], first)];
    FilledAt([], first, 0);
  }

  lemma DotReady(M: Model, m: Memory, result: string, kind: Kind, left: string, right: string, l: TensorType,
                 r: TensorType, t: TensorType, x: Tensor, y: Tensor)
    requires result !in m.env && Bound(m, left, l, x) && Bound(m, right, r, y)
    requires l.dtype == r.dtype == t.dtype && x.shape == l.shape && Positive(t.shape)
    requires kind.DotGeneral? && |kind.lhsContracting| == |kind.rhsContracting| == 1
    requires 0 <= kind.lhsContracting[0] < |x.shape| && DotTyped(l.shape, r.shape, t.shape, kind)
    ensures Ready(M, m, Instruction(result, kind, [left, right], [l, r], t), DotValue(M, kind, x, y, t.shape))
  {
    assert Values(m.state, [left, right]) == [x, y];
  }

  lemma TransposeReady(M: Model, m: Memory, result: string, operand: string, x: TensorType, r: TensorType, p: seq<int>,
                       t: Tensor)
    requires result !in m.env && Bound(m, operand, x, t) && x.dtype == r.dtype && t.shape == x.shape
    requires IsPermutation(p, |x.shape|) && r.shape == Permute(x.shape, p)
    ensures TransposeOf(t, p).Some?
    ensures Ready(M, m, Instruction(result, TransposeOp(p), [operand], [x], r), TransposeOf(t, p).value)
  {
    assert Values(m.state, [operand]) == [t];
    assert Positive(r.shape);
  }

  lemma ReshapeReady(M: Model, m: Memory, result: string, operand: string, x: TensorType, r: TensorType, t: Tensor)
    requires result !in m.env && Bound(m, operand, x, t) && x.dtype == r.dtype && t.shape == x.shape
    requires Positive(r.shape) && Count(x.shape) == Count(r.shape)
    ensures ReshapeOf(t, r.shape).Some?
    ensures Ready(M, m, Instruction(result, ReshapeOp, [operand], [x], r), ReshapeOf(t, r.shape).value)
  {
    assert Values(m.state, [operand]) == [t];
  }

  /** The emission so far is well typed, runs, and has used no name a later temporary could need. */
  ghost predicate Sound(M: Model, start: Memory, body: seq<Instruction>, m: Memory, next: nat) {
    && Check(start.env, body) == Some(m.env) && Execute(M, start.state, body) == Some(m.state)
    && Shaped(m) && NamesBelow(m.env, next)
  }

  lemma SoundStep(M: Model, start: Memory, body: seq<Instruction>, m: Memory, next: nat, i: Instruction, value: Tensor)
    requires Sound(M, start, body, m, next) && Ready(M, m, i, value)
    requires IsVariable(i.result) || TemporaryBelow(i.result, next)
    ensures Sound(M, start, body + [i], With(m, i.result, i.resultType, value), next)
  {
    CheckAppend(start.env, body, i);
    ExecuteAppend(M, start.state, body, i, value);
  }
}

/** The emitter of cpp/src/mlir/stablehlo_lowering.cpp. */
module StablehloEmitter {
  import opened Basics
  import opened GraphIR
  import opened Shapes
  import opened Tensors
  import opened Evaluator
  import opened SemanticVerifier
  import opened StablehloSyntax
  import opened StablehloMeaning
  import opened StablehloPatterns
  import opened StablehloProducts
  import opened StablehloLowering

  /**
   Its ghost state runs the instructions on an arbitrary start: what a caller learns about the values
   therefore holds for every choice of arithmetic and of arguments, on which the code cannot depend.
   */
  class StablehloLowerer {
    const types: Types
    const finite: Scalar -> bool
    var body: seq<Instruction>
    var next: nat

    ghost const M: Model
    ghost const start: Memory
    ghost var memory: Memory

    ghost predicate Valid()
      reads this
    {
      Sound(M, start, body, memory, next)
    }

    constructor (types: Types, finite: Scalar -> bool, ghost M: Model, ghost start: Memory)
      requires (forall name <- start.env :: IsVariable(name)) && Shaped(start)
      ensures Valid() && this.types == types && this.finite == finite && this.M == M
      ensures this.start == memory == start && body == []
    {
      this.types, this.finite := types, finite;
      this.M, this.start, memory := M, start, start;
      body, next := [], 0;
    }

    /** `temporary` */
    method TakeTemporary() returns (name: string)
      requires Valid()
      modifies this`next
      ensures Valid() && name !in memory.env && !IsVariable(name) && TemporaryBelow(name, next)
    {
      name := Temporary(next);
      NextIsFresh(memory.env, next);
      next := next + 1;
    }

    /** `emit_generic` */
    method Emit(result: string, kind: Kind, operands: seq<string>, operandTypes: seq<TensorType>,
                resultType: TensorType, ghost value: Tensor)
      requires Valid() && Ready(M, memory, Instruction(result, kind, operands, operandTypes, resultType), value)
      requires IsVariable(result) || TemporaryBelow(result, next)
      modifies this`body, this`memory
      ensures Valid() && memory == With(old(memory), result, resultType, value)
    {
      SoundStep(M, start, body, memory, next, Instruction(result, kind, operands, operandTypes, resultType), value);
      body := body + [Instruction(result, kind, operands, operandTypes, resultType)];
      memory := With(memory, result, resultType, value);
    }

    /** `emit_dense_constant` */
    method EmitDenseConstant(literal: Literal, t: TensorType) returns (result: string)
      requires Valid() && LiteralFits(literal, t.dtype) && Positive(t.shape)
      modifies this
      ensures Valid() && Grows(old(memory), memory)
      ensures Bound(memory, result, t, Filled(t.shape, M.LiteralValue(literal)))
    {
      result := TakeTemporary();
      ghost var value := Filled(t.shape, M.LiteralValue(literal));
      ConstantReady(M, memory, result, literal, t);
      WithTemporary(memory, result, t, value);
      Emit(result, ConstantOp(literal), [], [], t, value);
    }

    /** `emit_float_constant` */
    method EmitFloatConstant(value: FloatValue, shape: Shape) returns (result: string)
      requires Valid() && Positive(shape)
      modifies this
      ensures Valid() && Grows(old(memory), memory)
      ensures Bound(memory, result, Descriptor(Float32, shape), Filled(shape, M.LiteralValue(FloatLiteral(value))))
    {
      result := EmitDenseConstant(FloatLiteral(value), Descriptor(Float32, shape));
    }

    /** `emit_broadcast`: nothing is emitted when the shapes are equal. */
    method EmitBroadcast(operand: string, dtype: DataType, input: Shape, output: Shape, dimensions: seq<int>,
                         ghost t: Tensor)
      returns (result: string)
      requires Valid() && Bound(memory, operand, Descriptor(dtype, input), t)
      requires BroadcastTyped(input, output, dimensions) && Positive(output)
      modifies this
      ensures Valid() && Grows(old(memory), memory)
      ensures Bound(memory, result, Descriptor(dtype, output), Spread(t, dimensions, output))
    {
      ShapeOf(memory, operand, Descriptor(dtype, input), t);
      if input == output {
        Unchanged(memory);
        return operand;
      }
      result := TakeTemporary();
      ghost var value := BroadcastOf(t, dimensions, output);
      BroadcastReady(M, memory, result, operand, Descriptor(dtype, input), Descriptor(dtype, output), dimensions, t);
      WithTemporary(memory, result, Descriptor(dtype, output), value);
      Emit(result, BroadcastInDim(dimensions), [operand], [Descriptor(dtype, input)], Descriptor(dtype, output), value);
    }

    /** `emit_binary` */
    method EmitBinary(result: string, name: BinaryName, left: string, right: string, t: TensorType,
                      ghost x: Tensor, ghost y: Tensor)
      requires Valid() && Bound(memory, left, t, x) && Bound(memory, right, t, y) && !t.dtype.Boolean?
      requires result !in memory.env && (IsVariable(result) || TemporaryBelow(result, next))
      modifies this`body, this`memory
      ensures Valid() && x.shape == y.shape == t.shape
      ensures memory == With(old(memory), result, t, Zip(M.BinaryMeaning(name), x, y))
    {
      ShapeOf(memory, left, t, x);
      ShapeOf(memory, right, t, y);
      BinaryReady(M, memory, result, name, left, right, t, x, y);
      Emit(result, Elementwise(name), [left, right], [t, t], t, Zip(M.BinaryMeaning(name), x, y));
    }

    /** A binary operation whose result is the graph value. */
    method BinaryResult(result: string, name: BinaryName, left: string, right: string, t: TensorType,
                        ghost x: Tensor, ghost y: Tensor)
      requires Valid() && Bound(memory, left, t, x) && Bound(memory, right, t, y) && !t.dtype.Boolean?
      requires result !in memory.env && IsVariable(result)
      modifies this`body, this`memory
      ensures Valid() && x.shape == y.shape == t.shape
      ensures Defines(old(memory), memory, result, t, Zip(M.BinaryMeaning(name), x, y))
    {
      ghost var before := memory;
      EmitBinary(result, name, left, right, t, x, y);
      WithResult(before, result, t, Zip(M.BinaryMeaning(name), x, y));
    }

    /** A binary operation into a temporary. */
    method BinaryTemporary(name: BinaryName, left: string, right: string, t: TensorType, ghost x: Tensor, ghost y: Tensor)
      returns (result: string)
      requires Valid() && Bound(memory, left, t, x) && Bound(memory, right, t, y) && !t.dtype.Boolean?
      modifies this
      ensures Valid() && Grows(old(memory), memory)
      ensures x.shape == y.shape == t.shape && Bound(memory, result, t, Zip(M.BinaryMeaning(name), x, y))
    {
      result := TakeTemporary();
      ghost var before := memory;
      EmitBinary(result, name, left, right, t, x, y);
      WithTemporary(before, result, t, Zip(M.BinaryMeaning(name), x, y));
    }

    /** A unary operation on floats into a temporary. */
    method UnaryTemporary(name: UnaryName, operand: string, shape: Shape, ghost x: Tensor) returns (result: string)
      requires Valid() && Bound(memory, operand, Descriptor(Float32, shape), x)
      modifies this
      ensures Valid() && Grows(old(memory), memory)
      ensures x.shape == shape && Bound(memory, result, Descriptor(Float32, shape), Map(M.UnaryMeaning(name), x))
    {
      result := TakeTemporary();
      var t := Descriptor(Float32, shape);
      ShapeOf(memory, operand, t, x);
      UnaryReady(M, memory, result, name, operand, t, x);
      WithTemporary(memory, result, t, Map(M.UnaryMeaning(name), x));
      Emit(result, Unary(name), [operand], [t], t, Map(M.UnaryMeaning(name), x));
    }

    /** The two temporaries of `emit_reduce`: the result, and the result of the region. */
    method TakeTwo() returns (result: string, reduced: string)
      requires Valid()
      modifies this`next
      ensures Valid() && TemporaryBelow(result, next) && !IsVariable(result)
      ensures result !in memory.env && reduced !in memory.env && "%lhs" !in memory.env && "%rhs" !in memory.env
      ensures result != reduced && result !in {"%lhs", "%rhs"} && reduced !in {"%lhs", "%rhs"}
    {
      NextIsFresh(memory.env, next);
      NextIsFresh(memory.env, next + 1);
      result := TakeTemporary();
      reduced := Temporary(next);
      TemporariesAreFresh(result, next);
      ghost var n := next;
      next := next + 1;
      NextIsFresh(memory.env, n);
    }

    /** `emit_reduce` over one axis. */
    method EmitReduce(operand: string, initial: string, shape: Shape, axis: nat, reducer: BinaryName,
                      ghost t: Tensor, ghost first: Scalar)
      returns (result: string)
      requires Valid() && axis < |shape| && Positive(shape) && Bound(memory, operand, Descriptor(Float32, shape), t)
      requires Bound(memory, initial, Descriptor(Float32, []), Filled([], first))
      modifies this
      ensures Valid() && Grows(old(memory), memory) && t.shape == shape
      ensures Bound(memory, result, Descriptor(Float32, WithoutAxis(shape, axis)),
                    ReduceOf(M.BinaryMeaning(reducer), t, first, axis))
    {
      var reduced;
      result, reduced := TakeTwo();
      var whole, scalarType := Descriptor(Float32, shape), Descriptor(Float32, []);
      ShapeOf(memory, operand, whole, t);
      ghost var value := ReduceOf(M.BinaryMeaning(reducer), t, first, axis);
      ReduceReady(M, memory, result, reduced, reducer, operand, initial, shape, axis, t, first);
      WithTemporary(memory, result, Descriptor(Float32, WithoutAxis(shape, axis)), value);
      Emit(result, Reduce([axis], reducer, reduced, scalarType), [operand, initial], [whole, scalarType],
           Descriptor(Float32, WithoutAxis(shape, axis)), value);
    }

    // ----- GELU -----

    /** erf(x / sqrt 2) + 1 */
    method EmitShiftedError(input: string, t: TensorType, ghost x: Tensor) returns (result: string)
      requires Valid() && Bound(memory, input, t, x) && t.dtype.Float32? && Positive(t.shape)
      modifies this
      ensures Valid() && Grows(old(memory), memory) && x.shape == t.shape
      ensures Bound(memory, result, t, ShiftedError(M, x))
    {
      ShapeOf(memory, input, t, x);
      ghost var m0 := memory;
      var squareRootOfTwo := EmitFloatConstant(SquareRootOfTwo, t.shape);
      ghost var m1, c := memory, Filled(t.shape, M.LiteralValue(FloatLiteral(SquareRootOfTwo)));
      Carry(m0, m1, input, t, x);
      var scaled := BinaryTemporary(DivideOp, input, squareRootOfTwo, t, x, c);
      ghost var m2, q := memory, Zip(M.BinaryMeaning(DivideOp), x, c);
      var error := UnaryTemporary(ErfOp, scaled, t.shape, q);
      ghost var m3 := memory;
      var one := EmitFloatConstant(One, t.shape);
      ghost var m4 := memory;
      Carry(m3, m4, error, t, Map(M.UnaryMeaning(ErfOp), q));
      result := BinaryTemporary(AddOp, error, one, t, Map(M.UnaryMeaning(ErfOp), q),
                                Filled(t.shape, M.LiteralValue(FloatLiteral(One))));
      GrowsTwice(m0, m1, m2);
      GrowsTwice(m0, m2, m3);
      GrowsTwice(m0, m3, m4);
      GrowsTwice(m0, m4, memory);
    }

    /** `emit_gelu` after its guards. */
    method EmitExactGelu(input: string, output: string, t: TensorType, ghost x: Tensor)
      requires Valid() && Bound(memory, input, t, x) && t.dtype.Float32? && Positive(t.shape)
      requires IsVariable(output) && output !in memory.env
      modifies this
      ensures Valid() && Defines(old(memory), memory, output, t, GeluPattern(M, x))
    {
      ghost var m0 := memory;
      var shifted := EmitShiftedError(input, t, x);
      ghost var m1, y := memory, ShiftedError(M, x);
      Carry(m0, m1, input, t, x);
      var multiplied := BinaryTemporary(MultiplyOp, input, shifted, t, x, y);
      ghost var m2, z := memory, Zip(M.BinaryMeaning(MultiplyOp), x, y);
      var half := EmitFloatConstant(Half, t.shape);
      ghost var m3 := memory;
      Carry(m2, m3, multiplied, t, z);
      GrowsTwice(m0, m1, m2);
      GrowsTwice(m0, m2, m3);
      StillAbsent(m0, m3, output);
      BinaryResult(output, MultiplyOp, multiplied, half, t, z, Filled(t.shape, M.LiteralValue(FloatLiteral(Half))));
      GrowsThenDefines(m0, m3, memory, output, t, GeluPattern(M, x));
    }

    /** `emit_gelu` */
    method EmitGelu(op: Operation, input: string, output: string, t: TensorType, ghost x: Tensor) returns (ok: bool)
      requires op.output in types && types[op.output] == t && Positive(t.shape)
      requires Valid() && Bound(memory, input, t, x) && IsVariable(output) && output !in memory.env
      modifies this
      ensures Valid() && (ok <==> GeluLowers(types, op))
      ensures ok ==> Defines(old(memory), memory, output, t, GeluPattern(M, x))
    {
      if t.dtype != Float32 {
        return false;
      }
      if "approximate" in op.attributes && op.attributes["approximate"] != JString("none") {
        return false;
      }
      EmitExactGelu(input, output, t, x);
      return true;
    }

    // ----- elementwise -----

    /** `emit_elementwise` */
    method EmitElementwise(name: BinaryName, left: string, right: string, l: Shape, r: Shape, output: string,
                           t: TensorType, ghost x: Tensor, ghost y: Tensor)
      requires Valid() && Bound(memory, left, Descriptor(t.dtype, l), x) && Bound(memory, right, Descriptor(t.dtype, r), y)
      requires Positive(t.shape) && !t.dtype.Boolean? && BroadcastsTo(l, t.shape) && BroadcastsTo(r, t.shape)
      requires IsVariable(output) && output !in memory.env
      modifies this
      ensures Valid() && x.shape == l && y.shape == r
      ensures Defines(old(memory), memory, output, t,
                      Zip(M.BinaryMeaning(name), Aligned(x, t.shape), Aligned(y, t.shape)))
    {
      ShapeOf(memory, left, Descriptor(t.dtype, l), x);
      ShapeOf(memory, right, Descriptor(t.dtype, r), y);
      RightAlignedTyped(l, t.shape);
      RightAlignedTyped(r, t.shape);
      ghost var m0 := memory;
      var a := EmitBroadcast(left, t.dtype, l, t.shape, RightAligned(|l|, |t.shape|), x);
      ghost var m1 := memory;
      Carry(m0, m1, right, Descriptor(t.dtype, r), y);
      var b := EmitBroadcast(right, t.dtype, r, t.shape, RightAligned(|r|, |t.shape|), y);
      ghost var m2 := memory;
      Carry(m1, m2, a, t, Aligned(x, t.shape));
      GrowsTwice(m0, m1, m2);
      StillAbsent(m0, m2, output);
      BinaryResult(output, name, a, b, t, Aligned(x, t.shape), Aligned(y, t.shape));
      GrowsThenDefines(m0, m2, memory, output, t, Zip(M.BinaryMeaning(name), Aligned(x, t.shape), Aligned(y, t.shape)));
    }

    // ----- softmax -----

    /** A reduction over one axis, spread back over it. */
    method EmitReducedBack(operand: string, initial: string, shape: Shape, axis: nat, reducer: BinaryName,
                           ghost t: Tensor, ghost first: Scalar)
      returns (result: string)
      requires Valid() && axis < |shape| && Positive(shape) && Bound(memory, operand, Descriptor(Float32, shape), t)
      requires Bound(memory, initial, Descriptor(Float32, []), Filled([], first))
      modifies this
      ensures Valid() && Grows(old(memory), memory) && t.shape == shape
      ensures Bound(memory, result, Descriptor(Float32, shape), ReducedBack(M.BinaryMeaning(reducer), t, first, axis))
    {
      ghost var m0 := memory;
      var reduced := EmitReduce(operand, initial, shape, axis, reducer, t, first);
      ghost var m1 := memory;
      OtherAxesTyped(shape, axis);
      result := EmitBroadcast(reduced, Float32, WithoutAxis(shape, axis), shape, OtherAxes(|shape|, axis),
                              ReduceOf(M.BinaryMeaning(reducer), t, first, axis));
      GrowsTwice(m0, m1, memory);
    }

    /** exp(x - maximum) */
    method EmitExponentials(input: string, shape: Shape, axis: nat, ghost x: Tensor) returns (result: string)
      requires Valid() && axis < |shape| && Positive(shape) && Bound(memory, input, Descriptor(Float32, shape), x)
      modifies this
      ensures Valid() && Grows(old(memory), memory) && x.shape == shape
      ensures Bound(memory, result, Descriptor(Float32, shape), ExponentialsOf(M, x, axis))
    {
      var t := Descriptor(Float32, shape);
      ghost var m0 := memory;
      var initial := EmitDenseConstant(NegativeInfinity, Descriptor(Float32, []));
      ghost var m1 := memory;
      Carry(m0, m1, input, t, x);
      ghost var first := M.LiteralValue(NegativeInfinity);
      var maximum := EmitReducedBack(input, initial, shape, axis, MaximumOp, x, first);
      ghost var m2, m := memory, ReducedBack(M.BinaryMeaning(MaximumOp), x, first, axis);
      Carry(m1, m2, input, t, x);
      var shifted := BinaryTemporary(SubtractOp, input, maximum, t, x, m);
      ghost var m3 := memory;
      ghost var z := Zip(M.BinaryMeaning(SubtractOp), x, m);
      result := UnaryTemporary(ExponentialOp, shifted, shape, z);
      GrowsTwice(m0, m1, m2);
      GrowsTwice(m0, m2, m3);
      GrowsTwice(m0, m3, memory);
    }

    /** `emit_softmax` after its guard. */
    method EmitSoftmax(input: string, output: string, shape: Shape, axis: nat, ghost x: Tensor)
      requires Valid() && axis < |shape| && Positive(shape) && Bound(memory, input, Descriptor(Float32, shape), x)
      requires IsVariable(output) && output !in memory.env
      modifies this
      ensures Valid() && x.shape == shape
      ensures Defines(old(memory), memory, output, Descriptor(Float32, shape), SoftmaxPattern(M, x, axis))
    {
      var t := Descriptor(Float32, shape);
      ghost var m0 := memory;
      var exponential := EmitExponentials(input, shape, axis, x);
      ghost var m1, e := memory, ExponentialsOf(M, x, axis);
      var zero := EmitFloatConstant(Zero, []);
      ghost var m2 := memory;
      Carry(m1, m2, exponential, t, e);
      ghost var first := M.LiteralValue(FloatLiteral(Zero));
      var sum := EmitReducedBack(exponential, zero, shape, axis, AddOp, e, first);
      ghost var m3 := memory;
      Carry(m2, m3, exponential, t, e);
      GrowsTwice(m0, m1, m2);
      GrowsTwice(m0, m2, m3);
      StillAbsent(m0, m3, output);
      ghost var total := ReducedBack(M.BinaryMeaning(AddOp), e, first, axis);
      BinaryResult(output, DivideOp, exponential, sum, t, e, total);
      GrowsThenDefines(m0, m3, memory, output, t, SoftmaxPattern(M, x, axis));
    }

    // ----- RMS normalisation -----

    /** The mean of the squares. */
    method EmitMeanSquares(input: string, shape: Shape, ghost x: Tensor) returns (result: string)
      requires Valid() && shape != [] && Positive(shape) && Bound(memory, input, Descriptor(Float32, shape), x)
      modifies this
      ensures Valid() && Grows(old(memory), memory) && x.shape == shape
      ensures Bound(memory, result, Descriptor(Float32, WithoutAxis(shape, |shape| - 1)), MeanSquares(M, x))
    {
      var n, t := |shape| - 1, Descriptor(Float32, shape);
      var reduced := Descriptor(Float32, WithoutAxis(shape, n));
      ghost var m0, times := memory, M.BinaryMeaning(MultiplyOp);
      var square := BinaryTemporary(MultiplyOp, input, input, t, x, x);
      ghost var m1, q := memory, Zip(times, x, x);
      var zero := EmitFloatConstant(Zero, []);
      ghost var m2, first := memory, M.LiteralValue(FloatLiteral(Zero));
      Carry(m1, m2, square, t, q);
      var sum := EmitReduce(square, zero, shape, n, AddOp, q, first);
      ghost var m3, total := memory, ReduceOf(M.BinaryMeaning(AddOp), q, first, n);
      var count := EmitFloatConstant(CountOf(shape[n]), reduced.shape);
      ghost var m4 := memory;
      Carry(m3, m4, sum, reduced, total);
      result := BinaryTemporary(DivideOp, sum, count, reduced, total,
                                Filled(reduced.shape, M.LiteralValue(FloatLiteral(CountOf(shape[n])))));
      GrowsTwice(m0, m1, m2);
      GrowsTwice(m0, m2, m3);
      GrowsTwice(m0, m3, m4);
      GrowsTwice(m0, m4, memory);
    }

    /** The inverse root, one for each row. */
    method EmitInverseRoots(input: string, shape: Shape, epsilon: Json, ghost x: Tensor) returns (result: string)
      requires Valid() && shape != [] && Positive(shape) && Bound(memory, input, Descriptor(Float32, shape), x)
      modifies this
      ensures Valid() && Grows(old(memory), memory) && x.shape == shape
      ensures Bound(memory, result, Descriptor(Float32, WithoutAxis(shape, |shape| - 1)), InverseRoots(M, x, epsilon))
    {
      var reduced := Descriptor(Float32, WithoutAxis(shape, |shape| - 1));
      ghost var m0 := memory;
      var mean := EmitMeanSquares(input, shape, x);
      ghost var m1, y := memory, MeanSquares(M, x);
      var epsilonValue := EmitFloatConstant(Number(epsilon), reduced.shape);
      ghost var m2, e := memory, Filled(reduced.shape, M.LiteralValue(FloatLiteral(Number(epsilon))));
      Carry(m1, m2, mean, reduced, y);
      var sum := BinaryTemporary(AddOp, mean, epsilonValue, reduced, y, e);
      ghost var m3 := memory;
      result := UnaryTemporary(RsqrtOp, sum, reduced.shape, Zip(M.BinaryMeaning(AddOp), y, e));
      GrowsTwice(m0, m1, m2);
      GrowsTwice(m0, m2, m3);
      GrowsTwice(m0, m3, memory);
    }

    /** The input times the inverse roots, spread over the rows. */
    method EmitNormalised(input: string, shape: Shape, epsilon: Json, ghost x: Tensor) returns (result: string)
      requires Valid() && shape != [] && Positive(shape) && Bound(memory, input, Descriptor(Float32, shape), x)
      modifies this
      ensures Valid() && Grows(old(memory), memory) && x.shape == shape
      ensures Bound(memory, result, Descriptor(Float32, shape),
        Zip(M.BinaryMeaning(MultiplyOp), x, Spread(InverseRoots(M, x, epsilon), OtherAxes(|shape|, |shape| - 1), shape)))
    {
      var n, t := |shape| - 1, Descriptor(Float32, shape);
      ghost var m0 := memory;
      var roots := EmitInverseRoots(input, shape, epsilon, x);
      ghost var m1, y := memory, InverseRoots(M, x, epsilon);
      OtherAxesTyped(shape, n);
      var inverse := EmitBroadcast(roots, Float32, WithoutAxis(shape, n), shape, OtherAxes(|shape|, n), y);
      ghost var m2 := memory;
      GrowsTwice(m0, m1, m2);
      Carry(m0, m2, input, t, x);
      result := BinaryTemporary(MultiplyOp, input, inverse, t, x, Spread(y, OtherAxes(|shape|, n), shape));
      GrowsTwice(m0, m2, memory);
    }

    /** `emit_rms_norm` after its guard. */
    method EmitRmsNorm(input: string, weight: string, output: string, shape: Shape, epsilon: Json,
                       ghost x: Tensor, ghost w: Tensor)
      requires Valid() && shape != [] && Positive(shape) && Bound(memory, input, Descriptor(Float32, shape), x)
      requires Bound(memory, weight, Descriptor(Float32, [shape[|shape| - 1]]), w)
      requires IsVariable(output) && output !in memory.env
      modifies this
      ensures Valid() && x.shape == shape && w.shape == [shape[|shape| - 1]]
      ensures Defines(old(memory), memory, output, Descriptor(Float32, shape), RmsNormPattern(M, x, w, epsilon))
    {
      var t, wt := Descriptor(Float32, shape), Descriptor(Float32, [shape[|shape| - 1]]);
      ShapeOf(memory, weight, wt, w);
      ghost var m0 := memory;
      var normalised := EmitNormalised(input, shape, epsilon, x);
      ghost var m1 := memory;
      ghost var y := Zip(M.BinaryMeaning(MultiplyOp), x,
                         Spread(InverseRoots(M, x, epsilon), OtherAxes(|shape|, |shape| - 1), shape));
      Carry(m0, m1, weight, wt, w);
      RightAlignedTyped(wt.shape, shape);
      var spread := EmitBroadcast(weight, Float32, wt.shape, shape, RightAligned(1, |shape|), w);
      ghost var m2 := memory;
      Carry(m1, m2, normalised, t, y);
      GrowsTwice(m0, m1, m2);
      StillAbsent(m0, m2, output);
      BinaryResult(output, MultiplyOp, normalised, spread, t, y, Aligned(w, shape));
      GrowsThenDefines(m0, m2, memory, output, t, RmsNormPattern(M, x, w, epsilon));
    }

    // ----- projections -----

    /** The transposed weight of a linear layer. */
    method EmitTransposedWeight(weight: string, t: TensorType, ghost w: Tensor) returns (result: string)
      requires Valid() && |t.shape| == 2 && Positive(t.shape) && Bound(memory, weight, t, w)
      modifies this
      ensures Valid() && Grows(old(memory), memory) && w.shape == t.shape && TransposeOf(w, [1, 0]).Some?
      ensures Bound(memory, result, Descriptor(t.dtype, [t.shape[1], t.shape[0]]), TransposeOf(w, [1, 0]).value)
    {
      result := TakeTemporary();
      ShapeOf(memory, weight, t, w);
      var r := Descriptor(t.dtype, [t.shape[1], t.shape[0]]);
      assert Permute(t.shape, [1, 0]) == r.shape;
      TransposeReady(M, memory, result, weight, t, r, [1, 0], w);
      WithTemporary(memory, result, r, TransposeOf(w, [1, 0]).value);
      Emit(result, TransposeOp([1, 0]), [weight], [t], r, TransposeOf(w, [1, 0]).value);
    }

    /** What the operands of the contraction hold, and that it is well typed. */
    ghost predicate Contracts(kind: Kind, left: string, right: string, l: Shape, r: Shape, t: TensorType,
                              x: Tensor, y: Tensor, product: Tensor)
      reads this
    {
      && kind.DotGeneral? && |kind.lhsContracting| == |kind.rhsContracting| == 1
      && Bound(memory, left, Descriptor(t.dtype, l), x) && Bound(memory, right, Descriptor(t.dtype, r), y)
      && x.shape == l && y.shape == r && Positive(t.shape) && 0 <= kind.lhsContracting[0] < |l|
      && DotTyped(l, r, t.shape, kind) && DotValue(M, kind, x, y, t.shape) == product
    }

    /** The operands of the contraction of a linear layer. */
    method LinearOperands(left: string, right: string, l: Shape, r: Shape, t: TensorType, ghost x: Tensor, ghost y: Tensor)
      returns (kind: Kind, newRight: string, newR: Shape, ghost transposed: Tensor)
      requires Valid() && Bound(memory, left, Descriptor(t.dtype, l), x) && Bound(memory, right, Descriptor(t.dtype, r), y)
      requires LinearShape(l, r) == Some(t.shape) && Positive(l) && Positive(r)
      modifies this
      ensures Valid() && Grows(old(memory), memory)
      ensures x.shape == l && y.shape == r && LinearOf(M.A, x, y).Some?
      ensures Contracts(kind, left, newRight, l, newR, t, x, transposed, LinearOf(M.A, x, y).value)
    {
      ShapeOf(memory, left, Descriptor(t.dtype, l), x);
      ShapeOf(memory, right, Descriptor(t.dtype, r), y);
      ghost var m0 := memory;
      newRight := EmitTransposedWeight(right, Descriptor(t.dtype, r), y);
      newR, kind, transposed := [r[1], r[0]], LinearDot(|l|), TransposeOf(y, [1, 0]).value;
      Carry(m0, memory, left, Descriptor(t.dtype, l), x);
      LinearDotTyped(l, r[0]);
      LinearLowered(M, x, y);
    }

    /** The operands of the contraction of a matrix product, broadcast over the batch. */
    method MatMulOperandsInto(left: string, right: string, l: Shape, r: Shape, t: TensorType, ghost x: Tensor, ghost y: Tensor)
      returns (kind: Kind, newLeft: string, newRight: string, newL: Shape, newR: Shape, ghost x': Tensor, ghost y': Tensor)
      requires Valid() && Bound(memory, left, Descriptor(t.dtype, l), x) && Bound(memory, right, Descriptor(t.dtype, r), y)
      requires MatMulShape(l, r) == Some(t.shape) && Positive(l) && Positive(r)
      modifies this
      ensures Valid() && Grows(old(memory), memory)
      ensures x.shape == l && y.shape == r && MatMulOf(M.A, x, y).Some?
      ensures Contracts(kind, newLeft, newRight, newL, newR, t, x', y', MatMulOf(M.A, x, y).value)
    {
      ShapeOf(memory, left, Descriptor(t.dtype, l), x);
      ShapeOf(memory, right, Descriptor(t.dtype, r), y);
      MatMulLowered(M, x, y);
      var batch := t.shape[..|t.shape| - 2];
      newL, newR := BatchedShape(batch, l), BatchedShape(batch, r);
      MatrixTyped(l, batch);
      MatrixTyped(r, batch);
      ghost var m0 := memory;
      newLeft := EmitBroadcast(left, t.dtype, l, newL, RightAligned(|l|, |newL|), x);
      ghost var m1 := memory;
      Carry(m0, m1, right, Descriptor(t.dtype, r), y);
      newRight := EmitBroadcast(right, t.dtype, r, newR, RightAligned(|r|, |newR|), y);
      x', y' := Aligned(x, newL), Aligned(y, newR);
      Carry(m1, memory, newLeft, Descriptor(t.dtype, newL), x');
      GrowsTwice(m0, m1, memory);
      kind := BatchedDot(|batch|);
      BatchedDotTyped(batch, l[|l| - 2], l[|l| - 1], r[|r| - 1]);
      assert t.shape == batch + [l[|l| - 2], r[|r| - 1]];
    }

    /** The contraction into a temporary ... */
    method ProductTemporary(kind: Kind, left: string, right: string, l: Shape, r: Shape, t: TensorType,
                            ghost x: Tensor, ghost y: Tensor, ghost product: Tensor)
      returns (result: string)
      requires Valid() && Contracts(kind, left, right, l, r, t, x, y, product)
      modifies this
      ensures Valid() && Grows(old(memory), memory) && Bound(memory, result, t, product)
    {
      result := TakeTemporary();
      DotReady(M, memory, result, kind, left, right, Descriptor(t.dtype, l), Descriptor(t.dtype, r), t, x, y);
      WithTemporary(memory, result, t, product);
      Emit(result, kind, [left, right], [Descriptor(t.dtype, l), Descriptor(t.dtype, r)], t, product);
    }

    /** ... or into the graph value. */
    method ProductResult(output: string, kind: Kind, left: string, right: string, l: Shape, r: Shape, t: TensorType,
                         ghost x: Tensor, ghost y: Tensor, ghost product: Tensor)
      requires Valid() && Contracts(kind, left, right, l, r, t, x, y, product)
      requires IsVariable(output) && output !in memory.env
      modifies this
      ensures Valid() && Defines(old(memory), memory, output, t, product)
    {
      DotReady(M, memory, output, kind, left, right, Descriptor(t.dtype, l), Descriptor(t.dtype, r), t, x, y);
      WithResult(memory, output, t, product);
      Emit(output, kind, [left, right], [Descriptor(t.dtype, l), Descriptor(t.dtype, r)], t, product);
    }

    /** The bias, spread over the product. */
    method SpreadBias(bias: string, t: TensorType, ghost b: Tensor) returns (result: string)
      requires Valid() && t.shape != [] && Positive(t.shape)
      requires Bound(memory, bias, Descriptor(t.dtype, [t.shape[|t.shape| - 1]]), b)
      modifies this
      ensures Valid() && Grows(old(memory), memory)
      ensures b.shape == [t.shape[|t.shape| - 1]] && Bound(memory, result, t, Aligned(b, t.shape))
    {
      var bt := Descriptor(t.dtype, [t.shape[|t.shape| - 1]]);
      ShapeOf(memory, bias, bt, b);
      RightAlignedTyped(bt.shape, t.shape);
      result := EmitBroadcast(bias, t.dtype, bt.shape, t.shape, RightAligned(1, |t.shape|), b);
    }

    /** What follows the contraction when there is a bias but no activation. */
    method BiasResult(dot: string, bias: string, output: string, t: TensorType, ghost product: Tensor, ghost b: Tensor)
      requires Valid() && t.shape != [] && Positive(t.shape) && !t.dtype.Boolean? && Bound(memory, dot, t, product)
      requires Bound(memory, bias, Descriptor(t.dtype, [t.shape[|t.shape| - 1]]), b)
      requires IsVariable(output) && output !in memory.env
      modifies this
      ensures Valid() && product.shape == t.shape && b.shape == [t.shape[|t.shape| - 1]]
      ensures Defines(old(memory), memory, output, t, BiasPattern(M, product, Some(b)))
    {
      ghost var m0 := memory;
      var spread := SpreadBias(bias, t, b);
      ghost var m1 := memory;
      Carry(m0, m1, dot, t, product);
      StillAbsent(m0, m1, output);
      BinaryResult(output, AddOp, dot, spread, t, product, Aligned(b, t.shape));
      GrowsThenDefines(m0, m1, memory, output, t, BiasPattern(M, product, Some(b)));
    }

    /** The bias added into a temporary, for an activation to follow. */
    method BiasTemporary(dot: string, bias: string, t: TensorType, ghost product: Tensor, ghost b: Tensor)
      returns (result: string)
      requires Valid() && t.shape != [] && Positive(t.shape) && !t.dtype.Boolean? && Bound(memory, dot, t, product)
      requires Bound(memory, bias, Descriptor(t.dtype, [t.shape[|t.shape| - 1]]), b)
      modifies this
      ensures Valid() && product.shape == t.shape && b.shape == [t.shape[|t.shape| - 1]]
      ensures Grows(old(memory), memory) && Bound(memory, result, t, BiasPattern(M, product, Some(b)))
    {
      ghost var m0 := memory;
      var spread := SpreadBias(bias, t, b);
      ghost var m1 := memory;
      Carry(m0, m1, dot, t, product);
      result := BinaryTemporary(AddOp, dot, spread, t, product, Aligned(b, t.shape));
      GrowsTwice(m0, m1, memory);
    }

    /** Everything `emit_matmul` does after the operands of the contraction. */
    method FinishProjection(op: Operation, kind: Kind, left: string, right: string, l: Shape, r: Shape, t: TensorType,
                            ghost x: Tensor, ghost y: Tensor, ghost product: Tensor, ghost b: Option<Tensor>)
      returns (ok: bool)
      requires Valid() && op.output in types && types[op.output] == t && t.shape != [] && !t.dtype.Boolean?
      requires Contracts(kind, left, right, l, r, t, x, y, product) && product.shape == t.shape
      requires (|op.inputs| == 3) == b.Some?
      requires b.Some? ==> Bound(memory, Variable(op.inputs[2]), Descriptor(t.dtype, [t.shape[|t.shape| - 1]]), b.value)
      requires b.Some? ==> b.value.shape == [t.shape[|t.shape| - 1]]
      requires IsVariable(Variable(op.output)) && Variable(op.output) !in memory.env
      modifies this
      ensures Valid() && (ok <==> GeluRequested(op) && ("fused_activation" in op.attributes ==> GeluLowers(types, op)))
      ensures ok ==> Defines(old(memory), memory, Variable(op.output), t, ProjectionPattern(M, op, product, b))
    {
      var output := Variable(op.output);
      var fused := "fused_activation" in op.attributes;
      if fused && op.attributes["fused_activation"] != JString("GELU") {
        return false;
      }
      if |op.inputs| != 3 && !fused {
        ProductResult(output, kind, left, right, l, r, t, x, y, product);
        return true;
      }
      ghost var m0 := memory;
      var dot := ProductTemporary(kind, left, right, l, r, t, x, y, product);
      ghost var m1 := memory;
      StillAbsent(m0, m1, output);
      if |op.inputs| == 3 {
        Carry(m0, m1, Variable(op.inputs[2]), Descriptor(t.dtype, [t.shape[|t.shape| - 1]]), b.value);
      }
      if !fused {
        BiasResult(dot, Variable(op.inputs[2]), output, t, product, b.value);
        GrowsThenDefines(m0, m1, memory, output, t, ProjectionPattern(M, op, product, b));
        return true;
      }
      var current := dot;
      if |op.inputs| == 3 {
        current := BiasTemporary(dot, Variable(op.inputs[2]), t, product, b.value);
      } else {
        Unchanged(m1);
      }
      ghost var m2 := memory;
      GrowsTwice(m0, m1, m2);
      StillAbsent(m1, m2, output);
      ok := EmitGelu(op, current, output, t, BiasPattern(M, product, b));
      if ok {
        GrowsThenDefines(m0, m2, memory, output, t, ProjectionPattern(M, op, product, b));
      }
    }

    // ----- operations -----

    /** The operands are defined with their declared types and hold `xs`; the result is still to come. */
    ghost predicate OperationReady(op: Operation, xs: seq<Tensor>)
      reads this
    {
      && Resolved(types, op) && OperationOk(M.A, types, op)
      && (forall id <- types :: Positive(types[id].shape))
      && |xs| == |op.inputs|
      && (forall k {:trigger xs[k]} | 0 <= k < |xs| ::
            Bound(memory, Variable(op.inputs[k]), types[op.inputs[k]], xs[k]))
      && IsVariable(Variable(op.output)) && Variable(op.output) !in memory.env
    }

    /** The result is defined, and holds the value of the operation wherever it has one. */
    ghost predicate Lowered(op: Operation, xs: seq<Tensor>, before: Memory, value: Tensor)
      requires op.output in types
      reads this
    {
      var t := types[op.output];
      && Defines(before, memory, Variable(op.output), t, value)
      && (M.Faithful() && EvaluateOperation(M.A, op, xs, t.shape).Some? ==>
            EvaluateOperation(M.A, op, xs, t.shape) == Some(value))
    }

    /** `emit_constant` */
    method EmitConstant(op: Operation) returns (ok: bool, ghost value: Tensor)
      requires Valid() && OperationReady(op, []) && op.kind.Constant?
      modifies this
      ensures Valid() && (ok <==> Lowers(finite, types, op))
      ensures ok ==> Lowered(op, [], old(memory), value)
    {
      var t, json := types[op.output], op.attributes["value"];
      var literal := BoolLiteral(false);
      value := Filled(t.shape, M.A.literal(json));
      match json {
        case JBool(flag) => literal := BoolLiteral(flag);
        case JInt(integer) => literal := IntegerLiteral(integer);
        case JFloat(number) =>
          if !finite(number) {
            return false, value;
          }
          literal := FloatLiteral(Number(json));
        case _ => return false, value;
      }
      ConstantReady(M, memory, Variable(op.output), literal, t);
      WithResult(memory, Variable(op.output), t, value);
      ConstantLowered(M, op.attributes, t.shape);
      Emit(Variable(op.output), ConstantOp(literal), [], [], t, value);
      ok := true;
    }

    /** `emit_matmul` */
    method EmitMatMul(op: Operation, ghost xs: seq<Tensor>) returns (ok: bool, ghost value: Tensor)
      requires Valid() && OperationReady(op, xs) && op.IsProjection()
      modifies this
      ensures Valid() && (ok <==> Lowers(finite, types, op))
      ensures ok ==> Lowered(op, xs, old(memory), value)
    {
      var t, l, r := types[op.output], types[op.inputs[0]].shape, types[op.inputs[1]].shape;
      var left, right := Variable(op.inputs[0]), Variable(op.inputs[1]);
      ghost var m0, x, y := memory, xs[0], xs[1];
      var newLeft, newL := left, l;
      var kind, newRight, newR;
      ghost var x', y' := x, y;
      if op.kind.Linear? {
        kind, newRight, newR, y' := LinearOperands(left, right, l, r, t, x, y);
      } else {
        kind, newLeft, newRight, newL, newR, x', y' := MatMulOperandsInto(left, right, l, r, t, x, y);
      }
      ghost var m1, product := memory, Product(M.A, op.kind.Linear?, x, y).value;
      StillAbsent(m0, m1, Variable(op.output));
      if |op.inputs| == 3 {
        ShapeOf(m0, Variable(op.inputs[2]), types[op.inputs[2]], xs[2]);
        Carry(m0, m1, Variable(op.inputs[2]), types[op.inputs[2]], xs[2]);
      }
      ok := FinishProjection(op, kind, newLeft, newRight, newL, newR, t, x', y', product, BiasIn(xs));
      value := ProjectionPattern(M, op, product, BiasIn(xs));
      if ok {
        GrowsThenDefines(m0, m1, memory, Variable(op.output), t, value);
        if M.Faithful() && Projection(M.A, op, xs).Some? {
          ProjectionLowered(M, op, xs, product);
        }
      }
    }

    /** Addition, multiplication and division of graph values. */
    method EmitArithmetic(op: Operation, name: BinaryName, ghost xs: seq<Tensor>) returns (ghost value: Tensor)
      requires Valid() && OperationReady(op, xs)
      requires (op.kind.Add? && name == AddOp) || (op.kind.Multiply? && name == MultiplyOp)
            || (op.kind.Divide? && name == DivideOp)
      modifies this
      ensures Valid() && Lowered(op, xs, old(memory), value)
    {
      var t, l, r := types[op.output], types[op.inputs[0]], types[op.inputs[1]];
      ShapeOf(memory, Variable(op.inputs[0]), l, xs[0]);
      ShapeOf(memory, Variable(op.inputs[1]), r, xs[1]);
      BinaryLowered(M.BinaryMeaning(name), xs[0], xs[1]);
      AddMeans(M);
      value := Zip(M.BinaryMeaning(name), Aligned(xs[0], t.shape), Aligned(xs[1], t.shape));
      EmitElementwise(name, Variable(op.inputs[0]), Variable(op.inputs[1]), l.shape, r.shape, Variable(op.output), t,
                      xs[0], xs[1]);
    }

    /** GELU of a graph value. */
    method EmitGeluOperation(op: Operation, ghost xs: seq<Tensor>) returns (ok: bool, ghost value: Tensor)
      requires Valid() && OperationReady(op, xs) && op.kind.Gelu?
      modifies this
      ensures Valid() && (ok <==> Lowers(finite, types, op))
      ensures ok ==> Lowered(op, xs, old(memory), value)
    {
      value := GeluPattern(M, xs[0]);
      ok := EmitGelu(op, Variable(op.inputs[0]), Variable(op.output), types[op.output], xs[0]);
      if M.Faithful() {
        GeluLowered(M, xs[0]);
      }
    }

    /** Softmax of a graph value; verified graphs give it floats. */
    method EmitSoftmaxOperation(op: Operation, ghost xs: seq<Tensor>) returns (ok: bool, ghost value: Tensor)
      requires Valid() && OperationReady(op, xs) && op.kind.Softmax?
      modifies this
      ensures Valid() && (ok <==> Lowers(finite, types, op))
      ensures ok ==> Lowered(op, xs, old(memory), value)
    {
      var shape, axis := types[op.inputs[0]].shape, op.attributes["axis"].integer;
      value := xs[0];
      if types[op.output].dtype != Float32 {
        return false, value;
      }
      if axis < 0 {
        axis := axis + |shape|;
      }
      ShapeOf(memory, Variable(op.inputs[0]), types[op.inputs[0]], xs[0]);
      value := SoftmaxPattern(M, xs[0], axis);
      SoftmaxEvaluated(M, op.attributes, xs[0], op.attributes["axis"].integer);
      EmitSoftmax(Variable(op.inputs[0]), Variable(op.output), shape, axis, xs[0]);
      ok := true;
    }

    /** RMS normalisation of a graph value. */
    method EmitRmsNormOperation(op: Operation, ghost xs: seq<Tensor>) returns (ok: bool, ghost value: Tensor)
      requires Valid() && OperationReady(op, xs) && op.kind.RmsNorm?
      modifies this
      ensures Valid() && (ok <==> Lowers(finite, types, op))
      ensures ok ==> Lowered(op, xs, old(memory), value)
    {
      var shape, epsilon := types[op.inputs[0]].shape, op.attributes["epsilon"];
      value := xs[0];
      if types[op.output].dtype != Float32 {
        return false, value;
      }
      ShapeOf(memory, Variable(op.inputs[0]), types[op.inputs[0]], xs[0]);
      ShapeOf(memory, Variable(op.inputs[1]), types[op.inputs[1]], xs[1]);
      value := RmsNormPattern(M, xs[0], xs[1], epsilon);
      RmsNormLowered(M, xs[0], xs[1], epsilon);
      EmitRmsNorm(Variable(op.inputs[0]), Variable(op.inputs[1]), Variable(op.output), shape, epsilon, xs[0], xs[1]);
      ok := true;
    }

    /** Reshape and transpose are single instructions. */
    method EmitReshape(op: Operation, ghost xs: seq<Tensor>) returns (ghost value: Tensor)
      requires Valid() && OperationReady(op, xs) && op.kind.Reshape?
      modifies this
      ensures Valid() && Lowered(op, xs, old(memory), value)
    {
      var t, x := types[op.output], types[op.inputs[0]];
      ShapeOf(memory, Variable(op.inputs[0]), x, xs[0]);
      ReshapeReady(M, memory, Variable(op.output), Variable(op.inputs[0]), x, t, xs[0]);
      value := ReshapeOf(xs[0], t.shape).value;
      WithResult(memory, Variable(op.output), t, value);
      Emit(Variable(op.output), ReshapeOp, [Variable(op.inputs[0])], [x], t, value);
    }

    method EmitTranspose(op: Operation, ghost xs: seq<Tensor>) returns (ghost value: Tensor)
      requires Valid() && OperationReady(op, xs) && op.kind.Transpose?
      modifies this
      ensures Valid() && Lowered(op, xs, old(memory), value)
    {
      var t, x, p := types[op.output], types[op.inputs[0]], IntegerArrayOf(op.attributes, "permutation").value;
      ShapeOf(memory, Variable(op.inputs[0]), x, xs[0]);
      TransposeReady(M, memory, Variable(op.output), Variable(op.inputs[0]), x, t, p, xs[0]);
      value := TransposeOf(xs[0], p).value;
      WithResult(memory, Variable(op.output), t, value);
      Emit(Variable(op.output), TransposeOp(p), [Variable(op.inputs[0])], [x], t, value);
    }

    /** `emit_operation`, for the operations that are no declarations of arguments. */
    method EmitOperation(op: Operation, ghost xs: seq<Tensor>) returns (ok: bool, ghost value: Tensor)
      requires Valid() && OperationReady(op, xs) && !op.kind.Input? && !op.kind.Parameter?
      modifies this
      ensures Valid() && (ok <==> Lowers(finite, types, op))
      ensures ok ==> Lowered(op, xs, old(memory), value)
    {
      ok, value := true, Filled([], M.A.zero);
      match op.kind {
        case Constant => ok, value := EmitConstant(op);
        case MatMul | Linear => ok, value := EmitMatMul(op, xs);
        case Add => value := EmitArithmetic(op, AddOp, xs);
        case Multiply => value := EmitArithmetic(op, MultiplyOp, xs);
        case Divide => value := EmitArithmetic(op, DivideOp, xs);
        case RmsNorm => ok, value := EmitRmsNormOperation(op, xs);
        case Gelu => ok, value := EmitGeluOperation(op, xs);
        case Softmax => ok, value := EmitSoftmaxOperation(op, xs);
        case Reshape => value := EmitReshape(op, xs);
        case Transpose => value := EmitTranspose(op, xs);
        case CausalMask => ok := false;
      }
    }
  }
}
