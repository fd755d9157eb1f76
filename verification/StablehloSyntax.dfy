/** The emitted StableHLO module as syntax, with the typing rules of the instructions it uses. */
module StablehloSyntax {
  import opened Basics
  import opened GraphIR
  import opened Shapes
  import opened Tensors

  type TensorType = Descriptor

  type Environment = map<string, TensorType>

  // ----- names -----

  function Digit(d: nat): char
    requires d < 10
  {
    "0123456789"[d]
  }

  /** `std::to_string` of a count. */
  function Decimal(n: nat): (r: string)
    ensures |r| > 0 && (|r| == 1 <==> n < 10)
  {
    if n < 10 then [Digit(n)] else Decimal(n / 10) + [Digit(n % 10)]
  }

  lemma {:induction false} DecimalInjective(a: nat, b: nat)
    requires Decimal(a) == Decimal(b)
    ensures a == b
  {
    var r := Decimal(a);
    assert r[|r| - 1] == Digit(a % 10) == Digit(b % 10);
    if a >= 10 {
      assert r[..|r| - 1] == Decimal(a / 10) == Decimal(b / 10);
      DecimalInjective(a / 10, b / 10);
    }
  }

  /** The name of a graph value. */
  function Variable(id: Id): string {
    "%" + id
  }

  /** The n-th temporary. */
  function Temporary(n: nat): string {
    "%forgeir" + Decimal(n)
  }

  /** Value identifiers of loaded graphs start with this letter. */
  predicate IsValueId(id: Id) {
    |id| > 0 && id[0] == 'v'
  }

  predicate IsVariable(name: string) {
    |name| > 1 && name[1] == 'v'
  }

  ghost predicate TemporaryBelow(name: string, n: nat) {
    exists k: nat | k < n :: name == Temporary(k)
  }

  /** Temporaries are no variables, no region arguments, and differ from each other. */
  lemma TemporariesAreFresh(name: string, n: nat)
    requires IsVariable(name) || TemporaryBelow(name, n)
    ensures name != Temporary(n) && name != "%lhs" && name != "%rhs"
    ensures !IsVariable(Temporary(n)) && Temporary(n) != "%lhs" && Temporary(n) != "%rhs"
  {
    assert Temporary(n)[1] == 'f';
    if !IsVariable(name) {
      var k: nat :| k < n && name == Temporary(k);
      assert name[1] == 'f';
      if name == Temporary(n) {
        assert Decimal(k) == Temporary(k)[8..] == Temporary(n)[8..] == Decimal(n);
        DecimalInjective(k, n);
      }
    }
  }

  // ----- instructions -----

  datatype FloatValue = SquareRootOfTwo | One | Half | Zero | CountOf(n: int) | Number(json: Json)

  datatype Literal = BoolLiteral(flag: bool) | IntegerLiteral(integer: int) | FloatLiteral(value: FloatValue)
                   | NegativeInfinity

  datatype BinaryName = AddOp | SubtractOp | MultiplyOp | DivideOp | MaximumOp

  datatype UnaryName = ErfOp | RsqrtOp | ExponentialOp

  datatype Kind =
    | ConstantOp(literal: Literal)
    | BroadcastInDim(dimensions: seq<int>)
    | Elementwise(binary: BinaryName)
    | Unary(unary: UnaryName)
    | TransposeOp(permutation: seq<int>)
    | ReshapeOp
    | DotGeneral(lhsBatching: seq<int>, rhsBatching: seq<int>, lhsContracting: seq<int>, rhsContracting: seq<int>)
    /** The region applies `reducer` to %lhs and %rhs of the scalar type and returns `reduced`. */
    | Reduce(axes: seq<int>, reducer: BinaryName, reduced: string, scalarType: TensorType)

  datatype Instruction = Instruction(
    result: string,
    kind: Kind,
    operands: seq<string>,
    operandTypes: seq<TensorType>,
    resultType: TensorType)

  datatype Module = Module(
    arguments: seq<(string, TensorType)>,
    resultTypes: seq<TensorType>,
    body: seq<Instruction>,
    returned: seq<string>,
    returnedTypes: seq<TensorType>)

  // ----- typing rules -----

  predicate LiteralFits(literal: Literal, dtype: DataType) {
    match literal
    case BoolLiteral(_) => dtype.Boolean?
    case IntegerLiteral(_) => dtype.Int64?
    case FloatLiteral(_) | NegativeInfinity => dtype.Float32?
  }

  /** Distinct axes of a tensor of the given rank. */
  predicate DistinctAxes(axes: seq<int>, rank: nat) {
    && (forall i | 0 <= i < |axes| :: 0 <= axes[i] < rank)
    && forall i, j | 0 <= i < j < |axes| :: axes[i] != axes[j]
  }

  /** The dimensions that are not listed, in order. */
  function Remaining(s: Shape, axes: seq<int>): (r: Shape) {
    if s == [] then []
    else
      var n := |s| - 1;
      Remaining(s[..n], axes) + if n in axes then [] else [s[n]]
  }

  predicate BroadcastTyped(input: Shape, output: Shape, dimensions: seq<int>) {
    && |dimensions| == |input| && DistinctAxes(dimensions, |output|)
    && forall i | 0 <= i < |input| :: input[i] == 1 || input[i] == output[dimensions[i]]
  }

  /** Section dot_general of the StableHLO specification. */
  predicate DotTyped(lhs: Shape, rhs: Shape, result: Shape, kind: Kind)
    requires kind.DotGeneral?
  {
    && |kind.lhsBatching| == |kind.rhsBatching| && |kind.lhsContracting| == |kind.rhsContracting|
    && DistinctAxes(kind.lhsBatching + kind.lhsContracting, |lhs|)
    && DistinctAxes(kind.rhsBatching + kind.rhsContracting, |rhs|)
    && (forall i | 0 <= i < |kind.lhsBatching| ::
          var l, r := (kind.lhsBatching + kind.lhsContracting)[i], (kind.rhsBatching + kind.rhsContracting)[i];
          lhs[l] == rhs[r])
    && (forall i | |kind.lhsBatching| <= i < |kind.lhsBatching + kind.lhsContracting| ::
          var l, r := (kind.lhsBatching + kind.lhsContracting)[i], (kind.rhsBatching + kind.rhsContracting)[i];
          lhs[l] == rhs[r])
    && |kind.lhsBatching| <= |result|
    && (forall i | 0 <= i < |kind.lhsBatching| :: result[i] == lhs[(kind.lhsBatching + kind.lhsContracting)[i]])
    && result[|kind.lhsBatching|..]
       == Remaining(lhs, kind.lhsBatching + kind.lhsContracting)
        + Remaining(rhs, kind.rhsBatching + kind.rhsContracting)
  }

  predicate SameElements(ts: seq<TensorType>, r: TensorType) {
    forall k | 0 <= k < |ts| :: ts[k].dtype == r.dtype
  }

  predicate KindTyped(kind: Kind, ts: seq<TensorType>, r: TensorType) {
    match kind
    case ConstantOp(literal) => ts == [] && LiteralFits(literal, r.dtype)
    case BroadcastInDim(d) => |ts| == 1 && SameElements(ts, r) && BroadcastTyped(ts[0].shape, r.shape, d)
    case Elementwise(_) => ts == [r, r] && !r.dtype.Boolean?
    case Unary(_) => ts == [r] && r.dtype.Float32?
    case TransposeOp(p) =>
      |ts| == 1 && SameElements(ts, r) && IsPermutation(p, |ts[0].shape|) && r.shape == Permute(ts[0].shape, p)
    case ReshapeOp => |ts| == 1 && SameElements(ts, r) && Count(ts[0].shape) == Count(r.shape)
    case DotGeneral(_, _, _, _) => |ts| == 2 && SameElements(ts, r) && DotTyped(ts[0].shape, ts[1].shape, r.shape, kind)
    case Reduce(axes, _, _, scalarType) =>
      && |ts| == 2 && SameElements(ts, r) && DistinctAxes(axes, |ts[0].shape|) && r.shape == Remaining(ts[0].shape, axes)
      && ts[1] == scalarType && scalarType.shape == [] && !scalarType.dtype.Boolean?
  }

  /** The names a region introduces are new and distinct. */
  predicate RegionTyped(env: Environment, i: Instruction) {
    i.kind.Reduce? ==>
      && "%lhs" !in env && "%rhs" !in env && i.kind.reduced !in env
      && i.kind.reduced !in {"%lhs", "%rhs", i.result} && i.result !in {"%lhs", "%rhs"}
  }

  /** Operands are defined with the annotated types, the result is new, and the operation's own rule holds. */
  predicate WellTyped(env: Environment, i: Instruction) {
    && |i.operands| == |i.operandTypes|
    && (forall k | 0 <= k < |i.operands| :: i.operands[k] in env && env[i.operands[k]] == i.operandTypes[k])
    && i.result !in env && RegionTyped(env, i) && KindTyped(i.kind, i.operandTypes, i.resultType)
  }

  /** The environment after the instructions, None if one of them is not well typed. */
  function Check(env: Environment, body: seq<Instruction>): Option<Environment> {
    if body == [] then Some(env)
    else
      var before := Check(env, body[..|body| - 1]);
      var i := body[|body| - 1];
      if before.None? || !WellTyped(before.value, i) then None else Some(before.value[i.result := i.resultType])
  }

  lemma CheckAppend(env: Environment, body: seq<Instruction>, i: Instruction)
    requires Check(env, body).Some? && WellTyped(Check(env, body).value, i)
    ensures Check(env, body + [i]) == Some(Check(env, body).value[i.result := i.resultType])
  {
    assert (body + [i])[..|body|] == body;
  }

  function ArgumentTypes(arguments: seq<(string, TensorType)>): Environment {
    if arguments == [] then map[]
    else
      var n := |arguments| - 1;
      ArgumentTypes(arguments[..n])[arguments[n].0 := arguments[n].1]
  }

  /** Well-typed SSA: each name is defined once, before its uses, with the type every use annotates. */
  predicate WellTypedModule(m: Module) {
    && (forall i, j | 0 <= i < j < |m.arguments| :: m.arguments[i].0 != m.arguments[j].0)
    && Check(ArgumentTypes(m.arguments), m.body).Some?
    && |m.returned| == |m.returnedTypes| && m.returnedTypes == m.resultTypes
    && forall k | 0 <= k < |m.returned| ::
         && m.returned[k] in Check(ArgumentTypes(m.arguments), m.body).value
         && Check(ArgumentTypes(m.arguments), m.body).value[m.returned[k]] == m.returnedTypes[k]
  }

  // ----- the typing rules for what the lowering emits -----

  /** The axes the default mapping of `emit_broadcast` lists. */
  function RightAligned(input: nat, output: nat): (r: seq<int>)
    requires input <= output
    ensures |r| == input
  {
    seq(input, k requires 0 <= k < input => output - input + k)
  }

  lemma RightAlignedTyped(input: Shape, output: Shape)
    requires BroadcastsTo(input, output)
    ensures BroadcastTyped(input, output, RightAligned(|input|, |output|))
  {
  }

  function WithoutAxis<T>(s: seq<T>, axis: nat): (r: seq<T>)
    requires axis < |s|
    ensures |r| == |s| - 1
  {
    s[..axis] + s[axis + 1..]
  }

  /** All axes but one. */
  function OtherAxes(rank: nat, axis: nat): (r: seq<int>)
    requires axis < rank
    ensures |r| == rank - 1
  {
    seq(rank - 1, k requires 0 <= k < rank - 1 => if k < axis then k else k + 1)
  }

  lemma OtherAxesTyped(s: Shape, axis: nat)
    requires axis < |s|
    ensures BroadcastTyped(WithoutAxis(s, axis), s, OtherAxes(|s|, axis))
  {
  }

  lemma {:induction false} RemainingAll(s: Shape, axes: seq<int>)
    requires forall i | 0 <= i < |s| :: i !in axes
    ensures Remaining(s, axes) == s
  {
    if s != [] {
      var n := |s| - 1;
      RemainingAll(s[..n], axes);
      assert s == s[..n] + [s[n]];
    }
  }

  lemma {:induction false} RemainingNone(s: Shape, axes: seq<int>)
    requires forall i | 0 <= i < |s| :: i in axes
    ensures Remaining(s, axes) == []
  {
    if s != [] {
      RemainingNone(s[..|s| - 1], axes);
    }
  }

  lemma {:induction false} RemainingWithoutAxis(s: Shape, axis: nat)
    requires axis < |s|
    ensures Remaining(s, [axis]) == WithoutAxis(s, axis)
  {
    var n := |s| - 1;
    if axis < n {
      RemainingWithoutAxis(s[..n], axis);
      assert WithoutAxis(s, axis) == WithoutAxis(s[..n], axis) + [s[n]];
    } else {
      RemainingAll(s[..n], [axis]);
      assert WithoutAxis(s, axis) == s[..n];
    }
  }

  /** The first n axes, as the batching dimensions of a matrix product. */
  function FirstAxes(n: nat): (r: seq<int>)
    ensures |r| == n
  {
    seq(n, k => k)
  }

  lemma RemainingAppend(s: Shape, x: int, axes: seq<int>)
    ensures Remaining(s + [x], axes) == Remaining(s, axes) + if |s| in axes then [] else [x]
  {
    assert (s + [x])[..|s|] == s;
  }

  /** A batch of matrices leaves the inner dimension that is not used. */
  lemma RemainingOfBatch(batch: Shape, row: int, column: int, axes: seq<int>)
    requires |axes| == |batch| + 1 && forall i | 0 <= i < |batch| :: axes[i] == i
    ensures axes[|batch|] == |batch| + 1 ==> Remaining(batch + [row, column], axes) == [row]
    ensures axes[|batch|] == |batch| ==> Remaining(batch + [row, column], axes) == [column]
  {
    var b := |batch|;
    forall i | 0 <= i < b ensures i in axes {
      assert axes[i] == i;
    }
    RemainingNone(batch, axes);
    RemainingAppend(batch, row, axes);
    RemainingAppend(batch + [row], column, axes);
    assert batch + [row] + [column] == batch + [row, column];
    hide Remaining;
    assert axes[b] in axes;
  }

  function BatchedDot(b: nat): Kind {
    DotGeneral(FirstAxes(b), FirstAxes(b), [b + 1], [b])
  }

  /** The batched matrix product: equal batches, the last dimension of the left with the last but one of the right. */
  lemma BatchedDotTyped(batch: Shape, m: int, k: int, n: int)
    ensures DotTyped(batch + [m, k], batch + [k, n], batch + [m, n], BatchedDot(|batch|))
  {
    var b := |batch|;
    RemainingOfBatch(batch, m, k, FirstAxes(b) + [b + 1]);
    RemainingOfBatch(batch, k, n, FirstAxes(b) + [b]);
    assert (batch + [m, n])[b..] == [m] + [n];
  }

  function LinearDot(rank: nat): Kind
    requires rank > 0
  {
    DotGeneral([], [], [rank - 1], [0])
  }

  /** A linear layer after the transposition of its weight. */
  lemma LinearDotTyped(input: Shape, n: int)
    requires input != []
    ensures DotTyped(input, [input[|input| - 1], n], input[..|input| - 1] + [n], LinearDot(|input|))
  {
    var r := |input| - 1;
    var none: seq<int> := [];
    assert none + [r as int] == [r as int] && none + [0] == [0];
    RemainingWithoutAxis(input, r);
    assert WithoutAxis(input, r) == input[..r];
    RemainingWithoutAxis([input[r], n], 0);
    assert WithoutAxis([input[r], n], 0) == [n];
    assert (input[..r] + [n])[0..] == input[..r] + [n];
  }
}
