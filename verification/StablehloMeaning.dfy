/** What the emitted instructions compute, and what the lowered patterns compute with them. */
module StablehloMeaning {
  import opened Basics
  import opened GraphIR
  import opened Shapes
  import opened Tensors
  import opened StablehloSyntax

  /** The scalar operators of the graph, and what the lowering of GELU adds to them. */
  datatype Model = Model(A: Arith, erf: Scalar -> Scalar, squareRootOfTwo: Scalar, half: Scalar)
  {
    function LiteralValue(literal: Literal): Scalar {
      match literal
      case BoolLiteral(flag) => A.literal(JBool(flag))
      case IntegerLiteral(integer) => A.literal(JInt(integer))
      case NegativeInfinity => A.negativeInfinity
      case FloatLiteral(SquareRootOfTwo) => squareRootOfTwo
      case FloatLiteral(One) => A.one
      case FloatLiteral(Half) => half
      case FloatLiteral(Zero) => A.zero
      case FloatLiteral(CountOf(n)) => if n >= 0 then A.ofCount(n) else A.zero
      case FloatLiteral(Number(json)) => A.literal(json)
    }

    function BinaryMeaning(name: BinaryName): (Scalar, Scalar) -> Scalar {
      match name
      case AddOp => A.add
      case SubtractOp => A.sub
      case MultiplyOp => A.mul
      case DivideOp => A.div
      case MaximumOp => A.maximum
    }

    function UnaryMeaning(name: UnaryName): Scalar -> Scalar {
      match name
      case ErfOp => erf
      case ExponentialOp => A.exp
      case RsqrtOp => x => A.div(A.one, A.sqrt(x))
    }

    /** x (erf(x / sqrt 2) + 1) / 2, in the order of the emitted instructions. */
    function GeluByErf(x: Scalar): Scalar {
      A.mul(A.mul(x, A.add(erf(A.div(x, squareRootOfTwo)), A.one)), half)
    }

    /** GELU is what its formula computes. */
    ghost predicate Faithful() {
      forall x :: A.gelu(x) == GeluByErf(x)
    }
  }

  // ----- tensors by cells -----

  function Tabulate(shape: Shape, cell: Coords -> Scalar): (r: Tensor)
    requires Positive(shape)
    ensures r.shape == shape
  {
    CountPositive(shape);
    RawTensor.Tensor(shape, seq(Count(shape), i requires 0 <= i < Count(shape) => CellFor(shape, cell, i)))
  }

  function CellFor(shape: Shape, cell: Coords -> Scalar, i: nat): Scalar
    requires Positive(shape) && i < Count(shape)
  {
    cell(CoordinateOf(shape, i))
  }

  lemma TabulateAt(shape: Shape, cell: Coords -> Scalar, c: Coords)
    requires Positive(shape) && InBounds(shape, c)
    ensures At(Tabulate(shape, cell), c) == cell(c)
  {
    DecodeEncode(shape, c);
  }

  /** A cell; out of bounds, where a well-typed program does not read, some scalar. */
  function Read(t: Tensor, c: Coords): Scalar {
    if InBounds(t.shape, c) then At(t, c) else Scalar.Scalar(0)
  }

  // ----- the operations -----

  function Filled(shape: Shape, x: Scalar): (r: Tensor)
    requires Positive(shape)
    ensures r.shape == shape
  {
    Tabulate(shape, c => x)
  }

  function Zip(f: (Scalar, Scalar) -> Scalar, t: Tensor, u: Tensor): (r: Tensor)
    requires t.shape == u.shape
    ensures r.shape == t.shape
  {
    RawTensor.Tensor(t.shape, seq(|t.data|, i requires 0 <= i < |t.data| => f(t.data[i], u.data[i])))
  }

  /** The operand coordinate of a broadcast. */
  function Gather(c: Coords, dimensions: seq<int>, input: Shape): (r: Coords)
    ensures |r| == |input|
  {
    seq(|input|, i requires 0 <= i < |input| =>
      if input[i] == 1 || i >= |dimensions| || dimensions[i] < 0 || dimensions[i] >= |c| then 0 else c[dimensions[i]])
  }

  function BroadcastOf(t: Tensor, dimensions: seq<int>, shape: Shape): (r: Tensor)
    requires Positive(shape)
    ensures r.shape == shape
  {
    Tabulate(shape, c => Read(t, Gather(c, dimensions, t.shape)))
  }

  function Insert(c: Coords, axis: nat, k: int): Coords {
    if axis <= |c| then c[..axis] + [k] + c[axis..] else c
  }

  function Slice(t: Tensor, c: Coords, axis: nat): (r: seq<Scalar>)
    requires axis < |t.shape|
    ensures |r| == t.shape[axis]
  {
    seq(t.shape[axis], k requires 0 <= k < t.shape[axis] => Read(t, Insert(c, axis, k)))
  }

  /** Left fold of the first k elements. */
  function Fold(f: (Scalar, Scalar) -> Scalar, initial: Scalar, x: seq<Scalar>, k: nat): Scalar
    requires k <= |x|
  {
    if k == 0 then initial else f(Fold(f, initial, x, k - 1), x[k - 1])
  }

  function ReduceOf(f: (Scalar, Scalar) -> Scalar, t: Tensor, initial: Scalar, axis: nat): (r: Tensor)
    requires axis < |t.shape|
    ensures r.shape == WithoutAxis(t.shape, axis)
  {
    Tabulate(WithoutAxis(t.shape, axis), c => Fold(f, initial, Slice(t, c, axis), t.shape[axis]))
  }

  /** How many axes before `a` are not used. */
  function FreeBefore(used: seq<int>, a: nat): nat {
    if a == 0 then 0 else FreeBefore(used, a - 1) + if a - 1 in used then 0 else 1
  }

  /**
   The operand coordinate of a contraction: batching axes and the free axes, which start at `offset`,
   follow the result coordinate; the contracted axis follows k.
   */
  function DotCoordinate(rank: nat, batching: seq<int>, contracting: int, offset: nat, c: Coords, k: int): (r: Coords)
    ensures |r| == rank
  {
    seq(rank, a requires 0 <= a < rank =>
      if a in batching then (var i := IndexOf(batching, a); if i < |c| then c[i] else 0)
      else if a == contracting then k
      else (var i := offset + FreeBefore(batching + [contracting], a); if i < |c| then c[i] else 0))
  }

  /** The cells of an operand that one result cell contracts. */
  function DotLane(t: Tensor, batching: seq<int>, contracting: int, offset: nat, n: nat, c: Coords): (r: seq<Scalar>)
    ensures |r| == n
  {
    seq(n, k requires 0 <= k < n => Read(t, DotCoordinate(|t.shape|, batching, contracting, offset, c, k)))
  }

  function DotCell(A: Arith, kind: Kind, x: Tensor, y: Tensor, n: nat, c: Coords): Scalar
    requires kind.DotGeneral? && |kind.lhsContracting| == |kind.rhsContracting| == 1
  {
    var b := |kind.lhsBatching|;
    var free := FreeBefore(kind.lhsBatching + kind.lhsContracting, |x.shape|);
    Dot(A, DotLane(x, kind.lhsBatching, kind.lhsContracting[0], b, n, c),
        DotLane(y, kind.rhsBatching, kind.rhsContracting[0], b + free, n, c), n)
  }

  /** What an instruction computes; None unless the operands fit. */
  function Denote(M: Model, kind: Kind, ts: seq<Tensor>, shape: Shape): (r: Option<Tensor>)
    ensures r.Some? ==> r.value.shape == shape
  {
    if !Positive(shape) then None
    else
      match kind
      case ConstantOp(literal) => if ts == [] then Some(Filled(shape, M.LiteralValue(literal))) else None
      case BroadcastInDim(d) => if |ts| == 1 then Some(BroadcastOf(ts[0], d, shape)) else None
      case Elementwise(name) =>
        if |ts| == 2 && ts[0].shape == ts[1].shape == shape then Some(Zip(M.BinaryMeaning(name), ts[0], ts[1])) else None
      case Unary(name) => if |ts| == 1 && ts[0].shape == shape then Some(Map(M.UnaryMeaning(name), ts[0])) else None
      case TransposeOp(p) =>
        if |ts| == 1 && TransposeOf(ts[0], p).Some? && TransposeOf(ts[0], p).value.shape == shape
        then TransposeOf(ts[0], p) else None
      case ReshapeOp => if |ts| == 1 then ReshapeOf(ts[0], shape) else None
      case DotGeneral(_, _, lc, rc) =>
        if |ts| == 2 && |lc| == |rc| == 1 && 0 <= lc[0] < |ts[0].shape|
        then Some(Tabulate(shape, c => DotCell(M.A, kind, ts[0], ts[1], ts[0].shape[lc[0]], c))) else None
      case Reduce(axes, reducer, _, _) =>
        if |ts| == 2 && |axes| == 1 && 0 <= axes[0] < |ts[0].shape| && ts[1].shape == []
          && shape == WithoutAxis(ts[0].shape, axes[0])
        then Some(ReduceOf(M.BinaryMeaning(reducer), ts[0], ts[1].data[0], axes[0])) else None
  }

  type State = map<string, Tensor>

  function Values(state: State, names: seq<string>): (r: seq<Tensor>)
    requires forall k | 0 <= k < |names| :: names[k] in state
    ensures |r| == |names|
  {
    seq(|names|, k requires 0 <= k < |names| => state[names[k]])
  }

  /** Running the instructions one after the other. */
  function Execute(M: Model, state: State, body: seq<Instruction>): Option<State> {
    if body == [] then Some(state)
    else
      var before := Execute(M, state, body[..|body| - 1]);
      var i := body[|body| - 1];
      if before.None? || exists k | 0 <= k < |i.operands| :: i.operands[k] !in before.value then None
      else
        var value := Denote(M, i.kind, Values(before.value, i.operands), i.resultType.shape);
        if value.None? then None else Some(before.value[i.result := value.value])
  }

  lemma ExecuteAppend(M: Model, state: State, body: seq<Instruction>, i: Instruction, value: Tensor)
    requires Execute(M, state, body).Some?
    requires forall k | 0 <= k < |i.operands| :: i.operands[k] in Execute(M, state, body).value
    requires Denote(M, i.kind, Values(Execute(M, state, body).value, i.operands), i.resultType.shape) == Some(value)
    ensures Execute(M, state, body + [i]) == Some(Execute(M, state, body).value[i.result := value])
  {
    assert (body + [i])[..|body|] == body;
  }
}
