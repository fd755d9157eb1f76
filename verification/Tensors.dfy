/**
 Tensors and the meaning of every operation, stated over coordinates
 (python/forgeir/reference/evaluator.py). The arithmetic is a parameter: Arith is an arbitrary
 choice of scalar operators, so equalities between results hold operation for operation. The
 evaluator leaves the order of its sums and the reciprocal square root to its tensor library;
 here it reduces from left to right and divides by the square root, as the CPU kernels do.
 */
module Tensors {
  import opened Basics
  import opened GraphIR
  import opened Shapes
  import Counting

  /** The scalar operators, uninterpreted. */
  datatype Arith = Arith(
    zero: Scalar,
    one: Scalar,
    negativeInfinity: Scalar,
    add: (Scalar, Scalar) -> Scalar,
    sub: (Scalar, Scalar) -> Scalar,
    mul: (Scalar, Scalar) -> Scalar,
    div: (Scalar, Scalar) -> Scalar,
    maximum: (Scalar, Scalar) -> Scalar,
    sqrt: Scalar -> Scalar,
    exp: Scalar -> Scalar,
    gelu: Scalar -> Scalar,
    ofCount: nat -> Scalar,
    /** Conversion of a JSON literal to an element. */
    literal: Json -> Scalar,
    /** A JSON number that is positive in double precision. */
    positive: Json -> bool,
    /** A JSON number that is finite and positive after conversion to an element. */
    positiveElement: Json -> bool,
    /** Double-precision operators of the constant folder, on JSON numbers. */
    foldAdd: (Json, Json) -> Scalar,
    foldMul: (Json, Json) -> Scalar,
    foldDiv: (Json, Json) -> Scalar,
    foldGelu: Json -> Scalar,
    isZero: Json -> bool)

  datatype RawTensor = Tensor(shape: Shape, data: seq<Scalar>)

  type Tensor = t: RawTensor | Positive(t.shape) && |t.data| == Count(t.shape)
    witness RawTensor.Tensor([], [Scalar.Scalar(0)])

  /** The element at a coordinate. */
  function At(t: Tensor, c: Coords): Scalar
    requires InBounds(t.shape, c)
  {
    EncodeBound(t.shape, c);
    t.data[Encode(t.shape, c)]
  }

  /** Decoding an index of a tensor of this shape gives a coordinate in bounds. */
  function CoordinateOf(shape: Shape, i: nat): (c: Coords)
    requires Positive(shape) && i < Count(shape)
    ensures InBounds(shape, c)
  {
    DecodeInBounds(shape, i);
    Decode(shape, i)
  }

  // ----- tensors are their cells -----

  lemma CellOf(t: Tensor, i: nat)
    requires i < |t.data|
    ensures t.data[i] == At(t, CoordinateOf(t.shape, i))
  {
    EncodeDecode(t.shape, i);
  }

  /** Tensors with the same cells are equal. */
  lemma SameCells(t: Tensor, u: Tensor)
    requires t.shape == u.shape
    requires forall c | InBounds(t.shape, c) :: At(t, c) == At(u, c)
    ensures t == u
  {
    forall i | 0 <= i < |t.data| ensures t.data[i] == u.data[i] {
      CellOf(t, i);
      CellOf(u, i);
    }
  }

  // ----- elementwise operations -----

  function BinaryCell(f: (Scalar, Scalar) -> Scalar, left: Tensor, right: Tensor, c: Coords): Scalar
    requires exists out :: InBounds(out, c) && BroadcastsTo(left.shape, out) && BroadcastsTo(right.shape, out)
  {
    f(At(left, Project(c, left.shape)), At(right, Project(c, right.shape)))
  }

  /** Elementwise operation with NumPy broadcasting; None when the shapes do not broadcast. */
  function Binary(f: (Scalar, Scalar) -> Scalar, left: Tensor, right: Tensor): (r: Option<Tensor>)
    ensures r.Some? <==> BroadcastShape(left.shape, right.shape).Some?
    ensures r.Some? ==> r.value.shape == BroadcastShape(left.shape, right.shape).value
  {
    if BroadcastShape(left.shape, right.shape).None? then None
    else
      BroadcastOperands(left.shape, right.shape);
      var shape := BroadcastShape(left.shape, right.shape).value;
      CountPositive(shape);
      Some(RawTensor.Tensor(shape, seq(Count(shape), i requires 0 <= i < Count(shape) =>
        BinaryCell(f, left, right, CoordinateOf(shape, i)))))
  }

  function Map(f: Scalar -> Scalar, t: Tensor): (r: Tensor)
    ensures r.shape == t.shape
  {
    RawTensor.Tensor(t.shape, seq(|t.data|, i requires 0 <= i < |t.data| => f(t.data[i])))
  }

  // ----- projections -----

  /** Sum of the first k products, accumulated from zero in increasing order. */
  function Dot(A: Arith, x: seq<Scalar>, y: seq<Scalar>, k: nat): Scalar
    requires k <= |x| && k <= |y|
  {
    if k == 0 then A.zero else A.add(Dot(A, x, y, k - 1), A.mul(x[k - 1], y[k - 1]))
  }

  /** Shape of a batched matrix product, None when the contract is violated. */
  function MatMulShape(left: Shape, right: Shape): Option<Shape> {
    if |left| < 2 || |right| < 2 || left[|left| - 1] != right[|right| - 2] then None
    else
      var batch := BroadcastShape(left[..|left| - 2], right[..|right| - 2]);
      if batch.None? then None
      else Some(batch.value + [left[|left| - 2], right[|right| - 1]])
  }

  /** Row `row` of the matrix of `t` that batch coordinate `batch` selects. */
  function MatrixRow(t: Tensor, batch: Coords, row: int): (r: seq<Scalar>)
    requires |t.shape| >= 2 && InBounds(t.shape[..|t.shape| - 2], batch) && 0 <= row < t.shape[|t.shape| - 2]
    ensures |r| == t.shape[|t.shape| - 1]
  {
    seq(t.shape[|t.shape| - 1], k requires 0 <= k < t.shape[|t.shape| - 1] => At(t, batch + [row, k]))
  }

  function MatrixColumn(t: Tensor, batch: Coords, column: int): (r: seq<Scalar>)
    requires |t.shape| >= 2 && InBounds(t.shape[..|t.shape| - 2], batch) && 0 <= column < t.shape[|t.shape| - 1]
    ensures |r| == t.shape[|t.shape| - 2]
  {
    seq(t.shape[|t.shape| - 2], k requires 0 <= k < t.shape[|t.shape| - 2] => At(t, batch + [k, column]))
  }

  ghost predicate MatMulOperands(left: Shape, right: Shape, c: Coords) {
    MatMulShape(left, right).Some? && InBounds(MatMulShape(left, right).value, c)
  }

  function BatchOf(c: Coords): Coords
    requires |c| >= 2
  {
    c[..|c| - 2]
  }

  /** The batch coordinates of both operands are in bounds. */
  lemma BatchInBounds(left: Shape, right: Shape, c: Coords)
    requires Positive(left) && Positive(right) && MatMulOperands(left, right, c)
    ensures |c| >= 2 && |c| >= |left| && |c| >= |right|
    ensures InBounds(left[..|left| - 2], Project(BatchOf(c), left[..|left| - 2]))
    ensures InBounds(right[..|right| - 2], Project(BatchOf(c), right[..|right| - 2]))
    ensures 0 <= c[|c| - 2] < left[|left| - 2] && 0 <= c[|c| - 1] < right[|right| - 1]
  {
    var lb, rb := left[..|left| - 2], right[..|right| - 2];
    BroadcastOperands(lb, rb);
    var batch := BroadcastShape(lb, rb).value;
    var out := MatMulShape(left, right).value;
    assert forall a | 0 <= a < |batch| :: out[a] == batch[a];
    ProjectInBounds(batch, lb, BatchOf(c));
    ProjectInBounds(batch, rb, BatchOf(c));
  }

  function MatMulCell(A: Arith, left: Tensor, right: Tensor, c: Coords): Scalar
    requires MatMulOperands(left.shape, right.shape, c)
  {
    BatchInBounds(left.shape, right.shape, c);
    var x := MatrixRow(left, Project(BatchOf(c), left.shape[..|left.shape| - 2]), c[|c| - 2]);
    var y := MatrixColumn(right, Project(BatchOf(c), right.shape[..|right.shape| - 2]), c[|c| - 1]);
    Dot(A, x, y, |x|)
  }

  lemma MatMulShapePositive(left: Shape, right: Shape)
    requires Positive(left) && Positive(right) && MatMulShape(left, right).Some?
    ensures Positive(MatMulShape(left, right).value)
  {
    BroadcastOperands(left[..|left| - 2], right[..|right| - 2]);
  }

  /** Batched matrix product with broadcasting over the batch dimensions. */
  function MatMulOf(A: Arith, left: Tensor, right: Tensor): (r: Option<Tensor>)
    ensures r.Some? <==> MatMulShape(left.shape, right.shape).Some?
    ensures r.Some? ==> r.value.shape == MatMulShape(left.shape, right.shape).value
  {
    if MatMulShape(left.shape, right.shape).None? then None
    else
      MatMulShapePositive(left.shape, right.shape);
      var shape := MatMulShape(left.shape, right.shape).value;
      CountPositive(shape);
      Some(RawTensor.Tensor(shape, seq(Count(shape), i requires 0 <= i < Count(shape) =>
        MatMulCell(A, left, right, CoordinateOf(shape, i)))))
  }

  /** Input features contract with the second dimension of the weight. */
  function LinearShape(input: Shape, weight: Shape): Option<Shape> {
    if input == [] || |weight| != 2 || input[|input| - 1] != weight[1] then None
    else Some(input[..|input| - 1] + [weight[0]])
  }

  /** The final dimension of `t` at coordinate prefix `c`. */
  function LastLane(t: Tensor, c: Coords): (r: seq<Scalar>)
    requires t.shape != [] && InBounds(t.shape[..|t.shape| - 1], c)
    ensures |r| == t.shape[|t.shape| - 1]
  {
    seq(t.shape[|t.shape| - 1], k requires 0 <= k < t.shape[|t.shape| - 1] => At(t, c + [k]))
  }

  function LinearCell(A: Arith, input: Tensor, weight: Tensor, c: Coords): Scalar
    requires LinearShape(input.shape, weight.shape).Some?
    requires InBounds(LinearShape(input.shape, weight.shape).value, c)
  {
    var n := |input.shape| - 1;
    assert InBounds(input.shape[..n], c[..n]) by {
      assert forall a | 0 <= a < n :: LinearShape(input.shape, weight.shape).value[a] == input.shape[a];
    }
    var x := LastLane(input, c[..n]);
    var y := LastLane(weight, [c[n]]);
    Dot(A, x, y, |x|)
  }

  /** x W^T */
  function LinearOf(A: Arith, input: Tensor, weight: Tensor): (r: Option<Tensor>)
    ensures r.Some? <==> LinearShape(input.shape, weight.shape).Some?
    ensures r.Some? ==> r.value.shape == LinearShape(input.shape, weight.shape).value
  {
    if LinearShape(input.shape, weight.shape).None? then None
    else
      var shape := LinearShape(input.shape, weight.shape).value;
      CountPositive(shape);
      Some(RawTensor.Tensor(shape, seq(Count(shape), i requires 0 <= i < Count(shape) =>
        LinearCell(A, input, weight, CoordinateOf(shape, i)))))
  }

  // ----- normalisation -----

  function SumOfSquares(A: Arith, x: seq<Scalar>, k: nat): Scalar
    requires k <= |x|
  {
    if k == 0 then A.zero else A.add(SumOfSquares(A, x, k - 1), A.mul(x[k - 1], x[k - 1]))
  }

  /** 1 / sqrt(mean(x^2) + epsilon) */
  function InverseRms(A: Arith, x: seq<Scalar>, epsilon: Scalar): Scalar {
    A.div(A.one, A.sqrt(A.add(A.div(SumOfSquares(A, x, |x|), A.ofCount(|x|)), epsilon)))
  }

  function RmsNormCell(A: Arith, input: Tensor, weight: Tensor, epsilon: Scalar, c: Coords): Scalar
    requires input.shape != [] && weight.shape == [input.shape[|input.shape| - 1]] && InBounds(input.shape, c)
  {
    var n := |input.shape| - 1;
    A.mul(A.mul(At(input, c), InverseRms(A, LastLane(input, c[..n]), epsilon)), At(weight, [c[n]]))
  }

  function RmsNormOf(A: Arith, input: Tensor, weight: Tensor, epsilon: Scalar): (r: Option<Tensor>)
    ensures r.Some? <==> input.shape != [] && weight.shape == [input.shape[|input.shape| - 1]]
    ensures r.Some? ==> r.value.shape == input.shape
  {
    if input.shape == [] || weight.shape != [input.shape[|input.shape| - 1]] then None
    else
      Some(RawTensor.Tensor(input.shape, seq(|input.data|, i requires 0 <= i < |input.data| =>
        RmsNormCell(A, input, weight, epsilon, CoordinateOf(input.shape, i)))))
  }

  // ----- softmax -----

  function MaximumOf(A: Arith, x: seq<Scalar>, k: nat): Scalar
    requires k <= |x|
  {
    if k == 0 then A.negativeInfinity else A.maximum(MaximumOf(A, x, k - 1), x[k - 1])
  }

  /** exp(value - maximum) */
  function Shifted(A: Arith, value: Scalar, maximum: Scalar): Scalar {
    A.exp(A.sub(value, maximum))
  }

  function SumOfShifted(A: Arith, x: seq<Scalar>, maximum: Scalar, k: nat): Scalar
    requires k <= |x|
  {
    if k == 0 then A.zero else A.add(SumOfShifted(A, x, maximum, k - 1), Shifted(A, x[k - 1], maximum))
  }

  /** Stable softmax of one lane. */
  function SoftmaxAt(A: Arith, x: seq<Scalar>, k: nat): Scalar
    requires k < |x|
  {
    var maximum := MaximumOf(A, x, |x|);
    A.div(Shifted(A, x[k], maximum), SumOfShifted(A, x, maximum, |x|))
  }

  /** The elements of `t` that differ from coordinate `c` along `axis` only. */
  function Lane(t: Tensor, c: Coords, axis: nat): (r: seq<Scalar>)
    requires InBounds(t.shape, c) && axis < |t.shape|
    ensures |r| == t.shape[axis]
  {
    seq(t.shape[axis], k requires 0 <= k < t.shape[axis] => At(t, c[axis := k]))
  }

  function SoftmaxOf(A: Arith, input: Tensor, axis: nat): (r: Tensor)
    requires axis < |input.shape|
    ensures r.shape == input.shape
  {
    RawTensor.Tensor(input.shape, seq(|input.data|, i requires 0 <= i < |input.data| =>
      var c := CoordinateOf(input.shape, i); SoftmaxAt(A, Lane(input, c, axis), c[axis])))
  }

  // ----- movement -----

  function ReshapeOf(input: Tensor, shape: Shape): Option<Tensor> {
    if !Positive(shape) || Count(shape) != |input.data| then None
    else Some(RawTensor.Tensor(shape, input.data))
  }

  /** Every axis below n exactly once. */
  predicate IsPermutation(p: seq<int>, n: nat) {
    && |p| == n
    && (forall a | 0 <= a < n :: 0 <= p[a] < n)
    && forall a, b | 0 <= a < b < n :: p[a] != p[b]
  }

  function Permute(s: seq<int>, p: seq<int>): (r: seq<int>)
    requires IsPermutation(p, |s|)
    ensures |r| == |s|
  {
    seq(|s|, a requires 0 <= a < |s| => s[p[a]])
  }

  function IndexOf(p: seq<int>, x: int): (k: nat)
    requires x in p
    ensures k < |p| && p[k] == x
  {
    if p[0] == x then 0 else 1 + IndexOf(p[1..], x)
  }

  lemma PermutationHits(p: seq<int>, n: nat, x: int)
    requires IsPermutation(p, n) && 0 <= x < n
    ensures x in p
  {
    Counting.DistinctBound(p, n);
  }

  /** The coordinate that a transpose by `p` reads for output coordinate `c`. */
  function Unpermute(c: Coords, p: seq<int>): (r: Coords)
    requires IsPermutation(p, |c|)
    ensures |r| == |c|
  {
    seq(|c|, b requires 0 <= b < |c| => PermutationHits(p, |c|, b); c[IndexOf(p, b)])
  }

  lemma UnpermuteAt(c: Coords, p: seq<int>, a: nat)
    requires IsPermutation(p, |c|) && a < |c|
    ensures Unpermute(c, p)[p[a]] == c[a]
  {
    PermutationHits(p, |c|, p[a]);
    PermutationInjective(p, |c|, IndexOf(p, p[a]), a);
  }

  lemma PermutationInjective(p: seq<int>, n: nat, a: nat, b: nat)
    requires IsPermutation(p, n) && a < n && b < n && p[a] == p[b]
    ensures a == b
  {
  }

  lemma UnpermuteInBounds(shape: Shape, c: Coords, p: seq<int>)
    requires IsPermutation(p, |shape|) && InBounds(Permute(shape, p), c)
    ensures InBounds(shape, Unpermute(c, p))
  {
    forall b | 0 <= b < |shape| ensures 0 <= Unpermute(c, p)[b] < shape[b] {
      PermutationHits(p, |shape|, b);
      assert Permute(shape, p)[IndexOf(p, b)] == shape[b];
    }
  }

  function TransposeCell(input: Tensor, p: seq<int>, c: Coords): Scalar
    requires IsPermutation(p, |input.shape|) && InBounds(Permute(input.shape, p), c)
  {
    UnpermuteInBounds(input.shape, c, p);
    At(input, Unpermute(c, p))
  }

  function TransposeOf(input: Tensor, p: seq<int>): (r: Option<Tensor>)
    ensures r.Some? <==> IsPermutation(p, |input.shape|)
    ensures r.Some? ==> r.value.shape == Permute(input.shape, p)
  {
    if !IsPermutation(p, |input.shape|) then None
    else
      var shape := Permute(input.shape, p);
      CountPositive(shape);
      Some(RawTensor.Tensor(shape, seq(Count(shape), i requires 0 <= i < Count(shape) =>
        TransposeCell(input, p, CoordinateOf(shape, i)))))
  }

  lemma TransposeAt(input: Tensor, p: seq<int>, c: Coords)
    requires IsPermutation(p, |input.shape|) && InBounds(Permute(input.shape, p), c)
    ensures InBounds(input.shape, Unpermute(c, p))
    ensures At(TransposeOf(input, p).value, c) == At(input, Unpermute(c, p))
  {
    UnpermuteInBounds(input.shape, c, p);
    DecodeEncode(Permute(input.shape, p), c);
  }

  /** `q` undoes `p`. */
  predicate Inverse(p: seq<int>, q: seq<int>) {
    |p| == |q| && IsPermutation(p, |p|) && IsPermutation(q, |q|) && forall x | 0 <= x < |p| :: p[q[x]] == x
  }

  lemma InverseCoordinates(c: Coords, p: seq<int>, q: seq<int>)
    requires Inverse(p, q) && |c| == |p|
    ensures Unpermute(Unpermute(c, q), p) == c
  {
    var d := Unpermute(c, q);
    forall x | 0 <= x < |c| ensures Unpermute(d, p)[x] == c[x] {
      UnpermuteAt(c, q, x);
      UnpermuteAt(d, p, q[x]);
    }
  }

  /** Transposing by a permutation and then by its inverse is the identity. */
  lemma TransposeInverse(t: Tensor, p: seq<int>, q: seq<int>)
    requires Inverse(p, q) && |p| == |t.shape|
    ensures TransposeOf(TransposeOf(t, p).value, q) == Some(t)
  {
    var u := TransposeOf(t, p).value;
    var v := TransposeOf(u, q).value;
    assert v.shape == t.shape by {
      assert forall x | 0 <= x < |p| :: v.shape[x] == t.shape[p[q[x]]];
    }
    forall c | InBounds(v.shape, c) ensures At(v, c) == At(t, c) {
      TransposeAt(u, q, c);
      TransposeAt(t, p, Unpermute(c, q));
      InverseCoordinates(c, p, q);
    }
    SameCells(v, t);
  }

  function MaskCell(A: Arith, input: Tensor, diagonal: int, c: Coords): Scalar
    requires |input.shape| >= 2 && InBounds(input.shape, c)
  {
    if c[|c| - 1] > c[|c| - 2] + diagonal then A.negativeInfinity else At(input, c)
  }

  /** Everything right of the diagonal becomes minus infinity. */
  function CausalMaskOf(A: Arith, input: Tensor, diagonal: int): (r: Option<Tensor>)
    ensures r.Some? <==> |input.shape| >= 2
    ensures r.Some? ==> r.value.shape == input.shape
  {
    if |input.shape| < 2 then None
    else
      Some(RawTensor.Tensor(input.shape, seq(|input.data|, i requires 0 <= i < |input.data| =>
        MaskCell(A, input, diagonal, CoordinateOf(input.shape, i)))))
  }

  // ----- an arithmetic for counterexamples -----

  /** Integers with an activation that adds one: an arithmetic in which activating or not makes a difference. */
  function Increments(): Arith {
    Arith(Scalar.Scalar(0), Scalar.Scalar(1), Scalar.Scalar(0),
          (x: Scalar, y: Scalar) => Scalar.Scalar(x.bits + y.bits),
          (x: Scalar, y: Scalar) => Scalar.Scalar(x.bits - y.bits),
          (x: Scalar, y: Scalar) => Scalar.Scalar(x.bits * y.bits),
          (x: Scalar, y: Scalar) => x, (x: Scalar, y: Scalar) => x,
          (x: Scalar) => x, (x: Scalar) => x, (x: Scalar) => Scalar.Scalar(x.bits + 1),
          (n: nat) => Scalar.Scalar(n), (j: Json) => Scalar.Scalar(0),
          (j: Json) => true, (j: Json) => true,
          (x: Json, y: Json) => Scalar.Scalar(0), (x: Json, y: Json) => Scalar.Scalar(0),
          (x: Json, y: Json) => Scalar.Scalar(0), (x: Json) => Scalar.Scalar(0), (x: Json) => false)
  }

  /** There, activating changes every tensor. */
  lemma ActivationShows(t: Tensor)
    ensures Map(Increments().gelu, t) != t
  {
    CountPositive(t.shape);
    assert Map(Increments().gelu, t).data[0].bits == t.data[0].bits + 1;
  }
}
