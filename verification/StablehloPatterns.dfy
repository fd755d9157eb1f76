/** What the instruction patterns of the lowering compute is what the graph operations mean. */
module StablehloPatterns {
  import opened Basics
  import opened GraphIR
  import opened Shapes
  import opened Tensors
  import opened Evaluator
  import opened StablehloSyntax
  import opened StablehloMeaning

  lemma ZipAt(f: (Scalar, Scalar) -> Scalar, t: Tensor, u: Tensor, c: Coords)
    requires t.shape == u.shape && InBounds(t.shape, c)
    ensures At(Zip(f, t, u), c) == f(At(t, c), At(u, c))
  {
    EncodeBound(t.shape, c);
  }

  lemma MapAt(f: Scalar -> Scalar, t: Tensor, c: Coords)
    requires InBounds(t.shape, c)
    ensures At(Map(f, t), c) == f(At(t, c))
  {
    EncodeBound(t.shape, c);
  }

  // ----- broadcasting -----

  /** What `emit_broadcast` yields: the operand itself when the shapes are equal. */
  function Spread(t: Tensor, dimensions: seq<int>, shape: Shape): (r: Tensor)
    requires Positive(shape)
    ensures r.shape == shape
  {
    if t.shape == shape then t else BroadcastOf(t, dimensions, shape)
  }

  function Aligned(t: Tensor, shape: Shape): (r: Tensor)
    requires Positive(shape) && |t.shape| <= |shape|
    ensures r.shape == shape
  {
    Spread(t, RightAligned(|t.shape|, |shape|), shape)
  }

  lemma AlignedAt(t: Tensor, shape: Shape, c: Coords)
    requires Positive(shape) && BroadcastsTo(t.shape, shape) && InBounds(shape, c)
    ensures InBounds(t.shape, Project(c, t.shape)) && At(Aligned(t, shape), c) == At(t, Project(c, t.shape))
  {
    ProjectInBounds(shape, t.shape, c);
    var dimensions := RightAligned(|t.shape|, |shape|);
    if t.shape == shape {
      ProjectSelf(shape, c);
    } else {
      assert Gather(c, dimensions, t.shape) == Project(c, t.shape);
      TabulateAt(shape, c => Read(t, Gather(c, dimensions, t.shape)), c);
    }
  }

  lemma WithoutAxisInBounds(shape: Shape, c: Coords, axis: nat)
    requires axis < |shape| && InBounds(shape, c)
    ensures InBounds(WithoutAxis(shape, axis), WithoutAxis(c, axis))
  {
  }

  /** A reduced tensor, spread back over the reduced axis. */
  lemma SpreadBackAt(t: Tensor, shape: Shape, axis: nat, c: Coords)
    requires Positive(shape) && axis < |shape| && t.shape == WithoutAxis(shape, axis) && InBounds(shape, c)
    ensures InBounds(t.shape, WithoutAxis(c, axis))
    ensures At(Spread(t, OtherAxes(|shape|, axis), shape), c) == At(t, WithoutAxis(c, axis))
  {
    WithoutAxisInBounds(shape, c, axis);
    var dimensions := OtherAxes(|shape|, axis);
    var g := Gather(c, dimensions, t.shape);
    forall i | 0 <= i < |g| ensures g[i] == WithoutAxis(c, axis)[i] {
      assert WithoutAxis(c, axis)[i] == c[dimensions[i]] && 0 <= WithoutAxis(c, axis)[i] < t.shape[i];
    }
    assert g == WithoutAxis(c, axis);
    TabulateAt(shape, c => Read(t, Gather(c, dimensions, t.shape)), c);
  }

  /** Broadcasting both operands and then combining cell by cell is the elementwise operation. */
  lemma BinaryLowered(f: (Scalar, Scalar) -> Scalar, left: Tensor, right: Tensor)
    requires Binary(f, left, right).Some?
    ensures var out := Binary(f, left, right).value.shape;
      && BroadcastsTo(left.shape, out) && BroadcastsTo(right.shape, out)
      && Zip(f, Aligned(left, out), Aligned(right, out)) == Binary(f, left, right).value
  {
    BroadcastOperands(left.shape, right.shape);
    var r := Binary(f, left, right).value;
    var out := r.shape;
    var z := Zip(f, Aligned(left, out), Aligned(right, out));
    forall i | 0 <= i < |r.data| ensures r.data[i] == z.data[i] {
      var c := CoordinateOf(out, i);
      CellOf(z, i);
      ZipAt(f, Aligned(left, out), Aligned(right, out), c);
      AlignedAt(left, out, c);
      AlignedAt(right, out, c);
    }
  }

  // ----- GELU -----


  lemma FilledAt(shape: Shape, x: Scalar, i: nat)
    requires Positive(shape) && i < Count(shape)
    ensures Filled(shape, x).data[i] == x
  {
  }

  /** erf(x / sqrt 2) + 1 */
  function ShiftedError(M: Model, t: Tensor): (r: Tensor)
    ensures r.shape == t.shape
  {
    var scaled := Zip(M.BinaryMeaning(DivideOp), t, Filled(t.shape, M.LiteralValue(FloatLiteral(SquareRootOfTwo))));
    Zip(M.BinaryMeaning(AddOp), Map(M.UnaryMeaning(ErfOp), scaled), Filled(t.shape, M.LiteralValue(FloatLiteral(One))))
  }

  /** The nine instructions of `emit_gelu`. */
  function GeluPattern(M: Model, t: Tensor): (r: Tensor)
    ensures r.shape == t.shape
  {
    var times := M.BinaryMeaning(MultiplyOp);
    Zip(times, Zip(times, t, ShiftedError(M, t)), Filled(t.shape, M.LiteralValue(FloatLiteral(Half))))
  }

  lemma GeluLowered(M: Model, t: Tensor)
    requires M.Faithful()
    ensures GeluPattern(M, t) == Map(M.A.gelu, t)
  {
    var r := GeluPattern(M, t);
    forall i | 0 <= i < |t.data| ensures r.data[i] == M.A.gelu(t.data[i]) {
      FilledAt(t.shape, M.squareRootOfTwo, i);
      FilledAt(t.shape, M.A.one, i);
      FilledAt(t.shape, M.half, i);
      assert r.data[i] == M.GeluByErf(t.data[i]);
    }
  }

  // ----- constants -----

  lemma ConstantLowered(M: Model, attributes: Attributes, shape: Shape)
    requires Positive(shape)
    ensures ConstantTensor(M.A, attributes, shape).Some? ==>
      "value" in attributes
      && ConstantTensor(M.A, attributes, shape) == Some(Filled(shape, M.A.literal(attributes["value"])))
  {
    if ConstantTensor(M.A, attributes, shape).Some? {
      var x := M.A.literal(attributes["value"]);
      FilledAt(shape, x, 0);
      assert Filled(shape, x).data == [x];
    }
  }

  // ----- reductions -----

  lemma InsertBack(c: Coords, axis: nat, k: int)
    requires axis < |c|
    ensures Insert(WithoutAxis(c, axis), axis, k) == c[axis := k]
  {
  }

  lemma SliceIsLane(t: Tensor, axis: nat, c: Coords)
    requires axis < |t.shape| && InBounds(t.shape, c)
    ensures Slice(t, WithoutAxis(c, axis), axis) == Lane(t, c, axis)
  {
    var s, l := Slice(t, WithoutAxis(c, axis), axis), Lane(t, c, axis);
    forall k | 0 <= k < t.shape[axis] ensures s[k] == l[k] {
      InsertBack(c, axis, k);
    }
  }

  lemma ReduceAt(f: (Scalar, Scalar) -> Scalar, t: Tensor, initial: Scalar, axis: nat, c: Coords)
    requires axis < |t.shape| && InBounds(t.shape, c)
    ensures InBounds(WithoutAxis(t.shape, axis), WithoutAxis(c, axis))
    ensures At(ReduceOf(f, t, initial, axis), WithoutAxis(c, axis))
         == Fold(f, initial, Lane(t, c, axis), t.shape[axis])
  {
    WithoutAxisInBounds(t.shape, c, axis);
    var d := WithoutAxis(c, axis);
    TabulateAt(WithoutAxis(t.shape, axis), d => Fold(f, initial, Slice(t, d, axis), t.shape[axis]), d);
    SliceIsLane(t, axis, c);
  }

  /** A reduction, spread back. */
  function ReducedBack(f: (Scalar, Scalar) -> Scalar, t: Tensor, initial: Scalar, axis: nat): (r: Tensor)
    requires axis < |t.shape|
    ensures r.shape == t.shape
  {
    Spread(ReduceOf(f, t, initial, axis), OtherAxes(|t.shape|, axis), t.shape)
  }

  lemma ReducedBackAt(f: (Scalar, Scalar) -> Scalar, t: Tensor, initial: Scalar, axis: nat, c: Coords)
    requires axis < |t.shape| && InBounds(t.shape, c)
    ensures At(ReducedBack(f, t, initial, axis), c) == Fold(f, initial, Lane(t, c, axis), t.shape[axis])
  {
    ReduceAt(f, t, initial, axis, c);
    SpreadBackAt(ReduceOf(f, t, initial, axis), t.shape, axis, c);
  }

  lemma {:induction false} FoldIsMaximum(M: Model, x: seq<Scalar>, k: nat)
    requires k <= |x|
    ensures Fold(M.BinaryMeaning(MaximumOp), M.LiteralValue(NegativeInfinity), x, k) == MaximumOf(M.A, x, k)
  {
    if k > 0 {
      FoldIsMaximum(M, x, k - 1);
    }
  }

  lemma {:induction false} FoldIsShiftedSum(M: Model, x: seq<Scalar>, e: seq<Scalar>, maximum: Scalar, k: nat)
    requires k <= |x| == |e| && forall j | 0 <= j < |x| :: e[j] == Shifted(M.A, x[j], maximum)
    ensures Fold(M.BinaryMeaning(AddOp), M.LiteralValue(FloatLiteral(Zero)), e, k) == SumOfShifted(M.A, x, maximum, k)
  {
    if k > 0 {
      FoldIsShiftedSum(M, x, e, maximum, k - 1);
    }
  }

  lemma {:induction false} FoldIsSumOfSquares(M: Model, x: seq<Scalar>, q: seq<Scalar>, k: nat)
    requires k <= |x| == |q| && forall j | 0 <= j < |x| :: q[j] == M.A.mul(x[j], x[j])
    ensures Fold(M.BinaryMeaning(AddOp), M.LiteralValue(FloatLiteral(Zero)), q, k) == SumOfSquares(M.A, x, k)
  {
    if k > 0 {
      FoldIsSumOfSquares(M, x, q, k - 1);
    }
  }

  // ----- softmax -----

  function ExponentialsOf(M: Model, t: Tensor, axis: nat): (r: Tensor)
    requires axis < |t.shape|
    ensures r.shape == t.shape
  {
    Map(M.UnaryMeaning(ExponentialOp),
        Zip(M.BinaryMeaning(SubtractOp), t,
            ReducedBack(M.BinaryMeaning(MaximumOp), t, M.LiteralValue(NegativeInfinity), axis)))
  }

  /** The instructions of `emit_softmax`. */
  function SoftmaxPattern(M: Model, t: Tensor, axis: nat): (r: Tensor)
    requires axis < |t.shape|
    ensures r.shape == t.shape
  {
    var e := ExponentialsOf(M, t, axis);
    Zip(M.BinaryMeaning(DivideOp), e, ReducedBack(M.BinaryMeaning(AddOp), e, M.LiteralValue(FloatLiteral(Zero)), axis))
  }

  lemma SameLane(t: Tensor, c: Coords, axis: nat, k: int)
    requires axis < |t.shape| && InBounds(t.shape, c) && 0 <= k < t.shape[axis]
    ensures InBounds(t.shape, c[axis := k]) && Lane(t, c[axis := k], axis) == Lane(t, c, axis)
  {
    var d := c[axis := k];
    var l := Lane(t, d, axis);
    forall j | 0 <= j < t.shape[axis] ensures l[j] == Lane(t, c, axis)[j] {
      assert d[axis := j] == c[axis := j];
    }
  }

  lemma ExponentialAt(M: Model, t: Tensor, axis: nat, c: Coords)
    requires axis < |t.shape| && InBounds(t.shape, c)
    ensures At(ExponentialsOf(M, t, axis), c)
         == Shifted(M.A, At(t, c), MaximumOf(M.A, Lane(t, c, axis), t.shape[axis]))
  {
    var f, first := M.BinaryMeaning(MaximumOp), M.LiteralValue(NegativeInfinity);
    var m := ReducedBack(f, t, first, axis);
    ReducedBackAt(f, t, first, axis, c);
    FoldIsMaximum(M, Lane(t, c, axis), t.shape[axis]);
    var z := Zip(M.BinaryMeaning(SubtractOp), t, m);
    ZipAt(M.BinaryMeaning(SubtractOp), t, m, c);
    MapAt(M.UnaryMeaning(ExponentialOp), z, c);
  }

  /** The spread sum of the exponentials. */
  lemma TotalAt(M: Model, t: Tensor, axis: nat, c: Coords)
    requires axis < |t.shape| && InBounds(t.shape, c)
    ensures var e, x, n := ExponentialsOf(M, t, axis), Lane(t, c, axis), t.shape[axis];
      At(ReducedBack(M.BinaryMeaning(AddOp), e, M.LiteralValue(FloatLiteral(Zero)), axis), c)
      == SumOfShifted(M.A, x, MaximumOf(M.A, x, n), n)
  {
    var e, x, n := ExponentialsOf(M, t, axis), Lane(t, c, axis), t.shape[axis];
    ReducedBackAt(M.BinaryMeaning(AddOp), e, M.LiteralValue(FloatLiteral(Zero)), axis, c);
    var l := Lane(e, c, axis);
    forall j | 0 <= j < n ensures l[j] == Shifted(M.A, x[j], MaximumOf(M.A, x, n)) {
      SameLane(t, c, axis, j);
      ExponentialAt(M, t, axis, c[axis := j]);
    }
    FoldIsShiftedSum(M, x, l, MaximumOf(M.A, x, n), n);
  }

  lemma QuotientAt(M: Model, t: Tensor, u: Tensor, c: Coords)
    requires t.shape == u.shape && InBounds(t.shape, c)
    ensures At(Zip(M.BinaryMeaning(DivideOp), t, u), c) == M.A.div(At(t, c), At(u, c))
  {
    ZipAt(M.BinaryMeaning(DivideOp), t, u, c);
  }

  lemma LaneHere(t: Tensor, c: Coords, axis: nat)
    requires axis < |t.shape| && InBounds(t.shape, c)
    ensures Lane(t, c, axis)[c[axis]] == At(t, c)
  {
    assert c[axis := c[axis]] == c;
  }

  lemma SoftmaxLoweredAt(M: Model, t: Tensor, axis: nat, c: Coords)
    requires axis < |t.shape| && InBounds(t.shape, c)
    ensures At(SoftmaxPattern(M, t, axis), c) == SoftmaxAt(M.A, Lane(t, c, axis), c[axis])
  {
    var e := ExponentialsOf(M, t, axis);
    var total := ReducedBack(M.BinaryMeaning(AddOp), e, M.LiteralValue(FloatLiteral(Zero)), axis);
    TotalAt(M, t, axis, c);
    ExponentialAt(M, t, axis, c);
    QuotientAt(M, e, total, c);
    LaneHere(t, c, axis);
  }

  lemma SoftmaxLowered(M: Model, t: Tensor, axis: nat)
    requires axis < |t.shape|
    ensures SoftmaxPattern(M, t, axis) == SoftmaxOf(M.A, t, axis)
  {
    var r, s := SoftmaxPattern(M, t, axis), SoftmaxOf(M.A, t, axis);
    forall i | 0 <= i < |t.data| ensures r.data[i] == s.data[i] {
      CellOf(r, i);
      SoftmaxLoweredAt(M, t, axis, CoordinateOf(t.shape, i));
    }
  }

  lemma SoftmaxEvaluated(M: Model, attributes: Attributes, t: Tensor, axis: int)
    requires IntegerOf(attributes, "axis") == Some(axis) && -(|t.shape| as int) <= axis < |t.shape|
    ensures SoftmaxOperation(M.A, attributes, t) == Some(SoftmaxPattern(M, t, NormalAxis(axis, |t.shape|)))
  {
    SoftmaxLowered(M, t, NormalAxis(axis, |t.shape|));
  }

  // ----- RMS normalisation -----

  /** The instructions of `emit_rms_norm` up to the mean of the squares ... */
  function MeanSquares(M: Model, t: Tensor): (r: Tensor)
    requires t.shape != []
    ensures r.shape == WithoutAxis(t.shape, |t.shape| - 1)
  {
    var n := |t.shape| - 1;
    var sum := ReduceOf(M.BinaryMeaning(AddOp), Zip(M.BinaryMeaning(MultiplyOp), t, t),
                        M.LiteralValue(FloatLiteral(Zero)), n);
    Zip(M.BinaryMeaning(DivideOp), sum, Filled(WithoutAxis(t.shape, n), M.LiteralValue(FloatLiteral(CountOf(t.shape[n])))))
  }

  /** ... up to the inverse root ... */
  function InverseRoots(M: Model, t: Tensor, epsilon: Json): (r: Tensor)
    requires t.shape != []
    ensures r.shape == WithoutAxis(t.shape, |t.shape| - 1)
  {
    var s := WithoutAxis(t.shape, |t.shape| - 1);
    Map(M.UnaryMeaning(RsqrtOp),
        Zip(M.BinaryMeaning(AddOp), MeanSquares(M, t), Filled(s, M.LiteralValue(FloatLiteral(Number(epsilon))))))
  }

  /** ... and all of them. */
  function RmsNormPattern(M: Model, t: Tensor, weight: Tensor, epsilon: Json): (r: Tensor)
    requires t.shape != [] && |weight.shape| == 1
    ensures r.shape == t.shape
  {
    var inverse := Spread(InverseRoots(M, t, epsilon), OtherAxes(|t.shape|, |t.shape| - 1), t.shape);
    Zip(M.BinaryMeaning(MultiplyOp), Zip(M.BinaryMeaning(MultiplyOp), t, inverse), Aligned(weight, t.shape))
  }

  lemma LastLaneIsLane(t: Tensor, c: Coords)
    requires t.shape != [] && InBounds(t.shape, c)
    ensures InBounds(t.shape[..|t.shape| - 1], c[..|t.shape| - 1])
    ensures LastLane(t, c[..|t.shape| - 1]) == Lane(t, c, |t.shape| - 1)
  {
    var n := |t.shape| - 1;
    var last, lane := LastLane(t, c[..n]), Lane(t, c, n);
    forall k | 0 <= k < t.shape[n] ensures last[k] == lane[k] {
      assert c[..n] + [k] == c[n := k];
    }
  }

  lemma FilledCell(shape: Shape, x: Scalar, c: Coords)
    requires Positive(shape) && InBounds(shape, c)
    ensures At(Filled(shape, x), c) == x
  {
    TabulateAt(shape, e => x, c);
  }

  lemma MeanSquareAt(M: Model, t: Tensor, c: Coords)
    requires t.shape != [] && InBounds(t.shape, c)
    ensures InBounds(WithoutAxis(t.shape, |t.shape| - 1), WithoutAxis(c, |t.shape| - 1))
    ensures var x := Lane(t, c, |t.shape| - 1);
      At(MeanSquares(M, t), WithoutAxis(c, |t.shape| - 1)) == M.A.div(SumOfSquares(M.A, x, |x|), M.A.ofCount(|x|))
  {
    var n := |t.shape| - 1;
    var s, d, x := WithoutAxis(t.shape, n), WithoutAxis(c, n), Lane(t, c, n);
    WithoutAxisInBounds(t.shape, c, n);
    var times, f, first := M.BinaryMeaning(MultiplyOp), M.BinaryMeaning(AddOp), M.LiteralValue(FloatLiteral(Zero));
    var squares := Zip(times, t, t);
    ReduceAt(f, squares, first, n, c);
    var q := Lane(squares, c, n);
    forall j | 0 <= j < t.shape[n] ensures q[j] == M.A.mul(x[j], x[j]) {
      ZipAt(times, t, t, c[n := j]);
    }
    FoldIsSumOfSquares(M, x, q, t.shape[n]);
    var count := M.LiteralValue(FloatLiteral(CountOf(t.shape[n])));
    FilledCell(s, count, d);
    ZipAt(M.BinaryMeaning(DivideOp), ReduceOf(f, squares, first, n), Filled(s, count), d);
  }

  lemma InverseRootAt(M: Model, t: Tensor, epsilon: Json, c: Coords)
    requires t.shape != [] && InBounds(t.shape, c)
    ensures InBounds(WithoutAxis(t.shape, |t.shape| - 1), WithoutAxis(c, |t.shape| - 1))
    ensures At(InverseRoots(M, t, epsilon), WithoutAxis(c, |t.shape| - 1))
         == InverseRms(M.A, Lane(t, c, |t.shape| - 1), M.A.literal(epsilon))
  {
    var n := |t.shape| - 1;
    var s, d, eps := WithoutAxis(t.shape, n), WithoutAxis(c, n), M.LiteralValue(FloatLiteral(Number(epsilon)));
    MeanSquareAt(M, t, c);
    FilledCell(s, eps, d);
    var sum := Zip(M.BinaryMeaning(AddOp), MeanSquares(M, t), Filled(s, eps));
    ZipAt(M.BinaryMeaning(AddOp), MeanSquares(M, t), Filled(s, eps), d);
    MapAt(M.UnaryMeaning(RsqrtOp), sum, d);
  }

  lemma WeightCoordinate(shape: Shape, weight: Shape, c: Coords)
    requires shape != [] && weight == [shape[|shape| - 1]] && InBounds(shape, c)
    ensures Project(c, weight) == [c[|shape| - 1]]
  {
  }

  lemma InverseSpreadAt(M: Model, t: Tensor, epsilon: Json, c: Coords)
    requires t.shape != [] && InBounds(t.shape, c)
    ensures InBounds(t.shape[..|t.shape| - 1], c[..|t.shape| - 1])
    ensures At(Spread(InverseRoots(M, t, epsilon), OtherAxes(|t.shape|, |t.shape| - 1), t.shape), c)
         == InverseRms(M.A, LastLane(t, c[..|t.shape| - 1]), M.A.literal(epsilon))
  {
    InverseRootAt(M, t, epsilon, c);
    SpreadBackAt(InverseRoots(M, t, epsilon), t.shape, |t.shape| - 1, c);
    LastLaneIsLane(t, c);
  }

  lemma WeightAt(shape: Shape, weight: Tensor, c: Coords)
    requires Positive(shape) && shape != [] && weight.shape == [shape[|shape| - 1]] && InBounds(shape, c)
    ensures At(Aligned(weight, shape), c) == At(weight, [c[|shape| - 1]])
  {
    AlignedAt(weight, shape, c);
    WeightCoordinate(shape, weight.shape, c);
  }

  lemma TwoProductsAt(M: Model, t: Tensor, u: Tensor, v: Tensor, c: Coords)
    requires t.shape == u.shape == v.shape && InBounds(t.shape, c)
    ensures At(Zip(M.BinaryMeaning(MultiplyOp), Zip(M.BinaryMeaning(MultiplyOp), t, u), v), c)
         == M.A.mul(M.A.mul(At(t, c), At(u, c)), At(v, c))
  {
    ZipAt(M.BinaryMeaning(MultiplyOp), t, u, c);
    ZipAt(M.BinaryMeaning(MultiplyOp), Zip(M.BinaryMeaning(MultiplyOp), t, u), v, c);
  }

  lemma RmsNormLoweredAt(M: Model, t: Tensor, weight: Tensor, epsilon: Json, c: Coords)
    requires t.shape != [] && weight.shape == [t.shape[|t.shape| - 1]] && InBounds(t.shape, c)
    ensures At(RmsNormPattern(M, t, weight, epsilon), c) == RmsNormCell(M.A, t, weight, M.A.literal(epsilon), c)
  {
    var inverse := Spread(InverseRoots(M, t, epsilon), OtherAxes(|t.shape|, |t.shape| - 1), t.shape);
    InverseSpreadAt(M, t, epsilon, c);
    WeightAt(t.shape, weight, c);
    TwoProductsAt(M, t, inverse, Aligned(weight, t.shape), c);
  }

  lemma RmsNormAt(A: Arith, t: Tensor, weight: Tensor, epsilon: Scalar, c: Coords)
    requires t.shape != [] && weight.shape == [t.shape[|t.shape| - 1]] && InBounds(t.shape, c)
    ensures At(RmsNormOf(A, t, weight, epsilon).value, c) == RmsNormCell(A, t, weight, epsilon, c)
  {
    DecodeEncode(t.shape, c);
  }

  lemma RmsNormLowered(M: Model, t: Tensor, weight: Tensor, epsilon: Json)
    requires t.shape != [] && weight.shape == [t.shape[|t.shape| - 1]]
    ensures Some(RmsNormPattern(M, t, weight, epsilon)) == RmsNormOf(M.A, t, weight, M.A.literal(epsilon))
  {
    forall c | InBounds(t.shape, c)
      ensures At(RmsNormPattern(M, t, weight, epsilon), c)
           == At(RmsNormOf(M.A, t, weight, M.A.literal(epsilon)).value, c)
    {
      RmsNormLoweredAt(M, t, weight, epsilon, c);
      RmsNormAt(M.A, t, weight, M.A.literal(epsilon), c);
    }
    SameCells(RmsNormPattern(M, t, weight, epsilon), RmsNormOf(M.A, t, weight, M.A.literal(epsilon)).value);
  }
}
