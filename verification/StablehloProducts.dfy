/** The dot_general instructions of the lowering compute the matrix product and the linear layer. */
module StablehloProducts {
  import opened Basics
  import opened GraphIR
  import opened Shapes
  import opened Tensors
  import opened StablehloSyntax
  import opened StablehloMeaning
  import opened StablehloPatterns
  import opened Evaluator

  // ----- free axes -----

  lemma {:induction false} NoneFree(used: seq<int>, a: nat)
    requires forall i | 0 <= i < a :: i in used
    ensures FreeBefore(used, a) == 0
  {
    if a > 0 {
      NoneFree(used, a - 1);
    }
  }

  lemma {:induction false} AllFree(used: seq<int>, a: nat)
    requires forall i | 0 <= i < a :: i !in used
    ensures FreeBefore(used, a) == a
  {
    if a > 0 {
      AllFree(used, a - 1);
    }
  }

  lemma {:induction false} IndexInFirstAxes(s: seq<int>, from: nat, a: nat)
    requires |s| > a && forall i | 0 <= i < |s| :: s[i] == from + i
    ensures from + a in s && IndexOf(s, from + a) == a
  {
    assert s[a] == from + a;
    if a > 0 {
      IndexInFirstAxes(s[1..], from + 1, a - 1);
    }
  }

  lemma BatchAxesUsed(b: nat, last: int)
    ensures forall i | 0 <= i < b :: i in FirstAxes(b) + [last]
    ensures last in FirstAxes(b) + [last]
    ensures forall i | i >= b :: i !in FirstAxes(b)
  {
    var axes := FirstAxes(b) + [last];
    forall i | 0 <= i < b ensures i in axes {
      assert axes[i] == i;
    }
    assert axes[b] == last;
  }

  // ----- the coordinates of the batched product -----

  lemma BatchCoordinate(b: nat, contracting: int, offset: nat, c: Coords, j: int, a: nat)
    requires a < b < |c|
    ensures DotCoordinate(b + 2, FirstAxes(b), contracting, offset, c, j)[a] == c[a]
  {
    IndexInFirstAxes(FirstAxes(b), 0, a);
  }

  lemma ContractedCoordinate(b: nat, contracting: nat, offset: nat, c: Coords, j: int)
    requires b <= contracting < b + 2
    ensures DotCoordinate(b + 2, FirstAxes(b), contracting, offset, c, j)[contracting] == j
  {
    BatchAxesUsed(b, contracting);
  }

  lemma FreeCoordinate(b: nat, contracting: nat, offset: nat, c: Coords, j: int, a: nat)
    requires b <= a < b + 2 && a != contracting && offset < |c|
    requires b <= contracting < b + 2
    ensures DotCoordinate(b + 2, FirstAxes(b), contracting, offset, c, j)[a] == c[offset]
  {
    BatchAxesUsed(b, contracting);
    NoneFree(FirstAxes(b) + [contracting], a);
  }

  lemma LeftCoordinate(b: nat, c: Coords, j: int)
    requires |c| == b + 2
    ensures DotCoordinate(b + 2, FirstAxes(b), b + 1, b, c, j) == c[..b] + [c[b], j]
  {
    FreeCoordinate(b, b + 1, b, c, j, b);
    ContractedCoordinate(b, b + 1, b, c, j);
    hide DotCoordinate, FirstAxes;
    var d := DotCoordinate(b + 2, FirstAxes(b), b + 1, b, c, j);
    forall a | 0 <= a < b ensures d[a] == c[a] {
      BatchCoordinate(b, b + 1, b, c, j, a);
    }
  }

  lemma RightCoordinate(b: nat, c: Coords, j: int)
    requires |c| == b + 2
    ensures DotCoordinate(b + 2, FirstAxes(b), b, b + 1, c, j) == c[..b] + [j, c[b + 1]]
  {
    FreeCoordinate(b, b, b + 1, c, j, b + 1);
    ContractedCoordinate(b, b, b + 1, c, j);
    hide DotCoordinate, FirstAxes;
    var d := DotCoordinate(b + 2, FirstAxes(b), b, b + 1, c, j);
    forall a | 0 <= a < b ensures d[a] == c[a] {
      BatchCoordinate(b, b, b + 1, c, j, a);
    }
  }

  lemma LeftFree(b: nat)
    ensures FreeBefore(FirstAxes(b) + [b + 1], b + 2) == 1
  {
    BatchAxesUsed(b, b + 1);
    NoneFree(FirstAxes(b) + [b + 1], b);
    assert b !in FirstAxes(b) + [b + 1];
  }

  /** Broadcasting leaves the two inner dimensions alone. */
  lemma MatrixBroadcasts(s: Shape, batch: Shape)
    requires |s| >= 2 && BroadcastsTo(s[..|s| - 2], batch)
    ensures BroadcastsTo(s, batch + s[|s| - 2..])
  {
    var r, offset := |s| - 2, |batch| - (|s| - 2);
    var out := batch + s[r..];
    forall a | 0 <= a < |s| ensures s[a] == 1 || s[a] == out[a + offset] {
      if a < r {
        assert s[..r][a] == s[a];
      }
    }
  }

  lemma MatrixProjects(s: Shape, c: Coords, row: int, column: int)
    requires |s| >= 2 && |c| >= |s| - 2
    requires 0 <= row < s[|s| - 2] && 0 <= column < s[|s| - 1]
    ensures Project(c + [row, column], s) == Project(c, s[..|s| - 2]) + [row, column]
  {
  }

  /** A cell of an operand of the batched product, before and after broadcasting. */
  lemma MatrixCell(t: Tensor, batch: Shape, c: Coords, row: int, column: int)
    requires |t.shape| >= 2 && Positive(batch) && BroadcastsTo(t.shape[..|t.shape| - 2], batch)
    requires InBounds(batch, c) && 0 <= row < t.shape[|t.shape| - 2] && 0 <= column < t.shape[|t.shape| - 1]
    ensures var s := t.shape[..|t.shape| - 2];
      var out := batch + t.shape[|t.shape| - 2..];
      && Positive(out) && |t.shape| <= |out| && InBounds(out, c + [row, column])
      && InBounds(s, Project(c, s)) && InBounds(t.shape, Project(c, s) + [row, column])
      && At(Aligned(t, out), c + [row, column]) == At(t, Project(c, s) + [row, column])
  {
    var out := batch + t.shape[|t.shape| - 2..];
    MatrixBroadcasts(t.shape, batch);
    MatrixProjects(t.shape, c, row, column);
    ProjectInBounds(batch, t.shape[..|t.shape| - 2], c);
    AlignedAt(t, out, c + [row, column]);
  }

  // ----- the batched product -----

  /** The operand shapes of `emit_matmul` after broadcasting. */
  function BatchedShape(batch: Shape, s: Shape): (r: Shape)
    requires |s| >= 2
    ensures |r| == |batch| + 2 && r[|batch|] == s[|s| - 2] && r[|batch| + 1] == s[|s| - 1]
    ensures Positive(batch) && Positive(s) ==> Positive(r)
  {
    batch + [s[|s| - 2], s[|s| - 1]]
  }

  /** The cells a product cell reads in the broadcast left operand are a row of the operand ... */
  lemma LeftLane(t: Tensor, batch: Shape, c: Coords)
    requires |t.shape| >= 2 && Positive(batch) && BroadcastsTo(t.shape[..|t.shape| - 2], batch)
    requires |c| == |batch| + 2 && InBounds(batch, c[..|batch|]) && 0 <= c[|batch|] < t.shape[|t.shape| - 2]
    ensures var x := Aligned(t, BatchedShape(batch, t.shape));
      var s := t.shape[..|t.shape| - 2];
      && InBounds(s, Project(c[..|batch|], s))
      && DotLane(x, FirstAxes(|batch|), |batch| + 1, |batch|, t.shape[|t.shape| - 1], c)
         == MatrixRow(t, Project(c[..|batch|], s), c[|batch|])
  {
    hide FirstAxes, DotCoordinate, Count;
    var b, n := |batch|, t.shape[|t.shape| - 1];
    assert BatchedShape(batch, t.shape) == batch + t.shape[|t.shape| - 2..];
    ProjectInBounds(batch, t.shape[..|t.shape| - 2], c[..b]);
    var x := Aligned(t, BatchedShape(batch, t.shape));
    var lane := DotLane(x, FirstAxes(b), b + 1, b, n, c);
    var row := MatrixRow(t, Project(c[..b], t.shape[..|t.shape| - 2]), c[b]);
    forall k | 0 <= k < n ensures lane[k] == row[k] {
      LeftCoordinate(b, c, k);
      MatrixCell(t, batch, c[..b], c[b], k);
    }
  }

  /** ... and those in the right operand a column. */
  lemma RightLane(t: Tensor, batch: Shape, c: Coords)
    requires |t.shape| >= 2 && Positive(batch) && BroadcastsTo(t.shape[..|t.shape| - 2], batch)
    requires |c| == |batch| + 2 && InBounds(batch, c[..|batch|]) && 0 <= c[|batch| + 1] < t.shape[|t.shape| - 1]
    ensures var y := Aligned(t, BatchedShape(batch, t.shape));
      var s := t.shape[..|t.shape| - 2];
      && InBounds(s, Project(c[..|batch|], s))
      && DotLane(y, FirstAxes(|batch|), |batch|, |batch| + 1, t.shape[|t.shape| - 2], c)
         == MatrixColumn(t, Project(c[..|batch|], s), c[|batch| + 1])
  {
    var b, n := |batch|, t.shape[|t.shape| - 2];
    assert BatchedShape(batch, t.shape) == batch + t.shape[|t.shape| - 2..];
    ProjectInBounds(batch, t.shape[..|t.shape| - 2], c[..b]);
    var y := Aligned(t, BatchedShape(batch, t.shape));
    var lane := DotLane(y, FirstAxes(b), b, b + 1, n, c);
    var column := MatrixColumn(t, Project(c[..b], t.shape[..|t.shape| - 2]), c[b + 1]);
    forall k | 0 <= k < n ensures lane[k] == column[k] {
      RightCoordinate(b, c, k);
      MatrixCell(t, batch, c[..b], k, c[b + 1]);
    }
  }

  /** The contraction of the broadcast operands at a cell is the dot product of a row and a column. */
  lemma BatchedDotCell(A: Arith, left: Tensor, right: Tensor, batch: Shape, c: Coords)
    requires |left.shape| >= 2 && |right.shape| >= 2 && Positive(batch)
    requires BroadcastsTo(left.shape[..|left.shape| - 2], batch) && BroadcastsTo(right.shape[..|right.shape| - 2], batch)
    requires MatMulOperands(left.shape, right.shape, c) && |c| == |batch| + 2 && InBounds(batch, c[..|batch|])
    ensures var x, y := Aligned(left, BatchedShape(batch, left.shape)), Aligned(right, BatchedShape(batch, right.shape));
      DotCell(A, BatchedDot(|batch|), x, y, left.shape[|left.shape| - 1], c) == MatMulCell(A, left, right, c)
  {
    BatchInBounds(left.shape, right.shape, c);
    assert c[..|batch|] == BatchOf(c);
    LeftLane(left, batch, c);
    RightLane(right, batch, c);
    LeftFree(|batch|);
  }

  lemma MatrixTyped(s: Shape, batch: Shape)
    requires |s| >= 2 && BroadcastsTo(s[..|s| - 2], batch)
    ensures |s| <= |BatchedShape(batch, s)|
    ensures BroadcastTyped(s, BatchedShape(batch, s), RightAligned(|s|, |BatchedShape(batch, s)|))
  {
    MatrixBroadcasts(s, batch);
    assert BatchedShape(batch, s) == batch + s[|s| - 2..];
    RightAlignedTyped(s, BatchedShape(batch, s));
  }

  /** What a dot_general computes. */
  function DotValue(M: Model, kind: Kind, x: Tensor, y: Tensor, shape: Shape): (r: Tensor)
    requires Positive(shape) && kind.DotGeneral? && |kind.lhsContracting| == |kind.rhsContracting| == 1
    requires 0 <= kind.lhsContracting[0] < |x.shape|
    ensures r.shape == shape
  {
    Tabulate(shape, c => DotCell(M.A, kind, x, y, x.shape[kind.lhsContracting[0]], c))
  }

  /** The broadcast batch, and the operands of `emit_matmul`. */
  function MatMulPattern(M: Model, left: Tensor, right: Tensor, shape: Shape): (r: Tensor)
    requires |left.shape| >= 2 && |right.shape| >= 2 && Positive(shape) && |shape| >= Max(|left.shape|, |right.shape|)
    ensures r.shape == shape
  {
    var batch := shape[..|shape| - 2];
    var x, y := Aligned(left, BatchedShape(batch, left.shape)), Aligned(right, BatchedShape(batch, right.shape));
    DotValue(M, BatchedDot(|batch|), x, y, shape)
  }

  /** Broadcasting both operands over the batch and contracting is the batched matrix product. */
  lemma MatMulLowered(M: Model, left: Tensor, right: Tensor)
    requires MatMulShape(left.shape, right.shape).Some?
    ensures var shape := MatMulShape(left.shape, right.shape).value;
      && Positive(shape) && |shape| >= Max(|left.shape|, |right.shape|)
      && BroadcastsTo(left.shape[..|left.shape| - 2], shape[..|shape| - 2])
      && BroadcastsTo(right.shape[..|right.shape| - 2], shape[..|shape| - 2])
      && Some(MatMulPattern(M, left, right, shape)) == MatMulOf(M.A, left, right)
  {
    MatMulShapePositive(left.shape, right.shape);
    BroadcastOperands(left.shape[..|left.shape| - 2], right.shape[..|right.shape| - 2]);
    var shape := MatMulShape(left.shape, right.shape).value;
    var batch := BroadcastShape(left.shape[..|left.shape| - 2], right.shape[..|right.shape| - 2]).value;
    assert shape[..|shape| - 2] == batch;
    MatMulCells(M, left, right, batch, shape);
  }

  lemma DotValueAt(M: Model, kind: Kind, x: Tensor, y: Tensor, shape: Shape, n: nat, c: Coords)
    requires Positive(shape) && kind.DotGeneral? && |kind.lhsContracting| == |kind.rhsContracting| == 1
    requires 0 <= kind.lhsContracting[0] < |x.shape| && x.shape[kind.lhsContracting[0]] == n && InBounds(shape, c)
    ensures At(DotValue(M, kind, x, y, shape), c) == DotCell(M.A, kind, x, y, n, c)
  {
    TabulateAt(shape, c => DotCell(M.A, kind, x, y, x.shape[kind.lhsContracting[0]], c), c);
  }

  lemma MatMulAt(A: Arith, left: Tensor, right: Tensor, c: Coords)
    requires MatMulShape(left.shape, right.shape).Some? && InBounds(MatMulShape(left.shape, right.shape).value, c)
    ensures At(MatMulOf(A, left, right).value, c) == MatMulCell(A, left, right, c)
  {
    MatMulShapePositive(left.shape, right.shape);
    DecodeEncode(MatMulShape(left.shape, right.shape).value, c);
  }

  lemma MatMulCellLowered(M: Model, left: Tensor, right: Tensor, batch: Shape, shape: Shape, c: Coords)
    requires MatMulShape(left.shape, right.shape) == Some(shape) && Positive(shape) && |batch| + 2 == |shape|
    requires batch == shape[..|batch|] && |shape| >= Max(|left.shape|, |right.shape|) && InBounds(shape, c)
    requires BroadcastsTo(left.shape[..|left.shape| - 2], batch) && BroadcastsTo(right.shape[..|right.shape| - 2], batch)
    ensures At(MatMulPattern(M, left, right, shape), c) == At(MatMulOf(M.A, left, right).value, c)
  {
    hide BroadcastsTo, Aligned, Count;
    assert shape[..|shape| - 2] == batch;
    MatMulAt(M.A, left, right, c);
    var x, y := Aligned(left, BatchedShape(batch, left.shape)), Aligned(right, BatchedShape(batch, right.shape));
    var n := left.shape[|left.shape| - 1];
    DotValueAt(M, BatchedDot(|batch|), x, y, shape, n, c);
    BatchedDotCell(M.A, left, right, batch, c);
  }

  lemma MatMulCells(M: Model, left: Tensor, right: Tensor, batch: Shape, shape: Shape)
    requires MatMulShape(left.shape, right.shape) == Some(shape) && Positive(shape) && |batch| + 2 == |shape|
    requires batch == shape[..|batch|] && |shape| >= Max(|left.shape|, |right.shape|)
    requires BroadcastsTo(left.shape[..|left.shape| - 2], batch) && BroadcastsTo(right.shape[..|right.shape| - 2], batch)
    ensures Some(MatMulPattern(M, left, right, shape)) == MatMulOf(M.A, left, right)
  {
    forall c | InBounds(shape, c)
      ensures At(MatMulPattern(M, left, right, shape), c) == At(MatMulOf(M.A, left, right).value, c)
    {
      MatMulCellLowered(M, left, right, batch, shape, c);
    }
    SameCells(MatMulPattern(M, left, right, shape), MatMulOf(M.A, left, right).value);
  }

  // ----- the linear layer -----

  /** The instructions of `emit_matmul` for a linear layer: transposed weight, then the contraction. */
  function LinearPattern(M: Model, input: Tensor, weight: Tensor, shape: Shape): (r: Tensor)
    requires input.shape != [] && |weight.shape| == 2 && Positive(shape)
    ensures r.shape == shape
  {
    DotValue(M, LinearDot(|input.shape|), input, TransposeOf(weight, [1, 0]).value, shape)
  }

  lemma TransposedAt(weight: Tensor, i: int, j: int)
    requires |weight.shape| == 2 && 0 <= i < weight.shape[1] && 0 <= j < weight.shape[0]
    ensures TransposeOf(weight, [1, 0]).Some?
    ensures TransposeOf(weight, [1, 0]).value.shape == [weight.shape[1], weight.shape[0]]
    ensures At(TransposeOf(weight, [1, 0]).value, [i, j]) == At(weight, [j, i])
  {
    var p := [1, 0];
    var shape := Permute(weight.shape, p);
    assert shape == [weight.shape[1], weight.shape[0]];
    DecodeEncode(shape, [i, j]);
    EncodeBound(shape, [i, j]);
    UnpermuteAt([i, j], p, 0);
    UnpermuteAt([i, j], p, 1);
    assert Unpermute([i, j], p) == [j, i];
  }

  lemma InputLane(input: Tensor, c: Coords)
    requires input.shape != [] && |c| == |input.shape|
    requires InBounds(input.shape[..|c| - 1], c[..|c| - 1])
    ensures DotLane(input, [], |c| - 1, 0, input.shape[|c| - 1], c) == LastLane(input, c[..|c| - 1])
  {
    var n := |c| - 1;
    var lane, last := DotLane(input, [], n, 0, input.shape[n], c), LastLane(input, c[..n]);
    var used: seq<int> := [];
    assert used + [n as int] == [n as int];
    forall k | 0 <= k < input.shape[n] ensures lane[k] == last[k] {
      var d := DotCoordinate(|input.shape|, [], n, 0, c, k);
      forall a | 0 <= a < n ensures d[a] == c[a] {
        AllFree([n as int], a);
      }
      assert d == c[..n] + [k];
    }
  }

  lemma WeightLane(weight: Tensor, c: Coords)
    requires |weight.shape| == 2 && c != [] && 0 <= c[|c| - 1] < weight.shape[0]
    ensures TransposeOf(weight, [1, 0]).Some?
    ensures DotLane(TransposeOf(weight, [1, 0]).value, [], 0, |c| - 1, weight.shape[1], c) == LastLane(weight, [c[|c| - 1]])
  {
    var n, t := |c| - 1, TransposeOf(weight, [1, 0]).value;
    var lane, last := DotLane(t, [], 0, n, weight.shape[1], c), LastLane(weight, [c[n]]);
    var used: seq<int> := [];
    assert used + [0] == [0];
    NoneFree([0], 1);
    forall k | 0 <= k < weight.shape[1] ensures lane[k] == last[k] {
      TransposedAt(weight, k, c[n]);
      assert DotCoordinate(2, [], 0, n, c, k) == [k, c[n]];
      assert [c[n]] + [k] == [c[n], k];
    }
  }

  lemma LinearDotCell(A: Arith, input: Tensor, weight: Tensor, c: Coords)
    requires LinearShape(input.shape, weight.shape).Some? && InBounds(LinearShape(input.shape, weight.shape).value, c)
    ensures TransposeOf(weight, [1, 0]).Some?
    ensures DotCell(A, LinearDot(|input.shape|), input, TransposeOf(weight, [1, 0]).value,
                    input.shape[|input.shape| - 1], c)
         == LinearCell(A, input, weight, c)
  {
    var n := |input.shape| - 1;
    var shape := LinearShape(input.shape, weight.shape).value;
    assert forall a | 0 <= a < n :: shape[a] == input.shape[a];
    hide Dot, DotLane, LastLane, DotCoordinate;
    InputLane(input, c);
    WeightLane(weight, c);
    var used: seq<int> := [];
    assert used + [n as int] == [n as int];
    AllFree([n as int], n);
    assert n in [n as int];
  }

  lemma LinearAt(A: Arith, input: Tensor, weight: Tensor, c: Coords)
    requires LinearShape(input.shape, weight.shape).Some? && InBounds(LinearShape(input.shape, weight.shape).value, c)
    ensures At(LinearOf(A, input, weight).value, c) == LinearCell(A, input, weight, c)
  {
    DecodeEncode(LinearShape(input.shape, weight.shape).value, c);
  }

  /** Transposing the weight and contracting is the linear layer. */
  lemma LinearLowered(M: Model, input: Tensor, weight: Tensor)
    requires LinearShape(input.shape, weight.shape).Some?
    ensures Positive(LinearShape(input.shape, weight.shape).value)
    ensures Some(LinearPattern(M, input, weight, LinearShape(input.shape, weight.shape).value))
         == LinearOf(M.A, input, weight)
  {
    var shape := LinearShape(input.shape, weight.shape).value;
    forall c | InBounds(shape, c)
      ensures At(LinearPattern(M, input, weight, shape), c) == At(LinearOf(M.A, input, weight).value, c)
    {
      LinearAt(M.A, input, weight, c);
      DotValueAt(M, LinearDot(|input.shape|), input, TransposeOf(weight, [1, 0]).value, shape,
                 input.shape[|input.shape| - 1], c);
      LinearDotCell(M.A, input, weight, c);
    }
    SameCells(LinearPattern(M, input, weight, shape), LinearOf(M.A, input, weight).value);
  }

  // ----- bias and activation -----

  /** The product plus the spread bias, if there is one. */
  function BiasPattern(M: Model, product: Tensor, bias: Option<Tensor>): (r: Tensor)
    requires bias.Some? ==> |bias.value.shape| <= |product.shape|
    ensures r.shape == product.shape
  {
    if bias.None? then product
    else Zip(M.BinaryMeaning(AddOp), product, Aligned(bias.value, product.shape))
  }

  function BiasIn(xs: seq<Tensor>): Option<Tensor> {
    if |xs| == 3 then Some(xs[2]) else None
  }

  lemma BiasLowered(M: Model, product: Tensor, bias: Tensor)
    requires product.shape != [] && bias.shape == [product.shape[|product.shape| - 1]]
    ensures Binary(M.BinaryMeaning(AddOp), product, bias) == Some(BiasPattern(M, product, Some(bias)))
  {
    BiasSpreads(product.shape, bias.shape);
    BinaryLowered(M.BinaryMeaning(AddOp), product, bias);
  }

  lemma AddMeans(M: Model)
    ensures M.BinaryMeaning(AddOp) == M.A.add && M.BinaryMeaning(MultiplyOp) == M.A.mul
    ensures M.BinaryMeaning(DivideOp) == M.A.div
  {
  }

  predicate GeluRequested(op: Operation) {
    "fused_activation" in op.attributes ==> op.attributes["fused_activation"] == JString("GELU")
  }

  /** What `emit_matmul` computes from the product. */
  function ProjectionPattern(M: Model, op: Operation, product: Tensor, bias: Option<Tensor>): (r: Tensor)
    requires bias.Some? ==> |bias.value.shape| <= |product.shape|
    ensures r.shape == product.shape
  {
    var biased := BiasPattern(M, product, bias);
    if "fused_activation" in op.attributes then GeluPattern(M, biased) else biased
  }

  /** Where the projection has a value, that is what the instructions compute. */
  lemma ProjectionLowered(M: Model, op: Operation, xs: seq<Tensor>, product: Tensor)
    requires M.Faithful() && GeluRequested(op) && (|xs| == 2 || |xs| == 3) && Projection(M.A, op, xs).Some?
    requires Product(M.A, op.kind.Linear?, xs[0], xs[1]) == Some(product) && product.shape != []
    requires |xs| == 3 ==> xs[2].shape == [product.shape[|product.shape| - 1]]
    ensures Projection(M.A, op, xs) == Some(ProjectionPattern(M, op, product, BiasIn(xs)))
  {
    AddMeans(M);
    if |xs| == 3 {
      BiasLowered(M, product, xs[2]);
    }
    GeluLowered(M, BiasPattern(M, product, BiasIn(xs)));
  }
}
