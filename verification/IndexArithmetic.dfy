/**
 The linear-index arithmetic of cpp/src/runtime/cpu_backend.cpp: strides, broadcast shapes and
 gathers, each proved to address the coordinate the reference semantics names.
 */
module IndexArithmetic {
  import opened Basics
  import opened Shapes
  import opened Tensors
  import opened TensorSizes
  import DivMod

  /** `row_major_strides`: fails exactly when the whole shape has more than 2^64 - 1 elements. */
  method RowMajorStrides(shape: Shape) returns (r: Result<seq<int>>)
    requires Positive(shape)
    ensures r.Ok? <==> Count(shape) <= UINT64_MAX
    ensures r.Ok? ==> r.value == Strides(shape)
  {
    var strides := seq(|shape|, _ => 1);
    var running: nat := 1;
    for offset := 0 to |shape|
      invariant |strides| == |shape|
      invariant running == Count(shape[|shape| - offset..]) <= UINT64_MAX
      invariant forall a | |shape| - offset <= a < |shape| :: strides[a] == Count(shape[a + 1..])
    {
      var index := |shape| - 1 - offset;
      strides := strides[index := running];
      assert shape[index..][1..] == shape[index + 1..];
      CountSuffixBound(shape, index);
      DivisionGuard(running, shape[index], UINT64_MAX);
      if running > UINT64_MAX / shape[index] {
        return Err(Overflow);
      }
      running := running * shape[index];
    }
    assert shape[0..] == shape;
    return Ok(strides);
  }

  /** `broadcast_shape` / `broadcast_dimensions`: the loop from the rightmost dimension. */
  method ComputeBroadcastShape(left: Shape, right: Shape) returns (r: Option<Shape>)
    ensures r == BroadcastShape(left, right)
  {
    var rank := Max(|left|, |right|);
    var output: Shape := seq(rank, _ => 1);
    for offset := 0 to rank
      invariant |output| == rank
      invariant forall o: nat {:trigger DimFromRight(left, o)} | o < offset ::
        DimFromRight(left, o) == DimFromRight(right, o) || DimFromRight(left, o) == 1 || DimFromRight(right, o) == 1
      invariant forall a | rank - offset <= a < rank :: output[a] == BroadcastDim(left, right, rank, a)
    {
      var l := if offset < |left| then left[|left| - 1 - offset] else 1;
      var r' := if offset < |right| then right[|right| - 1 - offset] else 1;
      assert l == DimFromRight(left, offset) && r' == DimFromRight(right, offset);
      if l != r' && l != 1 && r' != 1 {
        return None;
      }
      output := output[rank - 1 - offset := Max(l, r')];
    }
    assert output == BroadcastShape(left, right).value;
    return Some(output);
  }

  /** Coordinates times strides over the first k axes, as the kernels add them up. */
  function StridedPrefix(p: Coords, strides: seq<int>, k: nat): int
    requires k <= |p| && k <= |strides|
  {
    if k == 0 then 0 else StridedPrefix(p, strides, k - 1) + p[k - 1] * strides[k - 1]
  }

  lemma {:induction false} StridedPrefixIsEncode(input: Shape, p: Coords, strides: seq<int>, inner: nat, k: nat)
    requires |p| == |input| && |strides| >= |input| && k <= |input|
    requires forall a | 0 <= a < |input| :: strides[a] == Count(input[a + 1..]) * inner
    ensures StridedPrefix(p, strides, k) + StridedSum(input, p, k) * inner == Encode(input, p) * inner
  {
    if k == 0 {
      StridedSumIsEncode(input, p, 0);
      assert input[0..] == input && p[0..] == p;
    } else {
      StridedPrefixIsEncode(input, p, strides, inner, k - 1);
      AddTerm(p[k - 1], Count(input[k..]), inner, StridedSum(input, p, k));
    }
  }

  lemma AddTerm(coordinate: int, stride: int, inner: nat, rest: int)
    ensures (coordinate * stride + rest) * inner == coordinate * (stride * inner) + rest * inner
  {
  }

  lemma {:induction false} StridedPrefixNonnegative(input: Shape, p: Coords, strides: seq<int>, inner: nat, k: nat)
    requires Positive(input) && InBounds(input, p) && |strides| >= |input| && k <= |input|
    requires forall a | 0 <= a < |input| :: strides[a] == Count(input[a + 1..]) * inner
    ensures StridedPrefix(p, strides, k) >= 0
  {
    if k > 0 {
      StridedPrefixNonnegative(input, p, strides, inner, k - 1);
      CountPositive(input[k..]);
      DivMod.MulMonotone(0, Count(input[k..]), inner);
      DivMod.MulMonotone(0, p[k - 1], strides[k - 1]);
    }
  }

  /** The coordinate an output index has on one input axis. */
  lemma GatherAxis(index: nat, output: Shape, input: Shape, axis: nat)
    requires Positive(output) && index < Count(output) && BroadcastsTo(input, output)
    requires |output| - |input| <= axis < |output|
    ensures |Decode(output, index)| == |output|
    ensures Count(output[axis + 1..]) > 0
    ensures var a := axis - (|output| - |input|);
      Project(Decode(output, index), input)[a]
      == if input[a] == 1 then 0 else (index / Count(output[axis + 1..])) % output[axis]
  {
    DecodeInBounds(output, index);
    DecodeAxis(output, index, axis);
  }

  /** The input element that output element `index` reads under broadcasting. */
  function GatherOf(output: Shape, input: Shape, index: nat): (k: nat)
    requires Positive(output) && Positive(input) && index < Count(output) && BroadcastsTo(input, output)
    ensures k < Count(input)
  {
    DecodeInBounds(output, index);
    ProjectInBounds(output, input, Decode(output, index));
    EncodeBound(input, Project(Decode(output, index), input));
    Encode(input, Project(Decode(output, index), input))
  }

  /**
   `broadcast_input_index` and `batch_base_offset`, which are the same loop: for each axis the
   coordinate `(index / stride) % dimension` times the input stride, skipping size-1 axes. When
   the input strides are those of a tensor with `inner` trailing elements per cell, the result
   is the row-major index of the projected coordinate times `inner`.
   */
  method GatherIndex(index: nat, output: Shape, outputStrides: seq<int>, input: Shape, inputStrides: seq<int>,
                     ghost inner: nat)
    returns (r: nat)
    requires Positive(output) && Positive(input) && index < Count(output)
    requires BroadcastsTo(input, output)
    requires outputStrides == Strides(output) && |inputStrides| >= |input|
    requires forall a | 0 <= a < |input| :: inputStrides[a] == Count(input[a + 1..]) * inner
    ensures r == GatherOf(output, input, index) * inner
  {
    DecodeInBounds(output, index);
    ghost var p := Project(Decode(output, index), input);
    ProjectInBounds(output, input, Decode(output, index));
    forall axis: nat | |output| - |input| <= axis < |output|
      ensures outputStrides[axis] > 0
      ensures p[axis - (|output| - |input|)] == AxisCoordinate(index, output, outputStrides, input, axis)
    {
      GatherAxis(index, output, input, axis);
    }
    forall k: nat | k <= |input| ensures StridedPrefix(p, inputStrides, k) >= 0 {
      StridedPrefixNonnegative(input, p, inputStrides, inner, k);
    }
    r := GatherLoop(index, output, outputStrides, input, inputStrides, p);
    StridedPrefixIsEncode(input, p, inputStrides, inner, |input|);
  }

  function AxisCoordinate(index: nat, output: Shape, outputStrides: seq<int>, input: Shape, axis: nat): int
    requires |input| <= |output| == |outputStrides| && |output| - |input| <= axis < |output|
    requires outputStrides[axis] > 0 && output[axis] > 0
  {
    if input[axis - (|output| - |input|)] == 1 then 0 else (index / outputStrides[axis]) % output[axis]
  }

  method GatherLoop(index: nat, output: Shape, outputStrides: seq<int>, input: Shape, inputStrides: seq<int>,
                    ghost p: Coords)
    returns (r: nat)
    requires |input| <= |output| == |outputStrides| && |inputStrides| >= |input| == |p| && Positive(output)
    requires forall axis: nat | |output| - |input| <= axis < |output| :: outputStrides[axis] > 0
    requires forall axis: nat | |output| - |input| <= axis < |output| ::
      p[axis - (|output| - |input|)] == AxisCoordinate(index, output, outputStrides, input, axis)
    requires forall k: nat | k <= |input| :: StridedPrefix(p, inputStrides, k) >= 0
    ensures r == StridedPrefix(p, inputStrides, |input|)
  {
    var delta := |output| - |input|;
    r := 0;
    for axis := 0 to |output|
      invariant r == StridedPrefix(p, inputStrides, if axis < delta then 0 else axis - delta)
    {
      if axis < delta {
        continue;
      }
      var a := axis - delta;
      assert p[a] == AxisCoordinate(index, output, outputStrides, input, axis);
      assert StridedPrefix(p, inputStrides, a + 1) == r + p[a] * inputStrides[a];
      if input[a] == 1 {
        continue;
      }
      var coordinate := (index / outputStrides[axis]) % output[axis];
      r := r + coordinate * inputStrides[a];
    }
  }

  // ----- rows and matrices inside tensors -----

  /** Coordinates of a linear index, split at the last dimension. */
  lemma LaneCoordinates(shape: Shape, i: nat)
    requires Positive(shape) && shape != [] && i < Count(shape)
    ensures var n, width := |shape| - 1, shape[|shape| - 1];
      && i / width < Count(shape[..n])
      && Decode(shape, i) == Decode(shape[..n], i / width) + [i % width]
  {
    var n, width := |shape| - 1, shape[|shape| - 1];
    assert shape == shape[..n] + [width];
    assert [width][1..] == [];
    assert Count([width]) == width;
    DecodeAppend(shape[..n], [width], i);
    assert Decode([width], i % width) == [i % width];
  }

  /** Element k of the last-dimension lane at prefix coordinate `prefix`. */
  lemma LaneIndex(shape: Shape, prefix: Coords, k: int)
    requires Positive(shape) && shape != [] && InBounds(shape[..|shape| - 1], prefix)
    requires 0 <= k < shape[|shape| - 1]
    ensures InBounds(shape, prefix + [k])
    ensures Encode(shape, prefix + [k]) == Encode(shape[..|shape| - 1], prefix) * shape[|shape| - 1] + k
  {
    var n, width := |shape| - 1, shape[|shape| - 1];
    assert shape == shape[..n] + [width];
    assert [width][1..] == [] && [k][1..] == [];
    EncodeAppend(shape[..n], [width], prefix, [k]);
    assert Count([width]) == width && Encode([width], [k]) == k;
    forall a | 0 <= a < |shape| ensures 0 <= (prefix + [k])[a] < shape[a] {
      if a < n {
        assert shape[..n][a] == shape[a];
      }
    }
  }

  /** Element [row, column] of the matrix at batch coordinate `batch`. */
  lemma MatrixIndex(shape: Shape, batch: Coords, row: int, column: int)
    requires Positive(shape) && |shape| >= 2 && InBounds(shape[..|shape| - 2], batch)
    requires 0 <= row < shape[|shape| - 2] && 0 <= column < shape[|shape| - 1]
    ensures InBounds(shape, batch + [row, column])
    ensures Encode(shape, batch + [row, column])
         == Encode(shape[..|shape| - 2], batch) * (shape[|shape| - 2] * shape[|shape| - 1])
            + (row * shape[|shape| - 1] + column)
  {
    var n := |shape| - 2;
    var rows, columns := shape[n], shape[n + 1];
    assert shape[..n + 1][..n] == shape[..n];
    LaneIndex(shape[..n + 1], batch, row);
    LaneIndex(shape, batch + [row], column);
    assert batch + [row] + [column] == batch + [row, column];
    Regroup(Encode(shape[..n], batch), rows, row, columns, column);
  }

  lemma Regroup(e: int, rows: int, row: int, columns: int, column: int)
    ensures (e * rows + row) * columns + column == e * (rows * columns) + (row * columns + column)
  {
  }

  lemma SplitTwice(i: nat, rows: nat, columns: nat, m: nat)
    requires rows > 0 && columns > 0 && m == rows * columns
    ensures m > 0
    ensures (i / columns) / rows == i / m
    ensures (i / columns) % rows == (i % m) / columns
    ensures i % columns == (i % m) % columns
  {
    DivMod.DivDiv(i, columns, rows);
    assert columns * rows == m;
  }

  /** Coordinates of a linear index of a tensor whose last two dimensions hold m = rows x columns cells. */
  lemma MatrixCoordinates(shape: Shape, i: nat, m: nat)
    requires Positive(shape) && |shape| >= 2 && i < Count(shape)
    requires m == shape[|shape| - 2] * shape[|shape| - 1]
    ensures m > 0 && i / m < Count(shape[..|shape| - 2])
    ensures Decode(shape, i) == Decode(shape[..|shape| - 2], i / m)
                                + [(i % m) / shape[|shape| - 1], (i % m) % shape[|shape| - 1]]
  {
    var n, rows, columns := |shape| - 2, shape[|shape| - 2], shape[|shape| - 1];
    SplitTwice(i, rows, columns, m);
    LaneCoordinates(shape, i);
    assert shape[..n + 1][..n] == shape[..n];
    LaneCoordinates(shape[..n + 1], i / columns);
    assert Decode(shape, i) == Decode(shape[..n], i / m) + [(i % m) / columns] + [(i % m) % columns];
  }

  // ----- permuted axes -----

  function SumSelected(v: seq<int>, p: seq<int>): int
    requires forall a | 0 <= a < |p| :: 0 <= p[a] < |v|
  {
    if p == [] then 0 else v[p[0]] + SumSelected(v, p[1..])
  }

  function SumFirst(v: seq<int>, k: nat): int
    requires k <= |v|
  {
    if k == 0 then 0 else SumFirst(v, k - 1) + v[k - 1]
  }

  lemma {:induction false} SumSelectedSplit(v: seq<int>, p: seq<int>, q: seq<int>)
    requires forall a | 0 <= a < |p| :: 0 <= p[a] < |v|
    requires forall a | 0 <= a < |q| :: 0 <= q[a] < |v|
    ensures SumSelected(v, p + q) == SumSelected(v, p) + SumSelected(v, q)
  {
    if p == [] {
      assert p + q == q;
    } else {
      assert (p + q)[1..] == p[1..] + q;
      SumSelectedSplit(v, p[1..], q);
    }
  }

  /** A permutation of n axes without the place of the last axis is a permutation of the others. */
  lemma DropLastAxis(p: seq<int>, n: nat, k: nat)
    requires n > 0 && IsPermutation(p, n) && k < n && p[k] == n - 1
    ensures IsPermutation(p[..k] + p[k + 1..], n - 1)
  {
    var rest := p[..k] + p[k + 1..];
    forall a | 0 <= a < n - 1 ensures rest[a] == if a < k then p[a] else p[a + 1] {
    }
  }

  lemma SumSelectedRemove(v: seq<int>, p: seq<int>, k: nat)
    requires k < |p| && forall a | 0 <= a < |p| :: 0 <= p[a] < |v|
    ensures SumSelected(v, p) == SumSelected(v, p[..k] + p[k + 1..]) + v[p[k]]
  {
    assert p == p[..k] + ([p[k]] + p[k + 1..]);
    SumSelectedSplit(v, p[..k], [p[k]] + p[k + 1..]);
    SumSelectedSplit(v, p[..k], p[k + 1..]);
    assert ([p[k]] + p[k + 1..])[1..] == p[k + 1..];
  }

  /** Adding up the terms in the order of a permutation adds all of them. */
  lemma {:induction false} PermutedSum(v: seq<int>, p: seq<int>, n: nat)
    requires n <= |v| && IsPermutation(p, n)
    ensures SumSelected(v, p) == SumFirst(v, n)
  {
    if n > 0 {
      PermutationHits(p, n, n - 1);
      var k := IndexOf(p, n - 1);
      DropLastAxis(p, n, k);
      PermutedSum(v, p[..k] + p[k + 1..], n - 1);
      SumSelectedRemove(v, p, k);
    }
  }

  lemma {:induction false} StridedPrefixAsSum(u: Coords, strides: seq<int>, v: seq<int>, k: nat)
    requires k <= |u| == |v| == |strides| && forall b | 0 <= b < |v| :: v[b] == u[b] * strides[b]
    ensures StridedPrefix(u, strides, k) == SumFirst(v, k)
  {
    if k > 0 {
      StridedPrefixAsSum(u, strides, v, k - 1);
    }
  }

  lemma {:induction false} PermutedPrefixAsSum(c: Coords, permuted: seq<int>, v: seq<int>, p: seq<int>, k: nat)
    requires k <= |c| == |v| == |permuted| && IsPermutation(p, |c|)
    requires forall a | 0 <= a < |c| :: c[a] * permuted[a] == v[p[a]]
    ensures StridedPrefix(c, permuted, k) == SumSelected(v, p[..k])
  {
    if k > 0 {
      PermutedPrefixAsSum(c, permuted, v, p, k - 1);
      assert p[..k] == p[..k - 1] + [p[k - 1]];
      SumSelectedSplit(v, p[..k - 1], [p[k - 1]]);
      assert [p[k - 1]][1..] == [];
    }
  }

  /**
   Reading with permuted strides: coordinates of the output times the strides of the permuted
   input axes add up to the index of the input coordinate the transpose names.
   */
  lemma PermutedStrides(shape: Shape, p: seq<int>, c: Coords)
    requires Positive(shape) && IsPermutation(p, |shape|) && InBounds(Permute(shape, p), c)
    ensures StridedPrefix(c, Permute(Strides(shape), p), |c|) == Encode(shape, Unpermute(c, p))
  {
    var n := |shape|;
    var u, strides := Unpermute(c, p), Strides(shape);
    var v := seq(n, b requires 0 <= b < n => u[b] * strides[b]);
    forall a | 0 <= a < n ensures c[a] * Permute(strides, p)[a] == v[p[a]] {
      UnpermuteAt(c, p, a);
    }
    PermutedPrefixAsSum(c, Permute(strides, p), v, p, n);
    assert p[..n] == p;
    PermutedSum(v, p, n);
    StridedPrefixAsSum(u, strides, v, n);
    PlainStrides(shape, u);
  }

  lemma PlainStrides(shape: Shape, u: Coords)
    requires |u| == |shape|
    ensures StridedPrefix(u, Strides(shape), |u|) == Encode(shape, u)
  {
    StridedPrefixIsEncode(shape, u, Strides(shape), 1, |u|);
  }
}
