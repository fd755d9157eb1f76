/**
 Tensor shapes, row-major addressing and broadcasting, stated over coordinates.
 The C++ kernels work on linear indices and strides; the lemmas here connect the two.
 */
module Shapes {
  import opened Basics
  import DivMod

  /** Dimensions of a tensor, outermost first (int64 in the source). */
  type Shape = seq<int>

  predicate Positive(s: Shape) {
    forall a | 0 <= a < |s| :: s[a] > 0
  }

  /** Number of elements: the product of the dimensions. */
  function Count(s: Shape): int {
    if s == [] then 1 else s[0] * Count(s[1..])
  }

  lemma CountPositive(s: Shape)
    requires Positive(s)
    ensures Count(s) >= 1
  {
    if s != [] {
      CountPositive(s[1..]);
      DivMod.MulMonotone(1, s[0], Count(s[1..]));
    }
  }

  lemma {:induction false} CountAppend(a: Shape, b: Shape)
    ensures Count(a + b) == Count(a) * Count(b)
  {
    if a == [] {
      assert a + b == b;
    } else {
      assert (a + b)[1..] == a[1..] + b;
      CountAppend(a[1..], b);
      assert a[0] * (Count(a[1..]) * Count(b)) == a[0] * Count(a[1..]) * Count(b);
    }
  }

  lemma CountSplit(s: Shape, k: nat)
    requires k <= |s|
    ensures Count(s) == Count(s[..k]) * Count(s[k..])
  {
    assert s == s[..k] + s[k..];
    CountAppend(s[..k], s[k..]);
  }

  /** Every suffix of a positive shape has at most as many elements as the whole. */
  lemma CountSuffixBound(s: Shape, k: nat)
    requires Positive(s) && k <= |s|
    ensures 1 <= Count(s[k..]) <= Count(s)
  {
    CountPositive(s[..k]);
    CountPositive(s[k..]);
    CountSplit(s, k);
    DivMod.MulMonotone(1, Count(s[..k]), Count(s[k..]));
  }

  // ----- coordinates -----

  type Coords = seq<int>

  predicate InBounds(s: Shape, c: Coords) {
    |c| == |s| && forall a | 0 <= a < |s| :: 0 <= c[a] < s[a]
  }

  /** Row-major linear index of a coordinate. */
  function Encode(s: Shape, c: Coords): int
    requires |c| == |s|
  {
    if s == [] then 0 else c[0] * Count(s[1..]) + Encode(s[1..], c[1..])
  }

  /** Coordinate of a row-major linear index. */
  function Decode(s: Shape, i: nat): Coords
    requires Positive(s)
  {
    if s == [] then []
    else
      CountPositive(s[1..]);
      [i / Count(s[1..])] + Decode(s[1..], i % Count(s[1..]))
  }

  lemma {:induction false} EncodeBound(s: Shape, c: Coords)
    requires InBounds(s, c)
    ensures 0 <= Encode(s, c) < Count(s)
  {
    if s != [] {
      EncodeBound(s[1..], c[1..]);
      DivMod.CellBound(c[0], Encode(s[1..], c[1..]), s[0], Count(s[1..]));
    }
  }

  lemma {:induction false} DecodeInBounds(s: Shape, i: nat)
    requires Positive(s) && i < Count(s)
    ensures InBounds(s, Decode(s, i))
  {
    if s != [] {
      CountPositive(s[1..]);
      assert Count(s) == s[0] * Count(s[1..]);
      var head, rest := DivMod.Split(i, s[0], Count(s[1..]));
      assert Decode(s, i) == [head] + Decode(s[1..], rest);
      DecodeInBounds(s[1..], rest);
      hide Decode, Count, InBounds;
      InBoundsPush(s, head, Decode(s[1..], rest));
    }
  }

  lemma InBoundsPush(s: Shape, head: int, rest: Coords)
    requires s != [] && 0 <= head < s[0] && InBounds(s[1..], rest)
    ensures InBounds(s, [head] + rest)
  {
    forall a | 0 <= a < |s| ensures 0 <= ([head] + rest)[a] < s[a] {
      if a > 0 {
        assert ([head] + rest)[a] == rest[a - 1] && s[a] == s[1..][a - 1];
      }
    }
  }

  /** Encoding a decoded index gives the index back. */
  lemma {:induction false} EncodeDecode(s: Shape, i: nat)
    requires Positive(s) && i < Count(s)
    ensures InBounds(s, Decode(s, i))
    ensures Encode(s, Decode(s, i)) == i
  {
    DecodeInBounds(s, i);
    if s != [] {
      CountPositive(s[1..]);
      EncodeDecode(s[1..], i % Count(s[1..]));
      assert Decode(s, i)[1..] == Decode(s[1..], i % Count(s[1..]));
      DivMod.Recompose(i, Count(s[1..]));
    }
  }

  /** Decoding an encoded coordinate gives the coordinate back. */
  lemma {:induction false} DecodeEncode(s: Shape, c: Coords)
    requires Positive(s) && InBounds(s, c)
    ensures 0 <= Encode(s, c) < Count(s)
    ensures Decode(s, Encode(s, c)) == c
  {
    EncodeBound(s, c);
    if s != [] {
      EncodeBound(s[1..], c[1..]);
      DecodeEncode(s[1..], c[1..]);
      DivMod.QuotientRemainder(c[0], Encode(s[1..], c[1..]), Count(s[1..]));
      assert c == [c[0]] + c[1..];
    }
  }

  /** The strides `row_major_strides` computes. */
  function Strides(s: Shape): (r: seq<int>)
    ensures |r| == |s|
  {
    seq(|s|, a requires 0 <= a < |s| => Count(s[a + 1..]))
  }

  lemma {:induction false} DecodeAxis(s: Shape, i: nat, axis: nat)
    requires Positive(s) && i < Count(s) && axis < |s|
    ensures Count(s[axis + 1..]) > 0
    ensures |Decode(s, i)| == |s|
    ensures Decode(s, i)[axis] == (i / Count(s[axis + 1..])) % s[axis]
  {
    var tail := Count(s[1..]);
    CountPositive(s[1..]);
    CountPositive(s[axis + 1..]);
    DecodeInBounds(s, i);
    if axis == 0 {
      DivMod.QuotientBound(i, s[0], tail);
      DivMod.QuotientRemainder(0, i / tail, s[0]);
    } else {
      DecodeAxis(s[1..], i % tail, axis - 1);
      var inner := s[axis + 1..];
      assert s[1..][axis - 1 + 1..] == inner;
      // tail is a multiple of s[axis] * Count(inner), so the outer part does not matter
      CountSplit(s[1..], axis - 1);
      var mid := s[1..][axis - 1..];
      assert mid[1..] == inner && mid[0] == s[axis];
      var outer := Count(s[1..][..axis - 1]);
      CountPositive(s[1..][..axis - 1]);
      assert tail == outer * (s[axis] * Count(inner));
      ModOfMultiple(i, outer, s[axis], Count(inner));
    }
  }

  lemma ModOfMultiple(i: nat, outer: nat, d: nat, inner: nat)
    requires outer > 0 && d > 0 && inner > 0
    ensures outer * (d * inner) > 0
    ensures ((i % (outer * (d * inner))) / inner) % d == (i / inner) % d
  {
    DivMod.MulMonotone(1, d, inner);
    DivMod.MulMonotone(1, outer, d * inner);
    assert inner * d == d * inner;
    var block := inner * d;
    assert block * outer == outer * (d * inner);
    DivMod.DivDiv(i, block, outer);
    var r := i % (block * outer);
    assert r % block == i % block;
    DivMod.DivDiv(i, inner, d);
    DivMod.DivDiv(r, inner, d);
  }

  /** Sum over axes k.. of coordinate times stride, as the kernels accumulate it. */
  function StridedSum(s: Shape, c: Coords, k: nat): int
    requires |c| == |s| && k <= |s|
    decreases |s| - k
  {
    if k == |s| then 0 else c[k] * Count(s[k + 1..]) + StridedSum(s, c, k + 1)
  }

  lemma {:induction false} StridedSumIsEncode(s: Shape, c: Coords, k: nat)
    requires |c| == |s| && k <= |s|
    ensures StridedSum(s, c, k) == Encode(s[k..], c[k..])
    decreases |s| - k
  {
    if k < |s| {
      StridedSumIsEncode(s, c, k + 1);
      assert s[k..][1..] == s[k + 1..] && c[k..][1..] == c[k + 1..];
    }
  }

  lemma EncodeSplit(s: Shape, t: Shape, c: Coords, d: Coords)
    requires |c| == |s| && |d| == |t| && s != []
    ensures Encode(s + t, c + d) == c[0] * Count(s[1..] + t) + Encode(s[1..] + t, c[1..] + d)
  {
    assert (s + t)[1..] == s[1..] + t && (c + d)[1..] == c[1..] + d;
  }

  lemma {:induction false} EncodeAppend(s: Shape, t: Shape, c: Coords, d: Coords)
    requires |c| == |s| && |d| == |t|
    ensures Encode(s + t, c + d) == Encode(s, c) * Count(t) + Encode(t, d)
  {
    if s == [] {
      assert s + t == t && c + d == d;
    } else {
      EncodeAppend(s[1..], t, c[1..], d);
      CountAppend(s[1..], t);
      EncodeSplit(s, t, c, d);
      DivMod.Distribute(c[0], Count(s[1..]), Encode(s[1..], c[1..]), Count(t));
      hide Count;
    }
  }

  lemma {:induction false} DecodeAppend(s: Shape, t: Shape, i: nat)
    requires Positive(s) && Positive(t) && i < Count(s + t)
    ensures Positive(s + t) && Count(t) > 0
    ensures i / Count(t) < Count(s)
    ensures Decode(s + t, i) == Decode(s, i / Count(t)) + Decode(t, i % Count(t))
  {
    CountPositive(t);
    CountPositive(s);
    CountAppend(s, t);
    DivMod.QuotientBound(i, Count(s), Count(t));
    var q, r := i / Count(t), i % Count(t);
    EncodeDecode(s, q);
    EncodeDecode(t, r);
    EncodeAppend(s, t, Decode(s, q), Decode(t, r));
    DivMod.Recompose(i, Count(t));
    DecodeEncode(s + t, Decode(s, q) + Decode(t, r));
  }

  // ----- broadcasting -----

  /** The dimension `offset` places from the right, 1 where the shape is shorter. */
  function DimFromRight(s: Shape, offset: nat): int {
    if offset < |s| then s[|s| - 1 - offset] else 1
  }

  predicate Compatible(left: Shape, right: Shape) {
    forall offset: nat {:trigger DimFromRight(left, offset)} | offset < Max(|left|, |right|) ::
      DimFromRight(left, offset) == DimFromRight(right, offset)
      || DimFromRight(left, offset) == 1 || DimFromRight(right, offset) == 1
  }

  function BroadcastDim(left: Shape, right: Shape, rank: nat, axis: nat): int
    requires axis < rank
  {
    Max(DimFromRight(left, rank - 1 - axis), DimFromRight(right, rank - 1 - axis))
  }

  /** The broadcast shape of two operands, None when they do not broadcast. */
  function BroadcastShape(left: Shape, right: Shape): Option<Shape> {
    if !Compatible(left, right) then None
    else
      var rank := Max(|left|, |right|);
      Some(seq(rank, axis requires 0 <= axis < rank => BroadcastDim(left, right, rank, axis)))
  }

  /** `input` broadcasts to `output`: aligned on the right, each dimension equal or 1. */
  predicate BroadcastsTo(input: Shape, output: Shape) {
    |input| <= |output|
    && forall a | 0 <= a < |input| ::
         input[a] == 1 || input[a] == output[a + (|output| - |input|)]
  }

  /** The input coordinate that output coordinate `c` reads. */
  function Project(c: Coords, input: Shape): (p: Coords)
    requires |input| <= |c|
    ensures |p| == |input|
  {
    seq(|input|, a requires 0 <= a < |input| =>
      if input[a] == 1 then 0 else c[a + (|c| - |input|)])
  }

  lemma ProjectInBounds(output: Shape, input: Shape, c: Coords)
    requires BroadcastsTo(input, output) && Positive(input) && InBounds(output, c)
    ensures InBounds(input, Project(c, input))
  {
  }

  lemma BroadcastOperands(left: Shape, right: Shape)
    requires Positive(left) && Positive(right)
    requires BroadcastShape(left, right).Some?
    ensures Positive(BroadcastShape(left, right).value)
    ensures BroadcastsTo(left, BroadcastShape(left, right).value)
    ensures BroadcastsTo(right, BroadcastShape(left, right).value)
  {
    var out := BroadcastShape(left, right).value;
    var rank := |out|;
    forall axis | 0 <= axis < rank ensures out[axis] > 0
    {
      assert out[axis] == BroadcastDim(left, right, rank, axis);
    }
    forall a | 0 <= a < |left| ensures left[a] == 1 || left[a] == out[a + (rank - |left|)]
    {
      var axis := a + (rank - |left|);
      assert out[axis] == BroadcastDim(left, right, rank, axis);
      assert DimFromRight(left, rank - 1 - axis) == left[a];
    }
    forall a | 0 <= a < |right| ensures right[a] == 1 || right[a] == out[a + (rank - |right|)]
    {
      var axis := a + (rank - |right|);
      assert out[axis] == BroadcastDim(left, right, rank, axis);
      assert DimFromRight(right, rank - 1 - axis) == right[a];
      assert DimFromRight(left, rank - 1 - axis) == DimFromRight(left, rank - 1 - axis);
    }
  }

  /** A bias as wide as the last dimension spreads over the whole shape. */
  lemma BiasSpreads(shape: Shape, bias: Shape)
    requires Positive(shape) && shape != [] && |bias| == 1 && bias[0] == shape[|shape| - 1]
    ensures BroadcastShape(shape, bias) == Some(shape)
  {
    forall offset: nat | offset < |shape|
      ensures DimFromRight(shape, offset) == DimFromRight(bias, offset) || DimFromRight(bias, offset) == 1
    {
    }
    assert BroadcastShape(shape, bias).value == shape;
  }

  /** Projecting onto the same shape reads the same cell. */
  lemma ProjectSelf(s: Shape, c: Coords)
    requires InBounds(s, c)
    ensures Project(c, s) == c
  {
  }
}
