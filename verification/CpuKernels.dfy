/** Pointers into tensor memory: an array, a starting element and a shape. */
module Views {
  import opened Basics
  import opened GraphIR
  import opened Shapes
  import opened Tensors

  /**
   TensorView / ConstTensorView. Several views may point into one array, which is how the
   runtime lays operands and results out in its arena.
   */
  datatype View = View(data: array<Scalar>, base: nat, shape: Shape, contiguous: bool)

  /** The memory behind the view exists and is addressable with 64-bit indices. */
  predicate Backed(v: View) {
    Positive(v.shape) && v.base + Count(v.shape) <= v.data.Length <= UINT64_MAX
  }

  function Cells(v: View): (n: nat)
    requires Backed(v)
    ensures n == Count(v.shape) > 0
  {
    CountPositive(v.shape);
    Count(v.shape)
  }

  /** The tensor a view currently denotes. */
  ghost function TensorOf(v: View): (t: Tensor)
    requires Backed(v)
    reads v.data
    ensures t.shape == v.shape
  {
    CountPositive(v.shape);
    RawTensor.Tensor(v.shape, v.data[v.base..v.base + Count(v.shape)])
  }

  ghost function TensorsOf(views: seq<View>): (r: seq<Tensor>)
    requires forall k | 0 <= k < |views| :: Backed(views[k])
    reads set k | 0 <= k < |views| :: views[k].data
    ensures |r| == |views|
    ensures forall k | 0 <= k < |r| :: r[k] == TensorOf(views[k])
  {
    if views == [] then [] else [TensorOf(views[0])] + TensorsOf(views[1..])
  }

  /** No element of `input` is an element of `output`. */
  predicate Apart(input: View, output: View)
    requires Backed(input) && Backed(output)
  {
    input.data != output.data
    || input.base + Count(input.shape) <= output.base
    || output.base + Count(output.shape) <= input.base
  }

  /** What a kernel may be given: existing memory, and inputs the output does not overlap. */
  predicate KernelViews(inputs: seq<View>, output: View) {
    && Backed(output)
    && (forall k | 0 <= k < |inputs| :: Backed(inputs[k]))
    && forall k | 0 <= k < |inputs| :: Apart(inputs[k], output)
  }

  /** Elements [base, base + |x|) of the array are those of `x`. */
  ghost predicate Segment(a: array<Scalar>, base: nat, x: seq<Scalar>)
    requires base + |x| <= a.Length
    reads a
  {
    forall p | base <= p < base + |x| :: a[p] == x[p - base]
  }

  /** Nothing outside [base, base + n) has been written. */
  twostate predicate OnlyRange(a: array<Scalar>, base: nat, n: nat)
    reads a
  {
    forall p | 0 <= p < a.Length && !(base <= p < base + n) :: a[p] == old(a[p])
  }

  predicate ApartRanges(a: array<Scalar>, base: nat, n: nat, b: array<Scalar>, start: nat, m: nat) {
    a != b || base + n <= start || start + m <= base
  }

  /** Nothing outside the output view has been written. */
  twostate predicate OnlyWrites(output: View)
    requires Backed(output)
    reads output.data
  {
    OnlyRange(output.data, output.base, Cells(output))
  }

  /** The memory behind the view holds the elements of `x`. */
  ghost predicate Holds(v: View, x: seq<Scalar>)
    requires Backed(v) && |x| == Count(v.shape)
    reads v.data
  {
    Segment(v.data, v.base, x)
  }

  /** The first n elements from `base` on are those of `x`. */
  ghost predicate SegmentBelow(a: array<Scalar>, base: nat, x: seq<Scalar>, n: nat)
    requires base + |x| <= a.Length && n <= |x|
    reads a
  {
    forall p | base <= p < base + n :: a[p] == x[p - base]
  }

  lemma SliceIs(s: seq<Scalar>, first: nat, part: seq<Scalar>)
    requires first + |part| <= |s| && forall i: nat | i < |part| :: s[first + i] == part[i]
    ensures s[first..first + |part|] == part
  {
  }

  /** A finished stretch followed by the next part is a longer finished stretch. */
  lemma SegmentExtends(a: array<Scalar>, base: nat, target: seq<Scalar>, first: nat, part: seq<Scalar>)
    requires first + |part| <= |target| && base + |target| <= a.Length
    requires target[first..first + |part|] == part
    requires SegmentBelow(a, base, target, first) && Segment(a, base + first, part)
    ensures SegmentBelow(a, base, target, first + |part|)
  {
    assert forall p | base + first <= p < base + first + |part| ::
      a[p] == part[p - (base + first)] == target[first..first + |part|][p - (base + first)] == target[p - base];
  }

  /** Part of what memory holds. */
  lemma SubSegment(a: array<Scalar>, base: nat, x: seq<Scalar>, first: nat, n: nat)
    requires base + |x| <= a.Length && Segment(a, base, x) && first + n <= |x|
    ensures Segment(a, base + first, x[first..first + n])
  {
  }

  lemma SegmentIsTensor(output: View, t: Tensor)
    requires Backed(output) && t.shape == output.shape && Segment(output.data, output.base, t.data)
    ensures TensorOf(output) == t
  {
    assert TensorOf(output).data == t.data;
  }
}

/** Elementwise and movement kernels of cpp/src/runtime/cpu_backend.cpp. */
module ElementwiseKernels {
  import opened Basics
  import opened GraphIR
  import opened Shapes
  import opened Tensors
  import opened Evaluator
  import opened TensorSizes
  import opened IndexArithmetic
  import opened Views

  /** `elementwise_binary` */
  method ElementwiseBinary(f: (Scalar, Scalar) -> Scalar, inputs: seq<View>, output: View) returns (s: Status)
    requires KernelViews(inputs, output)
    modifies output.data
    ensures OnlyWrites(output)
    ensures s == Success <==>
      |inputs| == 2 && BroadcastShape(inputs[0].shape, inputs[1].shape) == Some(output.shape)
    ensures s == Success ==>
      old(Binary(f, TensorOf(inputs[0]), TensorOf(inputs[1]))) == Some(TensorOf(output))
  {
    if |inputs| != 2 {
      return Failure(InvalidArgument);
    }
    var left, right := inputs[0], inputs[1];
    var expected := ComputeBroadcastShape(left.shape, right.shape);
    if expected != Some(output.shape) {
      return Failure(InvalidArgument);
    }
    var outputStrides := RowMajorStrides(output.shape);
    var leftStrides := RowMajorStrides(left.shape);
    var rightStrides := RowMajorStrides(right.shape);
    var count := CheckedTensorElementCount(output.shape);
    if outputStrides.Err? || leftStrides.Err? || rightStrides.Err? || count.Err? {
      return Failure(Overflow);
    }
    BroadcastOperands(left.shape, right.shape);
    ghost var target := Binary(f, TensorOf(left), TensorOf(right)).value;
    BinaryCombines(f, TensorOf(left), TensorOf(right));
    BinaryLoop(f, left, right, output, outputStrides.value, leftStrides.value, rightStrides.value,
               TensorOf(left), TensorOf(right), target.data);
    SegmentIsTensor(output, target);
    return Success;
  }

  /** `target` combines, cell by cell, the elements of x and y that broadcasting gathers. */
  ghost predicate Combines(f: (Scalar, Scalar) -> Scalar, x: Tensor, y: Tensor, shape: Shape, target: seq<Scalar>)
    requires Positive(shape) && |target| == Count(shape)
    requires BroadcastsTo(x.shape, shape) && BroadcastsTo(y.shape, shape)
  {
    forall i: nat {:trigger GatherOf(shape, x.shape, i)} | i < |target| ::
      target[i] == f(x.data[GatherOf(shape, x.shape, i)], y.data[GatherOf(shape, y.shape, i)])
  }

  lemma BinaryCombines(f: (Scalar, Scalar) -> Scalar, x: Tensor, y: Tensor)
    requires Binary(f, x, y).Some?
    ensures var out := Binary(f, x, y).value;
      && BroadcastsTo(x.shape, out.shape) && BroadcastsTo(y.shape, out.shape)
      && Combines(f, x, y, out.shape, out.data)
  {
    BroadcastOperands(x.shape, y.shape);
    var out := Binary(f, x, y).value;
    forall i: nat | i < |out.data|
      ensures out.data[i] == f(x.data[GatherOf(out.shape, x.shape, i)], y.data[GatherOf(out.shape, y.shape, i)])
    {
      var c := CoordinateOf(out.shape, i);
      ProjectInBounds(out.shape, x.shape, c);
      ProjectInBounds(out.shape, y.shape, c);
      assert out.data[i] == BinaryCell(f, x, y, c);
    }
  }

  method BinaryLoop(f: (Scalar, Scalar) -> Scalar, left: View, right: View, output: View,
                    outputStrides: seq<int>, leftStrides: seq<int>, rightStrides: seq<int>,
                    ghost x: Tensor, ghost y: Tensor, ghost target: seq<Scalar>)
    requires Backed(left) && Backed(right) && Backed(output) && Apart(left, output) && Apart(right, output)
    requires BroadcastsTo(left.shape, output.shape) && BroadcastsTo(right.shape, output.shape)
    requires outputStrides == Strides(output.shape)
    requires leftStrides == Strides(left.shape) && rightStrides == Strides(right.shape)
    requires |target| == Count(output.shape) && x.shape == left.shape && y.shape == right.shape
    requires Holds(left, x.data) && Holds(right, y.data) && Combines(f, x, y, output.shape, target)
    modifies output.data
    ensures OnlyWrites(output) && Segment(output.data, output.base, target)
  {
    hide BroadcastsTo, Strides, GatherOf;
    var count := Cells(output);
    for index := 0 to count
      invariant OnlyWrites(output)
      invariant Holds(left, x.data) && Holds(right, y.data)
      invariant SegmentBelow(output.data, output.base, target, index)
    {
      var l := ReadGathered(left, leftStrides, output.shape, outputStrides, index, x);
      var r := ReadGathered(right, rightStrides, output.shape, outputStrides, index, y);
      output.data[output.base + index] := f(l, r);
    }
  }

  /** The operand element that output element `index` reads. */
  method ReadGathered(input: View, inputStrides: seq<int>, shape: Shape, outputStrides: seq<int>, index: nat,
                      ghost x: Tensor)
    returns (value: Scalar)
    requires Backed(input) && Positive(shape) && index < Count(shape) && BroadcastsTo(input.shape, shape)
    requires outputStrides == Strides(shape) && inputStrides == Strides(input.shape)
    requires x.shape == input.shape && Holds(input, x.data)
    ensures value == x.data[GatherOf(shape, input.shape, index)]
  {
    var k := GatherIndex(index, shape, outputStrides, input.shape, inputStrides, 1);
    value := input.data[input.base + k];
  }

  /** Applies `f` to n consecutive elements. */
  method MapLoop(f: Scalar -> Scalar, source: array<Scalar>, start: nat, target: array<Scalar>, base: nat, n: nat,
                 ghost x: seq<Scalar>, ghost y: seq<Scalar>)
    requires start + n <= source.Length && base + n <= target.Length
    requires ApartRanges(source, start, n, target, base, n)
    requires |x| == |y| == n && Segment(source, start, x)
    requires forall i | 0 <= i < n :: y[i] == f(x[i])
    modifies target
    ensures OnlyRange(target, base, n) && Segment(target, base, y)
  {
    for index := 0 to n
      invariant OnlyRange(target, base, n) && Segment(source, start, x)
      invariant SegmentBelow(target, base, y, index)
    {
      assert y[index] == f(x[index]);
      target[base + index] := f(source[start + index]);
    }
  }

  /** std::copy_n */
  method CopyLoop(source: array<Scalar>, start: nat, target: array<Scalar>, base: nat, n: nat, ghost x: seq<Scalar>)
    requires start + n <= source.Length && base + n <= target.Length
    requires ApartRanges(source, start, n, target, base, n)
    requires |x| == n && Segment(source, start, x)
    modifies target
    ensures OnlyRange(target, base, n) && Segment(target, base, x)
  {
    for index := 0 to n
      invariant OnlyRange(target, base, n) && Segment(source, start, x)
      invariant SegmentBelow(target, base, x, index)
    {
      target[base + index] := source[start + index];
    }
  }

  /** `gelu` */
  method GeluInto(A: Arith, attributes: Attributes, inputs: seq<View>, output: View) returns (s: Status)
    requires KernelViews(inputs, output)
    modifies output.data
    ensures OnlyWrites(output)
    ensures s == Success <==> |inputs| == 1 && inputs[0].shape == output.shape && ExactGelu(attributes)
    ensures s == Success ==> old(Map(A.gelu, TensorOf(inputs[0]))) == TensorOf(output)
  {
    if |inputs| != 1 || inputs[0].shape != output.shape {
      return Failure(InvalidArgument);
    }
    if "approximate" in attributes && attributes["approximate"] != JString("none") {
      return Failure(Unsupported);
    }
    var input := inputs[0];
    ghost var x := TensorOf(input);
    ghost var target := Map(A.gelu, x);
    MapLoop(A.gelu, input.data, input.base, output.data, output.base, Cells(output), x.data, target.data);
    SegmentIsTensor(output, target);
    return Success;
  }

  /** `reshape`: the elements are copied in row-major order. */
  method CopyReshaped(inputs: seq<View>, output: View) returns (s: Status)
    requires KernelViews(inputs, output)
    modifies output.data
    ensures OnlyWrites(output)
    ensures s == Success <==> |inputs| == 1 && Count(inputs[0].shape) == Count(output.shape)
    ensures s == Success ==> old(ReshapeOf(TensorOf(inputs[0]), output.shape)) == Some(TensorOf(output))
  {
    if |inputs| != 1 {
      return Failure(InvalidArgument);
    }
    var input := inputs[0];
    var inputCount := CheckedTensorElementCount(input.shape);
    var outputCount := CheckedTensorElementCount(output.shape);
    if inputCount.Err? || outputCount.Err? || inputCount.value != outputCount.value {
      return Failure(InvalidArgument);
    }
    ghost var x := TensorOf(input);
    CopyLoop(input.data, input.base, output.data, output.base, inputCount.value, x.data);
    SegmentIsTensor(output, ReshapeOf(x, output.shape).value);
    return Success;
  }
}

/** The transpose kernel. */
module TransposeKernel {
  import opened Basics
  import opened GraphIR
  import opened Shapes
  import opened Tensors
  import opened Evaluator
  import opened TensorSizes
  import opened IndexArithmetic
  import opened Views

  /** Reads the permutation attribute: an array of `rank` distinct axes. */
  method ParsePermutation(attributes: Attributes, rank: nat) returns (r: Option<seq<int>>)
    ensures r.Some? ==> IntegerArrayOf(attributes, "permutation") == r && IsPermutation(r.value, rank)
    ensures r.None? && IntegerArrayOf(attributes, "permutation").Some? ==>
      !IsPermutation(IntegerArrayOf(attributes, "permutation").value, rank)
  {
    if "permutation" !in attributes || !attributes["permutation"].JArray? {
      return None;
    }
    var items := attributes["permutation"].items;
    IntegersLength(items);
    if |items| != rank {
      return None;
    }
    var permutation: seq<int> := [];
    var seen: set<int> := {};
    for k := 0 to |items|
      invariant |permutation| == k
      invariant forall a | 0 <= a < k :: items[a] == JInt(permutation[a])
      invariant forall a | 0 <= a < k :: 0 <= permutation[a] < rank && permutation[a] in seen
      invariant forall x <- seen :: x in permutation
      invariant forall a, b | 0 <= a < b < k :: permutation[a] != permutation[b]
    {
      if !items[k].JInt? {
        IntegersAt(items, k);
        return None;
      }
      var axis := items[k].integer;
      if axis < 0 || axis >= rank || axis in seen {
        BadAxis(items, permutation, k, rank);
        return None;
      }
      permutation := permutation + [axis];
      seen := seen + {axis};
    }
    IntegersComplete(items, permutation);
    return Some(permutation);
  }

  lemma {:induction false} IntegersLength(items: seq<Json>)
    ensures IntegersOf(items).Some? ==> |IntegersOf(items).value| == |items|
    ensures IntegersOf(items).Some? ==>
      forall k | 0 <= k < |items| :: items[k] == JInt(IntegersOf(items).value[k])
  {
    if items != [] {
      IntegersLength(items[1..]);
      if IntegersOf(items).Some? {
        forall k | 0 <= k < |items| ensures items[k] == JInt(IntegersOf(items).value[k]) {
          if k > 0 {
            assert items[k] == items[1..][k - 1];
          }
        }
      }
    }
  }

  lemma {:induction false} IntegersComplete(items: seq<Json>, values: seq<int>)
    requires |items| == |values| && forall k | 0 <= k < |items| :: items[k] == JInt(values[k])
    ensures IntegersOf(items) == Some(values)
  {
    if items != [] {
      IntegersComplete(items[1..], values[1..]);
      assert values == [values[0]] + values[1..];
    }
  }

  lemma IntegersAt(items: seq<Json>, k: nat)
    requires k < |items| && !items[k].JInt?
    ensures IntegersOf(items).None?
  {
    IntegersLength(items);
  }

  lemma BadAxis(items: seq<Json>, accepted: seq<int>, k: nat, rank: nat)
    requires k < |items| && |accepted| == k && items[k].JInt?
    requires forall a | 0 <= a < k :: items[a] == JInt(accepted[a])
    requires items[k].integer < 0 || items[k].integer >= rank || items[k].integer in accepted
    ensures IntegersOf(items).None? || !IsPermutation(IntegersOf(items).value, rank)
  {
    IntegersLength(items);
    if items[k].integer in accepted {
      var a :| 0 <= a < k && accepted[a] == items[k].integer;
      assert items[a] == items[k];
    }
  }

  predicate TransposeAccepts(attributes: Attributes, input: Shape, output: Shape) {
    var p := IntegerArrayOf(attributes, "permutation");
    p.Some? && IsPermutation(p.value, |input|) && output == Permute(input, p.value)
  }

  /** `transpose` */
  method TransposeInto(attributes: Attributes, inputs: seq<View>, output: View) returns (s: Status)
    requires KernelViews(inputs, output)
    modifies output.data
    ensures OnlyWrites(output)
    ensures s == Success <==> |inputs| == 1 && TransposeAccepts(attributes, inputs[0].shape, output.shape)
    ensures s == Success ==> old(TransposeOperation(attributes, TensorOf(inputs[0]))) == Some(TensorOf(output))
  {
    if |inputs| != 1 || |inputs[0].shape| != |output.shape| {
      return Failure(InvalidArgument);
    }
    var input := inputs[0];
    var parsed := ParsePermutation(attributes, |output.shape|);
    if parsed.None? {
      return Failure(InvalidArgument);
    }
    var permutation := parsed.value;
    for axis := 0 to |output.shape|
      invariant forall a | 0 <= a < axis :: output.shape[a] == input.shape[permutation[a]]
    {
      if output.shape[axis] != input.shape[permutation[axis]] {
        return Failure(InvalidArgument);
      }
    }
    assert output.shape == Permute(input.shape, permutation);
    var inputStrides := RowMajorStrides(input.shape);
    var outputStrides := RowMajorStrides(output.shape);
    var count := CheckedTensorElementCount(output.shape);
    if inputStrides.Err? || outputStrides.Err? || count.Err? {
      return Failure(Overflow);
    }
    TransposeLoop(permutation, input, output, inputStrides.value, outputStrides.value, TensorOf(input));
    return Success;
  }

  method TransposeLoop(permutation: seq<int>, input: View, output: View,
                       inputStrides: seq<int>, outputStrides: seq<int>, ghost x: Tensor)
    requires Backed(input) && Backed(output) && Apart(input, output)
    requires IsPermutation(permutation, |input.shape|) && output.shape == Permute(input.shape, permutation)
    requires inputStrides == Strides(input.shape) && outputStrides == Strides(output.shape)
    requires x.shape == input.shape && Holds(input, x.data)
    modifies output.data
    ensures OnlyWrites(output)
    ensures TensorOf(output) == TransposeOf(x, permutation).value
  {
    ghost var target := TransposeOf(x, permutation).value;
    var count := Cells(output);
    for index := 0 to count
      invariant OnlyWrites(output) && Holds(input, x.data)
      invariant SegmentBelow(output.data, output.base, target.data, index)
    {
      var k := PermutedIndex(index, input.shape, permutation, inputStrides, outputStrides, output.shape, x);
      output.data[output.base + index] := input.data[input.base + k];
    }
    SegmentIsTensor(output, target);
  }

  /** The inner loop over axes. */
  method PermutedIndex(index: nat, shape: Shape, p: seq<int>, inputStrides: seq<int>, outputStrides: seq<int>,
                       outputShape: Shape, ghost x: Tensor)
    returns (k: nat)
    requires Positive(shape) && IsPermutation(p, |shape|) && outputShape == Permute(shape, p)
    requires inputStrides == Strides(shape) && outputStrides == Strides(outputShape)
    requires index < Count(outputShape) && x.shape == shape
    ensures k < Count(shape)
    ensures TransposeOf(x, p).value.data[index] == x.data[k]
  {
    ghost var c := CoordinateOf(outputShape, index);
    forall axis | 0 <= axis < |outputShape|
      ensures outputStrides[axis] > 0 && c[axis] == (index / outputStrides[axis]) % outputShape[axis]
    {
      DecodeAxis(outputShape, index, axis);
    }
    var sum := PermutedLoop(index, outputShape, outputStrides, p, inputStrides, c);
    PermutedStrides(shape, p, c);
    UnpermuteInBounds(shape, c, p);
    EncodeBound(shape, Unpermute(c, p));
    TransposeData(x, p, index);
    k := sum;
  }

  lemma TransposeData(x: Tensor, p: seq<int>, index: nat)
    requires IsPermutation(p, |x.shape|) && index < Count(Permute(x.shape, p))
    ensures Positive(Permute(x.shape, p)) && InBounds(Permute(x.shape, p), Decode(Permute(x.shape, p), index))
    ensures InBounds(x.shape, Unpermute(Decode(Permute(x.shape, p), index), p))
    ensures TransposeOf(x, p).value.data[index] == At(x, Unpermute(Decode(Permute(x.shape, p), index), p))
  {
    var c := CoordinateOf(Permute(x.shape, p), index);
    UnpermuteInBounds(x.shape, c, p);
    assert TransposeOf(x, p).value.data[index] == TransposeCell(x, p, c);
  }

  method PermutedLoop(index: nat, outputShape: Shape, outputStrides: seq<int>, p: seq<int>, inputStrides: seq<int>,
                      ghost c: Coords)
    returns (sum: int)
    requires Positive(outputShape) && |c| == |outputShape| == |outputStrides| == |inputStrides|
    requires IsPermutation(p, |outputShape|)
    requires forall axis | 0 <= axis < |outputShape| ::
      outputStrides[axis] > 0 && c[axis] == (index / outputStrides[axis]) % outputShape[axis]
    ensures sum == StridedPrefix(c, Permute(inputStrides, p), |c|)
  {
    sum := 0;
    for axis := 0 to |outputShape|
      invariant sum == StridedPrefix(c, Permute(inputStrides, p), axis)
    {
      var coordinate := (index / outputStrides[axis]) % outputShape[axis];
      sum := sum + coordinate * inputStrides[p[axis]];
    }
  }
}
