/** The softmax kernel of cpp/src/runtime/cpu_backend.cpp: strided lanes, normalised in place. */
module SoftmaxKernel {
  import opened Basics
  import opened GraphIR
  import opened Shapes
  import opened Tensors
  import opened Evaluator
  import opened TensorSizes
  import opened IndexArithmetic
  import opened Views
  import DivMod

  // ----- the buffer as outer x size x inner -----

  /** A buffer seen as outer x size x inner elements around one axis. */
  datatype Axis = Axis(outer: nat, size: nat, inner: nat) {
    /** Element k of the lane (o, i). */
    function At(o: nat, k: nat, i: nat): nat { (o * size + k) * inner + i }

    predicate Within(o: nat, k: nat, i: nat) {
      o < outer && k < size && i < inner
    }
  }

  /** n is the number of elements. */
  predicate Holding(g: Axis, n: nat) {
    g.size > 0 && g.inner > 0 && n == g.outer * g.size * g.inner
  }

  lemma WithinBounds(g: Axis, n: nat, o: nat, k: nat, i: nat)
    requires Holding(g, n) && g.Within(o, k, i)
    ensures g.At(o, k, i) < n
  {
    DivMod.CellBound(o, k, g.outer, g.size);
    DivMod.CellBound(o * g.size + k, i, g.outer * g.size, g.inner);
  }

  /** Every element is in one lane. */
  lemma PlaceExists(g: Axis, n: nat, p: nat) returns (o: nat, k: nat, i: nat)
    requires Holding(g, n) && p < n
    ensures g.Within(o, k, i) && p == g.At(o, k, i)
    ensures i == p % g.inner && k == p / g.inner % g.size && o == p / g.inner / g.size
  {
    DivMod.QuotientBound(p, g.outer * g.size, g.inner);
    DivMod.Recompose(p, g.inner);
    var q := p / g.inner;
    DivMod.QuotientBound(q, g.outer, g.size);
    DivMod.Recompose(q, g.size);
    o, k, i := q / g.size, q % g.size, p % g.inner;
  }

  lemma PlaceIsUnique(g: Axis, n: nat, o: nat, k: nat, i: nat, p: nat)
    requires Holding(g, n) && g.Within(o, k, i) && p == g.At(o, k, i)
    ensures p / g.inner / g.size == o && p / g.inner % g.size == k && p % g.inner == i
  {
    DivMod.QuotientRemainder(o * g.size + k, i, g.inner);
    DivMod.QuotientRemainder(o, k, g.size);
  }

  /** The kernel's address arithmetic. */
  lemma KernelAddress(g: Axis, o: nat, k: nat, i: nat)
    ensures o * g.size * g.inner + i + k * g.inner == g.At(o, k, i)
  {
    assert (o * g.size + k) * g.inner == o * g.size * g.inner + k * g.inner;
  }

  // ----- lanes by number, in loop order -----

  /** Lane and place of every element, and the elements of every lane. */
  datatype Lanes = Lanes(laneOf: seq<nat>, indexOf: seq<nat>, at: seq<seq<nat>>)

  ghost predicate IsLanes(m: Lanes, n: nat, size: nat) {
    && |m.laneOf| == |m.indexOf| == n
    && (forall l {:trigger m.at[l]} | 0 <= l < |m.at| :: |m.at[l]| == size)
    && (forall p {:trigger m.laneOf[p]} {:trigger m.indexOf[p]} | 0 <= p < n ::
          m.laneOf[p] < |m.at| && m.indexOf[p] < size && m.at[m.laneOf[p]][m.indexOf[p]] == p)
    && forall l, k {:trigger m.at[l][k]} | 0 <= l < |m.at| && 0 <= k < size ::
         m.at[l][k] < n && m.laneOf[m.at[l][k]] == l && m.indexOf[m.at[l][k]] == k
  }

  /** Lanes given by functions that invert each other. */
  lemma BuildLanes(lane: nat -> nat, index: nat -> nat, element: (nat, nat) -> nat, n: nat, count: nat, size: nat)
    returns (m: Lanes)
    requires forall p: nat | p < n :: lane(p) < count && index(p) < size && element(lane(p), index(p)) == p
    requires forall l: nat, k: nat | l < count && k < size ::
      element(l, k) < n && lane(element(l, k)) == l && index(element(l, k)) == k
    ensures IsLanes(m, n, size) && |m.at| == count
    ensures forall l: nat, k: nat {:trigger m.at[l][k]} | l < count && k < size :: m.at[l][k] == element(l, k)
  {
    m := Lanes(seq(n, p requires 0 <= p < n => lane(p)), seq(n, p requires 0 <= p < n => index(p)),
               seq(count, l requires 0 <= l < count => seq(size, k requires 0 <= k < size => element(l, k))));
  }

  function LaneNumber(g: Axis, p: nat): nat
    requires g.size > 0 && g.inner > 0
  {
    DivMod.MulMonotone(0, p / g.inner / g.size, g.inner);
    p / g.inner / g.size * g.inner + p % g.inner
  }

  function Element(g: Axis, l: nat, k: nat): nat
    requires g.inner > 0
  {
    g.At(l / g.inner, k, l % g.inner)
  }

  lemma PlaceFacts(g: Axis, n: nat, count: nat, p: nat)
    requires Holding(g, n) && p < n && count == g.outer * g.inner
    ensures LaneNumber(g, p) < count && Element(g, LaneNumber(g, p), p / g.inner % g.size) == p
  {
    var o, k, i := PlaceExists(g, n, p);
    ElementOfLane(g, count, o, k, i, LaneNumber(g, p));
  }

  lemma ElementOfLane(g: Axis, count: nat, o: nat, k: nat, i: nat, l: nat)
    requires g.Within(o, k, i) && l == o * g.inner + i && count == g.outer * g.inner
    ensures l < count && Element(g, l, k) == g.At(o, k, i)
  {
    DivMod.CellBound(o, i, g.outer, g.inner);
    DivMod.QuotientRemainder(o, i, g.inner);
  }

  lemma ElementFacts(g: Axis, n: nat, count: nat, l: nat, k: nat)
    requires Holding(g, n) && count == g.outer * g.inner && l < count && k < g.size
    ensures Element(g, l, k) < n && LaneNumber(g, Element(g, l, k)) == l && Element(g, l, k) / g.inner % g.size == k
  {
    DivMod.QuotientBound(l, g.outer, g.inner);
    DivMod.Recompose(l, g.inner);
    WithinBounds(g, n, l / g.inner, k, l % g.inner);
    PlaceIsUnique(g, n, l / g.inner, k, l % g.inner, Element(g, l, k));
  }

  /** Lane (o, i) is lane number l = o * inner + i, and its elements are where the kernel looks. */
  ghost predicate LaneAt(g: Axis, n: nat, m: Lanes, o: nat, i: nat, l: nat) {
    && l < |m.at| && |m.at[l]| == g.size
    && Strided(m.at[l], o * g.size * g.inner + i, g.inner, n)
    && forall k | 0 <= k < g.size :: m.at[l][k] == g.At(o, k, i)
  }

  /** The lanes of an axis. */
  lemma LanesExist(g: Axis, n: nat, count: nat) returns (m: Lanes)
    requires Holding(g, n) && count == g.outer * g.inner
    ensures IsLanes(m, n, g.size) && |m.at| == count
    ensures forall l: nat, k: nat {:trigger m.at[l][k]} | l < count && k < g.size :: m.at[l][k] == Element(g, l, k)
  {
    forall p: nat | p < n ensures LaneNumber(g, p) < count && p / g.inner % g.size < g.size
      && Element(g, LaneNumber(g, p), p / g.inner % g.size) == p
    {
      PlaceFacts(g, n, count, p);
    }
    forall l: nat, k: nat | l < count && k < g.size
      ensures Element(g, l, k) < n && LaneNumber(g, Element(g, l, k)) == l && Element(g, l, k) / g.inner % g.size == k
    {
      ElementFacts(g, n, count, l, k);
    }
    m := BuildLanes((p: nat) => LaneNumber(g, p), (p: nat) => p / g.inner % g.size,
                    (l: nat, k: nat) => Element(g, l, k), n, count, g.size);
  }

  lemma LaneIsStrided(g: Axis, n: nat, m: Lanes, count: nat, o: nat, i: nat, l: nat)
    requires Holding(g, n) && o < g.outer && i < g.inner && l == o * g.inner + i && count == g.outer * g.inner
    requires IsLanes(m, n, g.size) && |m.at| == count
    requires forall l: nat, k: nat {:trigger m.at[l][k]} | l < count && k < g.size :: m.at[l][k] == Element(g, l, k)
    ensures LaneAt(g, n, m, o, i, l)
  {
    DivMod.CellBound(o, i, g.outer, g.inner);
    DivMod.QuotientRemainder(o, i, g.inner);
    forall k: nat | k < g.size ensures m.at[l][k] == g.At(o, k, i) {
      assert m.at[l][k] == Element(g, l, k);
    }
    StridedFrom(g, n, m, o, i, l);
  }

  lemma StridedFrom(g: Axis, n: nat, m: Lanes, o: nat, i: nat, l: nat)
    requires IsLanes(m, n, g.size) && l < |m.at| && forall k | 0 <= k < g.size :: m.at[l][k] == g.At(o, k, i)
    ensures Strided(m.at[l], o * g.size * g.inner + i, g.inner, n)
  {
    var first: nat := o * g.size * g.inner + i;
    forall k: nat | k < g.size ensures StrideAt(m.at[l], first, g.inner, k) {
      KernelAddress(g, o, k, i);
    }
    forall j: nat, k: nat | j < k < g.size ensures m.at[l][j] != m.at[l][k] {
      assert m.indexOf[m.at[l][j]] == j;
    }
  }

  // ----- one lane -----

  /** The elements at the listed places are those of x. */
  ghost predicate Gathers(a: array<Scalar>, base: nat, at: seq<nat>, x: seq<Scalar>, n: nat)
    requires n <= |at| == |x|
    reads a
  {
    forall k | 0 <= k < n :: base + at[k] < a.Length && a[base + at[k]] == x[k]
  }

  /** Nothing but the listed places has been written. */
  twostate predicate OnlyAt(a: array<Scalar>, base: nat, at: seq<nat>)
    reads a
  {
    forall p {:trigger a[p]} | 0 <= p < a.Length && p - base !in at :: a[p] == old(a[p])
  }

  predicate StrideAt(at: seq<nat>, first: nat, inner: nat, k: nat)
    requires k < |at|
  {
    at[k] == first + k * inner
  }

  /** The listed places are distinct, evenly spaced, and inside n elements. */
  ghost predicate Strided(at: seq<nat>, first: nat, inner: nat, n: nat) {
    && (forall k: nat {:trigger StrideAt(at, first, inner, k)} | k < |at| :: StrideAt(at, first, inner, k))
    && (forall k | 0 <= k < |at| :: at[k] < n)
    && forall j, k | 0 <= j < k < |at| :: at[j] != at[k]
  }

  method MaximumLoop(A: Arith, source: array<Scalar>, start: nat, size: nat, inner: nat,
                     ghost at: seq<nat>, ghost first: nat, place: nat, ghost n: nat, ghost x: seq<Scalar>)
    returns (maximum: Scalar)
    requires |at| == |x| == size && place == start + first && Strided(at, first, inner, n)
    requires Gathers(source, start, at, x, size)
    ensures maximum == MaximumOf(A, x, size)
  {
    maximum := A.negativeInfinity;
    for k := 0 to size
      invariant maximum == MaximumOf(A, x, k)
    {
      assert StrideAt(at, first, inner, k);
      maximum := A.maximum(maximum, source[place + k * inner]);
    }
  }

  /** Stores the shifted exponentials and adds them up. */
  method ExponentialLoop(A: Arith, source: array<Scalar>, start: nat, from: nat, target: array<Scalar>, base: nat,
                         into: nat, size: nat, inner: nat, maximum: Scalar,
                         ghost at: seq<nat>, ghost first: nat, ghost n: nat, ghost x: seq<Scalar>,
                         ghost shifted: seq<Scalar>)
    returns (sum: Scalar)
    requires |at| == |x| == |shifted| == size
    requires forall k | 0 <= k < size :: shifted[k] == Shifted(A, x[k], maximum)
    requires from == start + first && into == base + first && Strided(at, first, inner, n)
    requires start + n <= source.Length && base + n <= target.Length
    requires ApartRanges(source, start, n, target, base, n) && Gathers(source, start, at, x, size)
    modifies target
    ensures OnlyAt(target, base, at)
    ensures sum == SumOfShifted(A, x, maximum, size)
    ensures Gathers(target, base, at, shifted, size)
  {
    sum := A.zero;
    for k := 0 to size
      invariant OnlyAt(target, base, at) && Gathers(source, start, at, x, size)
      invariant sum == SumOfShifted(A, x, maximum, k)
      invariant Gathers(target, base, at, shifted, k)
    {
      assert StrideAt(at, first, inner, k);
      var offset := k * inner;
      var exponential := A.exp(A.sub(source[from + offset], maximum));
      StoreNext(target, base, into + offset, exponential, at, n, k, shifted);
      sum := A.add(sum, exponential);
    }
  }

  /** Stores the k-th of the listed elements. */
  method StoreNext(target: array<Scalar>, base: nat, place: nat, value: Scalar, ghost at: seq<nat>, ghost n: nat,
                   ghost k: nat, ghost x: seq<Scalar>)
    requires k < |at| == |x| && place == base + at[k] && value == x[k]
    requires (forall j | 0 <= j < |at| :: at[j] < n) && forall i, j | 0 <= i < j < |at| :: at[i] != at[j]
    requires base + n <= target.Length && Gathers(target, base, at, x, k)
    modifies target
    ensures forall p | 0 <= p < target.Length && p != place :: target[p] == old(target[p])
    ensures Gathers(target, base, at, x, k + 1)
  {
    target[place] := value;
  }

  method DivideLoop(A: Arith, target: array<Scalar>, base: nat, into: nat, size: nat, inner: nat, sum: Scalar,
                    ghost at: seq<nat>, ghost first: nat, ghost n: nat, ghost x: seq<Scalar>, ghost y: seq<Scalar>)
    requires |at| == |x| == |y| == size && into == base + first && Strided(at, first, inner, n)
    requires base + n <= target.Length && Gathers(target, base, at, x, size)
    requires forall k | 0 <= k < size :: y[k] == A.div(x[k], sum)
    modifies target
    ensures OnlyAt(target, base, at) && Gathers(target, base, at, y, size)
  {
    for k := 0 to size
      invariant OnlyAt(target, base, at) && Gathers(target, base, at, y, k)
      invariant forall j | k <= j < size :: target[base + at[j]] == x[j]
    {
      assert StrideAt(at, first, inner, k);
      assert y[k] == A.div(x[k], sum);
      target[into + k * inner] := A.div(target[into + k * inner], sum);
    }
  }

  ghost function SoftmaxLane(A: Arith, x: seq<Scalar>): (r: seq<Scalar>)
    ensures |r| == |x|
  {
    seq(|x|, k requires 0 <= k < |x| => SoftmaxAt(A, x, k))
  }

  /** The three loops over one lane. */
  method LaneInto(A: Arith, source: array<Scalar>, start: nat, target: array<Scalar>, base: nat, first: nat,
                  size: nat, inner: nat, ghost at: seq<nat>, ghost n: nat, ghost x: seq<Scalar>)
    requires |at| == |x| == size && Strided(at, first, inner, n)
    requires start + n <= source.Length && base + n <= target.Length
    requires ApartRanges(source, start, n, target, base, n) && Gathers(source, start, at, x, size)
    modifies target
    ensures OnlyAt(target, base, at) && Gathers(target, base, at, SoftmaxLane(A, x), size)
  {
    var maximum := MaximumLoop(A, source, start, size, inner, at, first, start + first, n, x);
    ghost var shifted := seq(size, k requires 0 <= k < size => Shifted(A, x[k], maximum));
    var sum := ExponentialLoop(A, source, start, start + first, target, base, base + first, size, inner, maximum,
                               at, first, n, x, shifted);
    DivideLoop(A, target, base, base + first, size, inner, sum, at, first, n, shifted, SoftmaxLane(A, x));
  }

  // ----- all lanes -----

  /** The first `count` lanes hold the elements of `target`. */
  ghost predicate LanesDone(m: Lanes, a: array<Scalar>, base: nat, target: seq<Scalar>, count: nat)
    requires |target| == |m.laneOf| && base + |target| <= a.Length
    reads a
  {
    forall p {:trigger a[p]} | base <= p < base + |target| :: m.laneOf[p - base] < count ==> a[p] == target[p - base]
  }

  /** The elements of x at the listed places. */
  ghost function Picked(x: seq<Scalar>, at: seq<nat>): (r: seq<Scalar>)
    requires forall k | 0 <= k < |at| :: at[k] < |x|
    ensures |r| == |at|
  {
    seq(|at|, k requires 0 <= k < |at| => x[at[k]])
  }

  /** `target` is, lane by lane, the softmax of x. */
  ghost predicate LanewiseSoftmax(A: Arith, m: Lanes, size: nat, x: seq<Scalar>, target: seq<Scalar>)
    requires IsLanes(m, |x|, size) && |x| == |target|
  {
    forall l, k {:trigger m.at[l][k]} | 0 <= l < |m.at| && 0 <= k < size ::
      target[m.at[l][k]] == SoftmaxAt(A, Picked(x, m.at[l]), k)
  }

  /** The axis of a shape. */
  function AxisOf(shape: Shape, axis: nat): (g: Axis)
    requires Positive(shape) && axis < |shape|
  {
    CountPositive(shape[..axis]);
    CountPositive(shape[axis + 1..]);
    Axis(Count(shape[..axis]), shape[axis], Count(shape[axis + 1..]))
  }

  lemma AxisCells(shape: Shape, axis: nat, block: nat)
    requires Positive(shape) && axis < |shape| && block == AxisOf(shape, axis).size * AxisOf(shape, axis).inner
    ensures Count(shape) >= 0 && Holding(AxisOf(shape, axis), Count(shape))
    ensures block > 0 && Count(shape) / block == AxisOf(shape, axis).outer
  {
    CountPositive(shape);
    CountSplit(shape, axis);
    assert shape[axis..][1..] == shape[axis + 1..];
    assert Count(shape[axis..]) == block;
    CountPositive(shape[axis + 1..]);
    CountPositive(shape[axis..]);
    CountPositive(shape[..axis]);
    var outer: nat := Count(shape[..axis]);
    Associate(outer, shape[axis], Count(shape[axis + 1..]));
    DivMod.QuotientRemainder(outer, 0, block);
  }

  lemma Associate(a: int, b: int, c: int)
    ensures a * (b * c) == a * b * c
  {
  }

  /** Linear index of a coordinate, split around one axis. */
  lemma AxisIndex(shape: Shape, c: Coords, axis: nat, o: int, i: int)
    requires Positive(shape) && axis < |shape| && InBounds(shape, c)
    requires o == Encode(shape[..axis], c[..axis]) && i == Encode(shape[axis + 1..], c[axis + 1..])
    ensures o >= 0 && i >= 0 && AxisOf(shape, axis).Within(o, c[axis], i)
    ensures Encode(shape, c) == AxisOf(shape, axis).At(o, c[axis], i)
  {
    EncodeBound(shape[..axis], c[..axis]);
    EncodeBound(shape[axis + 1..], c[axis + 1..]);
    SplitEncode(shape, c, axis);
    AxisPlace(AxisOf(shape, axis), o, c[axis], i, Encode(shape, c));
  }

  lemma AxisPlace(g: Axis, o: int, k: int, i: int, place: int)
    requires o >= 0 && k >= 0 && i >= 0 && place == o * (g.size * g.inner) + (k * g.inner + i)
    ensures place == g.At(o, k, i)
  {
    Regroup(o, g.size, g.inner, k, i);
  }

  lemma SplitEncode(shape: Shape, c: Coords, axis: nat)
    requires |c| == |shape| && axis < |shape|
    ensures Encode(shape, c) == Encode(shape[..axis], c[..axis]) * (shape[axis] * Count(shape[axis + 1..]))
                                + (c[axis] * Count(shape[axis + 1..]) + Encode(shape[axis + 1..], c[axis + 1..]))
  {
    assert shape == shape[..axis] + shape[axis..] && c == c[..axis] + c[axis..];
    EncodeAppend(shape[..axis], shape[axis..], c[..axis], c[axis..]);
    assert shape[axis..][1..] == shape[axis + 1..] && c[axis..][1..] == c[axis + 1..];
  }

  lemma Regroup(o: int, size: int, inner: int, k: int, i: int)
    ensures o * (size * inner) + (k * inner + i) == (o * size + k) * inner + i
  {
  }

  /** Every lane of every axis position is numbered. */
  ghost predicate AllLanesAt(g: Axis, n: nat, m: Lanes) {
    forall o: nat, i: nat {:trigger NumberOf(g, o, i)} | o < g.outer && i < g.inner ::
      LaneAt(g, n, m, o, i, NumberOf(g, o, i))
  }

  function NumberOf(g: Axis, o: nat, i: nat): nat {
    o * g.inner + i
  }

  /** The reference softmax is the softmax of every lane. */
  lemma SoftmaxIsLanewise(A: Arith, X: Tensor, axis: nat, m: Lanes)
    requires axis < |X.shape| && IsLanes(m, |X.data|, X.shape[axis])
    requires AllLanesAt(AxisOf(X.shape, axis), |X.data|, m)
    ensures LanewiseSoftmax(A, m, X.shape[axis], X.data, SoftmaxOf(A, X, axis).data)
  {
    forall l, k | 0 <= l < |m.at| && 0 <= k < X.shape[axis]
      ensures SoftmaxOf(A, X, axis).data[m.at[l][k]] == SoftmaxAt(A, Picked(X.data, m.at[l]), k)
    {
      SoftmaxElement(A, X, axis, m, l, k);
    }
  }

  lemma SoftmaxElement(A: Arith, X: Tensor, axis: nat, m: Lanes, l: nat, k: nat)
    requires axis < |X.shape| && IsLanes(m, |X.data|, X.shape[axis])
    requires AllLanesAt(AxisOf(X.shape, axis), |X.data|, m)
    requires l < |m.at| && k < X.shape[axis]
    ensures SoftmaxOf(A, X, axis).data[m.at[l][k]] == SoftmaxAt(A, Picked(X.data, m.at[l]), k)
  {
    var p := m.at[l][k];
    var c := CoordinateOf(X.shape, p);
    EncodeDecode(X.shape, p);
    LaneCoordinate(X, axis, c, l, k, m);
    assert Lane(X, c, axis) == Picked(X.data, m.at[l]);
  }

  /** The coordinate of element k of lane l, and of the other elements of the lane. */
  lemma LaneCoordinate(X: Tensor, axis: nat, c: Coords, l: nat, k: nat, m: Lanes)
    requires axis < |X.shape| && IsLanes(m, |X.data|, X.shape[axis])
    requires AllLanesAt(AxisOf(X.shape, axis), |X.data|, m)
    requires l < |m.at| && k < X.shape[axis] && InBounds(X.shape, c) && Encode(X.shape, c) == m.at[l][k]
    ensures c[axis] == k
    ensures forall j | 0 <= j < X.shape[axis] :: Lane(X, c, axis)[j] == X.data[m.at[l][j]]
  {
    var g := AxisOf(X.shape, axis);
    var o, i := Encode(X.shape[..axis], c[..axis]), Encode(X.shape[axis + 1..], c[axis + 1..]);
    AxisIndex(X.shape, c, axis, o, i);
    var number := NumberOf(g, o, i);
    assert LaneAt(g, |X.data|, m, o, i, number);
    assert m.at[number][c[axis]] == m.at[l][k];
    forall j | 0 <= j < g.size ensures Lane(X, c, axis)[j] == X.data[m.at[l][j]] {
      var d := c[axis := j];
      assert d[..axis] == c[..axis] && d[axis + 1..] == c[axis + 1..];
      AxisIndex(X.shape, d, axis, o, i);
      assert m.at[number][j] == g.At(o, j, i);
    }
  }

  /** One lane of the buffer. */
  method LaneStep(A: Arith, input: View, output: View, size: nat, inner: nat, first: nat,
                  ghost m: Lanes, ghost l: nat, ghost x: seq<Scalar>, ghost target: seq<Scalar>)
    requires Backed(input) && Backed(output) && Apart(input, output) && input.shape == output.shape
    requires |x| == |target| == Count(output.shape) && Holds(input, x)
    requires IsLanes(m, |x|, size) && l < |m.at| && Strided(m.at[l], first, inner, |x|)
    requires LanewiseSoftmax(A, m, size, x, target)
    requires LanesDone(m, output.data, output.base, target, l)
    modifies output.data
    ensures OnlyWrites(output) && LanesDone(m, output.data, output.base, target, l + 1)
  {
    ghost var at, lane := m.at[l], Picked(x, m.at[l]);
    OtherLanes(m, |x|, size, l);
    LaneInto(A, input.data, input.base, output.data, output.base, first, size, inner, at, |x|, lane);
    LaneFinished(A, output.data, output.base, m, l, size, x, target);
  }

  lemma LaneFinished(A: Arith, a: array<Scalar>, base: nat, m: Lanes, l: nat, size: nat,
                     x: seq<Scalar>, target: seq<Scalar>)
    requires IsLanes(m, |x|, size) && |x| == |target| && l < |m.at| && base + |x| <= a.Length
    requires LanewiseSoftmax(A, m, size, x, target) && LanesDone(m, a, base, target, l)
    requires Gathers(a, base, m.at[l], SoftmaxLane(A, Picked(x, m.at[l])), size)
    ensures LanesDone(m, a, base, target, l + 1)
  {
    forall p | base <= p < base + |target| && m.laneOf[p - base] == l ensures a[p] == target[p - base] {
      var k := m.indexOf[p - base];
      assert m.at[l][k] == p - base;
      assert target[m.at[l][k]] == SoftmaxLane(A, Picked(x, m.at[l]))[k];
    }
  }

  lemma OtherLanes(m: Lanes, n: nat, size: nat, l: nat)
    requires IsLanes(m, n, size) && l < |m.at|
    ensures forall p {:trigger m.laneOf[p]} | 0 <= p < n && m.laneOf[p] != l :: p !in m.at[l]
  {
    forall p: nat | p < n && m.laneOf[p] != l ensures p !in m.at[l] {
      NotInLane(m, n, size, l, p);
    }
  }

  lemma NotInLane(m: Lanes, n: nat, size: nat, l: nat, p: nat)
    requires IsLanes(m, n, size) && l < |m.at| && p < n && m.laneOf[p] != l
    ensures p !in m.at[l]
  {
    forall k | 0 <= k < |m.at[l]| ensures m.at[l][k] != p {
      assert m.laneOf[m.at[l][k]] == l;
    }
  }

  /** The loop over the lanes of one outer position. */
  method InnerLoop(A: Arith, input: View, output: View, g: Axis, outerIndex: nat, ghost m: Lanes, ghost begin: nat,
                   ghost x: seq<Scalar>, ghost target: seq<Scalar>)
    requires Backed(input) && Backed(output) && Apart(input, output) && input.shape == output.shape
    requires |x| == |target| == Count(output.shape) && Holds(input, x)
    requires IsLanes(m, |x|, g.size) && AllLanesAt(g, |x|, m)
    requires outerIndex < g.outer && begin == outerIndex * g.inner
    requires LanewiseSoftmax(A, m, g.size, x, target)
    requires LanesDone(m, output.data, output.base, target, begin)
    modifies output.data
    ensures OnlyWrites(output) && LanesDone(m, output.data, output.base, target, begin + g.inner)
  {
    for innerIndex := 0 to g.inner
      invariant OnlyWrites(output) && Holds(input, x)
      invariant LanesDone(m, output.data, output.base, target, begin + innerIndex)
    {
      LaneStart(g, |x|, m, outerIndex, innerIndex, begin + innerIndex);
      var base := outerIndex * g.size * g.inner + innerIndex;
      LaneStep(A, input, output, g.size, g.inner, base, m, begin + innerIndex, x, target);
    }
  }

  lemma LaneStart(g: Axis, n: nat, m: Lanes, o: nat, i: nat, l: nat)
    requires AllLanesAt(g, n, m) && o < g.outer && i < g.inner && l == o * g.inner + i
    ensures l < |m.at| && o * g.size * g.inner + i >= 0
    ensures Strided(m.at[l], o * g.size * g.inner + i, g.inner, n)
  {
    assert LaneAt(g, n, m, o, i, NumberOf(g, o, i));
  }

  /** The loop over outer positions. */
  method LaneLoop(A: Arith, input: View, output: View, g: Axis, ghost m: Lanes,
                  ghost x: seq<Scalar>, ghost target: seq<Scalar>)
    requires Backed(input) && Backed(output) && Apart(input, output) && input.shape == output.shape
    requires |x| == |target| == Count(output.shape) && Holds(input, x)
    requires IsLanes(m, |x|, g.size) && |m.at| == g.outer * g.inner && AllLanesAt(g, |x|, m)
    requires LanewiseSoftmax(A, m, g.size, x, target)
    modifies output.data
    ensures OnlyWrites(output) && Segment(output.data, output.base, target)
  {
    ghost var l: nat := 0;
    for outerIndex := 0 to g.outer
      invariant l == outerIndex * g.inner
      invariant OnlyWrites(output) && Holds(input, x)
      invariant LanesDone(m, output.data, output.base, target, l)
    {
      InnerLoop(A, input, output, g, outerIndex, m, l, x, target);
      l := l + g.inner;
    }
  }

  lemma LanesOfShape(shape: Shape, axis: nat) returns (m: Lanes)
    requires Positive(shape) && axis < |shape|
    ensures Count(shape) >= 0 && IsLanes(m, Count(shape), shape[axis])
    ensures |m.at| == AxisOf(shape, axis).outer * AxisOf(shape, axis).inner
    ensures AllLanesAt(AxisOf(shape, axis), Count(shape), m)
  {
    var g := AxisOf(shape, axis);
    CountPositive(shape);
    AxisCells(shape, axis, g.size * g.inner);
    m := LanesExist(g, Count(shape), g.outer * g.inner);
    forall o: nat, i: nat | o < g.outer && i < g.inner
      ensures LaneAt(g, Count(shape), m, o, i, NumberOf(g, o, i))
    {
      LaneIsStrided(g, Count(shape), m, g.outer * g.inner, o, i, NumberOf(g, o, i));
    }
  }

  /** The inner size: the product of the dimensions after the axis. */
  method InnerSize(shape: Shape, axis: nat) returns (inner: nat)
    requires Positive(shape) && axis < |shape|
    ensures inner == Count(shape[axis + 1..])
  {
    inner := 1;
    for index := axis + 1 to |shape|
      invariant inner == Count(shape[axis + 1..index])
    {
      assert shape[axis + 1..index + 1] == shape[axis + 1..index] + [shape[index]];
      CountAppend(shape[axis + 1..index], [shape[index]]);
      assert [shape[index]][1..] == [];
      assert Count([shape[index]]) == shape[index];
      CountPositive(shape[axis + 1..index]);
      DivMod.MulMonotone(0, inner, shape[index]);
      inner := inner * shape[index];
    }
    assert shape[axis + 1..|shape|] == shape[axis + 1..];
  }

  /** The checks of `softmax`. */
  predicate SoftmaxAccepts(attributes: Attributes, input: Shape, output: Shape) {
    && input == output && output != []
    && IntegerOf(attributes, "axis").Some?
    && -|output| <= IntegerOf(attributes, "axis").value < |output|
  }

  /** `softmax` */
  method SoftmaxInto(A: Arith, attributes: Attributes, inputs: seq<View>, output: View) returns (s: Status)
    requires KernelViews(inputs, output)
    modifies output.data
    ensures OnlyWrites(output)
    ensures s == Success <==> |inputs| == 1 && SoftmaxAccepts(attributes, inputs[0].shape, output.shape)
    ensures s == Success ==> old(SoftmaxOperation(A, attributes, TensorOf(inputs[0]))) == Some(TensorOf(output))
  {
    if |inputs| != 1 || inputs[0].shape != output.shape || output.shape == [] {
      return Failure(InvalidArgument);
    }
    if "axis" !in attributes || !attributes["axis"].JInt? {
      return Failure(InvalidArgument);
    }
    var axis := attributes["axis"].integer;
    if axis < 0 {
      axis := axis + |output.shape|;
    }
    if axis < 0 || axis >= |output.shape| {
      return Failure(InvalidArgument);
    }
    var count := CheckedTensorElementCount(output.shape);
    if count.Err? {
      return Failure(Overflow);
    }
    var inner := InnerSize(output.shape, axis);
    var axisSize := output.shape[axis];
    AxisCells(output.shape, axis, axisSize * inner);
    ghost var m := LanesOfShape(output.shape, axis);
    var outer := count.value / (axisSize * inner);
    ghost var X := TensorOf(inputs[0]);
    SoftmaxIsLanewise(A, X, axis, m);
    ghost var target := SoftmaxOf(A, X, axis);
    LaneLoop(A, inputs[0], output, Axis(outer, axisSize, inner), m, X.data, target.data);
    SegmentIsTensor(output, target);
    return Success;
  }
}
