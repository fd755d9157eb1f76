/** Checked element counts and byte sizes (cpp/src/runtime/tensor_storage.cpp, cpp/src/ir/shape.cpp). */
module TensorSizes {
  import opened Basics
  import opened GraphIR
  import opened Shapes
  import DivMod

  /** The guard `count > max / dimension` is exactly the overflow of the product. */
  lemma DivisionGuard(count: nat, dimension: nat, limit: nat)
    requires dimension > 0
    ensures count > limit / dimension <==> count * dimension > limit
  {
    var q := limit / dimension;
    DivMod.Recompose(limit, dimension);
    if count > q {
      DivMod.MulMonotone(q + 1, count, dimension);
    } else {
      DivMod.MulMonotone(count, q, dimension);
    }
  }

  lemma PrefixCountBound(s: Shape, k: nat)
    requires Positive(s) && k <= |s|
    ensures 1 <= Count(s[..k]) <= Count(s)
  {
    CountPositive(s[..k]);
    CountPositive(s[k..]);
    CountSplit(s, k);
    DivMod.MulMonotone(1, Count(s[k..]), Count(s[..k]));
  }

  /**
   `checked_tensor_element_count`: the running product never overflows unless the total does,
   so for positive dimensions the guard is an exact overflow test.
   */
  method CheckedTensorElementCount(shape: Shape) returns (r: Result<nat>)
    ensures r.Ok? <==> Positive(shape) && Count(shape) <= UINT64_MAX
    ensures r.Ok? ==> r.value == Count(shape)
    ensures Positive(shape) && r.Err? ==> r.code == Overflow
  {
    var count: nat := 1;
    for i := 0 to |shape|
      invariant forall a | 0 <= a < i :: shape[a] > 0
      invariant count == Count(shape[..i]) <= UINT64_MAX
    {
      if shape[i] <= 0 {
        return Err(InvalidArgument);
      }
      assert shape[..i + 1] == shape[..i] + [shape[i]];
      CountAppend(shape[..i], [shape[i]]);
      assert Count([shape[i]]) == shape[i];
      DivisionGuard(count, shape[i], UINT64_MAX);
      if count > UINT64_MAX / shape[i] {
        if Positive(shape) {
          PrefixCountBound(shape, i + 1);
        }
        return Err(Overflow);
      }
      count := count * shape[i];
    }
    assert shape[..|shape|] == shape;
    return Ok(count);
  }

  ghost function ByteSize(d: Descriptor): int {
    Count(d.shape) * ByteWidth(d.dtype)
  }

  /** The cast of a 64-bit dimension to an unsigned one. */
  function Unsigned(dimension: int): nat
    requires dimension >= INT64_MIN
  {
    if dimension < 0 then dimension + 0x1_0000_0000_0000_0000 else dimension
  }

  predicate IsSigned(s: Shape) {
    forall a | 0 <= a < |s| :: s[a] >= INT64_MIN
  }

  function UnsignedShape(s: Shape): (r: Shape)
    requires IsSigned(s)
    ensures |r| == |s|
  {
    seq(|s|, a requires 0 <= a < |s| => Unsigned(s[a]))
  }

  /** None of the running products exceeds 64 bits. */
  ghost predicate NoOverflow(s: Shape) {
    forall k | 0 <= k <= |s| :: Count(s[..k]) <= UINT64_MAX
  }

  lemma PositiveOverflow(s: Shape)
    requires Positive(s)
    ensures NoOverflow(s) <==> Count(s) <= UINT64_MAX
  {
    assert s[..|s|] == s;
    forall k | 0 <= k <= |s| ensures Count(s[..k]) <= Count(s) {
      PrefixCountBound(s, k);
    }
  }

  /** `Shape::element_count`, for any dimensions: exact on the running products of their unsigned casts. */
  method ElementCount(shape: Shape) returns (r: Result<nat>)
    requires IsSigned(shape)
    ensures r.Ok? <==> NoOverflow(UnsignedShape(shape))
    ensures r.Ok? ==> r.value == Count(UnsignedShape(shape)) <= UINT64_MAX
    ensures r.Err? ==> r.code == Overflow
  {
    ghost var u := UnsignedShape(shape);
    var count: nat := 1;
    for i := 0 to |shape|
      invariant forall k | 0 <= k <= i :: Count(u[..k]) <= UINT64_MAX
      invariant count == Count(u[..i])
    {
      var dimension := Unsigned(shape[i]);
      assert u[..i + 1] == u[..i] + [dimension];
      CountAppend(u[..i], [dimension]);
      assert Count([dimension]) == dimension;
      if dimension != 0 {
        DivisionGuard(count, dimension, UINT64_MAX);
        if count > UINT64_MAX / dimension {
          return Err(Overflow);
        }
      }
      count := count * dimension;
    }
    assert u[..|u|] == u;
    return Ok(count);
  }

  /**
   `TensorDescriptor::byte_size`. The loader admits positive shapes only; on these it fails exactly when the
   byte size does not fit.
   */
  method CheckedByteSize(d: Descriptor) returns (r: Result<nat>)
    requires IsSigned(d.shape)
    ensures r.Ok? <==>
      NoOverflow(UnsignedShape(d.shape)) && Count(UnsignedShape(d.shape)) * ByteWidth(d.dtype) <= UINT64_MAX
    ensures r.Ok? ==> r.value == Count(UnsignedShape(d.shape)) * ByteWidth(d.dtype)
    ensures r.Err? ==> r.code == Overflow
    ensures Positive(d.shape) ==> (r.Ok? <==> ByteSize(d) <= UINT64_MAX) && (r.Ok? ==> r.value == ByteSize(d) > 0)
  {
    if Positive(d.shape) {
      PositiveByteSize(d);
    }
    hide Count, NoOverflow, Positive;
    var count := ElementCount(d.shape);
    var width := ByteWidth(d.dtype);
    if count.Err? {
      return Err(count.code);
    }
    DivisionGuard(count.value, width, UINT64_MAX);
    if count.value > UINT64_MAX / width {
      return Err(Overflow);
    }
    return Ok(count.value * width);
  }

  lemma PositiveByteSize(d: Descriptor)
    requires Positive(d.shape)
    ensures UnsignedShape(d.shape) == d.shape && ByteSize(d) > 0
    ensures ByteSize(d) <= UINT64_MAX ==> NoOverflow(d.shape)
  {
    assert UnsignedShape(d.shape) == d.shape;
    CountPositive(d.shape);
    PositiveOverflow(d.shape);
    DivMod.MulMonotone(1, ByteWidth(d.dtype), Count(d.shape));
    DivMod.MulMonotone(1, Count(d.shape), ByteWidth(d.dtype));
  }

  /** The smallest multiple of the alignment that is not below `value`. */
  function AlignUp(value: nat, alignment: nat): (r: nat)
    requires alignment > 0
    ensures r % alignment == 0 && value <= r < value + alignment
  {
    var remainder := value % alignment;
    if remainder == 0 then value
    else
      DivMod.Recompose(value, alignment);
      var q := value / alignment;
      assert value + (alignment - remainder) == (q + 1) * alignment + 0;
      DivMod.QuotientRemainder(q + 1, 0, alignment);
      value + (alignment - remainder)
  }

  /** `align_up` with its overflow guard. */
  function CheckedAlignUp(value: nat, alignment: nat): (r: Result<nat>)
    requires alignment <= UINT64_MAX && value <= UINT64_MAX
    ensures r.Ok? <==> alignment > 0 && AlignUp(value, alignment) <= UINT64_MAX
    ensures r.Ok? ==> r.value == AlignUp(value, alignment)
    ensures r.Err? ==> r.code == if alignment == 0 then InvalidArgument else Overflow
  {
    if alignment == 0 then Err(InvalidArgument)
    else
      var remainder := value % alignment;
      if remainder == 0 then Ok(value) else CheckedAdd(value, alignment - remainder)
  }

  /** The positive powers of two. */
  predicate IsPowerOfTwo(value: nat) {
    value == 1 || (value > 1 && value % 2 == 0 && IsPowerOfTwo(value / 2))
  }
}
