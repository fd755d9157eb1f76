/** Result values shared by every component, and the 64-bit unsigned arithmetic the C++ code uses. */
module Basics {

  datatype Option<+T> = None | Some(value: T)

  /** The status codes of cpp/include/forgeir/core/status.hpp that the modelled code returns. */
  datatype StatusCode =
    | InvalidArgument
    | NotFound
    | FailedPrecondition
    | Unsupported
    | Overflow
    | Internal

  /** Result<T> of the C++ code. The diagnostic text of an error is not modelled, only its code. */
  datatype Result<+T> = Ok(value: T) | Err(code: StatusCode)

  datatype Status = Success | Failure(code: StatusCode)

  const UINT64_MAX: int := 0xFFFF_FFFF_FFFF_FFFF
  const INT64_MAX: int := 0x7FFF_FFFF_FFFF_FFFF
  const INT64_MIN: int := -0x8000_0000_0000_0000

  /** Addition with the overflow guard written as `left > max - right`. */
  function CheckedAdd(left: nat, right: nat): (r: Result<nat>)
    requires left <= UINT64_MAX && right <= UINT64_MAX
    ensures r.Ok? <==> left + right <= UINT64_MAX
    ensures r.Ok? ==> r.value == left + right
  {
    if left > UINT64_MAX - right then Err(Overflow) else Ok(left + right)
  }

  function Max(a: int, b: int): int {
    if a >= b then a else b
  }

  function Min(a: int, b: int): int {
    if a <= b then a else b
  }
}

/** The few facts about division the index arithmetic needs, each proved once. */
module DivMod {

  /** (x n + e) m = x (n m) + e m */
  lemma Distribute(x: int, n: int, e: int, m: int)
    ensures (x * n + e) * m == x * (n * m) + e * m
  {
    var y := x * n;
    assert (y + e) * m == y * m + e * m;
    assert (x * n) * m == x * (n * m);
  }

  lemma MulMonotone(a: int, b: int, c: nat)
    requires a <= b
    ensures a * c <= b * c
  {
  }

  /** Quotient and remainder are the only pair with 0 <= r < d. */
  lemma QuotientRemainder(q: int, r: int, d: int)
    requires 0 <= r < d
    ensures (q * d + r) / d == q
    ensures (q * d + r) % d == r
  {
    var x := q * d + r;
    var k := x / d - q;
    assert k * d == (x / d) * d - q * d;
    assert k * d == r - x % d;
    if k >= 1 {
      MulMonotone(1, k, d);
    } else if k <= -1 {
      MulMonotone(k, -1, d);
    }
  }

  lemma Recompose(x: int, d: int)
    requires d > 0
    ensures x == (x / d) * d + x % d
    ensures 0 <= x % d < d
  {
  }

  /** A cell of a rows x columns grid has an index below rows * columns. */
  lemma CellBound(row: nat, column: nat, rows: nat, columns: nat)
    requires row < rows && column < columns
    ensures 0 <= row * columns + column < rows * columns
  {
    MulMonotone(row + 1, rows, columns);
  }

  lemma QuotientBound(x: nat, a: nat, b: nat)
    requires x < a * b
    ensures b > 0 && x / b < a
  {
    assert b > 0;
    Recompose(x, b);
    if x / b >= a {
      MulMonotone(a, x / b, b);
    }
  }

  /** Quotient and remainder of an index below n * d. */
  lemma Split(x: nat, n: nat, d: nat) returns (q: nat, r: nat)
    requires d > 0 && x < n * d
    ensures q == x / d && r == x % d
    ensures q < n && r < d
  {
    QuotientBound(x, n, d);
    Recompose(x, d);
    q, r := x / d, x % d;
  }

  lemma DivDiv(x: nat, a: nat, b: nat)
    requires a > 0 && b > 0
    ensures a * b > 0
    ensures x / (a * b) == (x / a) / b
    ensures (x % (a * b)) / a == (x / a) % b
    ensures (x % (a * b)) % a == x % a
  {
    MulMonotone(1, a, b);
    Recompose(x, a);
    var q := x / a;
    Recompose(q, b);
    var r := (q % b) * a + x % a;
    CellBound(q % b, x % a, b, a);
    assert b * a == a * b;
    assert (q / b) * (a * b) == (q / b) * b * a;
    assert x == (q / b) * (a * b) + r by {
      assert q * a == ((q / b) * b + q % b) * a;
      assert ((q / b) * b + q % b) * a == (q / b) * b * a + (q % b) * a;
    }
    QuotientRemainder(q / b, r, a * b);
    QuotientRemainder(q % b, x % a, a);
  }
}

/** Distinct numbers below a bound: how many there can be, and that n of them are all of them. */
module Counting {

  ghost predicate Distinct(s: seq<nat>) {
    forall i, j | 0 <= i < j < |s| :: s[i] != s[j]
  }

  function Elements(s: seq<nat>): set<nat> {
    set x | x in s
  }

  lemma DistinctBound(s: seq<nat>, n: nat)
    requires Distinct(s) && forall k | 0 <= k < |s| :: s[k] < n
    ensures |s| <= n
    ensures |s| == n ==> forall i: nat | i < n :: i in s
  {
    ElementsSize(s);
    SubsetSize(Elements(s), InitialSegment(n));
    if |s| == n {
      forall i: nat | i < n ensures i in s {
        assert i in InitialSegment(n);
        assert i in Elements(s);
      }
    }
  }

  ghost function InitialSegment(n: nat): (s: set<nat>)
    ensures |s| == n
    ensures forall i: nat :: i in s <==> i < n
  {
    if n == 0 then {} else InitialSegment(n - 1) + {n - 1}
  }

  lemma {:induction false} ElementsSize(s: seq<nat>)
    requires Distinct(s)
    ensures |Elements(s)| == |s|
  {
    if s != [] {
      var m := |s| - 1;
      ElementsSize(s[..m]);
      assert Elements(s) == Elements(s[..m]) + {s[m]};
      assert s[m] !in s[..m];
    }
  }

  lemma {:induction false} SubsetSize<T>(a: set<T>, b: set<T>)
    requires a <= b
    ensures |a| <= |b|
    ensures |a| == |b| ==> a == b
  {
    if x :| x in a {
      SubsetSize(a - {x}, b - {x});
      assert b == (b - {x}) + {x};
    }
  }
}
