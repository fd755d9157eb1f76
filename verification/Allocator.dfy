/** Byte ranges of the arena, counted point by point: the tool behind every no-sharing result. */
module Blocks {

  datatype Block = Block(offset: nat, size: nat) {
    function End(): nat { offset + size }
  }

  function Covers(b: Block, x: int): nat {
    if b.offset <= x < b.End() then 1 else 0
  }

  /** How many of the blocks contain byte `x`. */
  function Cover(blocks: seq<Block>, x: int): nat {
    if blocks == [] then 0 else Covers(blocks[0], x) + Cover(blocks[1..], x)
  }

  function TotalSize(blocks: seq<Block>): nat {
    if blocks == [] then 0 else blocks[0].size + TotalSize(blocks[1..])
  }

  predicate Disjoint(a: Block, b: Block) {
    a.End() <= b.offset || b.End() <= a.offset
  }

  lemma {:induction false} CoverAppend(a: seq<Block>, b: seq<Block>, x: int)
    ensures Cover(a + b, x) == Cover(a, x) + Cover(b, x)
  {
    if a == [] {
      assert a + b == b;
    } else {
      assert (a + b)[1..] == a[1..] + b;
      CoverAppend(a[1..], b, x);
    }
  }

  lemma CoverPush(a: seq<Block>, b: Block, x: int)
    ensures Cover(a + [b], x) == Cover(a, x) + Covers(b, x)
  {
    CoverAppend(a, [b], x);
  }

  lemma CoverPushAll(a: seq<Block>, b: Block)
    ensures forall x :: Cover(a + [b], x) == Cover(a, x) + Covers(b, x)
  {
    forall x ensures Cover(a + [b], x) == Cover(a, x) + Covers(b, x) {
      CoverPush(a, b, x);
    }
  }

  /** Taking block i out of the list takes its bytes out of the count. */
  lemma CoverRemove(s: seq<Block>, i: nat, x: int)
    requires i < |s|
    ensures Cover(s, x) == Cover(s[..i] + s[i + 1..], x) + Covers(s[i], x)
  {
    assert s == s[..i] + ([s[i]] + s[i + 1..]);
    CoverAppend(s[..i], [s[i]] + s[i + 1..], x);
    CoverAppend(s[..i], s[i + 1..], x);
  }

  lemma CoverUpdate(s: seq<Block>, i: nat, b: Block, x: int)
    requires i < |s|
    ensures Cover(s[i := b], x) + Covers(s[i], x) == Cover(s, x) + Covers(b, x)
  {
    CoverRemove(s, i, x);
    CoverRemove(s[i := b], i, x);
    assert s[i := b][..i] + s[i := b][i + 1..] == s[..i] + s[i + 1..];
  }

  lemma CoverMember(s: seq<Block>, i: nat, x: int)
    requires i < |s|
    ensures Covers(s[i], x) <= Cover(s, x)
  {
    CoverRemove(s, i, x);
  }

  lemma CoverPair(s: seq<Block>, i: nat, j: nat, x: int)
    requires i < j < |s|
    ensures Covers(s[i], x) + Covers(s[j], x) <= Cover(s, x)
  {
    CoverRemove(s, j, x);
    var rest := s[..j] + s[j + 1..];
    assert rest[i] == s[i];
    CoverMember(rest, i, x);
  }

  /** Non-empty blocks that never contain the same byte do not overlap. */
  lemma NoCommonByte(a: Block, b: Block)
    requires a.size > 0 && b.size > 0
    requires forall x :: Covers(a, x) + Covers(b, x) <= 1
    ensures Disjoint(a, b)
  {
    var x := if a.offset >= b.offset then a.offset else b.offset;
    assert Covers(a, x) + Covers(b, x) <= 1;
  }

  lemma {:induction false} PairwiseDisjointCover(s: seq<Block>, x: int)
    requires forall i, j | 0 <= i < j < |s| :: Disjoint(s[i], s[j])
    ensures Cover(s, x) <= 1
  {
    if s != [] {
      PairwiseDisjointCover(s[1..], x);
      if Covers(s[0], x) == 1 {
        forall k | 0 <= k < |s[1..]| ensures Covers(s[1..][k], x) == 0 {
          assert s[1..][k] == s[k + 1] && Disjoint(s[0], s[k + 1]);
        }
        NobodyCovers(s[1..], x);
      }
    }
  }

  lemma {:induction false} NobodyCovers(s: seq<Block>, x: int)
    requires forall k | 0 <= k < |s| :: Covers(s[k], x) == 0
    ensures Cover(s, x) == 0
  {
    if s != [] {
      NobodyCovers(s[1..], x);
    }
  }

  /** Bytes counted with multiplicity below `n`. */
  function CoveredBelow(s: seq<Block>, n: nat): nat {
    if n == 0 then 0 else CoveredBelow(s, n - 1) + Cover(s, n - 1)
  }

  lemma {:induction false} CoveredBelowSplit(s: seq<Block>, n: nat)
    requires s != []
    ensures CoveredBelow(s, n) == CoveredBelow([s[0]], n) + CoveredBelow(s[1..], n)
  {
    if n > 0 {
      CoveredBelowSplit(s, n - 1);
      assert Cover([s[0]], n - 1) == Covers(s[0], n - 1);
    }
  }

  lemma {:induction false} CoveredByOne(b: Block, n: nat)
    ensures CoveredBelow([b], n)
         == if n <= b.offset then 0 else if n <= b.End() then n - b.offset else b.size
  {
    if n > 0 {
      CoveredByOne(b, n - 1);
      assert Cover([b], n - 1) == Covers(b, n - 1);
    }
  }

  lemma {:induction false} CoveredBelowIsTotal(s: seq<Block>, n: nat)
    requires forall i | 0 <= i < |s| :: s[i].End() <= n
    ensures CoveredBelow(s, n) == TotalSize(s)
  {
    if s == [] {
      CoveredByNone(n);
    } else {
      CoveredBelowSplit(s, n);
      CoveredByOne(s[0], n);
      CoveredBelowIsTotal(s[1..], n);
    }
  }

  lemma {:induction false} CoveredByNone(n: nat)
    ensures CoveredBelow([], n) == 0
  {
    if n > 0 {
      CoveredByNone(n - 1);
    }
  }

  lemma {:induction false} CoveredBelowBound(s: seq<Block>, n: nat)
    requires forall x :: Cover(s, x) <= 1
    ensures CoveredBelow(s, n) <= n
  {
    if n > 0 {
      CoveredBelowBound(s, n - 1);
    }
  }

  /** Disjoint blocks inside an arena of n bytes hold at most n bytes together. */
  lemma PackingBound(s: seq<Block>, n: nat)
    requires forall i | 0 <= i < |s| :: s[i].End() <= n
    requires forall i, j | 0 <= i < j < |s| :: Disjoint(s[i], s[j])
    ensures TotalSize(s) <= n
  {
    forall x ensures Cover(s, x) <= 1 {
      PairwiseDisjointCover(s, x);
    }
    CoveredBelowIsTotal(s, n);
    CoveredBelowBound(s, n);
  }

  // ----- std::sort by offset -----

  function InsertByOffset(b: Block, s: seq<Block>): seq<Block> {
    if s == [] || b.offset <= s[0].offset then [b] + s
    else [s[0]] + InsertByOffset(b, s[1..])
  }

  function SortByOffset(s: seq<Block>): seq<Block> {
    if s == [] then [] else InsertByOffset(s[0], SortByOffset(s[1..]))
  }

  predicate SortedByOffset(s: seq<Block>) {
    forall i, j | 0 <= i < j < |s| :: s[i].offset <= s[j].offset
  }

  lemma {:induction false} InsertFacts(b: Block, s: seq<Block>)
    ensures multiset(InsertByOffset(b, s)) == multiset(s) + multiset{b}
    ensures SortedByOffset(s) ==> SortedByOffset(InsertByOffset(b, s))
    ensures forall x :: Cover(InsertByOffset(b, s), x) == Cover(s, x) + Covers(b, x)
  {
    if s == [] || b.offset <= s[0].offset {
      assert ([b] + s)[1..] == s;
    } else {
      InsertFacts(b, s[1..]);
      var rest := InsertByOffset(b, s[1..]);
      assert ([s[0]] + rest)[1..] == rest;
      assert s == [s[0]] + s[1..];
      if SortedByOffset(s) {
        assert SortedByOffset(s[1..]);
        forall k | 0 <= k < |rest| ensures s[0].offset <= rest[k].offset {
          assert rest[k] in multiset(rest);
          assert rest[k] == b || rest[k] in s[1..];
        }
      }
    }
  }

  lemma {:induction false} SortFacts(s: seq<Block>)
    ensures multiset(SortByOffset(s)) == multiset(s)
    ensures SortedByOffset(SortByOffset(s))
    ensures forall x :: Cover(SortByOffset(s), x) == Cover(s, x)
  {
    if s != [] {
      SortFacts(s[1..]);
      InsertFacts(s[0], SortByOffset(s[1..]));
      assert s == [s[0]] + s[1..];
    }
  }
}

/** The coalescing best-fit allocator of cpp/src/runtime/memory_planner.cpp. */
module Allocation {
  import opened Basics
  import opened Blocks

  datatype ActiveAllocation = ActiveAllocation(tensorIndex: nat, finalUse: nat, offset: nat, size: nat) {
    function Region(): Block { Block(offset, size) }
  }

  function Regions(active: seq<ActiveAllocation>): (r: seq<Block>)
    ensures |r| == |active| && forall k | 0 <= k < |r| :: r[k] == active[k].Region()
  {
    seq(|active|, k requires 0 <= k < |active| => active[k].Region())
  }

  /** Allocations still in use by the operation scheduled at `definition`. */
  function Retained(s: seq<ActiveAllocation>, definition: nat): seq<ActiveAllocation> {
    if s == [] then []
    else
      var earlier, last := Retained(s[..|s| - 1], definition), s[|s| - 1];
      if last.finalUse < definition then earlier else earlier + [last]
  }

  lemma {:induction false} RetainedTwice(s: seq<ActiveAllocation>, d: nat, e: nat)
    requires d <= e
    ensures Retained(Retained(s, d), e) == Retained(s, e)
  {
    if s != [] {
      var last, front := s[|s| - 1], s[..|s| - 1];
      RetainedTwice(front, d, e);
      if last.finalUse >= d {
        assert (Retained(front, d) + [last])[..|Retained(front, d)|] == Retained(front, d);
      }
    }
  }

  lemma {:induction false} RetainedHas(s: seq<ActiveAllocation>, d: nat, i: nat)
    requires i < |s| && s[i].finalUse >= d
    ensures s[i] in Retained(s, d)
  {
    if i < |s| - 1 {
      assert s[..|s| - 1][i] == s[i];
      RetainedHas(s[..|s| - 1], d, i);
    }
  }

  lemma {:induction false} RetainedFrom(s: seq<ActiveAllocation>, d: nat)
    ensures forall a <- Retained(s, d) :: a in s && a.finalUse >= d
  {
    if s != [] {
      RetainedFrom(s[..|s| - 1], d);
    }
  }

  /** Where the allocations made so far end. */
  function EndOf(placed: seq<ActiveAllocation>): nat {
    if placed == [] then 0
    else
      var end, last := EndOf(placed[..|placed| - 1]), placed[|placed| - 1].Region().End();
      if last > end then last else end
  }

  lemma {:induction false} EndOfBound(placed: seq<ActiveAllocation>)
    ensures forall a <- placed :: a.Region().End() <= EndOf(placed)
  {
    if placed != [] {
      var front, last := placed[..|placed| - 1], placed[|placed| - 1];
      EndOfBound(front);
      forall a <- placed ensures a.Region().End() <= EndOf(placed) {
        assert a in front || a == last;
      }
    }
  }

  lemma EndOfPush(placed: seq<ActiveAllocation>, a: ActiveAllocation)
    ensures EndOf(placed + [a]) == if a.Region().End() > EndOf(placed) then a.Region().End() else EndOf(placed)
  {
    assert (placed + [a])[..|placed|] == placed;
  }

  function Within(x: int, limit: nat): nat {
    if 0 <= x < limit then 1 else 0
  }

  /** Every byte of the arena lies in exactly one free or active block, every other byte in none. */
  ghost predicate Partition(free: seq<Block>, active: seq<Block>, arenaEnd: nat) {
    forall x :: Cover(free, x) + Cover(active, x) == Within(x, arenaEnd)
  }

  ghost predicate AlignedBlock(b: Block, alignment: nat)
    requires alignment > 0
  {
    b.size > 0 && b.offset % alignment == 0 && b.size % alignment == 0
  }

  ghost predicate Aligned(blocks: seq<Block>, alignment: nat)
    requires alignment > 0
  {
    forall k | 0 <= k < |blocks| :: AlignedBlock(blocks[k], alignment)
  }

  /** Sorted, disjoint, and no two blocks touch. */
  ghost predicate Coalesced(blocks: seq<Block>) {
    forall i, j | 0 <= i < j < |blocks| :: blocks[i].End() < blocks[j].offset
  }

  lemma AlignedSum(a: nat, b: nat, alignment: nat)
    requires alignment > 0 && a % alignment == 0 && b % alignment == 0
    ensures (a + b) % alignment == 0
    ensures a >= b ==> (a - b) % alignment == 0
  {
    var q, r := a / alignment, b / alignment;
    assert a + b == (q + r) * alignment && a - b == (q - r) * alignment;
    ModMultiple(q + r, alignment);
    ModMultiple(q - r, alignment);
  }

  lemma ModMultiple(k: int, d: nat)
    requires d > 0
    ensures (k * d) % d == 0
  {
    var x := k * d;
    var m := x / d - k;
    assert m * d == -(x % d);
  }

  /** A block of a partition ends inside the arena. */
  lemma InsideArena(b: Block, others: seq<Block>, free: seq<Block>, arenaEnd: nat)
    requires b.size > 0
    requires forall x :: Cover(free, x) + Cover(others, x) + Covers(b, x) <= Within(x, arenaEnd)
    ensures b.End() <= arenaEnd
  {
    var x := b.End() - 1;
    assert Cover(free, x) + Cover(others, x) + Covers(b, x) <= Within(x, arenaEnd);
  }

  // ----- coalescing -----

  ghost predicate CoverAtMostOne(blocks: seq<Block>, limit: nat) {
    forall x :: Cover(blocks, x) <= Within(x, limit)
  }

  /** Sorted blocks that cover no byte twice are disjoint in order. */
  lemma SortedBlocksAreSeparate(s: seq<Block>, limit: nat, i: nat, j: nat)
    requires SortedByOffset(s) && CoverAtMostOne(s, limit) && i < j < |s|
    requires s[i].size > 0 && s[j].size > 0
    ensures s[i].End() <= s[j].offset && s[j].End() <= limit
  {
    forall x ensures Covers(s[i], x) + Covers(s[j], x) <= 1 {
      CoverPair(s, i, j, x);
      assert Cover(s, x) <= 1;
    }
    NoCommonByte(s[i], s[j]);
    LastByte(s, limit, j);
  }

  lemma LastByte(s: seq<Block>, limit: nat, j: nat)
    requires CoverAtMostOne(s, limit) && j < |s| && s[j].size > 0
    ensures s[j].End() <= limit
  {
    CoverMember(s, j, s[j].End() - 1);
    assert Cover(s, s[j].End() - 1) <= Within(s[j].End() - 1, limit);
  }

  /** Joining two touching blocks changes no byte. */
  lemma JoinCover(s: seq<Block>, b: Block, x: int)
    requires s != [] && s[|s| - 1].End() == b.offset
    ensures Cover(s[|s| - 1 := Block(s[|s| - 1].offset, s[|s| - 1].size + b.size)], x)
         == Cover(s, x) + Covers(b, x)
  {
    var last := s[|s| - 1];
    CoverUpdate(s, |s| - 1, Block(last.offset, last.size + b.size), x);
  }

  lemma SortedBlocksStayAligned(blocks: seq<Block>, alignment: nat)
    requires alignment > 0 && Aligned(blocks, alignment)
    ensures Aligned(SortByOffset(blocks), alignment)
  {
    SortFacts(blocks);
    var sorted := SortByOffset(blocks);
    forall k | 0 <= k < |sorted| ensures AlignedBlock(sorted[k], alignment) {
      assert sorted[k] in multiset(sorted);
      assert sorted[k] in blocks;
    }
  }

  lemma CoverNext(s: seq<Block>, i: nat, before: seq<Block>, after: seq<Block>)
    requires i < |s|
    requires forall x :: Cover(before, x) == Cover(s[..i], x)
    requires forall x :: Cover(after, x) == Cover(before, x) + Covers(s[i], x)
    ensures forall x :: Cover(after, x) == Cover(s[..i + 1], x)
  {
    forall x ensures Cover(after, x) == Cover(s[..i + 1], x) {
      assert s[..i + 1] == s[..i] + [s[i]];
      CoverPush(s[..i], s[i], x);
    }
  }

  /** One step of the coalescing loop: `block` starts no earlier than the last block ends. */
  method MergeInto(blocks: seq<Block>, block: Block, ghost alignment: nat)
    returns (s: Status, r: seq<Block>)
    requires alignment > 0 && Coalesced(blocks) && Aligned(blocks, alignment) && AlignedBlock(block, alignment)
    requires blocks != [] ==> blocks[|blocks| - 1].End() <= block.offset
    requires block.End() <= UINT64_MAX
    ensures s == Success
    ensures Coalesced(r) && Aligned(r, alignment)
    ensures r != [] && r[|r| - 1].End() == block.End()
    ensures forall x :: Cover(r, x) == Cover(blocks, x) + Covers(block, x)
  {
    var m := |blocks| - 1;
    var previousEnd := if blocks == [] then Ok(0) else CheckedAdd(blocks[m].offset, blocks[m].size);
    if previousEnd.Err? {
      return Failure(Overflow), blocks;
    }
    if blocks != [] && previousEnd.value == block.offset {
      var merged := CheckedAdd(blocks[m].size, block.size);
      if merged.Err? {
        return Failure(Overflow), blocks;
      }
      forall x ensures Cover(blocks[m := Block(blocks[m].offset, merged.value)], x)
                    == Cover(blocks, x) + Covers(block, x) {
        JoinCover(blocks, block, x);
      }
      AlignedSum(blocks[m].size, block.size, alignment);
      return Success, blocks[m := Block(blocks[m].offset, merged.value)];
    }
    CoverPushAll(blocks, block);
    return Success, blocks + [block];
  }

  /**
   `coalesce_free_blocks`: sorts by offset and merges touching neighbours. The bytes described
   are unchanged and no two blocks of the result touch. Its overflow exits are never taken.
   */
  method CoalesceFreeBlocks(blocks: seq<Block>, ghost limit: nat, ghost alignment: nat)
    returns (s: Status, r: seq<Block>)
    requires limit <= UINT64_MAX && alignment > 0
    requires CoverAtMostOne(blocks, limit) && Aligned(blocks, alignment)
    ensures s == Success
    ensures Coalesced(r) && Aligned(r, alignment)
    ensures forall x :: Cover(r, x) == Cover(blocks, x)
  {
    var sorted := SortByOffset(blocks);
    SortFacts(blocks);
    SortedBlocksStayAligned(blocks, alignment);
    r := [];
    for i := 0 to |sorted|
      invariant Coalesced(r) && Aligned(r, alignment)
      invariant forall x :: Cover(r, x) == Cover(sorted[..i], x)
      invariant r != [] ==> i > 0 && r[|r| - 1].End() == sorted[i - 1].End()
    {
      LastByte(sorted, limit, i);
      if i > 0 {
        SortedBlocksAreSeparate(sorted, limit, i - 1, i);
      }
      ghost var before := r;
      s, r := MergeInto(r, sorted[i], alignment);
      if s != Success {
        return;
      }
      CoverNext(sorted, i, before, r);
    }
    assert sorted[..|sorted|] == sorted;
    s := Success;
  }

  // ----- the allocator -----

  /** Block i of the free list is the best fit: smallest sufficient size, then lowest offset. */
  predicate BestFit(free: seq<Block>, size: nat, i: nat) {
    && i < |free| && free[i].size >= size
    && forall j | 0 <= j < |free| && free[j].size >= size ::
         free[i].size < free[j].size || (free[i].size == free[j].size && free[i].offset <= free[j].offset)
  }

  predicate SomeFit(free: seq<Block>, size: nat) {
    exists i | 0 <= i < |free| :: free[i].size >= size
  }

  /**
   The loop of `release_expired`: allocations last used before `definition` move to the free
   list, the others stay, in order, and no byte is lost or counted twice.
   */
  method PartitionExpired(active: seq<ActiveAllocation>, free: seq<Block>, definition: nat, ghost alignment: nat)
    returns (retained: seq<ActiveAllocation>, blocks: seq<Block>)
    requires alignment > 0 && Aligned(free, alignment) && Aligned(Regions(active), alignment)
    ensures retained == Retained(active, definition)
    ensures Aligned(blocks, alignment) && Aligned(Regions(retained), alignment)
    ensures forall x ::
      Cover(blocks, x) + Cover(Regions(retained), x) == Cover(free, x) + Cover(Regions(active), x)
  {
    retained, blocks := [], free;
    ghost var regions := Regions(active);
    for k := 0 to |active|
      invariant retained == Retained(active[..k], definition)
      invariant Aligned(blocks, alignment) && Aligned(Regions(retained), alignment)
      invariant forall x ::
        Cover(blocks, x) + Cover(Regions(retained), x) == Cover(free, x) + Cover(regions[..k], x)
    {
      var allocation := active[k];
      assert active[..k + 1] == active[..k] + [allocation];
      assert regions[..k + 1] == regions[..k] + [allocation.Region()];
      CoverPushAll(regions[..k], allocation.Region());
      if allocation.finalUse < definition {
        CoverPushAll(blocks, allocation.Region());
        blocks := blocks + [allocation.Region()];
      } else {
        assert Regions(retained + [allocation]) == Regions(retained) + [allocation.Region()];
        CoverPushAll(Regions(retained), allocation.Region());
        retained := retained + [allocation];
      }
    }
    assert active[..|active|] == active && regions[..|active|] == regions;
  }

  class Allocator {
    const alignment: nat
    var freeBlocks: seq<Block>
    var active: seq<ActiveAllocation>
    var arenaEnd: nat
    /** Every allocation ever made, in order, and the latest definition index released for. */
    ghost var placed: seq<ActiveAllocation>
    ghost var horizon: nat

    ghost predicate Valid()
      reads this
    {
      && alignment > 0
      && arenaEnd <= UINT64_MAX && arenaEnd % alignment == 0
      && Partition(freeBlocks, Regions(active), arenaEnd)
      && Coalesced(freeBlocks)
      && Aligned(freeBlocks, alignment) && Aligned(Regions(active), alignment)
      && active == Retained(placed, horizon) && arenaEnd == EndOf(placed)
    }

    constructor (alignmentBytes: nat)
      requires alignmentBytes > 0
      ensures Valid() && alignment == alignmentBytes
      ensures placed == [] && arenaEnd == 0 && horizon == 0
    {
      alignment := alignmentBytes;
      freeBlocks, active, arenaEnd := [], [], 0;
      placed, horizon := [], 0;
    }

    /** `release_expired`: everything last used before `definition` goes back to the free list. */
    method ReleaseExpired(definition: nat) returns (s: Status)
      requires Valid() && horizon <= definition
      modifies this`freeBlocks, this`active, this`horizon
      ensures Valid() && s == Success
      ensures horizon == definition
      ensures active == Retained(old(active), definition)
    {
      var retained, blocks := PartitionExpired(active, freeBlocks, definition, alignment);
      RetainedTwice(placed, horizon, definition);
      active := retained;
      horizon := definition;
      s, freeBlocks := CoalesceFreeBlocks(blocks, arenaEnd, alignment);
    }

    /** Bytes [offset, offset + size) belong to nobody yet and to the arena. */
    ghost predicate Reserved(offset: nat, size: nat)
      reads this
    {
      && alignment > 0 && size > 0 && offset % alignment == 0 && size % alignment == 0
      && arenaEnd <= UINT64_MAX && arenaEnd % alignment == 0
      && (forall x :: Cover(freeBlocks, x) + Cover(Regions(active), x) + Covers(Block(offset, size), x) == Within(x, arenaEnd))
      && Coalesced(freeBlocks)
      && Aligned(freeBlocks, alignment) && Aligned(Regions(active), alignment)
      && active == Retained(placed, horizon)
      && arenaEnd == if offset + size > EndOf(placed) then offset + size else EndOf(placed)
    }

    /**
     `allocate_best_fit`: the front of the best-fitting free block, or new space at the end of
     the arena when none fits.
     */
    method AllocateBestFit(size: nat) returns (r: Result<nat>)
      requires Valid() && 0 < size <= UINT64_MAX && size % alignment == 0
      modifies this`freeBlocks, this`arenaEnd
      ensures r.Ok? <==> SomeFit(old(freeBlocks), size) || old(arenaEnd) + size <= UINT64_MAX
      ensures r.Err? ==> r.code == Overflow && Valid()
      ensures r.Ok? ==> Reserved(r.value, size)
      ensures SomeFit(old(freeBlocks), size) ==> arenaEnd == old(arenaEnd)
      ensures SomeFit(old(freeBlocks), size) ==>
        exists i: nat :: BestFit(old(freeBlocks), size, i) && r == Ok(old(freeBlocks)[i].offset)
      ensures !SomeFit(old(freeBlocks), size) ==> freeBlocks == old(freeBlocks)
      ensures r.Ok? && !SomeFit(old(freeBlocks), size) ==> r.value == old(arenaEnd)
      ensures r.Ok? && !SomeFit(old(freeBlocks), size) ==> arenaEnd == old(arenaEnd) + size
    {
      var best: nat := |freeBlocks|;
      for index := 0 to |freeBlocks|
        invariant best == |freeBlocks| ==> forall j | 0 <= j < index :: freeBlocks[j].size < size
        invariant best == |freeBlocks| || best < index
        invariant best < index ==> BestFit(freeBlocks[..index], size, best)
      {
        if freeBlocks[index].size >= size {
          if best == |freeBlocks| || freeBlocks[index].size < freeBlocks[best].size
            || (freeBlocks[index].size == freeBlocks[best].size
                && freeBlocks[index].offset < freeBlocks[best].offset)
          {
            best := index;
          }
        }
      }
      if best != |freeBlocks| {
        assert freeBlocks[..|freeBlocks|] == freeBlocks;
        assert BestFit(freeBlocks, size, best);
        r := TakeFront(best, size);
        return;
      }
      var end := CheckedAdd(arenaEnd, size);
      if end.Err? {
        return Err(end.code);
      }
      GrowKeepsPartition(size);
      r := Ok(arenaEnd);
      arenaEnd := end.value;
    }

    lemma GrowKeepsPartition(size: nat)
      requires Valid() && size > 0 && size % alignment == 0
      ensures forall x ::
        Cover(freeBlocks, x) + Cover(Regions(active), x) + Covers(Block(arenaEnd, size), x) == Within(x, arenaEnd + size)
      ensures (arenaEnd + size) % alignment == 0
    {
      AlignedSum(arenaEnd, size, alignment);
    }

    /** Removes the block, or shortens it from the front. */
    method TakeFront(best: nat, size: nat) returns (r: Result<nat>)
      requires Valid() && 0 < size <= UINT64_MAX && size % alignment == 0
      requires best < |freeBlocks| && freeBlocks[best].size >= size
      modifies this`freeBlocks
      ensures r == Ok(old(freeBlocks)[best].offset)
      ensures Reserved(r.value, size)
    {
      var block := freeBlocks[best];
      FreeBlockInside(best);
      if block.size == size {
        forall x ensures Cover(freeBlocks, x)
                      == Cover(freeBlocks[..best] + freeBlocks[best + 1..], x) + Covers(block, x) {
          CoverRemove(freeBlocks, best, x);
        }
        freeBlocks := freeBlocks[..best] + freeBlocks[best + 1..];
      } else {
        var remaining := CheckedAdd(block.offset, size);
        if remaining.Err? {
          return Err(Overflow);
        }
        var rest := Block(remaining.value, block.size - size);
        AlignedSum(block.offset, size, alignment);
        AlignedSum(block.size, size, alignment);
        forall x ensures Cover(freeBlocks[best := rest], x) + Covers(Block(block.offset, size), x)
                      == Cover(freeBlocks, x) {
          CoverUpdate(freeBlocks, best, rest, x);
        }
        freeBlocks := freeBlocks[best := rest];
      }
      return Ok(block.offset);
    }

    lemma FreeBlockInside(i: nat)
      requires Valid() && i < |freeBlocks|
      ensures freeBlocks[i].size > 0 && freeBlocks[i].End() <= arenaEnd
    {
      forall x ensures Cover(freeBlocks, x) <= Within(x, arenaEnd) {
        assert Cover(freeBlocks, x) + Cover(Regions(active), x) == Within(x, arenaEnd);
      }
      LastByte(freeBlocks, arenaEnd, i);
    }

    /** `append_protected`: an output always gets bytes nothing has used before. */
    method AppendProtected(size: nat) returns (r: Result<nat>)
      requires Valid() && 0 < size <= UINT64_MAX && size % alignment == 0
      modifies this`arenaEnd
      ensures r.Ok? <==> old(arenaEnd) + size <= UINT64_MAX
      ensures r.Err? ==> r.code == Overflow && Valid()
      ensures r.Ok? ==> r.value == old(arenaEnd) && arenaEnd == old(arenaEnd) + size
      ensures r.Ok? ==> Reserved(r.value, size)
    {
      var end := CheckedAdd(arenaEnd, size);
      if end.Err? {
        return Err(end.code);
      }
      GrowKeepsPartition(size);
      r := Ok(arenaEnd);
      arenaEnd := end.value;
    }

    /** Pushes the reservation onto the active list: the new bytes are disjoint from all live ones. */
    method Activate(tensorIndex: nat, finalUse: nat, offset: nat, size: nat)
      requires Reserved(offset, size) && finalUse >= horizon
      modifies this`active, this`placed
      ensures Valid()
      ensures placed == old(placed) + [ActiveAllocation(tensorIndex, finalUse, offset, size)]
      ensures active == old(active) + [ActiveAllocation(tensorIndex, finalUse, offset, size)]
      ensures forall a <- old(active) :: Disjoint(a.Region(), Block(offset, size))
      ensures offset + size <= arenaEnd
    {
      var allocation := ActiveAllocation(tensorIndex, finalUse, offset, size);
      var region := Block(offset, size);
      forall a <- active ensures Disjoint(a.Region(), region) {
        ActiveDisjoint(a, region);
      }
      CoverPushAll(Regions(active), region);
      InsideArena(region, Regions(active), freeBlocks, arenaEnd);
      assert Regions(active + [allocation]) == Regions(active) + [region];
      assert (placed + [allocation])[..|placed|] == placed;
      EndOfPush(placed, allocation);
      active := active + [allocation];
      placed := placed + [allocation];
    }

    lemma ActiveDisjoint(a: ActiveAllocation, region: Block)
      requires Reserved(region.offset, region.size) && a in active
      ensures Disjoint(a.Region(), region)
    {
      var k :| 0 <= k < |active| && active[k] == a;
      assert Regions(active)[k] == a.Region();
      forall x ensures Covers(a.Region(), x) + Covers(region, x) <= 1 {
        CoverMember(Regions(active), k, x);
        assert Cover(freeBlocks, x) + Cover(Regions(active), x) + Covers(region, x) == Within(x, arenaEnd);
      }
      NoCommonByte(a.Region(), region);
    }
  }
}
