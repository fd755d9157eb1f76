/** Best fit on the allocations alone: where the next tensor goes (cpp/src/runtime/memory_planner.cpp). */
module Gaps {
  import opened Blocks
  import opened Allocation

  /** Byte x belongs to an allocation whose final use is not before `definition`. */
  ghost predicate Busy(placed: seq<ActiveAllocation>, definition: nat, x: int) {
    exists a <- placed :: a.finalUse >= definition && a.offset <= x < a.offset + a.size
  }

  /** A maximal stretch of handed-out bytes none of which is busy. */
  ghost predicate IsGap(placed: seq<ActiveAllocation>, definition: nat, b: Block) {
    && b.size > 0 && b.End() <= EndOf(placed)
    && (forall x | b.offset <= x < b.End() :: !Busy(placed, definition, x))
    && (b.offset == 0 || Busy(placed, definition, b.offset - 1))
    && (b.End() == EndOf(placed) || Busy(placed, definition, b.End()))
  }

  ghost predicate GapFits(placed: seq<ActiveAllocation>, definition: nat, size: nat, b: Block) {
    IsGap(placed, definition, b) && size <= b.size
  }

  /** The smallest gap that is large enough, the lowest of several. */
  ghost predicate IsBestGap(placed: seq<ActiveAllocation>, definition: nat, size: nat, b: Block) {
    && GapFits(placed, definition, size, b)
    && forall c | GapFits(placed, definition, size, c) ::
         b.size < c.size || (b.size == c.size && b.offset <= c.offset)
  }

  /** An output goes to the end of what was handed out; so does what fits no gap; the rest to the best gap. */
  ghost predicate GoesTo(placed: seq<ActiveAllocation>, output: bool, definition: nat, size: nat, offset: nat) {
    if !output && exists b :: GapFits(placed, definition, size, b)
    then exists b :: IsBestGap(placed, definition, size, b) && b.offset == offset
    else offset == EndOf(placed)
  }

  /** There is one such place. */
  lemma GoesToOnePlace(placed: seq<ActiveAllocation>, output: bool, definition: nat, size: nat, a: nat, b: nat)
    requires GoesTo(placed, output, definition, size, a) && GoesTo(placed, output, definition, size, b)
    ensures a == b
  {
    hide GapFits;
    if !output && exists c :: GapFits(placed, definition, size, c) {
      var c :| IsBestGap(placed, definition, size, c) && c.offset == a;
      var d :| IsBestGap(placed, definition, size, d) && d.offset == b;
    }
  }

  // ----- the free list holds the gaps -----

  lemma {:induction false} CoveredBySome(blocks: seq<Block>, x: int)
    ensures Cover(blocks, x) > 0 <==> exists k | 0 <= k < |blocks| :: Covers(blocks[k], x) == 1
  {
    if blocks != [] {
      CoveredBySome(blocks[1..], x);
      if Cover(blocks[1..], x) > 0 {
        var k :| 0 <= k < |blocks[1..]| && Covers(blocks[1..][k], x) == 1;
        assert blocks[k + 1] == blocks[1..][k];
      }
      if k :| 0 <= k < |blocks| && Covers(blocks[k], x) == 1 {
        if k > 0 {
          assert blocks[1..][k - 1] == blocks[k];
        }
      }
    }
  }

  lemma BusyIsCovered(placed: seq<ActiveAllocation>, definition: nat, x: int)
    ensures Busy(placed, definition, x) <==> Cover(Regions(Retained(placed, definition)), x) > 0
  {
    var active := Retained(placed, definition);
    var regions := Regions(active);
    CoveredBySome(regions, x);
    if Busy(placed, definition, x) {
      var a :| a in placed && a.finalUse >= definition && a.offset <= x < a.offset + a.size;
      var i :| 0 <= i < |placed| && placed[i] == a;
      RetainedHas(placed, definition, i);
      var k :| 0 <= k < |active| && active[k] == a;
      assert Covers(regions[k], x) == 1;
    }
    if k :| 0 <= k < |regions| && Covers(regions[k], x) == 1 {
      RetainedFrom(placed, definition);
      assert active[k] in active;
    }
  }

  /** A byte of the arena is busy or in one free block. */
  ghost predicate Split(placed: seq<ActiveAllocation>, definition: nat, free: seq<Block>) {
    && (forall k | 0 <= k < |free| :: free[k].size > 0)
    && (forall x :: InSome(free, x) <==> 0 <= x < EndOf(placed) && !Busy(placed, definition, x))
  }

  ghost predicate InSome(free: seq<Block>, x: int) {
    exists k | 0 <= k < |free| :: free[k].offset <= x < free[k].End()
  }

  lemma PartitionSplits(placed: seq<ActiveAllocation>, definition: nat, free: seq<Block>)
    requires Partition(free, Regions(Retained(placed, definition)), EndOf(placed))
    requires forall k | 0 <= k < |free| :: free[k].size > 0
    ensures Split(placed, definition, free)
  {
    forall x ensures InSome(free, x) <==> 0 <= x < EndOf(placed) && !Busy(placed, definition, x) {
      BusyIsCovered(placed, definition, x);
      CoveredBySome(free, x);
      assert Cover(free, x) + Cover(Regions(Retained(placed, definition)), x) == Within(x, EndOf(placed));
      assert InSome(free, x) <==> Cover(free, x) > 0;
    }
  }

  /** A byte next to a free block is in no free block. */
  lemma NextToFree(free: seq<Block>, i: nat, x: int)
    requires Coalesced(free) && i < |free| && (x == free[i].offset - 1 || x == free[i].End())
    requires forall k | 0 <= k < |free| :: free[k].size > 0
    ensures !InSome(free, x)
  {
    if k: nat :| k < |free| && free[k].offset <= x < free[k].End() {
      assert k < i ==> free[k].End() < free[i].offset;
      assert i < k ==> free[i].End() < free[k].offset;
    }
  }

  lemma FreeIsGap(placed: seq<ActiveAllocation>, definition: nat, free: seq<Block>, i: nat)
    requires Coalesced(free) && Split(placed, definition, free) && i < |free|
    ensures IsGap(placed, definition, free[i])
  {
    var b := free[i];
    forall x | b.offset <= x < b.End() ensures !Busy(placed, definition, x) && x < EndOf(placed) {
      assert InSome(free, x);
    }
    assert InSome(free, b.End() - 1);
    NextToFree(free, i, b.offset - 1);
    NextToFree(free, i, b.End());
  }

  lemma GapIsFree(placed: seq<ActiveAllocation>, definition: nat, free: seq<Block>, b: Block)
    requires Coalesced(free) && Split(placed, definition, free) && IsGap(placed, definition, b)
    ensures b in free
  {
    assert InSome(free, b.offset);
    var i :| 0 <= i < |free| && free[i].offset <= b.offset < free[i].End();
    FreeIsGap(placed, definition, free, i);
    SameGap(placed, definition, free[i], b);
  }

  /** Two gaps with a common byte are one. */
  lemma SameGap(placed: seq<ActiveAllocation>, definition: nat, a: Block, b: Block)
    requires IsGap(placed, definition, a) && IsGap(placed, definition, b)
    requires a.offset <= b.offset < a.End()
    ensures a == b
  {
    hide Busy;
    assert a.offset <= b.offset - 1 < a.End() ==> !Busy(placed, definition, b.offset - 1);
    assert b.offset <= a.End() < b.End() ==> !Busy(placed, definition, a.End());
    assert a.offset <= b.End() < a.End() ==> !Busy(placed, definition, b.End());
  }

  /** What the allocator hands out is the place above. */
  lemma BestFitIsBestGap(placed: seq<ActiveAllocation>, definition: nat, free: seq<Block>, size: nat)
    requires Partition(free, Regions(Retained(placed, definition)), EndOf(placed)) && Coalesced(free)
    requires forall k | 0 <= k < |free| :: free[k].size > 0
    ensures SomeFit(free, size) <==> exists b :: GapFits(placed, definition, size, b)
    ensures forall i: nat | BestFit(free, size, i) :: IsBestGap(placed, definition, size, free[i])
  {
    PartitionSplits(placed, definition, free);
    forall i: nat | i < |free| ensures IsGap(placed, definition, free[i]) {
      FreeIsGap(placed, definition, free, i);
    }
    forall b | IsGap(placed, definition, b) ensures b in free {
      GapIsFree(placed, definition, free, b);
    }
    hide IsGap, Split, Partition;
    if i: nat :| i < |free| && free[i].size >= size {
      assert GapFits(placed, definition, size, free[i]);
    }
    forall i: nat | BestFit(free, size, i) ensures IsBestGap(placed, definition, size, free[i]) {
      forall c | GapFits(placed, definition, size, c)
        ensures free[i].size < c.size || (free[i].size == c.size && free[i].offset <= c.offset)
      {
        var j :| 0 <= j < |free| && free[j] == c;
      }
    }
  }
}
