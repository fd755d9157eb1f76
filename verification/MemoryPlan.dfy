/** Placement, accounting and verification of a memory plan (cpp/src/runtime/memory_planner.cpp). */
module MemoryPlanner {
  import opened Basics
  import opened GraphIR
  import opened StringOrder
  import opened Counting
  import opened Kahn
  import opened OperationOrder
  import opened ExecutionSchedule
  import opened TensorSizes
  import opened Lifetimes
  import opened Blocks
  import opened Allocation
  import opened Gaps

  datatype MemoryPlan = MemoryPlan(
    alignmentBytes: nat,
    schedule: Schedule,
    tensors: seq<TensorLifetime>,
    arenaSize: nat,
    peakLive: nat,
    naive: nat)

  // ----- properties of a plan -----

  function Region(t: TensorLifetime): Block
    requires t.arenaOffset.Some?
  {
    Block(t.arenaOffset.value, t.alignedSize)
  }

  /** `lifetimes_overlap` */
  predicate LifetimesOverlap(a: TensorLifetime, b: TensorLifetime) {
    !(a.End() < b.Start() || b.End() < a.Start())
  }

  /** Tensors that must not share a byte: both live at some index, or one of them an output. */
  predicate MustNotShare(a: TensorLifetime, b: TensorLifetime) {
    LifetimesOverlap(a, b) || a.storage.ArenaOutput? || b.storage.ArenaOutput?
  }

  predicate Separate(a: TensorLifetime, b: TensorLifetime) {
    a.arenaOffset.Some? && b.arenaOffset.Some? && MustNotShare(a, b) ==> Disjoint(Region(a), Region(b))
  }

  predicate NoSharing(tensors: seq<TensorLifetime>) {
    forall i, j | 0 <= i < j < |tensors| :: Separate(tensors[i], tensors[j])
  }

  /** Placed inside the arena at an aligned offset. */
  predicate PlacedWithin(t: TensorLifetime, arenaSize: nat, alignment: nat) {
    t.arenaOffset.Some? && alignment > 0
    && t.arenaOffset.value % alignment == 0 && Region(t).End() <= arenaSize
  }

  /** The per-tensor checks of `verify_memory_plan`. */
  predicate TensorVerified(plan: MemoryPlan, t: TensorLifetime) {
    && t.alignmentBytes == plan.alignmentBytes && t.alignmentBytes > 0
    && (t.kind.InputValue? ==> t.external && t.protectedBuffer && t.arenaOffset.None?)
    && (t.kind.ParameterValue? || t.kind.ConstantValue? ==>
          t.external && t.immutable && t.protectedBuffer && t.arenaOffset.None?)
    && (t.kind.OutputValue? ==>
          t.storage.ArenaOutput? && t.protectedBuffer && !t.external && t.arenaOffset.Some?
          && t.finalUse == |plan.schedule|)
    && (t.external ==> t.arenaOffset.None?)
    && (!t.external ==> PlacedWithin(t, plan.arenaSize, t.alignmentBytes) && Region(t).End() <= UINT64_MAX)
  }

  predicate PlanVerified(plan: MemoryPlan) {
    && IsPowerOfTwo(plan.alignmentBytes)
    && (forall k | 0 <= k < |plan.tensors| :: TensorVerified(plan, plan.tensors[k]))
    && NoSharing(plan.tensors)
    && plan.peakLive <= plan.arenaSize <= plan.naive
  }

  /** `verify_memory_plan` accepts exactly the plans above. */
  method VerifyMemoryPlan(plan: MemoryPlan) returns (s: Status)
    requires forall t <- plan.tensors :: t.alignedSize <= UINT64_MAX
    requires forall t <- plan.tensors :: t.arenaOffset.Some? ==> t.arenaOffset.value <= UINT64_MAX
    ensures s == Success <==> PlanVerified(plan)
  {
    if !IsPowerOfTwo(plan.alignmentBytes) {
      return Failure(FailedPrecondition);
    }
    for k := 0 to |plan.tensors|
      invariant forall j | 0 <= j < k :: TensorVerified(plan, plan.tensors[j])
    {
      var accepted := VerifyTensor(plan, plan.tensors[k]);
      if !accepted {
        return Failure(FailedPrecondition);
      }
    }
    for left := 0 to |plan.tensors|
      invariant forall i, j | 0 <= i < left && i < j < |plan.tensors| :: Separate(plan.tensors[i], plan.tensors[j])
    {
      if plan.tensors[left].arenaOffset.Some? {
        for right := left + 1 to |plan.tensors|
          invariant forall j | left < j < right :: Separate(plan.tensors[left], plan.tensors[j])
        {
          var a, b := plan.tensors[left], plan.tensors[right];
          if b.arenaOffset.Some? {
            var rangesOverlap := a.arenaOffset.value < Region(b).End() && b.arenaOffset.value < Region(a).End();
            if rangesOverlap && MustNotShare(a, b) {
              return Failure(FailedPrecondition);
            }
          }
        }
      }
    }
    if plan.peakLive > plan.arenaSize || plan.arenaSize > plan.naive || plan.peakLive > plan.naive {
      return Failure(FailedPrecondition);
    }
    return Success;
  }

  method VerifyTensor(plan: MemoryPlan, t: TensorLifetime) returns (accepted: bool)
    requires t.alignedSize <= UINT64_MAX
    requires t.arenaOffset.Some? ==> t.arenaOffset.value <= UINT64_MAX
    ensures accepted <==> TensorVerified(plan, t)
  {
    if t.alignmentBytes != plan.alignmentBytes || t.alignmentBytes == 0 {
      return false;
    }
    if t.kind.InputValue? && (!t.external || !t.protectedBuffer || t.arenaOffset.Some?) {
      return false;
    }
    if (t.kind.ParameterValue? || t.kind.ConstantValue?)
      && (!t.external || !t.immutable || !t.protectedBuffer || t.arenaOffset.Some?) {
      return false;
    }
    if t.kind.OutputValue?
      && (t.storage != ArenaOutput || !t.protectedBuffer || t.external || t.arenaOffset.None?
          || t.finalUse != |plan.schedule|) {
      return false;
    }
    if t.external {
      return t.arenaOffset.None?;
    }
    if t.arenaOffset.None? {
      return false;
    }
    if t.arenaOffset.value % t.alignmentBytes != 0 {
      return false;
    }
    var end := CheckedAdd(t.arenaOffset.value, t.alignedSize);
    return end.Ok? && end.value <= plan.arenaSize;
  }

  // ----- allocation order -----

  /** The comparator of the allocation sort: by definition index, then by identifier. */
  predicate NoLater(tensors: seq<TensorLifetime>, i: nat, j: nat)
    requires i < |tensors| && j < |tensors|
  {
    tensors[i].definitionIndex < tensors[j].definitionIndex
    || (tensors[i].definitionIndex == tensors[j].definitionIndex
        && !Less(tensors[j].valueId, tensors[i].valueId))
  }

  ghost predicate Indices(tensors: seq<TensorLifetime>, s: seq<nat>) {
    forall k | 0 <= k < |s| :: s[k] < |tensors|
  }

  ghost predicate InOrder(tensors: seq<TensorLifetime>, s: seq<nat>)
    requires Indices(tensors, s)
  {
    forall i, j | 0 <= i < j < |s| :: NoLater(tensors, s[i], s[j])
  }

  lemma NoLaterFacts(tensors: seq<TensorLifetime>, i: nat, j: nat, k: nat)
    requires i < |tensors| && j < |tensors| && k < |tensors|
    ensures NoLater(tensors, i, j) || NoLater(tensors, j, i)
    ensures NoLater(tensors, i, j) && NoLater(tensors, j, k) ==> NoLater(tensors, i, k)
  {
    var a, b, c := tensors[i].valueId, tensors[j].valueId, tensors[k].valueId;
    Total(a, b);
    Total(b, c);
    if Less(a, b) && Less(b, a) {
      Transitive(a, b, a);
      Irreflexive(a);
    }
    if Less(c, a) && Less(a, b) {
      Transitive(c, a, b);
    }
  }

  function InsertByDefinition(tensors: seq<TensorLifetime>, x: nat, s: seq<nat>): seq<nat>
    requires x < |tensors| && forall k | 0 <= k < |s| :: s[k] < |tensors|
  {
    if s == [] || NoLater(tensors, x, s[0]) then [x] + s
    else [s[0]] + InsertByDefinition(tensors, x, s[1..])
  }

  /** std::sort with the comparator above. */
  function SortByDefinition(tensors: seq<TensorLifetime>, s: seq<nat>): (r: seq<nat>)
    requires forall k | 0 <= k < |s| :: s[k] < |tensors|
    ensures multiset(r) == multiset(s)
    ensures forall k | 0 <= k < |r| :: r[k] < |tensors|
  {
    if s == [] then []
    else
      assert s == [s[0]] + s[1..];
      InsertKeepsElements(tensors, s[0], SortByDefinition(tensors, s[1..]));
      InsertByDefinition(tensors, s[0], SortByDefinition(tensors, s[1..]))
  }

  /** Bytes requested by the listed tensors. */
  function Weigh(tensors: seq<TensorLifetime>, s: seq<nat>): nat
    requires forall k | 0 <= k < |s| :: s[k] < |tensors|
  {
    if s == [] then 0 else tensors[s[0]].alignedSize + Weigh(tensors, s[1..])
  }

  lemma {:induction false} InsertKeepsElements(tensors: seq<TensorLifetime>, x: nat, s: seq<nat>)
    requires x < |tensors| && Indices(tensors, s)
    ensures multiset(InsertByDefinition(tensors, x, s)) == multiset(s) + multiset{x}
    ensures Indices(tensors, InsertByDefinition(tensors, x, s))
    ensures Weigh(tensors, InsertByDefinition(tensors, x, s)) == tensors[x].alignedSize + Weigh(tensors, s)
  {
    if s == [] || NoLater(tensors, x, s[0]) {
      assert ([x] + s)[1..] == s;
    } else {
      InsertKeepsElements(tensors, x, s[1..]);
      assert s == [s[0]] + s[1..];
      var rest := InsertByDefinition(tensors, x, s[1..]);
      assert ([s[0]] + rest)[1..] == rest;
    }
  }

  lemma {:induction false} InsertKeepsOrder(tensors: seq<TensorLifetime>, x: nat, s: seq<nat>)
    requires x < |tensors| && Indices(tensors, s) && InOrder(tensors, s)
    ensures Indices(tensors, InsertByDefinition(tensors, x, s))
    ensures InOrder(tensors, InsertByDefinition(tensors, x, s))
  {
    hide Weigh;
    InsertKeepsElements(tensors, x, s);
    if s == [] {
    } else if NoLater(tensors, x, s[0]) {
      forall k | 0 <= k < |s| ensures NoLater(tensors, x, s[k]) {
        NoLaterFacts(tensors, x, s[0], s[k]);
      }
    } else {
      InsertKeepsOrder(tensors, x, s[1..]);
      InsertKeepsElements(tensors, x, s[1..]);
      var rest := InsertByDefinition(tensors, x, s[1..]);
      NoLaterFacts(tensors, x, s[0], x);
      forall k | 0 <= k < |rest| ensures NoLater(tensors, s[0], rest[k]) {
        assert rest[k] in multiset(rest);
        assert rest[k] == x || rest[k] in s[1..];
      }
    }
  }

  lemma {:induction false} SortFactsByDefinition(tensors: seq<TensorLifetime>, s: seq<nat>)
    requires Indices(tensors, s)
    ensures InOrder(tensors, SortByDefinition(tensors, s))
    ensures Weigh(tensors, SortByDefinition(tensors, s)) == Weigh(tensors, s)
    ensures Distinct(s) ==> Distinct(SortByDefinition(tensors, s))
  {
    if s != [] {
      hide NoLater, InOrder;
      SortFactsByDefinition(tensors, s[1..]);
      InsertKeepsOrder(tensors, s[0], SortByDefinition(tensors, s[1..]));
      InsertKeepsElements(tensors, s[0], SortByDefinition(tensors, s[1..]));
      if Distinct(s) {
        DistinctByMultiset(s, SortByDefinition(tensors, s));
      }
    }
  }

  lemma DistinctByMultiset(s: seq<nat>, t: seq<nat>)
    requires Distinct(s) && multiset(s) == multiset(t)
    ensures Distinct(t)
  {
    forall i, j | 0 <= i < j < |t| ensures t[i] != t[j] {
      OccursOnce(s, t[j]);
      assert t == t[..j] + [t[j]] + t[j + 1..];
      assert multiset(t) == multiset(t[..j]) + multiset{t[j]} + multiset(t[j + 1..]);
      assert multiset(t[..j])[t[j]] == 0;
      assert t[..j][i] == t[i] && t[i] in multiset(t[..j]);
    }
  }

  lemma {:induction false} OccursOnce(s: seq<nat>, x: nat)
    requires Distinct(s)
    ensures multiset(s)[x] <= 1
  {
    if s != [] {
      var m := |s| - 1;
      OccursOnce(s[..m], x);
      assert s == s[..m] + [s[m]];
      assert s[m] !in s[..m];
    }
  }

  lemma {:induction false} WeighPush(tensors: seq<TensorLifetime>, s: seq<nat>, x: nat)
    requires Indices(tensors, s) && x < |tensors|
    ensures Weigh(tensors, s + [x]) == Weigh(tensors, s) + tensors[x].alignedSize
  {
    if s == [] {
      assert s + [x] == [x];
    } else {
      WeighPush(tensors, s[1..], x);
      assert (s + [x])[1..] == s[1..] + [x];
    }
  }

  lemma {:induction false} WeighPrefix(tensors: seq<TensorLifetime>, s: seq<nat>, k: nat)
    requires Indices(tensors, s) && k <= |s|
    ensures Weigh(tensors, s[..k]) <= Weigh(tensors, s)
    decreases |s| - k
  {
    if k < |s| {
      WeighPrefix(tensors, s, k + 1);
      WeighPush(tensors, s[..k], s[k]);
      assert s[..k + 1] == s[..k] + [s[k]];
    } else {
      assert s[..k] == s;
    }
  }

  // ----- placement -----

  /** What the placement loop needs to know about the tensors it places. */
  ghost predicate Placeable(tensors: seq<TensorLifetime>, order: seq<nat>, alignment: nat)
    requires Indices(tensors, order) && alignment > 0
  {
    && Distinct(order) && InOrder(tensors, order)
    && (forall k | 0 <= k < |order| ::
          var t := tensors[order[k]];
          0 < t.alignedSize <= UINT64_MAX && t.alignedSize % alignment == 0 && t.definitionIndex <= t.finalUse)
    && (forall i, j | 0 <= i < |order| && 0 <= j < |order| && tensors[order[i]].storage.ArenaOutput? ::
          tensors[order[j]].definitionIndex <= tensors[order[i]].finalUse)
  }

  /** Only arena offsets differ. */
  ghost predicate SameButOffsets(a: seq<TensorLifetime>, b: seq<TensorLifetime>) {
    |a| == |b| && forall k | 0 <= k < |a| :: a[k].(arenaOffset := None) == b[k].(arenaOffset := None)
  }

  /** The k-th allocation made is the one recorded for the k-th tensor in order. */
  ghost predicate RecordedAs(tensors: seq<TensorLifetime>, order: seq<nat>, placed: seq<ActiveAllocation>) {
    && |placed| <= |order|
    && forall k | 0 <= k < |placed| ::
         order[k] < |tensors|
         && placed[k].tensorIndex == order[k]
         && placed[k].finalUse == tensors[order[k]].finalUse
         && placed[k].size == tensors[order[k]].alignedSize
         && tensors[order[k]].arenaOffset == Some(placed[k].offset)
  }

  /** Earlier allocations are disjoint from later ones they outlive, and outputs from everything. */
  ghost predicate PlacedApart(tensors: seq<TensorLifetime>, order: seq<nat>, placed: seq<ActiveAllocation>)
    requires Indices(tensors, order) && |placed| <= |order|
  {
    forall i, j | 0 <= i < j < |placed| && MustNotShare(tensors[order[i]], tensors[order[j]]) ::
      Disjoint(placed[i].Region(), placed[j].Region())
  }

  /** The allocations a plan makes for the listed tensors, in that order. */
  ghost function AllocationsOf(tensors: seq<TensorLifetime>, order: seq<nat>): (r: seq<ActiveAllocation>)
    requires Indices(tensors, order) && forall k | 0 <= k < |order| :: tensors[order[k]].arenaOffset.Some?
    ensures |r| == |order|
  {
    seq(|order|, k requires 0 <= k < |order| =>
      var t := tensors[order[k]];
      ActiveAllocation(order[k], t.finalUse, t.arenaOffset.value, t.alignedSize))
  }

  /** Each tensor went where the allocations before it left the best gap, outputs to the end. */
  ghost predicate EachGoesToItsPlace(tensors: seq<TensorLifetime>, order: seq<nat>, placed: seq<ActiveAllocation>)
    requires Indices(tensors, order) && |placed| <= |order|
  {
    forall k {:trigger placed[k]} | 0 <= k < |placed| ::
      var t := tensors[order[k]];
      GoesTo(placed[..k], t.storage.ArenaOutput?, t.definitionIndex, t.alignedSize, placed[k].offset)
  }

  /** All arena tensors, by definition index and then by identifier. */
  ghost predicate IsAllocationOrder(tensors: seq<TensorLifetime>, order: seq<nat>) {
    && Indices(tensors, order) && Distinct(order) && InOrder(tensors, order)
    && forall k: nat :: k in order <==> k < |tensors| && !tensors[k].external
  }

  /** Where every tensor of the plan lies, and how large the arena is, in terms of the plan alone. */
  ghost predicate PlacedBestFit(tensors: seq<TensorLifetime>, order: seq<nat>, arenaSize: nat)
    requires Indices(tensors, order)
  {
    && (forall k | 0 <= k < |order| :: tensors[order[k]].arenaOffset.Some?)
    && EachGoesToItsPlace(tensors, order, AllocationsOf(tensors, order))
    && arenaSize == EndOf(AllocationsOf(tensors, order))
  }

  ghost predicate IsBestFitPlan(plan: MemoryPlan) {
    exists order :: IsAllocationOrder(plan.tensors, order) && PlacedBestFit(plan.tensors, order, plan.arenaSize)
  }

  /** The placement loop's invariant after the first |placed| tensors. */
  ghost predicate PlacementInvariant(unplaced: seq<TensorLifetime>, tensors: seq<TensorLifetime>,
                                     order: seq<nat>, placed: seq<ActiveAllocation>,
                                     arenaEnd: nat, horizon: nat, alignment: nat)
    requires alignment > 0 && Indices(unplaced, order)
  {
    && SameButOffsets(unplaced, tensors)
    && (forall k | 0 <= k < |tensors| && k !in order :: tensors[k] == unplaced[k])
    && RecordedAs(tensors, order, placed)
    && PlacedApart(unplaced, order, placed) && EachGoesToItsPlace(unplaced, order, placed)
    && (forall k | 0 <= k < |placed| :: placed[k].offset % alignment == 0)
    && (if placed == [] then horizon == 0 else horizon == unplaced[order[|placed| - 1]].definitionIndex)
    && arenaEnd <= Weigh(unplaced, order[..|placed|])
  }

  /**
   The placement loop of `plan_memory`. It cannot fail once the aligned sizes add up within 64
   bits, the arena is at most their sum, every tensor is placed inside it at an aligned offset,
   and tensors that must not share bytes do not.
   */
  method PlaceAll(unplaced: seq<TensorLifetime>, order: seq<nat>, alignment: nat)
    returns (r: Result<nat>, tensors: seq<TensorLifetime>)
    requires alignment > 0 && Indices(unplaced, order) && Placeable(unplaced, order, alignment)
    requires Weigh(unplaced, order) <= UINT64_MAX
    ensures r.Ok? && r.value <= Weigh(unplaced, order)
    ensures SameButOffsets(unplaced, tensors)
    ensures forall k | 0 <= k < |tensors| && k !in order :: tensors[k] == unplaced[k]
    ensures forall k | 0 <= k < |order| :: PlacedWithin(tensors[order[k]], r.value, alignment)
    ensures forall i, j | 0 <= i < j < |order| :: Separate(tensors[order[i]], tensors[order[j]])
    ensures Indices(tensors, order) && PlacedBestFit(tensors, order, r.value)
  {
    tensors := unplaced;
    var allocator := new Allocator(alignment);
    for m := 0 to |order|
      invariant fresh(allocator) && allocator.Valid() && allocator.alignment == alignment
      invariant |allocator.placed| == m
      invariant PlacementInvariant(unplaced, tensors, order, allocator.placed,
                                   allocator.arenaEnd, allocator.horizon, alignment)
    {
      var t := tensors[order[m]];
      ghost var placed, end, horizon := allocator.placed, allocator.arenaEnd, allocator.horizon;
      NextPlaceable(unplaced, tensors, order, placed, end, horizon, alignment);
      var failed, offset := PlaceOne(allocator, t, order[m]);
      if failed {
        return Err(Overflow), tensors;
      }
      PlacementStep(unplaced, tensors, order, placed, end, horizon, alignment, offset, allocator.arenaEnd);
      tensors := tensors[order[m] := t.(arenaOffset := Some(offset))];
    }
    assert order[..|order|] == order;
    r := Ok(allocator.arenaEnd);
    FinishPlacement(unplaced, tensors, order, allocator.placed, allocator.arenaEnd, alignment);
    AllocationsRecorded(unplaced, tensors, order, allocator.placed);
  }

  /** The allocations made are those of the plan. */
  lemma AllocationsRecorded(unplaced: seq<TensorLifetime>, tensors: seq<TensorLifetime>, order: seq<nat>,
                            placed: seq<ActiveAllocation>)
    requires Indices(unplaced, order) && SameButOffsets(unplaced, tensors) && |placed| == |order|
    requires RecordedAs(tensors, order, placed) && EachGoesToItsPlace(unplaced, order, placed)
    ensures Indices(tensors, order) && PlacedBestFit(tensors, order, EndOf(placed))
  {
    hide GoesTo;
    forall k | 0 <= k < |placed|
      ensures var t := tensors[order[k]];
        GoesTo(placed[..k], t.storage.ArenaOutput?, t.definitionIndex, t.alignedSize, placed[k].offset)
    {
      assert tensors[order[k]].(arenaOffset := None) == unplaced[order[k]].(arenaOffset := None);
      var t := unplaced[order[k]];
      assert placed[k] == placed[k];
      assert GoesTo(placed[..k], t.storage.ArenaOutput?, t.definitionIndex, t.alignedSize, placed[k].offset);
    }
    assert AllocationsOf(tensors, order) == placed;
  }

  /** What the loop needs to know about the next tensor before placing it. */
  lemma NextPlaceable(unplaced: seq<TensorLifetime>, tensors: seq<TensorLifetime>, order: seq<nat>,
                      placed: seq<ActiveAllocation>, arenaEnd: nat, horizon: nat, alignment: nat)
    requires alignment > 0 && Indices(unplaced, order) && Placeable(unplaced, order, alignment)
    requires Weigh(unplaced, order) <= UINT64_MAX && |placed| < |order|
    requires PlacementInvariant(unplaced, tensors, order, placed, arenaEnd, horizon, alignment)
    ensures var t := tensors[order[|placed|]];
      && horizon <= t.definitionIndex <= t.finalUse
      && 0 < t.alignedSize <= UINT64_MAX && t.alignedSize % alignment == 0
      && arenaEnd + t.alignedSize <= Weigh(unplaced, order[..|placed| + 1]) <= UINT64_MAX
  {
    var m := |placed|;
    var t := tensors[order[m]];
    assert t == unplaced[order[m]].(arenaOffset := t.arenaOffset);
    BudgetStep(unplaced, order, m);
    if m > 0 {
      assert NoLater(unplaced, order[m - 1], order[m]);
    }
  }

  lemma PlacementStep(unplaced: seq<TensorLifetime>, tensors: seq<TensorLifetime>, order: seq<nat>,
                      placed: seq<ActiveAllocation>, arenaEnd: nat, horizon: nat, alignment: nat,
                      offset: nat, newEnd: nat)
    requires alignment > 0 && Indices(unplaced, order) && Placeable(unplaced, order, alignment)
    requires |placed| < |order|
    requires PlacementInvariant(unplaced, tensors, order, placed, arenaEnd, horizon, alignment)
    requires newEnd <= Weigh(unplaced, order[..|placed| + 1]) && offset % alignment == 0
    requires var t := tensors[order[|placed|]];
      GoesTo(placed, t.storage.ArenaOutput?, t.definitionIndex, t.alignedSize, offset)
    requires var t := tensors[order[|placed|]];
      forall a <- placed | a.finalUse >= t.definitionIndex || t.storage.ArenaOutput? ::
        Disjoint(a.Region(), Block(offset, t.alignedSize))
    ensures var t := tensors[order[|placed|]];
      PlacementInvariant(unplaced, tensors[order[|placed|] := t.(arenaOffset := Some(offset))], order,
        placed + [ActiveAllocation(order[|placed|], t.finalUse, offset, t.alignedSize)],
        newEnd, t.definitionIndex, alignment)
  {
    hide Weigh, GoesTo, EachGoesToItsPlace, PlacedApart;
    var m := |placed|;
    var t := tensors[order[m]];
    assert t == unplaced[order[m]].(arenaOffset := t.arenaOffset);
    var next := placed + [ActiveAllocation(order[m], t.finalUse, offset, t.alignedSize)];
    RecordNext(unplaced, tensors, order, placed, offset);
    FinalUsesAgree(unplaced, tensors, order, placed);
    assert next[..m] == placed;
    NewPlacementApart(unplaced, order, next, m, t.definitionIndex);
    NextGoesToItsPlace(unplaced, order, placed, next[m]);
  }

  lemma NextGoesToItsPlace(tensors: seq<TensorLifetime>, order: seq<nat>, placed: seq<ActiveAllocation>,
                           a: ActiveAllocation)
    requires Indices(tensors, order) && |placed| < |order| && EachGoesToItsPlace(tensors, order, placed)
    requires var t := tensors[order[|placed|]];
      GoesTo(placed, t.storage.ArenaOutput?, t.definitionIndex, t.alignedSize, a.offset)
    ensures EachGoesToItsPlace(tensors, order, placed + [a])
  {
    hide GoesTo;
    var next := placed + [a];
    forall k | 0 <= k < |next|
      ensures var t := tensors[order[k]];
        GoesTo(next[..k], t.storage.ArenaOutput?, t.definitionIndex, t.alignedSize, next[k].offset)
    {
      assert next[..k] == placed[..k];
      if k < |placed| {
        assert next[k] == placed[k];
      } else {
        assert next[..k] == placed;
      }
    }
  }

  lemma FinalUsesAgree(unplaced: seq<TensorLifetime>, tensors: seq<TensorLifetime>, order: seq<nat>,
                       placed: seq<ActiveAllocation>)
    requires Indices(unplaced, order) && SameButOffsets(unplaced, tensors) && RecordedAs(tensors, order, placed)
    ensures forall k | 0 <= k < |placed| :: placed[k].finalUse == unplaced[order[k]].finalUse
  {
    forall k | 0 <= k < |placed| ensures placed[k].finalUse == unplaced[order[k]].finalUse {
      assert tensors[order[k]].(arenaOffset := None) == unplaced[order[k]].(arenaOffset := None);
    }
  }

  lemma RecordNext(unplaced: seq<TensorLifetime>, tensors: seq<TensorLifetime>, order: seq<nat>,
                   placed: seq<ActiveAllocation>, offset: nat)
    requires Indices(unplaced, order) && Distinct(order) && |placed| < |order|
    requires SameButOffsets(unplaced, tensors) && RecordedAs(tensors, order, placed)
    ensures var t := tensors[order[|placed|]];
      var updated := tensors[order[|placed|] := t.(arenaOffset := Some(offset))];
      && SameButOffsets(unplaced, updated)
      && RecordedAs(updated, order, placed + [ActiveAllocation(order[|placed|], t.finalUse, offset, t.alignedSize)])
      && forall k | 0 <= k < |tensors| && k !in order :: updated[k] == tensors[k]
  {
    var m := |placed|;
    var t := tensors[order[m]];
    var updated := tensors[order[m] := t.(arenaOffset := Some(offset))];
    forall k | 0 <= k < m ensures updated[order[k]] == tensors[order[k]] {
    }
  }

  lemma BudgetStep(tensors: seq<TensorLifetime>, order: seq<nat>, m: nat)
    requires Indices(tensors, order) && m < |order|
    ensures Weigh(tensors, order[..m]) + tensors[order[m]].alignedSize == Weigh(tensors, order[..m + 1])
    ensures Weigh(tensors, order[..m + 1]) <= Weigh(tensors, order)
  {
    WeighPush(tensors, order[..m], order[m]);
    assert order[..m + 1] == order[..m] + [order[m]];
    WeighPrefix(tensors, order, m + 1);
  }

  /** One iteration: release what has expired, reserve, activate. */
  method PlaceOne(allocator: Allocator, t: TensorLifetime, index: nat)
    returns (failed: bool, offset: nat)
    requires allocator.Valid() && allocator.horizon <= t.definitionIndex <= t.finalUse
    requires 0 < t.alignedSize <= UINT64_MAX && t.alignedSize % allocator.alignment == 0
    requires allocator.arenaEnd + t.alignedSize <= UINT64_MAX
    modifies allocator
    ensures !failed && allocator.Valid()
    ensures allocator.horizon == t.definitionIndex
    ensures old(allocator.arenaEnd) <= allocator.arenaEnd <= old(allocator.arenaEnd) + t.alignedSize
    ensures allocator.placed == old(allocator.placed) + [ActiveAllocation(index, t.finalUse, offset, t.alignedSize)]
    ensures offset % allocator.alignment == 0
    ensures GoesTo(old(allocator.placed), t.storage.ArenaOutput?, t.definitionIndex, t.alignedSize, offset)
    ensures forall a <- old(allocator.placed) | a.finalUse >= t.definitionIndex || t.storage.ArenaOutput? ::
      Disjoint(a.Region(), Block(offset, t.alignedSize))
  {
    hide GoesTo;
    failed, offset := true, 0;
    ghost var placed := allocator.placed;
    var released := allocator.ReleaseExpired(t.definitionIndex);
    if released != Success {
      return;
    }
    forall a <- placed | a.finalUse >= t.definitionIndex ensures a in allocator.active {
      var k :| 0 <= k < |placed| && placed[k] == a;
      RetainedHas(placed, t.definitionIndex, k);
    }
    EndOfBound(placed);
    var r := Reserve(allocator, t.storage.ArenaOutput?, t.alignedSize);
    if r.Err? {
      return;
    }
    offset := r.value;
    assert GoesTo(placed, t.storage.ArenaOutput?, t.definitionIndex, t.alignedSize, offset);
    if t.storage.ArenaOutput? {
      forall a <- placed ensures Disjoint(a.Region(), Block(offset, t.alignedSize)) {
      }
    }
    allocator.Activate(index, t.finalUse, offset, t.alignedSize);
    failed := false;
  }

  /** The bytes of the next tensor. */
  method Reserve(allocator: Allocator, output: bool, size: nat) returns (r: Result<nat>)
    requires allocator.Valid() && 0 < size <= UINT64_MAX && size % allocator.alignment == 0
    requires allocator.arenaEnd + size <= UINT64_MAX
    modifies allocator`freeBlocks, allocator`arenaEnd
    ensures r.Ok? && allocator.Reserved(r.value, size)
    ensures old(allocator.arenaEnd) <= allocator.arenaEnd <= old(allocator.arenaEnd) + size
    ensures GoesTo(allocator.placed, output, allocator.horizon, size, r.value)
    ensures output ==> r.value == EndOf(allocator.placed)
  {
    FreeListHasGaps(allocator, size);
    hide IsBestGap, GapFits;
    ghost var free := allocator.freeBlocks;
    if output {
      r := allocator.AppendProtected(size);
    } else {
      r := allocator.AllocateBestFit(size);
      if SomeFit(free, size) {
        ghost var i: nat :| BestFit(free, size, i) && r == Ok(free[i].offset);
        assert IsBestGap(allocator.placed, allocator.horizon, size, free[i]);
      }
    }
  }

  lemma FreeListHasGaps(allocator: Allocator, size: nat)
    requires allocator.Valid()
    ensures allocator.arenaEnd == EndOf(allocator.placed)
    ensures SomeFit(allocator.freeBlocks, size)
      <==> exists b :: GapFits(allocator.placed, allocator.horizon, size, b)
    ensures forall i: nat | BestFit(allocator.freeBlocks, size, i) ::
      IsBestGap(allocator.placed, allocator.horizon, size, allocator.freeBlocks[i])
  {
    forall k | 0 <= k < |allocator.freeBlocks| ensures allocator.freeBlocks[k].size > 0 {
      assert AlignedBlock(allocator.freeBlocks[k], allocator.alignment);
    }
    BestFitIsBestGap(allocator.placed, allocator.horizon, allocator.freeBlocks, size);
  }

  lemma NewPlacementApart(tensors: seq<TensorLifetime>, order: seq<nat>, placed: seq<ActiveAllocation>,
                          m: nat, definition: nat)
    requires Indices(tensors, order) && |placed| == m + 1 <= |order|
    requires PlacedApart(tensors, order, placed[..m])
    requires InOrder(tensors, order)
    requires forall k | 0 <= k <= m :: placed[k].finalUse == tensors[order[k]].finalUse
    requires definition == tensors[order[m]].definitionIndex
    requires forall i | 0 <= i < m && tensors[order[i]].storage.ArenaOutput? :: definition <= placed[i].finalUse
    requires forall a <- placed[..m] | a.finalUse >= definition || tensors[order[m]].storage.ArenaOutput? ::
      Disjoint(a.Region(), placed[m].Region())
    ensures PlacedApart(tensors, order, placed)
  {
    forall i, j | 0 <= i < j < |placed| && MustNotShare(tensors[order[i]], tensors[order[j]])
      ensures Disjoint(placed[i].Region(), placed[j].Region())
    {
      if j < m {
        assert placed[..m][i] == placed[i] && placed[..m][j] == placed[j];
      } else {
        assert placed[..m][i] == placed[i];
      }
    }
  }

  lemma FinishPlacement(unplaced: seq<TensorLifetime>, tensors: seq<TensorLifetime>, order: seq<nat>,
                        placed: seq<ActiveAllocation>, arenaEnd: nat, alignment: nat)
    requires alignment > 0 && Indices(unplaced, order) && SameButOffsets(unplaced, tensors)
    requires |placed| == |order| && RecordedAs(tensors, order, placed) && PlacedApart(unplaced, order, placed)
    requires forall k | 0 <= k < |placed| :: placed[k].offset % alignment == 0
    requires arenaEnd == EndOf(placed)
    ensures forall k | 0 <= k < |order| :: PlacedWithin(tensors[order[k]], arenaEnd, alignment)
    ensures forall i, j | 0 <= i < j < |order| :: Separate(tensors[order[i]], tensors[order[j]])
  {
    EndOfBound(placed);
    forall k | 0 <= k < |order| ensures PlacedWithin(tensors[order[k]], arenaEnd, alignment) {
      assert Region(tensors[order[k]]) == placed[k].Region();
      assert placed[k] in placed;
    }
    forall i, j | 0 <= i < j < |order| ensures Separate(tensors[order[i]], tensors[order[j]]) {
      SameLifetimes(unplaced, tensors, order[i], order[j]);
      assert Region(tensors[order[i]]) == placed[i].Region() && Region(tensors[order[j]]) == placed[j].Region();
    }
  }

  lemma SameLifetimes(a: seq<TensorLifetime>, b: seq<TensorLifetime>, i: nat, j: nat)
    requires SameButOffsets(a, b) && i < |a| && j < |a|
    ensures MustNotShare(a[i], a[j]) == MustNotShare(b[i], b[j])
  {
    assert a[i].(arenaOffset := None) == b[i].(arenaOffset := None);
    assert a[j].(arenaOffset := None) == b[j].(arenaOffset := None);
  }

  // ----- accounting -----

  /** Aligned bytes of all arena tensors: what one buffer per tensor would cost. */
  function ArenaBytes(tensors: seq<TensorLifetime>): nat {
    if tensors == [] then 0
    else
      var m := |tensors| - 1;
      ArenaBytes(tensors[..m]) + if tensors[m].external then 0 else tensors[m].alignedSize
  }

  /** Aligned bytes of the arena tensors live at schedule index `index`. */
  function LiveBytes(tensors: seq<TensorLifetime>, index: nat): nat {
    if tensors == [] then 0
    else
      var m := |tensors| - 1;
      LiveBytes(tensors[..m], index)
      + if tensors[m].external || !tensors[m].LiveAt(index) then 0 else tensors[m].alignedSize
  }

  lemma {:induction false} LiveIsPartOfArena(tensors: seq<TensorLifetime>, index: nat)
    ensures LiveBytes(tensors, index) <= ArenaBytes(tensors)
  {
    if tensors != [] {
      LiveIsPartOfArena(tensors[..|tensors| - 1], index);
    }
  }

  lemma {:induction false} ArenaBytesPrefix(tensors: seq<TensorLifetime>, k: nat)
    requires k <= |tensors|
    ensures ArenaBytes(tensors[..k]) <= ArenaBytes(tensors)
    decreases |tensors| - k
  {
    if k < |tensors| {
      ArenaBytesPrefix(tensors, k + 1);
      assert tensors[..k + 1][..k] == tensors[..k];
    } else {
      assert tensors[..k] == tensors;
    }
  }

  /** The arena tensors live at `index`, in increasing order. */
  function LiveIndices(tensors: seq<TensorLifetime>, index: nat): (r: seq<nat>)
    ensures forall k | 0 <= k < |r| ::
      r[k] < |tensors| && !tensors[r[k]].external && tensors[r[k]].LiveAt(index)
    ensures forall i, j | 0 <= i < j < |r| :: r[i] < r[j]
  {
    if tensors == [] then []
    else
      var m := |tensors| - 1;
      var earlier := LiveIndices(tensors[..m], index);
      if tensors[m].external || !tensors[m].LiveAt(index) then earlier else earlier + [m]
  }

  lemma {:induction false} TotalSizePush(s: seq<Block>, b: Block)
    ensures TotalSize(s + [b]) == TotalSize(s) + b.size
  {
    if s != [] {
      TotalSizePush(s[1..], b);
      assert (s + [b])[1..] == s[1..] + [b];
    }
  }

  lemma {:induction false} LiveBlocksTotal(tensors: seq<TensorLifetime>, index: nat, blocks: seq<Block>)
    requires |blocks| == |LiveIndices(tensors, index)|
    requires forall k | 0 <= k < |blocks| :: blocks[k].size == tensors[LiveIndices(tensors, index)[k]].alignedSize
    ensures TotalSize(blocks) == LiveBytes(tensors, index)
  {
    if tensors != [] {
      var m := |tensors| - 1;
      if tensors[m].external || !tensors[m].LiveAt(index) {
        LiveBlocksTotal(tensors[..m], index, blocks);
      } else {
        var n := |blocks| - 1;
        LiveBlocksTotal(tensors[..m], index, blocks[..n]);
        TotalSizePush(blocks[..n], blocks[n]);
        assert blocks == blocks[..n] + [blocks[n]];
      }
    }
  }

  /** At every index the live tensors occupy disjoint blocks, so together they fit the arena. */
  lemma LiveFitsArena(tensors: seq<TensorLifetime>, index: nat, arenaSize: nat, alignment: nat)
    requires forall k | 0 <= k < |tensors| ::
      tensors[k].external || PlacedWithin(tensors[k], arenaSize, alignment)
    requires NoSharing(tensors)
    ensures LiveBytes(tensors, index) <= arenaSize
  {
    var live := LiveIndices(tensors, index);
    forall k | 0 <= k < |live| ensures PlacedWithin(tensors[live[k]], arenaSize, alignment) {
      assert tensors[live[k]].external || PlacedWithin(tensors[live[k]], arenaSize, alignment);
    }
    var blocks := seq(|live|, k requires 0 <= k < |live| => Region(tensors[live[k]]));
    forall i, j | 0 <= i < j < |blocks| ensures Disjoint(blocks[i], blocks[j]) {
      assert Separate(tensors[live[i]], tensors[live[j]]);
    }
    LiveBlocksTotal(tensors, index, blocks);
    PackingBound(blocks, arenaSize);
  }

  ghost predicate IsPeak(tensors: seq<TensorLifetime>, boundary: nat, peak: nat) {
    && (forall index: nat | index <= boundary :: LiveBytes(tensors, index) <= peak)
    && exists index: nat | index <= boundary :: LiveBytes(tensors, index) == peak
  }

  /** The peak loop. Its overflow exit is never taken once the naive total fits. */
  method PeakLiveBytes(tensors: seq<TensorLifetime>, boundary: nat) returns (r: Result<nat>)
    requires ArenaBytes(tensors) <= UINT64_MAX
    ensures r.Ok? && IsPeak(tensors, boundary, r.value)
  {
    var peak: nat := 0;
    for index := 0 to boundary + 1
      invariant forall i: nat | i < index :: LiveBytes(tensors, i) <= peak
      invariant if index == 0 then peak == 0 else exists i: nat | i < index :: LiveBytes(tensors, i) == peak
    {
      var live: nat := 0;
      for k := 0 to |tensors|
        invariant live == LiveBytes(tensors[..k], index) <= UINT64_MAX
      {
        assert tensors[..k + 1][..k] == tensors[..k];
        LiveIsPartOfArena(tensors[..k + 1], index);
        ArenaBytesPrefix(tensors, k + 1);
        if !tensors[k].external && tensors[k].LiveAt(index) {
          var sum := CheckedAdd(live, tensors[k].alignedSize);
          if sum.Err? {
            return Err(Overflow);
          }
          live := sum.value;
        }
      }
      assert tensors[..|tensors|] == tensors;
      peak := if live > peak then live else peak;
    }
    return Ok(peak);
  }

  lemma ArenaIndices(tensors: seq<TensorLifetime>, indices: seq<nat>, k: nat)
    requires k < |tensors| && Indices(tensors, indices) && Distinct(indices) && !tensors[k].external
    requires forall j: nat :: j in indices <==> j < k && !tensors[j].external
    ensures Indices(tensors, indices + [k]) && Distinct(indices + [k])
    ensures forall j: nat :: j in indices + [k] <==> j < k + 1 && !tensors[j].external
  {
  }

  /** Lists the arena tensors and adds up their sizes; fails when the sum exceeds 64 bits. */
  method ArenaTensors(tensors: seq<TensorLifetime>) returns (r: Result<nat>, indices: seq<nat>)
    requires forall t <- tensors :: t.alignedSize <= UINT64_MAX
    ensures r.Ok? <==> ArenaBytes(tensors) <= UINT64_MAX
    ensures r.Ok? ==> r.value == ArenaBytes(tensors)
    ensures r.Ok? ==> Indices(tensors, indices) && Distinct(indices)
    ensures r.Ok? ==> Weigh(tensors, indices) == ArenaBytes(tensors)
    ensures r.Ok? ==> forall k: nat :: k in indices <==> k < |tensors| && !tensors[k].external
  {
    indices := [];
    var naive: nat := 0;
    for k := 0 to |tensors|
      invariant Indices(tensors, indices) && Distinct(indices)
      invariant forall j: nat :: j in indices <==> j < k && !tensors[j].external
      invariant naive == ArenaBytes(tensors[..k]) == Weigh(tensors, indices) <= UINT64_MAX
    {
      assert tensors[..k + 1][..k] == tensors[..k];
      if !tensors[k].external {
        var sum := CheckedAdd(naive, tensors[k].alignedSize);
        if sum.Err? {
          ArenaBytesPrefix(tensors, k + 1);
          return Err(Overflow), indices;
        }
        WeighPush(tensors, indices, k);
        ArenaIndices(tensors, indices, k);
        naive := sum.value;
        indices := indices + [k];
      }
    }
    assert tensors[..|tensors|] == tensors;
    return Ok(naive), indices;
  }

  // ----- the planner -----

  /** The naive total in terms of the graph alone. */
  ghost function NaiveBytes(g: GraphData, alignment: nat, values: seq<Value>): nat
    requires alignment > 0
  {
    if values == [] then 0
    else
      var v := values[|values| - 1];
      NaiveBytes(g, alignment, values[..|values| - 1])
      + if IsExternal(g, v) || ByteSize(v.descriptor) < 0 then 0 else AlignUp(ByteSize(v.descriptor), alignment)
  }

  /** A declared output is not an input, a parameter or a constant (the loader guarantees more). */
  predicate RolesAgree(g: GraphData) {
    forall v <- g.values | v.id in g.outputIds :: v.kind.OutputValue? || v.kind.IntermediateValue?
  }

  /** Exactly when planning succeeds, in terms of the graph alone. */
  ghost predicate Plannable(g: GraphData, backend: string, alignment: nat) {
    && backend != "" && alignment > 0 && IsPowerOfTwo(alignment)
    && Schedulable(g.operations)
    && (forall v <- g.values :: ValuePlannable(g, alignment, v))
    && NaiveBytes(g, alignment, g.values) <= UINT64_MAX
    && RolesAgree(g)
  }

  /** What a successful plan is. */
  ghost predicate IsPlanFor(g: GraphData, alignment: nat, plan: MemoryPlan) {
    && alignment > 0 && plan.alignmentBytes == alignment
    && IsScheduleOf(g.operations, plan.schedule)
    && FollowsDependencies(g.operations, plan.schedule)
    && |plan.tensors| == |g.values|
    && (forall k | 0 <= k < |g.values| ::
          IsLifetime(g, plan.schedule, alignment, g.values[k], plan.tensors[k]))
    && plan.naive == NaiveBytes(g, alignment, g.values)
    && IsPeak(plan.tensors, |plan.schedule|, plan.peakLive)
    && PlanVerified(plan)
  }

  lemma {:induction false} NaiveBytesAgree(g: GraphData, schedule: Schedule, alignment: nat,
                                           values: seq<Value>, tensors: seq<TensorLifetime>)
    requires alignment > 0 && |values| == |tensors|
    requires forall k | 0 <= k < |values| :: IsLifetime(g, schedule, alignment, values[k], tensors[k])
    ensures NaiveBytes(g, alignment, values) == ArenaBytes(tensors)
  {
    if values != [] {
      var m := |values| - 1;
      NaiveBytesAgree(g, schedule, alignment, values[..m], tensors[..m]);
      assert IsLifetime(g, schedule, alignment, values[m], tensors[m]);
    }
  }

  /** Lifetimes of all values; fails on the first that is not plannable. */
  method ComputeLifetimes(g: GraphData, schedule: Schedule, alignment: nat)
    returns (r: Result<seq<TensorLifetime>>)
    requires 0 < alignment <= UINT64_MAX && DistinctOutputs(g.operations)
    requires FollowsDependencies(g.operations, schedule)
    ensures r.Ok? <==> forall v <- g.values :: ValuePlannable(g, alignment, v)
    ensures r.Ok? ==> |r.value| == |g.values| && forall k | 0 <= k < |g.values| ::
      IsLifetime(g, schedule, alignment, g.values[k], r.value[k]) && r.value[k].arenaOffset == None
  {
    var definitions, duplicate := IndexDefinitions(schedule);
    if duplicate {
      return Err(FailedPrecondition);
    }
    var uses := IndexUses(schedule);
    var tensors: seq<TensorLifetime> := [];
    for k := 0 to |g.values|
      invariant |tensors| == k
      invariant forall j | 0 <= j < k :: ValuePlannable(g, alignment, g.values[j])
      invariant forall j | 0 <= j < k ::
        IsLifetime(g, schedule, alignment, g.values[j], tensors[j]) && tensors[j].arenaOffset == None
    {
      var lifetime := ComputeLifetime(g, schedule, alignment, g.values[k], definitions, uses);
      if lifetime.Err? {
        return Err(lifetime.code);
      }
      tensors := tensors + [lifetime.value];
    }
    return Ok(tensors);
  }

  lemma LifetimesArePlaceable(g: GraphData, schedule: Schedule, alignment: nat,
                              unplaced: seq<TensorLifetime>, order: seq<nat>)
    requires alignment > 0 && |unplaced| == |g.values|
    requires forall k | 0 <= k < |g.values| :: IsLifetime(g, schedule, alignment, g.values[k], unplaced[k])
    requires Indices(unplaced, order) && Distinct(order) && InOrder(unplaced, order)
    ensures Placeable(unplaced, order, alignment)
  {
    forall k | 0 <= k < |unplaced|
      ensures 0 < unplaced[k].alignedSize <= UINT64_MAX && unplaced[k].alignedSize % alignment == 0
      ensures unplaced[k].definitionIndex <= unplaced[k].finalUse && unplaced[k].definitionIndex < |schedule|
      ensures unplaced[k].storage.ArenaOutput? ==> unplaced[k].finalUse == |schedule|
    {
      assert IsLifetime(g, schedule, alignment, g.values[k], unplaced[k]);
    }
  }

  lemma {:induction false} ArenaBytesIgnoreOffsets(a: seq<TensorLifetime>, b: seq<TensorLifetime>)
    requires SameButOffsets(a, b)
    ensures ArenaBytes(a) == ArenaBytes(b)
  {
    if a != [] {
      var m := |a| - 1;
      assert a[m].(arenaOffset := None) == b[m].(arenaOffset := None);
      ArenaBytesIgnoreOffsets(a[..m], b[..m]);
    }
  }

  lemma OffsetsDoNotMatter(g: GraphData, schedule: Schedule, alignment: nat,
                           unplaced: seq<TensorLifetime>, tensors: seq<TensorLifetime>)
    requires alignment > 0 && |unplaced| == |g.values| && SameButOffsets(unplaced, tensors)
    requires forall k | 0 <= k < |g.values| :: IsLifetime(g, schedule, alignment, g.values[k], unplaced[k])
    ensures forall k | 0 <= k < |g.values| :: IsLifetime(g, schedule, alignment, g.values[k], tensors[k])
  {
    forall k | 0 <= k < |g.values| ensures IsLifetime(g, schedule, alignment, g.values[k], tensors[k]) {
      assert unplaced[k].(arenaOffset := None) == tensors[k].(arenaOffset := None);
      assert tensors[k] == unplaced[k].(arenaOffset := tensors[k].arenaOffset);
      assert IsLifetime(g, schedule, alignment, g.values[k], unplaced[k]);
    }
  }

  /** Separation over the allocation order is separation over all tensors. */
  lemma SeparateEverywhere(tensors: seq<TensorLifetime>, order: seq<nat>)
    requires Indices(tensors, order)
    requires forall k: nat | k < |tensors| :: k in order || tensors[k].arenaOffset == None
    requires forall i, j | 0 <= i < j < |order| :: Separate(tensors[order[i]], tensors[order[j]])
    ensures NoSharing(tensors)
  {
    forall i: nat, j: nat | i < j < |tensors| ensures Separate(tensors[i], tensors[j]) {
      if tensors[i].arenaOffset.Some? && tensors[j].arenaOffset.Some? {
        var p, q := Position(order, i), Position(order, j);
        assert if p < q then Separate(tensors[order[p]], tensors[order[q]])
               else Separate(tensors[order[q]], tensors[order[p]]);
      }
    }
  }

  lemma PlacementCoversArena(unplaced: seq<TensorLifetime>, tensors: seq<TensorLifetime>,
                             indices: seq<nat>, order: seq<nat>, arenaSize: nat, alignment: nat)
    requires SameButOffsets(unplaced, tensors) && Indices(unplaced, order) && multiset(order) == multiset(indices)
    requires forall k: nat :: k in indices <==> k < |unplaced| && !unplaced[k].external
    requires forall k | 0 <= k < |unplaced| :: unplaced[k].arenaOffset == None
    requires forall k | 0 <= k < |tensors| && k !in order :: tensors[k] == unplaced[k]
    requires forall k | 0 <= k < |order| :: PlacedWithin(tensors[order[k]], arenaSize, alignment)
    requires forall i, j | 0 <= i < j < |order| :: Separate(tensors[order[i]], tensors[order[j]])
    ensures NoSharing(tensors)
    ensures forall k | 0 <= k < |tensors| ::
      if tensors[k].external then tensors[k].arenaOffset == None
      else PlacedWithin(tensors[k], arenaSize, alignment)
  {
    forall k: nat | k < |tensors|
      ensures k in order <==> !tensors[k].external
    {
      assert k in order <==> k in multiset(order);
      assert k in indices <==> k in multiset(indices);
      assert unplaced[k].(arenaOffset := None) == tensors[k].(arenaOffset := None);
    }
    SeparateEverywhere(tensors, order);
    forall k: nat | k < |tensors| && !tensors[k].external ensures PlacedWithin(tensors[k], arenaSize, alignment) {
      assert tensors[order[Position(order, k)]] == tensors[k];
    }
  }

  lemma PlacedInOrder(unplaced: seq<TensorLifetime>, tensors: seq<TensorLifetime>, indices: seq<nat>,
                      order: seq<nat>)
    requires SameButOffsets(unplaced, tensors) && Indices(unplaced, order) && multiset(order) == multiset(indices)
    requires Distinct(order) && InOrder(unplaced, order)
    requires forall k: nat :: k in indices <==> k < |unplaced| && !unplaced[k].external
    ensures IsAllocationOrder(tensors, order)
  {
    forall k: nat ensures k in order <==> k < |tensors| && !tensors[k].external {
      assert k in order <==> k in multiset(order);
      assert k in indices <==> k in multiset(indices);
      if k < |tensors| {
        assert unplaced[k].(arenaOffset := None) == tensors[k].(arenaOffset := None);
      }
    }
    forall i, j | 0 <= i < j < |order| ensures NoLater(tensors, order[i], order[j]) {
      assert NoLater(unplaced, order[i], order[j]);
      assert unplaced[order[i]].(arenaOffset := None) == tensors[order[i]].(arenaOffset := None);
      assert unplaced[order[j]].(arenaOffset := None) == tensors[order[j]].(arenaOffset := None);
    }
  }

  /** Of all the closing checks only the value kinds of declared outputs can fail. */
  lemma VerificationDependsOnRoles(g: GraphData, plan: MemoryPlan)
    requires plan.alignmentBytes > 0 && IsPowerOfTwo(plan.alignmentBytes)
    requires |plan.tensors| == |g.values| && plan.arenaSize <= plan.naive <= UINT64_MAX
    requires forall k | 0 <= k < |g.values| ::
      IsLifetime(g, plan.schedule, plan.alignmentBytes, g.values[k], plan.tensors[k])
    requires forall k | 0 <= k < |plan.tensors| ::
      if plan.tensors[k].external then plan.tensors[k].arenaOffset == None
      else PlacedWithin(plan.tensors[k], plan.arenaSize, plan.alignmentBytes)
    requires NoSharing(plan.tensors) && IsPeak(plan.tensors, |plan.schedule|, plan.peakLive)
    ensures PlanVerified(plan) <==> RolesAgree(g)
  {
    forall k | 0 <= k < |g.values|
      ensures TensorVerified(plan, plan.tensors[k]) <==>
        (g.values[k].id in g.outputIds ==> g.values[k].kind.OutputValue? || g.values[k].kind.IntermediateValue?)
    {
      assert IsLifetime(g, plan.schedule, plan.alignmentBytes, g.values[k], plan.tensors[k]);
    }
    var peakIndex: nat :| peakIndex <= |plan.schedule| && LiveBytes(plan.tensors, peakIndex) == plan.peakLive;
    LiveFitsArena(plan.tensors, peakIndex, plan.arenaSize, plan.alignmentBytes);
    if RolesAgree(g) {
      forall k | 0 <= k < |plan.tensors| ensures TensorVerified(plan, plan.tensors[k]) {
        assert g.values[k] in g.values;
      }
    }
    if PlanVerified(plan) {
      forall v <- g.values | v.id in g.outputIds ensures v.kind.OutputValue? || v.kind.IntermediateValue? {
        var k :| 0 <= k < |g.values| && g.values[k] == v;
        assert TensorVerified(plan, plan.tensors[k]);
      }
    }
  }

  /**
   `plan_memory` succeeds exactly on plannable graphs: past the naive total no overflow exit is
   taken, the arena-exceeds-naive exit is never taken, and the closing verification can only
   reject a declared output whose value kind says it is external.
   */
  method PlanMemory(g: GraphData, backend: string, alignment: nat) returns (r: Result<MemoryPlan>)
    requires alignment <= UINT64_MAX && |g.operations| < UINT64_MAX
    ensures r.Ok? <==> Plannable(g, backend, alignment)
    ensures r.Ok? ==> IsPlanFor(g, alignment, r.value) && IsBestFitPlan(r.value)
  {
    if backend == "" || !IsPowerOfTwo(alignment) {
      return Err(InvalidArgument);
    }
    var scheduled := BuildExecutionSchedule(g.operations);
    if scheduled.Err? {
      return Err(scheduled.code);
    }
    var schedule := scheduled.value;
    ScheduleFollowsDependencies(g.operations, schedule);
    var lifetimes := ComputeLifetimes(g, schedule, alignment);
    if lifetimes.Err? {
      return Err(lifetimes.code);
    }
    var unplaced := lifetimes.value;
    r := PlaceTensors(g, schedule, alignment, unplaced);
  }

  /** From the lifetimes to the verified plan. */
  method PlaceTensors(g: GraphData, schedule: Schedule, alignment: nat, unplaced: seq<TensorLifetime>)
    returns (r: Result<MemoryPlan>)
    requires 0 < alignment <= UINT64_MAX && IsPowerOfTwo(alignment)
    requires |unplaced| == |g.values|
    requires forall k | 0 <= k < |g.values| ::
      IsLifetime(g, schedule, alignment, g.values[k], unplaced[k]) && unplaced[k].arenaOffset == None
    ensures r.Ok? <==> NaiveBytes(g, alignment, g.values) <= UINT64_MAX && RolesAgree(g)
    ensures r.Ok? ==> r.value.schedule == schedule && r.value.alignmentBytes == alignment
    ensures r.Ok? ==> |r.value.tensors| == |g.values| && PlanVerified(r.value)
    ensures r.Ok? ==> forall k | 0 <= k < |g.values| ::
      IsLifetime(g, schedule, alignment, g.values[k], r.value.tensors[k])
    ensures r.Ok? ==> r.value.naive == NaiveBytes(g, alignment, g.values)
    ensures r.Ok? ==> IsPeak(r.value.tensors, |schedule|, r.value.peakLive)
    ensures r.Ok? ==> IsBestFitPlan(r.value)
  {
    hide GoesTo, EachGoesToItsPlace, AllocationsOf, PlacedBestFit;
    NaiveBytesAgree(g, schedule, alignment, g.values, unplaced);
    forall t <- unplaced ensures t.alignedSize <= UINT64_MAX {
      var k :| 0 <= k < |unplaced| && unplaced[k] == t;
      assert IsLifetime(g, schedule, alignment, g.values[k], unplaced[k]);
    }
    var naive, indices := ArenaTensors(unplaced);
    if naive.Err? {
      return Err(naive.code);
    }
    var order := SortByDefinition(unplaced, indices);
    SortFactsByDefinition(unplaced, indices);
    LifetimesArePlaceable(g, schedule, alignment, unplaced, order);
    var arena, tensors := PlaceAll(unplaced, order, alignment);
    if arena.Err? || arena.value > naive.value {
      return Err(FailedPrecondition);
    }
    ArenaBytesIgnoreOffsets(unplaced, tensors);
    OffsetsDoNotMatter(g, schedule, alignment, unplaced, tensors);
    PlacementCoversArena(unplaced, tensors, indices, order, arena.value, alignment);
    PlacedInOrder(unplaced, tensors, indices, order);
    var peak := PeakLiveBytes(tensors, |schedule|);
    if peak.Err? {
      return Err(Overflow);
    }
    var plan := MemoryPlan(alignment, schedule, tensors, arena.value, peak.value, naive.value);
    VerificationDependsOnRoles(g, plan);
    FieldsFit(g, plan);
    var verified := VerifyMemoryPlan(plan);
    if verified != Success {
      return Err(FailedPrecondition);
    }
    return Ok(plan);
  }

  /** Every number in the plan is a 64-bit number. */
  lemma FieldsFit(g: GraphData, plan: MemoryPlan)
    requires plan.alignmentBytes > 0 && |plan.tensors| == |g.values| && plan.arenaSize <= UINT64_MAX
    requires forall k | 0 <= k < |g.values| ::
      IsLifetime(g, plan.schedule, plan.alignmentBytes, g.values[k], plan.tensors[k])
    requires forall k | 0 <= k < |plan.tensors| ::
      if plan.tensors[k].external then plan.tensors[k].arenaOffset == None
      else PlacedWithin(plan.tensors[k], plan.arenaSize, plan.alignmentBytes)
    ensures forall t <- plan.tensors :: t.alignedSize <= UINT64_MAX
    ensures forall t <- plan.tensors :: t.arenaOffset.Some? ==> t.arenaOffset.value <= UINT64_MAX
  {
    forall t <- plan.tensors
      ensures t.alignedSize <= UINT64_MAX && (t.arenaOffset.Some? ==> t.arenaOffset.value <= UINT64_MAX)
    {
      var k :| 0 <= k < |plan.tensors| && plan.tensors[k] == t;
      assert IsLifetime(g, plan.schedule, plan.alignmentBytes, g.values[k], plan.tensors[k]);
    }
  }
}
