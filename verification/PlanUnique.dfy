/** A graph has one memory plan: the description of `plan_memory` determines every number in it. */
module PlanUniqueness {
  import opened Basics
  import opened GraphIR
  import opened StringOrder
  import opened Counting
  import opened Kahn
  import opened OperationOrder
  import opened ExecutionSchedule
  import opened Lifetimes
  import opened Allocation
  import opened Gaps
  import opened MemoryPlanner

  lemma OneSchedule(ops: seq<Operation>, s: Schedule, t: Schedule)
    requires IsScheduleOf(ops, s) && IsScheduleOf(ops, t)
    ensures s == t
  {
    var a :| LeastLinearExtension(Ids(ops), OrderEdges(ops, true), a) && ListsInOrder(ops, a, s);
    var b :| LeastLinearExtension(Ids(ops), OrderEdges(ops, true), b) && ListsInOrder(ops, b, t);
    LeastIsUnique(Ids(ops), OrderEdges(ops, true), a, b);
  }

  /** Everything but the place. */
  lemma OneLifetime(g: GraphData, schedule: Schedule, alignment: nat, v: Value, s: TensorLifetime, t: TensorLifetime)
    requires alignment > 0 && FollowsDependencies(g.operations, schedule)
    requires IsLifetime(g, schedule, alignment, v, s) && IsLifetime(g, schedule, alignment, v, t)
    ensures s.(arenaOffset := None) == t.(arenaOffset := None)
  {
    assert s.definitionIndex == t.definitionIndex;
    assert s.firstUse == t.firstUse;
    assert s.finalUse == t.finalUse;
  }

  // ----- one allocation order -----

  predicate DistinctTensors(tensors: seq<TensorLifetime>) {
    forall i, j | 0 <= i < j < |tensors| :: tensors[i].valueId != tensors[j].valueId
  }

  lemma OrderIsStrict(tensors: seq<TensorLifetime>, i: nat, j: nat)
    requires DistinctTensors(tensors) && i < |tensors| && j < |tensors|
    requires NoLater(tensors, i, j) && NoLater(tensors, j, i)
    ensures i == j
  {
    Total(tensors[i].valueId, tensors[j].valueId);
  }

  lemma {:induction false} SameStart(tensors: seq<TensorLifetime>, s: seq<nat>, t: seq<nat>, k: nat)
    requires DistinctTensors(tensors) && IsAllocationOrder(tensors, s) && IsAllocationOrder(tensors, t)
    requires k <= |s| && k <= |t|
    ensures s[..k] == t[..k]
  {
    if k > 0 {
      SameStart(tensors, s, t, k - 1);
      var m := k - 1;
      LaterInOther(tensors, s, t, m);
      LaterInOther(tensors, t, s, m);
      OrderIsStrict(tensors, s[m], t[m]);
      assert s[..k] == s[..m] + [s[m]] && t[..k] == t[..m] + [t[m]];
    }
  }

  /** The next element of one list stands no earlier in the other. */
  lemma LaterInOther(tensors: seq<TensorLifetime>, s: seq<nat>, t: seq<nat>, m: nat)
    requires IsAllocationOrder(tensors, s) && IsAllocationOrder(tensors, t)
    requires m < |s| && m < |t| && s[..m] == t[..m]
    ensures NoLater(tensors, t[m], s[m])
  {
    forall p | 0 <= p < m ensures t[p] != s[m] {
      assert s[..m][p] == t[..m][p];
    }
    assert s[m] in s;
    var p :| 0 <= p < |t| && t[p] == s[m];
    NoLaterFacts(tensors, t[m], s[m], s[m]);
  }

  lemma OneAllocationOrder(tensors: seq<TensorLifetime>, s: seq<nat>, t: seq<nat>)
    requires DistinctTensors(tensors) && IsAllocationOrder(tensors, s) && IsAllocationOrder(tensors, t)
    requires |s| <= |t|
    ensures s == t
  {
    SameStart(tensors, s, t, |s|);
    assert s[..|s|] == s;
    if |s| < |t| {
      NextIsNew(s, t);
    }
    assert t[..|t|] == t;
  }

  lemma NextIsNew(s: seq<nat>, t: seq<nat>)
    requires |s| < |t| && s == t[..|s|] && Distinct(t)
    ensures t[|s|] in t && t[|s|] !in s
  {
    forall p | 0 <= p < |s| ensures s[p] != t[|s|] {
      assert t[..|s|][p] == t[p];
    }
  }

  /** The order does not depend on the offsets. */
  lemma OrderElsewhere(a: seq<TensorLifetime>, b: seq<TensorLifetime>, order: seq<nat>)
    requires SameButOffsets(a, b) && IsAllocationOrder(b, order)
    ensures IsAllocationOrder(a, order)
  {
    forall k: nat | k < |a| ensures a[k].external == b[k].external && a[k].valueId == b[k].valueId
      && a[k].definitionIndex == b[k].definitionIndex
    {
      assert a[k].(arenaOffset := None) == b[k].(arenaOffset := None);
    }
    forall i, j | 0 <= i < j < |order| ensures NoLater(a, order[i], order[j]) {
      assert NoLater(b, order[i], order[j]);
    }
  }

  // ----- one place for every tensor -----

  lemma SameBut(a: seq<TensorLifetime>, b: seq<TensorLifetime>, i: nat)
    requires SameButOffsets(a, b) && i < |a|
    ensures |a| == |b| && a[i].(arenaOffset := None) == b[i].(arenaOffset := None)
  {
  }

  lemma PlaceOf(tensors: seq<TensorLifetime>, order: seq<nat>, arenaSize: nat, k: nat)
    requires Indices(tensors, order) && PlacedBestFit(tensors, order, arenaSize) && k < |order|
    ensures var placed, t := AllocationsOf(tensors, order), tensors[order[k]];
      && placed[k] == ActiveAllocation(order[k], t.finalUse, placed[k].offset, t.alignedSize)
      && GoesTo(placed[..k], t.storage.ArenaOutput?, t.definitionIndex, t.alignedSize, placed[k].offset)
  {
    hide GoesTo;
  }

  lemma {:induction false} SamePlaces(a: seq<TensorLifetime>, b: seq<TensorLifetime>, order: seq<nat>,
                                      m: nat, n: nat, k: nat)
    requires SameButOffsets(a, b) && Indices(a, order) && Indices(b, order)
    requires PlacedBestFit(a, order, m) && PlacedBestFit(b, order, n) && k <= |order|
    ensures AllocationsOf(a, order)[..k] == AllocationsOf(b, order)[..k]
  {
    hide GoesTo, EachGoesToItsPlace, SameButOffsets;
    if k > 0 {
      SamePlaces(a, b, order, m, n, k - 1);
      var p, q := AllocationsOf(a, order), AllocationsOf(b, order);
      var s, t := a[order[k - 1]], b[order[k - 1]];
      SameBut(a, b, order[k - 1]);
      PlaceOf(a, order, m, k - 1);
      PlaceOf(b, order, n, k - 1);
      hide PlacedBestFit;
      GoesToOnePlace(p[..k - 1], s.storage.ArenaOutput?, s.definitionIndex, s.alignedSize,
                     p[k - 1].offset, q[k - 1].offset);
      assert p[..k] == p[..k - 1] + [p[k - 1]] && q[..k] == q[..k - 1] + [q[k - 1]];
    }
  }

  lemma SameTensors(a: MemoryPlan, b: MemoryPlan)
    requires SameButOffsets(a.tensors, b.tensors) && DistinctTensors(a.tensors)
    requires IsBestFitPlan(a) && IsBestFitPlan(b)
    requires forall t <- a.tensors + b.tensors :: t.external ==> t.arenaOffset.None?
    ensures a.tensors == b.tensors && a.arenaSize == b.arenaSize
  {
    var s :| IsAllocationOrder(a.tensors, s) && PlacedBestFit(a.tensors, s, a.arenaSize);
    var t :| IsAllocationOrder(b.tensors, t) && PlacedBestFit(b.tensors, t, b.arenaSize);
    OrderElsewhere(a.tensors, b.tensors, t);
    if |s| <= |t| {
      OneAllocationOrder(a.tensors, s, t);
    } else {
      OneAllocationOrder(a.tensors, t, s);
    }
    SameOffsets(a.tensors, b.tensors, s, a.arenaSize, b.arenaSize);
    hide PlacedBestFit, InOrder;
    forall k: nat | k < |a.tensors| ensures a.tensors[k] == b.tensors[k] {
      assert a.tensors[k].(arenaOffset := None) == b.tensors[k].(arenaOffset := None);
      assert a.tensors[k] in a.tensors + b.tensors && b.tensors[k] in a.tensors + b.tensors;
    }
  }

  lemma SameOffsets(a: seq<TensorLifetime>, b: seq<TensorLifetime>, order: seq<nat>, m: nat, n: nat)
    requires SameButOffsets(a, b) && Indices(a, order) && Indices(b, order)
    requires PlacedBestFit(a, order, m) && PlacedBestFit(b, order, n)
    ensures m == n && forall k <- order :: a[k].arenaOffset == b[k].arenaOffset
  {
    SamePlaces(a, b, order, m, n, |order|);
    var p, q := AllocationsOf(a, order), AllocationsOf(b, order);
    assert p[..|order|] == p && q[..|order|] == q;
    hide GoesTo, EachGoesToItsPlace;
    forall k <- order ensures a[k].arenaOffset == b[k].arenaOffset {
      var i :| 0 <= i < |order| && order[i] == k;
      assert p[i].offset == q[i].offset;
    }
  }

  lemma OnePeak(tensors: seq<TensorLifetime>, boundary: nat, p: nat, q: nat)
    requires IsPeak(tensors, boundary, p) && IsPeak(tensors, boundary, q)
    ensures p == q
  {
  }

  lemma ExternalUnplaced(plan: MemoryPlan)
    requires PlanVerified(plan)
    ensures forall t <- plan.tensors :: t.external ==> t.arenaOffset.None?
  {
    forall t <- plan.tensors ensures t.external ==> t.arenaOffset.None? {
      var k :| 0 <= k < |plan.tensors| && plan.tensors[k] == t;
      assert TensorVerified(plan, plan.tensors[k]);
    }
  }

  /** What `PlanMemory` promises of its plan leaves no choice. */
  lemma PlanIsDetermined(g: GraphData, alignment: nat, p: MemoryPlan, q: MemoryPlan)
    requires DistinctValueIds(g.values)
    requires IsPlanFor(g, alignment, p) && IsBestFitPlan(p)
    requires IsPlanFor(g, alignment, q) && IsBestFitPlan(q)
    ensures p == q
  {
    OneSchedule(g.operations, p.schedule, q.schedule);
    forall k | 0 <= k < |g.values|
      ensures p.tensors[k].(arenaOffset := None) == q.tensors[k].(arenaOffset := None)
    {
      OneLifetime(g, p.schedule, alignment, g.values[k], p.tensors[k], q.tensors[k]);
    }
    forall k | 0 <= k < |g.values| ensures p.tensors[k].valueId == g.values[k].id {
      assert IsLifetime(g, p.schedule, alignment, g.values[k], p.tensors[k]);
    }
    ExternalUnplaced(p);
    ExternalUnplaced(q);
    hide IsBestFitPlan, IsLifetime, PlanVerified;
    SameTensors(p, q);
    OnePeak(p.tensors, |p.schedule|, p.peakLive, q.peakLive);
  }
}
