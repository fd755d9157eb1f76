/** Operations with side effects are scheduled in graph order (cpp/src/runtime/execution_schedule.cpp). */
module EffectOrder {
  import opened Basics
  import opened GraphIR
  import opened Kahn
  import opened OperationOrder
  import opened ExecutionSchedule
  import opened PassFramework
  import opened ReorderingTwice
  import Counting

  /** The marker is the attribute, set to true. */
  predicate IsMarked(op: Operation) {
    "side_effect" in op.attributes && op.attributes["side_effect"] == JBool(true)
  }

  /** The k-th scheduled operation is operation i of the graph. */
  predicate RunsAt(ops: seq<Operation>, schedule: Schedule, i: nat, k: nat) {
    i < |ops| && k < |schedule| && schedule[k].operationId == ops[i].id
  }

  lemma EffectsInOrder(ops: seq<Operation>, schedule: Schedule, a: nat, b: nat, j: nat, k: nat)
    requires DistinctOperationIds(ops) && IsScheduleOf(ops, schedule)
    requires RunsAt(ops, schedule, a, j) && RunsAt(ops, schedule, b, k) && IsMarked(ops[a]) && IsMarked(ops[b])
    ensures a < b <==> j < k
  {
    var order :| LeastLinearExtension(Ids(ops), OrderEdges(ops, true), order) && ListsInOrder(ops, order, schedule);
    OrderedEffects(ops, order, a, b, j, k);
  }

  lemma OrderedEffects(ops: seq<Operation>, order: seq<nat>, a: nat, b: nat, j: nat, k: nat)
    requires DistinctOperationIds(ops) && LinearExtension(|ops|, OrderEdges(ops, true), order)
    requires a < |ops| && b < |ops| && j < |order| && k < |order| && |order| == |ops|
    requires order[j] < |ops| && ops[order[j]].id == ops[a].id && order[k] < |ops| && ops[order[k]].id == ops[b].id
    requires IsMarked(ops[a]) && IsMarked(ops[b])
    ensures a < b <==> j < k
  {
    Counting.DistinctBound(order, |ops|);
    PositionIs(order, j);
    PositionIs(order, k);
    if a < b {
      EffectsKeepOrder(ops, order, a, b);
    } else if b < a {
      EffectsKeepOrder(ops, order, b, a);
    }
  }

  /** The rewriter keeps them in order, too. */
  lemma RewrittenInOrder(before: seq<Operation>, after: seq<Operation>, a: nat, b: nat, j: nat, k: nat)
    requires DistinctOperationIds(before) && IsStableOrder(before, after)
    requires a < |before| && b < |before| && j < |after| && k < |after|
    requires after[j].id == before[a].id && after[k].id == before[b].id && IsMarked(before[a]) && IsMarked(before[b])
    ensures a < b <==> j < k
  {
    var order :| LeastLinearExtension(Ids(before), OrderEdges(before, true), order)
      && |order| == |before| && (forall k | 0 <= k < |order| :: order[k] < |before|) && after == Reordered(before, order);
    OrderedEffects(before, order, a, b, j, k);
  }
}
