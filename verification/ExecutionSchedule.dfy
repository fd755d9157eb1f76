/** Dependency edges of a list of operations, shared by the three orderings of the repository. */
module OperationOrder {
  import opened Basics
  import opened GraphIR
  import opened Counting
  import opened Kahn
  import opened Dependencies

  function Ids(ops: seq<Operation>): (keys: seq<string>)
    ensures |keys| == |ops| && forall k | 0 <= k < |ops| :: keys[k] == ops[k].id
  {
    seq(|ops|, k requires 0 <= k < |ops| => ops[k].id)
  }

  predicate Feeds(ops: seq<Operation>, p: nat, c: nat) {
    p < |ops| && c < |ops| && ops[p].output in ops[c].inputs
  }

  /** An operation depends on the producer of each of its operands. */
  ghost function DataEdges(ops: seq<Operation>): Edges {
    set p: nat, c: nat | p < |ops| && c < |ops| && Feeds(ops, p, c) :: (p, c)
  }

  /** a and b are consecutive among the operations with side effects. */
  predicate ConsecutiveEffects(ops: seq<Operation>, a: nat, b: nat) {
    && a < b < |ops| && ops[a].HasSideEffect() && ops[b].HasSideEffect()
    && forall m | a < m < b :: !ops[m].HasSideEffect()
  }

  ghost function EffectEdges(ops: seq<Operation>): Edges {
    set a: nat, b: nat | a < |ops| && b < |ops| && ConsecutiveEffects(ops, a, b) :: (a, b)
  }

  /** Operations with side effects keep their relative order, so they form a chain. */
  ghost function OrderEdges(ops: seq<Operation>, honourEffects: bool): Edges {
    DataEdges(ops) + if honourEffects then EffectEdges(ops) else {}
  }

  ghost predicate Produced(ops: seq<Operation>, id: Id) {
    exists j | 0 <= j < |ops| :: ops[j].output == id
  }

  ghost predicate OperandsProduced(ops: seq<Operation>) {
    forall c, k | 0 <= c < |ops| && 0 <= k < |ops[c].inputs| :: Produced(ops, ops[c].inputs[k])
  }

  /** `producers` is the output-to-operation index; the first producer wins. */
  ghost predicate IsProducerIndex(ops: seq<Operation>, producers: map<Id, nat>) {
    && (forall id :: id in producers <==> Produced(ops, id))
    && (forall id <- producers ::
          producers[id] < |ops| && ops[producers[id]].output == id
          && forall j | 0 <= j < producers[id] :: ops[j].output != id)
  }

  /** Builds the producer index; `unique` is false when some value has a second producer. */
  method IndexByOutput(ops: seq<Operation>) returns (producers: map<Id, nat>, unique: bool)
    ensures IsProducerIndex(ops, producers)
    ensures unique <==> DistinctOutputs(ops)
  {
    producers, unique := map[], true;
    for i := 0 to |ops|
      invariant forall id :: id in producers <==> Produced(ops[..i], id)
      invariant forall id <- producers ::
        producers[id] < i && ops[producers[id]].output == id
        && forall j | 0 <= j < producers[id] :: ops[j].output != id
      invariant unique <==> DistinctOutputs(ops[..i])
    {
      assert ops[..i + 1] == ops[..i] + [ops[i]];
      if ops[i].output in producers {
        unique := false;
        assert ops[..i + 1][producers[ops[i].output]].output == ops[..i + 1][i].output;
      } else {
        assert !Produced(ops[..i], ops[i].output);
        forall j | 0 <= j < i ensures ops[j].output != ops[i].output {
          assert ops[..i][j] == ops[j];
        }
        producers := producers[ops[i].output := i];
      }
      forall id ensures Produced(ops[..i + 1], id) <==> Produced(ops[..i], id) || id == ops[i].output {
        if Produced(ops[..i], id) {
          var j :| 0 <= j < i && ops[..i][j].output == id;
          assert ops[..i + 1][j].output == id;
        }
        assert ops[..i + 1][i] == ops[i];
        if Produced(ops[..i + 1], id) && id != ops[i].output {
          var j :| 0 <= j < i + 1 && ops[..i + 1][j].output == id;
          assert ops[..i][j].output == id;
        }
      }
    }
    assert ops[..|ops|] == ops;
  }

  /**
   Kahn's ordering of a list of operations whose values have one producer each. The result is
   the least linear extension of the data dependencies, together with the side-effect chain
   when `honourEffects` is set.
   */
  method OrderOperations(ops: seq<Operation>, producers: map<Id, nat>, honourEffects: bool)
    returns (r: Result<seq<nat>>)
    requires |ops| <= UINT64_MAX && DistinctOutputs(ops) && IsProducerIndex(ops, producers)
    ensures r.Ok? ==> LeastLinearExtension(Ids(ops), OrderEdges(ops, honourEffects), r.value)
    ensures r.Ok? <==> OperandsProduced(ops) && !Cyclic(OrderEdges(ops, honourEffects))
    ensures r.Err? ==> r.code == FailedPrecondition
  {
    var graph := new DependencyGraph(|ops|);
    for c := 0 to |ops|
      invariant graph.Valid() && graph.count == |ops|
      invariant fresh(graph) && fresh(graph.indegrees) && fresh(graph.dependents)
      invariant forall k, i | 0 <= k < c && 0 <= i < |ops[k].inputs| :: Produced(ops, ops[k].inputs[i])
      invariant forall e: (nat, nat) :: e in graph.edges <==> e in DataEdges(ops) && e.1 < c
    {
      var resolved := AddOperandEdges(ops, producers, graph, c);
      if !resolved {
        return Err(FailedPrecondition);
      }
    }
    if honourEffects {
      var failed := AddEffectChain(ops, graph);
      assert !failed;
    }
    assert graph.edges == OrderEdges(ops, honourEffects);
    r := graph.Order(Ids(ops));
  }

  /** Links operation `c` to the producers of its operands; false when an operand has none. */
  method AddOperandEdges(ops: seq<Operation>, producers: map<Id, nat>, graph: DependencyGraph, c: nat)
    returns (resolved: bool)
    requires graph.Valid() && graph.count == |ops| <= UINT64_MAX && c < |ops|
    requires DistinctOutputs(ops) && IsProducerIndex(ops, producers)
    modifies graph, graph.indegrees, graph.dependents
    ensures graph.Valid()
    ensures resolved <==> forall k | 0 <= k < |ops[c].inputs| :: Produced(ops, ops[c].inputs[k])
    ensures resolved ==> forall e: (nat, nat) ::
      e in graph.edges <==> (e in old(graph.edges) || (e in DataEdges(ops) && e.1 == c))
  {
    var inputs := ops[c].inputs;
    for i := 0 to |inputs|
      invariant graph.Valid()
      invariant forall k | 0 <= k < i :: Produced(ops, inputs[k])
      invariant forall e: (nat, nat) :: e in graph.edges <==>
        (e in old(graph.edges) || (e in DataEdges(ops) && e.1 == c && ops[e.0].output in inputs[..i]))
    {
      if inputs[i] !in producers {
        return false;
      }
      var p := producers[inputs[i]];
      assert Feeds(ops, p, c);
      assert inputs[..i + 1] == inputs[..i] + [inputs[i]];
      var s := graph.AddEdge(p, c);
      if s != Success {
        return false;
      }
    }
    assert inputs[..|inputs|] == inputs;
    return true;
  }

  /** Links each operation with a side effect to the previous one. */
  method AddEffectChain(ops: seq<Operation>, graph: DependencyGraph) returns (failed: bool)
    requires graph.Valid() && graph.count == |ops| <= UINT64_MAX
    modifies graph, graph.indegrees, graph.dependents
    ensures graph.Valid() && !failed
    ensures graph.edges == old(graph.edges) + EffectEdges(ops)
  {
    var previous: nat := |ops|;
    for i := 0 to |ops|
      invariant graph.Valid()
      invariant previous == |ops| ==> forall m | 0 <= m < i :: !ops[m].HasSideEffect()
      invariant previous == |ops| || previous < i
      invariant previous < i ==> ops[previous].HasSideEffect()
      invariant previous < i ==> forall m | previous < m < i :: !ops[m].HasSideEffect()
      invariant forall e: (nat, nat) :: e in graph.edges <==>
        e in old(graph.edges) || (e in EffectEdges(ops) && e.1 < i)
    {
      if ops[i].HasSideEffect() {
        if previous != |ops| {
          assert ConsecutiveEffects(ops, previous, i);
          var s := graph.AddEdge(previous, i);
          if s != Success {
            return true;
          }
        }
        previous := i;
      }
    }
    return false;
  }
}

/** cpp/src/runtime/execution_schedule.cpp */
module ExecutionSchedule {
  import opened Basics
  import opened GraphIR
  import opened Counting
  import opened Kahn
  import opened OperationOrder

  datatype ScheduledOperation = ScheduledOperation(
    index: nat,
    operationId: Id,
    kind: OperationType,
    inputs: seq<Id>,
    output: Id)

  type Schedule = seq<ScheduledOperation>

  function Scheduled(op: Operation, index: nat): ScheduledOperation {
    ScheduledOperation(index, op.id, op.kind, op.inputs, op.output)
  }

  /** `schedule` lists the operations in the given order, numbered from zero. */
  ghost predicate ListsInOrder(ops: seq<Operation>, order: seq<nat>, schedule: Schedule) {
    && |order| == |ops| == |schedule|
    && forall k | 0 <= k < |order| :: order[k] < |ops| && schedule[k] == Scheduled(ops[order[k]], k)
  }

  /** The operations in the least order that respects data dependencies and side effects. */
  ghost predicate IsScheduleOf(ops: seq<Operation>, schedule: Schedule) {
    exists order ::
      && LeastLinearExtension(Ids(ops), OrderEdges(ops, true), order)
      && ListsInOrder(ops, order, schedule)
  }

  ghost predicate Schedulable(ops: seq<Operation>) {
    DistinctOutputs(ops) && OperandsProduced(ops) && !Cyclic(OrderEdges(ops, true))
  }

  /**
   The schedule is the least linear extension of the dependencies; an error is reported
   exactly when a value has two producers, an operand has none, or the dependencies and the
   side-effect chain form a cycle. The `Internal` and (below 2^64 operations) `Overflow`
   exits are never taken.
   */
  method BuildExecutionSchedule(ops: seq<Operation>) returns (r: Result<Schedule>)
    ensures r.Ok? ==> IsScheduleOf(ops, r.value)
    ensures |ops| <= UINT64_MAX ==> (r.Ok? <==> Schedulable(ops))
    ensures r.Err? ==> r.code == if |ops| > UINT64_MAX then Overflow else FailedPrecondition
  {
    if |ops| > UINT64_MAX {
      return Err(Overflow);
    }
    var producers, unique := IndexByOutput(ops);
    if !unique {
      return Err(FailedPrecondition);
    }
    var ordered := OrderOperations(ops, producers, true);
    if ordered.Err? {
      return Err(ordered.code);
    }
    var order := ordered.value;
    var schedule: Schedule := [];
    for k := 0 to |order|
      invariant |schedule| == k
      invariant forall j | 0 <= j < k :: schedule[j] == Scheduled(ops[order[j]], j)
    {
      schedule := schedule + [Scheduled(ops[order[k]], k)];
    }
    assert ListsInOrder(ops, order, schedule);
    return Ok(schedule);
  }
}
