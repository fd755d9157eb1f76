/** cpp/src/passes/dead_code_elimination_pass.cpp */
module DeadCodeElimination {
  import opened Basics
  import opened GraphIR
  import opened OperationOrder
  import opened Lifetimes
  import opened Tensors
  import opened SemanticVerifier
  import opened GraphInvariants
  import opened RewriteUtils
  import opened PassFramework
  import opened Erasure

  // ----- liveness, without reference to the worklist -----

  /** Declared outputs, declared inputs, and the results of operations with side effects. */
  ghost predicate IsRoot(g: GraphData, id: Id) {
    id in g.outputIds || id in g.inputIds || exists op <- g.operations :: op.HasSideEffect() && op.output == id
  }

  /** Whatever a member's producer uses is a member. */
  ghost predicate BackwardClosed(ops: seq<Operation>, live: set<Id>) {
    forall op <- ops | op.output in live :: forall k | 0 <= k < |op.inputs| :: op.inputs[k] in live
  }

  /** The smallest backward-closed set that contains the roots. */
  ghost predicate IsLiveSet(g: GraphData, live: set<Id>) {
    && (forall id | IsRoot(g, id) :: id in live)
    && BackwardClosed(g.operations, live)
    && forall other: set<Id> | (forall id | IsRoot(g, id) :: id in other) && BackwardClosed(g.operations, other) ::
         live <= other
  }

  // ----- the worklist -----

  /** Everything seen so far is needed by every closed set of the roots. */
  ghost predicate Needed(g: GraphData, seen: set<Id>) {
    forall other: set<Id> | (forall id | IsRoot(g, id) :: id in other) && BackwardClosed(g.operations, other) ::
      seen <= other
  }

  function Elements(s: seq<Id>): set<Id> {
    set id <- s
  }

  lemma NeededGrows(g: GraphData, seen: set<Id>, op: Operation)
    requires Needed(g, seen) && op in g.operations && op.output in seen
    ensures Needed(g, seen + Elements(op.inputs))
  {
    forall other: set<Id> | (forall id | IsRoot(g, id) :: id in other) && BackwardClosed(g.operations, other)
      ensures seen + Elements(op.inputs) <= other
    {
      assert seen <= other && op.output in other;
    }
  }

  /** An operation reached has its operands seen. */
  ghost predicate Explored(ops: seq<Operation>, liveValues: set<Id>, liveOperations: set<Id>, seen: set<Id>) {
    forall op <- ops ::
      && (op.output in liveValues <==> op.id in liveOperations)
      && (op.id in liveOperations ==> Elements(op.inputs) <= seen)
  }

  /** The initial worklist: outputs, inputs, then the outputs of operations with side effects. */
  method CollectRoots(g: GraphData) returns (worklist: seq<Id>)
    ensures forall id :: id in worklist <==> IsRoot(g, id)
  {
    worklist := g.outputIds + g.inputIds;
    for i := 0 to |g.operations|
      invariant forall id :: id in worklist <==>
        (id in g.outputIds || id in g.inputIds
         || exists j | 0 <= j < i :: g.operations[j].HasSideEffect() && g.operations[j].output == id)
    {
      if g.operations[i].HasSideEffect() {
        worklist := worklist + [g.operations[i].output];
      }
    }
    forall id ensures id in worklist <==> IsRoot(g, id) {
      if exists op <- g.operations :: op.HasSideEffect() && op.output == id {
        var op :| op in g.operations && op.HasSideEffect() && op.output == id;
        var j :| 0 <= j < |g.operations| && g.operations[j] == op;
      }
    }
  }

  /** The worklist loop. */
  method FindLive(g: GraphData) returns (liveValues: set<Id>, liveOperations: set<Id>)
    requires DistinctOutputs(g.operations) && DistinctOperationIds(g.operations)
    ensures IsLiveSet(g, liveValues)
    ensures forall op <- g.operations :: op.id in liveOperations <==> op.output in liveValues
  {
    var producers, unique := IndexByOutput(g.operations);
    var worklist := CollectRoots(g);
    liveValues, liveOperations := {}, {};
    NothingExplored(g, Elements(worklist));
    hide Needed, Explored, IsRoot, BackwardClosed, AllOperands, IsLiveSet;
    ghost var universe := Elements(worklist) + AllOperands(g.operations);
    while worklist != []
      invariant Elements(worklist) + liveValues <= universe
      invariant forall id | IsRoot(g, id) :: id in Elements(worklist) + liveValues
      invariant Needed(g, Elements(worklist) + liveValues)
      invariant Explored(g.operations, liveValues, liveOperations, Elements(worklist) + liveValues)
      decreases universe - liveValues, |worklist|
    {
      ghost var seen, before := Elements(worklist) + liveValues, liveValues;
      var n := |worklist| - 1;
      var id := worklist[n];
      assert worklist == worklist[..n] + [id];
      worklist := worklist[..n];
      if id !in liveValues {
        liveValues := liveValues + {id};
        assert id in universe - before;
        assert Elements(worklist) + liveValues == seen;
        if id in producers {
          var op := g.operations[producers[id]];
          NeededGrows(g, seen, op);
          OperandsKnown(g.operations, producers[id]);
          Reached(g.operations, producers[id], before, liveOperations, seen);
          worklist := worklist + op.inputs;
          assert Elements(worklist) + liveValues == seen + Elements(op.inputs);
          liveOperations := liveOperations + {op.id};
        } else {
          Unproduced(g.operations, id, before, liveOperations, seen);
        }
      } else {
        assert Elements(worklist) + liveValues == seen;
      }
    }
    assert Elements(worklist) + liveValues == liveValues;
    LiveFound(g, liveValues, liveOperations);
  }

  lemma NothingExplored(g: GraphData, roots: set<Id>)
    requires forall id :: id in roots <==> IsRoot(g, id)
    ensures Needed(g, roots + {}) && Explored(g.operations, {}, {}, roots + {})
  {
    assert roots + {} == roots;
  }

  lemma LiveFound(g: GraphData, liveValues: set<Id>, liveOperations: set<Id>)
    requires (forall id | IsRoot(g, id) :: id in liveValues) && Needed(g, liveValues)
    requires Explored(g.operations, liveValues, liveOperations, liveValues)
    ensures IsLiveSet(g, liveValues)
    ensures forall op <- g.operations :: op.id in liveOperations <==> op.output in liveValues
  {
  }

  lemma Reached(ops: seq<Operation>, i: nat, liveValues: set<Id>, liveOperations: set<Id>, seen: set<Id>)
    requires DistinctOutputs(ops) && DistinctOperationIds(ops) && i < |ops|
    requires Explored(ops, liveValues, liveOperations, seen)
    ensures Explored(ops, liveValues + {ops[i].output}, liveOperations + {ops[i].id}, seen + Elements(ops[i].inputs))
  {
    OnlyProducer(ops, i);
  }

  lemma Unproduced(ops: seq<Operation>, id: Id, liveValues: set<Id>, liveOperations: set<Id>, seen: set<Id>)
    requires Explored(ops, liveValues, liveOperations, seen) && !Produced(ops, id)
    ensures Explored(ops, liveValues + {id}, liveOperations, seen)
  {
    forall op <- ops ensures op.output != id {
      var j :| 0 <= j < |ops| && ops[j] == op;
    }
  }

  ghost function AllOperands(ops: seq<Operation>): set<Id> {
    set op, id | op in ops && id in op.inputs :: id
  }

  lemma OperandsKnown(ops: seq<Operation>, i: nat)
    requires i < |ops|
    ensures Elements(ops[i].inputs) <= AllOperands(ops)
  {
    forall id | id in ops[i].inputs ensures id in AllOperands(ops) {
      assert ops[i] in ops;
    }
  }

  lemma OnlyProducer(ops: seq<Operation>, i: nat)
    requires DistinctOutputs(ops) && DistinctOperationIds(ops) && i < |ops|
    ensures forall op <- ops :: (op.output == ops[i].output <==> op == ops[i]) && (op.id == ops[i].id <==> op == ops[i])
  {
    forall op <- ops ensures (op.output == ops[i].output <==> op == ops[i]) && (op.id == ops[i].id <==> op == ops[i]) {
      var j :| 0 <= j < |ops| && ops[j] == op;
    }
  }

  // ----- the pass -----

  function DeadOperations(ops: seq<Operation>, live: set<Id>): set<Id> {
    set op | op in ops && op.output !in live :: op.id
  }

  function DeadValues(values: seq<Value>, live: set<Id>): set<Id> {
    set v | v in values && v.id !in live :: v.id
  }

  /** `run`: erases exactly what is not live. */
  method EliminateDeadCode(graph: Graph) returns (changed: bool, ghost live: set<Id>)
    requires DistinctOutputs(graph.operations) && DistinctOperationIds(graph.operations)
    modifies graph
    ensures IsLiveSet(old(graph.Data()), live)
    ensures graph.Data() == Erased(old(graph.Data()), DeadOperations(old(graph.operations), live),
                                   DeadValues(old(graph.values), live))
    ensures changed <==> graph.Data() != old(graph.Data())
  {
    var liveValues, liveOperations := FindLive(graph.Data());
    live := liveValues;
    var operationIds: set<Id>, valueIds: set<Id> := {}, {};
    for i := 0 to |graph.operations|
      invariant operationIds == set j | 0 <= j < i && graph.operations[j].output !in live :: graph.operations[j].id
    {
      assert graph.operations[i] in graph.operations;
      if graph.operations[i].id !in liveOperations {
        operationIds := operationIds + {graph.operations[i].id};
      }
    }
    assert operationIds == DeadOperations(graph.operations, live);
    for i := 0 to |graph.values|
      invariant valueIds == set j | 0 <= j < i && graph.values[j].id !in live :: graph.values[j].id
    {
      if graph.values[i].id !in liveValues {
        valueIds := valueIds + {graph.values[i].id};
      }
    }
    assert valueIds == DeadValues(graph.values, live);
    ErasingNothing(graph.operations, operationIds);
    ErasingNoValues(graph.values, valueIds);
    if operationIds == {} && valueIds == {} {
      return false, live;
    }
    EraseOperations(graph, operationIds);
    EraseValues(graph, valueIds);
    return true, live;
  }

  lemma {:induction false} ErasingNothing(ops: seq<Operation>, ids: set<Id>)
    ensures KeptOperations(ops, ids) == ops <==> forall op <- ops :: op.id !in ids
  {
    KeptOperationsAre(ops, ids);
    if ops != [] {
      var n := |ops| - 1;
      ErasingNothing(ops[..n], ids);
      KeptOperationsAre(ops[..n], ids);
      assert ops == ops[..n] + [ops[n]];
    }
  }

  lemma {:induction false} ErasingNoValues(values: seq<Value>, ids: set<Id>)
    ensures KeptValues(values, ids) == values <==> forall v <- values :: v.id !in ids
  {
    KeptValuesAre(values, ids);
    if values != [] {
      hide KeptOperations;
      var n := |values| - 1;
      ErasingNoValues(values[..n], ids);
      assert values == values[..n] + [values[n]];
    }
  }

  // ----- what the pass keeps -----

  lemma DeadCodeIsErasable(g: GraphData, live: set<Id>)
    requires Ordered(g) && IsLiveSet(g, live)
    ensures Erasable(g, DeadOperations(g.operations, live), DeadValues(g.values, live))
  {
    var opIds, valueIds := DeadOperations(g.operations, live), DeadValues(g.values, live);
    forall op <- g.operations ensures op.id in opIds <==> op.output in valueIds {
      var v := OutputOf(g, op);
      SameOperation(g.operations, op);
    }
    forall op, p | op in g.operations && p in g.operations && op.id !in opIds && UsesResult(op, p) ensures p.id !in opIds {
      SameOperation(g.operations, op);
      SameOperation(g.operations, p);
      assert op.output in live;
    }
    forall id | id in g.inputIds || id in g.outputIds ensures id !in valueIds {
      assert IsRoot(g, id);
    }
  }

  lemma OutputOf(g: GraphData, op: Operation) returns (v: Value)
    requires WellFormedGraph(g) && op in g.operations
    ensures v in g.values && v.id == op.output
  {
    var i :| 0 <= i < |g.operations| && g.operations[i] == op;
    assert Resolved(Descriptors(g.values), g.operations[i]);
    var k := ValueOf(g.values, op.output);
    v := g.values[k];
  }

  lemma SameOperation(ops: seq<Operation>, op: Operation)
    requires DistinctOperationIds(ops) && DistinctOutputs(ops) && op in ops
    ensures forall p <- ops :: (p.id == op.id <==> p == op) && (p.output == op.output <==> p == op)
  {
    var i :| 0 <= i < |ops| && ops[i] == op;
    OnlyProducer(ops, i);
  }

  /** Dead code elimination keeps order, well-formedness, meaning and the verifier's judgement. */
  lemma DeadCodeKeeps(A: Arith, g: GraphData, live: set<Id>)
    requires Ordered(g) && IsLiveSet(g, live)
    ensures var h := Erased(g, DeadOperations(g.operations, live), DeadValues(g.values, live));
      && Ordered(h) && SameInterface(g, h) && KeepsMeaning(A, g, h)
      && (GraphVerified(A, g) ==> GraphVerified(A, h))
  {
    DeadCodeIsErasable(g, live);
    ErasureKeeps(A, g, DeadOperations(g.operations, live), DeadValues(g.values, live));
  }

  /** By minimality, a live value that is not a root is used by an operation whose result is live. */
  lemma LiveIsUsed(g: GraphData, live: set<Id>, id: Id)
    requires IsLiveSet(g, live) && id in live && !IsRoot(g, id)
    ensures exists op <- g.operations :: op.output in live && id in op.inputs
  {
    var smaller := live - {id};
    assert !(live <= smaller);
    assert !BackwardClosed(g.operations, smaller);
    var op :| op in g.operations && op.output in smaller && exists k | 0 <= k < |op.inputs| :: op.inputs[k] !in smaller;
    var k :| 0 <= k < |op.inputs| && op.inputs[k] !in smaller;
    assert op.inputs[k] in live;
  }

  /**
   Every intermediate value that survives is declared or used, unless it was kept for the side effect of
   its producer: only there can the planner's check for unused intermediates fail.
   */
  lemma NoUnusedIntermediates(g: GraphData, live: set<Id>, v: Value)
    requires Ordered(g) && IsLiveSet(g, live)
    requires v in g.values && v.id in live && v.kind.IntermediateValue?
    requires forall op <- g.operations | op.output == v.id :: !op.HasSideEffect()
    ensures var h := Erased(g, DeadOperations(g.operations, live), DeadValues(g.values, live));
      Declared(h, v) || Used(h.operations, v.id)
  {
    if v.id !in g.outputIds {
      if v.id in g.inputIds {
        InputKind(g, v);
      }
      LiveIsUsed(g, live, v.id);
      var op :| op in g.operations && op.output in live && v.id in op.inputs;
      SameOperation(g.operations, op);
      KeptOperationsAre(g.operations, DeadOperations(g.operations, live));
      var kept := KeptOperations(g.operations, DeadOperations(g.operations, live));
      assert op in kept;
      var c :| 0 <= c < |kept| && kept[c] == op;
    }
  }

  lemma InputKind(g: GraphData, v: Value)
    requires WellFormedGraph(g) && v in g.values && v.id in g.inputIds
    ensures v.kind.InputValue?
  {
    assert Named(g.values, v.id, InputValue);
    var j :| 0 <= j < |g.values| && g.values[j].id == v.id && g.values[j].kind == InputValue;
    var i :| 0 <= i < |g.values| && g.values[i] == v;
    assert i == j;
  }
}
