/** The connectivity check of cpp/src/ir/graph_loader.cpp, and why rewriting never fails it. */
module Connectivity {
  import opened Basics
  import opened GraphIR
  import opened Shapes
  import opened Kahn
  import opened OperationOrder
  import opened Sequential
  import opened Tensors
  import opened Evaluator
  import opened SemanticVerifier
  import opened GraphInvariants
  import opened RewriteUtils
  import opened PassFramework
  import opened Erasure
  import opened CopyElimination
  import opened Canonicalisation
  import opened ConstantFolding
  import opened ReshapeElimination
  import TransposeElimination
  import opened DeadCodeElimination
  import opened Fusion
  import opened FusionSoundness
  import opened PassPipeline

  // ----- reachability -----

  predicate AnyOperandIn(op: Operation, values: set<Id>) {
    exists k | 0 <= k < |op.inputs| :: op.inputs[k] in values
  }

  /** Whatever uses a member produces a member. */
  ghost predicate ForwardClosed(ops: seq<Operation>, values: set<Id>) {
    forall op <- ops | AnyOperandIn(op, values) :: op.output in values
  }

  ghost predicate HasAll(ids: seq<Id>, values: set<Id>) {
    forall id <- ids :: id in values
  }

  /** In every closed set that contains the inputs: there is a path from an input. */
  ghost predicate Reachable(inputs: seq<Id>, ops: seq<Operation>, id: Id) {
    forall values: set<Id> | HasAll(inputs, values) && ForwardClosed(ops, values) :: id in values
  }

  /** What one forward sweep over the first n operations finds. */
  function Swept(inputs: seq<Id>, ops: seq<Operation>, n: nat): set<Id>
    requires n <= |ops|
  {
    if n == 0 then set id <- inputs
    else
      var before := Swept(inputs, ops, n - 1);
      before + if AnyOperandIn(ops[n - 1], before) then {ops[n - 1].output} else {}
  }

  lemma {:induction false} SweptContains(inputs: seq<Id>, ops: seq<Operation>, m: nat, n: nat, id: Id)
    requires m <= n <= |ops|
    ensures id in Swept(inputs, ops, m) ==> id in Swept(inputs, ops, n)
    ensures id in Swept(inputs, ops, n) ==>
      id in Swept(inputs, ops, m) || exists j: nat :: m <= j < n && ops[j].output == id
  {
    if m < n {
      SweptContains(inputs, ops, m, n - 1, id);
      if id in Swept(inputs, ops, n - 1) && id !in Swept(inputs, ops, m) {
        var j: nat :| m <= j < n - 1 && ops[j].output == id;
        assert m <= j < n && ops[j].output == id;
      } else if id in Swept(inputs, ops, n) && id !in Swept(inputs, ops, m) {
        assert m <= n - 1 < n && ops[n - 1].output == id;
      }
    }
  }

  /** When operation i is visited, whether its operands are reachable is settled. */
  lemma OperandsSettled(inputs: seq<Id>, ops: seq<Operation>, i: nat)
    requires TopologicallyOrdered(ops) && DistinctOutputs(ops) && i < |ops|
    ensures AnyOperandIn(ops[i], Swept(inputs, ops, |ops|)) <==> AnyOperandIn(ops[i], Swept(inputs, ops, i))
  {
    forall k | 0 <= k < |ops[i].inputs|
      ensures ops[i].inputs[k] in Swept(inputs, ops, |ops|) <==> ops[i].inputs[k] in Swept(inputs, ops, i)
    {
      var id := ops[i].inputs[k];
      SweptContains(inputs, ops, i, |ops|, id);
      assert ProducedBefore(ops, i, id);
      var p :| 0 <= p < i && ops[p].output == id;
    }
  }

  lemma SweptIsClosed(inputs: seq<Id>, ops: seq<Operation>)
    requires TopologicallyOrdered(ops) && DistinctOutputs(ops)
    ensures HasAll(inputs, Swept(inputs, ops, |ops|)) && ForwardClosed(ops, Swept(inputs, ops, |ops|))
  {
    forall id <- inputs ensures id in Swept(inputs, ops, |ops|) {
      SweptContains(inputs, ops, 0, |ops|, id);
    }
    forall op <- ops | AnyOperandIn(op, Swept(inputs, ops, |ops|)) ensures op.output in Swept(inputs, ops, |ops|) {
      var i: nat :| i < |ops| && ops[i] == op;
      OperandsSettled(inputs, ops, i);
      SweptContains(inputs, ops, i + 1, |ops|, op.output);
    }
  }

  lemma {:induction false} SweptIsLeast(inputs: seq<Id>, ops: seq<Operation>, n: nat, values: set<Id>)
    requires n <= |ops| && HasAll(inputs, values) && ForwardClosed(ops, values)
    ensures Swept(inputs, ops, n) <= values
  {
    if n > 0 {
      SweptIsLeast(inputs, ops, n - 1, values);
      if AnyOperandIn(ops[n - 1], Swept(inputs, ops, n - 1)) {
        assert AnyOperandIn(ops[n - 1], values) && ops[n - 1] in ops;
      }
    }
  }

  /** On ordered operations the single sweep finds exactly what is reachable. */
  lemma SweepIsReachability(inputs: seq<Id>, ops: seq<Operation>, id: Id)
    requires TopologicallyOrdered(ops) && DistinctOutputs(ops)
    ensures id in Swept(inputs, ops, |ops|) <==> Reachable(inputs, ops, id)
  {
    SweptIsClosed(inputs, ops);
    forall values: set<Id> | HasAll(inputs, values) && ForwardClosed(ops, values)
      ensures Swept(inputs, ops, |ops|) <= values
    {
      SweptIsLeast(inputs, ops, |ops|, values);
    }
  }

  ghost predicate Connected(g: GraphData) {
    forall id <- g.outputIds :: Reachable(g.inputIds, g.operations, id)
  }

  /** The test of one operation of the sweep. */
  method OperationReachable(op: Operation, reachable: set<Id>) returns (r: bool)
    ensures r <==> (op.kind.Input? && op.output in reachable) || AnyOperandIn(op, reachable)
  {
    r := op.kind.Input? && op.output in reachable;
    for k := 0 to |op.inputs|
      invariant r <==> (op.kind.Input? && op.output in reachable) || exists j | 0 <= j < k :: op.inputs[j] in reachable
    {
      r := r || op.inputs[k] in reachable;
    }
  }

  /** `verify_required_outputs_connected`, on operations in topological order. */
  method VerifyRequiredOutputsConnected(inputs: seq<Id>, outputs: seq<Id>, ops: seq<Operation>) returns (s: Status)
    requires TopologicallyOrdered(ops) && DistinctOutputs(ops)
    ensures s == Success <==> forall id <- outputs :: Reachable(inputs, ops, id)
    ensures s != Success ==> s == Failure(FailedPrecondition)
  {
    var reachable := set id <- inputs;
    for i := 0 to |ops|
      invariant reachable == Swept(inputs, ops, i)
    {
      var found := OperationReachable(ops[i], reachable);
      if found {
        reachable := reachable + {ops[i].output};
      }
    }
    forall id ensures id in reachable <==> Reachable(inputs, ops, id) {
      SweepIsReachability(inputs, ops, id);
    }
    for k := 0 to |outputs|
      invariant forall j | 0 <= j < k :: outputs[j] in reachable
    {
      if outputs[k] !in reachable {
        return Failure(FailedPrecondition);
      }
    }
    return Success;
  }

  // ----- reachability as an equation -----

  type Flow = map<Id, bool>

  /** An input of the graph is reachable; a result is when some operand is. */
  function FlowStep(inputs: seq<Id>): (Operation, Flow) -> Option<bool> {
    (op: Operation, flow: Flow) =>
      if exists k | 0 <= k < |op.inputs| :: op.inputs[k] !in flow then None
      else Some(FlowValue(inputs, op, flow))
  }

  predicate FlowValue(inputs: seq<Id>, op: Operation, flow: Flow)
    requires forall k | 0 <= k < |op.inputs| :: op.inputs[k] in flow
  {
    (op.kind.Input? && op.output in inputs) || exists k | 0 <= k < |op.inputs| :: flow[op.inputs[k]]
  }

  ghost predicate Flows(g: GraphData, flow: Flow) {
    Models(FlowStep(g.inputIds), g.operations, flow)
  }

  lemma FlowIsLocal(inputs: seq<Id>)
    ensures Local(FlowStep(inputs))
  {
    var step := FlowStep(inputs);
    forall op: Operation, flow: Flow, other: Flow | AgreeOn(op.inputs, flow, other)
      ensures step(op, flow) == step(op, other)
    {
      assert forall k | 0 <= k < |op.inputs| :: AgreeAt(flow, other, op.inputs[k]);
    }
  }

  /** Only results of Input operations are declared inputs. */
  lemma DeclaredInputs(g: GraphData, op: Operation)
    requires WellFormedGraph(g) && op in g.operations && op.output in g.inputIds
    ensures op.kind.Input?
  {
    assert Named(g.values, op.output, InputValue);
    var k :| 0 <= k < |g.values| && g.values[k].id == op.output && g.values[k].kind == InputValue;
    assert g.values[k] in g.values && RoleOk(op.kind, g.values[k].kind);
  }

  /** A solution says of every result whether the sweep finds it. */
  lemma {:induction false} FlowIsSwept(g: GraphData, flow: Flow, n: nat, i: nat)
    requires Ordered(g) && Flows(g, flow) && i < n <= |g.operations|
    ensures g.operations[i].output in flow
    ensures flow[g.operations[i].output] <==> g.operations[i].output in Swept(g.inputIds, g.operations, n)
    decreases i
  {
    var ops, op := g.operations, g.operations[i];
    assert Satisfies(FlowStep(g.inputIds), ops[i], flow);
    forall k | 0 <= k < |op.inputs|
      ensures op.inputs[k] in flow && (flow[op.inputs[k]] <==> op.inputs[k] in Swept(g.inputIds, ops, i))
    {
      assert ProducedBefore(ops, i, op.inputs[k]);
      var p: nat :| p < i && ops[p].output == op.inputs[k];
      FlowIsSwept(g, flow, i, p);
    }
    SweptResult(g, i, n);
  }

  lemma SweptResult(g: GraphData, i: nat, n: nat)
    requires Ordered(g) && i < n <= |g.operations|
    ensures var ops := g.operations;
      ops[i].output in Swept(g.inputIds, ops, n) <==>
      (ops[i].kind.Input? && ops[i].output in g.inputIds) || AnyOperandIn(ops[i], Swept(g.inputIds, ops, i))
  {
    var ops, id := g.operations, g.operations[i].output;
    SweptContains(g.inputIds, ops, 0, i, id);
    SweptContains(g.inputIds, ops, i + 1, n, id);
    assert ops[i] in ops;
    if id in g.inputIds {
      DeclaredInputs(g, ops[i]);
    }
  }

  /** Every ordered graph has a solution. */
  lemma FlowExists(g: GraphData) returns (flow: Flow)
    requires Ordered(g)
    ensures Flows(g, flow)
  {
    var step := FlowStep(g.inputIds);
    var ok, good := (op: Operation) => true, (id: Id, b: bool) => true;
    RunProgress(step, map[], g.operations, |g.operations|, good, ok);
    flow := Run(step, map[], g.operations, |g.operations|).value;
    FlowIsLocal(g.inputIds);
    RunModels(step, map[], g.operations, |g.operations|);
    assert g.operations[..|g.operations|] == g.operations;
  }

  /** Connectedness is decided by any solution. */
  lemma FlowDecides(g: GraphData, flow: Flow)
    requires Ordered(g) && Flows(g, flow)
    ensures forall id <- g.outputIds :: id in flow
    ensures Connected(g) <==> forall id <- g.outputIds :: flow[id]
  {
    var ops := g.operations;
    forall id <- g.outputIds ensures id in flow && (flow[id] <==> Reachable(g.inputIds, ops, id)) {
      assert Named(g.values, id, OutputValue);
      var k :| 0 <= k < |g.values| && g.values[k].id == id && g.values[k].kind == OutputValue;
      assert g.values[k] in g.values && Produced(ops, g.values[k].id);
      var i: nat :| i < |ops| && ops[i].output == id;
      FlowIsSwept(g, flow, |ops|, i);
      SweepIsReachability(g.inputIds, ops, id);
    }
  }

  // ----- what rewriting does to it -----

  /** Attributes play no part in reachability. */
  lemma CanonicalFlow(inputs: seq<Id>, types: Types, op: Operation, flow: Flow)
    requires Satisfies(FlowStep(inputs), op, flow)
    ensures Satisfies(FlowStep(inputs), CanonicalOperation(types, op), flow)
  {
    var c := CanonicalOperation(types, op);
    assert c.kind == op.kind && c.inputs == op.inputs && c.output == op.output;
    hide CanonicalOperation;
  }

  lemma CanonicalFlows(g: GraphData, after: seq<Operation>, flow: Flow)
    requires Flows(g, flow) && IsStableOrder(CanonicalOperations(Descriptors(g.values), g.operations), after)
    ensures Flows(Rewired(g, after), flow)
  {
    var step, types := FlowStep(g.inputIds), Descriptors(g.values);
    var c := CanonicalOperations(types, g.operations);
    forall i | 0 <= i < |after| ensures Satisfies(step, after[i], flow) {
      StableOrderMembers(c, after, after[i]);
      var k :| 0 <= k < |c| && c[k] == after[i];
      assert Satisfies(step, g.operations[k], flow) && c[k] == CanonicalOperation(types, g.operations[k]);
      hide *;
      CanonicalFlow(g.inputIds, types, g.operations[k], flow);
    }
  }

  /** Erasing operations keeps the equations of the others. */
  lemma ErasedFlows(g: GraphData, opIds: set<Id>, valueIds: set<Id>, flow: Flow)
    requires Flows(g, flow)
    ensures Flows(Erased(g, opIds, valueIds), flow)
  {
    var kept, step := KeptOperations(g.operations, opIds), FlowStep(g.inputIds);
    KeptOperationsAre(g.operations, opIds);
    forall i | 0 <= i < |kept| ensures Satisfies(step, kept[i], flow) {
      assert kept[i] in kept;
      var k :| 0 <= k < |g.operations| && g.operations[k] == kept[i];
      assert Satisfies(step, g.operations[k], flow);
    }
  }

  /** An operation that folds computes from constants, which nothing reaches. */
  lemma FoldStepFlows(A: Arith, g: GraphData, i: nat, flow: Flow)
    requires Ordered(g) && Flows(g, flow) && i < |g.operations|
    ensures Flows(FoldStep(A, g, i), flow)
  {
    var types, op, step := Descriptors(g.values), g.operations[i], FlowStep(g.inputIds);
    if Folded(A, types, g.operations, op).Some? {
      OperandLiterals(g.operations, op.inputs);
      assert Satisfies(step, g.operations[i], flow);
      forall k | 0 <= k < |op.inputs| ensures !flow[op.inputs[k]] {
        ConstantUnreached(g, op.inputs[k], flow);
      }
      var h := FoldStep(A, g, i);
      forall k | 0 <= k < |h.operations| ensures Satisfies(step, h.operations[k], flow) {
        if k != i {
          assert Satisfies(step, g.operations[k], flow);
        }
      }
    }
  }

  lemma ConstantUnreached(g: GraphData, id: Id, flow: Flow)
    requires Ordered(g) && Flows(g, flow) && ConstantOperand(g.operations, id).Some?
    ensures id in flow && !flow[id]
  {
    FoundProducer(g.operations, id);
    var op := FindProducer(g.operations, id).value;
    var j :| 0 <= j < |g.operations| && g.operations[j] == op;
    assert Satisfies(FlowStep(g.inputIds), g.operations[j], flow) && Resolved(Descriptors(g.values), g.operations[j]);
  }

  lemma {:induction false} FoldSweepFlows(A: Arith, g: GraphData, m: nat, flow: Flow)
    requires m <= |g.operations|
    ensures Ordered(g) && Flows(g, flow) ==> Ordered(FoldSweep(A, g, m)) && Flows(FoldSweep(A, g, m), flow)
  {
    hide Ordered, Flows, FoldStep;
    if m > 0 {
      FoldSweepFlows(A, g, m - 1, flow);
      OneFoldFlows(A, FoldSweep(A, g, m - 1), m - 1, flow);
    }
  }

  lemma OneFoldFlows(A: Arith, g: GraphData, i: nat, flow: Flow)
    requires i < |g.operations|
    ensures Ordered(g) && Flows(g, flow) ==> Ordered(FoldStep(A, g, i)) && Flows(FoldStep(A, g, i), flow)
  {
    if Ordered(g) && Flows(g, flow) {
      FoldStepFlows(A, g, i, flow);
      FoldStepKeeps(A, g, i);
    }
  }

  /** A dropped copy is reached exactly when what it copies is, so uses may go past it. */
  lemma ReroutedFlows(g: GraphData, drop: seq<bool>, flow: Flow)
    requires Ordered(g) && Flows(g, flow) && HasOperands(g.operations, drop)
    requires forall i {:trigger drop[i]} | 0 <= i < |drop| && drop[i] ::
      |g.operations[i].inputs| == 1 && !g.operations[i].kind.Input?
    ensures Flows(ReroutedGraph(g, drop), flow)
  {
    var ops, step := g.operations, FlowStep(g.inputIds);
    forall i | 0 <= i < |drop| && drop[i] && ops[i].output in flow
      ensures ops[i].inputs[0] in flow && flow[ops[i].output] == flow[ops[i].inputs[0]]
    {
      assert Satisfies(step, ops[i], flow);
    }
    var r := Rerouted(ops, drop, |ops|);
    forall i | 0 <= i < |r| ensures Satisfies(step, r[i], flow) {
      assert Satisfies(step, ops[i], flow);
      forall k | 0 <= k < |ops[i].inputs|
        ensures r[i].inputs[k] in flow && flow[r[i].inputs[k]] == flow[ops[i].inputs[k]]
      {
        RootAgrees(ops, drop, |ops|, ops[i].inputs[k], flow);
      }
    }
  }

  /** A fused operation is reached exactly when some member of the chain uses something reached. */
  lemma FusedFlows(g: GraphData, flow: Flow)
    requires Flows(g, flow)
    ensures Flows(FusedGraph(g), flow)
  {
    var ops, step, r := g.operations, FlowStep(g.inputIds), FusedOperations(g, |g.operations|);
    forall i | 0 <= i < |r| ensures Satisfies(step, r[i], flow) {
      assert Satisfies(step, ops[i], flow);
      if MatchAt(g, i).Some? {
        ChainFlows(g, i, flow);
      }
    }
  }

  lemma ChainFlows(g: GraphData, i: nat, flow: Flow)
    requires Flows(g, flow) && i < |g.operations| && MatchAt(g, i).Some?
    ensures Satisfies(FlowStep(g.inputIds), FusedAt(g, i), flow)
  {
    FusedAtIs(g, i);
    var m, step, op := MatchAt(g, i).value, FlowStep(g.inputIds), FusedAt(g, i);
    var base, add, gelu := g.operations[m.base], g.operations[m.add], g.operations[i];
    assert Satisfies(step, g.operations[m.base], flow) && Satisfies(step, g.operations[m.add], flow)
      && Satisfies(step, g.operations[i], flow);
    assert gelu.inputs == [add.output];
    assert base.inputs == [base.inputs[0], base.inputs[1]];
    TwoOperands(g.inputIds, base, base.inputs[0], base.inputs[1], flow);
    if add.inputs == [base.output, m.bias] {
      TwoOperands(g.inputIds, add, base.output, m.bias, flow);
    } else {
      TwoOperands(g.inputIds, add, m.bias, base.output, flow);
    }
    assert flow[gelu.output] == flow[add.output] by {
      assert gelu.inputs[0] == add.output;
    }
    assert op.inputs[0] == base.inputs[0] && op.inputs[1] == base.inputs[1] && op.inputs[2] == m.bias;
  }

  lemma TwoOperands(inputs: seq<Id>, op: Operation, x: Id, y: Id, flow: Flow)
    requires Satisfies(FlowStep(inputs), op, flow) && !op.kind.Input? && op.inputs == [x, y]
    ensures x in flow && y in flow && flow[op.output] == (flow[x] || flow[y])
  {
    assert op.inputs[0] == x && op.inputs[1] == y;
  }

  /** Every pass keeps what is reachable. */
  lemma PassKeepsFlow(A: Arith, pass: Pass, g: GraphData, h: GraphData, flow: Flow)
    requires Ordered(g) && Transforms(A, pass, g, h) && Flows(g, flow)
    ensures Flows(h, flow)
  {
    match pass {
      case GraphVerifier =>
      case CanonicalisationPass => CanonicalFlows(g, h.operations, flow);
      case ConstantFoldingPass => FoldSweepFlows(A, g, |g.operations|, flow);
      case ReshapeEliminationPass => CopiesFlow(g, RedundantReshapes(g), flow);
      case TransposeEliminationPass => CopiesFlow(g, TransposeElimination.RedundantTransposes(g), flow);
      case FuseBiasGeluPass =>
        FusedFlows(g, flow);
        ErasedFlows(FusedGraph(g), AbsorbedIds(g, |g.operations|), AbsorbedValues(g, |g.operations|), flow);
      case DeadCodeEliminationPass =>
        var live :| IsLiveSet(g, live) && h == WithoutDeadCode(g, live);
        ErasedFlows(g, DeadOperations(g.operations, live), DeadValues(g.values, live), flow);
    }
  }

  lemma CopiesFlow(g: GraphData, drop: seq<bool>, flow: Flow)
    requires Ordered(g) && Flows(g, flow) && HasOperands(g.operations, drop)
    requires forall i {:trigger drop[i]} | 0 <= i < |drop| && drop[i] ::
      g.operations[i].kind.Reshape? || g.operations[i].kind.Transpose?
    ensures Flows(WithoutCopies(g, drop), flow)
  {
    forall i | 0 <= i < |drop| && drop[i] ensures |g.operations[i].inputs| == 1 {
      assert Resolved(Descriptors(g.values), g.operations[i]);
    }
    ReroutedFlows(g, drop, flow);
    ErasedFlows(ReroutedGraph(g, drop), DroppedIds(g.operations, drop), DroppedOutputs(g.operations, drop), flow);
  }

  /** Rewriting decides nothing about connectedness: what the loader accepted it accepts again, and the reverse. */
  lemma PassKeepsConnected(A: Arith, pass: Pass, g: GraphData, h: GraphData)
    requires Ordered(g) && GraphVerified(A, g) && Transforms(A, pass, g, h)
    ensures Connected(h) <==> Connected(g)
  {
    PassKeepsVerified(A, pass, g, h);
    var flow := FlowExists(g);
    PassKeepsFlow(A, pass, g, h, flow);
    FlowDecides(g, flow);
    FlowDecides(h, flow);
  }
}
