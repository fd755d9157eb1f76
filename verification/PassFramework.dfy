/** What every rewrite pass keeps, and reordering (cpp/src/passes/rewrite_utils.cpp). */
module PassFramework {
  import opened Basics
  import opened GraphIR
  import opened Kahn
  import opened OperationOrder
  import opened Sequential
  import opened Tensors
  import opened Evaluator
  import opened SemanticVerifier
  import opened GraphInvariants
  import opened RewriteUtils
  import Counting

  /** Well-formed, and every operand is produced earlier. */
  ghost predicate Ordered(g: GraphData) {
    WellFormedGraph(g) && TopologicallyOrdered(g.operations)
  }

  ghost predicate GraphVerified(A: Arith, g: GraphData) {
    Verified(A, Descriptors(g.values), g.operations)
  }

  /** `env` satisfies the equation of every operation of the graph. */
  ghost predicate Solves(A: Arith, feeds: Feeds, g: GraphData, env: Env) {
    Models(Meaning(A, feeds, Descriptors(g.values)), g.operations, env)
  }

  /** Every solution of the old graph solves the new one. */
  ghost predicate KeepsMeaning(A: Arith, g: GraphData, h: GraphData) {
    forall feeds, env | Solves(A, feeds, g, env) :: Solves(A, feeds, h, env)
  }

  lemma MeaningKeptTwice(A: Arith, g: GraphData, h: GraphData, k: GraphData)
    requires KeepsMeaning(A, g, h) && KeepsMeaning(A, h, k)
    ensures KeepsMeaning(A, g, k)
  {
  }

  function EvaluateData(A: Arith, feeds: Feeds, g: GraphData): Option<Env> {
    Evaluate(A, feeds, Descriptors(g.values), g.operations)
  }

  /** The same interface, and the declared outputs are still there. */
  ghost predicate SameInterface(g: GraphData, h: GraphData) {
    g.inputIds == h.inputIds && g.outputIds == h.outputIds
  }

  /** What an ordered graph evaluates to solves it. */
  lemma EvaluationSolves(A: Arith, feeds: Feeds, g: GraphData)
    requires Ordered(g) && EvaluateData(A, feeds, g).Some?
    ensures Solves(A, feeds, g, EvaluateData(A, feeds, g).value)
  {
    MeaningIsLocal(A, feeds, Descriptors(g.values));
    RunModels(Meaning(A, feeds, Descriptors(g.values)), feeds.inputs, g.operations, |g.operations|);
    assert g.operations[..|g.operations|] == g.operations;
  }

  /** A solution of an ordered graph is its evaluation, on every value the graph produces. */
  lemma SolutionIsEvaluation(A: Arith, feeds: Feeds, g: GraphData, env: Env)
    requires Ordered(g) && Solves(A, feeds, g, env)
    ensures EvaluateData(A, feeds, g).Some?
    ensures forall v <- g.values :: AgreeAt(EvaluateData(A, feeds, g).value, env, v.id)
  {
    MeaningIsLocal(A, feeds, Descriptors(g.values));
    ModelsAreRuns(Meaning(A, feeds, Descriptors(g.values)), feeds.inputs, g.operations, |g.operations|, env);
    forall v <- g.values ensures AgreeAt(EvaluateData(A, feeds, g).value, env, v.id) {
      assert Produced(g.operations, v.id);
      assert ProducedBefore(g.operations, |g.operations|, v.id);
    }
  }

  /** The declared outputs of a rewritten graph evaluate as before. */
  lemma OutputsPreserved(A: Arith, feeds: Feeds, g: GraphData, h: GraphData)
    requires Ordered(g) && Ordered(h) && SameInterface(g, h) && KeepsMeaning(A, g, h)
    requires EvaluateData(A, feeds, g).Some?
    ensures EvaluateData(A, feeds, h).Some?
    ensures forall id <- g.outputIds ::
      AgreeAt(EvaluateData(A, feeds, g).value, EvaluateData(A, feeds, h).value, id)
  {
    var env := EvaluateData(A, feeds, g).value;
    EvaluationSolves(A, feeds, g);
    SolutionIsEvaluation(A, feeds, h, env);
    forall id <- g.outputIds ensures AgreeAt(env, EvaluateData(A, feeds, h).value, id) {
      assert Named(h.values, id, OutputValue);
      var k :| 0 <= k < |h.values| && h.values[k].id == id && h.values[k].kind == OutputValue;
      assert AgreeAt(EvaluateData(A, feeds, h).value, env, h.values[k].id);
    }
  }

  // ----- reordering -----

  function Reordered(ops: seq<Operation>, order: seq<nat>): (r: seq<Operation>)
    requires forall k | 0 <= k < |order| :: order[k] < |ops|
    ensures |r| == |order|
  {
    seq(|order|, k requires 0 <= k < |order| => ops[order[k]])
  }

  lemma ReorderedFacts(ops: seq<Operation>, effects: bool, order: seq<nat>)
    requires LinearExtension(|ops|, OrderEdges(ops, effects), order)
    ensures SameOperations(ops, Reordered(ops, order))
    ensures DistinctOutputs(ops) ==> DistinctOutputs(Reordered(ops, order))
    ensures DistinctOperationIds(ops) ==> DistinctOperationIds(Reordered(ops, order))
  {
    Counting.DistinctBound(order, |ops|);
    var r := Reordered(ops, order);
    forall op <- ops ensures op in r {
      var i: nat :| i < |ops| && ops[i] == op;
      assert r[Position(order, i)] == op;
    }
  }

  lemma ReorderedIsOrdered(ops: seq<Operation>, effects: bool, order: seq<nat>)
    requires LinearExtension(|ops|, OrderEdges(ops, effects), order) && OperandsProduced(ops)
    ensures TopologicallyOrdered(Reordered(ops, order))
  {
    Counting.DistinctBound(order, |ops|);
    var r := Reordered(ops, order);
    forall i: nat, k: nat | i < |r| && k < |r[i].inputs| ensures ProducedBefore(r, i, r[i].inputs[k]) {
      OperandEarlier(ops, effects, order, i, k);
    }
  }

  lemma OperandEarlier(ops: seq<Operation>, effects: bool, order: seq<nat>, i: nat, k: nat)
    requires LinearExtension(|ops|, OrderEdges(ops, effects), order) && OperandsProduced(ops)
    requires forall x: nat | x < |ops| :: x in order
    requires i < |order| && k < |ops[order[i]].inputs|
    ensures ProducedBefore(Reordered(ops, order), i, ops[order[i]].inputs[k])
  {
    var id := ops[order[i]].inputs[k];
    assert Produced(ops, id);
    var p: nat :| p < |ops| && ops[p].output == id;
    assert OperationOrder.Feeds(ops, p, order[i]);
    var j := Position(order, p);
    EdgesPointForward(|ops|, OrderEdges(ops, effects), order, j, i);
    assert Reordered(ops, order)[j].output == id;
  }

  /** Changing only the operations, but not which there are. */
  lemma PermutationKeepsWellFormed(g: GraphData, h: GraphData)
    requires WellFormedGraph(g) && h == g.(operations := h.operations)
    requires SameOperations(g.operations, h.operations) && |h.operations| <= |g.operations|
    requires DistinctOutputs(h.operations) && DistinctOperationIds(h.operations)
    ensures WellFormedGraph(h)
  {
    var types := Descriptors(g.values);
    forall i | 0 <= i < |h.operations| ensures Resolved(types, h.operations[i]) {
      assert h.operations[i] in g.operations;
      var j :| 0 <= j < |g.operations| && g.operations[j] == h.operations[i];
      assert Resolved(types, g.operations[j]);
    }
    forall v <- g.values ensures Produced(h.operations, v.id) {
      assert Produced(g.operations, v.id);
      var j :| 0 <= j < |g.operations| && g.operations[j].output == v.id;
      assert g.operations[j] in h.operations;
      var i :| 0 <= i < |h.operations| && h.operations[i] == g.operations[j];
      assert h.operations[i].output == v.id;
    }
  }

  lemma WellFormedOperandsProduced(g: GraphData)
    requires WellFormedGraph(g)
    ensures OperandsProduced(g.operations)
  {
    forall c, k | 0 <= c < |g.operations| && 0 <= k < |g.operations[c].inputs|
      ensures Produced(g.operations, g.operations[c].inputs[k])
    {
      assert Resolved(Descriptors(g.values), g.operations[c]);
      var j := ValueOf(g.values, g.operations[c].inputs[k]);
      assert Produced(g.operations, g.values[j].id);
    }
  }

  /** The order of the reordered operations is the least one the dependencies and effects allow. */
  ghost predicate IsStableOrder(before: seq<Operation>, after: seq<Operation>) {
    exists order ::
      && LeastLinearExtension(Ids(before), OrderEdges(before, true), order)
      && |order| == |before| && (forall k | 0 <= k < |order| :: order[k] < |before|)
      && after == Reordered(before, order)
  }

  /** `stable_topological_order` */
  method StableTopologicalOrder(graph: Graph) returns (r: Result<bool>)
    requires DistinctOutputs(graph.operations) && DistinctOperationIds(graph.operations)
    requires |graph.operations| < UINT64_MAX
    modifies graph`operations
    ensures r.Ok? <==> OperandsProduced(old(graph.operations)) && !Cyclic(OrderEdges(old(graph.operations), true))
    ensures r.Ok? ==> IsStableOrder(old(graph.operations), graph.operations)
    ensures r.Ok? ==> (r.value <==> graph.operations != old(graph.operations))
    ensures r.Err? ==> graph.operations == old(graph.operations) && r.code == FailedPrecondition
  {
    var operations := graph.operations;
    var producers, unique := IndexByOutput(operations);
    var ordering := OrderOperations(operations, producers, true);
    if ordering.Err? {
      return Err(FailedPrecondition);
    }
    var order := ordering.value;
    var ordered: seq<Operation> := [];
    for k := 0 to |order|
      invariant |ordered| == k
      invariant forall j | 0 <= j < k :: ordered[j] == operations[order[j]]
    {
      ordered := ordered + [operations[order[k]]];
    }
    assert ordered == Reordered(operations, order);
    var changed := false;
    for k := 0 to |ordered|
      invariant changed <==> exists j | 0 <= j < k :: ordered[j].id != operations[j].id
    {
      changed := changed || ordered[k].id != operations[k].id;
    }
    SameIdsSameOrder(operations, order);
    if changed {
      graph.operations := ordered;
    }
    return Ok(changed);
  }

  lemma SameIdsSameOrder(ops: seq<Operation>, order: seq<nat>)
    requires DistinctOperationIds(ops) && |order| == |ops| && forall k | 0 <= k < |order| :: order[k] < |ops|
    ensures (exists j | 0 <= j < |ops| :: Reordered(ops, order)[j].id != ops[j].id) <==> Reordered(ops, order) != ops
  {
    if forall j | 0 <= j < |ops| :: Reordered(ops, order)[j].id == ops[j].id {
      forall j | 0 <= j < |ops| ensures Reordered(ops, order)[j] == ops[j] {
        assert Reordered(ops, order)[j].id == ops[j].id;
      }
    }
  }

  // ----- replacing operations -----

  function Rewired(g: GraphData, ops: seq<Operation>): GraphData {
    g.(operations := ops)
  }

  /** Replacing operations one for one, keeping identifiers, outputs and who computes. */
  lemma SameOutputsSameProducers(g: GraphData, r: seq<Operation>)
    requires WellFormedGraph(g) && |r| == |g.operations|
    requires forall i | 0 <= i < |r| :: r[i].id == g.operations[i].id && r[i].output == g.operations[i].output
    requires forall i | 0 <= i < |r| ::
      r[i].kind == g.operations[i].kind || (!r[i].IsDeclaration() && !g.operations[i].IsDeclaration())
    ensures DistinctOperationIds(r) && DistinctOutputs(r)
    ensures forall v <- g.values :: Produced(r, v.id)
    ensures RolesOk(Rewired(g, r))
  {
    forall v <- g.values ensures Produced(r, v.id) {
      assert Produced(g.operations, v.id);
      var j :| 0 <= j < |r| && g.operations[j].output == v.id;
      assert r[j].output == v.id;
    }
    forall op <- r, v <- g.values | v.id == op.output ensures RoleOk(op.kind, v.kind) {
      var i :| 0 <= i < |r| && r[i] == op;
      assert g.operations[i] in g.operations;
    }
  }

  /** Computed results are not graph inputs. */
  lemma NotAnInput(g: GraphData, op: Operation)
    requires WellFormedGraph(g) && op in g.operations && !op.IsDeclaration()
    ensures op.output !in g.inputIds
  {
    forall k | 0 <= k < |g.values| && g.values[k].id == op.output ensures g.values[k].kind != InputValue {
      assert g.values[k] in g.values;
      assert RoleOk(op.kind, g.values[k].kind);
    }
    assert !Named(g.values, op.output, InputValue);
  }

  lemma FeedsForward(ops: seq<Operation>, j: nat, i: nat)
    requires TopologicallyOrdered(ops) && DistinctOutputs(ops) && OperationOrder.Feeds(ops, j, i)
    ensures j < i
  {
    var k :| 0 <= k < |ops[i].inputs| && ops[i].inputs[k] == ops[j].output;
    assert ProducedBefore(ops, i, ops[i].inputs[k]);
    var p :| 0 <= p < i && ops[p].output == ops[j].output;
  }

  // ----- solutions are typed -----

  /** In a solution every value is there, with its declared shape. */
  lemma SolutionTyped(A: Arith, feeds: Feeds, g: GraphData, env: Env, id: Id)
    requires WellFormedGraph(g) && Solves(A, feeds, g, env) && id in Descriptors(g.values)
    ensures id in env && env[id].shape == Descriptors(g.values)[id].shape
  {
    var k := ValueOf(g.values, id);
    assert Produced(g.operations, g.values[k].id);
    var j :| 0 <= j < |g.operations| && g.operations[j].output == id;
    assert Satisfies(Meaning(A, feeds, Descriptors(g.values)), g.operations[j], env);
  }

  /** Feeding no more than the declared inputs, the evaluator's first check refuses nothing its loop would accept. */
  lemma FedInputsFit(A: Arith, feeds: Feeds, g: GraphData)
    requires Ordered(g) && EvaluateData(A, feeds, g).Some?
    requires forall id <- feeds.inputs :: id in g.inputIds
    ensures FeedsFit(feeds.inputs, Descriptors(g.values))
  {
    var types, env := Descriptors(g.values), EvaluateData(A, feeds, g).value;
    EvaluationSolves(A, feeds, g);
    forall id <- feeds.inputs ensures FeedFits(feeds.inputs, types, id) {
      assert Named(g.values, id, InputValue);
      var k :| 0 <= k < |g.values| && g.values[k].id == id && g.values[k].kind == InputValue;
      assert g.values[k] in g.values && Produced(g.operations, id);
      var j :| 0 <= j < |g.operations| && g.operations[j].output == id;
      assert g.operations[j] in g.operations && RoleOk(g.operations[j].kind, g.values[k].kind);
      assert Satisfies(Meaning(A, feeds, types), g.operations[j], env);
    }
  }

  /** The equation of a computed operation, spelled out. */
  lemma SatisfiedStep(A: Arith, feeds: Feeds, types: Types, op: Operation, env: Env)
    requires Satisfies(Meaning(A, feeds, types), op, env) && !op.kind.Input? && !op.kind.Parameter?
    ensures forall k | 0 <= k < |op.inputs| :: op.inputs[k] in env
    ensures op.output in types && op.output in env
    ensures EvaluateOperation(A, op, Lookup(env, op.inputs), types[op.output].shape) == Some(env[op.output])
    ensures env[op.output].shape == types[op.output].shape
  {
  }
}
