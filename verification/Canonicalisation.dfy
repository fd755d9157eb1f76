/** cpp/src/passes/canonicalisation_pass.cpp */
module Canonicalisation {
  import opened Basics
  import opened GraphIR
  import opened Shapes
  import opened Kahn
  import opened OperationOrder
  import opened Sequential
  import opened Tensors
  import opened Evaluator
  import opened SemanticVerifier
  import opened GraphInvariants
  import opened RewriteUtils
  import opened PassFramework
  import opened CopyElimination
  import Counting

  // ----- canonical attributes -----

  predicate HasNegativeAxis(kind: OperationType, attributes: Attributes, rank: Option<nat>) {
    (kind.Softmax? || kind.RmsNorm?) && "axis" in attributes && attributes["axis"].JInt?
    && attributes["axis"].integer < 0 && rank.Some?
  }

  /** Negative axes become non-negative, given the rank of the first operand. */
  function CanonicalAxis(kind: OperationType, attributes: Attributes, rank: Option<nat>): Attributes {
    if HasNegativeAxis(kind, attributes, rank)
    then attributes["axis" := JInt(attributes["axis"].integer + rank.value)]
    else attributes
  }

  function WithDefault(attributes: Attributes, name: string, value: Json): Attributes {
    if name in attributes then attributes else attributes[name := value]
  }

  /** Defaults are written out. */
  function CanonicalDefaults(kind: OperationType, attributes: Attributes): Attributes {
    match kind
    case Gelu => WithDefault(attributes, "approximate", JString("none"))
    case Softmax => WithDefault(attributes, "stable", JBool(true))
    case CausalMask => WithDefault(attributes, "diagonal", JInt(0))
    case _ => attributes
  }

  predicate LacksDefault(kind: OperationType, attributes: Attributes) {
    match kind
    case Gelu => "approximate" !in attributes
    case Softmax => "stable" !in attributes
    case CausalMask => "diagonal" !in attributes
    case _ => false
  }

  predicate HasFalseEffect(attributes: Attributes) {
    "side_effect" in attributes && attributes["side_effect"] == JBool(false)
  }

  /** A false side-effect marker is dropped. */
  function CanonicalEffect(attributes: Attributes): Attributes {
    if HasFalseEffect(attributes)
    then attributes - {"side_effect"} else attributes
  }

  function CanonicalAttributes(kind: OperationType, attributes: Attributes, rank: Option<nat>): Attributes {
    CanonicalEffect(CanonicalDefaults(kind, CanonicalAxis(kind, attributes, rank)))
  }

  function RankOf(types: Types, op: Operation): Option<nat> {
    if |op.inputs| > 0 && op.inputs[0] in types then Some(|types[op.inputs[0]].shape|) else None
  }

  /** The pass has something to edit. */
  predicate Editable(types: Types, op: Operation) {
    || HasNegativeAxis(op.kind, op.attributes, RankOf(types, op))
    || LacksDefault(op.kind, op.attributes) || HasFalseEffect(op.attributes)
  }

  ghost predicate AnyEditable(types: Types, ops: seq<Operation>) {
    exists i | 0 <= i < |ops| :: Editable(types, ops[i])
  }

  function CanonicalOperation(types: Types, op: Operation): Operation {
    op.(attributes := CanonicalAttributes(op.kind, op.attributes, RankOf(types, op)))
  }

  function CanonicalOperations(types: Types, ops: seq<Operation>): (r: seq<Operation>)
    ensures |r| == |ops|
  {
    seq(|ops|, i requires 0 <= i < |ops| => CanonicalOperation(types, ops[i]))
  }

  method NormaliseAxis(graph: Graph, values: map<Id, nat>, op: Operation)
    returns (attributes: Attributes, modified: bool)
    requires DistinctValueIds(graph.values) && IsValueIndex(graph.values, values)
    requires op.kind.Softmax? || op.kind.RmsNorm? ==> |op.inputs| > 0
    ensures attributes == CanonicalAxis(op.kind, op.attributes, RankOf(Descriptors(graph.values), op))
    ensures modified <==> HasNegativeAxis(op.kind, op.attributes, RankOf(Descriptors(graph.values), op))
  {
    attributes, modified := op.attributes, false;
    if op.kind.Softmax? || op.kind.RmsNorm? {
      ValueIndexed(graph.values, values, op.inputs[0]);
      if "axis" in attributes && attributes["axis"].JInt? {
        var original := attributes["axis"].integer;
        if original < 0 && op.inputs[0] in values {
          var rank := |graph.values[values[op.inputs[0]]].descriptor.shape|;
          attributes, modified := attributes["axis" := JInt(original + rank)], true;
        }
      }
    }
  }

  method AddDefaults(kind: OperationType, given: Attributes) returns (attributes: Attributes, modified: bool)
    ensures attributes == CanonicalDefaults(kind, given)
    ensures modified <==> LacksDefault(kind, given)
  {
    attributes, modified := given, false;
    if kind.Gelu? && "approximate" !in attributes {
      attributes, modified := attributes["approximate" := JString("none")], true;
    }
    if kind.Softmax? && "stable" !in attributes {
      attributes, modified := attributes["stable" := JBool(true)], true;
    }
    if kind.CausalMask? && "diagonal" !in attributes {
      attributes, modified := attributes["diagonal" := JInt(0)], true;
    }
  }

  /** The attribute edits of one operation. */
  method CanonicaliseAttributes(graph: Graph, values: map<Id, nat>, op: Operation)
    returns (attributes: Attributes, modified: bool)
    requires DistinctValueIds(graph.values) && IsValueIndex(graph.values, values)
    requires op.kind.Softmax? || op.kind.RmsNorm? ==> |op.inputs| > 0
    ensures attributes == CanonicalOperation(Descriptors(graph.values), op).attributes
    ensures modified <==> Editable(Descriptors(graph.values), op)
  {
    var normalised, axis := NormaliseAxis(graph, values, op);
    var complete, defaults := AddDefaults(op.kind, normalised);
    attributes, modified := complete, axis || defaults;
    if HasFalseEffect(attributes) {
      attributes, modified := attributes - {"side_effect"}, true;
    }
  }

  /** `run`: canonical attributes, then the stable topological order. */
  method Canonicalise(graph: Graph) returns (s: Status, changed: bool)
    requires DistinctValueIds(graph.values) && OperationsOk(Descriptors(graph.values), graph.operations)
    requires OperandsProduced(graph.operations)
    modifies graph
    ensures graph.values == old(graph.values)
    ensures s == Success <==>
      !Cyclic(OrderEdges(CanonicalOperations(Descriptors(old(graph.values)), old(graph.operations)), true))
    ensures s == Success ==>
      IsStableOrder(CanonicalOperations(Descriptors(old(graph.values)), old(graph.operations)), graph.operations)
    ensures s == Success ==>
      var types, ops := Descriptors(old(graph.values)), old(graph.operations);
      changed <==> (AnyEditable(types, ops) || graph.operations != CanonicalOperations(types, ops))
  {
    hide Descriptors, OperandsProduced, DistinctOutputs, DistinctOperationIds, DistinctValueIds, AllResolved;
    hide CanonicalOperation, IsStableOrder, OrderEdges, Cyclic, IsValueIndex, AnyEditable;
    var values := ValueIndexById(graph.values);
    ghost var types, ops := Descriptors(graph.values), graph.operations;
    var modified := CanonicaliseAll(graph, values, types, ops);
    CanonicalKeepsOperations(types, ops);
    assert |graph.operations| < UINT64_MAX;
    hide CanonicalOperations, OperationsOk;
    var ordering := StableTopologicalOrder(graph);
    if ordering.Err? {
      return Failure(FailedPrecondition), modified;
    }
    return Success, modified || ordering.value;
  }

  /** The loop over the operations. */
  method CanonicaliseAll(graph: Graph, values: map<Id, nat>, ghost types: Types, ghost ops: seq<Operation>)
    returns (modified: bool)
    requires types == Descriptors(graph.values) && ops == graph.operations
    requires DistinctValueIds(graph.values) && IsValueIndex(graph.values, values)
    requires AllResolved(types, ops)
    modifies graph`operations
    ensures graph.operations == CanonicalOperations(types, ops)
    ensures modified <==> AnyEditable(types, ops)
  {
    hide CanonicalAttributes, Editable, Descriptors, IsValueIndex, DistinctValueIds;
    modified := false;
    for i := 0 to |graph.operations|
      invariant |graph.operations| == |ops|
      invariant forall k | 0 <= k < i :: graph.operations[k] == CanonicalOperation(types, ops[k])
      invariant forall k | i <= k < |ops| :: graph.operations[k] == ops[k]
      invariant modified <==> exists k | 0 <= k < i :: Editable(types, ops[k])
    {
      var operation := graph.operations[i];
      assert Resolved(types, ops[i]);
      var attributes, edited := CanonicaliseAttributes(graph, values, operation);
      graph.operations := graph.operations[i := operation.(attributes := attributes)];
      modified := modified || edited;
    }
  }

  /** Where nothing is edited nothing changes; on what the verifier accepts every edit shows. */
  lemma EditShows(A: Arith, types: Types, op: Operation)
    requires Resolved(types, op) && OperationOk(A, types, op)
    ensures Editable(types, op) <==> CanonicalOperation(types, op) != op
  {
    var rank := RankOf(types, op);
    var axis := CanonicalAxis(op.kind, op.attributes, rank);
    var complete := CanonicalDefaults(op.kind, axis);
    if HasNegativeAxis(op.kind, op.attributes, rank) {
      assert |InputShape(types, op, 0)| > 0;
      assert CanonicalEffect(complete)["axis"] == axis["axis"] != op.attributes["axis"];
    } else if LacksDefault(op.kind, op.attributes) {
      var name := if op.kind.Gelu? then "approximate" else if op.kind.Softmax? then "stable" else "diagonal";
      assert name in CanonicalEffect(complete) && name !in op.attributes;
    } else if HasFalseEffect(op.attributes) {
      assert "side_effect" !in CanonicalEffect(complete);
    }
  }

  /** On what the verifier accepts the pass reports a change exactly when there is one. */
  lemma CanonicalChangeShows(A: Arith, g: GraphData, after: seq<Operation>)
    requires WellFormedGraph(g) && GraphVerified(A, g)
    requires IsStableOrder(CanonicalOperations(Descriptors(g.values), g.operations), after)
    ensures var types := Descriptors(g.values);
      (AnyEditable(types, g.operations) || after != CanonicalOperations(types, g.operations)) <==> after != g.operations
  {
    var types, ops := Descriptors(g.values), g.operations;
    var c := CanonicalOperations(types, ops);
    forall i | 0 <= i < |ops| ensures Editable(types, ops[i]) <==> c[i] != ops[i] {
      assert Resolved(types, ops[i]) && OperationOk(A, types, ops[i]);
      EditShows(A, types, ops[i]);
    }
    hide Editable, CanonicalAttributes, Descriptors, IsStableOrder, GraphVerified;
    if AnyEditable(types, ops) {
      var i :| 0 <= i < |ops| && Editable(types, ops[i]);
      EditedIsNew(types, ops, after, i);
    } else {
      assert c == ops;
    }
  }

  lemma EditedIsNew(types: Types, ops: seq<Operation>, after: seq<Operation>, i: nat)
    requires DistinctOperationIds(ops) && i < |ops| && CanonicalOperation(types, ops[i]) != ops[i]
    requires IsStableOrder(CanonicalOperations(types, ops), after)
    ensures after != ops
  {
    var c := CanonicalOperations(types, ops);
    var order :| LeastLinearExtension(Ids(c), OrderEdges(c, true), order)
      && |order| == |c| && (forall k | 0 <= k < |order| :: order[k] < |c|) && after == Reordered(c, order);
    hide LeastLinearExtension, CanonicalAttributes;
    assert after[i] == c[order[i]] && c[order[i]].id == ops[order[i]].id;
    if order[i] == i {
      assert after[i] != ops[i];
    } else {
      assert after[i].id != ops[i].id;
    }
  }

  /** Canonical attributes change neither the identity nor the dependencies of an operation. */
  lemma CanonicalKeepsOperations(types: Types, ops: seq<Operation>)
    ensures var r := CanonicalOperations(types, ops);
      && (DistinctOperationIds(ops) ==> DistinctOperationIds(r)) && (DistinctOutputs(ops) ==> DistinctOutputs(r))
      && (OperandsProduced(ops) ==> OperandsProduced(r)) && (TopologicallyOrdered(ops) ==> TopologicallyOrdered(r))
  {
    var r := CanonicalOperations(types, ops);
    forall id | Produced(ops, id) ensures Produced(r, id) {
      var j :| 0 <= j < |ops| && ops[j].output == id;
      assert r[j].output == id;
    }
    if OperandsProduced(ops) {
      forall c, k | 0 <= c < |r| && 0 <= k < |r[c].inputs| ensures Produced(r, r[c].inputs[k]) {
        assert Produced(ops, ops[c].inputs[k]);
      }
    }
    if TopologicallyOrdered(ops) {
      forall i, k | 0 <= i < |r| && 0 <= k < |r[i].inputs| ensures ProducedBefore(r, i, r[i].inputs[k]) {
        assert ProducedBefore(ops, i, ops[i].inputs[k]);
        SamePrefixProduces(ops, r, i, ops[i].inputs[k]);
      }
    }
  }

  // ----- what the pass keeps -----

  /** Operations that are already in order have no cycle, so canonicalisation succeeds. */
  lemma OrderedIsAcyclic(ops: seq<Operation>)
    requires TopologicallyOrdered(ops) && DistinctOutputs(ops)
    ensures !Cyclic(OrderEdges(ops, true))
  {
    forall j: nat, i: nat | OperationOrder.Feeds(ops, j, i) ensures j < i {
      FeedsForward(ops, j, i);
    }
    var identity: seq<nat> := seq(|ops|, i => i);
    assert LinearExtension(|ops|, OrderEdges(ops, true), identity);
    LinearExtensionExcludesCycles(|ops|, OrderEdges(ops, true), identity);
  }

  /** What an attribute lookup finds afterwards. */
  lemma AttributeKept(kind: OperationType, attributes: Attributes, rank: Option<nat>, name: string)
    requires name !in {"axis", "approximate", "stable", "diagonal", "side_effect"}
    ensures var a := CanonicalAttributes(kind, attributes, rank);
      (name in a <==> name in attributes) && (name in a ==> a[name] == attributes[name])
  {
  }

  /** The canonical attributes, one lookup at a time; None stands for absence. */
  lemma CanonicalLookup(kind: OperationType, attributes: Attributes, rank: Option<nat>, name: string)
    ensures var a := CanonicalAttributes(kind, attributes, rank);
      var was, now := LookUp(attributes, name), LookUp(a, name);
      now ==
        if name == "side_effect" && was == Some(JBool(false)) then None
        else if name == "approximate" && kind.Gelu? && was.None? then Some(JString("none"))
        else if name == "stable" && kind.Softmax? && was.None? then Some(JBool(true))
        else if name == "diagonal" && kind.CausalMask? && was.None? then Some(JInt(0))
        else if name == "axis" && (kind.Softmax? || kind.RmsNorm?) && rank.Some? && was.Some? && was.value.JInt?
          && was.value.integer < 0 then Some(JInt(was.value.integer + rank.value))
        else was
  {
  }

  function LookUp(attributes: Attributes, name: string): Option<Json> {
    if name in attributes then Some(attributes[name]) else None
  }

  lemma AxisCanonical(kind: OperationType, attributes: Attributes, rank: nat)
    requires (kind.Softmax? || kind.RmsNorm?) && IntegerOf(attributes, "axis").Some?
    ensures IntegerOf(CanonicalAttributes(kind, attributes, Some(rank)), "axis")
         == Some(NormalAxis(IntegerOf(attributes, "axis").value, rank))
  {
  }

  lemma CanonicalSoftmax(A: Arith, attributes: Attributes, t: Tensor)
    requires SoftmaxOperation(A, attributes, t).Some?
    ensures SoftmaxOperation(A, CanonicalAttributes(Softmax, attributes, Some(|t.shape|)), t)
         == SoftmaxOperation(A, attributes, t)
  {
    AxisCanonical(Softmax, attributes, |t.shape|);
  }

  lemma CanonicalRmsNorm(A: Arith, attributes: Attributes, operands: seq<Tensor>)
    requires |operands| == 2 && RmsNormOperation(A, attributes, operands).Some?
    ensures RmsNormOperation(A, CanonicalAttributes(RmsNorm, attributes, Some(|operands[0].shape|)), operands)
         == RmsNormOperation(A, attributes, operands)
  {
    AxisCanonical(RmsNorm, attributes, |operands[0].shape|);
    AttributeKept(RmsNorm, attributes, Some(|operands[0].shape|), "epsilon");
  }

  lemma CanonicalProjection(A: Arith, op: Operation, operands: seq<Tensor>, rank: Option<nat>)
    requires op.IsProjection() && (|operands| == 2 || |operands| == 3)
    ensures Projection(A, op.(attributes := CanonicalAttributes(op.kind, op.attributes, rank)), operands)
         == Projection(A, op, operands)
  {
    AttributeKept(op.kind, op.attributes, rank, "fused_activation");
    AttributeKept(op.kind, op.attributes, rank, "fused_activation_approximate");
  }

  lemma CanonicalTranspose(attributes: Attributes, t: Tensor, rank: Option<nat>)
    ensures TransposeOperation(CanonicalAttributes(Transpose, attributes, rank), t) == TransposeOperation(attributes, t)
  {
    AttributeKept(Transpose, attributes, rank, "permutation");
  }

  lemma CanonicalMask(A: Arith, attributes: Attributes, t: Tensor, rank: Option<nat>)
    ensures MaskOperation(A, CanonicalAttributes(CausalMask, attributes, rank), t) == MaskOperation(A, attributes, t)
  {
  }

  lemma CanonicalConstant(A: Arith, attributes: Attributes, shape: Shape, rank: Option<nat>)
    ensures ConstantTensor(A, CanonicalAttributes(Constant, attributes, rank), shape)
         == ConstantTensor(A, attributes, shape)
  {
    AttributeKept(Constant, attributes, rank, "value");
  }

  /** An operation that evaluates, evaluates to the same tensor with canonical attributes. */
  lemma CanonicalEvaluation(A: Arith, op: Operation, operands: seq<Tensor>, shape: Shape, rank: Option<nat>)
    requires |operands| > 0 ==> rank == Some(|operands[0].shape|)
    requires EvaluateOperation(A, op, operands, shape).Some?
    ensures EvaluateOperation(A, op.(attributes := CanonicalAttributes(op.kind, op.attributes, rank)), operands, shape)
         == EvaluateOperation(A, op, operands, shape)
  {
    match op.kind {
      case Softmax => CanonicalSoftmax(A, op.attributes, operands[0]);
      case RmsNorm => CanonicalRmsNorm(A, op.attributes, operands);
      case MatMul | Linear => CanonicalProjection(A, op, operands, rank);
      case Transpose => CanonicalTranspose(op.attributes, operands[0], rank);
      case CausalMask => CanonicalMask(A, op.attributes, operands[0], rank);
      case Constant => CanonicalConstant(A, op.attributes, shape, rank);
      case _ =>
    }
  }

  lemma CanonicalIsSolved(A: Arith, feeds: Feeds, g: GraphData, env: Env, i: nat)
    requires WellFormedGraph(g) && Solves(A, feeds, g, env) && i < |g.operations|
    ensures Satisfies(Meaning(A, feeds, Descriptors(g.values)),
                      CanonicalOperation(Descriptors(g.values), g.operations[i]), env)
  {
    var types, op := Descriptors(g.values), g.operations[i];
    assert Satisfies(Meaning(A, feeds, types), g.operations[i], env);
    assert Resolved(types, op);
    AttributeKept(op.kind, op.attributes, RankOf(types, op), "archive_key");
    if !op.kind.Input? && !op.kind.Parameter? {
      SatisfiedStep(A, feeds, types, op, env);
      if |op.inputs| > 0 {
        SolutionTyped(A, feeds, g, env, op.inputs[0]);
      }
      CanonicalEvaluation(A, op, Lookup(env, op.inputs), types[op.output].shape, RankOf(types, op));
    }
  }

  /** The rules for a canonical operation are the rules for the original. */
  lemma CanonicalIsVerified(A: Arith, types: Types, op: Operation)
    requires Resolved(types, op) && OperationOk(A, types, op)
    ensures Resolved(types, CanonicalOperation(types, op)) && OperationOk(A, types, CanonicalOperation(types, op))
  {
    var rank := RankOf(types, op);
    AttributeKept(op.kind, op.attributes, rank, "bias");
    AttributeKept(op.kind, op.attributes, rank, "in_features");
    AttributeKept(op.kind, op.attributes, rank, "out_features");
    AttributeKept(op.kind, op.attributes, rank, "epsilon");
    AttributeKept(op.kind, op.attributes, rank, "shape");
    AttributeKept(op.kind, op.attributes, rank, "permutation");
    AttributeKept(op.kind, op.attributes, rank, "value");
    if op.kind.Softmax? || op.kind.RmsNorm? {
      AxisCanonical(op.kind, op.attributes, |InputShape(types, op, 0)|);
    }
  }

  /** The graph with canonical attributes, in its old order. */
  function CanonicalGraph(g: GraphData): GraphData {
    Rewired(g, CanonicalOperations(Descriptors(g.values), g.operations))
  }

  lemma CanonicalGraphKeeps(A: Arith, g: GraphData)
    requires WellFormedGraph(g)
    ensures WellFormedGraph(CanonicalGraph(g)) && KeepsMeaning(A, g, CanonicalGraph(g))
    ensures GraphVerified(A, g) ==> GraphVerified(A, CanonicalGraph(g))
  {
    var types, r := Descriptors(g.values), CanonicalOperations(Descriptors(g.values), g.operations);
    forall i | 0 <= i < |r| ensures Resolved(types, r[i]) {
      assert Resolved(types, g.operations[i]);
    }
    SameOutputsSameProducers(g, r);
    forall feeds, env | Solves(A, feeds, g, env) ensures Solves(A, feeds, CanonicalGraph(g), env) {
      forall i | 0 <= i < |r| ensures Satisfies(Meaning(A, feeds, types), r[i], env) {
        CanonicalIsSolved(A, feeds, g, env, i);
      }
    }
    if GraphVerified(A, g) {
      forall i | 0 <= i < |r| ensures Resolved(types, r[i]) && OperationOk(A, types, r[i]) {
        assert Resolved(types, g.operations[i]) && OperationOk(A, types, g.operations[i]);
        CanonicalIsVerified(A, types, g.operations[i]);
      }
    }
  }

  // ----- reordering -----

  /** Reordering keeps everything the order does not show. */
  lemma StableOrderKeeps(A: Arith, g: GraphData, after: seq<Operation>)
    requires WellFormedGraph(g) && IsStableOrder(g.operations, after)
    ensures Ordered(Rewired(g, after)) && KeepsMeaning(A, g, Rewired(g, after))
    ensures GraphVerified(A, g) ==> GraphVerified(A, Rewired(g, after))
  {
    var ops := g.operations;
    var order :| LeastLinearExtension(Ids(ops), OrderEdges(ops, true), order)
      && |order| == |ops| && (forall k | 0 <= k < |order| :: order[k] < |ops|) && after == Reordered(ops, order);
    ReorderedFacts(ops, true, order);
    WellFormedOperandsProduced(g);
    ReorderedIsOrdered(ops, true, order);
    PermutationKeepsWellFormed(g, Rewired(g, after));
    forall feeds, env | Solves(A, feeds, g, env) ensures Solves(A, feeds, Rewired(g, after), env) {
      SameModels(Meaning(A, feeds, Descriptors(g.values)), ops, after, env);
    }
    if GraphVerified(A, g) {
      VerifiedElsewhere(A, Descriptors(g.values), ops, after);
    }
  }

  /** Canonicalisation keeps well-formedness, meaning and the verifier's judgement, and leaves the graph ordered. */
  lemma CanonicalisationKeeps(A: Arith, g: GraphData, after: seq<Operation>)
    requires WellFormedGraph(g) && IsStableOrder(CanonicalOperations(Descriptors(g.values), g.operations), after)
    ensures Ordered(Rewired(g, after)) && SameInterface(g, Rewired(g, after))
    ensures KeepsMeaning(A, g, Rewired(g, after))
    ensures GraphVerified(A, g) ==> GraphVerified(A, Rewired(g, after))
  {
    CanonicalGraphKeeps(A, g);
    StableOrderKeeps(A, CanonicalGraph(g), after);
  }
}
