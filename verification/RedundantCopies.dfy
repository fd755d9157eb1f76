/** cpp/src/passes/redundant_reshape_elimination_pass.cpp */
module ReshapeElimination {
  import opened Basics
  import opened GraphIR
  import opened Shapes
  import opened Sequential
  import opened Tensors
  import opened Evaluator
  import opened SemanticVerifier
  import opened GraphInvariants
  import opened RewriteUtils
  import opened PassFramework
  import opened CopyElimination

  /** A reshape to the shape its operand already has, whose result is not declared. */
  predicate RedundantReshape(g: GraphData, op: Operation) {
    && op.kind.Reshape? && !op.HasSideEffect() && op.output !in g.outputIds && |op.inputs| > 0
    && op.inputs[0] in Descriptors(g.values) && op.output in Descriptors(g.values)
    && Descriptors(g.values)[op.inputs[0]].shape == Descriptors(g.values)[op.output].shape
  }

  ghost function RedundantReshapes(g: GraphData): (drop: seq<bool>)
    ensures |drop| == |g.operations|
    ensures forall i {:trigger drop[i]} | 0 <= i < |drop| :: drop[i] <==> RedundantReshape(g, g.operations[i])
  {
    seq(|g.operations|, i requires 0 <= i < |g.operations| => RedundantReshape(g, g.operations[i]))
  }

  /** The test the pass makes on an operation as it currently stands. */
  method IsRedundant(graph: Graph, values: map<Id, nat>, op: Operation) returns (redundant: bool)
    requires DistinctValueIds(graph.values) && IsValueIndex(graph.values, values)
    requires Resolved(Descriptors(graph.values), op)
    ensures redundant <==> RedundantReshape(graph.Data(), op)
  {
    if !op.kind.Reshape? || op.HasSideEffect() {
      return false;
    }
    var inputId, outputId := op.inputs[0], op.output;
    if outputId in graph.outputIds {
      return false;
    }
    ValueIndexed(graph.values, values, inputId);
    ValueIndexed(graph.values, values, outputId);
    if inputId !in values || outputId !in values {
      return false;
    }
    return graph.values[values[inputId]].descriptor.shape == graph.values[values[outputId]].descriptor.shape;
  }

  /** Rerouting the operand of an operation does not change whether it is redundant. */
  lemma StillRedundant(g: GraphData, m: nat)
    requires AllResolved(Descriptors(g.values), g.operations) && m < |g.operations|
    requires HasOperands(g.operations, RedundantReshapes(g))
    ensures Resolved(Descriptors(g.values), Rerouted(g.operations, RedundantReshapes(g), m)[m])
    ensures RedundantReshape(g, Rerouted(g.operations, RedundantReshapes(g), m)[m])
       <==> RedundantReshape(g, g.operations[m])
  {
    var types, op := Descriptors(g.values), g.operations[m];
    assert Resolved(types, op);
    var shapes := map id | id in types :: types[id].shape;
    forall k | 0 <= k < |op.inputs|
      ensures Root(g.operations, RedundantReshapes(g), m, op.inputs[k]) in shapes
      ensures shapes[Root(g.operations, RedundantReshapes(g), m, op.inputs[k])] == shapes[op.inputs[k]]
    {
      RootAgrees(g.operations, RedundantReshapes(g), m, op.inputs[k], shapes);
    }
  }

  /** One iteration: test the operation, and reroute the uses of its result if it is redundant. */
  method VisitReshape(graph: Graph, values: map<Id, nat>, m: nat, ghost g: GraphData, ghost drop: seq<bool>)
    returns (redundant: bool)
    requires DistinctValueIds(g.values) && IsValueIndex(g.values, values)
    requires AllResolved(Descriptors(g.values), g.operations)
    requires drop == RedundantReshapes(g) && HasOperands(g.operations, drop) && m < |g.operations|
    requires graph.Data() == Rewired(g, Rerouted(g.operations, drop, m))
    modifies graph`operations
    ensures redundant == drop[m]
    ensures graph.Data() == Rewired(g, Rerouted(g.operations, drop, m + 1))
  {
    var operation := graph.operations[m];
    StillRedundant(g, m);
    RerouteStep(g.operations, drop, m);
    redundant := IsRedundant(graph, values, operation);
    if redundant {
      ReplaceAllUses(graph, operation.output, operation.inputs[0]);
    }
  }

  /** `run`: removes exactly the redundant reshapes and reroutes their uses. */
  method EliminateReshapes(graph: Graph) returns (changed: bool)
    requires DistinctValueIds(graph.values) && AllResolved(Descriptors(graph.values), graph.operations)
    modifies graph
    ensures HasOperands(old(graph.operations), RedundantReshapes(old(graph.Data())))
    ensures graph.Data() == WithoutCopies(old(graph.Data()), RedundantReshapes(old(graph.Data())))
    ensures changed <==> true in RedundantReshapes(old(graph.Data()))
  {
    ghost var g := graph.Data();
    ghost var drop := RedundantReshapes(g);
    var values := ValueIndexById(graph.values);
    var removedOperations, removedValues, found := RerouteReshapes(graph, values, g, drop);
    EraseOperations(graph, removedOperations);
    EraseValues(graph, removedValues);
    return found;
  }

  /** The loop over the operations. */
  method RerouteReshapes(graph: Graph, values: map<Id, nat>, ghost g: GraphData, ghost drop: seq<bool>)
    returns (removedOperations: set<Id>, removedValues: set<Id>, changed: bool)
    requires g == graph.Data() && drop == RedundantReshapes(g)
    requires DistinctValueIds(g.values) && IsValueIndex(g.values, values)
    requires AllResolved(Descriptors(g.values), g.operations) && HasOperands(g.operations, drop)
    modifies graph`operations
    ensures graph.Data() == ReroutedGraph(g, drop)
    ensures removedOperations == DroppedIds(g.operations, drop)
    ensures removedValues == DroppedOutputs(g.operations, drop)
    ensures changed <==> true in drop
  {
    ReroutedAtStart(g.operations, drop);
    removedOperations, removedValues, changed := {}, {}, false;
    for m := 0 to |graph.operations|
      invariant graph.Data() == Rewired(g, Rerouted(g.operations, drop, m))
      invariant removedOperations == DroppedIdsBelow(g.operations, drop, m)
      invariant removedValues == DroppedOutputsBelow(g.operations, drop, m)
      invariant changed <==> true in drop[..m]
    {
      DroppedStep(g.operations, drop, m);
      assert drop[..m + 1] == drop[..m] + [drop[m]];
      var operation := graph.operations[m];
      var redundant := VisitReshape(graph, values, m, g, drop);
      if redundant {
        removedOperations := removedOperations + {operation.id};
        removedValues := removedValues + {operation.output};
        changed := true;
      }
    }
    assert drop[..|drop|] == drop;
  }

  // ----- what the pass keeps -----

  lemma ReshapesAreDroppable(A: Arith, g: GraphData)
    requires WellFormedGraph(g) && GraphVerified(A, g)
    ensures Droppable(g, RedundantReshapes(g)) && TypesCopied(g, RedundantReshapes(g))
  {
    var drop := RedundantReshapes(g);
    forall i | 0 <= i < |drop| && drop[i]
      ensures Descriptors(g.values)[g.operations[i].output] == Descriptors(g.values)[g.operations[i].inputs[0]]
    {
      assert Resolved(Descriptors(g.values), g.operations[i]) && OperationOk(A, Descriptors(g.values), g.operations[i]);
    }
  }

  /** A redundant reshape copies its operand in every solution. */
  lemma ReshapeCopies(A: Arith, feeds: Feeds, g: GraphData, env: Env, i: nat)
    requires WellFormedGraph(g) && Solves(A, feeds, g, env) && i < |g.operations|
    requires RedundantReshape(g, g.operations[i])
    ensures Copies(env, g.operations[i])
  {
    var op := g.operations[i];
    assert Satisfies(Meaning(A, feeds, Descriptors(g.values)), g.operations[i], env);
    SolutionTyped(A, feeds, g, env, op.inputs[0]);
    SatisfiedStep(A, feeds, Descriptors(g.values), op, env);
    EvaluateReshape(A, op, Lookup(env, op.inputs), env[op.output].shape);
  }

  lemma EvaluateReshape(A: Arith, op: Operation, operands: seq<Tensor>, shape: Shape)
    requires op.kind.Reshape? && EvaluateOperation(A, op, operands, shape).Some?
    ensures |operands| == 1 && ReshapeOf(operands[0], shape) == EvaluateOperation(A, op, operands, shape)
    ensures operands[0].shape == shape ==> EvaluateOperation(A, op, operands, shape) == Some(operands[0])
  {
  }

  /** Reshape elimination keeps order, well-formedness, meaning and the verifier's judgement. */
  lemma ReshapeEliminationKeeps(A: Arith, g: GraphData)
    requires Ordered(g) && GraphVerified(A, g)
    ensures HasOperands(g.operations, RedundantReshapes(g))
    ensures var h := WithoutCopies(g, RedundantReshapes(g));
      Ordered(h) && SameInterface(g, h) && GraphVerified(A, h) && KeepsMeaning(A, g, h)
  {
    var drop := RedundantReshapes(g);
    ReshapesAreDroppable(A, g);
    CopiesRemoved(A, g, drop);
    forall feeds, env | Solves(A, feeds, g, env) ensures Solves(A, feeds, WithoutCopies(g, drop), env) {
      forall i | 0 <= i < |drop| && drop[i] ensures Copies(env, g.operations[i]) {
        ReshapeCopies(A, feeds, g, env, i);
      }
      CopiesRemovedSolved(A, feeds, g, drop, env);
    }
  }
}

/** cpp/src/passes/redundant_transpose_elimination_pass.cpp */
module TransposeElimination {
  import opened Basics
  import opened GraphIR
  import opened Shapes
  import opened Sequential
  import opened Tensors
  import opened Evaluator
  import opened TransposeKernel
  import opened SemanticVerifier
  import opened GraphInvariants
  import opened RewriteUtils
  import opened PassFramework
  import opened CopyElimination

  /** The permutation attribute lists 0, 1, 2, ... */
  predicate IdentityPermutation(attributes: Attributes) {
    && "permutation" in attributes && attributes["permutation"].JArray?
    && forall k | 0 <= k < |attributes["permutation"].items| :: attributes["permutation"].items[k] == JInt(k)
  }

  /** A transpose that permutes nothing, whose result is not declared. */
  predicate RedundantTranspose(g: GraphData, op: Operation) {
    && op.kind.Transpose? && !op.HasSideEffect() && op.output !in g.outputIds && |op.inputs| > 0
    && IdentityPermutation(op.attributes)
  }

  ghost function RedundantTransposes(g: GraphData): (drop: seq<bool>)
    ensures |drop| == |g.operations|
    ensures forall i {:trigger drop[i]} | 0 <= i < |drop| :: drop[i] <==> RedundantTranspose(g, g.operations[i])
  {
    seq(|g.operations|, i requires 0 <= i < |g.operations| => RedundantTranspose(g, g.operations[i]))
  }

  method IsRedundant(graph: Graph, op: Operation) returns (redundant: bool)
    requires op.kind.Transpose? ==> |op.inputs| > 0
    ensures redundant <==> RedundantTranspose(graph.Data(), op)
  {
    if !op.kind.Transpose? || op.HasSideEffect() {
      return false;
    }
    if op.output in graph.outputIds {
      return false;
    }
    if "permutation" !in op.attributes || !op.attributes["permutation"].JArray? {
      return false;
    }
    var items := op.attributes["permutation"].items;
    var identity := true;
    for index := 0 to |items|
      invariant identity <==> forall k | 0 <= k < index :: items[k] == JInt(k)
    {
      identity := identity && items[index].JInt? && items[index].integer == index;
    }
    return identity;
  }

  /** `run`: removes exactly the identity transposes and reroutes their uses. */
  method EliminateTransposes(graph: Graph) returns (changed: bool)
    requires forall i | 0 <= i < |graph.operations| :: ArityOk(graph.operations[i], |graph.operations[i].inputs|)
    modifies graph
    ensures HasOperands(old(graph.operations), RedundantTransposes(old(graph.Data())))
    ensures graph.Data() == WithoutCopies(old(graph.Data()), RedundantTransposes(old(graph.Data())))
    ensures changed <==> true in RedundantTransposes(old(graph.Data()))
  {
    ghost var g := graph.Data();
    ghost var drop := RedundantTransposes(g);
    ReroutedAtStart(g.operations, drop);
    var removedOperations: set<Id>, removedValues: set<Id> := {}, {};
    changed := false;
    for m := 0 to |graph.operations|
      invariant graph.Data() == Rewired(g, Rerouted(g.operations, drop, m))
      invariant removedOperations == DroppedIdsBelow(g.operations, drop, m)
      invariant removedValues == DroppedOutputsBelow(g.operations, drop, m)
      invariant changed <==> true in drop[..m]
    {
      var operation := graph.operations[m];
      RerouteStep(g.operations, drop, m);
      DroppedStep(g.operations, drop, m);
      assert drop[..m + 1] == drop[..m] + [drop[m]];
      var redundant := IsRedundant(graph, operation);
      if redundant {
        ReplaceAllUses(graph, operation.output, operation.inputs[0]);
        removedOperations := removedOperations + {operation.id};
        removedValues := removedValues + {operation.output};
        changed := true;
      }
    }
    assert drop[..|drop|] == drop;
    EraseOperations(graph, removedOperations);
    EraseValues(graph, removedValues);
  }

  // ----- what the pass keeps -----

  /** The identity permutation copies. */
  lemma IdentityTransposeCopies(t: Tensor, p: seq<int>)
    requires |p| == |t.shape| && forall k | 0 <= k < |p| :: p[k] == k
    ensures TransposeOf(t, p) == Some(t)
  {
    var r := TransposeOf(t, p).value;
    assert Permute(t.shape, p) == t.shape;
    forall i | 0 <= i < |t.data| ensures r.data[i] == t.data[i] {
      EncodeDecode(t.shape, i);
      var c := CoordinateOf(t.shape, i);
      assert r.data[i] == TransposeCell(t, p, c);
      forall a | 0 <= a < |c| ensures Unpermute(c, p)[a] == c[a] {
        UnpermuteAt(c, p, a);
      }
      assert Unpermute(c, p) == c;
    }
    assert r.shape == t.shape && r.data == t.data;
  }

  lemma IdentityItems(attributes: Attributes) returns (p: seq<int>)
    requires IdentityPermutation(attributes)
    ensures IntegerArrayOf(attributes, "permutation") == Some(p)
    ensures forall k | 0 <= k < |p| :: p[k] == k
  {
    var items := attributes["permutation"].items;
    p := seq(|items|, k => k);
    IntegersComplete(items, p);
  }

  lemma TransposesAreDroppable(A: Arith, g: GraphData)
    requires WellFormedGraph(g) && GraphVerified(A, g)
    ensures Droppable(g, RedundantTransposes(g)) && TypesCopied(g, RedundantTransposes(g))
  {
    var drop, types := RedundantTransposes(g), Descriptors(g.values);
    forall i | 0 <= i < |drop| && drop[i]
      ensures g.operations[i].output in types && g.operations[i].inputs[0] in types
      ensures types[g.operations[i].output] == types[g.operations[i].inputs[0]]
    {
      var op := g.operations[i];
      assert Resolved(types, op) && OperationOk(A, types, op);
      var p := IdentityItems(op.attributes);
      assert Permute(InputShape(types, op, 0), p) == InputShape(types, op, 0);
    }
  }

  /** An identity transpose copies its operand in every solution. */
  lemma TransposeCopies(A: Arith, feeds: Feeds, g: GraphData, env: Env, i: nat)
    requires Solves(A, feeds, g, env) && i < |g.operations| && RedundantTranspose(g, g.operations[i])
    ensures Copies(env, g.operations[i])
  {
    var op := g.operations[i];
    assert Satisfies(Meaning(A, feeds, Descriptors(g.values)), g.operations[i], env);
    SatisfiedStep(A, feeds, Descriptors(g.values), op, env);
    var t := env[op.inputs[0]];
    var p := IdentityItems(op.attributes);
    EvaluateTranspose(A, op, Lookup(env, op.inputs), env[op.output].shape);
    IdentityTransposeCopies(t, p);
  }

  lemma EvaluateTranspose(A: Arith, op: Operation, operands: seq<Tensor>, shape: Shape)
    requires op.kind.Transpose? && EvaluateOperation(A, op, operands, shape).Some?
    requires IntegerArrayOf(op.attributes, "permutation").Some?
    ensures |operands| == 1 && |IntegerArrayOf(op.attributes, "permutation").value| == |operands[0].shape|
    ensures EvaluateOperation(A, op, operands, shape)
         == TransposeOf(operands[0], IntegerArrayOf(op.attributes, "permutation").value)
  {
  }

  /** Transpose elimination keeps order, well-formedness, meaning and the verifier's judgement. */
  lemma TransposeEliminationKeeps(A: Arith, g: GraphData)
    requires Ordered(g) && GraphVerified(A, g)
    ensures HasOperands(g.operations, RedundantTransposes(g))
    ensures var h := WithoutCopies(g, RedundantTransposes(g));
      Ordered(h) && SameInterface(g, h) && GraphVerified(A, h) && KeepsMeaning(A, g, h)
  {
    var drop := RedundantTransposes(g);
    TransposesAreDroppable(A, g);
    CopiesRemoved(A, g, drop);
    forall feeds, env | Solves(A, feeds, g, env) ensures Solves(A, feeds, WithoutCopies(g, drop), env) {
      forall i | 0 <= i < |drop| && drop[i] ensures Copies(env, g.operations[i]) {
        TransposeCopies(A, feeds, g, env, i);
      }
      CopiesRemovedSolved(A, feeds, g, drop, env);
    }
  }
}
