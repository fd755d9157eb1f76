/** Erasing operations together with the values they produce. */
module Erasure {
  import opened Basics
  import opened GraphIR
  import opened Shapes
  import opened TensorSizes
  import opened OperationOrder
  import opened Sequential
  import opened Tensors
  import opened Evaluator
  import opened SemanticVerifier
  import opened GraphInvariants
  import opened RewriteUtils
  import opened PassFramework

  /** The graph without the listed operations and values. */
  function Erased(g: GraphData, opIds: set<Id>, valueIds: set<Id>): GraphData {
    g.(operations := KeptOperations(g.operations, opIds), values := KeptValues(g.values, valueIds))
  }

  lemma {:induction false} NothingKeptOut(ops: seq<Operation>, values: seq<Value>)
    ensures KeptOperations(ops, {}) == ops && KeptValues(values, {}) == values
    decreases |ops| + |values|
  {
    if ops != [] {
      NothingKeptOut(ops[..|ops| - 1], []);
      assert ops == ops[..|ops| - 1] + [ops[|ops| - 1]];
    }
    if values != [] {
      NothingKeptOut([], values[..|values| - 1]);
      assert values == values[..|values| - 1] + [values[|values| - 1]];
    }
  }

  /** Operations go exactly with their values, and nothing that stays needs what goes. */
  ghost predicate Erasable(g: GraphData, opIds: set<Id>, valueIds: set<Id>) {
    && (forall op <- g.operations :: op.id in opIds <==> op.output in valueIds)
    && ErasedUnused(g.operations, opIds)
    && (forall id <- g.inputIds :: id !in valueIds)
    && (forall id <- g.outputIds :: id !in valueIds)
  }

  // ----- what a step depends on -----

  /** A step looks at the declared type of its output only. */
  lemma StepByOutputType(A: Arith, feeds: Feeds, types: Types, other: Types, op: Operation, env: Env)
    requires op.output in types && op.output in other && types[op.output] == other[op.output]
    ensures Meaning(A, feeds, types)(op, env) == Meaning(A, feeds, other)(op, env)
  {
  }

  ghost predicate SameTypes(types: Types, other: Types, op: Operation) {
    && op.output in types && op.output in other && types[op.output] == other[op.output]
    && forall k | 0 <= k < |op.inputs| ::
         op.inputs[k] in types && op.inputs[k] in other && types[op.inputs[k]] == other[op.inputs[k]]
  }

  /** The verifier's rules look at the declared types of the operands and the output only. */
  lemma RulesByTypes(A: Arith, types: Types, other: Types, op: Operation)
    requires SameTypes(types, other, op) && Resolved(types, op)
    ensures Resolved(other, op) && (OperationOk(A, types, op) ==> OperationOk(A, other, op))
  {
    assert forall k | 0 <= k < |op.inputs| :: InputShape(types, op, k) == InputShape(other, op, k);
  }

  lemma KeptDescriptors(values: seq<Value>, ids: set<Id>)
    requires DistinctValueIds(values)
    ensures forall id :: id in Descriptors(KeptValues(values, ids)) <==> id in Descriptors(values) && id !in ids
    ensures forall id <- Descriptors(KeptValues(values, ids)) ::
      id in Descriptors(values) && Descriptors(KeptValues(values, ids))[id] == Descriptors(values)[id]
  {
    KeptValuesAre(values, ids);
    KeptValuesDistinct(values, ids);
    var kept := KeptValues(values, ids);
    forall id | id in Descriptors(values) && id !in ids ensures id in Descriptors(kept) {
      var k := ValueOf(values, id);
      assert values[k] in kept;
      var i :| 0 <= i < |kept| && kept[i] == values[k];
      DescriptorsAt(kept, i);
    }
    forall id | id in Descriptors(kept)
      ensures id in Descriptors(values) && id !in ids && Descriptors(kept)[id] == Descriptors(values)[id]
    {
      var k := ValueOf(kept, id);
      assert kept[k] in values;
      var j :| 0 <= j < |values| && values[j] == kept[k];
      DescriptorsAt(values, j);
    }
  }

  // ----- erasing keeps everything -----

  /** The types of everything a kept operation mentions are still declared. */
  lemma KeptTypes(g: GraphData, opIds: set<Id>, valueIds: set<Id>, op: Operation)
    requires WellFormedGraph(g) && Erasable(g, opIds, valueIds) && op in g.operations && op.id !in opIds
    ensures Resolved(Descriptors(g.values), op)
    ensures SameTypes(Descriptors(g.values), Descriptors(KeptValues(g.values, valueIds)), op)
  {
    var i :| 0 <= i < |g.operations| && g.operations[i] == op;
    assert Resolved(Descriptors(g.values), g.operations[i]);
    KeptDescriptors(g.values, valueIds);
    forall k | 0 <= k < |op.inputs| ensures op.inputs[k] !in valueIds {
      var m := ValueOf(g.values, op.inputs[k]);
      assert Produced(g.operations, g.values[m].id);
      var j :| 0 <= j < |g.operations| && g.operations[j].output == op.inputs[k];
      assert g.operations[j] in g.operations && UsesResult(op, g.operations[j]);
    }
  }

  lemma ErasureIsWellFormed(g: GraphData, opIds: set<Id>, valueIds: set<Id>)
    requires WellFormedGraph(g) && Erasable(g, opIds, valueIds)
    ensures WellFormedGraph(Erased(g, opIds, valueIds))
  {
    var h := Erased(g, opIds, valueIds);
    KeptOperationsAre(g.operations, opIds);
    KeptOperationsDistinct(g.operations, opIds);
    KeptValuesAre(g.values, valueIds);
    KeptValuesDistinct(g.values, valueIds);
    forall i | 0 <= i < |h.operations| ensures Resolved(Descriptors(h.values), h.operations[i]) {
      assert h.operations[i] in g.operations;
      KeptTypes(g, opIds, valueIds, h.operations[i]);
    }
    forall v <- h.values ensures Produced(h.operations, v.id) {
      KeptProducer(g, opIds, valueIds, v);
    }
    forall id <- g.inputIds ensures Named(h.values, id, InputValue) {
      KeptName(g.values, valueIds, id, InputValue);
    }
    forall id <- g.outputIds ensures Named(h.values, id, OutputValue) {
      KeptName(g.values, valueIds, id, OutputValue);
    }
  }

  lemma KeptProducer(g: GraphData, opIds: set<Id>, valueIds: set<Id>, v: Value)
    requires WellFormedGraph(g) && Erasable(g, opIds, valueIds) && v in g.values && v.id !in valueIds
    ensures Produced(KeptOperations(g.operations, opIds), v.id)
  {
    assert Produced(g.operations, v.id);
    var j :| 0 <= j < |g.operations| && g.operations[j].output == v.id;
    KeptOperationsAre(g.operations, opIds);
    assert g.operations[j] in g.operations;
    var i :| 0 <= i < |KeptOperations(g.operations, opIds)| && KeptOperations(g.operations, opIds)[i] == g.operations[j];
  }

  lemma KeptName(values: seq<Value>, ids: set<Id>, id: Id, kind: ValueKind)
    requires Named(values, id, kind) && id !in ids
    ensures Named(KeptValues(values, ids), id, kind)
  {
    KeptValuesAre(values, ids);
    var k :| 0 <= k < |values| && values[k].id == id && values[k].kind == kind;
    assert values[k] in values;
    var i :| 0 <= i < |KeptValues(values, ids)| && KeptValues(values, ids)[i] == values[k];
  }

  lemma ErasureKeepsMeaning(A: Arith, g: GraphData, opIds: set<Id>, valueIds: set<Id>)
    requires WellFormedGraph(g) && Erasable(g, opIds, valueIds)
    ensures KeepsMeaning(A, g, Erased(g, opIds, valueIds))
  {
    var h := Erased(g, opIds, valueIds);
    KeptOperationsAre(g.operations, opIds);
    forall feeds, env | Solves(A, feeds, g, env) ensures Solves(A, feeds, h, env) {
      forall i | 0 <= i < |h.operations|
        ensures Satisfies(Meaning(A, feeds, Descriptors(h.values)), h.operations[i], env)
      {
        var op := h.operations[i];
        assert op in g.operations;
        var j :| 0 <= j < |g.operations| && g.operations[j] == op;
        assert Satisfies(Meaning(A, feeds, Descriptors(g.values)), g.operations[j], env);
        KeptTypes(g, opIds, valueIds, op);
        StepByOutputType(A, feeds, Descriptors(g.values), Descriptors(h.values), op, env);
      }
    }
  }

  lemma ErasureKeepsVerified(A: Arith, g: GraphData, opIds: set<Id>, valueIds: set<Id>)
    requires WellFormedGraph(g) && Erasable(g, opIds, valueIds) && GraphVerified(A, g)
    ensures GraphVerified(A, Erased(g, opIds, valueIds))
  {
    var h := Erased(g, opIds, valueIds);
    KeptOperationsAre(g.operations, opIds);
    forall i | 0 <= i < |h.operations|
      ensures Resolved(Descriptors(h.values), h.operations[i]) && OperationOk(A, Descriptors(h.values), h.operations[i])
    {
      var op := h.operations[i];
      assert op in g.operations;
      var j :| 0 <= j < |g.operations| && g.operations[j] == op;
      assert Resolved(Descriptors(g.values), g.operations[j]) && OperationOk(A, Descriptors(g.values), g.operations[j]);
      KeptTypes(g, opIds, valueIds, op);
      RulesByTypes(A, Descriptors(g.values), Descriptors(h.values), op);
    }
  }

  /** Erasing keeps order, well-formedness, meaning and the verifier's judgement. */
  lemma ErasureKeeps(A: Arith, g: GraphData, opIds: set<Id>, valueIds: set<Id>)
    requires Ordered(g) && Erasable(g, opIds, valueIds)
    ensures var h := Erased(g, opIds, valueIds);
      && Ordered(h) && SameInterface(g, h) && KeepsMeaning(A, g, h)
      && (GraphVerified(A, g) ==> GraphVerified(A, h))
  {
    ErasureIsWellFormed(g, opIds, valueIds);
    KeptOrdered(g.operations, opIds);
    ErasureKeepsMeaning(A, g, opIds, valueIds);
    if GraphVerified(A, g) {
      ErasureKeepsVerified(A, g, opIds, valueIds);
    }
  }
}
