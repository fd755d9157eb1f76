/**
 Removing operations whose result equals their operand, by rerouting their uses
 (the shared part of the reshape and transpose elimination passes).
 */
module CopyElimination {
  import opened Basics
  import opened GraphIR
  import Shapes
  import opened OperationOrder
  import opened Sequential
  import opened Tensors
  import opened Evaluator
  import opened SemanticVerifier
  import opened GraphInvariants
  import opened RewriteUtils
  import opened PassFramework
  import opened Erasure

  /** Which operations go: each has an operand, computes something, and its result is not declared. */
  ghost predicate Droppable(g: GraphData, drop: seq<bool>) {
    && |drop| == |g.operations|
    && forall i {:trigger drop[i]} | 0 <= i < |drop| && drop[i] ::
         |g.operations[i].inputs| > 0 && !g.operations[i].IsDeclaration() && g.operations[i].output !in g.outputIds
  }

  ghost predicate HasOperands(ops: seq<Operation>, drop: seq<bool>) {
    |drop| == |ops| && forall i {:trigger drop[i]} | 0 <= i < |drop| && drop[i] :: |ops[i].inputs| > 0
  }

  /** Where a use ends up after the first m operations have been visited. */
  ghost function Root(ops: seq<Operation>, drop: seq<bool>, m: nat, id: Id): Id
    requires HasOperands(ops, drop) && m <= |ops|
  {
    if m == 0 then id
    else
      var x := Root(ops, drop, m - 1, id);
      if drop[m - 1] && x == ops[m - 1].output then Root(ops, drop, m - 1, ops[m - 1].inputs[0]) else x
  }

  ghost function Roots(ops: seq<Operation>, drop: seq<bool>, m: nat, ids: seq<Id>): (r: seq<Id>)
    requires HasOperands(ops, drop) && m <= |ops|
    ensures |r| == |ids|
  {
    seq(|ids|, k requires 0 <= k < |ids| => Root(ops, drop, m, ids[k]))
  }

  ghost function Rerouted(ops: seq<Operation>, drop: seq<bool>, m: nat): (r: seq<Operation>)
    requires HasOperands(ops, drop) && m <= |ops|
    ensures |r| == |ops|
  {
    seq(|ops|, i requires 0 <= i < |ops| => ops[i].(inputs := Roots(ops, drop, m, ops[i].inputs)))
  }

  lemma ReroutedAtStart(ops: seq<Operation>, drop: seq<bool>)
    requires HasOperands(ops, drop)
    ensures Rerouted(ops, drop, 0) == ops
  {
    forall i | 0 <= i < |ops| ensures Rerouted(ops, drop, 0)[i] == ops[i] {
      assert Roots(ops, drop, 0, ops[i].inputs) == ops[i].inputs;
    }
  }

  /** One iteration: replacing all uses of a dropped result by its rerouted operand. */
  lemma RerouteStep(ops: seq<Operation>, drop: seq<bool>, m: nat)
    requires HasOperands(ops, drop) && m < |ops|
    ensures drop[m] ==>
      Rerouted(ops, drop, m + 1)
      == RenameUses(Rerouted(ops, drop, m), ops[m].output, Rerouted(ops, drop, m)[m].inputs[0])
    ensures !drop[m] ==> Rerouted(ops, drop, m + 1) == Rerouted(ops, drop, m)
  {
    forall i | 0 <= i < |ops| ensures Rerouted(ops, drop, m + 1)[i].inputs ==
      if drop[m] then RenameIds(Rerouted(ops, drop, m)[i].inputs, ops[m].output, Rerouted(ops, drop, m)[m].inputs[0])
      else Rerouted(ops, drop, m)[i].inputs
    {
    }
  }

  // ----- where uses end up -----

  /** Rerouting moves a use to the same or an earlier producer. */
  lemma {:induction false} RootProducedBefore(ops: seq<Operation>, drop: seq<bool>, m: nat, id: Id, n: nat)
    requires HasOperands(ops, drop) && m <= |ops| && n <= |ops|
    requires TopologicallyOrdered(ops) && DistinctOutputs(ops) && ProducedBefore(ops, n, id)
    ensures ProducedBefore(ops, n, Root(ops, drop, m, id))
  {
    if m > 0 {
      RootProducedBefore(ops, drop, m - 1, id, n);
      var x := Root(ops, drop, m - 1, id);
      if drop[m - 1] && x == ops[m - 1].output {
        var j :| 0 <= j < n && ops[j].output == x;
        assert j == m - 1;
        var op := ops[m - 1];
        assert ProducedBefore(ops, m - 1, op.inputs[0]);
        RootProducedBefore(ops, drop, m - 1, op.inputs[0], m - 1);
        ProducedLater(ops, m - 1, n, Root(ops, drop, m, id));
      }
    }
  }

  lemma ProducedLater(ops: seq<Operation>, m: nat, n: nat, id: Id)
    requires m <= n <= |ops| && ProducedBefore(ops, m, id)
    ensures ProducedBefore(ops, n, id)
  {
    var j :| 0 <= j < m && ops[j].output == id;
  }

  /** No use of a produced value ends up at a dropped operation. */
  lemma {:induction false} RootNotDropped(ops: seq<Operation>, drop: seq<bool>, m: nat, id: Id, j: nat)
    requires HasOperands(ops, drop) && j < m <= |ops| && drop[j]
    requires TopologicallyOrdered(ops) && DistinctOutputs(ops) && ProducedBefore(ops, |ops|, id)
    ensures Root(ops, drop, m, id) != ops[j].output
  {
    var x := Root(ops, drop, m - 1, id);
    if drop[m - 1] && x == ops[m - 1].output {
      var op := ops[m - 1];
      assert ProducedBefore(ops, m - 1, op.inputs[0]);
      if j < m - 1 {
        ProducedLater(ops, m - 1, |ops|, op.inputs[0]);
        RootNotDropped(ops, drop, m - 1, op.inputs[0], j);
      } else {
        RootProducedBefore(ops, drop, m - 1, op.inputs[0], m - 1);
        var k :| 0 <= k < m - 1 && ops[k].output == Root(ops, drop, m - 1, op.inputs[0]);
      }
    } else if j < m - 1 {
      RootNotDropped(ops, drop, m - 1, id, j);
    }
  }

  /** Values agree along a rerouted use, as soon as every dropped operation copies its operand. */
  lemma {:induction false} RootAgrees<T>(ops: seq<Operation>, drop: seq<bool>, m: nat, id: Id, table: map<Id, T>)
    requires HasOperands(ops, drop) && m <= |ops| && id in table
    requires forall i {:trigger drop[i]} | 0 <= i < |drop| && drop[i] && ops[i].output in table ::
      ops[i].inputs[0] in table && table[ops[i].output] == table[ops[i].inputs[0]]
    ensures Root(ops, drop, m, id) in table && table[Root(ops, drop, m, id)] == table[id]
  {
    if m > 0 {
      RootAgrees(ops, drop, m - 1, id, table);
      if drop[m - 1] && Root(ops, drop, m - 1, id) == ops[m - 1].output {
        RootAgrees(ops, drop, m - 1, ops[m - 1].inputs[0], table);
      }
    }
  }

  // ----- the rerouted graph -----

  /** Every dropped operation has a result of the type of its operand. */
  ghost predicate TypesCopied(g: GraphData, drop: seq<bool>)
    requires HasOperands(g.operations, drop)
  {
    var types := Descriptors(g.values);
    forall i {:trigger drop[i]} | 0 <= i < |drop| && drop[i] ::
      && g.operations[i].output in types && g.operations[i].inputs[0] in types
      && types[g.operations[i].output] == types[g.operations[i].inputs[0]]
  }

  /** The result is the operand. */
  predicate Copies(env: Env, op: Operation)
    requires |op.inputs| > 0
  {
    op.inputs[0] in env && op.output in env && env[op.output] == env[op.inputs[0]]
  }

  ghost function ReroutedGraph(g: GraphData, drop: seq<bool>): GraphData
    requires HasOperands(g.operations, drop)
  {
    Rewired(g, Rerouted(g.operations, drop, |g.operations|))
  }

  /** Rerouting keeps the graph well-formed and ordered. */
  lemma ReroutedIsOrdered(g: GraphData, drop: seq<bool>)
    requires Ordered(g) && HasOperands(g.operations, drop) && TypesCopied(g, drop)
    ensures Ordered(ReroutedGraph(g, drop))
  {
    ReroutedIsWellFormed(g, drop);
    ReroutedKeepsOrder(g.operations, drop);
  }

  lemma ReroutedIsWellFormed(g: GraphData, drop: seq<bool>)
    requires WellFormedGraph(g) && HasOperands(g.operations, drop) && TypesCopied(g, drop)
    ensures WellFormedGraph(ReroutedGraph(g, drop))
  {
    var ops := g.operations;
    var r := Rerouted(ops, drop, |ops|);
    forall i | 0 <= i < |r| ensures Resolved(Descriptors(g.values), r[i]) {
      ReroutedResolved(g, drop, i);
    }
    SameOutputsSameProducers(g, r);
  }

  lemma ReroutedKeepsOrder(ops: seq<Operation>, drop: seq<bool>)
    requires HasOperands(ops, drop) && TopologicallyOrdered(ops) && DistinctOutputs(ops)
    ensures TopologicallyOrdered(Rerouted(ops, drop, |ops|))
  {
    var r := Rerouted(ops, drop, |ops|);
    forall i: nat, k: nat | i < |r| && k < |r[i].inputs| ensures ProducedBefore(r, i, r[i].inputs[k]) {
      assert ProducedBefore(ops, i, ops[i].inputs[k]);
      RootProducedBefore(ops, drop, |ops|, ops[i].inputs[k], i);
      SamePrefixProduces(ops, r, i, r[i].inputs[k]);
    }
  }

  /** A rerouted operation has operands of the same types. */
  lemma ReroutedResolved(g: GraphData, drop: seq<bool>, i: nat)
    requires WellFormedGraph(g) && HasOperands(g.operations, drop) && TypesCopied(g, drop) && i < |g.operations|
    ensures var types, op, r := Descriptors(g.values), g.operations[i], Rerouted(g.operations, drop, |g.operations|)[i];
      && Resolved(types, op) && Resolved(types, r)
      && forall k | 0 <= k < |op.inputs| :: types[r.inputs[k]] == types[op.inputs[k]]
  {
    var types, op := Descriptors(g.values), g.operations[i];
    assert Resolved(types, op);
    forall k | 0 <= k < |op.inputs|
      ensures Root(g.operations, drop, |g.operations|, op.inputs[k]) in types
      ensures types[Root(g.operations, drop, |g.operations|, op.inputs[k])] == types[op.inputs[k]]
    {
      RootAgrees(g.operations, drop, |g.operations|, op.inputs[k], types);
    }
  }

  lemma RulesByOperandTypes(A: Arith, types: Types, op: Operation, ids: seq<Id>)
    requires Resolved(types, op) && |ids| == |op.inputs|
    requires forall k | 0 <= k < |ids| :: ids[k] in types && types[ids[k]] == types[op.inputs[k]]
    ensures Resolved(types, op.(inputs := ids))
    ensures OperationOk(A, types, op) ==> OperationOk(A, types, op.(inputs := ids))
  {
    var r := op.(inputs := ids);
    assert forall k | 0 <= k < |ids| :: InputShape(types, op, k) == InputShape(types, r, k);
  }

  lemma ReroutedIsVerified(A: Arith, g: GraphData, drop: seq<bool>)
    requires WellFormedGraph(g) && HasOperands(g.operations, drop) && TypesCopied(g, drop) && GraphVerified(A, g)
    ensures GraphVerified(A, ReroutedGraph(g, drop))
  {
    var types, r := Descriptors(g.values), Rerouted(g.operations, drop, |g.operations|);
    forall i | 0 <= i < |r| ensures Resolved(types, r[i]) && OperationOk(A, types, r[i]) {
      assert Resolved(types, g.operations[i]) && OperationOk(A, types, g.operations[i]);
      ReroutedResolved(g, drop, i);
      RulesByOperandTypes(A, types, g.operations[i], r[i].inputs);
    }
  }

  /** A solution in which every dropped operation copies its operand solves the rerouted graph. */
  lemma ReroutedIsSolved(A: Arith, feeds: Feeds, g: GraphData, drop: seq<bool>, env: Env)
    requires HasOperands(g.operations, drop) && Solves(A, feeds, g, env)
    requires forall i {:trigger drop[i]} | 0 <= i < |drop| && drop[i] :: Copies(env, g.operations[i])
    ensures Solves(A, feeds, ReroutedGraph(g, drop), env)
  {
    var types, ops := Descriptors(g.values), g.operations;
    var r := Rerouted(ops, drop, |ops|);
    forall i | 0 <= i < |r| ensures Satisfies(Meaning(A, feeds, types), r[i], env) {
      assert Satisfies(Meaning(A, feeds, types), ops[i], env);
      forall k | 0 <= k < |ops[i].inputs| && ops[i].inputs[k] in env
        ensures AgreeAt(env, env, r[i].inputs[k]) && env[r[i].inputs[k]] == env[ops[i].inputs[k]]
      {
        RootAgrees(ops, drop, |ops|, ops[i].inputs[k], env);
      }
      StepByOperands(A, feeds, types, ops[i], r[i].inputs, env);
    }
  }

  /** A step looks at the values of its operands only, not at their names. */
  lemma StepByOperands(A: Arith, feeds: Feeds, types: Types, op: Operation, ids: seq<Id>, env: Env)
    requires |ids| == |op.inputs| && Satisfies(Meaning(A, feeds, types), op, env)
    requires forall k | 0 <= k < |ids| && op.inputs[k] in env :: ids[k] in env && env[ids[k]] == env[op.inputs[k]]
    ensures Satisfies(Meaning(A, feeds, types), op.(inputs := ids), env)
  {
    if !op.kind.Input? && !op.kind.Parameter? {
      assert forall k | 0 <= k < |op.inputs| :: op.inputs[k] in env;
      assert Lookup(env, ids) == Lookup(env, op.inputs);
      EvaluationIgnoresNames(A, op, ids, Lookup(env, ids), types[op.output].shape);
    }
  }

  lemma EvaluationIgnoresNames(A: Arith, op: Operation, ids: seq<Id>, operands: seq<Tensor>, shape: Shapes.Shape)
    ensures EvaluateOperation(A, op.(inputs := ids), operands, shape) == EvaluateOperation(A, op, operands, shape)
  {
  }

  // ----- erasing the dropped operations -----

  /** Identifiers of the dropped operations among the first m. */
  ghost function DroppedIdsBelow(ops: seq<Operation>, drop: seq<bool>, m: nat): set<Id>
    requires m <= |drop| == |ops|
  {
    set i | 0 <= i < m && drop[i] :: ops[i].id
  }

  ghost function DroppedOutputsBelow(ops: seq<Operation>, drop: seq<bool>, m: nat): set<Id>
    requires m <= |drop| == |ops|
  {
    set i | 0 <= i < m && drop[i] :: ops[i].output
  }

  lemma DroppedStep(ops: seq<Operation>, drop: seq<bool>, m: nat)
    requires m < |drop| == |ops|
    ensures DroppedIdsBelow(ops, drop, m + 1)
         == DroppedIdsBelow(ops, drop, m) + if drop[m] then {ops[m].id} else {}
    ensures DroppedOutputsBelow(ops, drop, m + 1)
         == DroppedOutputsBelow(ops, drop, m) + if drop[m] then {ops[m].output} else {}
  {
  }

  ghost function DroppedIds(ops: seq<Operation>, drop: seq<bool>): set<Id>
    requires |drop| == |ops|
  {
    DroppedIdsBelow(ops, drop, |ops|)
  }

  ghost function DroppedOutputs(ops: seq<Operation>, drop: seq<bool>): set<Id>
    requires |drop| == |ops|
  {
    DroppedOutputsBelow(ops, drop, |ops|)
  }

  /** The graph after the pass. */
  ghost function WithoutCopies(g: GraphData, drop: seq<bool>): GraphData
    requires HasOperands(g.operations, drop)
  {
    Erased(ReroutedGraph(g, drop), DroppedIds(g.operations, drop), DroppedOutputs(g.operations, drop))
  }

  lemma {:induction false} RootUnchanged(ops: seq<Operation>, drop: seq<bool>, m: nat, id: Id)
    requires HasOperands(ops, drop) && m <= |ops| && true !in drop
    ensures Root(ops, drop, m, id) == id
  {
    if m > 0 {
      RootUnchanged(ops, drop, m - 1, id);
    }
  }

  /** Where nothing is redundant nothing changes. */
  lemma NoCopiesNoChange(g: GraphData, drop: seq<bool>)
    requires HasOperands(g.operations, drop) && true !in drop
    ensures WithoutCopies(g, drop) == g
  {
    var ops := g.operations;
    forall i | 0 <= i < |ops| ensures Rerouted(ops, drop, |ops|)[i] == ops[i] {
      forall k | 0 <= k < |ops[i].inputs| ensures Root(ops, drop, |ops|, ops[i].inputs[k]) == ops[i].inputs[k] {
        RootUnchanged(ops, drop, |ops|, ops[i].inputs[k]);
      }
      assert Roots(ops, drop, |ops|, ops[i].inputs) == ops[i].inputs;
    }
    assert Rerouted(ops, drop, |ops|) == ops;
    assert DroppedIds(ops, drop) == {} && DroppedOutputs(ops, drop) == {};
    NothingKeptOut(ops, g.values);
  }

  /** Where something is redundant the graph changes. */
  lemma CopiesShow(g: GraphData, drop: seq<bool>)
    requires HasOperands(g.operations, drop) && true in drop
    ensures WithoutCopies(g, drop) != g
  {
    var i :| 0 <= i < |drop| && drop[i];
    assert g.operations[i].id in DroppedIds(g.operations, drop);
    ErasingShows(g.operations, Rerouted(g.operations, drop, |g.operations|), DroppedIds(g.operations, drop), i);
  }

  lemma DroppedIsErasable(g: GraphData, drop: seq<bool>)
    requires Ordered(g) && Droppable(g, drop)
    ensures Erasable(ReroutedGraph(g, drop), DroppedIds(g.operations, drop), DroppedOutputs(g.operations, drop))
  {
    var ops := g.operations;
    var r := Rerouted(ops, drop, |ops|);
    var opIds, valueIds := DroppedIds(ops, drop), DroppedOutputs(ops, drop);
    forall op <- r ensures op.id in opIds <==> op.output in valueIds {
      var i :| 0 <= i < |r| && r[i] == op;
      WhichDropped(ops, drop, i);
    }
    forall op, p | op in r && p in r && op.id !in opIds && UsesResult(op, p) ensures p.id !in opIds {
      DroppedUnused(g, drop, op, p);
    }
    forall id | id in g.inputIds || id in g.outputIds ensures id !in valueIds {
      forall i | 0 <= i < |ops| && drop[i] ensures ops[i].output != id {
        NotAnInput(g, ops[i]);
      }
    }
  }

  lemma WhichDropped(ops: seq<Operation>, drop: seq<bool>, i: nat)
    requires |drop| == |ops| && DistinctOperationIds(ops) && DistinctOutputs(ops) && i < |ops|
    ensures ops[i].id in DroppedIds(ops, drop) <==> drop[i]
    ensures ops[i].output in DroppedOutputs(ops, drop) <==> drop[i]
  {
  }

  lemma DroppedUnused(g: GraphData, drop: seq<bool>, op: Operation, p: Operation)
    requires Ordered(g) && HasOperands(g.operations, drop)
    requires op in Rerouted(g.operations, drop, |g.operations|) && p in Rerouted(g.operations, drop, |g.operations|)
    requires UsesResult(op, p)
    ensures p.id !in DroppedIds(g.operations, drop)
  {
    hide DroppedIds, DroppedOutputs, Root, Roots;
    var r := Rerouted(g.operations, drop, |g.operations|);
    var i :| 0 <= i < |r| && r[i] == op;
    var k :| 0 <= k < |op.inputs| && op.inputs[k] == p.output;
    NotUsed(g, drop, i, k);
    var j :| 0 <= j < |r| && r[j] == p;
    WhichDropped(g.operations, drop, j);
  }

  /** No rerouted operand is the result of a dropped operation. */
  lemma NotUsed(g: GraphData, drop: seq<bool>, i: nat, k: nat)
    requires Ordered(g) && HasOperands(g.operations, drop)
    requires i < |g.operations| && k < |g.operations[i].inputs|
    ensures Rerouted(g.operations, drop, |g.operations|)[i].inputs[k] !in DroppedOutputs(g.operations, drop)
  {
    var ops := g.operations;
    var id := ops[i].inputs[k];
    assert ProducedBefore(ops, i, id);
    ProducedLater(ops, i, |ops|, id);
    forall j | 0 <= j < |ops| && drop[j] ensures Root(ops, drop, |ops|, id) != ops[j].output {
      RootNotDropped(ops, drop, |ops|, id, j);
    }
  }

  /** Removing copies keeps order, well-formedness and the verifier's judgement. */
  lemma CopiesRemoved(A: Arith, g: GraphData, drop: seq<bool>)
    requires Ordered(g) && Droppable(g, drop) && TypesCopied(g, drop)
    ensures Ordered(WithoutCopies(g, drop)) && SameInterface(g, WithoutCopies(g, drop))
    ensures GraphVerified(A, g) ==> GraphVerified(A, WithoutCopies(g, drop))
  {
    ReroutedIsOrdered(g, drop);
    DroppedIsErasable(g, drop);
    ErasureKeeps(A, ReroutedGraph(g, drop), DroppedIds(g.operations, drop), DroppedOutputs(g.operations, drop));
    if GraphVerified(A, g) {
      ReroutedIsVerified(A, g, drop);
    }
  }

  /** ... and every solution in which the dropped operations copy. */
  lemma CopiesRemovedSolved(A: Arith, feeds: Feeds, g: GraphData, drop: seq<bool>, env: Env)
    requires Ordered(g) && Droppable(g, drop) && TypesCopied(g, drop) && Solves(A, feeds, g, env)
    requires forall i {:trigger drop[i]} | 0 <= i < |drop| && drop[i] :: Copies(env, g.operations[i])
    ensures Solves(A, feeds, WithoutCopies(g, drop), env)
  {
    ReroutedIsOrdered(g, drop);
    DroppedIsErasable(g, drop);
    ReroutedIsSolved(A, feeds, g, drop, env);
    ErasureKeeps(A, ReroutedGraph(g, drop), DroppedIds(g.operations, drop), DroppedOutputs(g.operations, drop));
  }
}
