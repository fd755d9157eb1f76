/** What the loader accepts, identifiers and order included, and how to show it of a given graph. */
module LoadableGraphs {
  import opened Basics
  import opened GraphIR
  import opened Shapes
  import opened TensorSizes
  import opened StringOrder
  import opened OperationOrder
  import opened Sequential
  import opened Tensors
  import opened Evaluator
  import opened SemanticVerifier
  import opened GraphInvariants
  import opened PassFramework
  import opened GraphLoader
  import opened Connectivity
  import Canonicalisation
  import Kahn

  // ----- the loader's conditions -----

  predicate IsDigit(c: char) {
    '0' <= c <= '9'
  }

  /** `has_exact_prefixed_id` with four digits. */
  predicate IsNumbered(id: Id, prefix: string) {
    |id| == |prefix| + 4 && prefix <= id && forall k | |prefix| <= k < |id| :: IsDigit(id[k])
  }

  /** `is_lowercase_sha256` */
  predicate IsDigest(text: string) {
    |text| == 64 && forall c <- text :: IsDigit(c) || 'a' <= c <= 'f'
  }

  /** A parameter carries the digest of its content. */
  predicate HasDigest(op: Operation) {
    op.kind.Parameter? ==>
      "content_sha256" in op.attributes && op.attributes["content_sha256"].JString?
      && IsDigest(op.attributes["content_sha256"].text)
  }

  predicate DistinctIds(ids: seq<Id>) {
    ids != [] && forall i, j | 0 <= i < j < |ids| :: ids[i] != ids[j]
  }

  predicate WellNamed(op: Operation) {
    IsNumbered(op.id, "op") && HasDigest(op)
  }

  /** Every value and operation is numbered, and every parameter has its digest. */
  ghost predicate WellNamedGraph(g: GraphData) {
    (forall v <- g.values :: IsNumbered(v.id, "v")) && forall op <- g.operations :: WellNamed(op)
  }

  /** A graph the loader accepts, and returns with its operations as they stand. */
  ghost predicate Loadable(g: GraphData) {
    && Ordered(g) && IsLoadedOrder(g.operations, g.operations) && Connected(g)
    && DistinctIds(g.inputIds) && DistinctIds(g.outputIds) && WellNamedGraph(g)
  }

  /** Operations in a topological order have a loaded order. */
  lemma ReloadingSucceeds(g: GraphData)
    requires Ordered(g)
    ensures DistinctOutputs(g.operations) && OperandsProduced(g.operations) && |g.operations| <= UINT64_MAX
    ensures !Kahn.Cyclic(OrderEdges(g.operations, false))
  {
    WellFormedOperandsProduced(g);
    Canonicalisation.OrderedIsAcyclic(g.operations);
    if walk :| Kahn.Cycle(OrderEdges(g.operations, false), walk) {
      assert Kahn.Cycle(OrderEdges(g.operations, true), walk);
    }
  }

  // ----- small graphs, operation by operation -----

  function Figure(n: nat): char
    requires n < 10
  {
    ('0' as int + n) as char
  }

  function ValueId(n: nat): Id
    requires n < 10
  {
    "v000" + [Figure(n)]
  }

  function OpId(n: nat): Id
    requires n < 10
  {
    "op000" + [Figure(n)]
  }

  lemma {:induction false} LessAfter(prefix: string, a: string, b: string)
    ensures Less(prefix + a, prefix + b) <==> Less(a, b)
  {
    if prefix == "" {
      assert prefix + a == a && prefix + b == b;
    } else {
      assert (prefix + a)[1..] == prefix[1..] + a && (prefix + b)[1..] == prefix[1..] + b;
      LessAfter(prefix[1..], a, b);
    }
  }

  lemma Names(m: nat, n: nat)
    requires m < 10 && n < 10
    ensures ValueId(m) == ValueId(n) <==> m == n
    ensures OpId(m) == OpId(n) <==> m == n
    ensures Less(OpId(m), OpId(n)) <==> m < n
    ensures IsNumbered(ValueId(m), "v") && IsNumbered(OpId(m), "op")
  {
    LessAfter("op000", [Figure(m)], [Figure(n)]);
    assert ValueId(m)[4] == Figure(m) && ValueId(n)[4] == Figure(n);
    assert OpId(m)[5] == Figure(m) && OpId(n)[5] == Figure(n);
  }

  /** One of the first n values. */
  ghost predicate IsEarlier(id: Id, n: nat) {
    exists j: nat | j < n && j < 10 :: id == ValueId(j)
  }

  /** Operation i produces value i from earlier values, under the identifier with the given figure. */
  ghost predicate LaidOut(g: GraphData, ids: seq<nat>) {
    && |g.values| == |g.operations| == |ids| <= 10
    && (forall i | 0 <= i < |ids| :: ids[i] < 10) && (forall i, j | 0 <= i < j < |ids| :: ids[i] != ids[j])
    && forall i | 0 <= i < |ids| :: OperationAt(g, ids, i)
  }

  ghost predicate OperationAt(g: GraphData, ids: seq<nat>, i: nat)
    requires i < |g.values| == |g.operations| == |ids| <= 10 && ids[i] < 10
  {
    var op, v := g.operations[i], g.values[i];
    && v.id == op.output == ValueId(i) && op.id == OpId(ids[i]) && HasDigest(op)
    && (forall k | 0 <= k < |op.inputs| :: IsEarlier(op.inputs[k], i))
    && ArityOk(op, |op.inputs|) && RoleOk(op.kind, v.kind)
    && Positive(v.descriptor.shape) && ByteSize(v.descriptor) <= UINT64_MAX
  }

  lemma Spelled()
    ensures ValueId(0) == "v0000" && ValueId(1) == "v0001" && ValueId(2) == "v0002"
    ensures ValueId(3) == "v0003" && ValueId(4) == "v0004" && ValueId(5) == "v0005"
    ensures OpId(0) == "op0000" && OpId(1) == "op0001" && OpId(2) == "op0002" && OpId(3) == "op0003"
    ensures OpId(4) == "op0004" && OpId(5) == "op0005" && OpId(8) == "op0008" && OpId(9) == "op0009"
  {
  }

  /** `uses` says which values operation i uses. */
  lemma PlaceOperation(g: GraphData, ids: seq<nat>, i: nat, uses: seq<nat>)
    requires i < |g.values| == |g.operations| == |ids| <= 10 && ids[i] < 10 && |uses| == |g.operations[i].inputs|
    requires g.values[i].id == g.operations[i].output == ValueId(i) && g.operations[i].id == OpId(ids[i])
    requires forall k | 0 <= k < |uses| :: uses[k] < i && g.operations[i].inputs[k] == ValueId(uses[k])
    requires ArityOk(g.operations[i], |uses|) && RoleOk(g.operations[i].kind, g.values[i].kind)
    requires HasDigest(g.operations[i])
    requires Positive(g.values[i].descriptor.shape) && ByteSize(g.values[i].descriptor) <= UINT64_MAX
    ensures OperationAt(g, ids, i)
  {
  }

  /** Declared inputs and outputs are among the values, with their kinds. */
  ghost predicate InterfaceAt(g: GraphData, inputs: seq<nat>, outputs: seq<nat>) {
    && |g.values| <= 10 && |g.inputIds| == |inputs| && |g.outputIds| == |outputs|
    && (forall k | 0 <= k < |inputs| :: NamedAt(g, g.inputIds[k], inputs[k], InputValue))
    && (forall k | 0 <= k < |outputs| :: NamedAt(g, g.outputIds[k], outputs[k], OutputValue))
  }

  predicate NamedAt(g: GraphData, id: Id, i: nat, kind: ValueKind) {
    i < |g.values| && g.values[i].id == id && g.values[i].kind == kind
  }

  lemma LaidOutTypes(g: GraphData, ids: seq<nat>, i: nat)
    requires LaidOut(g, ids) && i < |ids|
    ensures DistinctValueIds(g.values)
    ensures ValueId(i) in Descriptors(g.values) && Descriptors(g.values)[ValueId(i)] == g.values[i].descriptor
  {
    forall a, b | 0 <= a < b < |g.values| ensures g.values[a].id != g.values[b].id {
      assert OperationAt(g, ids, a) && OperationAt(g, ids, b);
      Names(a, b);
    }
    assert OperationAt(g, ids, i);
    DescriptorsAt(g.values, i);
  }

  lemma LaidOutResolved(g: GraphData, ids: seq<nat>, i: nat)
    requires LaidOut(g, ids) && i < |ids|
    ensures Resolved(Descriptors(g.values), g.operations[i])
  {
    var op := g.operations[i];
    assert OperationAt(g, ids, i);
    LaidOutTypes(g, ids, i);
    forall k | 0 <= k < |op.inputs| ensures op.inputs[k] in Descriptors(g.values) {
      assert IsEarlier(op.inputs[k], i);
      var j: nat :| j < i && j < 10 && op.inputs[k] == ValueId(j);
      LaidOutTypes(g, ids, j);
    }
  }

  lemma LaidOutDistinct(g: GraphData, ids: seq<nat>)
    requires LaidOut(g, ids)
    ensures DistinctOutputs(g.operations) && DistinctOperationIds(g.operations)
    ensures TopologicallyOrdered(g.operations)
  {
    var ops := g.operations;
    forall i, j | 0 <= i < j < |ops| ensures ops[i].output != ops[j].output && ops[i].id != ops[j].id {
      assert OperationAt(g, ids, i) && OperationAt(g, ids, j);
      Names(i, j);
      Names(ids[i], ids[j]);
    }
    forall i, k | 0 <= i < |ops| && 0 <= k < |ops[i].inputs| ensures ProducedBefore(ops, i, ops[i].inputs[k]) {
      assert OperationAt(g, ids, i) && IsEarlier(ops[i].inputs[k], i);
      var j: nat :| j < i && j < 10 && ops[i].inputs[k] == ValueId(j);
      assert OperationAt(g, ids, j);
    }
  }

  lemma LaidOutRoles(g: GraphData, ids: seq<nat>)
    requires LaidOut(g, ids)
    ensures RolesOk(g) && forall v <- g.values :: Produced(g.operations, v.id)
  {
    forall op <- g.operations, v <- g.values | v.id == op.output ensures RoleOk(op.kind, v.kind) {
      var i: nat :| i < |g.operations| && g.operations[i] == op;
      var k: nat :| k < |g.values| && g.values[k] == v;
      assert OperationAt(g, ids, i) && OperationAt(g, ids, k);
      Names(i, k);
    }
    forall v <- g.values ensures Produced(g.operations, v.id) {
      var k: nat :| k < |g.values| && g.values[k] == v;
      assert OperationAt(g, ids, k) && g.operations[k].output == v.id;
    }
  }

  lemma LaidOutInterface(g: GraphData, inputs: seq<nat>, outputs: seq<nat>)
    requires InterfaceAt(g, inputs, outputs)
    ensures InterfaceOk(g)
  {
    forall id | id in g.inputIds ensures Named(g.values, id, InputValue) {
      var k :| 0 <= k < |inputs| && g.inputIds[k] == id;
      assert NamedAt(g, g.inputIds[k], inputs[k], InputValue);
    }
    forall id | id in g.outputIds ensures Named(g.values, id, OutputValue) {
      var k :| 0 <= k < |outputs| && g.outputIds[k] == id;
      assert NamedAt(g, g.outputIds[k], outputs[k], OutputValue);
    }
  }

  lemma LaidOutIsOrdered(g: GraphData, ids: seq<nat>, inputs: seq<nat>, outputs: seq<nat>)
    requires LaidOut(g, ids) && InterfaceAt(g, inputs, outputs)
    ensures Ordered(g)
  {
    LaidOutDistinct(g, ids);
    LaidOutRoles(g, ids);
    LaidOutInterface(g, inputs, outputs);
    forall i | 0 <= i < |ids| ensures Resolved(Descriptors(g.values), g.operations[i]) {
      LaidOutResolved(g, ids, i);
    }
    forall v <- g.values ensures Positive(v.descriptor.shape) && ByteSize(v.descriptor) <= UINT64_MAX {
      var k: nat :| k < |g.values| && g.values[k] == v;
      assert OperationAt(g, ids, k);
      LaidOutTypes(g, ids, k);
    }
    hide Resolved, OperationAt;
    if g.values == [] {
    } else {
      LaidOutTypes(g, ids, 0);
    }
  }

  /** The loader leaves the operations where they are when each stands as it would put it. */
  lemma LoadedInPlace(ops: seq<Operation>)
    requires TopologicallyOrdered(ops) && DistinctOutputs(ops) && DistinctOperationIds(ops) && StandsAsLoaded(ops)
    ensures IsLoadedOrder(ops, ops) && IsStableOrder(ops, ops)
  {
    var identity: seq<nat> := seq(|ops|, k => k);
    IdentityLoaded(ops, identity);
    ChainPointsForward(ops, identity);
    assert ops == Reordered(ops, identity);
  }

  lemma LaidOutIsLoadable(g: GraphData, ids: seq<nat>, inputs: seq<nat>, outputs: seq<nat>)
    requires LaidOut(g, ids) && InterfaceAt(g, inputs, outputs) && StandsAsLoaded(g.operations) && Connected(g)
    requires DistinctIds(g.inputIds) && DistinctIds(g.outputIds)
    ensures Loadable(g)
  {
    LaidOutIsOrdered(g, ids, inputs, outputs);
    LoadedInPlace(g.operations);
    LaidOutNames(g, ids);
    hide *;
  }

  lemma LaidOutNames(g: GraphData, ids: seq<nat>)
    requires LaidOut(g, ids)
    ensures WellNamedGraph(g)
  {
    forall v <- g.values ensures IsNumbered(v.id, "v") {
      var k: nat :| k < |g.values| && g.values[k] == v;
      assert OperationAt(g, ids, k);
      Names(k, k);
    }
    forall op <- g.operations ensures WellNamed(op) {
      var k: nat :| k < |g.operations| && g.operations[k] == op;
      assert OperationAt(g, ids, k);
      Names(ids[k], ids[k]);
    }
  }

  /** Ascending identifiers stand as loaded. */
  lemma AscendingStands(g: GraphData, ids: seq<nat>)
    requires LaidOut(g, ids) && forall i | 0 <= i < |ids| :: ids[i] == i
    ensures StandsAsLoaded(g.operations)
  {
    forall i, j | 0 <= i < j < |g.operations| ensures !Less(g.operations[j].id, g.operations[i].id) {
      assert OperationAt(g, ids, i) && OperationAt(g, ids, j);
      Names(j, i);
    }
  }

  /** One step along a path. */
  lemma ReachesNext(g: GraphData, i: nat, k: nat)
    requires i < |g.operations| && k < |g.operations[i].inputs|
    requires Reachable(g.inputIds, g.operations, g.operations[i].inputs[k])
    ensures Reachable(g.inputIds, g.operations, g.operations[i].output)
  {
    var op := g.operations[i];
    forall values: set<Id> | HasAll(g.inputIds, values) && ForwardClosed(g.operations, values) ensures op.output in values {
      assert op.inputs[k] in values && AnyOperandIn(op, values);
      assert op in g.operations;
    }
  }

  lemma InputIsReached(g: GraphData, id: Id)
    requires id in g.inputIds
    ensures Reachable(g.inputIds, g.operations, id)
  {
  }
}
