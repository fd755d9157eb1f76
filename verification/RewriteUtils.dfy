/** The mutable graph and the helpers of cpp/src/passes/rewrite_utils.cpp. */
module RewriteUtils {
  import opened Basics
  import opened GraphIR
  import opened Kahn
  import opened OperationOrder
  import opened Sequential
  import Counting

  /** Graph: passes edit the values and operations in place; the interface is fixed. */
  class Graph {
    const inputIds: seq<Id>
    const outputIds: seq<Id>
    var values: seq<Value>
    var operations: seq<Operation>

    constructor (g: GraphData)
      ensures Data() == g
    {
      inputIds, outputIds, values, operations := g.inputIds, g.outputIds, g.values, g.operations;
    }

    function Data(): GraphData
      reads this
    {
      GraphData(inputIds, outputIds, values, operations)
    }
  }

  // ----- indices and use counts -----

  /** Position of the first value with each identifier. */
  ghost predicate IsValueIndex(values: seq<Value>, index: map<Id, nat>) {
    && (forall id :: id in index <==> exists k | 0 <= k < |values| :: values[k].id == id)
    && (forall id <- index :: index[id] < |values| && values[index[id]].id == id)
  }

  /** `value_index_by_id` */
  method ValueIndexById(values: seq<Value>) returns (index: map<Id, nat>)
    ensures IsValueIndex(values, index)
  {
    index := map[];
    for k := 0 to |values|
      invariant forall id :: id in index <==> exists j | 0 <= j < k :: values[j].id == id
      invariant forall id <- index :: index[id] < k && values[index[id]].id == id
    {
      if values[k].id !in index {
        index := index[values[k].id := k];
      }
    }
  }

  /** Looking a value up by index or by identifier is the same. */
  lemma ValueIndexed(values: seq<Value>, index: map<Id, nat>, id: Id)
    requires DistinctValueIds(values) && IsValueIndex(values, index)
    ensures id in index <==> id in Descriptors(values)
    ensures id in index ==> index[id] < |values| && values[index[id]].descriptor == Descriptors(values)[id]
  {
    DescriptorsDomain(values, id);
    if id in index {
      DescriptorsAt(values, index[id]);
    }
  }

  /** How often a value occurs as an operand. */
  function UseCount(ops: seq<Operation>, id: Id): nat {
    if ops == [] then 0 else UseCount(ops[..|ops| - 1], id) + multiset(ops[|ops| - 1].inputs)[id]
  }

  ghost predicate AreUseCounts(ops: seq<Operation>, counts: map<Id, nat>) {
    forall id :: UseCount(ops, id) == if id in counts then counts[id] else 0
  }

  /** `value_use_counts` */
  method ValueUseCounts(ops: seq<Operation>) returns (counts: map<Id, nat>)
    ensures AreUseCounts(ops, counts)
  {
    counts := map[];
    for i := 0 to |ops|
      invariant AreUseCounts(ops[..i], counts)
    {
      var inputs := ops[i].inputs;
      ghost var before := counts;
      for j := 0 to |inputs|
        invariant forall id :: (if id in counts then counts[id] else 0)
                            == (if id in before then before[id] else 0) + multiset(inputs[..j])[id]
      {
        assert inputs[..j + 1] == inputs[..j] + [inputs[j]];
        var count := if inputs[j] in counts then counts[inputs[j]] else 0;
        counts := counts[inputs[j] := count + 1];
      }
      assert inputs[..|inputs|] == inputs;
      assert ops[..i + 1][..i] == ops[..i];
    }
    assert ops[..|ops|] == ops;
  }

  /** An operand occurrence counts. */
  lemma {:induction false} UseCounts(ops: seq<Operation>, i: nat, k: nat)
    requires i < |ops| && k < |ops[i].inputs|
    ensures UseCount(ops, ops[i].inputs[k]) >= multiset(ops[i].inputs)[ops[i].inputs[k]] >= 1
  {
    var n := |ops| - 1;
    assert ops[i].inputs[k] in multiset(ops[i].inputs);
    if i < n {
      UseCounts(ops[..n], i, k);
    }
  }

  /** A value used once is used by one operation. */
  lemma {:induction false} SingleUse(ops: seq<Operation>, i: nat, j: nat, id: Id)
    requires UseCount(ops, id) == 1 && i < |ops| && j < |ops| && id in ops[i].inputs && id in ops[j].inputs
    ensures i == j && multiset(ops[i].inputs)[id] == 1
  {
    var n := |ops| - 1;
    var k :| 0 <= k < |ops[i].inputs| && ops[i].inputs[k] == id;
    var l :| 0 <= l < |ops[j].inputs| && ops[j].inputs[l] == id;
    if i < n {
      UseCounts(ops[..n], i, k);
    } else {
      assert ops[n].inputs[k] in multiset(ops[n].inputs);
    }
    if j < n {
      UseCounts(ops[..n], j, l);
    } else {
      assert ops[n].inputs[l] in multiset(ops[n].inputs);
    }
    if i < n && j < n {
      SingleUse(ops[..n], i, j, id);
    }
  }

  // ----- renaming operands -----

  function RenameIds(ids: seq<Id>, from: Id, to: Id): (r: seq<Id>)
    ensures |r| == |ids|
  {
    seq(|ids|, k requires 0 <= k < |ids| => if ids[k] == from then to else ids[k])
  }

  function RenameUses(ops: seq<Operation>, from: Id, to: Id): (r: seq<Operation>)
    ensures |r| == |ops|
  {
    seq(|ops|, i requires 0 <= i < |ops| => ops[i].(inputs := RenameIds(ops[i].inputs, from, to)))
  }

  /** `replace_all_uses` */
  method ReplaceAllUses(graph: Graph, from: Id, to: Id)
    modifies graph`operations
    ensures graph.operations == RenameUses(old(graph.operations), from, to)
  {
    ghost var before := graph.operations;
    for i := 0 to |graph.operations|
      invariant |graph.operations| == |before|
      invariant forall j | 0 <= j < |before| ::
        graph.operations[j] == if j < i then RenameUses(before, from, to)[j] else before[j]
    {
      var inputs := graph.operations[i].inputs;
      for k := 0 to |inputs|
        invariant |inputs| == |before[i].inputs|
        invariant forall j | 0 <= j < |inputs| ::
          inputs[j] == if j < k then RenameIds(before[i].inputs, from, to)[j] else before[i].inputs[j]
      {
        if inputs[k] == from {
          inputs := inputs[k := to];
        }
      }
      assert inputs == RenameIds(before[i].inputs, from, to);
      graph.operations := graph.operations[i := graph.operations[i].(inputs := inputs)];
    }
  }

  // ----- erasing -----

  function KeptOperations(ops: seq<Operation>, ids: set<Id>): seq<Operation> {
    if ops == [] then []
    else
      var last := ops[|ops| - 1];
      KeptOperations(ops[..|ops| - 1], ids) + if last.id in ids then [] else [last]
  }

  function KeptValues(values: seq<Value>, ids: set<Id>): seq<Value> {
    if values == [] then []
    else
      var last := values[|values| - 1];
      KeptValues(values[..|values| - 1], ids) + if last.id in ids then [] else [last]
  }

  /** `erase_operations` */
  method EraseOperations(graph: Graph, ids: set<Id>)
    modifies graph`operations
    ensures graph.operations == KeptOperations(old(graph.operations), ids)
  {
    var ops := graph.operations;
    var kept: seq<Operation> := [];
    for i := 0 to |ops|
      invariant kept == KeptOperations(ops[..i], ids)
    {
      assert ops[..i + 1][..i] == ops[..i];
      if ops[i].id !in ids {
        kept := kept + [ops[i]];
      }
    }
    assert ops[..|ops|] == ops;
    graph.operations := kept;
  }

  /** `erase_values` */
  method EraseValues(graph: Graph, ids: set<Id>)
    modifies graph`values
    ensures graph.values == KeptValues(old(graph.values), ids)
  {
    var values := graph.values;
    var kept: seq<Value> := [];
    for i := 0 to |values|
      invariant kept == KeptValues(values[..i], ids)
    {
      assert values[..i + 1][..i] == values[..i];
      if values[i].id !in ids {
        kept := kept + [values[i]];
      }
    }
    assert values[..|values|] == values;
    graph.values := kept;
  }

  lemma {:induction false} KeptOperationsAre(ops: seq<Operation>, ids: set<Id>)
    ensures forall op :: op in KeptOperations(ops, ids) <==> op in ops && op.id !in ids
    ensures |KeptOperations(ops, ids)| <= |ops|
  {
    if ops != [] {
      var n := |ops| - 1;
      KeptOperationsAre(ops[..n], ids);
      assert ops == ops[..n] + [ops[n]];
    }
  }

  lemma {:induction false} KeptValuesAre(values: seq<Value>, ids: set<Id>)
    ensures forall v :: v in KeptValues(values, ids) <==> v in values && v.id !in ids
    ensures |KeptValues(values, ids)| <= |values|
  {
    if values != [] {
      var n := |values| - 1;
      KeptValuesAre(values[..n], ids);
      assert values == values[..n] + [values[n]];
    }
  }

  /** What is erased shows. */
  lemma ErasingShows(ops: seq<Operation>, other: seq<Operation>, ids: set<Id>, i: nat)
    requires i < |ops| && ops[i].id in ids
    ensures KeptOperations(other, ids) != ops
  {
    KeptOperationsAre(other, ids);
    assert ops[i] in ops;
  }

  /** Erasing keeps identifiers and outputs distinct. */
  lemma {:induction false} KeptOperationsDistinct(ops: seq<Operation>, ids: set<Id>)
    requires DistinctOperationIds(ops) && DistinctOutputs(ops)
    ensures DistinctOperationIds(KeptOperations(ops, ids)) && DistinctOutputs(KeptOperations(ops, ids))
  {
    if ops != [] {
      var n := |ops| - 1;
      KeptOperationsDistinct(ops[..n], ids);
      KeptOperationsAre(ops[..n], ids);
      var kept := KeptOperations(ops[..n], ids);
      forall op <- kept ensures op.id != ops[n].id && op.output != ops[n].output {
        assert op in ops[..n];
      }
      OneMoreDistinct(kept, ops[n]);
    }
  }

  lemma OneMoreDistinct(ops: seq<Operation>, op: Operation)
    requires DistinctOperationIds(ops) && DistinctOutputs(ops)
    requires forall o <- ops :: o.id != op.id && o.output != op.output
    ensures DistinctOperationIds(ops + [op]) && DistinctOutputs(ops + [op])
  {
  }

  lemma {:induction false} KeptValuesDistinct(values: seq<Value>, ids: set<Id>)
    requires DistinctValueIds(values)
    ensures DistinctValueIds(KeptValues(values, ids))
  {
    if values != [] {
      var n := |values| - 1;
      KeptValuesDistinct(values[..n], ids);
      KeptValuesAre(values[..n], ids);
      var kept := KeptValues(values[..n], ids);
      forall i | 0 <= i < |kept| ensures kept[i].id != values[n].id {
        assert kept[i] in values[..n];
      }
    }
  }

  // ----- order -----

  /** Some operation of the list produces the value. */
  predicate ProducedBy(ops: seq<Operation>, id: Id) {
    exists op <- ops :: op.output == id
  }

  lemma OrderedPush(ops: seq<Operation>, op: Operation)
    ensures TopologicallyOrdered(ops + [op]) <==>
      TopologicallyOrdered(ops) && forall k | 0 <= k < |op.inputs| :: ProducedBy(ops, op.inputs[k])
  {
    var longer := ops + [op];
    forall i, id | 0 <= i <= |ops| ensures ProducedBefore(longer, i, id) <==> ProducedBefore(ops, i, id) {
      SamePrefixProduces(longer, ops, i, id);
    }
    forall id ensures ProducedBefore(ops, |ops|, id) <==> ProducedBy(ops, id) {
      if ProducedBy(ops, id) {
        var p :| p in ops && p.output == id;
        var j :| 0 <= j < |ops| && ops[j] == p;
        assert ops[j].output == id;
      }
    }
    if TopologicallyOrdered(longer) {
      forall i, k | 0 <= i < |ops| && 0 <= k < |ops[i].inputs| ensures ProducedBefore(ops, i, ops[i].inputs[k]) {
        assert longer[i] == ops[i] && ProducedBefore(longer, i, longer[i].inputs[k]);
      }
      forall k | 0 <= k < |op.inputs| ensures ProducedBy(ops, op.inputs[k]) {
        assert longer[|ops|] == op && ProducedBefore(longer, |ops|, longer[|ops|].inputs[k]);
      }
    }
    if TopologicallyOrdered(ops) && forall k | 0 <= k < |op.inputs| :: ProducedBy(ops, op.inputs[k]) {
      forall i, k | 0 <= i < |longer| && 0 <= k < |longer[i].inputs| ensures ProducedBefore(longer, i, longer[i].inputs[k]) {
        if i < |ops| {
          assert longer[i] == ops[i] && ProducedBefore(ops, i, ops[i].inputs[k]);
        }
      }
    }
  }

  lemma SamePrefixProduces(a: seq<Operation>, b: seq<Operation>, i: nat, id: Id)
    requires i <= |a| && i <= |b| && forall j | 0 <= j < i :: a[j].output == b[j].output
    ensures ProducedBefore(a, i, id) <==> ProducedBefore(b, i, id)
  {
    if ProducedBefore(a, i, id) {
      var j :| 0 <= j < i && a[j].output == id;
      assert b[j].output == id;
    }
    if ProducedBefore(b, i, id) {
      var j :| 0 <= j < i && b[j].output == id;
      assert a[j].output == id;
    }
  }

  predicate UsesResult(op: Operation, p: Operation) {
    p.output in op.inputs
  }

  /** Nothing kept uses the output of something erased. */
  ghost predicate ErasedUnused(ops: seq<Operation>, ids: set<Id>) {
    forall op, p {:trigger UsesResult(op, p)} | op in ops && p in ops && op.id !in ids && UsesResult(op, p) :: p.id !in ids
  }

  /** Erasing keeps the order as long as nothing kept uses the output of something erased. */
  lemma {:induction false} KeptOrdered(ops: seq<Operation>, ids: set<Id>)
    requires TopologicallyOrdered(ops) && ErasedUnused(ops, ids)
    ensures TopologicallyOrdered(KeptOperations(ops, ids))
  {
    if ops != [] {
      var n := |ops| - 1;
      var earlier, last := ops[..n], ops[n];
      assert ops == earlier + [last];
      OrderedPush(earlier, last);
      KeptOrdered(earlier, ids);
      if last.id !in ids {
        forall p <- earlier | UsesResult(last, p) ensures p.id !in ids {
          assert p in ops && last in ops;
        }
        KeptOrderedPush(earlier, last, ids);
      } else {
        assert KeptOperations(ops, ids) == KeptOperations(earlier, ids);
      }
    }
  }

  lemma KeptOrderedPush(ops: seq<Operation>, op: Operation, ids: set<Id>)
    requires TopologicallyOrdered(KeptOperations(ops, ids))
    requires forall k | 0 <= k < |op.inputs| :: ProducedBy(ops, op.inputs[k])
    requires forall p <- ops | UsesResult(op, p) :: p.id !in ids
    ensures TopologicallyOrdered(KeptOperations(ops, ids) + [op])
  {
    KeptOperationsAre(ops, ids);
    var kept := KeptOperations(ops, ids);
    forall k | 0 <= k < |op.inputs| ensures ProducedBy(kept, op.inputs[k]) {
      var p :| p in ops && p.output == op.inputs[k];
      assert UsesResult(op, p) && p in kept;
    }
    OrderedPush(kept, op);
  }
}
