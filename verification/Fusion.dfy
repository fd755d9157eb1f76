/** cpp/src/passes/fuse_bias_gelu_pass.cpp */
module Fusion {
  import opened Basics
  import opened GraphIR
  import opened Shapes
  import opened OperationOrder
  import opened Sequential
  import opened Tensors
  import opened Evaluator
  import opened SemanticVerifier
  import opened GraphInvariants
  import opened RewriteUtils
  import opened PassFramework
  import Erasure

  // ----- what is matched -----

  /** A projection, the addition of its bias, and which value the bias is. */
  datatype Match = Match(base: nat, add: nat, bias: Id)

  /** Position of the operation that produces a value. */
  function ProducerIndex(ops: seq<Operation>, id: Id): Option<nat> {
    if ops == [] then None
    else if ops[0].output == id then Some(0)
    else
      var rest := ProducerIndex(ops[1..], id);
      if rest.None? then None else Some(rest.value + 1)
  }

  lemma {:induction false} ProducerIndexAt(ops: seq<Operation>, k: nat)
    requires DistinctOutputs(ops) && k < |ops|
    ensures ProducerIndex(ops, ops[k].output) == Some(k)
  {
    if k > 0 {
      assert ops[0].output != ops[k].output;
      ProducerIndexAt(ops[1..], k - 1);
    }
  }

  lemma {:induction false} ProducerIndexIs(ops: seq<Operation>, id: Id)
    ensures ProducerIndex(ops, id).Some? ==>
      ProducerIndex(ops, id).value < |ops| && ops[ProducerIndex(ops, id).value].output == id
    ensures ProducerIndex(ops, id).None? ==> forall k | 0 <= k < |ops| :: ops[k].output != id
  {
    if ops != [] {
      ProducerIndexIs(ops[1..], id);
    }
  }

  predicate IsPlainGelu(op: Operation) {
    op.kind.Gelu? && |op.inputs| == 1 && !op.HasSideEffect() && ExactGelu(op.attributes)
  }

  predicate IsPlainAdd(op: Operation) {
    op.kind.Add? && |op.inputs| == 2 && !op.HasSideEffect()
  }

  /** A projection without bias. */
  predicate IsBase(op: Operation) {
    op.IsProjection() && |op.inputs| == 2 && !op.HasSideEffect()
  }

  /** Used once, and not a declared output. */
  predicate SingleInternalUse(g: GraphData, id: Id) {
    UseCount(g.operations, id) == 1 && id !in g.outputIds
  }

  function BaseAt(cur: seq<Operation>, id: Id): Option<nat> {
    var p := ProducerIndex(cur, id);
    if p.Some? && p.value < |cur| && IsBase(cur[p.value]) then p else None
  }

  /** The first operand of the addition that is a plain projection, and the other operand. */
  function BaseOf(cur: seq<Operation>, add: Operation): Option<(nat, Id)>
    requires |add.inputs| == 2
  {
    if BaseAt(cur, add.inputs[0]).Some? then Some((BaseAt(cur, add.inputs[0]).value, add.inputs[1]))
    else if BaseAt(cur, add.inputs[1]).Some? then Some((BaseAt(cur, add.inputs[1]).value, add.inputs[0]))
    else None
  }

  function ValueNamed(values: seq<Value>, id: Id): Option<Value> {
    if values == [] then None else if values[0].id == id then Some(values[0]) else ValueNamed(values[1..], id)
  }

  lemma {:induction false} ValueNamedAt(values: seq<Value>, k: nat)
    requires DistinctValueIds(values) && k < |values|
    ensures ValueNamed(values, values[k].id) == Some(values[k])
  {
    if k > 0 {
      assert values[0].id != values[k].id;
      ValueNamedAt(values[1..], k - 1);
    }
  }

  lemma {:induction false} ValueNamedIs(values: seq<Value>, id: Id)
    ensures ValueNamed(values, id).Some? ==> ValueNamed(values, id).value in values && ValueNamed(values, id).value.id == id
    ensures ValueNamed(values, id).None? ==> forall k | 0 <= k < |values| :: values[k].id != id
  {
    if values != [] {
      ValueNamedIs(values[1..], id);
    }
  }

  /** A parameter or constant as wide as the last dimension of the addition's result. */
  predicate BiasMatches(values: seq<Value>, bias: Id, sum: Id) {
    var b, s := ValueNamed(values, bias), ValueNamed(values, sum);
    && b.Some? && s.Some?
    && (b.value.kind.ParameterValue? || b.value.kind.ConstantValue?)
    && s.value.descriptor.shape != []
    && b.value.descriptor.shape == [s.value.descriptor.shape[|s.value.descriptor.shape| - 1]]
  }

  /** A linear layer must say that it has no bias. */
  predicate BiasFree(base: Operation) {
    base.kind.Linear? ==> base.HasFlag("bias", false)
  }

  /**
   The chain ending at operation i, if there is one. Operations are read from `cur`; use counts,
   values and declared outputs from the graph as it was when the pass started.
   */
  function MatchIn(g: GraphData, cur: seq<Operation>, i: nat): Option<Match>
    requires i < |cur|
  {
    if !IsPlainGelu(cur[i]) then None
    else
      var a := ProducerIndex(cur, cur[i].inputs[0]);
      if a.None? || a.value >= |cur| || !IsPlainAdd(cur[a.value]) || !SingleInternalUse(g, cur[i].inputs[0]) then None
      else
        var b := BaseOf(cur, cur[a.value]);
        if b.None? || b.value.0 >= |cur| || !SingleInternalUse(g, cur[b.value.0].output)
          || !BiasMatches(g.values, b.value.1, cur[i].inputs[0]) || !BiasFree(cur[b.value.0])
        then None
        else Some(Match(b.value.0, a.value, b.value.1))
  }

  function MatchAt(g: GraphData, i: nat): Option<Match>
    requires i < |g.operations|
  {
    MatchIn(g, g.operations, i)
  }

  function FusedAttributes(base: Operation, add: Operation, gelu: Operation): Attributes {
    base.attributes["bias" := JBool(true)]["fused_activation" := JString("GELU")]
      ["fused_activation_approximate" := JString("none")]
      ["fused_from" := JArray([JString(base.id), JString(add.id), JString(gelu.id)])]
  }

  /** The GELU becomes the projection with bias and activation. */
  function FusedOperation(base: Operation, add: Operation, gelu: Operation, bias: Id): Operation {
    gelu.(kind := base.kind, inputs := base.inputs + [bias], attributes := FusedAttributes(base, add, gelu))
  }

  /** Operation i after the pass has visited it. */
  function FusedAt(g: GraphData, i: nat): Operation
    requires i < |g.operations|
  {
    var m := MatchAt(g, i);
    if m.None? || m.value.base >= |g.operations| || m.value.add >= |g.operations| then g.operations[i]
    else FusedOperation(g.operations[m.value.base], g.operations[m.value.add], g.operations[i], m.value.bias)
  }

  /** The operations after the first m have been visited. */
  function FusedOperations(g: GraphData, m: nat): (r: seq<Operation>)
    requires m <= |g.operations|
    ensures |r| == |g.operations|
  {
    seq(|g.operations|, i requires 0 <= i < |g.operations| => if i < m then FusedAt(g, i) else g.operations[i])
  }

  // ----- facts about a match -----

  /** What a match consists of. */
  predicate IsChain(g: GraphData, i: nat, m: Match) {
    && i < |g.operations| && m.base < |g.operations| && m.add < |g.operations|
    && IsPlainGelu(g.operations[i]) && IsPlainAdd(g.operations[m.add]) && IsBase(g.operations[m.base])
    && g.operations[i].inputs[0] == g.operations[m.add].output
    && SingleInternalUse(g, g.operations[m.add].output) && SingleInternalUse(g, g.operations[m.base].output)
    && (g.operations[m.add].inputs == [g.operations[m.base].output, m.bias]
        || g.operations[m.add].inputs == [m.bias, g.operations[m.base].output])
    && BiasMatches(g.values, m.bias, g.operations[m.add].output) && BiasFree(g.operations[m.base])
  }

  lemma MatchIsChain(g: GraphData, i: nat)
    requires i < |g.operations| && MatchAt(g, i).Some?
    ensures IsChain(g, i, MatchAt(g, i).value)
  {
    var ops := g.operations;
    ProducerIndexIs(ops, ops[i].inputs[0]);
    var add := ops[MatchAt(g, i).value.add];
    ProducerIndexIs(ops, add.inputs[0]);
    ProducerIndexIs(ops, add.inputs[1]);
    assert add.inputs == [add.inputs[0], add.inputs[1]];
  }

  /** Fusing keeps identifiers and outputs. */
  lemma FusedKeepsNames(g: GraphData, m: nat, i: nat)
    requires m <= |g.operations| && i < |g.operations|
    ensures FusedOperations(g, m)[i].id == g.operations[i].id && FusedOperations(g, m)[i].output == g.operations[i].output
  {
  }

  lemma {:induction false} SameProducerIndex(a: seq<Operation>, b: seq<Operation>, id: Id)
    requires |a| == |b| && forall k | 0 <= k < |a| :: a[k].output == b[k].output
    ensures ProducerIndex(a, id) == ProducerIndex(b, id)
  {
    if a != [] {
      SameProducerIndex(a[1..], b[1..], id);
    }
  }

  /** A visited operation is untouched, or was a GELU and is now a projection with three operands. */
  lemma FusedIsNoCandidate(g: GraphData, m: nat, j: nat)
    requires m <= |g.operations| && j < |g.operations|
    ensures var o, n := g.operations[j], FusedOperations(g, m)[j];
      n == o || (o.kind.Gelu? && n.IsProjection() && |n.inputs| == 3)
  {
    if j < m && MatchAt(g, j).Some? {
      MatchIsChain(g, j);
    }
  }

  /** Rewriting earlier operations does not change what matches: stale and current views agree. */
  lemma MatchUnaffected(g: GraphData, i: nat)
    requires i < |g.operations|
    ensures MatchIn(g, FusedOperations(g, i), i) == MatchAt(g, i)
  {
    var ops, cur := g.operations, FusedOperations(g, i);
    forall id ensures ProducerIndex(cur, id) == ProducerIndex(ops, id) {
      SameProducerIndex(cur, ops, id);
    }
    forall j | 0 <= j < |ops|
      ensures cur[j] == ops[j] || (ops[j].kind.Gelu? && cur[j].IsProjection() && |cur[j].inputs| == 3)
    {
      FusedIsNoCandidate(g, i, j);
    }
    forall id ensures BaseAt(cur, id) == BaseAt(ops, id) {
    }
  }

  // ----- the pass -----

  /** The producer index, whichever way it is looked up. */
  ghost predicate Locates(cur: seq<Operation>, producers: map<Id, nat>) {
    forall id {:trigger ProducerIndex(cur, id)} :: ProducerIndex(cur, id) == if id in producers then Some(producers[id]) else None
  }

  lemma IndexLocates(ops: seq<Operation>, producers: map<Id, nat>)
    requires DistinctOutputs(ops) && IsProducerIndex(ops, producers)
    ensures Locates(ops, producers)
  {
    forall id ensures ProducerIndex(ops, id) == if id in producers then Some(producers[id]) else None {
      ProducerIndexIs(ops, id);
      if id in producers {
        ProducerIndexAt(ops, producers[id]);
      }
    }
  }

  lemma StillLocates(ops: seq<Operation>, cur: seq<Operation>, producers: map<Id, nat>)
    requires Locates(ops, producers) && |ops| == |cur| && forall k | 0 <= k < |ops| :: cur[k].output == ops[k].output
    ensures Locates(cur, producers)
  {
    forall id ensures ProducerIndex(cur, id) == ProducerIndex(ops, id) {
      SameProducerIndex(cur, ops, id);
    }
  }

  /** The inner loop over the operands of the addition. */
  method FindBase(cur: seq<Operation>, producers: map<Id, nat>, add: Operation) returns (r: Option<(nat, Id)>)
    requires |add.inputs| == 2 && Locates(cur, producers)
    ensures r == BaseOf(cur, add)
    ensures r.Some? ==> r.value.0 < |cur|
  {
    for inputIndex := 0 to 2
      invariant forall k | 0 <= k < inputIndex :: BaseAt(cur, add.inputs[k]).None?
    {
      var candidate := add.inputs[inputIndex];
      ghost var producer := ProducerIndex(cur, candidate);
      if candidate in producers && producers[candidate] < |cur| && IsBase(cur[producers[candidate]]) {
        return Some((producers[candidate], add.inputs[1 - inputIndex]));
      }
    }
    return None;
  }

  /** Use counts and values by map are those of the graph. */
  ghost predicate Tables(g: GraphData, uses: map<Id, nat>, values: map<Id, nat>) {
    && AreUseCounts(g.operations, uses)
    && forall id {:trigger ValueNamed(g.values, id)} ::
         ValueNamed(g.values, id) == if id in values && values[id] < |g.values| then Some(g.values[values[id]]) else None
  }

  lemma TablesBuilt(g: GraphData, uses: map<Id, nat>, values: map<Id, nat>)
    requires AreUseCounts(g.operations, uses) && DistinctValueIds(g.values) && IsValueIndex(g.values, values)
    ensures Tables(g, uses, values)
  {
    forall id ensures ValueNamed(g.values, id)
      == if id in values && values[id] < |g.values| then Some(g.values[values[id]]) else None
    {
      ValueNamedIs(g.values, id);
      if id in values {
        ValueNamedAt(g.values, values[id]);
      }
    }
  }

  method UsedOnceInternally(uses: map<Id, nat>, outputIds: seq<Id>, id: Id, ghost g: GraphData) returns (r: bool)
    requires AreUseCounts(g.operations, uses) && outputIds == g.outputIds
    ensures r <==> SingleInternalUse(g, id)
  {
    assert UseCount(g.operations, id) == if id in uses then uses[id] else 0;
    if id !in uses || uses[id] != 1 || id in outputIds {
      return false;
    }
    return true;
  }

  method BiasAcceptable(graphValues: seq<Value>, values: map<Id, nat>, bias: Id, sum: Id, uses: map<Id, nat>,
                        ghost g: GraphData)
    returns (r: bool)
    requires Tables(g, uses, values) && graphValues == g.values
    ensures r <==> BiasMatches(g.values, bias, sum)
  {
    ghost var biasValue, sumValue := ValueNamed(g.values, bias), ValueNamed(g.values, sum);
    if bias !in values || sum !in values || values[bias] >= |graphValues| || values[sum] >= |graphValues| {
      return false;
    }
    var b, shape := graphValues[values[bias]], graphValues[values[sum]].descriptor.shape;
    if (b.kind != ParameterValue && b.kind != ConstantValue) || shape == []
      || b.descriptor.shape != [shape[|shape| - 1]] {
      return false;
    }
    return true;
  }

  /** The tests on one operation. */
  method FindMatch(cur: seq<Operation>, outputIds: seq<Id>, graphValues: seq<Value>, producers: map<Id, nat>,
                   values: map<Id, nat>, uses: map<Id, nat>, i: nat, ghost g: GraphData)
    returns (r: Option<Match>)
    requires i < |cur| && Locates(cur, producers) && Tables(g, uses, values)
    requires graphValues == g.values && outputIds == g.outputIds
    ensures r == MatchIn(g, cur, i)
    ensures r.Some? ==> r.value.base < |cur| && r.value.add < |cur|
  {
    var gelu := cur[i];
    if !gelu.kind.Gelu? || |gelu.inputs| != 1 || gelu.HasSideEffect() || !ExactGelu(gelu.attributes) {
      return None;
    }
    var sum := gelu.inputs[0];
    ghost var producer := ProducerIndex(cur, sum);
    if sum !in producers || producers[sum] >= |cur| {
      return None;
    }
    var add := cur[producers[sum]];
    var once := UsedOnceInternally(uses, outputIds, sum, g);
    if !add.kind.Add? || |add.inputs| != 2 || add.HasSideEffect() || !once {
      return None;
    }
    var found := FindBase(cur, producers, add);
    if found.None? {
      return None;
    }
    var base, bias := cur[found.value.0], found.value.1;
    var baseOnce := UsedOnceInternally(uses, outputIds, base.output, g);
    if !baseOnce {
      return None;
    }
    var acceptable := BiasAcceptable(graphValues, values, bias, sum, uses, g);
    if !acceptable {
      return None;
    }
    if base.kind.Linear? {
      if !base.HasFlag("bias", false) {
        return None;
      }
    }
    return Some(Match(found.value.0, producers[sum], bias));
  }

  // ----- what is removed -----

  /** Identifiers of projections and additions that the first m operations absorb. */
  ghost function AbsorbedIds(g: GraphData, m: nat): set<Id>
    requires m <= |g.operations|
  {
    if m == 0 then {}
    else
      var chain := MatchAt(g, m - 1);
      AbsorbedIds(g, m - 1)
      + if chain.Some? && chain.value.base < |g.operations| && chain.value.add < |g.operations|
        then {g.operations[chain.value.base].id, g.operations[chain.value.add].id} else {}
  }

  ghost function AbsorbedValues(g: GraphData, m: nat): set<Id>
    requires m <= |g.operations|
  {
    if m == 0 then {}
    else
      var chain := MatchAt(g, m - 1);
      AbsorbedValues(g, m - 1)
      + if chain.Some? && chain.value.base < |g.operations| && chain.value.add < |g.operations|
        then {g.operations[chain.value.base].output, g.operations[chain.value.add].output} else {}
  }

  /** Some chain ends among the first m operations. */
  predicate HasMatch(g: GraphData, m: nat)
    requires m <= |g.operations|
  {
    m > 0 && (HasMatch(g, m - 1) || MatchAt(g, m - 1).Some?)
  }

  /** What is a bias is produced by no projection. */
  lemma BiasIsNoBase(g: GraphData, bias: Id, sum: Id)
    requires WellFormedGraph(g) && BiasMatches(g.values, bias, sum)
    ensures BaseAt(g.operations, bias).None?
  {
    ValueNamedIs(g.values, bias);
    ProducerIndexIs(g.operations, bias);
    var p := ProducerIndex(g.operations, bias);
    if p.Some? {
      assert g.operations[p.value] in g.operations;
      assert RoleOk(g.operations[p.value].kind, ValueNamed(g.values, bias).value.kind);
    }
  }

  lemma ChainIsMatched(g: GraphData, i: nat, m: Match)
    requires WellFormedGraph(g) && IsChain(g, i, m)
    ensures MatchAt(g, i) == Some(m)
  {
    var ops := g.operations;
    ProducerIndexAt(ops, m.add);
    ProducerIndexAt(ops, m.base);
    BiasIsNoBase(g, m.bias, ops[m.add].output);
    hide WellFormedGraph, ProducerIndex, BiasMatches, SingleInternalUse, BiasFree;
    var add := ops[m.add];
    if add.inputs == [ops[m.base].output, m.bias] {
      assert add.inputs[0] == ops[m.base].output && add.inputs[1] == m.bias;
    } else {
      assert add.inputs[0] == m.bias && add.inputs[1] == ops[m.base].output;
    }
    assert BaseOf(ops, add) == Some((m.base, m.bias));
  }

  lemma {:induction false} MatchUpTo(g: GraphData, m: nat)
    requires m <= |g.operations|
    ensures HasMatch(g, m) <==> exists i: nat {:trigger MatchAt(g, i)} :: i < m && MatchAt(g, i).Some?
  {
    hide MatchAt;
    if m > 0 {
      MatchUpTo(g, m - 1);
      if HasMatch(g, m) && !HasMatch(g, m - 1) {
        assert MatchAt(g, m - 1).Some?;
      }
    }
  }

  /** Something matches exactly when some chain is there. */
  lemma MatchSomewhere(g: GraphData)
    ensures WellFormedGraph(g) ==> (HasMatch(g, |g.operations|) <==> ExistsChain(g))
  {
    MatchUpTo(g, |g.operations|);
    hide MatchAt, WellFormedGraph, IsChain;
    if HasMatch(g, |g.operations|) {
      var i: nat :| i < |g.operations| && MatchAt(g, i).Some?;
      MatchIsChain(g, i);
    }
    if WellFormedGraph(g) && ExistsChain(g) {
      var i: nat, m :| IsChain(g, i, m);
      ChainIsMatched(g, i, m);
      ChainIsHere(g, i, m);
    }
  }

  lemma ChainIsHere(g: GraphData, i: nat, m: Match)
    requires IsChain(g, i, m)
    ensures i < |g.operations|
  {
  }

  ghost predicate ExistsChain(g: GraphData) {
    exists i: nat, m :: IsChain(g, i, m)
  }

  /** The graph with every chain rewritten at its GELU, before anything is erased. */
  function FusedGraph(g: GraphData): GraphData {
    g.(operations := FusedOperations(g, |g.operations|))
  }

  /** The graph after the pass. */
  ghost function Fuse(g: GraphData): GraphData {
    Erasure.Erased(FusedGraph(g), AbsorbedIds(g, |g.operations|), AbsorbedValues(g, |g.operations|))
  }

  lemma {:induction false} NoMatchNothingAbsorbed(g: GraphData, m: nat)
    requires m <= |g.operations| && !HasMatch(g, m)
    ensures AbsorbedIds(g, m) == {} && AbsorbedValues(g, m) == {}
    ensures forall i | 0 <= i < m :: MatchAt(g, i).None?
  {
    if m > 0 {
      NoMatchNothingAbsorbed(g, m - 1);
    }
  }

  /** Where nothing matches nothing changes. */
  lemma NoMatchNoChange(g: GraphData)
    requires !HasMatch(g, |g.operations|)
    ensures Fuse(g) == g
  {
    NoMatchNothingAbsorbed(g, |g.operations|);
    assert FusedOperations(g, |g.operations|) == g.operations;
    Erasure.NothingKeptOut(g.operations, g.values);
  }

  lemma {:induction false} MatchAbsorbs(g: GraphData, m: nat) returns (j: nat)
    requires m <= |g.operations| && HasMatch(g, m)
    ensures j < |g.operations| && g.operations[j].id in AbsorbedIds(g, m)
  {
    if MatchAt(g, m - 1).Some? {
      MatchIsChain(g, m - 1);
      j := MatchAt(g, m - 1).value.base;
    } else {
      j := MatchAbsorbs(g, m - 1);
    }
  }

  /** Where something matches the graph changes. */
  lemma MatchShows(g: GraphData)
    requires HasMatch(g, |g.operations|)
    ensures Fuse(g) != g
  {
    var j := MatchAbsorbs(g, |g.operations|);
    ErasingShows(g.operations, FusedOperations(g, |g.operations|), AbsorbedIds(g, |g.operations|), j);
  }

  /** `run`: one sweep with the use counts of the start; every chain of the original graph is fused. */
  method FuseBiasGelu(graph: Graph) returns (changed: bool)
    requires DistinctValueIds(graph.values) && DistinctOutputs(graph.operations)
    modifies graph
    ensures graph.Data() == Fuse(old(graph.Data()))
    ensures changed <==> HasMatch(old(graph.Data()), |old(graph.operations)|)
    ensures WellFormedGraph(old(graph.Data())) ==>
      (changed <==> ExistsChain(old(graph.Data())))
  {
    ghost var g := graph.Data();
    MatchSomewhere(g);
    hide MatchAt, ExistsChain, WellFormedGraph;
    var producers, unique := IndexByOutput(graph.operations);
    var values := ValueIndexById(graph.values);
    var uses := ValueUseCounts(graph.operations);
    IndexLocates(g.operations, producers);
    TablesBuilt(g, uses, values);
    var removedOperations, removedValues;
    removedOperations, removedValues, changed := FuseAll(graph, producers, values, uses, g);
    EraseOperations(graph, removedOperations);
    EraseValues(graph, removedValues);
  }

  method FuseAll(graph: Graph, producers: map<Id, nat>, values: map<Id, nat>, uses: map<Id, nat>, ghost g: GraphData)
    returns (removedOperations: set<Id>, removedValues: set<Id>, changed: bool)
    requires g == graph.Data() && Locates(g.operations, producers) && Tables(g, uses, values)
    modifies graph`operations
    ensures graph.Data() == FusedGraph(g)
    ensures removedOperations == AbsorbedIds(g, |g.operations|) && removedValues == AbsorbedValues(g, |g.operations|)
    ensures changed <==> HasMatch(g, |g.operations|)
  {
    assert FusedOperations(g, 0) == g.operations;
    assert HasMatch(g, 0) == false && AbsorbedIds(g, 0) == {} && AbsorbedValues(g, 0) == {};
    hide MatchAt, FusedOperations, Locates, Tables, AbsorbedIds, AbsorbedValues, HasMatch;
    removedOperations, removedValues, changed := {}, {}, false;
    for i := 0 to |graph.operations|
      invariant graph.Data() == g.(operations := FusedOperations(g, i))
      invariant removedOperations == AbsorbedIds(g, i) && removedValues == AbsorbedValues(g, i)
      invariant changed <==> HasMatch(g, i)
    {
      var found := FuseOne(graph, producers, values, uses, i, g);
      NextAbsorbed(g, i);
      if found.Some? {
        var base, add := found.value.0, found.value.1;
        removedOperations := removedOperations + {base.id, add.id};
        removedValues := removedValues + {base.output, add.output};
        changed := true;
      }
    }
  }

  /** What the operation at i adds to what is absorbed. */
  lemma NextAbsorbed(g: GraphData, i: nat)
    requires i < |g.operations|
    ensures HasMatch(g, i + 1) <==> HasMatch(g, i) || MatchAt(g, i).Some?
    ensures MatchAt(g, i).None? ==> AbsorbedIds(g, i + 1) == AbsorbedIds(g, i)
    ensures MatchAt(g, i).None? ==> AbsorbedValues(g, i + 1) == AbsorbedValues(g, i)
    ensures MatchAt(g, i).Some? ==>
      var m := MatchAt(g, i).value;
      m.base < |g.operations| && m.add < |g.operations| ==>
        var base, add := g.operations[m.base], g.operations[m.add];
        && AbsorbedIds(g, i + 1) == AbsorbedIds(g, i) + {base.id, add.id}
        && AbsorbedValues(g, i + 1) == AbsorbedValues(g, i) + {base.output, add.output}
  {
    hide MatchAt;
  }

  /** One iteration: the projection and the addition of the chain that was fused, if any. */
  method FuseOne(graph: Graph, producers: map<Id, nat>, values: map<Id, nat>, uses: map<Id, nat>, i: nat,
                 ghost g: GraphData)
    returns (found: Option<(Operation, Operation)>)
    requires i < |g.operations| && graph.Data() == g.(operations := FusedOperations(g, i))
    requires Locates(g.operations, producers) && Tables(g, uses, values)
    modifies graph`operations
    ensures graph.Data() == g.(operations := FusedOperations(g, i + 1))
    ensures found.Some? <==> MatchAt(g, i).Some?
    ensures found.Some? ==>
      var m := MatchAt(g, i).value;
      m.base < |g.operations| && m.add < |g.operations|
      && found.value == (g.operations[m.base], g.operations[m.add])
  {
    forall k | 0 <= k < |g.operations| ensures graph.operations[k].output == g.operations[k].output {
      FusedKeepsNames(g, i, k);
    }
    StillLocates(g.operations, graph.operations, producers);
    var chain := FindMatch(graph.operations, graph.outputIds, graph.values, producers, values, uses, i, g);
    MatchUnaffected(g, i);
    if chain.None? {
      assert FusedOperations(g, i + 1) == FusedOperations(g, i);
      return None;
    }
    MatchIsChain(g, i);
    FusedIsNoCandidate(g, i, chain.value.base);
    FusedIsNoCandidate(g, i, chain.value.add);
    var base, add, gelu :=
      graph.operations[chain.value.base], graph.operations[chain.value.add], graph.operations[i];
    graph.operations := graph.operations[i := FusedOperation(base, add, gelu, chain.value.bias)];
    assert graph.operations == FusedOperations(g, i + 1);
    return Some((base, add));
  }

  // ----- order and well-formedness -----

  lemma FusedInputs(g: GraphData, i: nat, id: Id)
    requires i < |g.operations| && MatchAt(g, i).Some? && id in FusedAt(g, i).inputs
    ensures IsChain(g, i, MatchAt(g, i).value)
    ensures var m := MatchAt(g, i).value;
      id in g.operations[m.base].inputs || (id == m.bias && id in g.operations[m.add].inputs)
  {
    MatchIsChain(g, i);
  }

  /** The projection comes before the addition, which comes before the GELU. */
  lemma ChainInOrder(g: GraphData, i: nat, m: Match)
    requires Ordered(g) && IsChain(g, i, m)
    ensures m.base < m.add < i
  {
    assert OperationOrder.Feeds(g.operations, m.base, m.add);
    assert OperationOrder.Feeds(g.operations, m.add, i);
    FeedsForward(g.operations, m.base, m.add);
    FeedsForward(g.operations, m.add, i);
  }

  lemma FusedProducedBefore(g: GraphData, i: nat, k: nat)
    requires Ordered(g) && i < |g.operations| && k < |FusedAt(g, i).inputs|
    ensures ProducedBefore(g.operations, i, FusedAt(g, i).inputs[k])
  {
    var id := FusedAt(g, i).inputs[k];
    if MatchAt(g, i).Some? {
      FusedInputs(g, i, id);
      var m := MatchAt(g, i).value;
      ChainInOrder(g, i, m);
      if id in g.operations[m.base].inputs {
        OperandBefore(g.operations, m.base, id, i);
      } else {
        OperandBefore(g.operations, m.add, id, i);
      }
    }
  }

  lemma OperandBefore(ops: seq<Operation>, p: nat, id: Id, i: nat)
    requires TopologicallyOrdered(ops) && p <= i < |ops| && id in ops[p].inputs
    ensures ProducedBefore(ops, i, id)
  {
    var k :| 0 <= k < |ops[p].inputs| && ops[p].inputs[k] == id;
    assert ProducedBefore(ops, p, ops[p].inputs[k]);
    var j :| 0 <= j < p && ops[j].output == id;
  }

  lemma FusedResolved(g: GraphData, i: nat)
    requires WellFormedGraph(g) && i < |g.operations|
    ensures Resolved(Descriptors(g.values), FusedAt(g, i))
  {
    var types := Descriptors(g.values);
    assert Resolved(types, g.operations[i]);
    if MatchAt(g, i).Some? {
      MatchIsChain(g, i);
      var m := MatchAt(g, i).value;
      assert Resolved(types, g.operations[m.base]) && Resolved(types, g.operations[m.add]);
      assert m.bias in g.operations[m.add].inputs;
    }
  }

  lemma FusedGraphIsOrdered(g: GraphData)
    requires Ordered(g)
    ensures Ordered(FusedGraph(g))
  {
    var r := FusedOperations(g, |g.operations|);
    forall i | 0 <= i < |r| ensures Resolved(Descriptors(g.values), r[i]) {
      FusedResolved(g, i);
    }
    forall i | 0 <= i < |r|
      ensures r[i].id == g.operations[i].id && r[i].output == g.operations[i].output
      ensures r[i].kind == g.operations[i].kind || (!r[i].IsDeclaration() && !g.operations[i].IsDeclaration())
    {
      FusedKeepsNames(g, |g.operations|, i);
      FusedIsNoCandidate(g, |g.operations|, i);
    }
    SameOutputsSameProducers(g, r);
    FusedKeepsOrder(g);
  }

  lemma FusedKeepsOrder(g: GraphData)
    requires Ordered(g)
    ensures TopologicallyOrdered(FusedOperations(g, |g.operations|))
  {
    hide MatchAt, FusedAt, WellFormedGraph;
    var r := FusedOperations(g, |g.operations|);
    forall k | 0 <= k < |r| ensures r[k].output == g.operations[k].output {
      FusedKeepsNames(g, |g.operations|, k);
    }
    forall i: nat, k: nat | i < |r| && k < |r[i].inputs| ensures ProducedBefore(r, i, r[i].inputs[k]) {
      FusedProducedBefore(g, i, k);
      SamePrefixProduces(g.operations, r, i, r[i].inputs[k]);
    }
  }

  // ----- no operation is consumed twice -----

  /** Only the GELU of a chain uses its sum. */
  lemma SumUsedOnce(g: GraphData, i: nat, m: Match, j: nat)
    requires IsChain(g, i, m) && j < |g.operations| && g.operations[m.add].output in g.operations[j].inputs
    ensures j == i
  {
    SingleUse(g.operations, i, j, g.operations[m.add].output);
  }

  /** Only the addition of a chain uses its product, and it uses it once. */
  lemma ProductUsedOnce(g: GraphData, i: nat, m: Match, j: nat)
    requires IsChain(g, i, m) && j < |g.operations| && g.operations[m.base].output in g.operations[j].inputs
    ensures j == m.add && m.bias != g.operations[m.base].output
  {
    var id := g.operations[m.base].output;
    assert id in g.operations[m.add].inputs;
    SingleUse(g.operations, m.add, j, id);
    assert g.operations[m.add].inputs != [id, id] by {
      assert multiset([id, id])[id] == 2;
    }
  }

  /** Two chains share nothing: neither the addition nor the projection. */
  lemma ChainsDisjoint(g: GraphData, i: nat, j: nat)
    requires Ordered(g) && i < |g.operations| && j < |g.operations|
    requires MatchAt(g, i).Some? && MatchAt(g, j).Some?
    requires MatchAt(g, i).value.add == MatchAt(g, j).value.add || MatchAt(g, i).value.base == MatchAt(g, j).value.base
    ensures i == j
  {
    MatchIsChain(g, i);
    MatchIsChain(g, j);
    var m, n := MatchAt(g, i).value, MatchAt(g, j).value;
    if m.base == n.base {
      ProductUsedOnce(g, i, m, n.add);
    }
    SumUsedOnce(g, i, m, j);
  }

  /** Operation j is the projection or the addition of a chain ending among the first m operations. */
  ghost predicate IsAbsorbed(g: GraphData, m: nat, j: nat)
    requires m <= |g.operations|
  {
    m > 0
    && (IsAbsorbed(g, m - 1, j)
        || (MatchAt(g, m - 1).Some? && (MatchAt(g, m - 1).value.base == j || MatchAt(g, m - 1).value.add == j)))
  }

  lemma {:induction false} AbsorbedBy(g: GraphData, m: nat, j: nat) returns (i: nat)
    requires m <= |g.operations| && IsAbsorbed(g, m, j)
    ensures i < m && MatchAt(g, i).Some? && (MatchAt(g, i).value.base == j || MatchAt(g, i).value.add == j)
  {
    if IsAbsorbed(g, m - 1, j) {
      i := AbsorbedBy(g, m - 1, j);
    } else {
      i := m - 1;
    }
  }

  lemma {:induction false} ChainAbsorbed(g: GraphData, m: nat, i: nat)
    requires i < m <= |g.operations| && MatchAt(g, i).Some?
    ensures IsAbsorbed(g, m, MatchAt(g, i).value.base) && IsAbsorbed(g, m, MatchAt(g, i).value.add)
  {
    if i < m - 1 {
      ChainAbsorbed(g, m - 1, i);
    }
  }

  /** What an absorbed identifier or value stands for. */
  lemma {:induction false} AbsorbedIs(g: GraphData, m: nat, j: nat)
    requires DistinctOperationIds(g.operations) && DistinctOutputs(g.operations)
    requires m <= |g.operations| && j < |g.operations|
    ensures g.operations[j].id in AbsorbedIds(g, m) <==> IsAbsorbed(g, m, j)
    ensures g.operations[j].output in AbsorbedValues(g, m) <==> IsAbsorbed(g, m, j)
  {
    hide MatchAt, DistinctOperationIds, DistinctOutputs;
    if m > 0 {
      AbsorbedIs(g, m - 1, j);
      MatchInRange(g, m - 1);
      var chain := MatchAt(g, m - 1);
      if chain.Some? {
        SameName(g.operations, chain.value.base, j);
        SameName(g.operations, chain.value.add, j);
      }
    }
  }

  lemma MatchInRange(g: GraphData, i: nat)
    requires i < |g.operations|
    ensures MatchAt(g, i).Some? ==> MatchAt(g, i).value.base < |g.operations| && MatchAt(g, i).value.add < |g.operations|
  {
    hide MatchAt;
    if MatchAt(g, i).Some? {
      MatchIsChain(g, i);
    }
  }

  lemma SameName(ops: seq<Operation>, p: nat, j: nat)
    requires DistinctOperationIds(ops) && DistinctOutputs(ops) && p < |ops| && j < |ops|
    ensures ops[p].id == ops[j].id <==> p == j
    ensures ops[p].output == ops[j].output <==> p == j
  {
  }

  /** A fused operation uses no absorbed result. */
  lemma FusedUsesNothingAbsorbed(g: GraphData, i: nat, j: nat, p: nat)
    requires Ordered(g) && i < |g.operations| && j < |g.operations| && p < |g.operations|
    requires MatchAt(g, i).Some? && MatchAt(g, j).Some?
    requires p == MatchAt(g, i).value.base || p == MatchAt(g, i).value.add
    ensures g.operations[p].output !in FusedAt(g, j).inputs
  {
    hide MatchAt, Ordered, SingleInternalUse, BiasMatches, BiasFree;
    MatchIsChain(g, i);
    MatchIsChain(g, j);
    var m, n, id := MatchAt(g, i).value, MatchAt(g, j).value, g.operations[p].output;
    UserOfAbsorbed(g, i, m, p, n.base);
    UserOfAbsorbed(g, i, m, p, n.add);
    assert id !in g.operations[n.base].inputs;
    if n.add == m.add {
      ChainsDisjoint(g, i, j);
    }
    assert n.bias in g.operations[n.add].inputs;
    assert id != n.bias;
  }

  /** Who may use an absorbed result. */
  lemma UserOfAbsorbed(g: GraphData, i: nat, m: Match, p: nat, k: nat)
    requires IsChain(g, i, m) && (p == m.base || p == m.add) && k < |g.operations|
    ensures g.operations[p].output in g.operations[k].inputs ==> k == if p == m.add then i else m.add
    ensures g.operations[p].output == m.bias ==> p == m.add
  {
    if g.operations[p].output in g.operations[k].inputs {
      if p == m.add {
        SumUsedOnce(g, i, m, k);
      } else {
        ProductUsedOnce(g, i, m, k);
      }
    }
    if p == m.base {
      assert g.operations[p].output in g.operations[m.add].inputs;
      ProductUsedOnce(g, i, m, m.add);
    }
  }

  /** Nothing that stays uses an absorbed result. */
  lemma AbsorbedUnused(g: GraphData, j: nat, p: nat)
    requires Ordered(g) && j < |g.operations| && p < |g.operations|
    requires g.operations[p].output in FusedAt(g, j).inputs && IsAbsorbed(g, |g.operations|, p)
    ensures IsAbsorbed(g, |g.operations|, j)
  {
    var ops := g.operations;
    var i := AbsorbedBy(g, |ops|, p);
    MatchIsChain(g, i);
    ChainAbsorbed(g, |ops|, i);
    if MatchAt(g, j).Some? {
      FusedUsesNothingAbsorbed(g, i, j, p);
    } else {
      UserOfAbsorbed(g, i, MatchAt(g, i).value, p, j);
    }
  }
}
