/** cpp/src/passes/constant_folding_pass.cpp */
module ConstantFolding {
  import opened Basics
  import opened GraphIR
  import opened Shapes
  import opened TensorSizes
  import opened OperationOrder
  import opened Sequential
  import opened Tensors
  import opened Evaluator
  import opened SemanticVerifier
  import opened GraphInvariants
  import opened RewriteUtils
  import opened PassFramework
  import opened CopyElimination

  // ----- folding scalars -----

  predicate InInt64(x: int) {
    INT64_MIN <= x <= INT64_MAX
  }

  /** An integer result is folded only when it fits. */
  function FoldInteger(x: int): Option<Json> {
    if InInt64(x) then Some(JInt(x)) else None
  }

  /** `fold_scalar` */
  function FoldScalar(A: Arith, kind: OperationType, operands: seq<Json>): Option<Json> {
    if kind.Gelu? && |operands| == 1 && IsNumber(operands[0]) then Some(JFloat(A.foldGelu(operands[0])))
    else if |operands| != 2 || !IsNumber(operands[0]) || !IsNumber(operands[1]) then None
    else
      var integral := operands[0].JInt? && operands[1].JInt?;
      match kind
      case Add =>
        if integral then FoldInteger(operands[0].integer + operands[1].integer)
        else Some(JFloat(A.foldAdd(operands[0], operands[1])))
      case Multiply =>
        if integral then FoldInteger(operands[0].integer * operands[1].integer)
        else Some(JFloat(A.foldMul(operands[0], operands[1])))
      case Divide =>
        if A.isZero(operands[1]) then None else Some(JFloat(A.foldDiv(operands[0], operands[1])))
      case _ => None
  }

  /** The operator a foldable kind applies to two elements. */
  function ElementOperator(A: Arith, kind: OperationType): Option<(Scalar, Scalar) -> Scalar> {
    match kind
    case Add => Some(A.add)
    case Multiply => Some(A.mul)
    case Divide => Some(A.div)
    case _ => None
  }

  /** What a foldable operation computes from the elements its literals stand for. */
  function ElementResult(A: Arith, kind: OperationType, literals: seq<Json>): Scalar
    requires FoldScalar(A, kind, literals).Some?
  {
    if kind.Gelu? then A.gelu(A.literal(literals[0]))
    else if ElementOperator(A, kind).None? then A.zero
    else ElementOperator(A, kind).value(A.literal(literals[0]), A.literal(literals[1]))
  }

  // ----- which operations fold -----

  function FindProducer(ops: seq<Operation>, id: Id): Option<Operation> {
    if ops == [] then None else if ops[0].output == id then Some(ops[0]) else FindProducer(ops[1..], id)
  }

  lemma {:induction false} FindProducerAt(ops: seq<Operation>, k: nat)
    requires DistinctOutputs(ops) && k < |ops|
    ensures FindProducer(ops, ops[k].output) == Some(ops[k])
  {
    if k > 0 {
      assert ops[0].output != ops[k].output;
      FindProducerAt(ops[1..], k - 1);
    }
  }

  lemma {:induction false} FoundProducer(ops: seq<Operation>, id: Id)
    requires FindProducer(ops, id).Some?
    ensures FindProducer(ops, id).value in ops && FindProducer(ops, id).value.output == id
  {
    if ops[0].output != id {
      FoundProducer(ops[1..], id);
    }
  }

  /** The literal of a scalar constant operand. */
  function ConstantOperand(ops: seq<Operation>, id: Id): Option<Json> {
    var producer := FindProducer(ops, id);
    if producer.None? || !producer.value.kind.Constant? || "value" !in producer.value.attributes
      || producer.value.attributes["value"].JArray? || producer.value.attributes["value"].JObject?
    then None else Some(producer.value.attributes["value"])
  }

  /** The literals of all operands, when all are constants. */
  function ConstantOperands(ops: seq<Operation>, ids: seq<Id>): Option<seq<Json>> {
    if ids == [] then Some([])
    else
      var earlier, last := ConstantOperands(ops, ids[..|ids| - 1]), ConstantOperand(ops, ids[|ids| - 1]);
      if earlier.None? || last.None? then None else Some(earlier.value + [last.value])
  }

  predicate FoldableKind(kind: OperationType) {
    kind.Add? || kind.Multiply? || kind.Divide? || kind.Gelu?
  }

  /** The literal an operation folds to in this graph, if any. */
  function Folded(A: Arith, types: Types, ops: seq<Operation>, op: Operation): Option<Json> {
    if !FoldableKind(op.kind) || op.HasSideEffect() || op.output !in types || types[op.output].shape != [] then None
    else
      var operands := ConstantOperands(ops, op.inputs);
      if operands.None? then None else FoldScalar(A, op.kind, operands.value)
  }

  const MAXIMUM_FOLDED_ELEMENTS: int := 1024

  function TypeName(kind: OperationType): string {
    match kind
    case Add => "Add"
    case Multiply => "Mul"
    case Divide => "Div"
    case _ => "GELU"
  }

  function FoldedOperation(op: Operation, value: Json): Operation {
    op.(kind := Constant, inputs := [],
        attributes := map["value" := value, "folded_from" := JString(TypeName(op.kind)),
                          "maximum_folded_elements" := JInt(MAXIMUM_FOLDED_ELEMENTS)])
  }

  /** The result becomes a constant value, unless it is declared. */
  function FoldedValues(g: GraphData, id: Id): (r: seq<Value>)
    ensures |r| == |g.values|
  {
    seq(|g.values|, k requires 0 <= k < |g.values| =>
      if g.values[k].id == id && id !in g.outputIds then g.values[k].(kind := ConstantValue) else g.values[k])
  }

  /** Visiting operation i. */
  function FoldStep(A: Arith, g: GraphData, i: nat): GraphData
    requires i < |g.operations|
  {
    var value := Folded(A, Descriptors(g.values), g.operations, g.operations[i]);
    if value.None? then g
    else g.(operations := g.operations[i := FoldedOperation(g.operations[i], value.value)],
            values := FoldedValues(g, g.operations[i].output))
  }

  /** Visiting the first m operations in order. */
  function FoldSweep(A: Arith, g: GraphData, m: nat): (h: GraphData)
    requires m <= |g.operations|
    ensures |h.operations| == |g.operations|
  {
    if m == 0 then g else FoldStep(A, FoldSweep(A, g, m - 1), m - 1)
  }

  lemma SweepUnfolds(A: Arith, g: GraphData, m: nat)
    requires m <= |g.operations|
    ensures FoldSweep(A, g, m) == if m == 0 then g else FoldStep(A, FoldSweep(A, g, m - 1), m - 1)
  {
    hide FoldStep;
  }

  /** If operation i folds here, its literal is the element the operation would compute. */
  predicate SoundFold(A: Arith, g: GraphData, i: nat)
    requires i < |g.operations|
  {
    var op, types := g.operations[i], Descriptors(g.values);
    var folded := Folded(A, types, g.operations, op);
    folded.Some? ==>
      A.literal(folded.value) == ElementResult(A, op.kind, ConstantOperands(g.operations, op.inputs).value)
  }

  /** ... for every operation the sweep actually folds; nothing is asked where nothing folds. */
  predicate SoundFolds(A: Arith, g: GraphData, m: nat)
    requires m <= |g.operations|
  {
    m > 0 ==> SoundFolds(A, g, m - 1) && SoundFold(A, FoldSweep(A, g, m - 1), m - 1)
  }

  // ----- the pass -----

  /** Collects the operand literals; None as soon as one is not a scalar constant. */
  method CollectOperands(ops: seq<Operation>, producers: map<Id, nat>, ids: seq<Id>) returns (r: Option<seq<Json>>)
    requires DistinctOutputs(ops) && IsProducerIndex(ops, producers)
    ensures r == ConstantOperands(ops, ids)
  {
    var operands: seq<Json> := [];
    for k := 0 to |ids|
      invariant ConstantOperands(ops, ids[..k]) == Some(operands)
    {
      assert ids[..k + 1][..k] == ids[..k];
      if ids[k] in producers {
        FindProducerAt(ops, producers[ids[k]]);
      } else {
        assert !Produced(ops, ids[k]);
        NoProducer(ops, ids[k]);
      }
      if ids[k] !in producers || !ops[producers[ids[k]]].kind.Constant?
        || "value" !in ops[producers[ids[k]]].attributes
        || ops[producers[ids[k]]].attributes["value"].JArray? || ops[producers[ids[k]]].attributes["value"].JObject? {
        NotAllConstant(ops, ids, k + 1);
        return None;
      }
      operands := operands + [ops[producers[ids[k]]].attributes["value"]];
    }
    assert ids[..|ids|] == ids;
    return Some(operands);
  }

  lemma {:induction false} NoProducer(ops: seq<Operation>, id: Id)
    requires forall j | 0 <= j < |ops| :: ops[j].output != id
    ensures FindProducer(ops, id).None?
  {
    if ops != [] {
      NoProducer(ops[1..], id);
    }
  }

  lemma {:induction false} NotAllConstant(ops: seq<Operation>, ids: seq<Id>, k: nat)
    requires k <= |ids| && ConstantOperands(ops, ids[..k]).None?
    ensures ConstantOperands(ops, ids).None?
    decreases |ids| - k
  {
    if k < |ids| {
      assert ids[..k + 1][..k] == ids[..k];
      NotAllConstant(ops, ids, k + 1);
    } else {
      assert ids[..k] == ids;
    }
  }

  /** The test on one operation, up to the folded literal. */
  method FoldedLiteral(A: Arith, graph: Graph, producers: map<Id, nat>, values: map<Id, nat>, op: Operation)
    returns (r: Option<Json>)
    requires DistinctValueIds(graph.values) && IsValueIndex(graph.values, values)
    requires DistinctOutputs(graph.operations) && IsProducerIndex(graph.operations, producers)
    ensures r == Folded(A, Descriptors(graph.values), graph.operations, op)
  {
    if !FoldableKind(op.kind) || op.HasSideEffect() {
      return None;
    }
    ValueIndexed(graph.values, values, op.output);
    if op.output !in values {
      return None;
    }
    var shape := graph.values[values[op.output]].descriptor.shape;
    var count := CheckedTensorElementCount(shape);
    if count.Err? || count.value > MAXIMUM_FOLDED_ELEMENTS || count.value != 1 || |shape| != 0 {
      assert shape != [];
      return None;
    }
    var operands := CollectOperands(graph.operations, producers, op.inputs);
    if operands.None? {
      return None;
    }
    return FoldScalar(A, op.kind, operands.value);
  }

  /** One iteration. */
  method VisitOperation(A: Arith, graph: Graph, producers: map<Id, nat>, values: map<Id, nat>, i: nat)
    returns (folded: bool)
    requires DistinctValueIds(graph.values) && IsValueIndex(graph.values, values)
    requires DistinctOutputs(graph.operations) && IsProducerIndex(graph.operations, producers)
    requires i < |graph.operations|
    modifies graph
    ensures graph.Data() == FoldStep(A, old(graph.Data()), i)
    ensures folded <==> Folded(A, Descriptors(old(graph.values)), old(graph.operations), old(graph.operations[i])).Some?
    ensures !folded ==> graph.Data() == old(graph.Data())
    ensures |graph.operations| == |old(graph.operations)| && |graph.values| == |old(graph.values)|
    ensures forall k | 0 <= k < |graph.operations| :: graph.operations[k].output == old(graph.operations[k].output)
    ensures forall k | 0 <= k < |graph.values| :: graph.values[k].id == old(graph.values[k].id)
  {
    var operation := graph.operations[i];
    var value := FoldedLiteral(A, graph, producers, values, operation);
    if value.None? {
      return false;
    }
    ghost var g := graph.Data();
    ValueIndexed(graph.values, values, operation.output);
    graph.operations := graph.operations[i := FoldedOperation(operation, value.value)];
    var index := values[operation.output];
    if operation.output !in graph.outputIds {
      graph.values := graph.values[index := graph.values[index].(kind := ConstantValue)];
    }
    assert graph.values == FoldedValues(g, operation.output);
    return true;
  }

  /** `run`: one sweep in graph order, each operation seeing what was folded before it. */
  method FoldConstants(A: Arith, graph: Graph) returns (changed: bool)
    requires DistinctValueIds(graph.values) && DistinctOutputs(graph.operations)
    modifies graph
    ensures graph.Data() == FoldSweep(A, old(graph.Data()), |old(graph.operations)|)
    ensures changed <==> graph.Data() != old(graph.Data())
  {
    hide FoldStep, Folded, FoldSweep;
    SweepStarts(A, graph.Data());
    ghost var g := graph.Data();
    var producers, unique := IndexByOutput(graph.operations);
    var values := ValueIndexById(graph.values);
    changed := false;
    for i := 0 to |graph.operations|
      invariant |graph.operations| == |g.operations| && graph.Data() == FoldSweep(A, g, i)
      invariant DistinctValueIds(graph.values) && IsValueIndex(graph.values, values)
      invariant DistinctOutputs(graph.operations) && IsProducerIndex(graph.operations, producers)
      invariant changed <==> graph.Data() != g
    {
      ghost var before, ids := graph.operations, graph.values;
      SweepGoesOn(A, g, i);
      var folded := VisitOperation(A, graph, producers, values, i);
      SameIds(ids, graph.values, values);
      if folded {
        changed := true;
        producers, unique := IndexByOutput(graph.operations);
      }
    }
  }

  lemma SweepStarts(A: Arith, g: GraphData)
    ensures FoldSweep(A, g, 0) == g
  {
  }

  /** One operation more; a fold shows for good. */
  lemma SweepGoesOn(A: Arith, g: GraphData, i: nat)
    requires i < |g.operations|
    ensures var k := FoldSweep(A, g, i);
      && FoldSweep(A, g, i + 1) == FoldStep(A, k, i)
      && (Folded(A, Descriptors(k.values), k.operations, k.operations[i]).Some? ==> FoldSweep(A, g, i + 1) != g)
      && (Folded(A, Descriptors(k.values), k.operations, k.operations[i]).None? ==> FoldSweep(A, g, i + 1) == k)
  {
    SweepLeavesRest(A, g, i);
    var k := FoldSweep(A, g, i);
    if Folded(A, Descriptors(k.values), k.operations, k.operations[i]).Some? {
      assert FoldSweep(A, g, i + 1).operations[i].kind != g.operations[i].kind;
    }
  }

  lemma SameIds(before: seq<Value>, after: seq<Value>, index: map<Id, nat>)
    requires |before| == |after| && (forall k | 0 <= k < |after| :: after[k].id == before[k].id)
    ensures DistinctValueIds(before) ==> DistinctValueIds(after)
    ensures IsValueIndex(before, index) ==> IsValueIndex(after, index)
  {
    if IsValueIndex(before, index) {
      forall id ensures id in index <==> exists k | 0 <= k < |after| :: after[k].id == id {
        if id in index {
          assert after[index[id]].id == id;
        }
        if k :| 0 <= k < |after| && after[k].id == id {
          assert before[k].id == id;
        }
      }
    }
  }

  // ----- what one step keeps -----

  lemma {:induction false} SameDescriptors(a: seq<Value>, b: seq<Value>)
    requires |a| == |b| && forall k | 0 <= k < |a| :: a[k].id == b[k].id && a[k].descriptor == b[k].descriptor
    ensures Descriptors(a) == Descriptors(b)
  {
    if a != [] {
      SameDescriptors(a[..|a| - 1], b[..|b| - 1]);
    }
  }

  lemma FoldedTypes(g: GraphData, id: Id)
    ensures Descriptors(FoldedValues(g, id)) == Descriptors(g.values)
  {
    SameDescriptors(FoldedValues(g, id), g.values);
  }

  lemma {:induction false} OperandLiterals(ops: seq<Operation>, ids: seq<Id>)
    requires ConstantOperands(ops, ids).Some?
    ensures |ConstantOperands(ops, ids).value| == |ids|
    ensures forall k | 0 <= k < |ids| :: ConstantOperand(ops, ids[k]) == Some(ConstantOperands(ops, ids).value[k])
  {
    if ids != [] {
      OperandLiterals(ops, ids[..|ids| - 1]);
    }
  }

  /** In a solution a constant operand is the tensor of its literal. */
  lemma ConstantOperandValue(A: Arith, feeds: Feeds, g: GraphData, env: Env, id: Id)
    requires Solves(A, feeds, g, env) && ConstantOperand(g.operations, id).Some?
    ensures id in env && env[id].data == [A.literal(ConstantOperand(g.operations, id).value)]
  {
    FoundProducer(g.operations, id);
    var op := FindProducer(g.operations, id).value;
    var j :| 0 <= j < |g.operations| && g.operations[j] == op;
    assert Satisfies(Meaning(A, feeds, Descriptors(g.values)), g.operations[j], env);
    SatisfiedStep(A, feeds, Descriptors(g.values), op, env);
    EvaluateConstant(A, op, Lookup(env, op.inputs), Descriptors(g.values)[op.output].shape);
  }

  lemma EvaluateConstant(A: Arith, op: Operation, operands: seq<Tensor>, shape: Shape)
    requires op.kind.Constant? && EvaluateOperation(A, op, operands, shape).Some?
    ensures ConstantTensor(A, op.attributes, shape) == EvaluateOperation(A, op, operands, shape)
  {
  }

  /** Broadcasting to a scalar combines two scalars. */
  lemma BinaryScalar(f: (Scalar, Scalar) -> Scalar, x: Tensor, y: Tensor)
    requires Binary(f, x, y).Some? && Binary(f, x, y).value.shape == []
    ensures |x.data| == |y.data| == 1
    ensures Binary(f, x, y).value == RawTensor.Tensor([], [f(x.data[0], y.data[0])])
  {
    var r := Binary(f, x, y).value;
    assert x.shape == [] && y.shape == [];
    var c := CoordinateOf(r.shape, 0);
    assert c == [];
    assert r.data[0] == BinaryCell(f, x, y, c);
    assert r.data == [f(x.data[0], y.data[0])];
  }

  /** Evaluating a foldable operation on the tensors of its literals. */
  lemma FoldedEvaluation(A: Arith, op: Operation, operands: seq<Tensor>, literals: seq<Json>)
    requires FoldableKind(op.kind) && |operands| == |literals|
    requires forall k | 0 <= k < |operands| :: operands[k].data == [A.literal(literals[k])]
    requires FoldScalar(A, op.kind, literals).Some?
    requires EvaluateOperation(A, op, operands, []).Some? && EvaluateOperation(A, op, operands, []).value.shape == []
    ensures EvaluateOperation(A, op, operands, []) == Some(RawTensor.Tensor([], [ElementResult(A, op.kind, literals)]))
  {
    if op.kind.Gelu? {
      assert EvaluateOperation(A, op, operands, []) == Some(Map(A.gelu, operands[0]));
      assert Map(A.gelu, operands[0]).data == [A.gelu(A.literal(literals[0]))];
    } else {
      var f := ElementOperator(A, op.kind).value;
      assert EvaluateOperation(A, op, operands, []) == Binary(f, operands[0], operands[1]);
      BinaryScalar(f, operands[0], operands[1]);
    }
  }

  lemma FoldedIsNumber(A: Arith, kind: OperationType, literals: seq<Json>)
    requires FoldScalar(A, kind, literals).Some?
    ensures IsNumber(FoldScalar(A, kind, literals).value)
  {
  }

  /** In a solution an operation that folds computes an element from its literals. */
  lemma FoldedValue(A: Arith, feeds: Feeds, g: GraphData, env: Env, i: nat)
    requires Solves(A, feeds, g, env) && i < |g.operations|
    requires Folded(A, Descriptors(g.values), g.operations, g.operations[i]).Some?
    ensures var op := g.operations[i];
      && op.output in env
      && env[op.output] == RawTensor.Tensor([],
           [ElementResult(A, op.kind, ConstantOperands(g.operations, op.inputs).value)])
  {
    var types, op := Descriptors(g.values), g.operations[i];
    var literals := ConstantOperands(g.operations, op.inputs).value;
    OperandLiterals(g.operations, op.inputs);
    assert Satisfies(Meaning(A, feeds, types), g.operations[i], env);
    SatisfiedStep(A, feeds, types, op, env);
    forall k | 0 <= k < |op.inputs| ensures Lookup(env, op.inputs)[k].data == [A.literal(literals[k])] {
      ConstantOperandValue(A, feeds, g, env, op.inputs[k]);
    }
    FoldedEvaluation(A, op, Lookup(env, op.inputs), literals);
  }

  /** The folded operation is satisfied exactly when its literal is that element. */
  lemma FoldedIsSolved(A: Arith, feeds: Feeds, g: GraphData, env: Env, i: nat)
    requires Solves(A, feeds, g, env) && i < |g.operations|
    requires Folded(A, Descriptors(g.values), g.operations, g.operations[i]).Some?
    ensures Satisfies(Meaning(A, feeds, Descriptors(g.values)),
                      FoldedOperation(g.operations[i],
                        Folded(A, Descriptors(g.values), g.operations, g.operations[i]).value), env)
       <==> SoundFold(A, g, i)
  {
    var types, op := Descriptors(g.values), g.operations[i];
    var literals, value := ConstantOperands(g.operations, op.inputs).value, Folded(A, types, g.operations, op).value;
    FoldedValue(A, feeds, g, env, i);
    FoldedIsNumber(A, op.kind, literals);
    FoldedStep(A, feeds, types, FoldedOperation(op, value), env, value);
    var x, y := A.literal(value), ElementResult(A, op.kind, literals);
    assert [x][0] == x && [y][0] == y;
  }

  lemma FoldedStep(A: Arith, feeds: Feeds, types: Types, op: Operation, env: Env, value: Json)
    requires op.kind.Constant? && op.inputs == [] && "value" in op.attributes && op.attributes["value"] == value
    requires IsNumber(value) && op.output in types && types[op.output].shape == [] && op.output in env
    ensures Satisfies(Meaning(A, feeds, types), op, env) <==> env[op.output] == RawTensor.Tensor([], [A.literal(value)])
  {
    assert Lookup(env, op.inputs) == [];
  }

  /** A step keeps a solution exactly when it is sound. */
  lemma FoldStepSolved(A: Arith, feeds: Feeds, g: GraphData, env: Env, i: nat)
    requires Solves(A, feeds, g, env) && i < |g.operations|
    ensures Solves(A, feeds, FoldStep(A, g, i), env) <==> SoundFold(A, g, i)
  {
    var types := Descriptors(g.values);
    if Folded(A, types, g.operations, g.operations[i]).Some? {
      FoldedIsSolved(A, feeds, g, env, i);
      FoldedTypes(g, g.operations[i].output);
      var h := FoldStep(A, g, i);
      var step := Meaning(A, feeds, types);
      forall k | 0 <= k < |h.operations| && k != i ensures Satisfies(step, h.operations[k], env) {
        assert Satisfies(step, g.operations[k], env);
      }
      assert Models(step, h.operations, env) ==> Satisfies(step, h.operations[i], env);
    }
  }

  /** Folding one operation keeps the graph well-formed and ordered. */
  lemma FoldStepOrdered(A: Arith, g: GraphData, i: nat)
    requires Ordered(g) && i < |g.operations|
    ensures Ordered(FoldStep(A, g, i))
  {
    var types, op := Descriptors(g.values), g.operations[i];
    var value := Folded(A, types, g.operations, op);
    if value.Some? {
      FoldedTypes(g, op.output);
      var r := g.operations[i := FoldedOperation(op, value.value)];
      assert g.operations[i] in g.operations;
      FoldedResolved(types, g.operations, r, i);
      FoldedRoles(g, r, i);
      forall id, k: nat | k <= |r| && ProducedBefore(g.operations, k, id) ensures ProducedBefore(r, k, id) {
        SamePrefixProduces(g.operations, r, k, id);
      }
      forall c, k | 0 <= c < |r| && 0 <= k < |r[c].inputs| ensures ProducedBefore(r, c, r[c].inputs[k]) {
        assert ProducedBefore(g.operations, c, g.operations[c].inputs[k]);
      }
    }
  }

  lemma FoldedResolved(types: Types, ops: seq<Operation>, r: seq<Operation>, i: nat)
    requires AllResolved(types, ops) && i < |ops| == |r| && r == ops[i := r[i]]
    requires r[i].output == ops[i].output && r[i].inputs == [] && r[i].kind.Constant?
    ensures AllResolved(types, r)
  {
    forall k | 0 <= k < |r| ensures Resolved(types, r[k]) {
      assert Resolved(types, ops[k]);
    }
  }

  lemma FoldedRoles(g: GraphData, r: seq<Operation>, i: nat)
    requires WellFormedGraph(g) && i < |g.operations| == |r| && r == g.operations[i := r[i]]
    requires r[i].output == g.operations[i].output && r[i].id == g.operations[i].id && r[i].kind.Constant?
    requires FoldableKind(g.operations[i].kind)
    ensures var h := g.(operations := r, values := FoldedValues(g, r[i].output));
      && ValuesOk(h.values) && RolesOk(h) && InterfaceOk(h) && DistinctOperationIds(r) && DistinctOutputs(r)
      && forall v <- h.values :: Produced(r, v.id)
  {
    var op := g.operations[i];
    var h := g.(operations := r, values := FoldedValues(g, op.output));
    forall v <- h.values ensures Positive(v.descriptor.shape) && ByteSize(v.descriptor) <= UINT64_MAX && Produced(r, v.id) {
      var k :| 0 <= k < |h.values| && h.values[k] == v;
      assert g.values[k] in g.values && Produced(g.operations, g.values[k].id);
      var j :| 0 <= j < |g.operations| && g.operations[j].output == v.id;
      assert r[j].output == v.id;
    }
    forall p <- r, v <- h.values | v.id == p.output ensures RoleOk(p.kind, v.kind) {
      FoldedRole(g, r, i, p, v);
    }
    assert op in g.operations;
    NotAnInput(g, op);
    forall id, kind | Named(g.values, id, kind) && (id != op.output || id in g.outputIds) ensures Named(h.values, id, kind) {
      var k :| 0 <= k < |g.values| && g.values[k].id == id && g.values[k].kind == kind;
      assert h.values[k] == g.values[k];
    }
  }

  lemma FoldedRole(g: GraphData, r: seq<Operation>, i: nat, p: Operation, v: Value)
    requires WellFormedGraph(g) && i < |g.operations| == |r| && r == g.operations[i := r[i]]
    requires r[i].output == g.operations[i].output && r[i].kind.Constant?
    requires FoldableKind(g.operations[i].kind)
    requires p in r && v in FoldedValues(g, r[i].output) && v.id == p.output
    ensures RoleOk(p.kind, v.kind)
  {
    var j :| 0 <= j < |r| && r[j] == p;
    var k :| 0 <= k < |g.values| && FoldedValues(g, r[i].output)[k] == v;
    assert g.operations[j] in g.operations && g.values[k] in g.values;
    if j == i && v.id in g.outputIds {
      OutputKind(g, g.values[k]);
    }
  }

  /** A folded operation passes the verifier: its literal has the declared type. */
  lemma FoldedIsVerified(A: Arith, g: GraphData, i: nat)
    requires GraphVerified(A, g) && i < |g.operations|
    requires Folded(A, Descriptors(g.values), g.operations, g.operations[i]).Some?
    ensures var types := Descriptors(g.values);
      var r := FoldedOperation(g.operations[i], Folded(A, types, g.operations, g.operations[i]).value);
      Resolved(types, r) && OperationOk(A, types, r)
  {
    var types, op := Descriptors(g.values), g.operations[i];
    assert Resolved(types, op) && OperationOk(A, types, op);
    var literals := ConstantOperands(g.operations, op.inputs).value;
    OperandLiterals(g.operations, op.inputs);
    forall k | 0 <= k < |op.inputs| ensures LiteralType(literals[k]) == Some(types[op.output].dtype) {
      OperandType(A, g, op.inputs[k]);
    }
  }

  /** The literal of a constant operand has the type of the operand. */
  lemma OperandType(A: Arith, g: GraphData, id: Id)
    requires GraphVerified(A, g) && ConstantOperand(g.operations, id).Some?
    ensures id in Descriptors(g.values)
    ensures LiteralType(ConstantOperand(g.operations, id).value) == Some(Descriptors(g.values)[id].dtype)
  {
    FoundProducer(g.operations, id);
    var op := FindProducer(g.operations, id).value;
    var j :| 0 <= j < |g.operations| && g.operations[j] == op;
    assert Resolved(Descriptors(g.values), g.operations[j]) && OperationOk(A, Descriptors(g.values), g.operations[j]);
  }

  lemma FoldStepVerified(A: Arith, g: GraphData, i: nat)
    requires GraphVerified(A, g) && i < |g.operations|
    ensures GraphVerified(A, FoldStep(A, g, i))
  {
    var types := Descriptors(g.values);
    if Folded(A, types, g.operations, g.operations[i]).Some? {
      FoldedIsVerified(A, g, i);
      FoldedTypes(g, g.operations[i].output);
      var h := FoldStep(A, g, i);
      forall k | 0 <= k < |h.operations| ensures Resolved(types, h.operations[k]) && OperationOk(A, types, h.operations[k]) {
        if k != i {
          assert Resolved(types, g.operations[k]) && OperationOk(A, types, g.operations[k]);
        }
      }
    }
  }

  // ----- what the pass keeps -----

  lemma FoldStepKeeps(A: Arith, g: GraphData, i: nat)
    requires Ordered(g) && i < |g.operations|
    ensures Ordered(FoldStep(A, g, i)) && SameInterface(g, FoldStep(A, g, i))
    ensures GraphVerified(A, g) ==> GraphVerified(A, FoldStep(A, g, i))
  {
    FoldStepOrdered(A, g, i);
    if GraphVerified(A, g) {
      FoldStepVerified(A, g, i);
    }
  }

  /** Constant folding keeps order, well-formedness and the verifier's judgement. */
  lemma {:induction false} FoldSweepKeeps(A: Arith, g: GraphData, m: nat)
    requires Ordered(g) && m <= |g.operations|
    ensures Ordered(FoldSweep(A, g, m)) && SameInterface(g, FoldSweep(A, g, m))
    ensures GraphVerified(A, g) ==> GraphVerified(A, FoldSweep(A, g, m))
  {
    hide Ordered, GraphVerified, FoldStep;
    if m > 0 {
      FoldSweepKeeps(A, g, m - 1);
      OneFoldKeeps(A, FoldSweep(A, g, m - 1), m - 1);
    }
  }

  lemma OneFoldKeeps(A: Arith, g: GraphData, i: nat)
    requires i < |g.operations|
    ensures Ordered(g) ==> Ordered(FoldStep(A, g, i)) && SameInterface(g, FoldStep(A, g, i))
    ensures Ordered(g) && GraphVerified(A, g) ==> GraphVerified(A, FoldStep(A, g, i))
  {
    if Ordered(g) {
      FoldStepKeeps(A, g, i);
    }
  }

  // ----- when folding changes the meaning -----

  /** The sweep has not touched later operations, nor any type. */
  lemma {:induction false} SweepLeavesRest(A: Arith, g: GraphData, m: nat)
    requires m <= |g.operations|
    ensures Descriptors(FoldSweep(A, g, m).values) == Descriptors(g.values)
    ensures forall k | m <= k < |g.operations| :: FoldSweep(A, g, m).operations[k] == g.operations[k]
  {
    if m > 0 {
      SweepLeavesRest(A, g, m - 1);
      var before := FoldSweep(A, g, m - 1);
      FoldedTypes(before, before.operations[m - 1].output);
    }
  }

  /** What one step breaks, later steps do not repair. */
  lemma StillBroken(A: Arith, feeds: Feeds, g: GraphData, env: Env, m: nat)
    requires 0 < m <= |g.operations| && Solves(A, feeds, g, env) && !Solves(A, feeds, FoldSweep(A, g, m - 1), env)
    ensures !Solves(A, feeds, FoldSweep(A, g, m), env)
  {
    hide FoldSweep, FoldStep, Folded, Models, Meaning, Descriptors;
    var before, after := FoldSweep(A, g, m - 1).operations, FoldSweep(A, g, m).operations;
    SweepLeavesRest(A, g, m - 1);
    SweepLeavesRest(A, g, m);
    EarlierUntouched(A, g, m);
    BrokenEarlier(Meaning(A, feeds, Descriptors(g.values)), g.operations, before, after, m - 1, env);
  }

  lemma EarlierUntouched(A: Arith, g: GraphData, m: nat)
    requires 0 < m <= |g.operations|
    ensures forall k | 0 <= k < m - 1 :: FoldSweep(A, g, m).operations[k] == FoldSweep(A, g, m - 1).operations[k]
  {
    assert FoldSweep(A, g, m) == FoldStep(A, FoldSweep(A, g, m - 1), m - 1);
    hide FoldSweep, Folded;
  }

  lemma BrokenEarlier(step: (Operation, Env) -> Option<Tensor>, ops: seq<Operation>, before: seq<Operation>,
                      after: seq<Operation>, m: nat, env: Env)
    requires |ops| == |before| == |after| && m < |ops| && Models(step, ops, env) && !Models(step, before, env)
    requires forall k | m <= k < |ops| :: before[k] == ops[k]
    requires forall k | 0 <= k < m :: after[k] == before[k]
    ensures !Models(step, after, env)
  {
    var j :| 0 <= j < |before| && !Satisfies(step, before[j], env);
    assert Satisfies(step, ops[j], env);
    assert !Satisfies(step, after[j], env);
  }

  /** A value that solves the graph solves the folded graph exactly when every fold was sound. */
  lemma {:induction false} FoldingIsExact(A: Arith, feeds: Feeds, g: GraphData, env: Env, m: nat)
    requires m <= |g.operations| && Solves(A, feeds, g, env)
    ensures Solves(A, feeds, FoldSweep(A, g, m), env) <==> SoundFolds(A, g, m)
  {
    if m > 0 {
      FoldingIsExact(A, feeds, g, env, m - 1);
      if SoundFolds(A, g, m - 1) {
        FoldStepSolved(A, feeds, FoldSweep(A, g, m - 1), env, m - 1);
      } else {
        StillBroken(A, feeds, g, env, m);
      }
    }
  }

  /** Sound folding keeps meaning. */
  lemma SoundSweepKeepsMeaning(A: Arith, g: GraphData, m: nat)
    requires m <= |g.operations| && SoundFolds(A, g, m)
    ensures KeepsMeaning(A, g, FoldSweep(A, g, m))
  {
    forall feeds, env | Solves(A, feeds, g, env) ensures Solves(A, feeds, FoldSweep(A, g, m), env) {
      FoldingIsExact(A, feeds, g, env, m);
    }
  }

  /** For a graph that evaluates: folding keeps its meaning exactly when every fold was sound. */
  lemma FoldingKeepsMeaningExactly(A: Arith, feeds: Feeds, g: GraphData)
    requires Ordered(g) && EvaluateData(A, feeds, g).Some?
    ensures KeepsMeaning(A, g, FoldSweep(A, g, |g.operations|)) <==> SoundFolds(A, g, |g.operations|)
  {
    if SoundFolds(A, g, |g.operations|) {
      SoundSweepKeepsMeaning(A, g, |g.operations|);
    }
    EvaluationSolves(A, feeds, g);
    FoldingIsExact(A, feeds, g, EvaluateData(A, feeds, g).value, |g.operations|);
  }

  // ----- one sweep is enough -----

  lemma {:induction false} SameProducersSameLiterals(a: seq<Operation>, b: seq<Operation>, ids: seq<Id>)
    requires forall k | 0 <= k < |ids| :: FindProducer(a, ids[k]) == FindProducer(b, ids[k])
    ensures ConstantOperands(a, ids) == ConstantOperands(b, ids)
  {
    if ids != [] {
      SameProducersSameLiterals(a, b, ids[..|ids| - 1]);
    }
  }

  /** Folding operation m does not change what earlier operations could fold to. */
  lemma EarlierUnaffected(A: Arith, g: GraphData, m: nat, i: nat)
    requires Ordered(g) && i < m < |g.operations|
    ensures var h := FoldStep(A, g, m);
      && h.operations[i] == g.operations[i] && Descriptors(h.values) == Descriptors(g.values)
      && Folded(A, Descriptors(h.values), h.operations, h.operations[i])
         == Folded(A, Descriptors(g.values), g.operations, g.operations[i])
  {
    FoldedTypes(g, g.operations[m].output);
    FoldStepOrdered(A, g, m);
    var h, op := FoldStep(A, g, m), g.operations[i];
    forall k | 0 <= k < |op.inputs| ensures FindProducer(g.operations, op.inputs[k]) == FindProducer(h.operations, op.inputs[k]) {
      assert ProducedBefore(g.operations, i, op.inputs[k]);
      var j :| 0 <= j < i && g.operations[j].output == op.inputs[k];
      FindProducerAt(g.operations, j);
      FindProducerAt(h.operations, j);
    }
    SameProducersSameLiterals(g.operations, h.operations, op.inputs);
  }

  /** After a sweep over the first m operations none of them folds any further. */
  lemma {:induction false} SweepFoldsEverything(A: Arith, g: GraphData, m: nat, i: nat)
    requires Ordered(g) && i < m <= |g.operations|
    ensures var h := FoldSweep(A, g, m); Folded(A, Descriptors(h.values), h.operations, h.operations[i]).None?
  {
    hide Folded, FoldStep, Ordered, Descriptors;
    var before := FoldSweep(A, g, m - 1);
    FoldSweepKeeps(A, g, m - 1);
    if i < m - 1 {
      SweepFoldsEverything(A, g, m - 1, i);
      EarlierUnaffected(A, before, m - 1, i);
    } else {
      FoldedOnce(A, before, m - 1);
    }
  }

  /** A visited operation does not fold again. */
  lemma FoldedOnce(A: Arith, g: GraphData, i: nat)
    requires Ordered(g) && i < |g.operations|
    ensures var h := FoldStep(A, g, i); Folded(A, Descriptors(h.values), h.operations, h.operations[i]).None?
  {
  }

  /** Folding an ordered graph a second time changes nothing. */
  lemma {:induction false} FoldTwice(A: Arith, g: GraphData, m: nat)
    requires Ordered(g) && m <= |g.operations|
    ensures FoldSweep(A, FoldSweep(A, g, |g.operations|), m) == FoldSweep(A, g, |g.operations|)
  {
    if m > 0 {
      FoldTwice(A, g, m - 1);
      SweepFoldsEverything(A, g, |g.operations|, m - 1);
    }
  }
}
