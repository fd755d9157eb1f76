/**
 Running a list of operations one after the other, over any step function that depends on
 operands only, and the order-free characterisation of the result.
 */
module Sequential {
  import opened Basics
  import opened GraphIR

  predicate AgreeAt<T(==)>(env: map<Id, T>, other: map<Id, T>, id: Id) {
    id in env && id in other && env[id] == other[id]
  }

  predicate AgreeOn<T(==)>(ids: seq<Id>, env: map<Id, T>, other: map<Id, T>) {
    forall k | 0 <= k < |ids| :: AgreeAt(env, other, ids[k])
  }

  ghost predicate Local<T(!new)>(step: (Operation, map<Id, T>) -> Option<T>) {
    forall op: Operation, env: map<Id, T>, other: map<Id, T> | AgreeOn(op.inputs, env, other) ::
      step(op, env) == step(op, other)
  }

  /** The environment after the first n operations. */
  function Run<T>(step: (Operation, map<Id, T>) -> Option<T>, initial: map<Id, T>, ops: seq<Operation>, n: nat)
    : Option<map<Id, T>>
    requires n <= |ops|
  {
    if n == 0 then Some(initial)
    else
      var before := Run(step, initial, ops, n - 1);
      if before.None? then None
      else
        var t := step(ops[n - 1], before.value);
        if t.None? then None else Some(before.value[ops[n - 1].output := t.value])
  }

  lemma {:induction false} RunStops<T>(step: (Operation, map<Id, T>) -> Option<T>, initial: map<Id, T>,
                                       ops: seq<Operation>, m: nat, n: nat)
    requires m <= n <= |ops| && Run(step, initial, ops, m).None?
    ensures Run(step, initial, ops, n).None?
  {
    if m < n {
      RunStops(step, initial, ops, m, n - 1);
    }
  }

  /** `env` satisfies the equation of the operation. */
  predicate Satisfies<T(==)>(step: (Operation, map<Id, T>) -> Option<T>, op: Operation, env: map<Id, T>) {
    op.output in env && step(op, env) == Some(env[op.output])
  }

  /** `env` satisfies the equation of every operation: no order is mentioned. */
  ghost predicate Models<T>(step: (Operation, map<Id, T>) -> Option<T>, ops: seq<Operation>, env: map<Id, T>) {
    forall i | 0 <= i < |ops| :: Satisfies(step, ops[i], env)
  }

  lemma ProducedBeforeStep(ops: seq<Operation>, n: nat, id: Id)
    requires 0 < n <= |ops|
    ensures ProducedBefore(ops, n, id) <==> ProducedBefore(ops, n - 1, id) || id == ops[n - 1].output
  {
    if ProducedBefore(ops, n - 1, id) {
      var j :| 0 <= j < n - 1 && ops[j].output == id;
      assert ops[j].output == id;
    }
    assert ops[n - 1].output == ops[n - 1].output;
  }

  /** What is defined after n operations. */
  lemma {:induction false} RunDefines<T>(step: (Operation, map<Id, T>) -> Option<T>, initial: map<Id, T>,
                                         ops: seq<Operation>, n: nat)
    requires n <= |ops| && Run(step, initial, ops, n).Some?
    ensures forall id :: id in Run(step, initial, ops, n).value <==> id in initial || ProducedBefore(ops, n, id)
  {
    if n > 0 {
      RunDefines(step, initial, ops, n - 1);
      forall id ensures ProducedBefore(ops, n, id) <==> ProducedBefore(ops, n - 1, id) || id == ops[n - 1].output {
        ProducedBeforeStep(ops, n, id);
      }
    }
  }

  /**
   Progress: when a step succeeds exactly on acceptable operations, as long as the values so far
   are good and the operands are there, a run succeeds exactly when all operations are acceptable.
   */
  lemma {:induction false} RunProgress<T(!new)>(step: (Operation, map<Id, T>) -> Option<T>, initial: map<Id, T>,
                                                ops: seq<Operation>, n: nat,
                                                good: (Id, T) -> bool, ok: Operation -> bool)
    requires n <= |ops| && TopologicallyOrdered(ops)
    requires forall id <- initial :: good(id, initial[id])
    requires forall i: nat, env: map<Id, T> {:trigger step(ops[i], env)} | i < |ops|
      && (forall id <- env :: good(id, env[id])) && (forall k | 0 <= k < |ops[i].inputs| :: ops[i].inputs[k] in env) ::
      && (step(ops[i], env).Some? <==> ok(ops[i]))
      && (step(ops[i], env).Some? ==> good(ops[i].output, step(ops[i], env).value))
    ensures Run(step, initial, ops, n).Some? <==> forall i | 0 <= i < n :: ok(ops[i])
    ensures Run(step, initial, ops, n).Some? ==>
      forall id <- Run(step, initial, ops, n).value :: good(id, Run(step, initial, ops, n).value[id])
  {
    if n > 0 {
      RunProgress(step, initial, ops, n - 1, good, ok);
      if Run(step, initial, ops, n - 1).Some? {
        RunDefines(step, initial, ops, n - 1);
        var before := Run(step, initial, ops, n - 1).value;
        var op := ops[n - 1];
        forall k | 0 <= k < |op.inputs| ensures op.inputs[k] in before {
          assert ProducedBefore(ops, n - 1, op.inputs[k]);
        }
        assert step(op, before).Some? <==> ok(op);
      }
    }
  }

  /** Running in a topological order satisfies every equation: later steps do not disturb earlier ones. */
  lemma {:induction false} RunModels<T(!new)>(step: (Operation, map<Id, T>) -> Option<T>, initial: map<Id, T>,
                                              ops: seq<Operation>, n: nat)
    requires n <= |ops| && Local(step) && DistinctOutputs(ops) && TopologicallyOrdered(ops)
    requires Run(step, initial, ops, n).Some?
    ensures Models(step, ops[..n], Run(step, initial, ops, n).value)
  {
    if n > 0 {
      RunModels(step, initial, ops, n - 1);
      RunDefines(step, initial, ops, n - 1);
      var before := Run(step, initial, ops, n - 1).value;
      var env := Run(step, initial, ops, n).value;
      forall i | 0 <= i < n ensures Satisfies(step, ops[i], env) {
        OperandsUndisturbed(ops, i, n - 1, before, env);
        assert step(ops[i], before) == step(ops[i], env);
        if i < n - 1 {
          assert Satisfies(step, ops[..n - 1][i], before);
        }
      }
    }
  }

  lemma OperandsUndisturbed<T>(ops: seq<Operation>, i: nat, m: nat, before: map<Id, T>, after: map<Id, T>)
    requires i <= m < |ops| && DistinctOutputs(ops) && TopologicallyOrdered(ops)
    requires forall id | ProducedBefore(ops, m, id) :: id in before
    requires forall id | id in before && id != ops[m].output :: id in after && after[id] == before[id]
    ensures AgreeOn(ops[i].inputs, before, after)
  {
    forall k | 0 <= k < |ops[i].inputs| ensures AgreeAt(before, after, ops[i].inputs[k]) {
      assert ProducedBefore(ops, i, ops[i].inputs[k]);
      var j :| 0 <= j < i && ops[j].output == ops[i].inputs[k];
      assert ProducedBefore(ops, m, ops[j].output);
      assert ops[j].output != ops[m].output;
    }
  }

  /** The equations have one solution on produced values: any model is what running computes. */
  lemma {:induction false} ModelsAreRuns<T(!new)>(step: (Operation, map<Id, T>) -> Option<T>, initial: map<Id, T>,
                                                  ops: seq<Operation>, n: nat, env: map<Id, T>)
    requires n <= |ops| && Local(step) && TopologicallyOrdered(ops)
    requires Models(step, ops, env)
    ensures Run(step, initial, ops, n).Some?
    ensures forall id | ProducedBefore(ops, n, id) :: AgreeAt(Run(step, initial, ops, n).value, env, id)
    ensures forall id | !ProducedBefore(ops, n, id) ::
      if id in initial then AgreeAt(Run(step, initial, ops, n).value, initial, id)
      else id !in Run(step, initial, ops, n).value
  {
    if n > 0 {
      ModelsAreRuns(step, initial, ops, n - 1, env);
      var before := Run(step, initial, ops, n - 1).value;
      var op := ops[n - 1];
      forall k | 0 <= k < |op.inputs| ensures AgreeAt(before, env, op.inputs[k]) {
        assert ProducedBefore(ops, n - 1, op.inputs[k]);
      }
      assert step(op, before) == step(op, env);
      assert Satisfies(step, op, env);
      forall id ensures ProducedBefore(ops, n, id) <==> ProducedBefore(ops, n - 1, id) || id == op.output {
        ProducedBeforeStep(ops, n, id);
      }
    }
  }

  /** `a` and `b` list the same operations. */
  ghost predicate SameOperations(a: seq<Operation>, b: seq<Operation>) {
    (forall op <- a :: op in b) && (forall op <- b :: op in a)
  }

  lemma SameProduction(a: seq<Operation>, b: seq<Operation>, id: Id)
    requires SameOperations(a, b) && ProducedBefore(a, |a|, id)
    ensures ProducedBefore(b, |b|, id)
  {
    var j :| 0 <= j < |a| && a[j].output == id;
    assert a[j] in b;
    var k :| 0 <= k < |b| && b[k] == a[j];
    assert b[k].output == id;
  }

  lemma SameModels<T>(step: (Operation, map<Id, T>) -> Option<T>, a: seq<Operation>, b: seq<Operation>, env: map<Id, T>)
    requires SameOperations(a, b) && Models(step, a, env)
    ensures Models(step, b, env)
  {
    forall i | 0 <= i < |b| ensures Satisfies(step, b[i], env) {
      assert b[i] in a;
      var k :| 0 <= k < |a| && a[k] == b[i];
      assert Satisfies(step, a[k], env);
    }
  }

  /** Two topological orders of the same operations run to the same environment. */
  lemma RunIsConfluent<T(!new)>(step: (Operation, map<Id, T>) -> Option<T>, initial: map<Id, T>,
                                a: seq<Operation>, b: seq<Operation>)
    requires Local(step) && DistinctOutputs(a) && TopologicallyOrdered(a) && TopologicallyOrdered(b)
    requires SameOperations(a, b)
    requires Run(step, initial, a, |a|).Some?
    ensures Run(step, initial, b, |b|) == Run(step, initial, a, |a|)
  {
    var env := Run(step, initial, a, |a|).value;
    RunModels(step, initial, a, |a|);
    assert a[..|a|] == a;
    SameModels(step, a, b, env);
    ModelsAreRuns(step, initial, b, |b|, env);
    ModelsAreRuns(step, initial, a, |a|, env);
    forall id ensures SameAt(Run(step, initial, b, |b|).value, env, id) {
      if ProducedBefore(a, |a|, id) {
        SameProduction(a, b, id);
      }
      if ProducedBefore(b, |b|, id) {
        SameProduction(b, a, id);
      }
    }
    SameEverywhere(Run(step, initial, b, |b|).value, env);
  }

  predicate SameAt<T(==)>(env: map<Id, T>, other: map<Id, T>, id: Id) {
    if id in env then AgreeAt(env, other, id) else id !in other
  }

  lemma SameEverywhere<T>(env: map<Id, T>, other: map<Id, T>)
    requires forall id :: SameAt(env, other, id)
    ensures env == other
  {
    forall id ensures (id in env <==> id in other) && (id in env ==> env[id] == other[id]) {
      assert SameAt(env, other, id);
    }
  }
}

/**
 The reference evaluator (python/forgeir/reference/evaluator.py): the meaning of an operation,
 the sequential evaluation of a graph, and the order-free characterisation of its result.
 */
module Evaluator {
  import opened Basics
  import opened GraphIR
  import opened Shapes
  import opened Tensors
  import opened Sequential

  type Env = map<Id, Tensor>

  /** Graph inputs by value identifier, parameters by archive key. */
  datatype Feeds = Feeds(inputs: map<Id, Tensor>, weights: map<string, Tensor>)

  // ----- attributes -----

  function IntegerOf(attributes: Attributes, name: string): Option<int> {
    if name in attributes && attributes[name].JInt? then Some(attributes[name].integer) else None
  }

  function IntegersOf(items: seq<Json>): Option<seq<int>> {
    if items == [] then Some([])
    else
      var rest := IntegersOf(items[1..]);
      if !items[0].JInt? || rest.None? then None else Some([items[0].integer] + rest.value)
  }

  /** `integer_array_attribute` restricted to what a loaded graph contains. */
  function IntegerArrayOf(attributes: Attributes, name: string): Option<seq<int>> {
    if name in attributes && attributes[name].JArray? then IntegersOf(attributes[name].items) else None
  }

  predicate IsNumber(j: Json) {
    j.JInt? || j.JFloat?
  }

  /** Exact GELU: `approximate` is absent or "none". */
  predicate ExactGelu(attributes: Attributes) {
    "approximate" in attributes ==> attributes["approximate"] == JString("none")
  }

  /** Negative axes count from the end. */
  function NormalAxis(axis: int, rank: nat): int {
    if axis < 0 then axis + rank else axis
  }

  // ----- one operation -----

  function Product(A: Arith, linear: bool, x: Tensor, y: Tensor): Option<Tensor> {
    if linear then LinearOf(A, x, y) else MatMulOf(A, x, y)
  }

  /** The one fused activation there is: exact GELU. */
  predicate FusedContract(op: Operation) {
    op.HasText("fused_activation", "GELU") && op.HasText("fused_activation_approximate", "none")
  }

  /** `attributes.get("fused_activation")` is not None. */
  predicate Activated(op: Operation) {
    "fused_activation" in op.attributes && !op.attributes["fused_activation"].JNull?
  }

  /** `_projection`: product, then the optional bias, then the optional fused activation. */
  function Projection(A: Arith, op: Operation, operands: seq<Tensor>): Option<Tensor>
    requires |operands| == 2 || |operands| == 3
  {
    var product := Product(A, op.kind.Linear?, operands[0], operands[1]);
    if product.None? then None
    else
      var biased := if |operands| == 3 then Binary(A.add, product.value, operands[2]) else product;
      if biased.None? || !Activated(op) then biased
      else if FusedContract(op) then Some(Map(A.gelu, biased.value))
      else None
  }

  /** `_constant`: a scalar literal reshaped to the declared shape. */
  function ConstantTensor(A: Arith, attributes: Attributes, shape: Shape): Option<Tensor> {
    if "value" in attributes && (IsNumber(attributes["value"]) || attributes["value"].JBool?)
      && Positive(shape) && Count(shape) == 1
    then Some(RawTensor.Tensor(shape, [A.literal(attributes["value"])]))
    else None
  }

  function RmsNormOperation(A: Arith, attributes: Attributes, operands: seq<Tensor>): Option<Tensor>
    requires |operands| == 2
  {
    var axis := IntegerOf(attributes, "axis");
    var rank := |operands[0].shape|;
    if axis.None? || rank == 0 || (axis.value != -1 && axis.value != rank - 1)
      || "epsilon" !in attributes || !IsNumber(attributes["epsilon"])
    then None
    else RmsNormOf(A, operands[0], operands[1], A.literal(attributes["epsilon"]))
  }

  function SoftmaxOperation(A: Arith, attributes: Attributes, operand: Tensor): Option<Tensor> {
    var axis := IntegerOf(attributes, "axis");
    var rank := |operand.shape|;
    if axis.None? || axis.value < -rank || axis.value >= rank then None
    else Some(SoftmaxOf(A, operand, NormalAxis(axis.value, rank)))
  }

  function TransposeOperation(attributes: Attributes, operand: Tensor): Option<Tensor> {
    var p := IntegerArrayOf(attributes, "permutation");
    if p.None? then None else TransposeOf(operand, p.value)
  }

  function MaskOperation(A: Arith, attributes: Attributes, operand: Tensor): Option<Tensor> {
    if "diagonal" in attributes && !attributes["diagonal"].JInt? then None
    else CausalMaskOf(A, operand, if "diagonal" in attributes then attributes["diagonal"].integer else 0)
  }

  predicate ArityOk(op: Operation, n: nat) {
    match op.kind
    case Input | Parameter | Constant => n == 0
    case MatMul | Linear => n == 2 || n == 3
    case Add | Multiply | Divide | RmsNorm => n == 2
    case Gelu | Softmax | Reshape | Transpose | CausalMask => n == 1
  }

  /** `_evaluate_operation`; None stands for every error it raises. */
  function EvaluateOperation(A: Arith, op: Operation, operands: seq<Tensor>, shape: Shape): Option<Tensor> {
    if !ArityOk(op, |operands|) then None
    else
      match op.kind
      case Input | Parameter => None
      case Constant => ConstantTensor(A, op.attributes, shape)
      case MatMul | Linear => Projection(A, op, operands)
      case Add => Binary(A.add, operands[0], operands[1])
      case Multiply => Binary(A.mul, operands[0], operands[1])
      case Divide => Binary(A.div, operands[0], operands[1])
      case RmsNorm => RmsNormOperation(A, op.attributes, operands)
      case Gelu => if ExactGelu(op.attributes) then Some(Map(A.gelu, operands[0])) else None
      case Softmax => SoftmaxOperation(A, op.attributes, operands[0])
      case Reshape => ReshapeOf(operands[0], shape)
      case Transpose => TransposeOperation(op.attributes, operands[0])
      case CausalMask => MaskOperation(A, op.attributes, operands[0])
  }

  // ----- one step of the evaluation -----

  function Lookup(env: Env, ids: seq<Id>): (r: seq<Tensor>)
    requires forall k | 0 <= k < |ids| :: ids[k] in env
    ensures |r| == |ids|
  {
    seq(|ids|, k requires 0 <= k < |ids| => env[ids[k]])
  }

  /** What an operation produces in an environment, before the declared shape is checked. */
  function Produces(A: Arith, feeds: Feeds, op: Operation, shape: Shape, env: Env): Option<Tensor> {
    if op.kind.Input? then
      if op.output in feeds.inputs then Some(feeds.inputs[op.output]) else None
    else if op.kind.Parameter? then
      if "archive_key" in op.attributes && op.attributes["archive_key"].JString?
        && op.attributes["archive_key"].text in feeds.weights
      then Some(feeds.weights[op.attributes["archive_key"].text])
      else None
    else if exists k | 0 <= k < |op.inputs| :: op.inputs[k] !in env then None
    else EvaluateOperation(A, op, Lookup(env, op.inputs), shape)
  }

  /** One iteration of `evaluate_graph`: produce, then `_validate_tensor` against the declared shape. */
  function Step(A: Arith, feeds: Feeds, types: map<Id, Descriptor>, op: Operation, env: Env): (r: Option<Tensor>)
    ensures r.Some? ==> op.output in types && r.value.shape == types[op.output].shape
  {
    if op.output !in types then None
    else
      var t := Produces(A, feeds, op, types[op.output].shape, env);
      if t.Some? && t.value.shape == types[op.output].shape then t else None
  }

  /** The step function of a graph: one iteration of `evaluate_graph` as a function of the environment. */
  function Meaning(A: Arith, feeds: Feeds, types: map<Id, Descriptor>): (Operation, Env) -> Option<Tensor> {
    (op: Operation, env: Env) => Step(A, feeds, types, op, env)
  }

  /** The value of every identifier after all operations; None when the evaluator raises an error. */
  function Evaluate(A: Arith, feeds: Feeds, types: map<Id, Descriptor>, ops: seq<Operation>): Option<Env> {
    Run(Meaning(A, feeds, types), feeds.inputs, ops, |ops|)
  }

  /** A step depends on the operands only. */
  lemma MeaningIsLocal(A: Arith, feeds: Feeds, types: map<Id, Descriptor>)
    ensures Local(Meaning(A, feeds, types))
  {
    forall op: Operation, env: Env, other: Env | AgreeOn(op.inputs, env, other)
      ensures Meaning(A, feeds, types)(op, env) == Meaning(A, feeds, types)(op, other)
    {
      assert forall k | 0 <= k < |op.inputs| :: AgreeAt(env, other, op.inputs[k]);
      assert Lookup(env, op.inputs) == Lookup(other, op.inputs);
    }
  }

  /** The tensors the caller feeds stand for values of the graph, in their declared shapes. */
  predicate FeedsFit(inputs: Env, types: map<Id, Descriptor>) {
    forall id <- inputs :: FeedFits(inputs, types, id)
  }

  predicate FeedFits(inputs: Env, types: map<Id, Descriptor>, id: Id) {
    id in inputs && id in types && inputs[id].shape == types[id].shape
  }

  /** The loop over the inputs. */
  method ValidateFeeds(inputs: Env, types: map<Id, Descriptor>) returns (ok: bool)
    ensures ok <==> FeedsFit(inputs, types)
  {
    var pending := inputs.Keys;
    while pending != {}
      invariant pending <= inputs.Keys
      invariant forall id <- inputs.Keys - pending :: FeedFits(inputs, types, id)
    {
      var id :| id in pending;
      if !FeedFits(inputs, types, id) {
        return false;
      }
      pending := pending - {id};
    }
    return true;
  }

  /** The loop over the operations. */
  method EvaluateOperations(A: Arith, feeds: Feeds, types: map<Id, Descriptor>, ops: seq<Operation>)
    returns (r: Option<Env>)
    ensures r == Evaluate(A, feeds, types, ops)
  {
    hide Meaning, Step;
    var step := Meaning(A, feeds, types);
    var env := feeds.inputs;
    for n := 0 to |ops|
      invariant Run(step, feeds.inputs, ops, n) == Some(env)
    {
      var t := step(ops[n], env);
      if t.None? {
        RunStops(step, feeds.inputs, ops, n + 1, |ops|);
        return None;
      }
      env := env[ops[n].output := t.value];
    }
    return Some(env);
  }

  /** The declared outputs and then the checkpoints, each once. */
  method Select(tensors: Env, outputs: seq<Id>, captures: seq<Id>) returns (r: Option<Env>)
    ensures r.Some? <==> forall id <- outputs + captures :: id in tensors
    ensures r.Some? ==> r.value == map id | id in outputs + captures && id in tensors :: tensors[id]
  {
    var requested := outputs;
    for k := 0 to |captures|
      invariant forall id :: id in requested <==> id in outputs || id in captures[..k]
      invariant forall id <- captures[..k] :: id in tensors
    {
      if captures[k] !in tensors {
        assert captures[k] in outputs + captures;
        return None;
      }
      if captures[k] !in requested {
        requested := requested + [captures[k]];
      }
    }
    assert captures[..|captures|] == captures;
    forall id ensures id in requested <==> id in outputs + captures {
    }
    if id :| id in requested && id !in tensors {
      return None;
    }
    return Some(map id | id in requested :: tensors[id]);
  }

  /**
   `evaluate_graph`: it fails on a tensor that does not fit, where the operations have no value, and on a
   requested value that no operation produced; otherwise it returns the values requested.
   */
  method EvaluateGraph(A: Arith, feeds: Feeds, types: map<Id, Descriptor>, ops: seq<Operation>,
                       outputs: seq<Id>, captures: seq<Id>)
    returns (r: Option<Env>)
    ensures r.Some? <==>
      && FeedsFit(feeds.inputs, types) && Evaluate(A, feeds, types, ops).Some?
      && forall id <- outputs + captures :: id in Evaluate(A, feeds, types, ops).value
    ensures r.Some? ==>
      r.value == map id | id in outputs + captures && id in Evaluate(A, feeds, types, ops).value ::
        Evaluate(A, feeds, types, ops).value[id]
  {
    hide Evaluate, FeedsFit;
    var ok := ValidateFeeds(feeds.inputs, types);
    if !ok {
      return None;
    }
    var result := EvaluateOperations(A, feeds, types, ops);
    if result.None? {
      return None;
    }
    r := Select(result.value, outputs, captures);
  }

  /**
   Evaluation is confluent: two topological orders of the same operations give the same
   environment, whatever produced the orders.
   */
  lemma EvaluationIsConfluent(A: Arith, feeds: Feeds, types: map<Id, Descriptor>, a: seq<Operation>, b: seq<Operation>)
    requires DistinctOutputs(a) && TopologicallyOrdered(a) && TopologicallyOrdered(b)
    requires SameOperations(a, b)
    ensures Evaluate(A, feeds, types, a).Some? ==> Evaluate(A, feeds, types, b) == Evaluate(A, feeds, types, a)
  {
    MeaningIsLocal(A, feeds, types);
    if Evaluate(A, feeds, types, a).Some? {
      RunIsConfluent(Meaning(A, feeds, types), feeds.inputs, a, b);
    }
  }

  // ----- whether a graph evaluates does not depend on the arithmetic -----

  ghost predicate SameShapes(e: Env, f: Env) {
    e.Keys == f.Keys && forall id <- e :: e[id].shape == f[id].shape
  }

  lemma OperationShapes(A: Arith, B: Arith, op: Operation, xs: seq<Tensor>, ys: seq<Tensor>, shape: Shape)
    requires |xs| == |ys| && forall k | 0 <= k < |xs| :: xs[k].shape == ys[k].shape
    ensures EvaluateOperation(A, op, xs, shape).Some? <==> EvaluateOperation(B, op, ys, shape).Some?
    ensures EvaluateOperation(A, op, xs, shape).Some? ==>
      EvaluateOperation(A, op, xs, shape).value.shape == EvaluateOperation(B, op, ys, shape).value.shape
  {
    if op.IsProjection() && ArityOk(op, |xs|) {
      ProjectionShapes(A, B, op, xs, ys);
    }
  }

  lemma ProjectionShapes(A: Arith, B: Arith, op: Operation, xs: seq<Tensor>, ys: seq<Tensor>)
    requires (|xs| == 2 || |xs| == 3) && |xs| == |ys| && forall k | 0 <= k < |xs| :: xs[k].shape == ys[k].shape
    ensures Projection(A, op, xs).Some? <==> Projection(B, op, ys).Some?
    ensures Projection(A, op, xs).Some? ==> Projection(A, op, xs).value.shape == Projection(B, op, ys).value.shape
  {
    var p, q := Product(A, op.kind.Linear?, xs[0], xs[1]), Product(B, op.kind.Linear?, ys[0], ys[1]);
    assert p.Some? <==> q.Some?;
    assert p.Some? ==> p.value.shape == q.value.shape;
  }

  lemma StepShapes(A: Arith, B: Arith, feeds: Feeds, types: map<Id, Descriptor>, op: Operation, e: Env, f: Env)
    requires SameShapes(e, f)
    ensures Step(A, feeds, types, op, e).Some? <==> Step(B, feeds, types, op, f).Some?
  {
    if !op.kind.Input? && !op.kind.Parameter? && op.output in types
      && (forall k | 0 <= k < |op.inputs| :: op.inputs[k] in e) {
      OperationShapes(A, B, op, Lookup(e, op.inputs), Lookup(f, op.inputs), types[op.output].shape);
    }
  }

  /** Two arithmetics evaluate the same graphs, to tensors of the same shapes. */
  lemma {:induction false} EvaluationIgnoresArithmetic(A: Arith, B: Arith, feeds: Feeds, types: map<Id, Descriptor>,
                                                       ops: seq<Operation>, n: nat)
    requires n <= |ops|
    ensures var r, s := Run(Meaning(A, feeds, types), feeds.inputs, ops, n), Run(Meaning(B, feeds, types), feeds.inputs, ops, n);
      (r.Some? <==> s.Some?) && (r.Some? ==> SameShapes(r.value, s.value))
  {
    if n > 0 {
      EvaluationIgnoresArithmetic(A, B, feeds, types, ops, n - 1);
      var r, s := Run(Meaning(A, feeds, types), feeds.inputs, ops, n - 1), Run(Meaning(B, feeds, types), feeds.inputs, ops, n - 1);
      if r.Some? {
        StepShapes(A, B, feeds, types, ops[n - 1], r.value, s.value);
      }
    }
  }
}
