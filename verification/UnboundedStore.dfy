/**
 What the CPU runtime means without an arena: every value has a cell of its own, and operations
 run one after the other (cpp/src/runtime/runtime_session.cpp). Execution in the shared arena is
 proved against this.
 */
module UnboundedStore {
  import opened Basics
  import opened GraphIR
  import opened Shapes
  import opened Tensors
  import opened Sequential
  import opened Evaluator
  import opened TensorSizes
  import opened CpuBackend
  import opened SemanticVerifier
  import opened KernelSoundness

  /** A tensor handed in by the caller, as values. */
  datatype Argument = Argument(shape: Shape, data: seq<Scalar>, byteSize: nat, contiguous: bool)

  /** Everything the caller supplies: graph inputs by value, parameters by archive key. */
  datatype Arguments = Arguments(inputs: map<Id, Argument>, parameters: map<string, Argument>)

  /** SHA-256 and the syntax check on digests, uninterpreted. */
  datatype Hashing = Hashing(digest: seq<Scalar> -> string, wellFormed: string -> bool)

  /** `validate_external_tensor`, with enough elements behind the pointer. */
  predicate ArgumentOk(a: Argument, d: Descriptor)
    requires Positive(d.shape)
  {
    && d.dtype.Float32? && a.contiguous && a.shape == d.shape
    && Count(d.shape) * 4 <= UINT64_MAX && a.byteSize == Count(d.shape) * 4
    && Count(d.shape) <= |a.data|
  }

  /** There is a tensor behind the pointer. */
  predicate Denotes(a: Argument) {
    Positive(a.shape) && Count(a.shape) <= |a.data|
  }

  function ArgumentTensor(a: Argument): (t: Tensor)
    requires Denotes(a)
    ensures t.shape == a.shape
  {
    CountPositive(a.shape);
    RawTensor.Tensor(a.shape, a.data[..Count(a.shape)])
  }

  /** The same inputs and parameters as the reference evaluator is fed. */
  function FeedsOf(arguments: Arguments): Feeds {
    Feeds(map id | id in arguments.inputs && Denotes(arguments.inputs[id]) :: ArgumentTensor(arguments.inputs[id]),
          map key | key in arguments.parameters && Denotes(arguments.parameters[key]) ::
            ArgumentTensor(arguments.parameters[key]))
  }

  predicate HashOk(H: Hashing, attributes: Attributes, t: Tensor) {
    && "content_sha256" in attributes && attributes["content_sha256"].JString?
    && H.wellFormed(attributes["content_sha256"].text)
    && H.digest(t.data) == attributes["content_sha256"].text
  }

  function InputStep(arguments: Arguments, d: Descriptor, id: Id): Option<Tensor>
    requires Positive(d.shape)
  {
    if id in arguments.inputs && ArgumentOk(arguments.inputs[id], d)
    then Some(ArgumentTensor(arguments.inputs[id])) else None
  }

  function ParameterStep(H: Hashing, arguments: Arguments, d: Descriptor, attributes: Attributes): Option<Tensor>
    requires Positive(d.shape)
  {
    if "archive_key" !in attributes || !attributes["archive_key"].JString? then None
    else
      var key := attributes["archive_key"].text;
      if key in arguments.parameters && ArgumentOk(arguments.parameters[key], d)
        && HashOk(H, attributes, ArgumentTensor(arguments.parameters[key]))
      then Some(ArgumentTensor(arguments.parameters[key])) else None
  }

  function ConstantStep(A: Arith, d: Descriptor, attributes: Attributes): Option<Tensor> {
    if "value" in attributes && attributes["value"].JFloat? && d.shape == []
    then Some(RawTensor.Tensor([], [A.literal(attributes["value"])])) else None
  }

  /** One scheduled operation in the unbounded store; None for every error the session reports. */
  function CpuStep(A: Arith, H: Hashing, arguments: Arguments, types: Types, op: Operation, env: Env)
    : (r: Option<Tensor>)
    ensures r.Some? ==> op.output in types && r.value.shape == types[op.output].shape
  {
    if op.output !in types || !Positive(types[op.output].shape) then None
    else
      var d := types[op.output];
      match op.kind
      case Input => InputStep(arguments, d, op.output)
      case Parameter => ParameterStep(H, arguments, d, op.attributes)
      case Constant => ConstantStep(A, d, op.attributes)
      case _ =>
        if exists k | 0 <= k < |op.inputs| :: op.inputs[k] !in env then None
        else CpuOperation(A, op, Lookup(env, op.inputs), d.shape)
  }

  function CpuMeaning(A: Arith, H: Hashing, arguments: Arguments, types: Types): (Operation, Env) -> Option<Tensor> {
    (op: Operation, env: Env) => CpuStep(A, H, arguments, types, op, env)
  }

  /** The step function of a call, without unfolding what a step does. */
  ghost predicate Implements(step: (Operation, Env) -> Option<Tensor>,
                             A: Arith, H: Hashing, arguments: Arguments, types: Types)
  {
    forall op: Operation, env: Env {:trigger CpuStep(A, H, arguments, types, op, env)} ::
      step(op, env) == CpuStep(A, H, arguments, types, op, env)
  }

  /** The store after all operations. */
  function CpuRun(A: Arith, H: Hashing, arguments: Arguments, types: Types, ops: seq<Operation>): Option<Env> {
    Run(CpuMeaning(A, H, arguments, types), map[], ops, |ops|)
  }

  lemma CpuMeaningIsLocal(A: Arith, H: Hashing, arguments: Arguments, types: Types)
    ensures Local(CpuMeaning(A, H, arguments, types))
  {
    forall op: Operation, env: Env, other: Env | AgreeOn(op.inputs, env, other)
      ensures CpuStep(A, H, arguments, types, op, env) == CpuStep(A, H, arguments, types, op, other)
    {
      StepIsLocal(A, H, arguments, types, op, env, other);
    }
  }

  lemma StepIsLocal(A: Arith, H: Hashing, arguments: Arguments, types: Types, op: Operation, env: Env, other: Env)
    requires AgreeOn(op.inputs, env, other)
    ensures CpuStep(A, H, arguments, types, op, env) == CpuStep(A, H, arguments, types, op, other)
  {
    hide CpuOperation, InputStep, ParameterStep, ConstantStep;
    assert forall k | 0 <= k < |op.inputs| :: AgreeAt(env, other, op.inputs[k]);
    assert Lookup(env, op.inputs) == Lookup(other, op.inputs);
  }

  // ----- when execution succeeds -----

  /** What the caller can check about one operation before the call. */
  predicate CallOk(A: Arith, H: Hashing, arguments: Arguments, types: Types, op: Operation) {
    && op.output in types && Positive(types[op.output].shape)
    && var d := types[op.output];
    match op.kind
    case Input => InputStep(arguments, d, op.output).Some?
    case Parameter => ParameterStep(H, arguments, d, op.attributes).Some?
    case Constant => ConstantStep(A, d, op.attributes).Some?
    case _ => Supported(A, op)
  }

  ghost predicate EnvTyped(types: Types, env: Env) {
    forall id <- env :: id in types && env[id].shape == types[id].shape
  }

  lemma StepSucceeds(A: Arith, H: Hashing, arguments: Arguments, types: Types, op: Operation, env: Env)
    requires Resolved(types, op) && ShapeOk(A, types, op) && Positive(types[op.output].shape)
    requires EnvTyped(types, env) && forall k | 0 <= k < |op.inputs| :: op.inputs[k] in env
    ensures CpuStep(A, H, arguments, types, op, env).Some? <==> CallOk(A, H, arguments, types, op)
  {
    if !op.IsDeclaration() {
      VerifiedOperationRuns(A, types, op, Lookup(env, op.inputs));
    }
  }

  /** Progress: a verified, ordered graph runs exactly when every argument and attribute is acceptable. */
  lemma VerifiedGraphRuns(A: Arith, H: Hashing, arguments: Arguments, types: Types, ops: seq<Operation>)
    requires TopologicallyOrdered(ops) && Verified(A, types, ops)
    requires forall id <- types :: Positive(types[id].shape)
    ensures CpuRun(A, H, arguments, types, ops).Some? <==>
      forall i | 0 <= i < |ops| :: CallOk(A, H, arguments, types, ops[i])
    ensures CpuRun(A, H, arguments, types, ops).Some? ==>
      EnvTyped(types, CpuRun(A, H, arguments, types, ops).value)
  {
    var good := (id: Id, t: Tensor) => id in types && t.shape == types[id].shape;
    var ok := (op: Operation) => CallOk(A, H, arguments, types, op);
    var step := CpuMeaning(A, H, arguments, types);
    forall i: nat, env: Env | i < |ops| && (forall id <- env :: good(id, env[id]))
      && (forall k | 0 <= k < |ops[i].inputs| :: ops[i].inputs[k] in env)
      ensures (step(ops[i], env).Some? <==> ok(ops[i]))
      ensures step(ops[i], env).Some? ==> good(ops[i].output, step(ops[i], env).value)
    {
      assert Resolved(types, ops[i]);
      StepSucceeds(A, H, arguments, types, ops[i], env);
    }
    RunProgress(step, map[], ops, |ops|, good, ok);
  }

  // ----- the reference evaluator computes the same -----

  lemma StepsAgree(A: Arith, H: Hashing, arguments: Arguments, types: Types, op: Operation, env: Env)
    requires Resolved(types, op) && ShapeOk(A, types, op) && Plain(op) && EnvTyped(types, env)
    requires op.IsDeclaration() || forall k | 0 <= k < |op.inputs| :: op.inputs[k] in env
    requires CpuStep(A, H, arguments, types, op, env).Some?
    ensures Step(A, FeedsOf(arguments), types, op, env) == CpuStep(A, H, arguments, types, op, env)
  {
    if !op.IsDeclaration() {
      var operands := Lookup(env, op.inputs);
      VerifiedOperationRuns(A, types, op, operands);
      KernelAgreesWithEvaluator(A, types, op, operands);
    }
  }

  /**
   Whenever a verified graph without activated two-operand projections runs on the CPU, in
   whatever order, the reference evaluator computes the same value for every operation.
   */
  lemma CpuMatchesEvaluator(A: Arith, H: Hashing, arguments: Arguments, types: Types,
                            ops: seq<Operation>, scheduled: seq<Operation>)
    requires DistinctOutputs(scheduled) && TopologicallyOrdered(ops) && TopologicallyOrdered(scheduled)
    requires SameOperations(scheduled, ops)
    requires Verified(A, types, ops) && forall id <- types :: Positive(types[id].shape)
    requires forall op <- ops :: Plain(op)
    requires CpuRun(A, H, arguments, types, scheduled).Some?
    ensures Evaluate(A, FeedsOf(arguments), types, ops).Some?
    ensures forall op <- ops ::
      AgreeAt(CpuRun(A, H, arguments, types, scheduled).value, Evaluate(A, FeedsOf(arguments), types, ops).value,
              op.output)
  {
    var step, meaning := CpuMeaning(A, H, arguments, types), Meaning(A, FeedsOf(arguments), types);
    var env := CpuRun(A, H, arguments, types, scheduled).value;
    CpuMeaningIsLocal(A, H, arguments, types);
    MeaningIsLocal(A, FeedsOf(arguments), types);
    RunModels(step, map[], scheduled, |scheduled|);
    assert scheduled[..|scheduled|] == scheduled;
    SameModels(step, scheduled, ops, env);
    VerifiedElsewhere(A, types, ops, scheduled);
    VerifiedGraphRuns(A, H, arguments, types, scheduled);
    forall i | 0 <= i < |ops| ensures Satisfies(meaning, ops[i], env) {
      assert Satisfies(step, ops[i], env);
      assert CpuStep(A, H, arguments, types, ops[i], env).Some?;
      StepsAgree(A, H, arguments, types, ops[i], env);
    }
    ModelsAreRuns(meaning, FeedsOf(arguments).inputs, ops, |ops|, env);
    forall op <- ops ensures AgreeAt(env, Evaluate(A, FeedsOf(arguments), types, ops).value, op.output) {
      var i :| 0 <= i < |ops| && ops[i] == op;
      assert ProducedBefore(ops, |ops|, ops[i].output);
    }
  }

  // ----- when it does so under every arithmetic -----

  /** The evaluator finishes, and every operation has the value the CPU computes for it. */
  ghost predicate Agreement(A: Arith, H: Hashing, arguments: Arguments, types: Types, ops: seq<Operation>)
    requires CpuRun(A, H, arguments, types, ops).Some?
  {
    && Evaluate(A, FeedsOf(arguments), types, ops).Some?
    && forall op <- ops ::
         AgreeAt(CpuRun(A, H, arguments, types, ops).value, Evaluate(A, FeedsOf(arguments), types, ops).value, op.output)
  }

  /** Nothing that decides whether a graph verifies and runs gets harder with the counterexample arithmetic. */
  lemma RunsWithIncrements(A: Arith, H: Hashing, arguments: Arguments, types: Types, ops: seq<Operation>)
    requires TopologicallyOrdered(ops) && forall id <- types :: Positive(types[id].shape)
    requires Verified(A, types, ops) && CpuRun(A, H, arguments, types, ops).Some?
    ensures Verified(Increments(), types, ops) && CpuRun(Increments(), H, arguments, types, ops).Some?
  {
    VerifiedGraphRuns(A, H, arguments, types, ops);
    var B := Increments();
    forall i | 0 <= i < |ops|
      ensures Resolved(types, ops[i]) && OperationOk(B, types, ops[i]) && CallOk(B, H, arguments, types, ops[i])
    {
      assert Resolved(types, ops[i]);
      VerifiedWithIncrements(A, types, ops[i]);
    }
    VerifiedGraphRuns(B, H, arguments, types, ops);
  }

  lemma VerifiedWithIncrements(A: Arith, types: Types, op: Operation)
    requires Resolved(types, op) && OperationOk(A, types, op)
    ensures OperationOk(Increments(), types, op)
  {
  }

  /** An activated two-operand projection spoils the agreement. */
  lemma ActivationSpoils(H: Hashing, arguments: Arguments, types: Types, ops: seq<Operation>, i: nat)
    requires DistinctOutputs(ops) && TopologicallyOrdered(ops) && forall id <- types :: Positive(types[id].shape)
    requires Verified(Increments(), types, ops) && CpuRun(Increments(), H, arguments, types, ops).Some?
    requires i < |ops| && !Plain(ops[i])
    ensures !Agreement(Increments(), H, arguments, types, ops)
  {
    var A, op := Increments(), ops[i];
    if Agreement(A, H, arguments, types, ops) {
      var step, meaning := CpuMeaning(A, H, arguments, types), Meaning(A, FeedsOf(arguments), types);
      var c, e := CpuRun(A, H, arguments, types, ops).value, Evaluate(A, FeedsOf(arguments), types, ops).value;
      CpuMeaningIsLocal(A, H, arguments, types);
      MeaningIsLocal(A, FeedsOf(arguments), types);
      RunModels(step, map[], ops, |ops|);
      RunModels(meaning, FeedsOf(arguments).inputs, ops, |ops|);
      assert ops[..|ops|] == ops;
      assert Satisfies(step, ops[i], c) && Satisfies(meaning, ops[i], e);
      SameOperands(ops, i, c, e);
      assert op in ops && AgreeAt(c, e, op.output);
      VerifiedGraphRuns(A, H, arguments, types, ops);
      assert Resolved(types, ops[i]);
      var xs := Lookup(c, op.inputs);
      assert xs == [xs[0], xs[1]];
      ActivatedDiffers(op, xs[0], xs[1], types[op.output].shape);
    }
  }

  lemma SameOperands(ops: seq<Operation>, i: nat, c: Env, e: Env)
    requires TopologicallyOrdered(ops) && i < |ops| && forall op <- ops :: AgreeAt(c, e, op.output)
    ensures forall k | 0 <= k < |ops[i].inputs| :: ops[i].inputs[k] in c && ops[i].inputs[k] in e
    ensures Lookup(c, ops[i].inputs) == Lookup(e, ops[i].inputs)
  {
    forall k | 0 <= k < |ops[i].inputs| ensures AgreeAt(c, e, ops[i].inputs[k]) {
      assert ProducedBefore(ops, i, ops[i].inputs[k]);
      var j :| 0 <= j < i && ops[j].output == ops[i].inputs[k];
      assert ops[j] in ops;
    }
  }

  /**
   A graph that verifies and runs at all computes on the CPU what the evaluator computes, under every
   arithmetic under which it runs, exactly when no two-operand projection asks for an activation.
   */
  lemma GraphAgreement(A: Arith, H: Hashing, arguments: Arguments, types: Types, ops: seq<Operation>)
    requires DistinctOutputs(ops) && TopologicallyOrdered(ops) && forall id <- types :: Positive(types[id].shape)
    requires Verified(A, types, ops) && CpuRun(A, H, arguments, types, ops).Some?
    ensures (forall B: Arith | Verified(B, types, ops) && CpuRun(B, H, arguments, types, ops).Some? ::
               Agreement(B, H, arguments, types, ops))
       <==> forall op <- ops :: Plain(op)
  {
    if forall op <- ops :: Plain(op) {
      forall B: Arith | Verified(B, types, ops) && CpuRun(B, H, arguments, types, ops).Some?
        ensures Agreement(B, H, arguments, types, ops)
      {
        CpuMatchesEvaluator(B, H, arguments, types, ops, ops);
      }
    } else {
      var op :| op in ops && !Plain(op);
      var i: nat :| i < |ops| && ops[i] == op;
      RunsWithIncrements(A, H, arguments, types, ops);
      ActivationSpoils(H, arguments, types, ops, i);
    }
  }
}
