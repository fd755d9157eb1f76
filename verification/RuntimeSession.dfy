/** The steps of RuntimeSession::execute: external tensors, constants, and kernels in the arena. */
module RuntimeSteps {
  import opened Basics
  import opened GraphIR
  import opened Shapes
  import opened Tensors
  import opened Evaluator
  import opened TensorSizes
  import opened Views
  import opened CpuBackend
  import opened Lifetimes
  import opened SemanticVerifier
  import opened KernelSoundness
  import opened ArenaLayout
  import opened UnboundedStore

  /** A tensor in the caller's memory; the session never writes it. */
  datatype ExternalTensor = ExternalTensor(data: array<Scalar>, shape: Shape, byteSize: nat, contiguous: bool)

  ghost function ArgumentOf(e: ExternalTensor): Argument
    reads e.data
  {
    Argument(e.shape, e.data[..], e.byteSize, e.contiguous)
  }

  /** The snapshot is what the caller's tensors hold. */
  ghost predicate Matches(tensors: map<string, ExternalTensor>, snapshot: map<string, Argument>)
    reads set key | key in tensors :: tensors[key].data
  {
    tensors.Keys == snapshot.Keys && forall key <- tensors :: snapshot[key] == ArgumentOf(tensors[key])
  }

  /** The stated number of bytes is behind the pointer, outside the arena. */
  predicate CallerMemory(e: ExternalTensor, arena: array<Scalar>) {
    e.byteSize <= FLOAT_BYTES * e.data.Length && e.data != arena && e.data.Length <= UINT64_MAX
  }

  /** `validate_external_tensor` */
  method ValidateExternal(e: ExternalTensor, d: Descriptor) returns (s: Status)
    requires Positive(d.shape) && e.byteSize <= FLOAT_BYTES * e.data.Length
    ensures s == Success <==> ArgumentOk(ArgumentOf(e), d)
  {
    if !d.dtype.Float32? {
      return Failure(Unsupported);
    }
    if !e.contiguous {
      return Failure(Unsupported);
    }
    if e.shape != d.shape {
      return Failure(InvalidArgument);
    }
    var expected := CheckedByteSize(d);
    if expected.Err? {
      return Failure(Overflow);
    }
    if e.byteSize != expected.value {
      return Failure(InvalidArgument);
    }
    return Success;
  }

  /** A view of a validated external tensor. */
  ghost predicate ViewOf(v: View, d: Descriptor, t: Tensor)
    reads v.data
  {
    Backed(v) && v.contiguous && v.shape == d.shape == t.shape && Holds(v, t.data)
  }

  method ReadInput(inputs: map<string, ExternalTensor>, id: Id, d: Descriptor, arena: array<Scalar>,
                   ghost snapshot: Arguments)
    returns (r: Result<View>)
    requires Positive(d.shape) && forall key <- inputs :: CallerMemory(inputs[key], arena)
    requires Matches(inputs, snapshot.inputs)
    ensures r.Ok? <==> InputStep(snapshot, d, id).Some?
    ensures r.Ok? ==> r.value.data != arena && ViewOf(r.value, d, InputStep(snapshot, d, id).value)
  {
    if id !in inputs {
      return Err(NotFound);
    }
    var e := inputs[id];
    var validation := ValidateExternal(e, d);
    if validation != Success {
      return Err(InvalidArgument);
    }
    return Ok(View(e.data, 0, e.shape, e.contiguous));
  }

  method ReadParameter(H: Hashing, parameters: map<string, ExternalTensor>, attributes: Attributes, d: Descriptor,
                       arena: array<Scalar>, ghost snapshot: Arguments)
    returns (r: Result<View>)
    requires Positive(d.shape) && forall key <- parameters :: CallerMemory(parameters[key], arena)
    requires Matches(parameters, snapshot.parameters)
    ensures r.Ok? <==> ParameterStep(H, snapshot, d, attributes).Some?
    ensures r.Ok? ==> r.value.data != arena && ViewOf(r.value, d, ParameterStep(H, snapshot, d, attributes).value)
  {
    if "archive_key" !in attributes || !attributes["archive_key"].JString? {
      return Err(FailedPrecondition);
    }
    var key := attributes["archive_key"].text;
    if key !in parameters {
      return Err(NotFound);
    }
    var e := parameters[key];
    var validation := ValidateExternal(e, d);
    if validation != Success {
      return Err(InvalidArgument);
    }
    if "content_sha256" !in attributes || !attributes["content_sha256"].JString?
      || !H.wellFormed(attributes["content_sha256"].text) {
      return Err(FailedPrecondition);
    }
    CountPositive(d.shape);
    var bytes := e.data[..Count(d.shape)];
    if H.digest(bytes) != attributes["content_sha256"].text {
      return Err(FailedPrecondition);
    }
    return Ok(View(e.data, 0, e.shape, e.contiguous));
  }

  /** A scalar constant gets storage of its own. */
  method MakeConstant(A: Arith, attributes: Attributes, d: Descriptor) returns (r: Result<View>)
    ensures r.Ok? <==> ConstantStep(A, d, attributes).Some?
    ensures r.Ok? ==> fresh(r.value.data) && ViewOf(r.value, d, ConstantStep(A, d, attributes).value)
  {
    if "value" !in attributes || !attributes["value"].JFloat? || d.shape != [] {
      return Err(Unsupported);
    }
    var storage := new Scalar[1](_ => A.literal(attributes["value"]));
    return Ok(View(storage, 0, [], true));
  }

  // ----- values in memory -----

  /** A produced value: where it is, and that it is intact as long as it is needed. */
  ghost predicate ValueOk(types: Types, slots: map<Id, Slot>, arena: array<Scalar>, k: nat, id: Id, v: View, t: Tensor)
    reads v.data
  {
    && id in types && id in slots && slots[id].first < k
    && Backed(v) && v.contiguous && v.shape == types[id].shape == t.shape
    && (v.data == arena ==> slots[id].base == Some(v.base))
    && (v.data != arena || k <= slots[id].last ==> Holds(v, t.data))
  }

  /** Before schedule index k, every value still needed is intact in memory. */
  ghost predicate StoreOk(types: Types, slots: map<Id, Slot>, arena: array<Scalar>, k: nat,
                          values: map<Id, View>, env: Env)
    reads set id | id in values :: values[id].data
  {
    values.Keys == env.Keys && forall id <- values :: ValueOk(types, slots, arena, k, id, values[id], env[id])
  }

  lemma StoreGrows(types: Types, slots: map<Id, Slot>, arena: array<Scalar>, k: nat,
                   values: map<Id, View>, env: Env, id: Id, v: View, t: Tensor)
    requires StoreOk(types, slots, arena, k, values, env) && ValueOk(types, slots, arena, k, id, v, t)
    ensures StoreOk(types, slots, arena, k, values[id := v], env[id := t])
  {
  }

  /** Views of two values needed at the same time do not overlap. */
  lemma NeededApart(types: Types, slots: map<Id, Slot>, arena: array<Scalar>, a: Id, v: View, b: Id, w: View)
    requires Layout(types, slots, arena.Length) && a in slots && b in slots && a != b && Overlap(slots[a], slots[b])
    requires Backed(v) && Backed(w) && v.shape == types[a].shape && w.shape == types[b].shape
    requires v.data == arena ==> slots[a].base == Some(v.base)
    requires w.data == arena ==> slots[b].base == Some(w.base)
    requires w.data == arena
    ensures Apart(v, w)
  {
    if v.data == arena {
      assert SlotsApart(types, slots, a, b);
    }
  }

  method GatherOperands(op: Operation, values: map<Id, View>) returns (r: Result<seq<View>>)
    ensures r.Ok? <==> forall j | 0 <= j < |op.inputs| :: op.inputs[j] in values
    ensures r.Ok? ==> |r.value| == |op.inputs|
    ensures r.Ok? ==> forall j | 0 <= j < |op.inputs| :: r.value[j] == values[op.inputs[j]]
  {
    var operands: seq<View> := [];
    for j := 0 to |op.inputs|
      invariant |operands| == j
      invariant forall i | 0 <= i < j :: op.inputs[i] in values && operands[i] == values[op.inputs[i]]
    {
      if op.inputs[j] !in values {
        return Err(FailedPrecondition);
      }
      operands := operands + [values[op.inputs[j]]];
    }
    return Ok(operands);
  }

  /** What the kernel needs from the layout: operand views denote the store, away from the output. */
  lemma OperandsReady(types: Types, slots: map<Id, Slot>, arena: array<Scalar>, k: nat,
                      values: map<Id, View>, env: Env, op: Operation, operands: seq<View>, output: View)
    requires Layout(types, slots, arena.Length) && StoreOk(types, slots, arena, k, values, env)
    requires op.output in slots && slots[op.output].first == k <= slots[op.output].last
    requires forall j | 0 <= j < |op.inputs| :: op.inputs[j] in values && k <= slots[op.inputs[j]].last
    requires |operands| == |op.inputs| && forall j | 0 <= j < |op.inputs| :: operands[j] == values[op.inputs[j]]
    requires Backed(output) && output.data == arena && output.shape == types[op.output].shape
    requires slots[op.output].base == Some(output.base)
    ensures KernelViews(operands, output) && Denote(operands, Lookup(env, op.inputs))
    ensures forall j | 0 <= j < |operands| :: operands[j].contiguous
    ensures forall j | 0 <= j < |operands| :: operands[j].shape == types[op.inputs[j]].shape
  {
    forall j | 0 <= j < |operands|
      ensures Backed(operands[j]) && Apart(operands[j], output) && operands[j].contiguous
      ensures operands[j].shape == types[op.inputs[j]].shape
      ensures TensorOf(operands[j]) == env[op.inputs[j]]
    {
      var id := op.inputs[j];
      assert ValueOk(types, slots, arena, k, id, values[id], env[id]);
      NeededApart(types, slots, arena, id, values[id], op.output, output);
      SegmentIsTensor(operands[j], env[id]);
    }
  }

  /** Values still needed do not overlap the output of operation k. */
  ghost predicate OthersApart(slots: map<Id, Slot>, k: nat, values: map<Id, View>, output: View)
    requires Backed(output) && forall id <- values :: id in slots && Backed(values[id])
  {
    forall id <- values | values[id].data != output.data || k <= slots[id].last :: Apart(values[id], output)
  }

  lemma StoreApart(types: Types, slots: map<Id, Slot>, arena: array<Scalar>, k: nat,
                   values: map<Id, View>, env: Env, id: Id, output: View)
    requires Layout(types, slots, arena.Length) && StoreOk(types, slots, arena, k, values, env)
    requires id in slots && slots[id].first == k <= slots[id].last
    requires Backed(output) && output.data == arena && output.shape == types[id].shape
    requires slots[id].base == Some(output.base)
    ensures forall other <- values :: other in slots && Backed(values[other])
    ensures OthersApart(slots, k, values, output)
  {
    forall other <- values ensures other in slots && Backed(values[other])
      ensures values[other].data != output.data || k <= slots[other].last ==> Apart(values[other], output)
    {
      assert ValueOk(types, slots, arena, k, other, values[other], env[other]);
      if values[other].data == output.data && k <= slots[other].last {
        NeededApart(types, slots, arena, other, values[other], id, output);
      }
    }
  }

  /** A computed operation: run the kernel with its output in the arena. */
  method Compute(A: Arith, tiled: bool, op: Operation, d: Descriptor, offset: Option<nat>, arena: array<Scalar>,
                 values: map<Id, View>, ghost types: Types, ghost slots: map<Id, Slot>, ghost k: nat, ghost env: Env)
    returns (r: Result<View>)
    requires arena.Length <= UINT64_MAX && Layout(types, slots, arena.Length)
    requires StoreOk(types, slots, arena, k, values, env)
    requires Resolved(types, op) && LinearTyped(types, op) && types[op.output] == d && Positive(d.shape)
    requires op.output in slots && slots[op.output].first == k <= slots[op.output].last
    requires offset.Some? && slots[op.output].base == Some(offset.value / FLOAT_BYTES)
    requires forall j | 0 <= j < |op.inputs| :: op.inputs[j] in values && k <= slots[op.inputs[j]].last
    modifies arena
    ensures r.Ok? <==> CpuOperation(A, op, Lookup(env, op.inputs), d.shape).Some?
    ensures r.Ok? ==> StoreOk(types, slots, arena, k + 1, values, env)
    ensures r.Ok? ==> r.value.data == arena && slots[op.output].base == Some(r.value.base)
    ensures r.Ok? ==> ViewOf(r.value, d, CpuOperation(A, op, Lookup(env, op.inputs), d.shape).value)
  {
    var gathered := GatherOperands(op, values);
    if gathered.Err? {
      return Err(FailedPrecondition);
    }
    var output := View(arena, offset.value / FLOAT_BYTES, d.shape, true);
    CountPositive(d.shape);
    OperandsReady(types, slots, arena, k, values, env, op, gathered.value, output);
    StoreApart(types, slots, arena, k, values, env, op.output, output);
    StoreParts(types, slots, arena, k, values, env);
    TypedLinearIsTrusted(types, op, gathered.value, output);
    var s := RunKernel(A, tiled, op, gathered.value, output, arena, values, types, slots, k, env,
                       Lookup(env, op.inputs));
    if s != Success {
      return Err(InvalidArgument);
    }
    return Ok(output);
  }

  method RunKernel(A: Arith, tiled: bool, op: Operation, operands: seq<View>, output: View, arena: array<Scalar>,
                   ghost values: map<Id, View>, ghost types: Types, ghost slots: map<Id, Slot>, ghost k: nat,
                   ghost env: Env, ghost tensors: seq<Tensor>)
    returns (s: Status)
    requires KernelViews(operands, output) && Denote(operands, tensors) && LinearTrusted(op, operands, output)
    requires output.contiguous && output.data == arena && forall j | 0 <= j < |operands| :: operands[j].contiguous
    requires AllLocated(types, slots, arena, k, values, env) && OutsideHeld(arena, values, env)
    requires NeededHeld(slots, arena, k, values, env, arena[..]) && OthersApart(slots, k, values, output)
    modifies arena
    ensures Delivers(s, CpuOperation(A, op, tensors, output.shape), output)
    ensures StoreOk(types, slots, arena, k + 1, values, env)
  {
    ghost var before := arena[..];
    s := Execute(A, tiled, op, operands, output, tensors);
    NeededKept(types, slots, arena, k, values, env, output, before, arena[..]);
    StoreParts(types, slots, arena, k + 1, values, env);
  }

  // ----- what a kernel leaves intact -----

  /** The parts of ValueOk that do not depend on memory. */
  ghost predicate Located(types: Types, slots: map<Id, Slot>, arena: array<Scalar>, k: nat, id: Id, v: View, t: Tensor) {
    && id in types && id in slots && slots[id].first < k
    && Backed(v) && v.contiguous && v.shape == types[id].shape == t.shape
    && (v.data == arena ==> slots[id].base == Some(v.base))
  }

  ghost predicate AllLocated(types: Types, slots: map<Id, Slot>, arena: array<Scalar>, k: nat,
                             values: map<Id, View>, env: Env)
  {
    values.Keys == env.Keys && forall id <- values :: Located(types, slots, arena, k, id, values[id], env[id])
  }

  /** Values outside the arena are intact. */
  ghost predicate OutsideHeld(arena: array<Scalar>, values: map<Id, View>, env: Env)
    requires values.Keys == env.Keys
    requires forall id <- values :: Backed(values[id]) && values[id].shape == env[id].shape
    reads set id | id in values && values[id].data != arena :: values[id].data
  {
    forall id <- values | values[id].data != arena :: Holds(values[id], env[id].data)
  }

  /** The elements of x are in `memory` from `base` on. */
  ghost predicate HeldIn(memory: seq<Scalar>, base: nat, x: seq<Scalar>) {
    base + |x| <= |memory| && forall p | base <= p < base + |x| :: memory[p] == x[p - base]
  }

  /** Values in the arena that are needed at k or later are intact in this image of the arena. */
  ghost predicate NeededHeld(slots: map<Id, Slot>, arena: array<Scalar>, k: nat, values: map<Id, View>, env: Env,
                             memory: seq<Scalar>)
  {
    forall id <- values | id in env && id in slots && values[id].data == arena && k <= slots[id].last ::
      HeldIn(memory, values[id].base, env[id].data)
  }

  lemma StoreParts(types: Types, slots: map<Id, Slot>, arena: array<Scalar>, k: nat, values: map<Id, View>, env: Env)
    ensures StoreOk(types, slots, arena, k, values, env) <==>
      (AllLocated(types, slots, arena, k, values, env)
       && OutsideHeld(arena, values, env) && NeededHeld(slots, arena, k, values, env, arena[..]))
  {
    if AllLocated(types, slots, arena, k, values, env) && OutsideHeld(arena, values, env)
      && NeededHeld(slots, arena, k, values, env, arena[..]) {
      forall id <- values ensures ValueOk(types, slots, arena, k, id, values[id], env[id]) {
        assert Located(types, slots, arena, k, id, values[id], env[id]);
      }
    }
    if StoreOk(types, slots, arena, k, values, env) {
      forall id <- values ensures Located(types, slots, arena, k, id, values[id], env[id]) {
        assert ValueOk(types, slots, arena, k, id, values[id], env[id]);
      }
      forall id <- values | values[id].data == arena && k <= slots[id].last
        ensures HeldIn(arena[..], values[id].base, env[id].data)
      {
        assert ValueOk(types, slots, arena, k, id, values[id], env[id]);
      }
    }
  }

  /** Writing the output leaves every other value that is still needed intact. */
  lemma NeededKept(types: Types, slots: map<Id, Slot>, arena: array<Scalar>, k: nat, values: map<Id, View>, env: Env,
                   output: View, before: seq<Scalar>, after: seq<Scalar>)
    requires AllLocated(types, slots, arena, k, values, env) && NeededHeld(slots, arena, k, values, env, before)
    requires Backed(output) && output.data == arena && |before| == |after| == arena.Length
    requires OthersApart(slots, k, values, output)
    requires forall p | 0 <= p < |after| && !(output.base <= p < output.base + Cells(output)) :: after[p] == before[p]
    ensures AllLocated(types, slots, arena, k + 1, values, env)
    ensures NeededHeld(slots, arena, k + 1, values, env, after)
  {
    forall id <- values ensures Located(types, slots, arena, k + 1, id, values[id], env[id])
      ensures values[id].data == arena && k + 1 <= slots[id].last ==> HeldIn(after, values[id].base, env[id].data)
    {
      assert Located(types, slots, arena, k, id, values[id], env[id]);
      if values[id].data == arena && k <= slots[id].last {
        assert Apart(values[id], output);
        assert HeldIn(before, values[id].base, env[id].data);
      }
    }
  }

  /** One iteration of the execution loop, with everything already looked up. */
  method ExecuteOperation(A: Arith, H: Hashing, tiled: bool, op: Operation, d: Descriptor, offset: Option<nat>,
                          byteSize: nat, arena: array<Scalar>,
                          inputs: map<Id, ExternalTensor>, parameters: map<string, ExternalTensor>,
                          values: map<Id, View>, ghost types: Types, ghost slots: map<Id, Slot>, ghost k: nat,
                          ghost env: Env, ghost snapshot: Arguments, ghost expected: Option<Tensor>)
    returns (r: Result<View>)
    requires forall key <- inputs :: CallerMemory(inputs[key], arena)
    requires forall key <- parameters :: CallerMemory(parameters[key], arena)
    requires Matches(inputs, snapshot.inputs) && Matches(parameters, snapshot.parameters)
    requires arena.Length <= UINT64_MAX && Layout(types, slots, arena.Length)
    requires StoreOk(types, slots, arena, k, values, env)
    requires Resolved(types, op) && LinearTyped(types, op) && types[op.output] == d && Positive(d.shape)
    requires op.output in slots && slots[op.output].first == k <= slots[op.output].last
    requires !op.IsDeclaration() ==> slots[op.output].base.Some?
    requires slots[op.output].base == if offset.Some? then Some(offset.value / FLOAT_BYTES) else None
    requires offset.Some? ==> offset.value + byteSize <= FLOAT_BYTES * arena.Length
    requires forall j | 0 <= j < |op.inputs| :: op.inputs[j] in values && k <= slots[op.inputs[j]].last
    requires op.kind.Input? ==> expected == InputStep(snapshot, d, op.output)
    requires op.kind.Parameter? ==> expected == ParameterStep(H, snapshot, d, op.attributes)
    requires op.kind.Constant? ==> expected == ConstantStep(A, d, op.attributes)
    requires !op.IsDeclaration() ==> expected == CpuOperation(A, op, Lookup(env, op.inputs), d.shape)
    modifies arena
    ensures r.Ok? <==> expected.Some?
    ensures r.Ok? ==> StoreOk(types, slots, arena, k + 1, values, env)
    ensures r.Ok? ==> ValueOk(types, slots, arena, k + 1, op.output, r.value, expected.value)
    ensures r.Ok? ==> ViewOf(r.value, d, expected.value)
  {
    if op.kind.Input? {
      r := ReadInput(inputs, op.output, d, arena, snapshot);
      StoreAges(types, slots, arena, k, values, env);
    } else if op.kind.Parameter? {
      r := ReadParameter(H, parameters, op.attributes, d, arena, snapshot);
      StoreAges(types, slots, arena, k, values, env);
    } else if op.kind.Constant? {
      r := MakeConstant(A, op.attributes, d);
      StoreAges(types, slots, arena, k, values, env);
    } else {
      if offset.None? {
        return Err(FailedPrecondition);
      }
      if offset.value > FLOAT_BYTES * arena.Length || byteSize > FLOAT_BYTES * arena.Length - offset.value {
        return Err(Overflow);
      }
      r := Compute(A, tiled, op, d, offset, arena, values, types, slots, k, env);
      assert r.Ok? ==> ViewOf(r.value, d, expected.value);
    }
  }

  /** The step of the unbounded store, case by case. */
  lemma StepCases(A: Arith, H: Hashing, arguments: Arguments, types: Types, op: Operation, env: Env)
    requires Resolved(types, op) && Positive(types[op.output].shape)
    requires forall j | 0 <= j < |op.inputs| :: op.inputs[j] in env
    ensures var d, expected := types[op.output], CpuStep(A, H, arguments, types, op, env);
      && (op.kind.Input? ==> expected == InputStep(arguments, d, op.output))
      && (op.kind.Parameter? ==> expected == ParameterStep(H, arguments, d, op.attributes))
      && (op.kind.Constant? ==> expected == ConstantStep(A, d, op.attributes))
      && (!op.IsDeclaration() ==> expected == CpuOperation(A, op, Lookup(env, op.inputs), d.shape))
  {
  }

  lemma StoreAges(types: Types, slots: map<Id, Slot>, arena: array<Scalar>, k: nat, values: map<Id, View>, env: Env)
    requires StoreOk(types, slots, arena, k, values, env)
    ensures StoreOk(types, slots, arena, k + 1, values, env)
  {
    forall id <- values ensures ValueOk(types, slots, arena, k + 1, id, values[id], env[id]) {
      assert ValueOk(types, slots, arena, k, id, values[id], env[id]);
    }
  }
}

/** cpp/src/runtime/runtime_session.cpp */
module Runtime {
  import opened Basics
  import opened GraphIR
  import opened Shapes
  import opened Tensors
  import opened Sequential
  import opened Evaluator
  import opened Views
  import opened OperationOrder
  import opened ExecutionSchedule
  import opened Lifetimes
  import opened MemoryPlanner
  import opened SemanticVerifier
  import opened GraphInvariants
  import opened KernelSoundness
  import opened ArenaLayout
  import opened UnboundedStore
  import opened RuntimeSteps

  datatype TraceRecord = TraceRecord(operationId: Id, kind: OperationType, shape: Shape, arenaOffset: Option<nat>)

  ghost function ArgumentsOf(inputs: map<Id, ExternalTensor>, parameters: map<string, ExternalTensor>): Arguments
    reads set id | id in inputs :: inputs[id].data
    reads set key | key in parameters :: parameters[key].data
  {
    Arguments(map id | id in inputs :: ArgumentOf(inputs[id]),
              map key | key in parameters :: ArgumentOf(parameters[key]))
  }

  /** The elements a view covers. */
  method CopyTensor(v: View, ghost t: Tensor) returns (copy: RawTensor)
    requires Backed(v) && v.shape == t.shape && Holds(v, t.data)
    ensures copy == t
  {
    CountPositive(v.shape);
    SegmentIsTensor(v, t);
    copy := RawTensor.Tensor(v.shape, v.data[v.base..v.base + Count(v.shape)]);
  }

  lemma OperandsAvailable(step: (Operation, Env) -> Option<Tensor>, ops: seq<Operation>, k: nat, env: Env)
    requires TopologicallyOrdered(ops) && k < |ops| && Run(step, map[], ops, k) == Some(env)
    ensures forall j | 0 <= j < |ops[k].inputs| :: ops[k].inputs[j] in env
  {
    RunDefines(step, map[], ops, k);
    forall j | 0 <= j < |ops[k].inputs| ensures ops[k].inputs[j] in env {
      assert ProducedBefore(ops, k, ops[k].inputs[j]);
    }
  }

  class RuntimeSession {
    const A: Arith
    const H: Hashing
    const tiled: bool
    const graph: GraphData
    const plan: MemoryPlan
    const arena: array<Scalar>
    var executed: bool
    var captured: map<Id, RawTensor>
    var trace: seq<TraceRecord>
    ghost const types: map<Id, Descriptor>
    ghost const slots: map<Id, Slot>
    ghost const scheduled: seq<Operation>

    /** What loading establishes, for good: everything it mentions is constant. */
    ghost predicate Loaded() {
      && WellFormedGraph(graph) && AllFloat(graph.values) && types == Descriptors(graph.values)
      && Verified(A, types, graph.operations)
      && arena.Length <= UINT64_MAX && Layout(types, slots, arena.Length)
      && RangesChecked(types, plan.tensors, FLOAT_BYTES * arena.Length)
      && slots == SlotsOf(graph.values, plan.tensors)
      && InScheduleOrder(graph.operations, plan.schedule, scheduled)
      && SameOperations(scheduled, graph.operations)
      && DistinctOutputs(scheduled) && TopologicallyOrdered(scheduled)
      && Follows(types, slots, scheduled)
    }

    /** The session invariant: after a successful call every declared output is retained. */
    ghost predicate Valid()
      reads this`executed, this`captured
    {
      Loaded() && (executed ==> forall id <- graph.outputIds :: id in captured)
    }

    constructor (A: Arith, H: Hashing, tiled: bool, graph: GraphData, plan: MemoryPlan)
      requires WellFormedGraph(graph) && AllFloat(graph.values)
      requires Verified(A, Descriptors(graph.values), graph.operations)
      requires IsPlanFor(graph, ALIGNMENT, plan) && plan.arenaSize <= UINT64_MAX
      ensures Valid() && fresh(arena)
      ensures this.A == A && this.H == H && this.graph == graph && this.plan == plan && !executed
    {
      this.A, this.H, this.tiled, this.graph, this.plan := A, H, tiled, graph, plan;
      var slots := PlanSlots(graph, plan);
      var scheduled := PlanSchedule(graph, plan.schedule, slots);
      this.types, this.slots, this.scheduled := Descriptors(graph.values), slots, scheduled;
      arena := new Scalar[plan.arenaSize / FLOAT_BYTES](_ => A.zero);
      executed, captured, trace := false, map[], [];
    }

    /** Facts about the operation at schedule index k that every lookup of the loop relies on. */
    ghost predicate Ready(k: nat) {
      && k < |plan.schedule| == |scheduled|
      && arena.Length <= UINT64_MAX && Layout(types, slots, arena.Length)
      && FindOperation(graph.operations, plan.schedule[k].operationId) == Some(scheduled[k])
      && var op := scheduled[k];
      && Resolved(types, op) && LinearTyped(types, op) && Positive(types[op.output].shape)
      && op.output in slots && slots[op.output].first == k <= slots[op.output].last
      && (!op.IsDeclaration() ==> slots[op.output].base.Some?)
      && FindValue(graph.values, op.output).Some?
      && FindValue(graph.values, op.output).value.descriptor == types[op.output]
      && FindLifetime(plan.tensors, op.output).Some?
      && slots[op.output] == SlotOf(FindLifetime(plan.tensors, op.output).value)
      && RangeChecked(FindLifetime(plan.tensors, op.output).value, FLOAT_BYTES * arena.Length)
      && forall j | 0 <= j < |op.inputs| :: op.inputs[j] in slots && k <= slots[op.inputs[j]].last
    }

    lemma ReadyAt(k: nat)
      requires Loaded() && k < |plan.schedule|
      ensures Ready(k)
    {
      var op := scheduled[k];
      assert op in graph.operations;
      var i :| 0 <= i < |graph.operations| && graph.operations[i] == op;
      assert Resolved(types, graph.operations[i]) && OperationOk(A, types, graph.operations[i]);
      var m := ValueOf(graph.values, op.output);
      assert graph.values[m] in graph.values;
      FindValueAt(graph.values, m);
      VerifiedLinearIsTyped(A, types, op);
    }

    /** One iteration of the loop: look everything up, then run the operation. */
    method ExecuteNext(k: nat, inputs: map<Id, ExternalTensor>, parameters: map<string, ExternalTensor>,
                       values: map<Id, View>, ghost env: Env, ghost snapshot: Arguments,
                       ghost step: (Operation, Env) -> Option<Tensor>)
      returns (r: Result<View>)
      requires Ready(k) && Implements(step, A, H, snapshot, types)
      requires forall key <- inputs :: CallerMemory(inputs[key], arena)
      requires forall key <- parameters :: CallerMemory(parameters[key], arena)
      requires Matches(inputs, snapshot.inputs) && Matches(parameters, snapshot.parameters)
      requires StoreOk(types, slots, arena, k, values, env)
      requires forall j | 0 <= j < |scheduled[k].inputs| :: scheduled[k].inputs[j] in env
      modifies arena
      ensures r.Ok? <==> step(scheduled[k], env).Some?
      ensures r.Ok? ==> StoreOk(types, slots, arena, k + 1, values, env)
      ensures r.Ok? ==> ValueOk(types, slots, arena, k + 1, scheduled[k].output, r.value,
                                step(scheduled[k], env).value)
      ensures r.Ok? ==> ViewOf(r.value, types[scheduled[k].output], step(scheduled[k], env).value)
    {
      var operation := FindOperation(graph.operations, plan.schedule[k].operationId);
      if operation.None? {
        return Err(FailedPrecondition);
      }
      var op := operation.value;
      var metadata := FindValue(graph.values, op.output);
      if metadata.None? {
        return Err(FailedPrecondition);
      }
      var lifetime := FindLifetime(plan.tensors, op.output);
      if lifetime.None? {
        return Err(FailedPrecondition);
      }
      StepCases(A, H, snapshot, types, op, env);
      r := ExecuteOperation(A, H, tiled, op, metadata.value.descriptor, lifetime.value.arenaOffset, lifetime.value.byteSize, arena,
                            inputs, parameters, values, types, slots, k, env, snapshot,
                            CpuStep(A, H, snapshot, types, op, env));
    }

    /** The tensors captured so far. */
    ghost predicate CapturedOk(captures: set<Id>, env: Env)
      reads this`captured
    {
      captured.Keys == captures * env.Keys && forall id <- captured :: captured[id] == env[id]
    }

    /** The trace lists the first k scheduled operations with their shapes and planned arena offsets. */
    ghost predicate TraceOk(k: nat)
      requires k <= |scheduled|
      reads this`trace
    {
      |trace| == k && forall j | 0 <= j < k ::
        && trace[j].operationId == scheduled[j].id && trace[j].kind == scheduled[j].kind
        && scheduled[j].output in types && trace[j].shape == types[scheduled[j].output].shape
        && FindLifetime(plan.tensors, scheduled[j].output).Some?
        && trace[j].arenaOffset == FindLifetime(plan.tensors, scheduled[j].output).value.arenaOffset
    }

    /** The caller's tensors are where they should be, and hold what they held at the call. */
    ghost predicate CallerOk(inputs: map<Id, ExternalTensor>, parameters: map<string, ExternalTensor>,
                             snapshot: Arguments)
      reads set key | key in inputs :: inputs[key].data
      reads set key | key in parameters :: parameters[key].data
    {
      && (forall key <- inputs :: CallerMemory(inputs[key], arena))
      && (forall key <- parameters :: CallerMemory(parameters[key], arena))
      && Matches(inputs, snapshot.inputs) && Matches(parameters, snapshot.parameters)
    }

    /** After k operations, memory, captures and trace agree with the unbounded store. */
    ghost predicate Progress(k: nat, values: map<Id, View>, env: Env, captures: set<Id>,
                             step: (Operation, Env) -> Option<Tensor>)
      reads this`captured, this`trace
      reads set id | id in values :: values[id].data
    {
      && k <= |scheduled| && Run(step, map[], scheduled, k) == Some(env)
      && StoreOk(types, slots, arena, k, values, env) && CapturedOk(captures, env) && TraceOk(k)
    }

    /** The execution loop: in the shared arena it computes what the unbounded store computes. */
    method RunSchedule(inputs: map<Id, ExternalTensor>, parameters: map<string, ExternalTensor>, captures: set<Id>,
                       ghost snapshot: Arguments, ghost step: (Operation, Env) -> Option<Tensor>)
      returns (s: Status)
      requires |scheduled| == |plan.schedule| && (forall k | 0 <= k < |scheduled| :: Ready(k))
      requires TopologicallyOrdered(scheduled) && Implements(step, A, H, snapshot, types)
      requires captured == map[] && trace == [] && CallerOk(inputs, parameters, snapshot)
      modifies this`captured, this`trace, arena
      ensures s == Success <==> Run(step, map[], scheduled, |scheduled|).Some?
      ensures s == Success ==> CapturedOk(captures, Run(step, map[], scheduled, |scheduled|).value)
      ensures s == Success ==> TraceOk(|scheduled|)
    {
      hide Ready, TopologicallyOrdered, Implements, Matches, CallerMemory, ValueOk;
      ghost var env: Env := map[];
      var values: map<Id, View> := map[];
      for k := 0 to |plan.schedule|
        invariant CallerOk(inputs, parameters, snapshot)
        invariant Progress(k, values, env, captures, step)
      {
        assert Ready(k);
        s, values, env := Iterate(k, inputs, parameters, captures, values, env, snapshot, step);
        if s != Success {
          RunStops(step, map[], scheduled, k + 1, |scheduled|);
          return;
        }
      }
      return Success;
    }

    /** One iteration: execute, remember where the value is, record it. */
    method Iterate(k: nat, inputs: map<Id, ExternalTensor>, parameters: map<string, ExternalTensor>, captures: set<Id>,
                   values: map<Id, View>, ghost env: Env, ghost snapshot: Arguments,
                   ghost step: (Operation, Env) -> Option<Tensor>)
      returns (s: Status, next: map<Id, View>, ghost grown: Env)
      requires Ready(k) && TopologicallyOrdered(scheduled) && Implements(step, A, H, snapshot, types)
      requires CallerOk(inputs, parameters, snapshot) && Progress(k, values, env, captures, step)
      modifies this`captured, this`trace, arena
      ensures CallerOk(inputs, parameters, snapshot)
      ensures s == Success ==> Progress(k + 1, next, grown, captures, step)
      ensures s != Success ==> Run(step, map[], scheduled, k + 1).None?
    {
      hide TopologicallyOrdered, Implements, ValueOk, Layout, RangeChecked, LinearTyped;
      hide StoreOk, CapturedOk, TraceOk;
      next, grown := values, env;
      OperandsAvailable(step, scheduled, k, env);
      var r := ExecuteFramed(k, inputs, parameters, captures, values, env, snapshot, step);
      if r.Err? {
        return Failure(r.code), next, grown;
      }
      var op := FindOperation(graph.operations, plan.schedule[k].operationId).value;
      ghost var t := step(op, env).value;
      Remember(k, op, r.value, values, captures, env, t, step);
      next, grown := values[op.output := r.value], env[op.output := t];
      s := Success;
    }

    /** Executing leaves the caller's tensors, the captures and the trace alone. */
    method ExecuteFramed(k: nat, inputs: map<Id, ExternalTensor>, parameters: map<string, ExternalTensor>,
                         ghost captures: set<Id>, values: map<Id, View>, ghost env: Env, ghost snapshot: Arguments,
                         ghost step: (Operation, Env) -> Option<Tensor>)
      returns (r: Result<View>)
      requires Ready(k) && Implements(step, A, H, snapshot, types) && CallerOk(inputs, parameters, snapshot)
      requires StoreOk(types, slots, arena, k, values, env) && CapturedOk(captures, env) && TraceOk(k)
      requires forall j | 0 <= j < |scheduled[k].inputs| :: scheduled[k].inputs[j] in env
      modifies arena
      ensures CallerOk(inputs, parameters, snapshot) && CapturedOk(captures, env) && TraceOk(k)
      ensures r.Ok? <==> step(scheduled[k], env).Some?
      ensures r.Ok? ==> StoreOk(types, slots, arena, k + 1, values, env)
      ensures r.Ok? ==> ValueOk(types, slots, arena, k + 1, scheduled[k].output, r.value,
                                step(scheduled[k], env).value)
      ensures r.Ok? ==> ViewOf(r.value, types[scheduled[k].output], step(scheduled[k], env).value)
    {
      hide StoreOk, ValueOk, Implements, Layout, RangeChecked, LinearTyped;
      r := ExecuteNext(k, inputs, parameters, values, env, snapshot, step);
    }

    /** After a successful call the value is remembered, captured if asked for, and recorded. */
    method Remember(k: nat, op: Operation, v: View, values: map<Id, View>, captures: set<Id>, ghost env: Env,
                    ghost t: Tensor, ghost step: (Operation, Env) -> Option<Tensor>)
      requires k < |scheduled| && scheduled[k] == op && step(op, env) == Some(t)
      requires Run(step, map[], scheduled, k) == Some(env) && CapturedOk(captures, env) && TraceOk(k)
      requires StoreOk(types, slots, arena, k + 1, values, env) && ValueOk(types, slots, arena, k + 1, op.output, v, t)
      requires FindLifetime(plan.tensors, op.output).Some? && op.output in types && ViewOf(v, types[op.output], t)
      modifies this`captured, this`trace
      ensures Progress(k + 1, values[op.output := v], env[op.output := t], captures, step)
    {
      StoreGrows(types, slots, arena, k + 1, values, env, op.output, v, t);
      hide ValueOk, StoreOk;
      Record(op, v, captures, env, t);
    }

    /** Appends to the trace and copies the value if it was asked for. */
    method Record(op: Operation, v: View, captures: set<Id>, ghost env: Env, ghost t: Tensor)
      requires CapturedOk(captures, env) && |trace| < |scheduled| && scheduled[|trace|] == op && TraceOk(|trace|)
      requires FindLifetime(plan.tensors, op.output).Some?
      requires op.output in types && t.shape == types[op.output].shape
      requires Backed(v) && v.shape == t.shape && Holds(v, t.data)
      modifies this`captured, this`trace
      ensures CapturedOk(captures, env[op.output := t]) && TraceOk(old(|trace|) + 1)
    {
      var lifetime := FindLifetime(plan.tensors, op.output).value;
      trace := trace + [TraceRecord(op.id, op.kind, v.shape, lifetime.arenaOffset)];
      if op.output in captures {
        var copy := CopyTensor(v, t);
        captured := captured[op.output := copy];
      }
    }

    /** The store after running the call with one cell per value; None when it fails. */
    ghost function StoreOf(arguments: Arguments): Option<Env> {
      CpuRun(A, H, arguments, types, scheduled)
    }

    lemma TypesPositive()
      requires Loaded()
      ensures forall id <- types :: Positive(types[id].shape)
    {
      DescriptorsPositive(graph.values);
    }

    /** A call succeeds exactly when each operation's arguments and attributes are acceptable. */
    lemma CallSucceeds(arguments: Arguments)
      requires Loaded()
      ensures StoreOf(arguments).Some? <==> forall op <- graph.operations :: CallOk(A, H, arguments, types, op)
    {
      TypesPositive();
      VerifiedElsewhere(A, types, graph.operations, scheduled);
      VerifiedGraphRuns(A, H, arguments, types, scheduled);
      if forall op <- graph.operations :: CallOk(A, H, arguments, types, op) {
        forall i | 0 <= i < |scheduled| ensures CallOk(A, H, arguments, types, scheduled[i]) {
          assert scheduled[i] in graph.operations;
        }
      }
      if StoreOf(arguments).Some? {
        forall op <- graph.operations ensures CallOk(A, H, arguments, types, op) {
          assert op in scheduled;
        }
      }
    }

    /** A successful call computes what the reference evaluator computes, in the graph's own order. */
    lemma CallMatchesEvaluator(arguments: Arguments)
      requires Loaded() && TopologicallyOrdered(graph.operations) && forall op <- graph.operations :: Plain(op)
      requires StoreOf(arguments).Some?
      ensures Evaluate(A, FeedsOf(arguments), types, graph.operations).Some?
      ensures forall op <- graph.operations ::
        AgreeAt(StoreOf(arguments).value, Evaluate(A, FeedsOf(arguments), types, graph.operations).value, op.output)
    {
      TypesPositive();
      CpuMatchesEvaluator(A, H, arguments, types, graph.operations, scheduled);
    }

    /** Exactly the captures are retained, each with its value in the store. */
    ghost predicate Retained(captures: set<Id>, store: Option<Env>)
      reads this`captured
    {
      && store.Some? && captured.Keys == captures
      && forall id <- captured :: id in store.value && captured[id] == store.value[id]
    }

    /** Every tensor of the caller has its bytes, outside the arena. */
    predicate CallersFit(inputs: map<Id, ExternalTensor>, parameters: map<string, ExternalTensor>) {
      && (forall key <- inputs :: CallerMemory(inputs[key], arena))
      && (forall key <- parameters :: CallerMemory(parameters[key], arena))
    }

    /** Retained are exactly the values asked for and the declared outputs, as the store has them. */
    ghost predicate RequestedRetained(captureIds: seq<Id>, store: Env)
      reads this`captured
    {
      && (forall id :: id in captured <==> id in captureIds || id in graph.outputIds)
      && forall id <- captured :: AgreeAt(captured, store, id)
    }

    ghost predicate IsValue(id: Id) {
      exists v <- graph.values :: v.id == id
    }

    /** The loops that check the request: every capture is a value, and every tensor fed stands for a graph input. */
    method CheckRequest(captures: set<Id>, inputIds: set<Id>) returns (s: Status)
      ensures s == if exists id <- captures :: !IsValue(id) then Failure(NotFound)
                   else if exists id <- inputIds :: id !in graph.inputIds then Failure(InvalidArgument) else Success
    {
      var pending := captures;
      while pending != {}
        invariant pending <= captures
        invariant forall id <- captures - pending :: IsValue(id)
      {
        var id :| id in pending;
        if FindValue(graph.values, id).None? {
          NotFoundValue(graph.values, id);
          return Failure(NotFound);
        }
        var v := FoundValue(graph.values, id);
        pending := pending - {id};
      }
      if id :| id in inputIds && id !in graph.inputIds {
        return Failure(InvalidArgument);
      }
      return Success;
    }

    /** The declared outputs are values. */
    lemma OutputsAreValues()
      requires Loaded()
      ensures forall id <- graph.outputIds :: IsValue(id)
    {
      forall id <- graph.outputIds ensures IsValue(id) {
        assert Named(graph.values, id, OutputValue);
        var k :| 0 <= k < |graph.values| && graph.values[k].id == id && graph.values[k].kind == OutputValue;
        assert graph.values[k] in graph.values;
      }
    }

    /**
     `execute`. Running in the shared arena succeeds exactly when running with one cell per value does, whatever
     the arena held before the call, and retains exactly the values asked for and the declared outputs.
     */
    method Execute(inputs: map<Id, ExternalTensor>, parameters: map<string, ExternalTensor>, captureIds: seq<Id>)
      returns (s: Status)
      requires Valid()
      requires CallersFit(inputs, parameters)
      modifies this`executed, this`captured, this`trace, arena
      ensures Valid() && (executed <==> s == Success)
      ensures s == Success <==>
        && (forall id <- captureIds :: IsValue(id)) && (forall id <- inputs :: id in graph.inputIds)
        && StoreOf(old(ArgumentsOf(inputs, parameters))).Some?
      ensures (exists id <- captureIds :: !IsValue(id)) ==> s == Failure(NotFound)
      ensures (forall id <- captureIds :: IsValue(id)) && (exists id <- inputs :: id !in graph.inputIds) ==>
        s == Failure(InvalidArgument)
      ensures s == Success ==> RequestedRetained(captureIds, StoreOf(old(ArgumentsOf(inputs, parameters))).value)
      ensures s == Success ==> TraceOk(|scheduled|)
    {
      hide Loaded, CallersFit, IsValue, StoreOf, TraceOk;
      OutputsAreValues();
      ghost var snapshot := ArgumentsOf(inputs, parameters);
      trace, captured, executed := [], map[], false;
      var captures := (set id <- captureIds) + (set id <- graph.outputIds);
      s := CheckRequest(captures, inputs.Keys);
      if s == Success {
        s := ExecuteChecked(inputs, parameters, captures, snapshot);
      }
      executed := s == Success;
    }

    method ExecuteChecked(inputs: map<Id, ExternalTensor>, parameters: map<string, ExternalTensor>, captures: set<Id>,
                          ghost snapshot: Arguments)
      returns (s: Status)
      requires Loaded() && captured == map[] && trace == []
      requires CallersFit(inputs, parameters) && snapshot == ArgumentsOf(inputs, parameters)
      requires forall id <- captures :: IsValue(id)
      modifies this`captured, this`trace, arena
      ensures s == Success <==> StoreOf(snapshot).Some?
      ensures s == Success ==> Retained(captures, StoreOf(snapshot))
      ensures s == Success ==> TraceOk(|scheduled|)
    {
      assert Matches(inputs, snapshot.inputs) && Matches(parameters, snapshot.parameters);
      ghost var step := CpuMeaning(A, H, snapshot, types);
      forall k | 0 <= k < |scheduled| ensures Ready(k) {
        ReadyAt(k);
      }
      s := RunSchedule(inputs, parameters, captures, snapshot, step);
      if s == Success {
        EverythingProduced(step, captures);
      }
    }

    /** Every value of the graph is produced, so every capture is retained. */
    lemma EverythingProduced(step: (Operation, Env) -> Option<Tensor>, captures: set<Id>)
      requires Loaded() && Run(step, map[], scheduled, |scheduled|).Some?
      requires forall id <- captures :: IsValue(id)
      ensures captures <= Run(step, map[], scheduled, |scheduled|).value.Keys
    {
      RunDefines(step, map[], scheduled, |scheduled|);
      forall id <- captures ensures id in Run(step, map[], scheduled, |scheduled|).value {
        var v :| v in graph.values && v.id == id;
        assert Produced(graph.operations, v.id);
        var i :| 0 <= i < |graph.operations| && graph.operations[i].output == id;
        assert graph.operations[i] in scheduled;
        var j :| 0 <= j < |scheduled| && scheduled[j] == graph.operations[i];
        assert ProducedBefore(scheduled, |scheduled|, scheduled[j].output);
      }
    }

    /** `get_outputs`: after a successful call every declared output is there. */
    method GetOutputs() returns (r: Result<map<Id, RawTensor>>)
      requires Valid()
      ensures r.Ok? <==> executed
      ensures r.Err? ==> r.code == FailedPrecondition
      ensures r.Ok? ==> r.value.Keys == set id <- graph.outputIds
      ensures r.Ok? ==> forall id <- r.value :: id in captured && r.value[id] == captured[id]
    {
      if !executed {
        return Err(FailedPrecondition);
      }
      var outputs: map<Id, RawTensor> := map[];
      for k := 0 to |graph.outputIds|
        invariant outputs.Keys == set j | 0 <= j < k :: graph.outputIds[j]
        invariant forall id <- outputs :: id in captured && outputs[id] == captured[id]
      {
        var id := graph.outputIds[k];
        if id !in captured {
          return Err(Internal);
        }
        outputs := outputs[id := captured[id]];
      }
      return Ok(outputs);
    }

    /** `get_value` */
    method GetValue(id: Id) returns (r: Result<RawTensor>)
      ensures r.Ok? <==> executed && id in captured
      ensures r.Ok? ==> r.value == captured[id]
      ensures r.Err? ==> r.code == if executed then NotFound else FailedPrecondition
    {
      if !executed {
        return Err(FailedPrecondition);
      }
      if id !in captured {
        return Err(NotFound);
      }
      return Ok(captured[id]);
    }
  }

  lemma {:induction false} FoundValue(values: seq<Value>, id: Id) returns (v: Value)
    requires FindValue(values, id).Some?
    ensures v in values && v.id == id && FindValue(values, id) == Some(v)
  {
    if values[0].id == id {
      v := values[0];
    } else {
      v := FoundValue(values[1..], id);
    }
  }

  lemma {:induction false} NotFoundValue(values: seq<Value>, id: Id)
    requires FindValue(values, id).None?
    ensures forall v <- values :: v.id != id
  {
    if values != [] {
      NotFoundValue(values[1..], id);
    }
  }

  method UsesOnlyFloat(values: seq<Value>) returns (r: bool)
    ensures r <==> AllFloat(values)
  {
    for k := 0 to |values|
      invariant forall j | 0 <= j < k :: values[j].descriptor.dtype.Float32?
    {
      if !values[k].descriptor.dtype.Float32? {
        return false;
      }
    }
    return true;
  }

  /** `load` up to and including the arena: what a session is made of, or why there is none. */
  method Load(A: Arith, H: Hashing, tiled: bool, g: GraphData, backend: string) returns (r: Result<RuntimeSession>)
    requires WellFormedGraph(g)
    ensures r.Ok? <==>
      Verified(A, Descriptors(g.values), g.operations) && AllFloat(g.values)
      && Plannable(g, backend, ALIGNMENT) && backend == "cpu"
    ensures r.Ok? ==> fresh(r.value) && fresh(r.value.arena) && r.value.Valid() && !r.value.executed
    ensures r.Ok? ==> r.value.graph == g && r.value.A == A && r.value.H == H
    ensures r.Ok? ==> IsPlanFor(g, ALIGNMENT, r.value.plan) && IsBestFitPlan(r.value.plan)
  {
    var verification := VerifyGraph(A, g.values, g.operations);
    if verification != Success {
      return Err(FailedPrecondition);
    }
    var float := UsesOnlyFloat(g.values);
    if !float {
      return Err(Unsupported);
    }
    var planned := PlanMemory(g, backend, ALIGNMENT);
    if planned.Err? {
      return Err(planned.code);
    }
    if backend != "cpu" {
      return Err(Unsupported);
    }
    var session := new RuntimeSession(A, H, tiled, g, planned.value);
    return Ok(session);
  }
}
