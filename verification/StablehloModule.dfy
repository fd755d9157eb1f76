/** The whole module: header, operations, return (cpp/src/mlir/stablehlo_lowering.cpp, `run`). */
module StablehloModule {
  import opened Basics
  import opened GraphIR
  import opened Shapes
  import opened Tensors
  import opened Sequential
  import opened Evaluator
  import opened SemanticVerifier
  import opened GraphInvariants
  import opened OperationOrder
  import opened PassFramework
  import opened StablehloSyntax
  import opened StablehloMeaning
  import opened StablehloLowering
  import opened StablehloEmitter

  /** Inputs and parameters are the arguments of the function. */
  predicate IsArgument(op: Operation) {
    op.kind.Input? || op.kind.Parameter?
  }

  // ----- the header -----

  function ArgumentIds(ops: seq<Operation>): seq<Id> {
    if ops == [] then []
    else
      var last := ops[|ops| - 1];
      ArgumentIds(ops[..|ops| - 1]) + if IsArgument(last) then [last.output] else []
  }

  function TypedNames(types: Types, ids: seq<Id>): (r: seq<(string, TensorType)>)
    requires forall k | 0 <= k < |ids| :: ids[k] in types
    ensures |r| == |ids|
  {
    seq(|ids|, k requires 0 <= k < |ids| => (Variable(ids[k]), types[ids[k]]))
  }

  ghost function ArgumentValues(ids: seq<Id>, env: Env): State
    requires forall k | 0 <= k < |ids| :: ids[k] in env
  {
    if ids == [] then map[]
    else
      var last := ids[|ids| - 1];
      ArgumentValues(ids[..|ids| - 1], env)[Variable(last) := env[last]]
  }

  lemma {:induction false} ArgumentIdsAre(ops: seq<Operation>)
    ensures forall id :: id in ArgumentIds(ops) <==> exists j | 0 <= j < |ops| :: IsArgument(ops[j]) && ops[j].output == id
  {
    if ops != [] {
      var n := |ops| - 1;
      ArgumentIdsAre(ops[..n]);
      forall id ensures id in ArgumentIds(ops) <==> exists j | 0 <= j < |ops| :: IsArgument(ops[j]) && ops[j].output == id {
        if id in ArgumentIds(ops) {
          if id in ArgumentIds(ops[..n]) {
            var j :| 0 <= j < n && IsArgument(ops[..n][j]) && ops[..n][j].output == id;
            assert IsArgument(ops[j]) && ops[j].output == id;
          } else {
            assert IsArgument(ops[n]) && ops[n].output == id;
          }
        }
        if j :| 0 <= j < |ops| && IsArgument(ops[j]) && ops[j].output == id {
          if j < n {
            assert IsArgument(ops[..n][j]) && ops[..n][j].output == id;
          }
        }
      }
    }
  }

  predicate Distinct(ids: seq<Id>) {
    forall i, j | 0 <= i < j < |ids| :: ids[i] != ids[j]
  }

  lemma {:induction false} ArgumentIdsDistinct(ops: seq<Operation>)
    requires DistinctOutputs(ops)
    ensures Distinct(ArgumentIds(ops))
  {
    if ops != [] {
      var n := |ops| - 1;
      ArgumentIdsDistinct(ops[..n]);
      ArgumentIdsAre(ops[..n]);
      forall k | 0 <= k < |ArgumentIds(ops[..n])| ensures ArgumentIds(ops[..n])[k] != ops[n].output {
        var id := ArgumentIds(ops[..n])[k];
        assert id in ArgumentIds(ops[..n]);
        var j :| 0 <= j < n && IsArgument(ops[..n][j]) && ops[..n][j].output == id;
        assert ops[j].output == id;
      }
    }
  }

  lemma VariablesDiffer(a: Id, b: Id)
    requires Variable(a) == Variable(b)
    ensures a == b
  {
    assert a == Variable(a)[1..] && b == Variable(b)[1..];
  }

  /** The start: the arguments with their types and values, and nothing else. */
  ghost predicate StartsWith(types: Types, ids: seq<Id>, env: Env, m: Memory) {
    && (forall name :: name in m.env <==> exists k | 0 <= k < |ids| :: name == Variable(ids[k]))
    && m.state.Keys == m.env.Keys
    && forall k {:trigger ids[k]} | 0 <= k < |ids| ::
         && ids[k] in types && ids[k] in env
         && Variable(ids[k]) in m.env && m.env[Variable(ids[k])] == types[ids[k]]
         && m.state[Variable(ids[k])] == env[ids[k]]
  }

  lemma {:induction false} StartMemory(types: Types, ids: seq<Id>, env: Env)
    requires forall k | 0 <= k < |ids| :: ids[k] in types && ids[k] in env
    ensures StartsWith(types, ids, env, Memory(ArgumentTypes(TypedNames(types, ids)), ArgumentValues(ids, env)))
  {
    if ids != [] {
      var n := |ids| - 1;
      var rest := ids[..n];
      StartMemory(types, rest, env);
      assert TypedNames(types, ids)[..n] == TypedNames(types, rest);
      StartStep(types, ids, env, Memory(ArgumentTypes(TypedNames(types, rest)), ArgumentValues(rest, env)));
    }
  }

  lemma StartStep(types: Types, ids: seq<Id>, env: Env, m: Memory)
    requires ids != [] && ids[|ids| - 1] in types && ids[|ids| - 1] in env && StartsWith(types, ids[..|ids| - 1], env, m)
    ensures var last := ids[|ids| - 1]; StartsWith(types, ids, env, With(m, Variable(last), types[last], env[last]))
  {
    var n := |ids| - 1;
    var rest, last := ids[..n], ids[n];
    var r := With(m, Variable(last), types[last], env[last]);
    forall name ensures name in r.env <==> exists k | 0 <= k < |ids| :: name == Variable(ids[k]) {
      if name in r.env && name != Variable(last) {
        var k :| 0 <= k < n && name == Variable(rest[k]);
        assert name == Variable(ids[k]);
      }
      if k :| 0 <= k < |ids| && name == Variable(ids[k]) {
        if k < n {
          assert name == Variable(rest[k]);
        }
      }
      assert name == Variable(last) ==> name == Variable(ids[n]);
    }
    forall k | 0 <= k < |ids|
      ensures ids[k] in types && ids[k] in env
        && Variable(ids[k]) in r.env && r.env[Variable(ids[k])] == types[ids[k]]
        && r.state[Variable(ids[k])] == env[ids[k]]
    {
      if k < n {
        assert rest[k] == ids[k];
        if Variable(ids[k]) == Variable(last) {
          VariablesDiffer(ids[k], last);
        }
      }
    }
  }

  // ----- the loop -----

  ghost predicate DefinedIn(types: Types, m: Memory, id: Id) {
    id in types && Variable(id) in m.env && m.env[Variable(id)] == types[id] && Variable(id) in m.state
  }

  /** Defined before the n-th operation: the arguments, and what the operations before it produce. */
  predicate Due(ops: seq<Operation>, n: nat, j: nat)
    requires j < |ops|
  {
    j < n || IsArgument(ops[j])
  }

  ghost predicate Emitted(types: Types, ops: seq<Operation>, n: nat, m: Memory) {
    && (forall j: nat {:trigger Due(ops, n, j)} | j < |ops| && Due(ops, n, j) :: DefinedIn(types, m, ops[j].output))
    && forall name <- m.env | IsVariable(name) ::
         exists j: nat {:trigger Due(ops, n, j)} :: j < |ops| && Due(ops, n, j) && name == Variable(ops[j].output)
  }

  /** ... and they hold the values of `env`. */
  ghost predicate Agrees(ops: seq<Operation>, n: nat, m: Memory, env: Env) {
    forall j: nat {:trigger Due(ops, n, j)} | j < |ops| && Due(ops, n, j) ::
      ops[j].output in env && Variable(ops[j].output) in m.state
      && m.state[Variable(ops[j].output)] == env[ops[j].output]
  }

  lemma StartEmitted(types: Types, ops: seq<Operation>, env: Env, m: Memory)
    requires StartsWith(types, ArgumentIds(ops), env, m)
    ensures Emitted(types, ops, 0, m) && Agrees(ops, 0, m, env)
  {
    ArgumentIdsAre(ops);
    var ids := ArgumentIds(ops);
    forall j: nat | j < |ops| && Due(ops, 0, j)
      ensures DefinedIn(types, m, ops[j].output)
        && ops[j].output in env && m.state[Variable(ops[j].output)] == env[ops[j].output]
    {
      assert ops[j].output in ids;
      var k :| 0 <= k < |ids| && ids[k] == ops[j].output;
    }
    forall name <- m.env | IsVariable(name)
      ensures exists j: nat {:trigger Due(ops, 0, j)} :: j < |ops| && Due(ops, 0, j) && name == Variable(ops[j].output)
    {
      var k :| 0 <= k < |ids| && name == Variable(ids[k]);
      assert ids[k] in ids;
      var j: nat :| j < |ops| && IsArgument(ops[j]) && ops[j].output == ids[k];
      assert Due(ops, 0, j);
    }
  }

  lemma OperandDefined(types: Types, ops: seq<Operation>, n: nat, m: Memory, k: nat)
    requires TopologicallyOrdered(ops) && Emitted(types, ops, n, m) && n < |ops| && k < |ops[n].inputs|
    ensures DefinedIn(types, m, ops[n].inputs[k])
  {
    assert ProducedBefore(ops, n, ops[n].inputs[k]);
    var j: nat :| j < n && ops[j].output == ops[n].inputs[k];
    assert Due(ops, n, j);
  }

  lemma OtherVariable(ops: seq<Operation>, n: nat, j: nat)
    requires DistinctOutputs(ops) && n < |ops| && j < |ops| && j != n
    ensures Variable(ops[j].output) != Variable(ops[n].output)
  {
    if Variable(ops[j].output) == Variable(ops[n].output) {
      VariablesDiffer(ops[j].output, ops[n].output);
    }
  }

  lemma ResultAbsent(types: Types, ops: seq<Operation>, n: nat, m: Memory)
    requires DistinctOutputs(ops) && Emitted(types, ops, n, m) && n < |ops| && !IsArgument(ops[n])
    requires IsValueId(ops[n].output)
    ensures IsVariable(Variable(ops[n].output)) && Variable(ops[n].output) !in m.env
  {
    forall j: nat | j < |ops| && Due(ops, n, j) ensures Variable(ops[n].output) != Variable(ops[j].output) {
      OtherVariable(ops, n, j);
    }
  }

  /** One operation more. */
  lemma EmittedStep(types: Types, ops: seq<Operation>, n: nat, a: Memory, b: Memory, value: Tensor)
    requires DistinctOutputs(ops) && Emitted(types, ops, n, a) && n < |ops| && ops[n].output in types
    requires Defines(a, b, Variable(ops[n].output), types[ops[n].output], value)
    ensures Emitted(types, ops, n + 1, b)
  {
    forall j: nat | j < |ops| && Due(ops, n + 1, j) ensures DefinedIn(types, b, ops[j].output) {
      if j != n {
        OtherVariable(ops, n, j);
        assert Due(ops, n, j) && Kept(a, b, Variable(ops[j].output));
      }
    }
    forall name <- b.env | IsVariable(name)
      ensures exists j: nat {:trigger Due(ops, n + 1, j)} ::
        j < |ops| && Due(ops, n + 1, j) && name == Variable(ops[j].output)
    {
      if name == Variable(ops[n].output) {
        assert Due(ops, n + 1, n);
      } else {
        assert Kept(a, b, name);
        var j: nat :| j < |ops| && Due(ops, n, j) && name == Variable(ops[j].output);
        assert Due(ops, n + 1, j);
      }
    }
  }

  lemma AgreesStep(types: Types, ops: seq<Operation>, n: nat, a: Memory, b: Memory, value: Tensor, env: Env)
    requires DistinctOutputs(ops) && Emitted(types, ops, n, a) && n < |ops| && ops[n].output in types
    requires Defines(a, b, Variable(ops[n].output), types[ops[n].output], value)
    requires Agrees(ops, n, a, env) && ops[n].output in env && env[ops[n].output] == value
    ensures Agrees(ops, n + 1, b, env)
  {
    forall j: nat | j < |ops| && Due(ops, n + 1, j)
      ensures ops[j].output in env && Variable(ops[j].output) in b.state
        && b.state[Variable(ops[j].output)] == env[ops[j].output]
    {
      if j != n {
        OtherVariable(ops, n, j);
        assert Due(ops, n, j) && Kept(a, b, Variable(ops[j].output));
      }
    }
  }

  /** Arguments are there from the start. */
  lemma ArgumentStep(types: Types, ops: seq<Operation>, n: nat, m: Memory, env: Env)
    requires n < |ops| && IsArgument(ops[n]) && Emitted(types, ops, n, m)
    ensures Emitted(types, ops, n + 1, m) && (Agrees(ops, n, m, env) ==> Agrees(ops, n + 1, m, env))
  {
    forall j: nat | j < |ops| && Due(ops, n + 1, j)
      ensures DefinedIn(types, m, ops[j].output)
        && (Agrees(ops, n, m, env) ==>
              ops[j].output in env && m.state[Variable(ops[j].output)] == env[ops[j].output])
    {
      assert Due(ops, n, j);
    }
    forall name <- m.env | IsVariable(name)
      ensures exists j: nat {:trigger Due(ops, n + 1, j)} ::
        j < |ops| && Due(ops, n + 1, j) && name == Variable(ops[j].output)
    {
      var j: nat :| j < |ops| && Due(ops, n, j) && name == Variable(ops[j].output);
      assert Due(ops, n + 1, j);
    }
  }

  /** The values of the operands. */
  ghost function OperandValues(m: Memory, ids: seq<Id>): (r: seq<Tensor>)
    requires forall k | 0 <= k < |ids| :: Variable(ids[k]) in m.state
    ensures |r| == |ids|
  {
    seq(|ids|, k requires 0 <= k < |ids| => m.state[Variable(ids[k])])
  }

  /** In a solution the operation computes its value from the operands the instructions read. */
  lemma SolvedStep(A: Arith, feeds: Feeds, g: GraphData, n: nat, m: Memory, env: Env, xs: seq<Tensor>)
    requires WellFormedGraph(g) && TopologicallyOrdered(g.operations) && n < |g.operations|
    requires Solves(A, feeds, g, env) && Agrees(g.operations, n, m, env) && !IsArgument(g.operations[n])
    requires forall k | 0 <= k < |g.operations[n].inputs| :: Variable(g.operations[n].inputs[k]) in m.state
    requires xs == OperandValues(m, g.operations[n].inputs)
    ensures var types, op := Descriptors(g.values), g.operations[n];
      && op.output in types && op.output in env
      && EvaluateOperation(A, op, xs, types[op.output].shape) == Some(env[op.output])
  {
    var types, ops, op := Descriptors(g.values), g.operations, g.operations[n];
    assert Satisfies(Meaning(A, feeds, types), ops[n], env);
    SatisfiedStep(A, feeds, types, op, env);
    forall k | 0 <= k < |op.inputs| ensures xs[k] == env[op.inputs[k]] {
      assert ProducedBefore(ops, n, op.inputs[k]);
      var j: nat :| j < n && ops[j].output == op.inputs[k];
      assert Due(ops, n, j);
    }
    assert xs == Lookup(env, op.inputs);
  }

  // ----- the module -----

  /** Value identifiers as the loader accepts them. */
  ghost predicate IdsOk(g: GraphData) {
    forall v <- g.values :: IsValueId(v.id)
  }

  /** What the emitted function declares and returns. */
  ghost predicate Declares(g: GraphData, m: Module) {
    var types := Descriptors(g.values);
    && (forall id <- g.outputIds :: id in types)
    && (forall id <- ArgumentIds(g.operations) :: id in types)
    && m.arguments == TypedNames(types, ArgumentIds(g.operations))
    && |m.returned| == |m.resultTypes| == |g.outputIds|
    && forall k | 0 <= k < |g.outputIds| ::
         m.returned[k] == Variable(g.outputIds[k]) && m.resultTypes[k] == types[g.outputIds[k]]
  }

  /** Running the body on the arguments of `env` leaves the value `env` gives to every graph value. */
  ghost predicate Computes(M: Model, g: GraphData, m: Module, env: Env) {
    var ids := ArgumentIds(g.operations);
    && (forall k | 0 <= k < |ids| :: ids[k] in env)
    && Execute(M, ArgumentValues(ids, env), m.body).Some?
    && forall v <- g.values ::
         && v.id in env && Variable(v.id) in Execute(M, ArgumentValues(ids, env), m.body).value
         && Execute(M, ArgumentValues(ids, env), m.body).value[Variable(v.id)] == env[v.id]
  }

  /** Every graph value is defined at the end. */
  lemma EverythingDefined(g: GraphData, m: Memory, id: Id)
    requires WellFormedGraph(g) && Emitted(Descriptors(g.values), g.operations, |g.operations|, m)
    requires id in Descriptors(g.values)
    ensures DefinedIn(Descriptors(g.values), m, id)
    ensures forall env | Agrees(g.operations, |g.operations|, m, env) :: id in env && m.state[Variable(id)] == env[id]
  {
    var k := ValueOf(g.values, id);
    assert Produced(g.operations, g.values[k].id);
    var j: nat :| j < |g.operations| && g.operations[j].output == id;
    assert Due(g.operations, |g.operations|, j);
  }

  /** `emit_header`: the arguments, in the order of their operations. */
  method EmitHeader(types: Types, ops: seq<Operation>) returns (arguments: seq<(string, TensorType)>)
    requires forall i | 0 <= i < |ops| :: ops[i].output in types
    ensures forall k | 0 <= k < |ArgumentIds(ops)| :: ArgumentIds(ops)[k] in types
    ensures arguments == TypedNames(types, ArgumentIds(ops))
  {
    arguments := [];
    for i := 0 to |ops|
      invariant forall k | 0 <= k < |ArgumentIds(ops[..i])| :: ArgumentIds(ops[..i])[k] in types
      invariant arguments == TypedNames(types, ArgumentIds(ops[..i]))
    {
      assert ops[..i + 1][..i] == ops[..i];
      if IsArgument(ops[i]) {
        arguments := arguments + [(Variable(ops[i].output), types[ops[i].output])];
      }
    }
    assert ops[..|ops|] == ops;
  }

  /** The first n operations all have a lowering. */
  predicate LoweredBelow(finite: Scalar -> bool, types: Types, ops: seq<Operation>, n: nat)
    requires n <= |ops|
  {
    forall i | 0 <= i < n :: ops[i].output in types && Lowers(finite, types, ops[i])
  }

  /** The state of the loop of `run`. */
  ghost predicate Running(l: StablehloLowerer, g: GraphData, n: nat, feeds: Feeds, env: Env)
    reads l
  {
    && n <= |g.operations| && l.Valid() && l.types == Descriptors(g.values)
    && Emitted(l.types, g.operations, n, l.memory) && LoweredBelow(l.finite, l.types, g.operations, n)
    && (l.M.Faithful() && Solves(l.M.A, feeds, g, env) ==> Agrees(g.operations, n, l.memory, env))
  }

  /** What an operation needs is there. */
  lemma ReadyToEmit(l: StablehloLowerer, g: GraphData, n: nat, feeds: Feeds, env: Env, xs: seq<Tensor>)
    requires Ordered(g) && GraphVerified(l.M.A, g) && IdsOk(g) && Running(l, g, n, feeds, env) && n < |g.operations|
    requires !IsArgument(g.operations[n])
    requires forall k | 0 <= k < |g.operations[n].inputs| :: Variable(g.operations[n].inputs[k]) in l.memory.state
    requires xs == OperandValues(l.memory, g.operations[n].inputs)
    ensures l.OperationReady(g.operations[n], xs)
  {
    var types, op := l.types, g.operations[n];
    assert Resolved(types, g.operations[n]) && OperationOk(l.M.A, types, g.operations[n]);
    DescriptorsPositive(g.values);
    forall k | 0 <= k < |xs| ensures Bound(l.memory, Variable(op.inputs[k]), types[op.inputs[k]], xs[k]) {
      OperandDefined(types, g.operations, n, l.memory, k);
    }
    var j := ValueOf(g.values, op.output);
    assert g.values[j] in g.values;
    ResultAbsent(types, g.operations, n, l.memory);
  }

  /** The operands of the next operation, and what it is to compute if `env` is a solution. */
  lemma NextOperation(l: StablehloLowerer, g: GraphData, n: nat, feeds: Feeds, env: Env) returns (xs: seq<Tensor>)
    requires Ordered(g) && GraphVerified(l.M.A, g) && IdsOk(g) && Running(l, g, n, feeds, env) && n < |g.operations|
    requires !IsArgument(g.operations[n])
    ensures l.OperationReady(g.operations[n], xs)
    ensures l.M.Faithful() && Solves(l.M.A, feeds, g, env) ==> Computable(l, g.operations, n, xs, env)
  {
    var op := g.operations[n];
    forall k | 0 <= k < |op.inputs| ensures Variable(op.inputs[k]) in l.memory.state {
      OperandDefined(l.types, g.operations, n, l.memory, k);
    }
    xs := OperandValues(l.memory, op.inputs);
    ReadyToEmit(l, g, n, feeds, env, xs);
    if l.M.Faithful() && Solves(l.M.A, feeds, g, env) {
      SolvedStep(l.M.A, feeds, g, n, l.memory, env, xs);
    }
  }

  /** The names so far hold the values of `env`, and so will the next. */
  ghost predicate Computable(l: StablehloLowerer, ops: seq<Operation>, n: nat, xs: seq<Tensor>, env: Env)
    requires n < |ops|
    reads l
  {
    && l.M.Faithful() && Agrees(ops, n, l.memory, env) && ops[n].output in env && ops[n].output in l.types
    && EvaluateOperation(l.M.A, ops[n], xs, l.types[ops[n].output].shape) == Some(env[ops[n].output])
  }

  /** What the loop knows of the next operation. */
  lemma NextFacts(l: StablehloLowerer, g: GraphData, n: nat, feeds: Feeds, env: Env)
    requires Ordered(g) && Running(l, g, n, feeds, env) && n < |g.operations|
    ensures g.operations[n].output in l.types && DistinctOutputs(g.operations)
    ensures l.Valid() && l.types == Descriptors(g.values) && Emitted(l.types, g.operations, n, l.memory)
    ensures LoweredBelow(l.finite, l.types, g.operations, n)
    ensures IsArgument(g.operations[n]) ==>
      Running(l, g, n + 1, feeds, env) && Lowers(l.finite, l.types, g.operations[n])
  {
    assert Resolved(l.types, g.operations[n]);
    if IsArgument(g.operations[n]) {
      ArgumentStep(l.types, g.operations, n, l.memory, env);
    }
  }

  lemma Advanced(l: StablehloLowerer, g: GraphData, n: nat, feeds: Feeds, env: Env)
    requires n < |g.operations| && l.Valid() && l.types == Descriptors(g.values)
    requires LoweredBelow(l.finite, l.types, g.operations, n)
    requires g.operations[n].output in l.types && Lowers(l.finite, l.types, g.operations[n])
    requires Emitted(l.types, g.operations, n + 1, l.memory)
    requires l.M.Faithful() && Solves(l.M.A, feeds, g, env) ==> Agrees(g.operations, n + 1, l.memory, env)
    ensures Running(l, g, n + 1, feeds, env)
  {
  }

  /** One iteration of the loop of `run`. */
  method EmitNext(l: StablehloLowerer, g: GraphData, n: nat, ghost feeds: Feeds, ghost env: Env) returns (ok: bool)
    requires Ordered(g) && GraphVerified(l.M.A, g) && IdsOk(g) && Running(l, g, n, feeds, env) && n < |g.operations|
    modifies l
    ensures g.operations[n].output in l.types && (ok <==> Lowers(l.finite, l.types, g.operations[n]))
    ensures ok ==> Running(l, g, n + 1, feeds, env)
  {
    NextFacts(l, g, n, feeds, env);
    hide Ordered, GraphVerified, IdsOk, Solves, Sound, Emitted, Agrees, Lowers, Computable, Running, LoweredBelow;
    if IsArgument(g.operations[n]) {
      return true;
    }
    ghost var xs := NextOperation(l, g, n, feeds, env);
    ok := EmitComputed(l, g.operations, n, xs, env, l.M.Faithful() && Solves(l.M.A, feeds, g, env));
    if ok {
      Advanced(l, g, n, feeds, env);
    }
  }

  /** An operation that is no argument. */
  method EmitComputed(l: StablehloLowerer, ops: seq<Operation>, n: nat, ghost xs: seq<Tensor>, ghost env: Env,
                      ghost solved: bool)
    returns (ok: bool)
    requires l.Valid() && DistinctOutputs(ops) && n < |ops| && !IsArgument(ops[n]) && l.OperationReady(ops[n], xs)
    requires Emitted(l.types, ops, n, l.memory)
    requires solved ==> Computable(l, ops, n, xs, env)
    modifies l
    ensures l.Valid() && (ok <==> Lowers(l.finite, l.types, ops[n]))
    ensures ok ==> Emitted(l.types, ops, n + 1, l.memory)
    ensures ok && solved ==> Agrees(ops, n + 1, l.memory, env)
  {
    hide Lowers, Sound, Emitted, Agrees, Defines, EvaluateOperation;
    ghost var a, value := l.memory, Filled([], l.M.A.zero);
    ok, value := l.EmitOperation(ops[n], xs);
    if ok {
      EmittedStep(l.types, ops, n, a, l.memory, value);
      if solved {
        AgreesStep(l.types, ops, n, a, l.memory, value, env);
      }
    }
  }

  /** The start of the loop: the arguments hold what `env` gives them. */
  lemma HeaderStart(g: GraphData, env: Env)
    requires WellFormedGraph(g) && IdsOk(g)
    requires forall op <- g.operations | IsArgument(op) ::
      op.output in Descriptors(g.values) && op.output in env
      && env[op.output].shape == Descriptors(g.values)[op.output].shape
    ensures var types, ids := Descriptors(g.values), ArgumentIds(g.operations);
      && (forall k | 0 <= k < |ids| :: ids[k] in types && ids[k] in env)
      && var m := Memory(ArgumentTypes(TypedNames(types, ids)), ArgumentValues(ids, env));
      && Shaped(m) && (forall name <- m.env :: IsVariable(name))
      && Emitted(types, g.operations, 0, m) && Agrees(g.operations, 0, m, env)
  {
    hide Emitted, Agrees;
    var types, ids := Descriptors(g.values), ArgumentIds(g.operations);
    ArgumentIdsAre(g.operations);
    forall k | 0 <= k < |ids| ensures ids[k] in types && ids[k] in env && env[ids[k]].shape == types[ids[k]].shape
      && IsValueId(ids[k])
    {
      assert ids[k] in ids;
      var j :| 0 <= j < |g.operations| && IsArgument(g.operations[j]) && g.operations[j].output == ids[k];
      assert g.operations[j] in g.operations;
      var v := ValueOf(g.values, ids[k]);
      assert g.values[v] in g.values;
    }
    StartMemory(types, ids, env);
    var m := Memory(ArgumentTypes(TypedNames(types, ids)), ArgumentValues(ids, env));
    forall name <- m.env ensures IsVariable(name) && m.state[name].shape == m.env[name].shape {
      var k :| 0 <= k < |ids| && name == Variable(ids[k]);
      assert ids[k] in ids;
    }
    StartEmitted(types, g.operations, env, m);
  }

  /** The emitted module, once every operation has been lowered. */
  lemma ModuleComplete(l: StablehloLowerer, g: GraphData, feeds: Feeds, env: Env, m: Module)
    requires Ordered(g) && Running(l, g, |g.operations|, feeds, env) && Declares(g, m) && m.body == l.body
    requires forall k | 0 <= k < |ArgumentIds(g.operations)| :: ArgumentIds(g.operations)[k] in env
    requires l.start == Memory(ArgumentTypes(m.arguments), ArgumentValues(ArgumentIds(g.operations), env))
    requires m.returnedTypes == m.resultTypes
    ensures WellTypedModule(m)
    ensures l.M.Faithful() && Solves(l.M.A, feeds, g, env) ==> Computes(l.M, g, m, env)
  {
    var types, ids := Descriptors(g.values), ArgumentIds(g.operations);
    ArgumentIdsDistinct(g.operations);
    forall i, j | 0 <= i < j < |m.arguments| ensures m.arguments[i].0 != m.arguments[j].0 {
      if m.arguments[i].0 == m.arguments[j].0 {
        VariablesDiffer(ids[i], ids[j]);
      }
    }
    forall k | 0 <= k < |g.outputIds| ensures DefinedIn(types, l.memory, g.outputIds[k]) {
      assert g.outputIds[k] in g.outputIds;
      EverythingDefined(g, l.memory, g.outputIds[k]);
    }
    if l.M.Faithful() && Solves(l.M.A, feeds, g, env) {
      forall v <- g.values
        ensures v.id in env && Variable(v.id) in l.memory.state && l.memory.state[Variable(v.id)] == env[v.id]
      {
        DescriptorsDomain(g.values, v.id);
        EverythingDefined(g, l.memory, v.id);
      }
    }
  }

  /**
   `run` on a verified graph in topological order: it fails exactly when some operation has no lowering;
   otherwise the module is well-typed SSA and, for whatever arithmetic and arguments `M` and `env` stand
   for, running it gives every graph value the value the evaluator gives it.
   */
  method Lower(g: GraphData, finite: Scalar -> bool, ghost M: Model, ghost feeds: Feeds, ghost env: Env)
    returns (r: Result<Module>)
    requires Ordered(g) && GraphVerified(M.A, g) && IdsOk(g)
    requires forall op <- g.operations | IsArgument(op) ::
      op.output in Descriptors(g.values) && op.output in env
      && env[op.output].shape == Descriptors(g.values)[op.output].shape
    ensures r.Ok? <==> forall i | 0 <= i < |g.operations| ::
      g.operations[i].output in Descriptors(g.values) && Lowers(finite, Descriptors(g.values), g.operations[i])
    ensures r.Err? ==> r.code == Unsupported
    ensures r.Ok? ==> WellTypedModule(r.value) && Declares(g, r.value)
    ensures r.Ok? && M.Faithful() && Solves(M.A, feeds, g, env) ==> Computes(M, g, r.value, env)
  {
    var types := IndexValues(g.values);
    var arguments, lowerer := StartLowering(g, types, finite, M, feeds, env);
    var ok := LowerOperations(lowerer, g, feeds, env);
    if !ok {
      return Err(Unsupported);
    }
    var resultTypes, returned := EmitReturn(types, g.outputIds, g);
    var m := Module(arguments, resultTypes, lowerer.body, returned, resultTypes);
    DeclaresAll(g, m);
    ModuleComplete(lowerer, g, feeds, env, m);
    return Ok(m);
  }

  lemma DeclaresAll(g: GraphData, m: Module)
    requires (forall id <- g.outputIds :: id in Descriptors(g.values))
    requires forall k | 0 <= k < |ArgumentIds(g.operations)| :: ArgumentIds(g.operations)[k] in Descriptors(g.values)
    requires m.arguments == TypedNames(Descriptors(g.values), ArgumentIds(g.operations))
    requires |m.returned| == |m.resultTypes| == |g.outputIds|
    requires forall k | 0 <= k < |g.outputIds| ::
      m.returned[k] == Variable(g.outputIds[k]) && m.resultTypes[k] == Descriptors(g.values)[g.outputIds[k]]
    ensures Declares(g, m)
  {
  }

  /** The header and the lowerer before the first operation. */
  method StartLowering(g: GraphData, types: Types, finite: Scalar -> bool, ghost M: Model, ghost feeds: Feeds,
                       ghost env: Env)
    returns (arguments: seq<(string, TensorType)>, lowerer: StablehloLowerer)
    requires WellFormedGraph(g) && IdsOk(g) && types == Descriptors(g.values)
    requires forall op <- g.operations | IsArgument(op) ::
      op.output in types && op.output in env && env[op.output].shape == types[op.output].shape
    ensures forall k | 0 <= k < |ArgumentIds(g.operations)| ::
      ArgumentIds(g.operations)[k] in types && ArgumentIds(g.operations)[k] in env
    ensures arguments == TypedNames(types, ArgumentIds(g.operations))
    ensures fresh(lowerer) && lowerer.finite == finite && lowerer.M == M
    ensures lowerer.start == Memory(ArgumentTypes(arguments), ArgumentValues(ArgumentIds(g.operations), env))
    ensures Running(lowerer, g, 0, feeds, env)
  {
    HeaderStart(g, env);
    forall i | 0 <= i < |g.operations| ensures g.operations[i].output in types {
      assert Resolved(types, g.operations[i]);
    }
    arguments := EmitHeader(types, g.operations);
    ghost var start := Memory(ArgumentTypes(arguments), ArgumentValues(ArgumentIds(g.operations), env));
    lowerer := new StablehloLowerer(types, finite, M, start);
  }

  /** The loop over the operations. */
  method LowerOperations(lowerer: StablehloLowerer, g: GraphData, ghost feeds: Feeds, ghost env: Env) returns (ok: bool)
    requires Ordered(g) && GraphVerified(lowerer.M.A, g) && IdsOk(g) && Running(lowerer, g, 0, feeds, env)
    modifies lowerer
    ensures ok <==> forall i | 0 <= i < |g.operations| ::
      g.operations[i].output in lowerer.types && Lowers(lowerer.finite, lowerer.types, g.operations[i])
    ensures ok ==> Running(lowerer, g, |g.operations|, feeds, env)
  {
    hide Ordered, GraphVerified, IdsOk, Lowers, Running;
    for n := 0 to |g.operations|
      invariant Running(lowerer, g, n, feeds, env)
    {
      ok := EmitNext(lowerer, g, n, feeds, env);
      if !ok {
        return;
      }
    }
    ok := true;
    AllLowered(lowerer, g, feeds, env);
  }

  lemma AllLowered(l: StablehloLowerer, g: GraphData, feeds: Feeds, env: Env)
    requires Running(l, g, |g.operations|, feeds, env)
    ensures forall i | 0 <= i < |g.operations| ::
      g.operations[i].output in l.types && Lowers(l.finite, l.types, g.operations[i])
  {
  }

  /** `emit_return`; the header lists the same types. */
  method EmitReturn(types: Types, ids: seq<Id>, ghost g: GraphData)
    returns (resultTypes: seq<TensorType>, returned: seq<string>)
    requires WellFormedGraph(g) && types == Descriptors(g.values) && ids == g.outputIds
    ensures forall id <- ids :: id in types
    ensures |returned| == |resultTypes| == |ids|
    ensures forall k | 0 <= k < |ids| :: returned[k] == Variable(ids[k]) && resultTypes[k] == types[ids[k]]
  {
    forall id <- ids ensures id in types {
      assert Named(g.values, id, OutputValue);
      DescriptorsDomain(g.values, id);
    }
    resultTypes, returned := [], [];
    for k := 0 to |ids|
      invariant |returned| == |resultTypes| == k
      invariant forall j | 0 <= j < k :: returned[j] == Variable(ids[j]) && resultTypes[j] == types[ids[j]]
    {
      resultTypes, returned := resultTypes + [types[ids[k]]], returned + [Variable(ids[k])];
    }
  }

  /** Of the operations a verifier accepts, only these have no lowering. */
  lemma VerifiedLowers(A: Arith, finite: Scalar -> bool, types: Types, op: Operation)
    requires Resolved(types, op) && OperationOk(A, types, op)
    ensures Lowers(finite, types, op) <==>
      match op.kind
      case Constant => op.attributes["value"].JFloat? ==> finite(op.attributes["value"].number)
      case MatMul | Linear =>
        "fused_activation" in op.attributes ==>
          op.attributes["fused_activation"] == JString("GELU") && types[op.output].dtype.Float32?
          && ExactGelu(op.attributes)
      case Gelu => ExactGelu(op.attributes)
      case CausalMask => false
      case _ => true
  {
  }
}
