/** Lowering what optimisation makes of a graph: `optimize` and then `emit-mlir` of cpp/src/core/cli_main.cpp. */
module LoweredOptimum {
  import opened Basics
  import opened GraphIR
  import opened Shapes
  import opened OperationOrder
  import opened Sequential
  import opened Tensors
  import opened Evaluator
  import opened SemanticVerifier
  import opened GraphInvariants
  import opened RewriteUtils
  import opened PassFramework
  import opened PassPipeline
  import opened Optimization
  import opened GraphLoader
  import opened Connectivity
  import opened LoadableGraphs
  import opened Compilation
  import opened StablehloSyntax
  import opened StablehloMeaning
  import opened StablehloLowering
  import opened StablehloModule

  /** Every operation has a lowering. */
  ghost predicate AllLower(finite: Scalar -> bool, g: GraphData) {
    forall i | 0 <= i < |g.operations| ::
      g.operations[i].output in Descriptors(g.values) && Lowers(finite, Descriptors(g.values), g.operations[i])
  }

  /** Every argument of the graph has a value of its declared shape. */
  ghost predicate ArgumentsGiven(g: GraphData, env: Env) {
    forall op <- g.operations | IsArgument(op) ::
      op.output in Descriptors(g.values) && op.output in env
      && env[op.output].shape == Descriptors(g.values)[op.output].shape
  }

  /** `lower_to_stablehlo`: verification first, then the lowering. */
  method LowerToStablehlo(A: Arith, g: GraphData, finite: Scalar -> bool, ghost M: Model, ghost feeds: Feeds,
                          ghost env: Env)
    returns (r: Result<Module>)
    requires Ordered(g) && IdsOk(g) && ArgumentsGiven(g, env) && M.A == A
    ensures r.Ok? <==> GraphVerified(A, g) && AllLower(finite, g)
    ensures r.Err? ==> r.code == if GraphVerified(A, g) then Unsupported else FailedPrecondition
    ensures r.Ok? ==> WellTypedModule(r.value) && Declares(g, r.value)
    ensures r.Ok? && M.Faithful() && Solves(A, feeds, g, env) ==> Computes(M, g, r.value, env)
  {
    ReadyToVerify(g);
    var verified := VerifyGraph(A, g.values, g.operations);
    if verified != Success {
      return Err(FailedPrecondition);
    }
    hide WellTypedModule, Declares, Computes, Solves, Verified, Lowers, IdsOk, Ordered;
    r := Lower(g, finite, M, feeds, env);
  }

  lemma ReadyToVerify(g: GraphData)
    requires WellFormedGraph(g)
    ensures forall i | 0 <= i < |g.operations| :: Resolved(Descriptors(g.values), g.operations[i])
    ensures forall v <- g.values :: Positive(v.descriptor.shape)
  {
  }

  // ----- optimise, write, load, lower -----

  /**
   Running the module on the arguments the original evaluation gives returns, in the declared order, the
   values the original graph evaluates to. `ids` are the graph values the arguments of the module stand for.
   */
  ghost predicate ReturnsOriginal(M: Model, feeds: Feeds, g: GraphData, ids: seq<Id>, m: Module) {
    var result := EvaluateData(M.A, feeds, g);
    && result.Some? && (forall j | 0 <= j < |ids| :: ids[j] in result.value)
    && |m.arguments| == |ids| && (forall j | 0 <= j < |ids| :: m.arguments[j].0 == Variable(ids[j]))
    && var final := Execute(M, ArgumentValues(ids, result.value), m.body);
    && final.Some? && |m.returned| == |g.outputIds|
    && forall j | 0 <= j < |g.outputIds| ::
         && m.returned[j] in final.value && g.outputIds[j] in result.value
         && final.value[m.returned[j]] == result.value[g.outputIds[j]]
  }

  /** What the arguments are given: the original evaluation where the optimised graph follows it, else anything. */
  ghost function ArgumentCells(A: Arith, level: OptimizationLevel, feeds: Feeds, g: GraphData, k: GraphData): Env {
    if LevelFaithful(A, level, g) && EvaluateData(A, feeds, g).Some? then EvaluateData(A, feeds, g).value
    else ZeroCells(A, Descriptors(k.values))
  }

  function ZeroCells(A: Arith, types: Types): Env {
    map id | id in types && Positive(types[id].shape) :: Filled(types[id].shape, A.zero)
  }

  lemma CellsGiven(A: Arith, level: OptimizationLevel, feeds: Feeds, g: GraphData, k: GraphData)
    requires Ordered(g) && WellFormedGraph(k) && (LevelFaithful(A, level, g) ==> KeepsMeaning(A, g, k))
    ensures var env := ArgumentCells(A, level, feeds, g, k);
      && ArgumentsGiven(k, env)
      && (LevelFaithful(A, level, g) && EvaluateData(A, feeds, g).Some? ==> Solves(A, feeds, k, env))
  {
    hide LevelFaithful, Ordered, EvaluateData;
    var types, env := Descriptors(k.values), ArgumentCells(A, level, feeds, g, k);
    ReadyToVerify(k);
    DescriptorsPositive(k.values);
    if LevelFaithful(A, level, g) && EvaluateData(A, feeds, g).Some? {
      EvaluationSolves(A, feeds, g);
      assert Solves(A, feeds, k, env);
    }
    forall op <- k.operations
      ensures op.output in types && op.output in env && env[op.output].shape == types[op.output].shape
    {
      var i :| 0 <= i < |k.operations| && k.operations[i] == op;
      assert Resolved(types, k.operations[i]);
      if LevelFaithful(A, level, g) && EvaluateData(A, feeds, g).Some? {
        SolutionTyped(A, feeds, k, env, op.output);
      }
    }
  }

  /** A module that computes a graph with the interface of the original returns its outputs. */
  lemma ComputesOutputs(M: Model, feeds: Feeds, g: GraphData, k: GraphData, m: Module)
    requires WellFormedGraph(k) && SameInterface(g, k) && EvaluateData(M.A, feeds, g).Some?
    requires Declares(k, m) && Computes(M, k, m, EvaluateData(M.A, feeds, g).value)
    ensures ReturnsOriginal(M, feeds, g, ArgumentIds(k.operations), m)
  {
    hide EvaluateData, Execute;
    forall j | 0 <= j < |g.outputIds| ensures exists v <- k.values :: v.id == g.outputIds[j] {
      assert g.outputIds[j] in k.outputIds;
      assert Named(k.values, g.outputIds[j], OutputValue);
      var i :| 0 <= i < |k.values| && k.values[i].id == g.outputIds[j] && k.values[i].kind == OutputValue;
      assert k.values[i] in k.values;
    }
  }

  /** Writing the optimised graph and loading it again, in place. */
  method Reload(A: Arith, graph: Graph)
    requires Receivable(graph.Data())
    modifies graph`operations
    ensures IsReloaded(old(graph.Data()), graph.Data())
  {
    ghost var g := graph.Data();
    ReloadingSucceeds(g);
    var ordered := DeterministicTopologicalOrder(graph.operations);
    ghost var h := Rewired(g, ordered.value);
    ReloadedIsLoadable(A, g, h);
    assert Ordered(h) && Connected(h);
    hide Loadable, Receivable, IsReloaded, IsLoadedOrder, Reachable, TopologicallyOrdered;
    hide DistinctOutputs, DistinctOperationIds;
    var connected := VerifyRequiredOutputsConnected(graph.inputIds, graph.outputIds, ordered.value);
    assert connected == Success;
    graph.operations := ordered.value;
  }

  /**
   `optimize` and then `emit-mlir` on the file it wrote: a module comes out exactly when the original graph
   verifies, no narrow chain reaches the fusion and every operation that is left has a lowering. The graph
   is then one the loader accepts, and the module returns what the original graph evaluates to.
   */
  method OptimizeAndLower(A: Arith, graph: Graph, level: OptimizationLevel, finite: Scalar -> bool,
                          ghost M: Model, ghost feeds: Feeds)
    returns (r: Result<Module>)
    requires Loadable(graph.Data()) && M.A == A
    modifies graph
    ensures r.Ok? <==>
      && GraphVerified(A, old(graph.Data())) && (level.O2? ==> FusionAccepted(A, old(graph.Data())))
      && AllLower(finite, graph.Data())
    ensures r.Ok? ==>
      && Loadable(graph.Data()) && WellTypedModule(r.value) && Declares(graph.Data(), r.value)
      && exists h :: Pipeline(A, Passes(level), |Passes(level)|, old(graph.Data()), h) && IsReloaded(h, graph.Data())
    ensures r.Ok? && M.Faithful() && LevelFaithful(A, level, old(graph.Data())) ==>
      EvaluateData(A, feeds, old(graph.Data())).Some? ==>
        ReturnsOriginal(M, feeds, old(graph.Data()), ArgumentIds(graph.operations), r.value)
  {
    ghost var g := graph.Data();
    var optimisation := OptimizeGraph(A, graph, level);
    if !optimisation.Success() {
      return Err(FailedPrecondition);
    }
    ghost var h := graph.Data();
    OptimisedIsReceivable(A, level, g, h);
    Reload(A, graph);
    var k := graph.Data();
    OptimisedIsLoadable(A, level, g, h, k);
    CellsGiven(A, level, feeds, g, k);
    ghost var env := ArgumentCells(A, level, feeds, g, k);
    r := LowerToStablehlo(A, k, finite, M, feeds, env);
    if r.Ok? && M.Faithful() && LevelFaithful(A, level, g) && EvaluateData(A, feeds, g).Some? {
      ComputesOutputs(M, feeds, g, k, r.value);
    }
  }
}
