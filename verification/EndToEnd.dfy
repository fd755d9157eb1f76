/** The parts put together: optimise, plan, run. */
module EndToEnd {
  import opened Basics
  import opened GraphIR
  import opened Shapes
  import opened TensorSizes
  import opened Kahn
  import opened OperationOrder
  import opened ExecutionSchedule
  import opened Sequential
  import opened Lifetimes
  import opened MemoryPlanner
  import opened Tensors
  import opened Evaluator
  import opened SemanticVerifier
  import opened KernelSoundness
  import opened GraphInvariants
  import opened UnboundedStore
  import opened Runtime
  import opened RewriteUtils
  import opened PassFramework
  import opened Canonicalisation
  import opened DeadCodeElimination
  import opened PassPipeline
  import opened PassResults
  import opened Erasure
  import opened Optimization
  import opened GraphLoader
  import opened Connectivity
  import opened LoadableGraphs

  // ----- dead code elimination and the planner -----

  ghost predicate AlignedFits(v: Value, alignment: nat)
    requires alignment > 0
  {
    0 <= ByteSize(v.descriptor) && AlignUp(ByteSize(v.descriptor), alignment) <= UINT64_MAX
  }

  /** Every value of the graph can be given an aligned size. */
  ghost predicate SizesFit(g: GraphData, alignment: nat)
    requires alignment > 0
  {
    && (forall v <- g.values :: AlignedFits(v, alignment))
    && NaiveBytes(g, alignment, g.values) <= UINT64_MAX
  }

  /** An ordered graph has a schedule. */
  lemma OrderedIsSchedulable(g: GraphData)
    requires Ordered(g)
    ensures Schedulable(g.operations)
  {
    WellFormedOperandsProduced(g);
    OrderedIsAcyclic(g.operations);
  }

  /** Every intermediate value an operation with a side effect produces is declared or used. */
  ghost predicate EffectsUsed(g: GraphData) {
    forall v <- g.values | v.kind.IntermediateValue? && FromEffect(g.operations, v.id) ::
      Declared(g, v) || Used(g.operations, v.id)
  }

  ghost predicate FromEffect(ops: seq<Operation>, id: Id) {
    exists op <- ops :: op.HasSideEffect() && op.output == id
  }

  /**
   Once the dead code of a graph is gone, planning fails for two reasons only: want of space, and
   intermediate values that nobody uses but whose producer has a side effect.
   */
  lemma PlannableAfterDeadCode(A: Arith, g: GraphData, live: set<Id>, backend: string, alignment: nat)
    requires Ordered(g) && IsLiveSet(g, live)
    requires backend != "" && alignment > 0 && IsPowerOfTwo(alignment)
    ensures var h := WithoutDeadCode(g, live);
      Plannable(h, backend, alignment) <==> SizesFit(h, alignment) && EffectsUsed(h)
  {
    var h := WithoutDeadCode(g, live);
    DeadCodeKeeps(A, g, live);
    forall v <- h.values
      ensures ValuePlannable(h, alignment, v) <==> AlignedFits(v, alignment) && EffectUsed(h, v)
    {
      SurvivorPlannable(A, g, live, alignment, v);
    }
    forall v <- h.values | v.id in h.outputIds ensures v.kind.OutputValue? {
      OutputKind(h, v);
    }
    OrderedIsSchedulable(h);
    hide ValuePlannable, Schedulable, Ordered, IsLiveSet, AlignedFits, WithoutDeadCode, FromEffect, Declared, Used;
    assert RolesAgree(h);
  }

  /** So for what O1 and O2 leave: nothing dead, so nothing unused but for its side effect. */
  lemma PlannableWhenLive(A: Arith, g: GraphData, backend: string, alignment: nat)
    requires Ordered(g) && AllLive(g)
    requires backend != "" && alignment > 0 && IsPowerOfTwo(alignment)
    ensures Plannable(g, backend, alignment) <==> SizesFit(g, alignment) && EffectsUsed(g)
  {
    var live := ValueIds(g);
    assert DeadOperations(g.operations, live) == {} && DeadValues(g.values, live) == {};
    NothingKeptOut(g.operations, g.values);
    assert WithoutDeadCode(g, live) == g;
    hide Ordered, IsLiveSet, Plannable, SizesFit, EffectsUsed, WithoutDeadCode;
    PlannableAfterDeadCode(A, g, live, backend, alignment);
  }

  ghost predicate EffectUsed(g: GraphData, v: Value) {
    v.kind.IntermediateValue? && FromEffect(g.operations, v.id) ==> Declared(g, v) || Used(g.operations, v.id)
  }

  /** What planning asks of one value that survives. */
  lemma SurvivorPlannable(A: Arith, g: GraphData, live: set<Id>, alignment: nat, v: Value)
    requires Ordered(g) && IsLiveSet(g, live) && alignment > 0 && v in WithoutDeadCode(g, live).values
    ensures var h := WithoutDeadCode(g, live);
      ValuePlannable(h, alignment, v) <==> AlignedFits(v, alignment) && EffectUsed(h, v)
  {
    var h := WithoutDeadCode(g, live);
    DeadCodeKeeps(A, g, live);
    KeptValuesAre(g.values, DeadValues(g.values, live));
    assert v in g.values && v.id in live;
    EffectSurvives(g, live, v);
    if v.kind.IntermediateValue? && !FromEffect(g.operations, v.id) {
      NoUnusedIntermediates(g, live, v);
    }
    hide Ordered, IsLiveSet, WithoutDeadCode, FromEffect, AlignedFits;
    if v.kind.IntermediateValue? && !(Declared(h, v) || Used(h.operations, v.id)) {
      assert !ValuePlannable(h, alignment, v);
    } else {
      LiveValuePlannable(h, alignment, v);
    }
  }

  /** The producer of a live value survives. */
  lemma EffectSurvives(g: GraphData, live: set<Id>, v: Value)
    requires Ordered(g) && v.id in live
    ensures FromEffect(WithoutDeadCode(g, live).operations, v.id) <==> FromEffect(g.operations, v.id)
  {
    var dead := DeadOperations(g.operations, live);
    KeptOperationsAre(g.operations, dead);
    forall op <- g.operations | op.output == v.id ensures op.id !in dead {
      SameOperation(g.operations, op);
    }
  }

  // ----- a graph whose side effect cannot be planned -----

  /** x + x, once for its side effect alone and once as the result. */
  function UnusedEffectGraph(): GraphData {
    var scalar := Descriptor(Float32, []);
    GraphData(["v0000"], ["v0002"],
      [Value("v0000", scalar, InputValue), Value("v0001", scalar, IntermediateValue),
       Value("v0002", scalar, OutputValue)],
      [Operation("op0000", Input, [], "v0000", map[]),
       Operation("op0001", Add, ["v0000", "v0000"], "v0001", map["side_effect" := JBool(true)]),
       Operation("op0002", Add, ["v0000", "v0000"], "v0002", map[])])
  }

  lemma UnusedEffectLaidOut()
    ensures LaidOut(UnusedEffectGraph(), [0, 1, 2]) && InterfaceAt(UnusedEffectGraph(), [0], [2])
  {
    forall i | 0 <= i < 3 ensures OperationAt(UnusedEffectGraph(), [0, 1, 2], i) {
      UnusedEffectAt(i);
    }
    hide OperationAt;
  }

  lemma UnusedEffectAt(i: nat)
    requires i < 3
    ensures OperationAt(UnusedEffectGraph(), [0, 1, 2], i)
  {
    Spelled();
    hide ValueId, OpId, OperationAt;
    PlaceOperation(UnusedEffectGraph(), [0, 1, 2], i, if i == 0 then [] else [0, 0]);
  }

  lemma UnusedEffectTypes(i: nat)
    requires i < 3
    ensures var g := UnusedEffectGraph(); var t := Descriptors(g.values);
      g.values[i].id in t && t[g.values[i].id] == Descriptor(Float32, [])
  {
    UnusedEffectLaidOut();
    UnusedEffectAt(i);
    hide LaidOut, Descriptors, InterfaceAt;
    LaidOutTypes(UnusedEffectGraph(), [0, 1, 2], i);
  }

  lemma UnusedEffectVerified(A: Arith)
    ensures GraphVerified(A, UnusedEffectGraph())
  {
    var g := UnusedEffectGraph();
    forall i | 0 <= i < 3
      ensures Resolved(Descriptors(g.values), g.operations[i]) && OperationOk(A, Descriptors(g.values), g.operations[i])
    {
      UnusedEffectOk(A, i);
    }
    hide Descriptors, Resolved, OperationOk;
  }

  lemma UnusedEffectOk(A: Arith, i: nat)
    requires i < 3
    ensures var g := UnusedEffectGraph();
      Resolved(Descriptors(g.values), g.operations[i]) && OperationOk(A, Descriptors(g.values), g.operations[i])
  {
    UnusedEffectTypes(0);
    UnusedEffectTypes(i);
    var empty: Shape := [];
    assert BroadcastShape(empty, empty).value == empty;
    hide Descriptors, BroadcastShape;
  }

  lemma UnusedEffectLoadable()
    ensures Loadable(UnusedEffectGraph())
  {
    var g := UnusedEffectGraph();
    UnusedEffectLaidOut();
    AscendingStands(g, [0, 1, 2]);
    InputIsReached(g, "v0000");
    ReachesNext(g, 2, 0);
    assert Connected(g);
    hide LaidOut, InterfaceAt, StandsAsLoaded, Connected;
    LaidOutIsLoadable(g, [0, 1, 2], [0], [2]);
  }

  /** Loader and verifier accept the graph; what dead code elimination leaves of it cannot be planned. */
  lemma UnusedEffectIsNotPlannable(A: Arith, live: set<Id>, backend: string, alignment: nat)
    requires IsLiveSet(UnusedEffectGraph(), live)
    ensures Loadable(UnusedEffectGraph()) && GraphVerified(A, UnusedEffectGraph())
    ensures !Plannable(WithoutDeadCode(UnusedEffectGraph(), live), backend, alignment)
  {
    var g := UnusedEffectGraph();
    UnusedEffectLoadable();
    UnusedEffectVerified(A);
    UnusedEffectSurvives(live);
    hide Loadable, GraphVerified, IsLiveSet, WithoutDeadCode, UnusedEffectGraph;
  }

  lemma UnusedEffectSurvives(live: set<Id>)
    requires IsLiveSet(UnusedEffectGraph(), live)
    ensures var h := WithoutDeadCode(UnusedEffectGraph(), live);
      exists v <- h.values :: v.kind.IntermediateValue? && !Declared(h, v) && !Used(h.operations, v.id)
  {
    var g := UnusedEffectGraph();
    var v := g.values[1];
    assert g.operations[1] in g.operations && g.operations[1].HasSideEffect() && g.operations[1].output == v.id;
    assert IsRoot(g, v.id);
    KeptValuesAre(g.values, DeadValues(g.values, live));
    KeptOperationsAre(g.operations, DeadOperations(g.operations, live));
    assert v in g.values;
    forall w <- g.values | w.id == v.id ensures w == v {
    }
    hide IsLiveSet;
    assert v in WithoutDeadCode(g, live).values;
    forall op <- g.operations ensures v.id !in op.inputs {
    }
  }

  lemma LiveValuePlannable(g: GraphData, alignment: nat, v: Value)
    requires WellFormedGraph(g) && alignment > 0 && v in g.values
    requires v.kind.IntermediateValue? ==> Declared(g, v) || Used(g.operations, v.id)
    ensures ValuePlannable(g, alignment, v) <==> AlignedFits(v, alignment)
  {
    assert Produced(g.operations, v.id);
    CountPositive(v.descriptor.shape);
  }

  // ----- optimising and running -----

  /** What a call of the session computes for a declared output is what the original graph evaluates to. */
  ghost predicate ComputesOriginal(session: RuntimeSession, arguments: Arguments, g: GraphData) {
    && session.StoreOf(arguments).Some? && EvaluateData(session.A, FeedsOf(arguments), g).Some?
    && forall id <- g.outputIds ::
         AgreeAt(session.StoreOf(arguments).value, EvaluateData(session.A, FeedsOf(arguments), g).value, id)
  }

  /** The declared outputs of an ordered graph are produced. */
  lemma OutputsProduced(g: GraphData, id: Id)
    requires WellFormedGraph(g) && id in g.outputIds
    ensures exists op <- g.operations :: op.output == id
  {
    assert Named(g.values, id, OutputValue);
    var k :| 0 <= k < |g.values| && g.values[k].id == id && g.values[k].kind == OutputValue;
    assert g.values[k] in g.values && Produced(g.operations, g.values[k].id);
    var i :| 0 <= i < |g.operations| && g.operations[i].output == id;
    assert g.operations[i] in g.operations;
  }

  /** Held in memory, or written to a file and loaded again. */
  ghost predicate Delivered(h: GraphData, k: GraphData) {
    k == h || IsReloaded(h, k)
  }

  lemma DeliveryKeeps(A: Arith, g: GraphData, h: GraphData, k: GraphData)
    requires Ordered(h) && GraphVerified(A, h) && SameInterface(g, h) && KeepsMeaning(A, g, h) && Delivered(h, k)
    ensures Ordered(k) && GraphVerified(A, k) && SameInterface(g, k) && KeepsMeaning(A, g, k)
  {
    if k != h {
      LoadingKeeps(A, h, k.operations);
      MeaningKeptTwice(A, g, h, k);
    }
  }

  /**
   A graph that verifies and evaluates, optimised at any level and then run, from memory or from the file it
   was written to: every call of the session that succeeds delivers the values the original graph evaluates
   to, whatever the schedule, the arena layout and the optimisations were. Of what is run it is asked that no
   two-operand projection is activated; if none is in the original graph, the passes introduce none.
   */
  lemma OptimisedExecution(level: OptimizationLevel, g: GraphData, h: GraphData, session: RuntimeSession,
                           arguments: Arguments)
    requires Ordered(g) && GraphVerified(session.A, g) && PlainGraph(session.graph)
    requires level.O2? ==> FusionAccepted(session.A, g)
    requires Pipeline(session.A, Passes(level), |Passes(level)|, g, h) && LevelFaithful(session.A, level, g)
    requires Delivered(h, session.graph)
    requires session.Valid() && session.StoreOf(arguments).Some?
    requires EvaluateData(session.A, FeedsOf(arguments), g).Some?
    ensures ComputesOriginal(session, arguments, g)
  {
    var A, k, feeds := session.A, session.graph, FeedsOf(arguments);
    LevelsAccepted(A, level, g);
    LevelKeepsMeaning(A, level, g, h);
    DeliveryKeeps(A, g, h, k);
    OutputsPreserved(A, feeds, g, k);
    session.CallMatchesEvaluator(arguments);
    forall id <- g.outputIds
      ensures AgreeAt(session.StoreOf(arguments).value, EvaluateData(A, feeds, g).value, id)
    {
      OutputsProduced(k, id);
    }
  }
}
