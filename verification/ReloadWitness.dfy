/** A graph whose optimised form, written and loaded again, runs its side effects in the other order. */
module ReloadWitness {
  import opened Basics
  import opened GraphIR
  import opened Shapes
  import opened TensorSizes
  import opened StringOrder
  import opened OperationOrder
  import opened Sequential
  import opened Tensors
  import opened Evaluator
  import opened SemanticVerifier
  import opened GraphInvariants
  import opened KernelSoundness
  import opened UnboundedStore
  import opened RewriteUtils
  import opened PassFramework
  import Kahn
  import opened Canonicalisation
  import opened ConstantFolding
  import opened DeadCodeElimination
  import opened PassPipeline
  import opened Optimization
  import opened GraphLoader
  import opened Connectivity
  import opened LoadableGraphs

  function Effect(): Attributes {
    map["side_effect" := JBool(true)]
  }

  function Literal(bits: int): Attributes {
    map["value" := JFloat(Scalar.Scalar(bits))]
  }

  /** x + x and (c + d) + x, both with side effects; the second waits for a sum of constants. */
  function SavedOperations(): seq<Operation> {
    [Operation("op0000", Input, [], "v0000", map[]),
     Operation("op0003", Add, ["v0000", "v0000"], "v0001", Effect()),
     Operation("op0008", Constant, [], "v0002", Literal(1)),
     Operation("op0009", Constant, [], "v0003", Literal(2)),
     Operation("op0002", Add, ["v0002", "v0003"], "v0004", map[]),
     Operation("op0001", Add, ["v0004", "v0000"], "v0005", Effect())]
  }

  function SavedValues(): seq<Value> {
    var scalar := Descriptor(Float32, []);
    [Value("v0000", scalar, InputValue), Value("v0001", scalar, OutputValue), Value("v0002", scalar, ConstantValue),
     Value("v0003", scalar, ConstantValue), Value("v0004", scalar, IntermediateValue),
     Value("v0005", scalar, OutputValue)]
  }

  function SavedGraph(): GraphData {
    GraphData(["v0000"], ["v0001", "v0005"], SavedValues(), SavedOperations())
  }

  function SavedIds(): seq<nat> {
    [0, 3, 8, 9, 2, 1]
  }

  function Late(): Operation {
    SavedOperations()[1]
  }

  function Early(): Operation {
    SavedOperations()[5]
  }

  // ----- the graph is one the loader returns as it stands -----

  function SavedUses(i: nat): seq<nat> {
    if i == 1 then [0, 0] else if i == 4 then [2, 3] else if i == 5 then [4, 0] else []
  }

  lemma SavedAt(i: nat)
    requires i < 6
    ensures OperationAt(SavedGraph(), SavedIds(), i)
  {
    Spelled();
    hide ValueId, OpId, OperationAt;
    PlaceOperation(SavedGraph(), SavedIds(), i, SavedUses(i));
  }

  lemma SavedLaidOut()
    ensures LaidOut(SavedGraph(), SavedIds()) && InterfaceAt(SavedGraph(), [0], [1, 5])
  {
    forall i | 0 <= i < 6 ensures OperationAt(SavedGraph(), SavedIds(), i) {
      SavedAt(i);
    }
    hide OperationAt;
  }

  lemma SavedWaits(i: nat, j: nat)
    requires i < j < 6 && SavedIds()[j] < SavedIds()[i]
    ensures WaitsFor(SavedOperations(), i, j)
  {
    if j == 4 {
      assert OperationOrder.Feeds(SavedOperations(), 3, 4);
    } else {
      assert OperationOrder.Feeds(SavedOperations(), 4, 5);
    }
  }

  lemma SavedStands()
    ensures StandsAsLoaded(SavedOperations())
  {
    var ops := SavedOperations();
    Spelled();
    hide OpId, ValueId, Less, WaitsFor;
    forall i, j | 0 <= i < j < 6 && Less(ops[j].id, ops[i].id) ensures WaitsFor(ops, i, j) {
      Names(SavedIds()[j], SavedIds()[i]);
      SavedWaits(i, j);
    }
  }

  lemma SavedConnected()
    ensures Connected(SavedGraph())
  {
    var g := SavedGraph();
    InputIsReached(g, "v0000");
    ReachesNext(g, 1, 0);
    ReachesNext(g, 5, 1);
  }

  lemma SavedTypes(i: nat)
    requires i < 6
    ensures DistinctValueIds(SavedValues())
    ensures var t := Descriptors(SavedValues()); SavedValues()[i].id in t && t[SavedValues()[i].id] == Descriptor(Float32, [])
  {
    SavedLaidOut();
    SavedAt(i);
    hide LaidOut, Descriptors, InterfaceAt;
    LaidOutTypes(SavedGraph(), SavedIds(), i);
  }

  lemma SavedVerifiedAt(A: Arith, i: nat)
    requires i < 6
    ensures var t, op := Descriptors(SavedValues()), SavedOperations()[i];
      Resolved(t, op) && OperationOk(A, t, op) && t[op.output] == Descriptor(Float32, [])
  {
    SavedTypes(0);
    SavedTypes(i);
    SavedTypes(2);
    SavedTypes(3);
    SavedTypes(4);
    var empty: Shape := [];
    assert BroadcastShape(empty, empty).value == empty;
    hide Descriptors, BroadcastShape;
  }

  /** Loader and verifier accept the graph, and the loader leaves its operations where they are. */
  lemma SavedIsReceivable(A: Arith)
    ensures Loadable(SavedGraph()) && GraphVerified(A, SavedGraph())
  {
    var g := SavedGraph();
    forall i | 0 <= i < 6 ensures Resolved(Descriptors(g.values), g.operations[i]) && OperationOk(A, Descriptors(g.values), g.operations[i]) {
      SavedVerifiedAt(A, i);
    }
    assert GraphVerified(A, g);
    SavedLaidOut();
    SavedStands();
    SavedConnected();
    hide LaidOut, InterfaceAt, StandsAsLoaded, Connected, GraphVerified, Loadable, Descriptors;
    LaidOutIsLoadable(g, SavedIds(), [0], [1, 5]);
  }

  // ----- what O1 makes of it -----

  lemma SavedIsCanonical(A: Arith, h: GraphData)
    requires Transforms(A, CanonicalisationPass, SavedGraph(), h)
    ensures h == SavedGraph()
  {
    StaysCanonical(A);
    hide *;
    TransformsDeterministic(A, CanonicalisationPass, SavedGraph(), SavedGraph(), h);
  }

  lemma StaysCanonical(A: Arith)
    ensures Transforms(A, CanonicalisationPass, SavedGraph(), SavedGraph())
  {
    var g := SavedGraph();
    CanonicalAlready();
    SavedLaidOut();
    LaidOutDistinct(g, SavedIds());
    SavedStands();
    LoadedInPlace(g.operations);
    hide IsStableOrder, IsLoadedOrder, LaidOut, InterfaceAt, CanonicalOperations, SavedOperations, SavedValues;
    assert g == Rewired(g, g.operations);
  }

  lemma CanonicalAlready()
    ensures CanonicalOperations(Descriptors(SavedGraph().values), SavedOperations()) == SavedOperations()
  {
    var types, ops := Descriptors(SavedGraph().values), SavedOperations();
    forall i | 0 <= i < 6 ensures CanonicalOperation(types, ops[i]) == ops[i] {
    }
  }

  /** The sum of the constants is all that folds. */
  lemma FoldsAtFour(A: Arith)
    ensures var g := SavedGraph();
      && ConstantOperands(g.operations, ["v0002", "v0003"]) == Some([JFloat(Scalar.Scalar(1)), JFloat(Scalar.Scalar(2))])
      && Folded(A, Descriptors(g.values), g.operations, g.operations[4])
         == Some(JFloat(A.foldAdd(JFloat(Scalar.Scalar(1)), JFloat(Scalar.Scalar(2)))))
  {
    var ops := SavedOperations();
    SavedLaidOut();
    LaidOutDistinct(SavedGraph(), SavedIds());
    FindProducerAt(ops, 2);
    FindProducerAt(ops, 3);
    SavedTypes(4);
    hide FindProducer, LaidOut, Descriptors, InterfaceAt;
    assert ConstantOperand(ops, "v0002") == Some(JFloat(Scalar.Scalar(1)));
    assert ConstantOperand(ops, "v0003") == Some(JFloat(Scalar.Scalar(2)));
    hide ConstantOperand;
    TwoConstants(ops, "v0002", "v0003");
  }

  lemma TwoConstants(ops: seq<Operation>, a: Id, b: Id)
    requires ConstantOperand(ops, a).Some? && ConstantOperand(ops, b).Some?
    ensures ConstantOperands(ops, [a, b]) == Some([ConstantOperand(ops, a).value, ConstantOperand(ops, b).value])
  {
    var none: seq<Id> := [];
    var one, two := [a], [a, b];
    assert two[..1] == one && one[..0] == none;
    var nothing: seq<Json> := [];
    var x, y := ConstantOperand(ops, a).value, ConstantOperand(ops, b).value;
    assert nothing + [x] == [x] && [x] + [y] == [x, y];
    assert ConstantOperands(ops, none) == Some(nothing);
    assert ConstantOperands(ops, one) == Some([ConstantOperand(ops, a).value]);
  }

  lemma SavedSweep(A: Arith, m: nat)
    requires m <= 6
    ensures FoldSweep(A, SavedGraph(), m) == if m <= 4 then SavedGraph() else FoldStep(A, SavedGraph(), 4)
  {
    SweepUnfolds(A, SavedGraph(), m);
    hide FoldSweep, FoldStep, SavedGraph;
    if m > 0 {
      SavedSweep(A, m - 1);
      if m <= 4 {
        NothingFoldsBefore(A, m - 1);
      } else if m == 6 {
        NothingFoldsAfter(A);
      }
    }
  }

  lemma NothingFoldsBefore(A: Arith, i: nat)
    requires i < 4
    ensures FoldStep(A, SavedGraph(), i) == SavedGraph()
  {
  }

  lemma NothingFoldsAfter(A: Arith)
    ensures |FoldStep(A, SavedGraph(), 4).operations| == 6
    ensures FoldStep(A, FoldStep(A, SavedGraph(), 4), 5) == FoldStep(A, SavedGraph(), 4)
  {
  }

  function FoldedSum(A: Arith): Operation {
    FoldedOperation(SavedOperations()[4], JFloat(A.foldAdd(JFloat(Scalar.Scalar(1)), JFloat(Scalar.Scalar(2)))))
  }

  lemma SweptOperations(A: Arith)
    ensures FoldSweep(A, SavedGraph(), 6).operations == SavedOperations()[4 := FoldedSum(A)]
    ensures FoldSweep(A, SavedGraph(), 6).inputIds == ["v0000"] && FoldSweep(A, SavedGraph(), 6).outputIds == ["v0001", "v0005"]
  {
    SavedSweep(A, 6);
    FoldsAtFour(A);
    hide FoldSweep, Folded;
  }

  /** What O1 makes of the graph, up to the dead code. */
  lemma OptimisedIs(A: Arith, h: GraphData) returns (live: set<Id>)
    requires Pipeline(A, Passes(O1), 3, SavedGraph(), h)
    ensures var k := FoldSweep(A, SavedGraph(), 6); IsLiveSet(k, live) && h == WithoutDeadCode(k, live)
  {
    hide Transforms, IsLiveSet, FoldSweep, SavedGraph;
    var k := Predecessor(A, Passes(O1), 3, SavedGraph(), h);
    var c := Predecessor(A, Passes(O1), 2, SavedGraph(), k);
    var g := Predecessor(A, Passes(O1), 1, SavedGraph(), c);
    live := LastStep(A, g, c, k, h);
  }

  lemma LastStep(A: Arith, g: GraphData, c: GraphData, k: GraphData, h: GraphData) returns (live: set<Id>)
    requires g == SavedGraph() && Transforms(A, CanonicalisationPass, g, c)
    requires Transforms(A, ConstantFoldingPass, c, k) && Transforms(A, DeadCodeEliminationPass, k, h)
    ensures IsLiveSet(FoldSweep(A, SavedGraph(), 6), live) && h == WithoutDeadCode(FoldSweep(A, SavedGraph(), 6), live)
  {
    hide Transforms, IsLiveSet, FoldSweep, WithoutDeadCode, SavedGraph;
    SavedIsCanonical(A, c);
    SixOperations();
    FoldingMakes(A, c, k);
    live := DeadCodeMakes(A, k, h);
  }

  lemma FoldingMakes(A: Arith, g: GraphData, h: GraphData)
    requires Transforms(A, ConstantFoldingPass, g, h)
    ensures h == FoldSweep(A, g, |g.operations|)
  {
  }

  lemma DeadCodeMakes(A: Arith, g: GraphData, h: GraphData) returns (live: set<Id>)
    requires Transforms(A, DeadCodeEliminationPass, g, h)
    ensures IsLiveSet(g, live) && h == WithoutDeadCode(g, live)
  {
    live :| IsLiveSet(g, live) && h == WithoutDeadCode(g, live);
  }

  lemma SixOperations()
    ensures |SavedGraph().operations| == 6
  {
  }

  /** Both operations with side effects, the input and the folded sum are live. */
  lemma StaysLive(A: Arith, live: set<Id>)
    requires IsLiveSet(FoldSweep(A, SavedGraph(), 6), live)
    ensures "v0000" in live && "v0001" in live && "v0004" in live && "v0005" in live
  {
    var k := FoldSweep(A, SavedGraph(), 6);
    SweptOperations(A);
    hide FoldSweep, FoldedSum;
    assert IsRoot(k, "v0000") && IsRoot(k, "v0001") && IsRoot(k, "v0005");
    assert k.operations[5] == Early() && Early() in k.operations;
    assert Early().inputs[0] == "v0004";
  }

  lemma KeptMember(g: GraphData, live: set<Id>, i: nat)
    requires DistinctOperationIds(g.operations) && i < |g.operations| && g.operations[i].output in live
    ensures g.operations[i].id !in DeadOperations(g.operations, live)
  {
    forall op <- g.operations | op.id == g.operations[i].id ensures op == g.operations[i] {
      var j :| 0 <= j < |g.operations| && g.operations[j] == op;
    }
  }

  /** Erasing keeps the relative order. */
  lemma {:induction false} KeptPrecedes(ops: seq<Operation>, ids: set<Id>, i: nat, j: nat)
    requires i < j < |ops| && ops[i].id !in ids && ops[j].id !in ids
    ensures Precedes(KeptOperations(ops, ids), ops[i], ops[j])
  {
    var n := |ops| - 1;
    var before := KeptOperations(ops[..n], ids);
    if j < n {
      KeptPrecedes(ops[..n], ids, i, j);
      var a, b :| 0 <= a < b < |before| && before[a] == ops[i] && before[b] == ops[j];
      assert KeptOperations(ops, ids)[a] == ops[i] && KeptOperations(ops, ids)[b] == ops[j];
    } else {
      KeptOperationsAre(ops[..n], ids);
      assert ops[..n][i] == ops[i] && ops[i] in before;
      var a :| 0 <= a < |before| && before[a] == ops[i];
      assert KeptOperations(ops, ids)[a] == ops[i] && KeptOperations(ops, ids)[|before|] == ops[j];
    }
  }

  /**
   The loader returns the graph as it stands and O1 accepts it. In what O1 makes of it the two operations
   with side effects still stand in that order, and once it is written and loaded again in the other: the
   sum that kept the second one back has become a constant.
   */
  lemma ReloadingSwapsEffects(A: Arith, h: GraphData, loaded: seq<Operation>)
    requires Pipeline(A, Passes(O1), 3, SavedGraph(), h) && IsLoadedOrder(h.operations, loaded)
    ensures Late().HasSideEffect() && Early().HasSideEffect() && Ordered(h) && GraphVerified(A, h)
    ensures Precedes(h.operations, Late(), Early()) && Precedes(loaded, Early(), Late())
    ensures !StandsAsLoaded(h.operations)
  {
    OptimisedStaysOrdered(A, h);
    hide IsLoadedOrder, Pipeline, GraphVerified, Precedes, Ordered, StandsAsLoaded;
    EffectsStand(A, h);
    EffectsSwap(A, h, loaded);
    OrderDiffers(h, loaded);
  }

  lemma OptimisedStaysOrdered(A: Arith, h: GraphData)
    requires Pipeline(A, Passes(O1), 3, SavedGraph(), h)
    ensures Ordered(h) && GraphVerified(A, h)
  {
    SavedIsReceivable(A);
    hide Pipeline, GraphVerified, Ordered, SavedGraph;
    LevelsAccepted(A, O1, SavedGraph());
    LevelKeepsMeaning(A, O1, SavedGraph(), h);
  }

  lemma OrderDiffers(h: GraphData, loaded: seq<Operation>)
    requires Ordered(h) && IsLoadedOrder(h.operations, loaded)
    requires Precedes(h.operations, Late(), Early()) && Precedes(loaded, Early(), Late())
    ensures !StandsAsLoaded(h.operations)
  {
    ReloadKeepsOrder(h.operations, loaded);
    hide IsLoadedOrder, StandsAsLoaded, TopologicallyOrdered, LoadableGraphs.Loadable;
    if loaded == h.operations {
      OnlyOneOrder(loaded, Late(), Early());
    }
  }

  lemma OnlyOneOrder(ops: seq<Operation>, a: Operation, b: Operation)
    requires DistinctOperationIds(ops) && Precedes(ops, a, b)
    ensures !Precedes(ops, b, a)
  {
    var i, j :| 0 <= i < j < |ops| && ops[i] == a && ops[j] == b;
    forall m, n | 0 <= m < n < |ops| ensures !(ops[m] == b && ops[n] == a) {
      assert ops[m].id == ops[j].id ==> m == j;
      assert ops[n].id == ops[i].id ==> n == i;
    }
  }

  lemma EffectsStand(A: Arith, h: GraphData)
    requires Pipeline(A, Passes(O1), 3, SavedGraph(), h)
    ensures Precedes(h.operations, Late(), Early())
    ensures Late() in h.operations && Early() in h.operations && FoldedSum(A) in h.operations
  {
    var live := OptimisedIs(A, h);
    var k := FoldSweep(A, SavedGraph(), 6);
    SweptOperations(A);
    StaysLive(A, live);
    SweptDistinct(A);
    hide FoldSweep, IsLiveSet, Pipeline, FoldedSum, DeadValues;
    var dead := DeadOperations(k.operations, live);
    KeptMember(k, live, 1);
    KeptMember(k, live, 4);
    KeptMember(k, live, 5);
    hide DeadOperations;
    KeptPrecedes(k.operations, dead, 1, 5);
    KeptOperationsAre(k.operations, dead);
    assert k.operations[1] in k.operations && k.operations[4] in k.operations && k.operations[5] in k.operations;
  }

  lemma SweptDistinct(A: Arith)
    ensures DistinctOperationIds(FoldSweep(A, SavedGraph(), 6).operations)
    ensures FoldedSum(A).output == "v0004" && FoldedSum(A).id == "op0002" && FoldedSum(A).inputs == []
  {
    SweptOperations(A);
    SavedLaidOut();
    LaidOutDistinct(SavedGraph(), SavedIds());
    hide FoldSweep, LaidOut, InterfaceAt;
  }

  lemma EffectsSwap(A: Arith, h: GraphData, loaded: seq<Operation>)
    requires Pipeline(A, Passes(O1), 3, SavedGraph(), h) && IsLoadedOrder(h.operations, loaded) && Ordered(h)
    ensures Precedes(loaded, Early(), Late())
  {
    EffectsStand(A, h);
    SweptDistinct(A);
    Spelled();
    Names(1, 3);
    Names(2, 3);
    hide Pipeline, IsLoadedOrder, FoldedSum, Less, OpId, ValueId, FoldSweep, Precedes;
    LoadingSwaps(h, loaded, Early(), Late(), FoldedSum(A));
  }

  lemma SavedIsOrdered(A: Arith)
    ensures Ordered(SavedGraph()) && GraphVerified(A, SavedGraph())
  {
    hide SavedGraph, Ordered, GraphVerified;
    SavedIsReceivable(A);
  }

  /** Optimising, writing and loading, on the graph above. */
  method OptimiseAndReload(A: Arith) returns (before: seq<Operation>, loaded: seq<Operation>)
    ensures Precedes(before, Late(), Early()) && Precedes(loaded, Early(), Late())
  {
    hide Ordered, GraphVerified, Pipeline, SavedGraph, Precedes, LevelFaithful, KeepsMeaning, Leaves, IsNormal;
    hide FusionAccepted, DistinctOutputs, OperandsProduced, IsLoadedOrder, StandsAsLoaded, Late, Early;
    SavedIsOrdered(A);
    var graph := new Graph(SavedGraph());
    var r := OptimizeGraph(A, graph, O1);
    before := graph.operations;
    ReloadingSucceeds(graph.Data());
    var reloaded := DeterministicTopologicalOrder(before);
    loaded := reloaded.value;
    ReloadingSwapsEffects(A, graph.Data(), loaded);
  }
}

/** The same graph, folded under an arithmetic in which the folder and the operator disagree. */
module FoldingWitness {
  import opened Basics
  import opened GraphIR
  import opened Shapes
  import opened OperationOrder
  import opened Sequential
  import opened Tensors
  import opened Evaluator
  import opened SemanticVerifier
  import opened GraphInvariants
  import opened KernelSoundness
  import opened UnboundedStore
  import opened PassFramework
  import opened ConstantFolding
  import opened LoadableGraphs
  import opened ReloadWitness

  /** Every literal stands for one, the folder's sums included; the operator adds. */
  function Miscounts(): Arith {
    Increments().(literal := (j: Json) => Scalar.Scalar(1))
  }

  lemma SumFoldsWrong()
    ensures !SoundFold(Miscounts(), SavedGraph(), 4)
  {
    FoldsAtFour(Miscounts());
    hide ConstantOperands, Folded, Descriptors;
  }

  lemma SweepFoldsWrong()
    ensures !SoundFolds(Miscounts(), SavedGraph(), 6)
  {
    SumFoldsWrong();
    SavedSweep(Miscounts(), 4);
    hide SoundFold, FoldSweep;
    assert !SoundFolds(Miscounts(), SavedGraph(), 5);
  }

  /** One element for the input. */
  function One(): Arguments {
    Arguments(map["v0000" := Argument([], [Scalar.Scalar(0)], 4, true)], map[])
  }

  lemma OneIsAccepted(A: Arith, H: Hashing, i: nat)
    requires i < 6
    ensures CallOk(A, H, One(), Descriptors(SavedValues()), SavedOperations()[i])
    ensures Plain(SavedOperations()[i])
  {
    SavedVerifiedAt(A, i);
    hide Descriptors, OperationOk;
  }

  lemma SavedEvaluates(A: Arith, H: Hashing)
    ensures EvaluateData(A, FeedsOf(One()), SavedGraph()).Some?
  {
    var g, types := SavedGraph(), Descriptors(SavedValues());
    SavedIsReceivable(A);
    forall i | 0 <= i < 6 ensures CallOk(A, H, One(), types, g.operations[i]) && Plain(g.operations[i]) {
      OneIsAccepted(A, H, i);
    }
    DescriptorsPositive(g.values);
    hide CallOk, Plain, Descriptors;
    SavedRuns(A, H, g, types);
  }

  lemma SavedRuns(A: Arith, H: Hashing, g: GraphData, types: Types)
    requires Ordered(g) && GraphVerified(A, g) && types == Descriptors(g.values)
    requires forall id <- types :: Positive(types[id].shape)
    requires forall i | 0 <= i < |g.operations| :: CallOk(A, H, One(), types, g.operations[i]) && Plain(g.operations[i])
    ensures EvaluateData(A, FeedsOf(One()), g).Some?
  {
    hide CallOk, Plain, Descriptors, Resolved, OperationOk;
    VerifiedGraphRuns(A, H, One(), types, g.operations);
    CpuMatchesEvaluator(A, H, One(), types, g.operations, g.operations);
  }

  /** A graph loader and verifier accept, which evaluates, and whose meaning folding changes. */
  lemma FoldingChangesMeaning()
    ensures var A, g := Miscounts(), SavedGraph();
      && Loadable(g) && GraphVerified(A, g) && EvaluateData(A, FeedsOf(One()), g).Some?
      && !SoundFolds(A, g, |g.operations|) && !KeepsMeaning(A, g, FoldSweep(A, g, |g.operations|))
  {
    var A, g := Miscounts(), SavedGraph();
    SavedIsReceivable(A);
    SavedEvaluates(A, Hashing((data: seq<Scalar>) => "", (text: string) => false));
    SweepFoldsWrong();
    SixOperations();
    hide GraphVerified, SavedGraph, Miscounts, SoundFolds, FoldSweep, KeepsMeaning;
    FoldingKeepsMeaningExactly(A, FeedsOf(One()), g);
  }
}
