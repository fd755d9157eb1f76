/** cpp/src/passes/optimization.cpp */
module Optimization {
  import opened Basics
  import opened GraphIR
  import opened Sequential
  import opened Tensors
  import opened Evaluator
  import opened RewriteUtils
  import opened PassFramework
  import opened ConstantFolding
  import opened FoldingSoundness
  import opened Fusion
  import opened FusionSoundness
  import opened PassPipeline
  import opened PassResults
  import opened FusionChains
  import opened PassManagement

  datatype OptimizationLevel = O0 | O1 | O2

  /** `parse_optimization_level` */
  function ParseOptimizationLevel(text: string): (r: Result<OptimizationLevel>)
    ensures forall level :: r == Ok(level) <==> text == LevelName(level)
    ensures r.Err? ==> r.code == InvalidArgument
  {
    if text == "O0" then Ok(O0) else if text == "O1" then Ok(O1) else if text == "O2" then Ok(O2)
    else Err(InvalidArgument)
  }

  function LevelName(level: OptimizationLevel): string {
    match level
    case O0 => "O0"
    case O1 => "O1"
    case O2 => "O2"
  }

  /** The passes of each level. */
  function Passes(level: OptimizationLevel): seq<Pass> {
    match level
    case O0 => [GraphVerifier]
    case O1 => [CanonicalisationPass, ConstantFoldingPass, DeadCodeEliminationPass]
    case O2 => [CanonicalisationPass, ConstantFoldingPass, ReshapeEliminationPass, TransposeEliminationPass,
                FuseBiasGeluPass, DeadCodeEliminationPass]
  }

  /** OptimizationResult, with the graph hash left out. */
  datatype OptimizationResult = OptimizationResult(
    level: OptimizationLevel,
    pipeline: PassManagerResult,
    operationsBefore: nat, operationsAfter: nat,
    valuesBefore: nat, valuesAfter: nat)
  {
    predicate Success() {
      pipeline.status == Basics.Success
    }
  }

  /** What reaches the fusion at O2, if anything does, has no narrow chain. */
  ghost predicate FusionAccepted(A: Arith, g: GraphData) {
    forall k | Pipeline(A, Passes(O2), 4, g, k) :: NoNarrowChain(k)
  }

  lemma LevelsAccepted(A: Arith, level: OptimizationLevel, g: GraphData)
    ensures NeverNarrow(A, Passes(level), |Passes(level)|, g) <==> (level.O2? ==> FusionAccepted(A, g))
  {
    hide Pipeline, NoNarrowChain;
    if level.O2? {
      if NeverNarrow(A, Passes(O2), 6, g) {
        forall k | Pipeline(A, Passes(O2), 4, g, k) ensures NoNarrowChain(k) {
          assert Accepted(A, Passes(O2), 4, g, k);
        }
      }
      if FusionAccepted(A, g) {
        forall i: nat, k | i < 6 ensures Accepted(A, Passes(O2), i, g, k) {
        }
      }
    }
  }

  /** What preserving meaning takes at each level, of the arithmetic and of what reaches folding and fusion. */
  ghost predicate LevelFaithful(A: Arith, level: OptimizationLevel, g: GraphData) {
    AllFaithful(A, Passes(level), |Passes(level)|, g)
  }

  /** What reaches the folding folds soundly. */
  ghost predicate FoldingFaithful(A: Arith, level: OptimizationLevel, g: GraphData) {
    !level.O0? ==> forall k | Pipeline(A, Passes(level), 1, g, k) :: SoundFolds(A, k, |k.operations|)
  }

  /**
   At O0 nothing is asked; at O1 that folding is sound where something folds; at O2 also commutative
   addition, on graphs in which no two-operand projection is activated.
   */
  lemma LevelsFaithful(A: Arith, level: OptimizationLevel, g: GraphData)
    requires FoldingFaithful(A, level, g) && (level.O2? ==> Commutative(A.add) && PlainGraph(g))
    ensures LevelFaithful(A, level, g)
  {
    forall i: nat, k | i < |Passes(level)| ensures FaithfulAt(A, Passes(level), i, g, k) {
      if Passes(level)[i].FuseBiasGeluPass? {
        PlainIsFaithful(A, Passes(level), i, g, k);
      }
    }
  }

  /** A check on the original graph: where no projection is one element wide, O2 meets no narrow chain. */
  lemma WideIsAccepted(A: Arith, g: GraphData)
    requires WideGraph(g)
    ensures FusionAccepted(A, g)
  {
    hide Pipeline, NoNarrowChain, WideGraph;
    forall k | Pipeline(A, Passes(O2), 4, g, k) ensures NoNarrowChain(k) {
      PipelineKeepsWide(A, Passes(O2), 4, g, k);
      WideHasNoNarrowChain(k);
    }
  }

  /** Another: where no scalar arithmetic stands, folding has nothing to do. */
  lemma NoScalarsFoldFaithfully(A: Arith, level: OptimizationLevel, g: GraphData)
    requires NoScalarArithmetic(g)
    ensures FoldingFaithful(A, level, g)
  {
    hide Transforms, NoScalarArithmetic;
    if !level.O0? {
      forall k | Pipeline(A, Passes(level), 1, g, k) ensures SoundFolds(A, k, |k.operations|) {
        var c := Predecessor(A, Passes(level), 1, g, k);
        CanonicalHasNoScalars(A, g, k);
        NothingToFold(A, k, |k.operations|);
      }
    }
  }

  /** Or of the arithmetic: where the folder agrees with the operators, folding is faithful to every graph. */
  lemma AgreementFoldsFaithfully(A: Arith, level: OptimizationLevel, g: GraphData)
    requires FolderAgrees(A)
    ensures FoldingFaithful(A, level, g)
  {
    hide FolderAgrees, Pipeline;
    if !level.O0? {
      forall k | Pipeline(A, Passes(level), 1, g, k) ensures SoundFolds(A, k, |k.operations|) {
        AgreementIsSound(A, k, |k.operations|);
      }
    }
  }

  lemma LevelKeepsMeaning(A: Arith, level: OptimizationLevel, g: GraphData, h: GraphData)
    requires Ordered(g) && GraphVerified(A, g) && NeverNarrow(A, Passes(level), |Passes(level)|, g)
    requires Pipeline(A, Passes(level), |Passes(level)|, g, h)
    ensures Ordered(h) && GraphVerified(A, h) && SameInterface(g, h)
    ensures LevelFaithful(A, level, g) ==> KeepsMeaning(A, g, h)
  {
    PipelineKeeps(A, Passes(level), |Passes(level)|, g, h);
  }

  // ----- what a level leaves, and when it leaves the graph alone -----

  /** What holds of the graph a level leaves. */
  ghost predicate Leaves(A: Arith, level: OptimizationLevel, h: GraphData) {
    match level
    case O0 => true
    case O1 => AllCanonical(h) && NothingFolds(A, h) && AllLive(h)
    case O2 => AllCanonical(h) && NoSameShape(h) && NoSamePlace(h) && AllLive(h)
  }

  /** The graphs a level does not touch. */
  ghost predicate IsNormal(A: Arith, level: OptimizationLevel, g: GraphData) {
    match level
    case O0 => true
    case O1 => AllCanonical(g) && IsStableOrder(g.operations, g.operations) && NothingFolds(A, g) && AllLive(g)
    case O2 =>
      && AllCanonical(g) && IsStableOrder(g.operations, g.operations) && NothingFolds(A, g)
      && NoSameShape(g) && NoSamePlace(g) && !HasChain(g) && AllLive(g)
  }

  lemma NormalIsSettled(A: Arith, level: OptimizationLevel, g: GraphData)
    ensures IsNormal(A, level, g) <==> forall i | 0 <= i < |Passes(level)| :: Settled(A, Passes(level)[i], g)
  {
    hide AllCanonical, IsStableOrder, NothingFolds, AllLive, NoSameShape, NoSamePlace, HasChain;
    var p := Passes(level);
    if forall i | 0 <= i < |p| :: Settled(A, p[i], g) {
      assert level.O1? ==> Settled(A, p[0], g) && Settled(A, p[1], g) && Settled(A, p[2], g);
      assert level.O2? ==>
        && Settled(A, p[0], g) && Settled(A, p[1], g) && Settled(A, p[2], g)
        && Settled(A, p[3], g) && Settled(A, p[4], g) && Settled(A, p[5], g);
    }
  }

  /** The graphs between the passes of a level, from the first to the last. */
  lemma LevelStages(A: Arith, level: OptimizationLevel, g: GraphData, h: GraphData) returns (s: seq<GraphData>)
    requires Pipeline(A, Passes(level), |Passes(level)|, g, h)
    ensures |s| == (match level case O0 => 1 case O1 => 4 case O2 => 7) && s[0] == g && s[|s| - 1] == h
    ensures level.O1? ==>
      && Transforms(A, CanonicalisationPass, s[0], s[1]) && Transforms(A, ConstantFoldingPass, s[1], s[2])
      && Transforms(A, DeadCodeEliminationPass, s[2], s[3])
    ensures level.O2? ==>
      && Transforms(A, CanonicalisationPass, s[0], s[1]) && Transforms(A, ConstantFoldingPass, s[1], s[2])
      && Transforms(A, ReshapeEliminationPass, s[2], s[3]) && Transforms(A, TransposeEliminationPass, s[3], s[4])
      && Transforms(A, FuseBiasGeluPass, s[4], s[5]) && Transforms(A, DeadCodeEliminationPass, s[5], s[6])
  {
    hide Transforms;
    var p := Passes(level);
    match level {
      case O0 =>
        var before := Predecessor(A, p, 1, g, h);
        VerifierKeeps(A, before, h);
        s := [g];
      case O1 =>
        var b := Predecessor(A, p, 3, g, h);
        var a := Predecessor(A, p, 2, g, b);
        var start := Predecessor(A, p, 1, g, a);
        s := [g, a, b, h];
      case O2 =>
        var e := Predecessor(A, p, 6, g, h);
        var d := Predecessor(A, p, 5, g, e);
        var c := Predecessor(A, p, 4, g, d);
        var b := Predecessor(A, p, 3, g, c);
        var a := Predecessor(A, p, 2, g, b);
        var start := Predecessor(A, p, 1, g, a);
        s := [g, a, b, c, d, e, h];
    }
  }

  lemma VerifierKeeps(A: Arith, g: GraphData, h: GraphData)
    requires Transforms(A, GraphVerifier, g, h)
    ensures h == g
  {
  }

  /** The last pass of a list, between graphs that are ordered and verified. */
  lemma LastPass(A: Arith, passes: seq<Pass>, n: nat, g: GraphData, h: GraphData) returns (k: GraphData)
    requires 0 < n <= |passes| && NeverNarrow(A, passes, |passes|, g) && Ordered(g) && GraphVerified(A, g)
    requires Pipeline(A, passes, n, g, h)
    ensures Pipeline(A, passes, n - 1, g, k) && Transforms(A, passes[n - 1], k, h)
    ensures Ordered(k) && GraphVerified(A, k) && Ordered(h)
    ensures Established(A, passes[n - 1], k, h) && Inherited(A, passes[n - 1], k, h)
  {
    hide Transforms, Ordered, GraphVerified, NoNarrowChain;
    k := Predecessor(A, passes, n, g, h);
    PipelineKeeps(A, passes, n - 1, g, k);
    PipelineKeeps(A, passes, n, g, h);
    PassEstablishes(A, passes[n - 1], k, h);
    PassInherits(A, passes[n - 1], k, h);
  }

  lemma LevelLeaves(A: Arith, level: OptimizationLevel, g: GraphData, h: GraphData)
    requires Ordered(g) && GraphVerified(A, g) && NeverNarrow(A, Passes(level), |Passes(level)|, g)
    requires Pipeline(A, Passes(level), |Passes(level)|, g, h)
    ensures Leaves(A, level, h)
  {
    hide Transforms, Ordered, GraphVerified, NeverNarrow, Pipeline;
    hide AllCanonical, NothingFolds, AllLive, NoSameShape, NoSamePlace;
    var p := Passes(level);
    if level.O1? {
      var b := LastPass(A, p, 3, g, h);
      var a := LastPass(A, p, 2, g, b);
      var start := LastPass(A, p, 1, g, a);
    }
    if level.O2? {
      var e := LastPass(A, p, 6, g, h);
      var d := LastPass(A, p, 5, g, e);
      var c := LastPass(A, p, 4, g, d);
      var b := LastPass(A, p, 3, g, c);
      var a := LastPass(A, p, 2, g, b);
      var start := LastPass(A, p, 1, g, a);
    }
  }

  /** `optimize_graph` */
  method OptimizeGraph(A: Arith, graph: Graph, level: OptimizationLevel) returns (r: OptimizationResult)
    requires Ordered(graph.Data())
    modifies graph
    ensures Ordered(graph.Data()) && SameInterface(old(graph.Data()), graph.Data())
    ensures r.Success() <==> GraphVerified(A, old(graph.Data())) && (level.O2? ==> FusionAccepted(A, old(graph.Data())))
    ensures r.Success() ==>
      && GraphVerified(A, graph.Data())
      && Pipeline(A, Passes(level), |Passes(level)|, old(graph.Data()), graph.Data())
      && (LevelFaithful(A, level, old(graph.Data())) ==> KeepsMeaning(A, old(graph.Data()), graph.Data()))
    ensures r.Success() ==> Leaves(A, level, graph.Data())
    ensures r.Success() ==> (!r.pipeline.changed <==> IsNormal(A, level, old(graph.Data())))
    ensures !r.pipeline.changed ==> graph.Data() == old(graph.Data())
    ensures r.operationsBefore == |old(graph.operations)| && r.operationsAfter == |graph.operations|
    ensures r.valuesBefore == |old(graph.values)| && r.valuesAfter == |graph.values|
  {
    ghost var g := graph.Data();
    var operationsBefore, valuesBefore := |graph.operations|, |graph.values|;
    var manager := new PassManager();
    if level.O0? {
      manager.AddPass(GraphVerifier);
    } else {
      manager.AddPass(CanonicalisationPass);
      manager.AddPass(ConstantFoldingPass);
      if level.O2? {
        manager.AddPass(ReshapeEliminationPass);
        manager.AddPass(TransposeEliminationPass);
        manager.AddPass(FuseBiasGeluPass);
      }
      manager.AddPass(DeadCodeEliminationPass);
    }
    assert manager.passes == Passes(level);
    var pipeline := manager.Run(A, graph);
    LevelsAccepted(A, level, g);
    hide Ordered, GraphVerified, NeverNarrow, Pipeline, ChangesRecorded, Leaves, IsNormal, Settled, FusionAccepted;
    hide LevelFaithful, KeepsMeaning;
    if pipeline.status == Basics.Success {
      LevelKeepsMeaning(A, level, g, graph.Data());
      LevelLeaves(A, level, g, graph.Data());
      QuietExactly(A, Passes(level), g, graph.Data(), pipeline);
      NormalIsSettled(A, level, g);
    }
    r := OptimizationResult(level, pipeline, operationsBefore, |graph.operations|, valuesBefore, |graph.values|);
  }

  /** A successful optimisation leaves the value of every declared output as it was, for all feeds. */
  lemma OptimizationPreservesOutputs(A: Arith, level: OptimizationLevel, feeds: Feeds, g: GraphData, h: GraphData)
    requires Ordered(g) && GraphVerified(A, g) && (level.O2? ==> FusionAccepted(A, g))
    requires Pipeline(A, Passes(level), |Passes(level)|, g, h)
    requires LevelFaithful(A, level, g) && EvaluateData(A, feeds, g).Some?
    ensures EvaluateData(A, feeds, h).Some?
    ensures forall id <- g.outputIds ::
      AgreeAt(EvaluateData(A, feeds, g).value, EvaluateData(A, feeds, h).value, id)
  {
    LevelsAccepted(A, level, g);
    LevelKeepsMeaning(A, level, g, h);
    OutputsPreserved(A, feeds, g, h);
  }
}
