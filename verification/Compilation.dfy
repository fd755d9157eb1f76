/** From a file to an optimised file and back: `optimize` of cpp/src/core/cli_main.cpp. */
module Compilation {
  import opened Basics
  import opened GraphIR
  import opened OperationOrder
  import opened Sequential
  import opened Tensors
  import opened Evaluator
  import opened SemanticVerifier
  import opened GraphInvariants
  import opened RewriteUtils
  import opened PassFramework
  import opened Erasure
  import opened CopyElimination
  import opened Canonicalisation
  import opened ConstantFolding
  import opened ReshapeElimination
  import TransposeElimination
  import opened DeadCodeElimination
  import opened Fusion
  import opened FusionSoundness
  import opened PassPipeline
  import opened Optimization
  import opened GraphLoader
  import opened Connectivity
  import opened LoadableGraphs

  // ----- names and digests survive the passes -----

  lemma ErasedIsWellNamed(g: GraphData, opIds: set<Id>, valueIds: set<Id>)
    requires WellNamedGraph(g)
    ensures WellNamedGraph(Erased(g, opIds, valueIds))
  {
    KeptOperationsAre(g.operations, opIds);
    KeptValuesAre(g.values, valueIds);
  }

  lemma CanonicalIsWellNamed(g: GraphData, after: seq<Operation>)
    requires WellNamedGraph(g) && IsStableOrder(CanonicalOperations(Descriptors(g.values), g.operations), after)
    ensures WellNamedGraph(Rewired(g, after))
  {
    hide CanonicalAttributes, Descriptors, IsStableOrder, IsDigest, IsNumbered;
    var types, ops := Descriptors(g.values), CanonicalOperations(Descriptors(g.values), g.operations);
    forall op <- after ensures WellNamed(op) {
      StableOrderMembers(ops, after, op);
      var k :| 0 <= k < |ops| && ops[k] == op;
      assert g.operations[k] in g.operations;
      AttributeKept(op.kind, g.operations[k].attributes, RankOf(types, g.operations[k]), "content_sha256");
    }
  }

  lemma FoldStepIsWellNamed(A: Arith, g: GraphData, i: nat)
    requires WellNamedGraph(g) && i < |g.operations|
    ensures WellNamedGraph(FoldStep(A, g, i))
  {
    hide IsDigest, IsNumbered, Folded;
    var h := FoldStep(A, g, i);
    forall op <- h.operations ensures WellNamed(op) {
      var k :| 0 <= k < |h.operations| && h.operations[k] == op;
      assert g.operations[k] in g.operations;
    }
    forall v <- h.values ensures IsNumbered(v.id, "v") {
      var k :| 0 <= k < |h.values| && h.values[k] == v;
      assert g.values[k] in g.values;
    }
  }

  lemma {:induction false} FoldedIsWellNamed(A: Arith, g: GraphData, m: nat)
    requires WellNamedGraph(g) && m <= |g.operations|
    ensures WellNamedGraph(FoldSweep(A, g, m))
  {
    hide WellNamedGraph;
    if m > 0 {
      FoldedIsWellNamed(A, g, m - 1);
      FoldStepIsWellNamed(A, FoldSweep(A, g, m - 1), m - 1);
    }
  }

  lemma ReroutedIsWellNamed(g: GraphData, drop: seq<bool>)
    requires WellNamedGraph(g) && HasOperands(g.operations, drop)
    ensures WellNamedGraph(ReroutedGraph(g, drop))
  {
    hide IsDigest, IsNumbered;
    var r := Rerouted(g.operations, drop, |g.operations|);
    forall op <- r ensures WellNamed(op) {
      var i :| 0 <= i < |r| && r[i] == op;
      assert g.operations[i] in g.operations;
    }
  }

  lemma FusedIsWellNamed(g: GraphData)
    requires WellNamedGraph(g)
    ensures WellNamedGraph(FusedGraph(g))
  {
    hide IsDigest, IsNumbered;
    var r := FusedOperations(g, |g.operations|);
    forall op <- r ensures WellNamed(op) {
      var i :| 0 <= i < |r| && r[i] == op;
      FusedIsNoCandidate(g, |g.operations|, i);
      assert g.operations[i] in g.operations;
    }
  }

  lemma WithoutCopiesIsWellNamed(g: GraphData, drop: seq<bool>)
    requires WellNamedGraph(g) && HasOperands(g.operations, drop)
    ensures WellNamedGraph(WithoutCopies(g, drop))
  {
    ReroutedIsWellNamed(g, drop);
    ErasedIsWellNamed(ReroutedGraph(g, drop), DroppedIds(g.operations, drop), DroppedOutputs(g.operations, drop));
  }

  lemma PassKeepsNames(A: Arith, pass: Pass, g: GraphData, h: GraphData)
    requires WellNamedGraph(g) && Transforms(A, pass, g, h)
    ensures WellNamedGraph(h)
  {
    hide WellNamedGraph, IsStableOrder, IsLiveSet, FoldSweep;
    match pass {
      case GraphVerifier =>
      case CanonicalisationPass => CanonicalIsWellNamed(g, h.operations);
      case ConstantFoldingPass => FoldedIsWellNamed(A, g, |g.operations|);
      case ReshapeEliminationPass => WithoutCopiesIsWellNamed(g, RedundantReshapes(g));
      case TransposeEliminationPass => WithoutCopiesIsWellNamed(g, TransposeElimination.RedundantTransposes(g));
      case FuseBiasGeluPass =>
        FusedIsWellNamed(g);
        ErasedIsWellNamed(FusedGraph(g), AbsorbedIds(g, |g.operations|), AbsorbedValues(g, |g.operations|));
      case DeadCodeEliminationPass =>
        var live :| IsLiveSet(g, live) && h == WithoutDeadCode(g, live);
        ErasedIsWellNamed(g, DeadOperations(g.operations, live), DeadValues(g.values, live));
    }
  }

  // ----- what is written can be loaded -----

  /** All of `Loadable` but the order. */
  ghost predicate Receivable(g: GraphData) {
    && Ordered(g) && Connected(g) && DistinctIds(g.inputIds) && DistinctIds(g.outputIds) && WellNamedGraph(g)
  }

  lemma PassKeepsReceivable(A: Arith, pass: Pass, g: GraphData, h: GraphData)
    ensures Receivable(g) && GraphVerified(A, g) && Transforms(A, pass, g, h) ==>
      (pass.FuseBiasGeluPass? ==> NoNarrowChain(g)) ==> Receivable(h) && GraphVerified(A, h)
  {
    if Receivable(g) && GraphVerified(A, g) && Transforms(A, pass, g, h) {
      hide Connected, WellNamedGraph, Ordered, GraphVerified, Transforms, NoNarrowChain;
      PassKeepsVerified(A, pass, g, h);
      PassKeepsConnected(A, pass, g, h);
      PassKeepsNames(A, pass, g, h);
    }
  }

  lemma {:induction false} PipelineKeepsReceivable(A: Arith, passes: seq<Pass>, n: nat, g: GraphData, h: GraphData)
    requires n <= |passes| && NeverNarrow(A, passes, n, g) && Receivable(g) && GraphVerified(A, g)
    ensures Pipeline(A, passes, n, g, h) ==> Receivable(h) && GraphVerified(A, h)
  {
    hide Transforms, GraphVerified, NoNarrowChain, Receivable;
    if n > 0 && Pipeline(A, passes, n, g, h) {
      var k := Predecessor(A, passes, n, g, h);
      PipelineKeepsReceivable(A, passes, n - 1, g, k);
      assert Accepted(A, passes, n - 1, g, k);
      PassKeepsReceivable(A, passes[n - 1], k, h);
    }
  }

  /** The loader finds in a receivable graph nothing to refuse, and puts it in a loadable order. */
  lemma ReloadedIsLoadable(A: Arith, g: GraphData, h: GraphData)
    requires Receivable(g) && IsReloaded(g, h)
    ensures Loadable(h) && KeepsMeaning(A, g, h) && SameInterface(g, h) && SameOperations(g.operations, h.operations)
    ensures GraphVerified(A, g) ==> GraphVerified(A, h)
  {
    LoadingKeeps(A, g, h.operations);
    LoadedStands(g, h.operations);
    LoadedInPlace(h.operations);
    hide IsReloaded, Ordered, GraphVerified, KeepsMeaning, IsLoadedOrder, IsDigest, IsNumbered;
    assert Connected(h);
    assert WellNamedGraph(h);
  }

  lemma OptimisedIsReceivable(A: Arith, level: OptimizationLevel, g: GraphData, h: GraphData)
    requires Loadable(g) && GraphVerified(A, g) && (level.O2? ==> FusionAccepted(A, g))
    requires Pipeline(A, Passes(level), |Passes(level)|, g, h)
    ensures Receivable(h)
  {
    assert Receivable(g);
    hide Loadable, Receivable, GraphVerified, Pipeline, FusionAccepted;
    LevelsAccepted(A, level, g);
    PipelineKeepsReceivable(A, Passes(level), |Passes(level)|, g, h);
  }

  /**
   A graph the loader and the verifier accept, optimised at any level, written and loaded again: it is
   accepted again, and it has the meaning and the interface of the original.
   */
  lemma OptimisedIsLoadable(A: Arith, level: OptimizationLevel, g: GraphData, h: GraphData, k: GraphData)
    requires Loadable(g) && GraphVerified(A, g) && (level.O2? ==> FusionAccepted(A, g))
    requires Pipeline(A, Passes(level), |Passes(level)|, g, h) && IsReloaded(h, k)
    ensures Loadable(k) && GraphVerified(A, k) && SameInterface(g, k) && SameOperations(h.operations, k.operations)
    ensures LevelFaithful(A, level, g) ==> KeepsMeaning(A, g, k)
  {
    assert Ordered(g);
    hide Loadable, Receivable, GraphVerified, Pipeline, IsReloaded, LevelFaithful, KeepsMeaning, FusionAccepted;
    LevelsAccepted(A, level, g);
    OptimisedIsReceivable(A, level, g, h);
    LevelKeepsMeaning(A, level, g, h);
    ReloadedIsLoadable(A, h, k);
    if LevelFaithful(A, level, g) {
      MeaningKeptTwice(A, g, h, k);
    }
  }
}
