/** What each pass does, and what sequences of passes keep (cpp/src/passes/pass_manager.cpp). */
module PassPipeline {
  import opened Basics
  import opened GraphIR
  import opened Kahn
  import opened OperationOrder
  import opened Sequential
  import opened Tensors
  import opened Evaluator
  import opened SemanticVerifier
  import opened GraphInvariants
  import opened KernelSoundness
  import opened RewriteUtils
  import opened PassFramework
  import opened Erasure
  import opened CopyElimination
  import opened Canonicalisation
  import opened ConstantFolding
  import opened ReshapeElimination
  import TransposeElimination
  import opened DeadCodeElimination
  import opened Fusion
  import opened FusionSoundness
  import FusionTwice
  import PassesTwice

  datatype Pass =
    | GraphVerifier | CanonicalisationPass | ConstantFoldingPass
    | ReshapeEliminationPass | TransposeEliminationPass | FuseBiasGeluPass | DeadCodeEliminationPass

  // ----- what each pass does -----

  /** `after` is what the pass makes of `g`. */
  ghost predicate Transforms(A: Arith, pass: Pass, g: GraphData, after: GraphData) {
    match pass
    case GraphVerifier => after == g
    case CanonicalisationPass =>
      after == Rewired(g, after.operations)
      && IsStableOrder(CanonicalOperations(Descriptors(g.values), g.operations), after.operations)
    case ConstantFoldingPass => after == FoldSweep(A, g, |g.operations|)
    case ReshapeEliminationPass =>
      HasOperands(g.operations, RedundantReshapes(g)) && after == WithoutCopies(g, RedundantReshapes(g))
    case TransposeEliminationPass =>
      HasOperands(g.operations, TransposeElimination.RedundantTransposes(g))
      && after == WithoutCopies(g, TransposeElimination.RedundantTransposes(g))
    case FuseBiasGeluPass => after == Fuse(g)
    case DeadCodeEliminationPass => exists live :: IsLiveSet(g, live) && after == WithoutDeadCode(g, live)
  }

  ghost function WithoutDeadCode(g: GraphData, live: set<Id>): GraphData {
    Erased(g, DeadOperations(g.operations, live), DeadValues(g.values, live))
  }

  /**
   What keeping the meaning takes of the arithmetic and of the graph the pass is given: the literals of
   the operations that fold are right; addition commutes and no chain that is fused starts at an
   activated projection. The other passes ask for nothing.
   */
  ghost predicate Faithful(A: Arith, pass: Pass, g: GraphData) {
    && (pass.ConstantFoldingPass? ==> SoundFolds(A, g, |g.operations|))
    && (pass.FuseBiasGeluPass? ==> PlainBases(g) && (HasMatch(g, |g.operations|) ==> Commutative(A.add)))
  }

  /** No two-operand projection asks for an activation. */
  ghost predicate PlainGraph(g: GraphData) {
    forall op <- g.operations :: Plain(op)
  }

  /** Subject reduction: a pass keeps the verifier's judgement, except that fusion trips over narrow chains. */
  lemma PassKeepsVerified(A: Arith, pass: Pass, g: GraphData, h: GraphData)
    requires Ordered(g) && GraphVerified(A, g) && Transforms(A, pass, g, h)
    ensures Ordered(h) && SameInterface(g, h)
    ensures GraphVerified(A, h) <==> (pass.FuseBiasGeluPass? ==> NoNarrowChain(g))
  {
    match pass {
      case GraphVerifier =>
      case CanonicalisationPass => CanonicalisationKeeps(A, g, h.operations);
      case ConstantFoldingPass => FoldSweepKeeps(A, g, |g.operations|);
      case ReshapeEliminationPass => ReshapeEliminationKeeps(A, g);
      case TransposeEliminationPass => TransposeElimination.TransposeEliminationKeeps(A, g);
      case FuseBiasGeluPass => FusionVerified(A, g);
      case DeadCodeEliminationPass =>
        var live :| IsLiveSet(g, live) && h == WithoutDeadCode(g, live);
        DeadCodeKeeps(A, g, live);
    }
  }

  /** Meaning: every solution of the graph solves what the pass makes of it. */
  lemma PassKeepsMeaning(A: Arith, pass: Pass, g: GraphData, h: GraphData)
    requires Ordered(g) && GraphVerified(A, g) && Transforms(A, pass, g, h) && Faithful(A, pass, g)
    ensures KeepsMeaning(A, g, h)
  {
    match pass {
      case GraphVerifier =>
      case CanonicalisationPass => CanonicalisationKeeps(A, g, h.operations);
      case ConstantFoldingPass => SoundSweepKeepsMeaning(A, g, |g.operations|);
      case ReshapeEliminationPass => ReshapeEliminationKeeps(A, g);
      case TransposeEliminationPass => TransposeElimination.TransposeEliminationKeeps(A, g);
      case FuseBiasGeluPass =>
        if HasMatch(g, |g.operations|) {
          FusionKeepsMeaning(A, g);
        } else {
          NoMatchNoChange(g);
        }
      case DeadCodeEliminationPass =>
        var live :| IsLiveSet(g, live) && h == WithoutDeadCode(g, live);
        DeadCodeKeeps(A, g, live);
    }
  }

  /** Each pass, run on what it made of a verified graph, changes nothing. */
  lemma PassTwice(A: Arith, pass: Pass, g: GraphData, h: GraphData, k: GraphData)
    requires Ordered(g) && GraphVerified(A, g) && Transforms(A, pass, g, h) && Transforms(A, pass, h, k)
    ensures k == h
  {
    match pass {
      case GraphVerifier =>
      case CanonicalisationPass => PassesTwice.CanonicalisationTwice(A, g, h.operations, k.operations);
      case ConstantFoldingPass => FoldTwice(A, g, |g.operations|);
      case ReshapeEliminationPass => PassesTwice.ReshapesTwice(A, g);
      case TransposeEliminationPass => PassesTwice.TransposesTwice(g);
      case FuseBiasGeluPass => FusionTwice.FuseTwice(g);
      case DeadCodeEliminationPass =>
        var live :| IsLiveSet(g, live) && h == WithoutDeadCode(g, live);
        var again :| IsLiveSet(h, again) && k == WithoutDeadCode(h, again);
        PassesTwice.DeadCodeTwice(g, live, again);
    }
  }

  // ----- no pass activates a projection -----

  /** Where no two-operand projection is activated, no chain starts at one. */
  lemma PlainGraphPlainBases(g: GraphData)
    requires PlainGraph(g)
    ensures PlainBases(g)
  {
    forall i | 0 <= i < |g.operations| && MatchAt(g, i).Some? && MatchAt(g, i).value.base < |g.operations|
      ensures !FusedContract(g.operations[MatchAt(g, i).value.base])
    {
      MatchIsChain(g, i);
      assert g.operations[MatchAt(g, i).value.base] in g.operations;
    }
  }

  lemma ErasedIsPlain(g: GraphData, opIds: set<Id>, valueIds: set<Id>)
    requires PlainGraph(g)
    ensures PlainGraph(Erased(g, opIds, valueIds))
  {
    KeptOperationsAre(g.operations, opIds);
  }

  lemma CanonicalOperationIsPlain(types: Types, op: Operation)
    requires Plain(op)
    ensures Plain(CanonicalOperation(types, op))
  {
    AttributeKept(op.kind, op.attributes, RankOf(types, op), "fused_activation");
  }

  /** Reordering brings in no operation. */
  lemma StableOrderMembers(before: seq<Operation>, after: seq<Operation>, op: Operation)
    requires IsStableOrder(before, after) && op in after
    ensures op in before
  {
  }

  lemma CanonicalIsPlain(g: GraphData, after: seq<Operation>)
    requires PlainGraph(g) && IsStableOrder(CanonicalOperations(Descriptors(g.values), g.operations), after)
    ensures PlainGraph(Rewired(g, after))
  {
    var types, ops := Descriptors(g.values), CanonicalOperations(Descriptors(g.values), g.operations);
    forall op <- after ensures Plain(op) {
      StableOrderMembers(ops, after, op);
      var k :| 0 <= k < |ops| && ops[k] == op;
      assert g.operations[k] in g.operations;
      CanonicalOperationIsPlain(types, g.operations[k]);
    }
  }

  lemma {:induction false} FoldedIsPlain(A: Arith, g: GraphData, m: nat)
    requires PlainGraph(g) && m <= |g.operations|
    ensures PlainGraph(FoldSweep(A, g, m))
  {
    if m > 0 {
      FoldedIsPlain(A, g, m - 1);
    }
  }

  lemma ReroutedIsPlain(g: GraphData, drop: seq<bool>)
    requires PlainGraph(g) && HasOperands(g.operations, drop)
    ensures PlainGraph(ReroutedGraph(g, drop))
  {
    var r := Rerouted(g.operations, drop, |g.operations|);
    forall op <- r ensures Plain(op) {
      var i :| 0 <= i < |r| && r[i] == op;
      assert g.operations[i] in g.operations;
    }
  }

  lemma FusedIsPlain(g: GraphData)
    requires PlainGraph(g)
    ensures PlainGraph(FusedGraph(g))
  {
    var r := FusedOperations(g, |g.operations|);
    forall op <- r ensures Plain(op) {
      var i :| 0 <= i < |r| && r[i] == op;
      FusedIsNoCandidate(g, |g.operations|, i);
      assert g.operations[i] in g.operations;
    }
  }

  lemma PassKeepsPlain(A: Arith, pass: Pass, g: GraphData, h: GraphData)
    requires PlainGraph(g) && Transforms(A, pass, g, h)
    ensures PlainGraph(h)
  {
    match pass {
      case GraphVerifier =>
      case CanonicalisationPass => CanonicalIsPlain(g, h.operations);
      case ConstantFoldingPass => FoldedIsPlain(A, g, |g.operations|);
      case ReshapeEliminationPass =>
        ReroutedIsPlain(g, RedundantReshapes(g));
        ErasedIsPlain(ReroutedGraph(g, RedundantReshapes(g)), DroppedIds(g.operations, RedundantReshapes(g)),
                      DroppedOutputs(g.operations, RedundantReshapes(g)));
      case TransposeEliminationPass =>
        var drop := TransposeElimination.RedundantTransposes(g);
        ReroutedIsPlain(g, drop);
        ErasedIsPlain(ReroutedGraph(g, drop), DroppedIds(g.operations, drop), DroppedOutputs(g.operations, drop));
      case FuseBiasGeluPass =>
        FusedIsPlain(g);
        ErasedIsPlain(FusedGraph(g), AbsorbedIds(g, |g.operations|), AbsorbedValues(g, |g.operations|));
      case DeadCodeEliminationPass =>
        var live :| IsLiveSet(g, live) && h == WithoutDeadCode(g, live);
        ErasedIsPlain(g, DeadOperations(g.operations, live), DeadValues(g.values, live));
    }
  }

  // ----- conditions on the original graph -----

  /** No projection is one element wide. */
  ghost predicate WideGraph(g: GraphData) {
    && DistinctValueIds(g.values)
    && forall op <- g.operations :: WideProjection(Descriptors(g.values), op)
  }

  predicate WideProjection(types: Types, op: Operation) {
    op.IsProjection() && op.output in types ==>
      var s := types[op.output].shape; s != [] ==> s[|s| - 1] != 1
  }

  lemma WideHasNoNarrowChain(g: GraphData)
    requires WideGraph(g)
    ensures NoNarrowChain(g)
  {
    forall i | 0 <= i < |g.operations| && MatchAt(g, i).Some? ensures !Narrow(g, MatchAt(g, i).value) {
      MatchIsChain(g, i);
      assert g.operations[MatchAt(g, i).value.base] in g.operations;
    }
  }

  lemma ErasedIsWide(g: GraphData, opIds: set<Id>, valueIds: set<Id>)
    requires WideGraph(g)
    ensures WideGraph(Erased(g, opIds, valueIds))
  {
    KeptOperationsAre(g.operations, opIds);
    KeptValuesDistinct(g.values, valueIds);
    KeptDescriptors(g.values, valueIds);
  }

  lemma CanonicalIsWide(g: GraphData, after: seq<Operation>)
    requires WideGraph(g) && IsStableOrder(CanonicalOperations(Descriptors(g.values), g.operations), after)
    ensures WideGraph(Rewired(g, after))
  {
    hide CanonicalAttributes, Descriptors, IsStableOrder;
    var types, ops := Descriptors(g.values), CanonicalOperations(Descriptors(g.values), g.operations);
    forall op <- after ensures WideProjection(types, op) {
      StableOrderMembers(ops, after, op);
      var k :| 0 <= k < |ops| && ops[k] == op;
      assert g.operations[k] in g.operations;
    }
  }

  lemma {:induction false} FoldedIsWide(A: Arith, g: GraphData, m: nat)
    requires WideGraph(g) && m <= |g.operations|
    ensures WideGraph(FoldSweep(A, g, m))
  {
    if m > 0 {
      FoldedIsWide(A, g, m - 1);
      FoldStepIsWide(A, FoldSweep(A, g, m - 1), m - 1);
    }
  }

  lemma FoldStepIsWide(A: Arith, g: GraphData, i: nat)
    requires WideGraph(g) && i < |g.operations|
    ensures WideGraph(FoldStep(A, g, i))
  {
    FoldedTypes(g, g.operations[i].output);
    var types, h := Descriptors(g.values), FoldStep(A, g, i);
    forall op <- h.operations ensures WideProjection(types, op) {
      var k :| 0 <= k < |h.operations| && h.operations[k] == op;
      assert g.operations[k] in g.operations;
    }
  }

  lemma ReroutedIsWide(g: GraphData, drop: seq<bool>)
    requires WideGraph(g) && HasOperands(g.operations, drop)
    ensures WideGraph(ReroutedGraph(g, drop))
  {
    var r := Rerouted(g.operations, drop, |g.operations|);
    forall op <- r ensures WideProjection(Descriptors(g.values), op) {
      var i :| 0 <= i < |r| && r[i] == op;
      assert g.operations[i] in g.operations;
    }
  }

  lemma PassKeepsWide(A: Arith, pass: Pass, g: GraphData, h: GraphData)
    requires WideGraph(g) && Transforms(A, pass, g, h) && !pass.FuseBiasGeluPass?
    ensures WideGraph(h)
  {
    hide WideGraph, IsStableOrder, IsLiveSet, FoldSweep;
    match pass {
      case GraphVerifier =>
      case CanonicalisationPass => CanonicalIsWide(g, h.operations);
      case ConstantFoldingPass => FoldedIsWide(A, g, |g.operations|);
      case ReshapeEliminationPass =>
        ReroutedIsWide(g, RedundantReshapes(g));
        ErasedIsWide(ReroutedGraph(g, RedundantReshapes(g)), DroppedIds(g.operations, RedundantReshapes(g)),
                     DroppedOutputs(g.operations, RedundantReshapes(g)));
      case TransposeEliminationPass =>
        var drop := TransposeElimination.RedundantTransposes(g);
        ReroutedIsWide(g, drop);
        ErasedIsWide(ReroutedGraph(g, drop), DroppedIds(g.operations, drop), DroppedOutputs(g.operations, drop));
      case DeadCodeEliminationPass =>
        var live :| IsLiveSet(g, live) && h == WithoutDeadCode(g, live);
        ErasedIsWide(g, DeadOperations(g.operations, live), DeadValues(g.values, live));
    }
  }

  /** No operation that could fold yields a scalar. */
  ghost predicate NoScalarArithmetic(g: GraphData) {
    forall op <- g.operations :: NoScalarResult(Descriptors(g.values), op)
  }

  predicate NoScalarResult(types: Types, op: Operation) {
    FoldableKind(op.kind) && op.output in types ==> types[op.output].shape != []
  }

  /** There nothing folds, so nothing is asked of the arithmetic. */
  lemma {:induction false} NothingToFold(A: Arith, g: GraphData, m: nat)
    requires NoScalarArithmetic(g) && m <= |g.operations|
    ensures FoldSweep(A, g, m) == g && SoundFolds(A, g, m)
  {
    if m > 0 {
      NothingToFold(A, g, m - 1);
      assert g.operations[m - 1] in g.operations;
    }
  }

  lemma CanonicalHasNoScalars(A: Arith, g: GraphData, h: GraphData)
    requires NoScalarArithmetic(g) && Transforms(A, CanonicalisationPass, g, h)
    ensures NoScalarArithmetic(h)
  {
    hide CanonicalAttributes, Descriptors, IsStableOrder;
    var types, ops := Descriptors(g.values), CanonicalOperations(Descriptors(g.values), g.operations);
    forall op <- h.operations ensures NoScalarResult(types, op) {
      StableOrderMembers(ops, h.operations, op);
      var k :| 0 <= k < |ops| && ops[k] == op;
      assert g.operations[k] in g.operations;
    }
  }

  // ----- sequences of passes -----

  /** `h` is what the first n passes make of `g`. */
  ghost predicate Pipeline(A: Arith, passes: seq<Pass>, n: nat, g: GraphData, h: GraphData)
    requires n <= |passes|
    decreases n, 1
  {
    if n == 0 then h == g else exists k :: PipelineStep(A, passes, n, g, k, h)
  }

  /** ... with `k` what the passes before the last of them make. */
  ghost predicate PipelineStep(A: Arith, passes: seq<Pass>, n: nat, g: GraphData, k: GraphData, h: GraphData)
    requires 0 < n <= |passes|
    decreases n, 0
  {
    Pipeline(A, passes, n - 1, g, k) && Transforms(A, passes[n - 1], k, h)
  }

  lemma Predecessor(A: Arith, passes: seq<Pass>, n: nat, g: GraphData, h: GraphData) returns (k: GraphData)
    requires 0 < n <= |passes| && Pipeline(A, passes, n, g, h)
    ensures Pipeline(A, passes, n - 1, g, k) && Transforms(A, passes[n - 1], k, h)
  {
    k :| PipelineStep(A, passes, n, g, k, h);
  }

  /** What reaches the i-th pass, when that is the fusion, has no narrow chain. */
  ghost predicate Accepted(A: Arith, passes: seq<Pass>, i: nat, g: GraphData, k: GraphData)
    requires i < |passes|
  {
    passes[i].FuseBiasGeluPass? && Pipeline(A, passes, i, g, k) ==> NoNarrowChain(k)
  }

  /** The fusion pass, wherever it stands, meets no narrow chain. */
  ghost predicate NeverNarrow(A: Arith, passes: seq<Pass>, n: nat, g: GraphData)
    requires n <= |passes|
  {
    forall i: nat, k | i < n :: Accepted(A, passes, i, g, k)
  }

  /** A pass makes one thing of a graph. */
  lemma TransformsDeterministic(A: Arith, pass: Pass, g: GraphData, h: GraphData, k: GraphData)
    requires Transforms(A, pass, g, h) && Transforms(A, pass, g, k)
    ensures h == k
  {
    if pass.CanonicalisationPass? {
      var ops := CanonicalOperations(Descriptors(g.values), g.operations);
      var s :| LeastLinearExtension(Ids(ops), OrderEdges(ops, true), s)
        && |s| == |ops| && (forall k | 0 <= k < |s| :: s[k] < |ops|) && h.operations == Reordered(ops, s);
      var t :| LeastLinearExtension(Ids(ops), OrderEdges(ops, true), t)
        && |t| == |ops| && (forall k | 0 <= k < |t| :: t[k] < |ops|) && k.operations == Reordered(ops, t);
      LeastIsUnique(Ids(ops), OrderEdges(ops, true), s, t);
    }
    if pass.DeadCodeEliminationPass? {
      var live :| IsLiveSet(g, live) && h == WithoutDeadCode(g, live);
      var other :| IsLiveSet(g, other) && k == WithoutDeadCode(g, other);
      assert live == other;
    }
  }

  lemma {:induction false} PipelineDeterministic(A: Arith, passes: seq<Pass>, n: nat, g: GraphData,
                                                 h: GraphData, k: GraphData)
    requires n <= |passes| && Pipeline(A, passes, n, g, h) && Pipeline(A, passes, n, g, k)
    ensures h == k
  {
    hide Transforms;
    if n > 0 {
      var x := Predecessor(A, passes, n, g, h);
      var y := Predecessor(A, passes, n, g, k);
      PipelineDeterministic(A, passes, n - 1, g, x, y);
      TransformsDeterministic(A, passes[n - 1], x, h, k);
    }
  }

  /** Plainness survives any number of passes. */
  lemma {:induction false} PipelineKeepsPlain(A: Arith, passes: seq<Pass>, n: nat, g: GraphData, h: GraphData)
    requires n <= |passes| && PlainGraph(g)
    ensures Pipeline(A, passes, n, g, h) ==> PlainGraph(h)
  {
    hide Transforms, PlainGraph;
    if n > 0 && Pipeline(A, passes, n, g, h) {
      var k := Predecessor(A, passes, n, g, h);
      PipelineKeepsPlain(A, passes, n - 1, g, k);
      PlainThrough(A, passes[n - 1], k, h);
    }
  }

  lemma PlainThrough(A: Arith, pass: Pass, g: GraphData, h: GraphData)
    ensures PlainGraph(g) && Transforms(A, pass, g, h) ==> PlainGraph(h)
  {
    if PlainGraph(g) && Transforms(A, pass, g, h) {
      PassKeepsPlain(A, pass, g, h);
    }
  }

  /** Wideness survives passes other than the fusion. */
  lemma {:induction false} PipelineKeepsWide(A: Arith, passes: seq<Pass>, n: nat, g: GraphData, h: GraphData)
    requires n <= |passes| && WideGraph(g) && forall i | 0 <= i < n :: !passes[i].FuseBiasGeluPass?
    ensures Pipeline(A, passes, n, g, h) ==> WideGraph(h)
  {
    hide Transforms, WideGraph;
    if n > 0 && Pipeline(A, passes, n, g, h) {
      var k := Predecessor(A, passes, n, g, h);
      PipelineKeepsWide(A, passes, n - 1, g, k);
      WideThrough(A, passes[n - 1], k, h);
    }
  }

  lemma WideThrough(A: Arith, pass: Pass, g: GraphData, h: GraphData)
    ensures WideGraph(g) && Transforms(A, pass, g, h) && !pass.FuseBiasGeluPass? ==> WideGraph(h)
  {
    if WideGraph(g) && Transforms(A, pass, g, h) && !pass.FuseBiasGeluPass? {
      PassKeepsWide(A, pass, g, h);
    }
  }

  /** Each pass is faithful to what reaches it. */
  ghost predicate AllFaithful(A: Arith, passes: seq<Pass>, n: nat, g: GraphData)
    requires n <= |passes|
  {
    forall i: nat, k | i < n :: FaithfulAt(A, passes, i, g, k)
  }

  ghost predicate FaithfulAt(A: Arith, passes: seq<Pass>, i: nat, g: GraphData, k: GraphData)
    requires i < |passes|
  {
    Pipeline(A, passes, i, g, k) ==> Faithful(A, passes[i], k)
  }

  /** A graph without activated two-operand projections asks for nothing at the fusion but commutativity. */
  lemma PlainIsFaithful(A: Arith, passes: seq<Pass>, i: nat, g: GraphData, k: GraphData)
    requires i < |passes| && passes[i].FuseBiasGeluPass? && PlainGraph(g) && Commutative(A.add)
    ensures FaithfulAt(A, passes, i, g, k)
  {
    PipelineKeepsPlain(A, passes, i, g, k);
    if PlainGraph(k) {
      PlainGraphPlainBases(k);
    }
  }

  /** A pipeline that passed every verification keeps order and, if every pass is faithful, meaning. */
  lemma {:induction false} PipelineKeeps(A: Arith, passes: seq<Pass>, n: nat, g: GraphData, h: GraphData)
    requires n <= |passes| && NeverNarrow(A, passes, n, g) && Ordered(g) && GraphVerified(A, g)
    ensures Pipeline(A, passes, n, g, h) ==> Ordered(h) && GraphVerified(A, h) && SameInterface(g, h)
    ensures Pipeline(A, passes, n, g, h) && AllFaithful(A, passes, n, g) ==> KeepsMeaning(A, g, h)
  {
    hide Transforms, GraphVerified, Ordered, Faithful, NoNarrowChain;
    if n > 0 && Pipeline(A, passes, n, g, h) {
      hide KeepsMeaning;
      var k := Predecessor(A, passes, n, g, h);
      PipelineKeeps(A, passes, n - 1, g, k);
      assert Accepted(A, passes, n - 1, g, k);
      OnePassKeeps(A, passes[n - 1], g, k, h);
      if AllFaithful(A, passes, n, g) {
        assert FaithfulAt(A, passes, n - 1, g, k);
      }
    }
  }

  /** One pass more. */
  lemma OnePassKeeps(A: Arith, pass: Pass, g: GraphData, k: GraphData, h: GraphData)
    ensures Ordered(k) && GraphVerified(A, k) && SameInterface(g, k) && Transforms(A, pass, k, h) ==>
      (pass.FuseBiasGeluPass? ==> NoNarrowChain(k)) ==>
        Ordered(h) && GraphVerified(A, h) && SameInterface(g, h)
    ensures Ordered(k) && GraphVerified(A, k) && KeepsMeaning(A, g, k) && Transforms(A, pass, k, h) ==>
      Faithful(A, pass, k) ==> KeepsMeaning(A, g, h)
  {
    if Ordered(k) && GraphVerified(A, k) && Transforms(A, pass, k, h) {
      PassKeepsVerified(A, pass, k, h);
      if Faithful(A, pass, k) && KeepsMeaning(A, g, k) {
        PassKeepsMeaning(A, pass, k, h);
        MeaningKeptTwice(A, g, k, h);
      }
    }
  }
}
