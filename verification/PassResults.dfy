/** What each pass establishes, what later passes keep of it, and when a pass has nothing to do. */
module PassResults {
  import opened Basics
  import opened GraphIR
  import opened OperationOrder
  import opened Tensors
  import opened Evaluator
  import opened SemanticVerifier
  import opened GraphInvariants
  import opened RewriteUtils
  import opened PassFramework
  import opened Erasure
  import opened CopyElimination
  import opened Canonicalisation
  import opened ConstantFolding
  import opened FoldingSoundness
  import opened ReshapeElimination
  import TransposeElimination
  import opened DeadCodeElimination
  import opened Fusion
  import opened FusionSoundness
  import opened FusionChains
  import opened PassPipeline
  import PassesTwice

  // ----- what a pass looks for -----

  /** Defaults are written out, axes are not negative, false markers are gone. */
  predicate IsCanonical(op: Operation) {
    && (op.kind.Softmax? || op.kind.RmsNorm? ==>
          "axis" in op.attributes && op.attributes["axis"].JInt? ==> op.attributes["axis"].integer >= 0)
    && (op.kind.Gelu? ==> "approximate" in op.attributes)
    && (op.kind.Softmax? ==> "stable" in op.attributes)
    && (op.kind.CausalMask? ==> "diagonal" in op.attributes)
    && ("side_effect" in op.attributes ==> op.attributes["side_effect"] != JBool(false))
  }

  ghost predicate AllCanonical(g: GraphData) {
    forall op <- g.operations :: IsCanonical(op)
  }

  ghost predicate NothingFolds(A: Arith, g: GraphData) {
    forall op <- g.operations :: !Folds(A, g, op)
  }

  /** A reshape to the shape its operand has, without side effect and not declared. */
  ghost predicate IsSameShape(g: GraphData, op: Operation) {
    && op.kind.Reshape? && !op.HasSideEffect() && op.output !in g.outputIds && op.inputs != []
    && exists v <- g.values, w <- g.values ::
         v.id == op.inputs[0] && w.id == op.output && v.descriptor.shape == w.descriptor.shape
  }

  /** A transpose by 0, 1, 2, ..., without side effect and not declared. */
  ghost predicate IsSamePlace(g: GraphData, op: Operation) {
    && op.kind.Transpose? && !op.HasSideEffect() && op.output !in g.outputIds && op.inputs != []
    && exists p :: IntegerArrayOf(op.attributes, "permutation") == Some(p) && forall k | 0 <= k < |p| :: p[k] == k
  }

  ghost predicate NoSameShape(g: GraphData) {
    forall op <- g.operations :: !IsSameShape(g, op)
  }

  ghost predicate NoSamePlace(g: GraphData) {
    forall op <- g.operations :: !IsSamePlace(g, op)
  }

  ghost function ValueIds(g: GraphData): set<Id> {
    set v <- g.values :: v.id
  }

  /** The values of the graph are its live set. */
  ghost predicate AllLive(g: GraphData) {
    IsLiveSet(g, ValueIds(g)) && forall op <- g.operations :: op.output in ValueIds(g)
  }

  /** The pass has nothing to do. */
  ghost predicate Settled(A: Arith, pass: Pass, g: GraphData) {
    match pass
    case GraphVerifier => true
    case CanonicalisationPass => AllCanonical(g) && IsStableOrder(g.operations, g.operations)
    case ConstantFoldingPass => NothingFolds(A, g)
    case ReshapeEliminationPass => NoSameShape(g)
    case TransposeEliminationPass => NoSamePlace(g)
    case FuseBiasGeluPass => !HasChain(g)
    case DeadCodeEliminationPass => AllLive(g)
  }

  // ----- spelled as the passes spell it -----

  lemma EditableSpelled(A: Arith, types: Types, op: Operation)
    requires Resolved(types, op) && OperationOk(A, types, op)
    ensures Editable(types, op) <==> !IsCanonical(op)
    ensures IsCanonical(CanonicalOperation(types, op))
  {
    if op.kind.Softmax? || op.kind.RmsNorm? {
      AxisCanonical(op.kind, op.attributes, |InputShape(types, op, 0)|);
    }
  }

  lemma SameShapeSpelled(g: GraphData, op: Operation)
    requires DistinctValueIds(g.values)
    ensures RedundantReshape(g, op) <==> IsSameShape(g, op)
  {
    var types := Descriptors(g.values);
    if RedundantReshape(g, op) {
      var j := ValueOf(g.values, op.inputs[0]);
      var k := ValueOf(g.values, op.output);
      assert g.values[j] in g.values && g.values[k] in g.values;
    }
    if IsSameShape(g, op) {
      var v, w :| v in g.values && w in g.values
        && v.id == op.inputs[0] && w.id == op.output && v.descriptor.shape == w.descriptor.shape;
      var j :| 0 <= j < |g.values| && g.values[j] == v;
      var k :| 0 <= k < |g.values| && g.values[k] == w;
      DescriptorsAt(g.values, j);
      DescriptorsAt(g.values, k);
    }
  }

  lemma SamePlaceSpelled(g: GraphData, op: Operation)
    ensures TransposeElimination.RedundantTranspose(g, op) <==> IsSamePlace(g, op)
  {
    if TransposeElimination.RedundantTranspose(g, op) {
      var p := TransposeElimination.IdentityItems(op.attributes);
    }
    if IsSamePlace(g, op) {
      var p :| IntegerArrayOf(op.attributes, "permutation") == Some(p) && forall k | 0 <= k < |p| :: p[k] == k;
      IntegersListed(op.attributes["permutation"].items, p);
    }
  }

  lemma {:induction false} IntegersListed(items: seq<Json>, p: seq<int>)
    requires IntegersOf(items) == Some(p)
    ensures |p| == |items| && forall k | 0 <= k < |p| :: items[k] == JInt(p[k])
  {
    if items != [] {
      IntegersListed(items[1..], p[1..]);
    }
  }

  // ----- what each pass establishes -----

  lemma CanonicalisationEstablishes(A: Arith, g: GraphData, after: seq<Operation>)
    requires WellFormedGraph(g) && GraphVerified(A, g)
    requires IsStableOrder(CanonicalOperations(Descriptors(g.values), g.operations), after)
    ensures AllCanonical(Rewired(g, after))
  {
    hide IsCanonical, CanonicalAttributes, IsStableOrder;
    var types, ops := Descriptors(g.values), CanonicalOperations(Descriptors(g.values), g.operations);
    forall op <- after ensures IsCanonical(op) {
      StableOrderMembers(ops, after, op);
      var k :| 0 <= k < |ops| && ops[k] == op;
      assert Resolved(types, g.operations[k]) && OperationOk(A, types, g.operations[k]);
      EditableSpelled(A, types, g.operations[k]);
    }
  }

  lemma FoldingEstablishes(A: Arith, g: GraphData)
    requires Ordered(g)
    ensures NothingFolds(A, FoldSweep(A, g, |g.operations|))
  {
    var h := FoldSweep(A, g, |g.operations|);
    FoldSweepKeeps(A, g, |g.operations|);
    forall op <- h.operations ensures !Folds(A, h, op) {
      var i: nat :| i < |h.operations| && h.operations[i] == op;
      SweepFoldsEverything(A, g, |g.operations|, i);
      FoldsExactly(A, h, op);
    }
  }

  lemma ReshapesEstablish(A: Arith, g: GraphData)
    requires Ordered(g) && GraphVerified(A, g) && HasOperands(g.operations, RedundantReshapes(g))
    ensures NoSameShape(WithoutCopies(g, RedundantReshapes(g)))
  {
    var h := WithoutCopies(g, RedundantReshapes(g));
    ReshapeEliminationKeeps(A, g);
    forall op <- h.operations ensures !IsSameShape(h, op) {
      PassesTwice.NoReshapeLeft(A, g, op);
      SameShapeSpelled(h, op);
    }
  }

  lemma TransposesEstablish(g: GraphData)
    requires Ordered(g) && HasOperands(g.operations, TransposeElimination.RedundantTransposes(g))
    ensures NoSamePlace(WithoutCopies(g, TransposeElimination.RedundantTransposes(g)))
  {
    var h := WithoutCopies(g, TransposeElimination.RedundantTransposes(g));
    forall op <- h.operations ensures !IsSamePlace(h, op) {
      PassesTwice.NoTransposeLeft(g, op);
      SamePlaceSpelled(h, op);
    }
  }

  /** The values of a well-formed graph hold the roots and everything used. */
  lemma ValuesAreClosed(g: GraphData)
    requires WellFormedGraph(g)
    ensures (forall id | IsRoot(g, id) :: id in ValueIds(g)) && BackwardClosed(g.operations, ValueIds(g))
    ensures forall op <- g.operations :: op.output in ValueIds(g)
  {
    var types := Descriptors(g.values);
    forall op <- g.operations
      ensures op.output in ValueIds(g) && forall k | 0 <= k < |op.inputs| :: op.inputs[k] in ValueIds(g)
    {
      var i :| 0 <= i < |g.operations| && g.operations[i] == op;
      assert Resolved(types, g.operations[i]);
      forall id | id in types ensures id in ValueIds(g) {
        var k := ValueOf(g.values, id);
        assert g.values[k] in g.values;
      }
    }
    forall id | id in g.inputIds || id in g.outputIds ensures id in ValueIds(g) {
      assert Named(g.values, id, InputValue) || Named(g.values, id, OutputValue);
      var k :| 0 <= k < |g.values| && g.values[k].id == id;
      assert g.values[k] in g.values;
    }
  }

  /** If a live set holds all values, they are the live set. */
  lemma LiveValues(g: GraphData, live: set<Id>)
    requires WellFormedGraph(g) && IsLiveSet(g, live) && ValueIds(g) <= live
    ensures AllLive(g)
  {
    ValuesAreClosed(g);
    assert live <= ValueIds(g);
  }

  lemma DeadCodeEstablishes(g: GraphData, live: set<Id>)
    requires Ordered(g) && IsLiveSet(g, live) && WellFormedGraph(WithoutDeadCode(g, live))
    ensures AllLive(WithoutDeadCode(g, live))
  {
    var h := WithoutDeadCode(g, live);
    ValuesAreClosed(h);
    KeptValuesAre(g.values, DeadValues(g.values, live));
    assert ValueIds(h) <= live;
    forall other: set<Id> | (forall id | IsRoot(h, id) :: id in other) && BackwardClosed(h.operations, other)
      ensures ValueIds(h) <= other
    {
      NeededHere(g, live, other);
    }
  }

  /** Whatever is closed in the graph without dead code holds the live set of the graph. */
  lemma NeededHere(g: GraphData, live: set<Id>, other: set<Id>)
    requires Ordered(g) && IsLiveSet(g, live)
    requires var h := WithoutDeadCode(g, live);
      (forall id | IsRoot(h, id) :: id in other) && BackwardClosed(h.operations, other)
    ensures live <= other
  {
    var h, both := WithoutDeadCode(g, live), live * other;
    KeptOperationsAre(g.operations, DeadOperations(g.operations, live));
    forall id | IsRoot(g, id) ensures id in both {
      PassesTwice.StillRoot(g, live, id);
    }
    forall op <- g.operations | op.output in both ensures forall k | 0 <= k < |op.inputs| :: op.inputs[k] in both {
      SameOperation(g.operations, op);
      assert op in h.operations;
    }
    assert BackwardClosed(g.operations, both);
  }

  // ----- what later passes keep of it -----

  lemma ErasedKeepsCanonical(g: GraphData, opIds: set<Id>, valueIds: set<Id>)
    requires AllCanonical(g)
    ensures AllCanonical(Erased(g, opIds, valueIds))
  {
    KeptOperationsAre(g.operations, opIds);
  }

  lemma {:induction false} FoldingKeepsCanonical(A: Arith, g: GraphData, m: nat)
    requires AllCanonical(g) && m <= |g.operations|
    ensures AllCanonical(FoldSweep(A, g, m))
  {
    hide Folded;
    if m > 0 {
      FoldingKeepsCanonical(A, g, m - 1);
      var h := FoldSweep(A, g, m);
      forall op <- h.operations ensures IsCanonical(op) {
        var k :| 0 <= k < |h.operations| && h.operations[k] == op;
        assert FoldSweep(A, g, m - 1).operations[k] in FoldSweep(A, g, m - 1).operations;
      }
    }
  }

  lemma CopiesKeepCanonical(g: GraphData, drop: seq<bool>)
    requires AllCanonical(g) && HasOperands(g.operations, drop)
    ensures AllCanonical(WithoutCopies(g, drop))
  {
    var r := Rerouted(g.operations, drop, |g.operations|);
    forall op <- r ensures IsCanonical(op) {
      var i :| 0 <= i < |r| && r[i] == op;
      assert g.operations[i] in g.operations;
    }
    ErasedKeepsCanonical(ReroutedGraph(g, drop), DroppedIds(g.operations, drop), DroppedOutputs(g.operations, drop));
  }

  lemma FusionKeepsCanonical(g: GraphData)
    requires AllCanonical(g)
    ensures AllCanonical(Fuse(g))
  {
    hide MatchAt;
    var r := FusedOperations(g, |g.operations|);
    forall op <- r ensures IsCanonical(op) {
      var i :| 0 <= i < |r| && r[i] == op;
      assert g.operations[i] in g.operations;
      if MatchAt(g, i).Some? {
        MatchIsChain(g, i);
        assert g.operations[MatchAt(g, i).value.base] in g.operations;
      }
    }
    ErasedKeepsCanonical(FusedGraph(g), AbsorbedIds(g, |g.operations|), AbsorbedValues(g, |g.operations|));
  }

  /** Canonical attributes stay canonical. */
  lemma PassKeepsCanonical(A: Arith, pass: Pass, g: GraphData, h: GraphData)
    requires AllCanonical(g) && Transforms(A, pass, g, h) && !pass.CanonicalisationPass?
    ensures AllCanonical(h)
  {
    hide AllCanonical, IsLiveSet, FoldSweep;
    match pass {
      case GraphVerifier =>
      case ConstantFoldingPass => FoldingKeepsCanonical(A, g, |g.operations|);
      case ReshapeEliminationPass => CopiesKeepCanonical(g, RedundantReshapes(g));
      case TransposeEliminationPass => CopiesKeepCanonical(g, TransposeElimination.RedundantTransposes(g));
      case FuseBiasGeluPass => FusionKeepsCanonical(g);
      case DeadCodeEliminationPass =>
        var live :| IsLiveSet(g, live) && h == WithoutDeadCode(g, live);
        ErasedKeepsCanonical(g, DeadOperations(g.operations, live), DeadValues(g.values, live));
    }
  }

  lemma FoldsBefore(A: Arith, g: GraphData, opIds: set<Id>, valueIds: set<Id>, op: Operation)
    requires DistinctValueIds(g.values)
    ensures Folds(A, Erased(g, opIds, valueIds), op) ==> Folds(A, g, op)
  {
    var h := Erased(g, opIds, valueIds);
    KeptOperationsAre(g.operations, opIds);
    KeptDescriptors(g.values, valueIds);
    hide LiteralsFold, Descriptors, KeptOperations, KeptValues;
    if Folds(A, h, op) {
      var xs :| HaveLiterals(h.operations, op.inputs, xs) && LiteralsFold(A, op.kind, xs);
      LiteralsAmong(h.operations, g.operations, op.inputs, xs);
    }
  }

  /** Erasing operations makes none of the others fold. */
  lemma ErasedFoldsNothing(A: Arith, g: GraphData, opIds: set<Id>, valueIds: set<Id>)
    requires DistinctValueIds(g.values) && NothingFolds(A, g)
    ensures NothingFolds(A, Erased(g, opIds, valueIds))
  {
    var h := Erased(g, opIds, valueIds);
    KeptOperationsAre(g.operations, opIds);
    hide Folds;
    forall op <- h.operations ensures !Folds(A, h, op) {
      FoldsBefore(A, g, opIds, valueIds, op);
      assert op in g.operations;
    }
  }

  lemma LiteralsAmong(few: seq<Operation>, all: seq<Operation>, ids: seq<Id>, xs: seq<Json>)
    requires HaveLiterals(few, ids, xs) && forall op <- few :: op in all
    ensures HaveLiterals(all, ids, xs)
  {
    forall k | 0 <= k < |ids| ensures HasLiteral(all, ids[k], xs[k]) {
      assert HasLiteral(few, ids[k], xs[k]);
    }
  }

  lemma ErasedKeepsCopies(g: GraphData, opIds: set<Id>, valueIds: set<Id>)
    requires NoSameShape(g) && NoSamePlace(g)
    ensures NoSameShape(Erased(g, opIds, valueIds)) && NoSamePlace(Erased(g, opIds, valueIds))
  {
    var h := Erased(g, opIds, valueIds);
    KeptOperationsAre(g.operations, opIds);
    KeptValuesAre(g.values, valueIds);
    forall op <- h.operations ensures !IsSameShape(h, op) && !IsSamePlace(h, op) {
      assert op in g.operations && !IsSameShape(g, op) && !IsSamePlace(g, op);
    }
  }

  lemma FusionKeepsCopies(g: GraphData)
    requires NoSameShape(g) && NoSamePlace(g)
    ensures NoSameShape(Fuse(g)) && NoSamePlace(Fuse(g))
  {
    var f := FusedGraph(g);
    forall op <- f.operations ensures !IsSameShape(f, op) && !IsSamePlace(f, op) {
      var i :| 0 <= i < |f.operations| && f.operations[i] == op;
      FusedIsNoCandidate(g, |g.operations|, i);
      assert g.operations[i] in g.operations && !IsSameShape(g, g.operations[i]) && !IsSamePlace(g, g.operations[i]);
    }
    ErasedKeepsCopies(f, AbsorbedIds(g, |g.operations|), AbsorbedValues(g, |g.operations|));
  }

  /** A transpose that copies has the shape of its operand, so dropping it makes no reshape a copy. */
  lemma TransposesKeepReshapes(A: Arith, g: GraphData)
    requires Ordered(g) && GraphVerified(A, g) && NoSameShape(g)
    requires HasOperands(g.operations, TransposeElimination.RedundantTransposes(g))
    ensures NoSameShape(WithoutCopies(g, TransposeElimination.RedundantTransposes(g)))
  {
    var drop := TransposeElimination.RedundantTransposes(g);
    var h := WithoutCopies(g, drop);
    TransposeElimination.TransposesAreDroppable(A, g);
    TransposeElimination.TransposeEliminationKeeps(A, g);
    forall op <- h.operations ensures !IsSameShape(h, op) {
      var i := PassesTwice.KeptIsRerouted(g, drop, op);
      ReroutedResolved(g, drop, i);
      KeptDescriptors(g.values, DroppedOutputs(g.operations, drop));
      SameShapeSpelled(h, op);
      SameShapeSpelled(g, g.operations[i]);
      assert g.operations[i] in g.operations && !IsSameShape(g, g.operations[i]);
    }
  }

  // ----- when a pass changes nothing -----

  lemma CanonicalInPlace(A: Arith, g: GraphData, op: Operation)
    requires Ordered(g) && GraphVerified(A, g) && op in g.operations
    ensures Editable(Descriptors(g.values), op) <==> !IsCanonical(op)
    ensures Editable(Descriptors(g.values), op) <==> CanonicalOperation(Descriptors(g.values), op) != op
  {
    var types := Descriptors(g.values);
    var i :| 0 <= i < |g.operations| && g.operations[i] == op;
    assert Resolved(types, g.operations[i]) && OperationOk(A, types, g.operations[i]);
    EditableSpelled(A, types, op);
    EditShows(A, types, op);
  }

  lemma CanonicalSettled(A: Arith, g: GraphData)
    requires Ordered(g) && GraphVerified(A, g)
    ensures IsStableOrder(CanonicalOperations(Descriptors(g.values), g.operations), g.operations)
      <==> AllCanonical(g) && IsStableOrder(g.operations, g.operations)
  {
    hide Editable, IsCanonical, CanonicalAttributes, Descriptors, IsStableOrder, GraphVerified, CanonicalOperation;
    var types, ops := Descriptors(g.values), g.operations;
    var c := CanonicalOperations(types, ops);
    forall op <- ops
      ensures Editable(types, op) <==> !IsCanonical(op)
      ensures Editable(types, op) <==> CanonicalOperation(types, op) != op
    {
      CanonicalInPlace(A, g, op);
    }
    assert forall i | 0 <= i < |ops| :: ops[i] in ops;
    if AllCanonical(g) {
      assert c == ops;
    }
    if IsStableOrder(c, ops) {
      CanonicalChangeShows(A, g, ops);
      forall op <- ops ensures IsCanonical(op) {
        var i :| 0 <= i < |ops| && ops[i] == op;
      }
    }
  }

  lemma {:induction false} QuietSweep(A: Arith, g: GraphData, m: nat)
    requires m <= |g.operations|
    ensures FoldSweep(A, g, m) == g <==>
      forall i | 0 <= i < m :: Folded(A, Descriptors(g.values), g.operations, g.operations[i]).None?
  {
    hide Folded, FoldStep, Descriptors;
    if m > 0 {
      QuietSweep(A, g, m - 1);
      SweepGoesOn(A, g, m - 1);
      StillOther(A, g, m - 1);
    }
  }

  /** What has changed stays changed. */
  lemma StillOther(A: Arith, g: GraphData, m: nat)
    requires m < |g.operations|
    ensures FoldSweep(A, g, m) != g ==> FoldSweep(A, g, m + 1) != g
  {
    SweepGoesOn(A, g, m);
  }

  lemma FoldingSettled(A: Arith, g: GraphData)
    requires DistinctOutputs(g.operations)
    ensures FoldSweep(A, g, |g.operations|) == g <==> NothingFolds(A, g)
  {
    QuietSweep(A, g, |g.operations|);
    forall i | 0 <= i < |g.operations|
      ensures Folded(A, Descriptors(g.values), g.operations, g.operations[i]).Some? <==> Folds(A, g, g.operations[i])
    {
      FoldsExactly(A, g, g.operations[i]);
    }
    hide FoldSweep, Folds, Folded, Descriptors;
    if NothingFolds(A, g) {
      forall i | 0 <= i < |g.operations| ensures !Folds(A, g, g.operations[i]) {
        assert g.operations[i] in g.operations;
      }
    } else {
      var op :| op in g.operations && Folds(A, g, op);
      var i :| 0 <= i < |g.operations| && g.operations[i] == op;
    }
  }

  lemma DroppingNothing(g: GraphData, drop: seq<bool>)
    requires HasOperands(g.operations, drop)
    ensures WithoutCopies(g, drop) == g <==> true !in drop
  {
    if true in drop {
      CopiesShow(g, drop);
    } else {
      NoCopiesNoChange(g, drop);
    }
  }

  lemma ReshapesSettled(g: GraphData)
    requires DistinctValueIds(g.values) && HasOperands(g.operations, RedundantReshapes(g))
    ensures WithoutCopies(g, RedundantReshapes(g)) == g <==> NoSameShape(g)
  {
    DroppingNothing(g, RedundantReshapes(g));
    forall op ensures RedundantReshape(g, op) <==> IsSameShape(g, op) {
      SameShapeSpelled(g, op);
    }
    hide RedundantReshape, IsSameShape, WithoutCopies;
    var drop := RedundantReshapes(g);
    if true in drop {
      var i :| 0 <= i < |drop| && drop[i];
      assert g.operations[i] in g.operations;
    }
    forall op <- g.operations | IsSameShape(g, op) ensures true in drop {
      var i :| 0 <= i < |drop| && g.operations[i] == op;
      assert drop[i];
    }
  }

  lemma TransposesSettled(g: GraphData)
    requires HasOperands(g.operations, TransposeElimination.RedundantTransposes(g))
    ensures WithoutCopies(g, TransposeElimination.RedundantTransposes(g)) == g <==> NoSamePlace(g)
  {
    var drop := TransposeElimination.RedundantTransposes(g);
    DroppingNothing(g, drop);
    forall op ensures TransposeElimination.RedundantTranspose(g, op) <==> IsSamePlace(g, op) {
      SamePlaceSpelled(g, op);
    }
    hide TransposeElimination.RedundantTranspose, IsSamePlace, WithoutCopies;
    if true in drop {
      var i :| 0 <= i < |drop| && drop[i];
      assert g.operations[i] in g.operations;
    }
    forall op <- g.operations | IsSamePlace(g, op) ensures true in drop {
      var i :| 0 <= i < |drop| && g.operations[i] == op;
      assert drop[i];
    }
  }

  lemma FusionSettled(g: GraphData)
    requires WellFormedGraph(g)
    ensures Fuse(g) == g <==> !HasChain(g)
  {
    MatchIsChainSomewhere(g);
    if HasMatch(g, |g.operations|) {
      MatchShows(g);
    } else {
      NoMatchNoChange(g);
    }
  }

  lemma DeadCodeSettled(g: GraphData)
    requires WellFormedGraph(g)
    ensures (exists live :: IsLiveSet(g, live) && g == WithoutDeadCode(g, live)) <==> AllLive(g)
  {
    if live :| IsLiveSet(g, live) && g == WithoutDeadCode(g, live) {
      KeptValuesAre(g.values, DeadValues(g.values, live));
      forall v <- g.values ensures v.id in live {
      }
      LiveValues(g, live);
    }
    if AllLive(g) {
      var live := ValueIds(g);
      assert DeadOperations(g.operations, live) == {} && DeadValues(g.values, live) == {};
      NothingKeptOut(g.operations, g.values);
    }
  }

  /** A pass leaves a graph alone exactly when it is settled. */
  lemma UnchangedExactly(A: Arith, pass: Pass, g: GraphData)
    requires Ordered(g) && GraphVerified(A, g)
    ensures Transforms(A, pass, g, g) <==> Settled(A, pass, g)
  {
    assert g == Rewired(g, g.operations);
    Arities(g);
    hide Ordered, GraphVerified, IsStableOrder, IsLiveSet, AllCanonical, NothingFolds, NoSameShape, NoSamePlace;
    match pass {
      case GraphVerifier =>
      case CanonicalisationPass => CanonicalSettled(A, g);
      case ConstantFoldingPass => FoldingSettled(A, g);
      case ReshapeEliminationPass => ReshapesSettled(g);
      case TransposeEliminationPass => TransposesSettled(g);
      case FuseBiasGeluPass => FusionSettled(g);
      case DeadCodeEliminationPass => DeadCodeSettled(g);
    }
  }

  lemma Arities(g: GraphData)
    requires Ordered(g)
    ensures WellFormedGraph(g) && DistinctOutputs(g.operations) && DistinctValueIds(g.values)
    ensures HasOperands(g.operations, RedundantReshapes(g))
    ensures HasOperands(g.operations, TransposeElimination.RedundantTransposes(g))
  {
  }

  // ----- put together, pass by pass -----

  /** What a pass makes true. */
  ghost predicate Established(A: Arith, pass: Pass, g: GraphData, h: GraphData) {
    && (pass.CanonicalisationPass? ==> AllCanonical(h))
    && (pass.ConstantFoldingPass? ==> NothingFolds(A, h))
    && (pass.ReshapeEliminationPass? ==> NoSameShape(h))
    && (pass.TransposeEliminationPass? ==> NoSamePlace(h))
    && (pass.DeadCodeEliminationPass? ==> AllLive(h))
  }

  /** What it leaves true. */
  ghost predicate Inherited(A: Arith, pass: Pass, g: GraphData, h: GraphData) {
    && (!pass.CanonicalisationPass? && AllCanonical(g) ==> AllCanonical(h))
    && (pass.DeadCodeEliminationPass? && NothingFolds(A, g) ==> NothingFolds(A, h))
    && (pass.TransposeEliminationPass? && NoSameShape(g) ==> NoSameShape(h))
    && (pass.FuseBiasGeluPass? || pass.DeadCodeEliminationPass? ==>
          NoSameShape(g) && NoSamePlace(g) ==> NoSameShape(h) && NoSamePlace(h))
  }

  lemma PassEstablishes(A: Arith, pass: Pass, g: GraphData, h: GraphData)
    requires Ordered(g) && GraphVerified(A, g) && Transforms(A, pass, g, h) && Ordered(h)
    ensures Established(A, pass, g, h)
  {
    assert WellFormedGraph(g) && WellFormedGraph(h);
    hide Ordered, GraphVerified, IsStableOrder, IsLiveSet, AllCanonical, NothingFolds, NoSameShape, NoSamePlace, AllLive;
    match pass {
      case GraphVerifier =>
      case CanonicalisationPass => CanonicalisationEstablishes(A, g, h.operations);
      case ConstantFoldingPass => FoldingEstablishes(A, g);
      case ReshapeEliminationPass => ReshapesEstablish(A, g);
      case TransposeEliminationPass => TransposesEstablish(g);
      case FuseBiasGeluPass =>
      case DeadCodeEliminationPass =>
        var live :| IsLiveSet(g, live) && h == WithoutDeadCode(g, live);
        DeadCodeEstablishes(g, live);
    }
  }

  lemma PassInherits(A: Arith, pass: Pass, g: GraphData, h: GraphData)
    requires Ordered(g) && GraphVerified(A, g) && Transforms(A, pass, g, h)
    ensures Inherited(A, pass, g, h)
  {
    assert DistinctValueIds(g.values);
    hide Ordered, GraphVerified, IsStableOrder, IsLiveSet, AllCanonical, NothingFolds, NoSameShape, NoSamePlace;
    if !pass.CanonicalisationPass? && AllCanonical(g) {
      PassKeepsCanonical(A, pass, g, h);
    }
    if pass.DeadCodeEliminationPass? {
      var live :| IsLiveSet(g, live) && h == WithoutDeadCode(g, live);
      if NothingFolds(A, g) {
        ErasedFoldsNothing(A, g, DeadOperations(g.operations, live), DeadValues(g.values, live));
      }
      if NoSameShape(g) && NoSamePlace(g) {
        ErasedKeepsCopies(g, DeadOperations(g.operations, live), DeadValues(g.values, live));
      }
    }
    if pass.TransposeEliminationPass? && NoSameShape(g) {
      TransposesKeepReshapes(A, g);
    }
    if pass.FuseBiasGeluPass? && NoSameShape(g) && NoSamePlace(g) {
      FusionKeepsCopies(g);
    }
  }
}
