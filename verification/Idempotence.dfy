/** Reordering is a fixed point: ordering what has just been ordered changes nothing. */
module ReorderingTwice {
  import opened Basics
  import opened GraphIR
  import opened StringOrder
  import opened Kahn
  import opened OperationOrder
  import opened PassFramework
  import Counting

  /** In a linear extension operations with side effects keep their order. */
  lemma {:induction false} EffectsKeepOrder(ops: seq<Operation>, s: seq<nat>, a: nat, b: nat)
    requires LinearExtension(|ops|, OrderEdges(ops, true), s) && a < b < |ops| && a in s && b in s
    requires (forall x: nat | x < |ops| :: x in s) && ops[a].HasSideEffect() && ops[b].HasSideEffect()
    ensures Position(s, a) < Position(s, b)
    decreases b - a
  {
    var c := PreviousEffect(ops, a, b);
    assert ConsecutiveEffects(ops, c, b);
    assert (c, b) in OrderEdges(ops, true);
    EdgesPointForward(|ops|, OrderEdges(ops, true), s, Position(s, c), Position(s, b));
    if c > a {
      EffectsKeepOrder(ops, s, a, c);
    }
  }

  /** The last operation with a side effect before b, no earlier than a. */
  lemma {:induction false} PreviousEffect(ops: seq<Operation>, a: nat, b: nat) returns (c: nat)
    requires a < b <= |ops| && ops[a].HasSideEffect()
    ensures a <= c < b && ops[c].HasSideEffect() && forall m | c < m < b :: !ops[m].HasSideEffect()
  {
    c := b - 1;
    while !ops[c].HasSideEffect()
      invariant a <= c < b && forall m | c < m < b :: !ops[m].HasSideEffect()
      decreases c
    {
      c := c - 1;
    }
  }

  /** An edge between reordered operations was there before, and the other way round. */
  lemma EdgeKept(ops: seq<Operation>, effects: bool, s: seq<nat>, i: nat, j: nat)
    requires LinearExtension(|ops|, OrderEdges(ops, effects), s) && i < |ops| && j < |ops|
    requires (s[i], s[j]) in OrderEdges(ops, effects)
    ensures (i, j) in OrderEdges(Reordered(ops, s), effects)
  {
    var r := Reordered(ops, s);
    EdgesPointForward(|ops|, OrderEdges(ops, effects), s, i, j);
    if (s[i], s[j]) in DataEdges(ops) {
      assert OperationOrder.Feeds(ops, s[i], s[j]);
      assert OperationOrder.Feeds(r, i, j);
    } else {
      assert ConsecutiveEffects(ops, s[i], s[j]);
      forall m: nat | i < m < j ensures !r[m].HasSideEffect() {
        NoEffectBetween(ops, s, i, m, j);
      }
      assert ConsecutiveEffects(r, i, j);
    }
  }

  lemma NoEffectBetween(ops: seq<Operation>, s: seq<nat>, i: nat, m: nat, j: nat)
    requires LinearExtension(|ops|, OrderEdges(ops, true), s) && i < m < j < |ops|
    requires ConsecutiveEffects(ops, s[i], s[j])
    ensures !ops[s[m]].HasSideEffect()
  {
    Counting.DistinctBound(s, |ops|);
    PositionIs(s, i);
    PositionIs(s, m);
    PositionIs(s, j);
    if ops[s[m]].HasSideEffect() && s[m] < s[i] {
      EffectsKeepOrder(ops, s, s[m], s[i]);
    }
    if ops[s[m]].HasSideEffect() && s[m] > s[j] {
      EffectsKeepOrder(ops, s, s[j], s[m]);
    }
  }

  lemma PositionIs(s: seq<nat>, k: nat)
    requires Counting.Distinct(s) && k < |s|
    ensures Position(s, s[k]) == k
  {
  }

  lemma FeedsKept(ops: seq<Operation>, effects: bool, s: seq<nat>, i: nat, j: nat)
    requires LinearExtension(|ops|, OrderEdges(ops, effects), s) && i < |ops| && j < |ops|
    ensures OperationOrder.Feeds(Reordered(ops, s), i, j) ==> (s[i], s[j]) in OrderEdges(ops, effects)
  {
    assert OperationOrder.Feeds(Reordered(ops, s), i, j) ==> OperationOrder.Feeds(ops, s[i], s[j]);
  }

  /** Data edges of the reordered operations are data edges of the original ones. */
  lemma IdentityExtends(ops: seq<Operation>, effects: bool, s: seq<nat>, identity: seq<nat>)
    requires LinearExtension(|ops|, OrderEdges(ops, effects), s)
    requires |identity| == |ops| && forall k | 0 <= k < |ops| :: identity[k] == k
    ensures LinearExtension(|ops|, OrderEdges(Reordered(ops, s), effects), identity)
  {
    var r := Reordered(ops, s);
    forall i, j | 0 <= i <= j < |ops| ensures (identity[j], identity[i]) !in OrderEdges(r, true) {
      FeedsKept(ops, effects, s, j, i);
      assert (s[j], s[i]) !in OrderEdges(ops, effects);
    }
  }

  /** An order of the reordered operations, read as an order of the original ones. */
  lemma Composed(ops: seq<Operation>, effects: bool, s: seq<nat>, t: seq<nat>) returns (u: seq<nat>)
    requires LinearExtension(|ops|, OrderEdges(ops, effects), s)
    requires LinearExtension(|ops|, OrderEdges(Reordered(ops, s), effects), t)
    ensures |u| == |ops| && forall k | 0 <= k < |u| :: t[k] < |s| && u[k] == s[t[k]]
    ensures LinearExtension(|ops|, OrderEdges(ops, effects), u)
  {
    u := seq(|ops|, k requires 0 <= k < |ops| => s[t[k]]);
    forall i, j | 0 <= i <= j < |ops| ensures (u[j], u[i]) !in OrderEdges(ops, effects) {
      if (s[t[j]], s[t[i]]) in OrderEdges(ops, effects) {
        EdgeKept(ops, effects, s, t[j], t[i]);
      }
    }
  }

  /** After reordering, the identity is the least order. */
  lemma IdentityIsLeast(ops: seq<Operation>, effects: bool, s: seq<nat>, identity: seq<nat>)
    requires DistinctOperationIds(ops) && LeastLinearExtension(Ids(ops), OrderEdges(ops, effects), s)
    requires |identity| == |ops| && forall k | 0 <= k < |ops| :: identity[k] == k
    ensures LeastLinearExtension(Ids(Reordered(ops, s)), OrderEdges(Reordered(ops, s), effects), identity)
  {
    var r := Reordered(ops, s);
    IdentityExtends(ops, effects, s, identity);
    forall t | LinearExtension(|ops|, OrderEdges(r, effects), t) ensures LexicographicallyLeq(Ids(r), identity, t) {
      var u := Composed(ops, effects, s, t);
      NoEarlier(ops, effects, s, t, u, identity);
    }
  }

  lemma NoEarlier(ops: seq<Operation>, effects: bool, s: seq<nat>, t: seq<nat>, u: seq<nat>, identity: seq<nat>)
    requires DistinctOperationIds(ops) && LeastLinearExtension(Ids(ops), OrderEdges(ops, effects), s)
    requires LinearExtension(|ops|, OrderEdges(ops, effects), u) && |t| == |ops|
    requires forall k | 0 <= k < |u| :: t[k] < |s| && u[k] == s[t[k]]
    requires |identity| == |ops| && forall k | 0 <= k < |ops| :: identity[k] == k
    ensures LexicographicallyLeq(Ids(Reordered(ops, s)), identity, t)
  {
    hide OrderEdges;
    var keys, r := Ids(ops), Reordered(ops, s);
    assert LexicographicallyLeq(keys, s, u);
    if s == u {
      forall k | 0 <= k < |t| ensures t[k] == identity[k] {
        assert s[t[k]] == s[k];
      }
    } else {
      var k: nat :| k < |s| && s[..k] == u[..k] && Before(keys, s[k], u[k]);
      hide LexicographicallyLeq, LinearExtension, LeastLinearExtension, OrderEdges;
      SamePrefixes(s, t, u, identity, k);
      FirstDiffers(ops, s, t, k);
      EarlierAt(Ids(r), identity, t, k);
    }
  }

  lemma SamePrefixes(s: seq<nat>, t: seq<nat>, u: seq<nat>, identity: seq<nat>, k: nat)
    requires Counting.Distinct(s) && |s| == |t| == |u| == |identity| && k < |s| && s[..k] == u[..k]
    requires forall m | 0 <= m < |s| :: t[m] < |s| && u[m] == s[t[m]] && identity[m] == m
    ensures identity[..k] == t[..k]
  {
    forall m | 0 <= m < k ensures t[m] == identity[m] {
      assert s[..k][m] == s[m] && u[..k][m] == u[m];
      assert s[t[m]] == s[m];
    }
  }

  lemma FirstDiffers(ops: seq<Operation>, s: seq<nat>, t: seq<nat>, k: nat)
    requires DistinctOperationIds(ops) && |s| == |t| == |ops| && k < |s| && t[k] < |s|
    requires forall m | 0 <= m < |s| :: s[m] < |ops|
    requires Before(Ids(ops), s[k], s[t[k]])
    ensures Before(Ids(Reordered(ops, s)), k, t[k])
  {
    BeforeIsStrictTotal(Ids(ops), s[k], s[t[k]], s[k]);
  }

  lemma EarlierAt(keys: seq<string>, s: seq<nat>, t: seq<nat>, k: nat)
    requires |s| == |t| == |keys| && k < |s| && forall m | 0 <= m < |s| :: s[m] < |keys| && t[m] < |keys|
    requires s[..k] == t[..k] && Before(keys, s[k], t[k])
    ensures LexicographicallyLeq(keys, s, t)
  {
  }

  /** Reordering a second time changes nothing. */
  lemma StableOrderTwice(ops: seq<Operation>, r: seq<Operation>, q: seq<Operation>)
    requires DistinctOperationIds(ops) && IsStableOrder(ops, r) && IsStableOrder(r, q)
    ensures q == r
  {
    var s :| LeastLinearExtension(Ids(ops), OrderEdges(ops, true), s)
      && |s| == |ops| && (forall k | 0 <= k < |s| :: s[k] < |ops|) && r == Reordered(ops, s);
    var t :| LeastLinearExtension(Ids(r), OrderEdges(r, true), t)
      && |t| == |r| && (forall k | 0 <= k < |t| :: t[k] < |r|) && q == Reordered(r, t);
    var identity: seq<nat> := seq(|ops|, k => k);
    IdentityIsLeast(ops, true, s, identity);
    LeastIsUnique(Ids(r), OrderEdges(r, true), identity, t);
  }
}

/** Each pass, run again on its own result, changes nothing. */
module PassesTwice {
  import opened Basics
  import opened GraphIR
  import opened Shapes
  import opened Kahn
  import opened OperationOrder
  import opened Sequential
  import opened Tensors
  import opened Evaluator
  import opened SemanticVerifier
  import opened GraphInvariants
  import opened RewriteUtils
  import opened PassFramework
  import opened Erasure
  import opened CopyElimination
  import opened Canonicalisation
  import opened ConstantFolding
  import opened ReshapeElimination
  import TransposeElimination
  import opened DeadCodeElimination
  import opened ReorderingTwice

  // ----- copies -----

  /** What is left is a rerouted operation that was not dropped. */
  lemma KeptIsRerouted(g: GraphData, drop: seq<bool>, op: Operation) returns (i: nat)
    requires HasOperands(g.operations, drop) && DistinctOperationIds(g.operations) && DistinctOutputs(g.operations)
    requires op in WithoutCopies(g, drop).operations
    ensures i < |g.operations| && !drop[i] && op == Rerouted(g.operations, drop, |g.operations|)[i]
  {
    var r := Rerouted(g.operations, drop, |g.operations|);
    KeptOperationsAre(r, DroppedIds(g.operations, drop));
    assert op in r;
    i :| 0 <= i < |r| && r[i] == op;
    WhichDropped(g.operations, drop, i);
  }

  /** No redundant reshape is left. */
  lemma NoReshapeLeft(A: Arith, g: GraphData, op: Operation)
    requires Ordered(g) && GraphVerified(A, g) && HasOperands(g.operations, RedundantReshapes(g))
    requires op in WithoutCopies(g, RedundantReshapes(g)).operations
    ensures !RedundantReshape(WithoutCopies(g, RedundantReshapes(g)), op)
  {
    var drop := RedundantReshapes(g);
    var h := WithoutCopies(g, drop);
    var i := KeptIsRerouted(g, drop, op);
    ReshapesAreDroppable(A, g);
    ReroutedResolved(g, drop, i);
    KeptDescriptors(g.values, DroppedOutputs(g.operations, drop));
    assert !RedundantReshape(g, g.operations[i]);
  }

  lemma ReshapesTwice(A: Arith, g: GraphData)
    requires Ordered(g) && GraphVerified(A, g) && HasOperands(g.operations, RedundantReshapes(g))
    ensures var h := WithoutCopies(g, RedundantReshapes(g));
      HasOperands(h.operations, RedundantReshapes(h)) && WithoutCopies(h, RedundantReshapes(h)) == h
  {
    var h := WithoutCopies(g, RedundantReshapes(g));
    forall i | 0 <= i < |h.operations| ensures !RedundantReshapes(h)[i] {
      NoReshapeLeft(A, g, h.operations[i]);
    }
    NoCopiesNoChange(h, RedundantReshapes(h));
  }

  lemma NoTransposeLeft(g: GraphData, op: Operation)
    requires Ordered(g) && HasOperands(g.operations, TransposeElimination.RedundantTransposes(g))
    requires op in WithoutCopies(g, TransposeElimination.RedundantTransposes(g)).operations
    ensures !TransposeElimination.RedundantTranspose(WithoutCopies(g, TransposeElimination.RedundantTransposes(g)), op)
  {
    var i := KeptIsRerouted(g, TransposeElimination.RedundantTransposes(g), op);
    assert !TransposeElimination.RedundantTranspose(g, g.operations[i]);
  }

  lemma TransposesTwice(g: GraphData)
    requires Ordered(g) && HasOperands(g.operations, TransposeElimination.RedundantTransposes(g))
    ensures var h := WithoutCopies(g, TransposeElimination.RedundantTransposes(g));
      HasOperands(h.operations, TransposeElimination.RedundantTransposes(h))
      && WithoutCopies(h, TransposeElimination.RedundantTransposes(h)) == h
  {
    var h := WithoutCopies(g, TransposeElimination.RedundantTransposes(g));
    forall i | 0 <= i < |h.operations| ensures !TransposeElimination.RedundantTransposes(h)[i] {
      NoTransposeLeft(g, h.operations[i]);
    }
    NoCopiesNoChange(h, TransposeElimination.RedundantTransposes(h));
  }

  // ----- dead code -----

  ghost function LiveOnly(g: GraphData, live: set<Id>): GraphData {
    Erased(g, DeadOperations(g.operations, live), DeadValues(g.values, live))
  }

  /** What is live stays live after the dead code is gone. */
  lemma LiveStaysLive(g: GraphData, live: set<Id>, again: set<Id>)
    requires Ordered(g) && IsLiveSet(g, live) && IsLiveSet(LiveOnly(g, live), again)
    ensures live <= again
  {
    var h, both := LiveOnly(g, live), live * again;
    KeptOperationsAre(g.operations, DeadOperations(g.operations, live));
    forall id | IsRoot(g, id) ensures id in both {
      StillRoot(g, live, id);
    }
    forall op <- g.operations | op.output in both ensures forall k | 0 <= k < |op.inputs| :: op.inputs[k] in both {
      SameOperation(g.operations, op);
      assert op in h.operations;
    }
    assert BackwardClosed(g.operations, both);
  }

  lemma StillRoot(g: GraphData, live: set<Id>, id: Id)
    requires Ordered(g) && IsLiveSet(g, live) && IsRoot(g, id)
    ensures id in live && IsRoot(LiveOnly(g, live), id)
  {
    if op :| op in g.operations && op.HasSideEffect() && op.output == id {
      KeptOperationsAre(g.operations, DeadOperations(g.operations, live));
      SameOperation(g.operations, op);
      assert op in LiveOnly(g, live).operations;
    }
  }

  lemma DeadCodeTwice(g: GraphData, live: set<Id>, again: set<Id>)
    requires Ordered(g) && IsLiveSet(g, live) && IsLiveSet(LiveOnly(g, live), again)
    ensures LiveOnly(LiveOnly(g, live), again) == LiveOnly(g, live)
  {
    var h := LiveOnly(g, live);
    LiveStaysLive(g, live, again);
    KeptOperationsAre(g.operations, DeadOperations(g.operations, live));
    KeptValuesAre(g.values, DeadValues(g.values, live));
    forall op <- h.operations ensures op.output in again {
      SameOperation(g.operations, op);
    }
    assert DeadOperations(h.operations, again) == {};
    forall v <- h.values ensures v.id in again {
      assert v in g.values && v.id !in DeadValues(g.values, live);
    }
    assert DeadValues(h.values, again) == {};
    NothingKeptOut(h.operations, h.values);
  }

  // ----- canonicalisation -----

  /** An axis the verifier accepts is not negative once it is canonical. */
  lemma CanonicalTwice(A: Arith, types: Types, op: Operation)
    requires Resolved(types, op) && OperationOk(A, types, op)
    ensures CanonicalOperation(types, CanonicalOperation(types, op)) == CanonicalOperation(types, op)
  {
    if op.kind.Softmax? || op.kind.RmsNorm? {
      AxisCanonical(op.kind, op.attributes, |InputShape(types, op, 0)|);
    }
  }

  lemma CanonicalOperationsTwice(A: Arith, types: Types, ops: seq<Operation>, r: seq<Operation>)
    requires Verified(A, types, ops) && IsStableOrder(CanonicalOperations(types, ops), r)
    ensures CanonicalOperations(types, r) == r
  {
    var c := CanonicalOperations(types, ops);
    forall i | 0 <= i < |r| ensures CanonicalOperation(types, r[i]) == r[i] {
      var k := StableOrderFrom(c, r, i);
      assert Resolved(types, ops[k]) && OperationOk(A, types, ops[k]);
      CanonicalTwice(A, types, ops[k]);
    }
  }

  lemma StableOrderFrom(before: seq<Operation>, after: seq<Operation>, i: nat) returns (k: nat)
    requires IsStableOrder(before, after) && i < |after|
    ensures |after| == |before| && k < |before| && after[i] == before[k]
  {
    var order :| LeastLinearExtension(Ids(before), OrderEdges(before, true), order)
      && |order| == |before| && (forall k | 0 <= k < |order| :: order[k] < |before|) && after == Reordered(before, order);
    k := order[i];
  }

  lemma CanonicalisationTwice(A: Arith, g: GraphData, r: seq<Operation>, q: seq<Operation>)
    requires Ordered(g) && GraphVerified(A, g)
    requires IsStableOrder(CanonicalOperations(Descriptors(g.values), g.operations), r)
    requires IsStableOrder(CanonicalOperations(Descriptors(g.values), r), q)
    ensures q == r
  {
    var types := Descriptors(g.values);
    CanonicalOperationsTwice(A, types, g.operations, r);
    CanonicalKeepsOperations(types, g.operations);
    StableOrderTwice(CanonicalOperations(types, g.operations), r, q);
  }
}
