/** One sweep fuses every chain: nothing matches in the fused graph. */
module FusionTwice {
  import opened Basics
  import opened GraphIR
  import opened Shapes
  import opened OperationOrder
  import opened Sequential
  import opened Tensors
  import opened Evaluator
  import opened SemanticVerifier
  import opened GraphInvariants
  import opened RewriteUtils
  import opened PassFramework
  import opened Erasure
  import opened Fusion
  import opened FusionSoundness

  // ----- use counts -----

  lemma {:induction false} UseCountUpdate(ops: seq<Operation>, j: nat, op: Operation, id: Id)
    requires j < |ops|
    ensures UseCount(ops[j := op], id) + multiset(ops[j].inputs)[id] == UseCount(ops, id) + multiset(op.inputs)[id]
  {
    var n := |ops| - 1;
    if j < n {
      assert ops[j := op][..n] == ops[..n][j := op];
      UseCountUpdate(ops[..n], j, op, id);
    } else {
      assert ops[j := op][..n] == ops[..n];
    }
  }

  /** An operation that uses nothing. */
  function Idle(op: Operation): Operation {
    op.(inputs := [])
  }

  function IdleWhere(ops: seq<Operation>, ids: set<Id>): (r: seq<Operation>)
    ensures |r| == |ops|
  {
    seq(|ops|, j requires 0 <= j < |ops| => if ops[j].id in ids then Idle(ops[j]) else ops[j])
  }

  /** Erasing operations counts like making them idle. */
  lemma {:induction false} ErasedUseCount(ops: seq<Operation>, ids: set<Id>, id: Id)
    ensures UseCount(KeptOperations(ops, ids), id) == UseCount(IdleWhere(ops, ids), id)
  {
    if ops != [] {
      var n := |ops| - 1;
      ErasedUseCount(ops[..n], ids, id);
      var kept := KeptOperations(ops[..n], ids);
      assert IdleWhere(ops, ids)[..n] == IdleWhere(ops[..n], ids);
      if ops[n].id !in ids {
        assert (kept + [ops[n]])[..|kept|] == kept;
      } else {
        assert kept + [] == kept;
      }
    }
  }

  /** After the first m visits, with what has been absorbed made idle. */
  ghost function Visited(g: GraphData, m: nat): (r: seq<Operation>)
    requires m <= |g.operations|
    ensures |r| == |g.operations|
  {
    seq(|g.operations|, j requires 0 <= j < |g.operations| =>
      if IsAbsorbed(g, m, j) then Idle(g.operations[j]) else if j < m then FusedAt(g, j) else g.operations[j])
  }

  /** Fusing a chain touches operations no earlier chain has touched. */
  lemma ChainUntouched(g: GraphData, m: nat)
    requires Ordered(g) && m < |g.operations| && MatchAt(g, m).Some?
    ensures IsChain(g, m, MatchAt(g, m).value)
    ensures var c := MatchAt(g, m).value;
      && !IsAbsorbed(g, m, c.base) && !IsAbsorbed(g, m, c.add) && !IsAbsorbed(g, m + 1, m)
      && FusedAt(g, c.base) == g.operations[c.base] && FusedAt(g, c.add) == g.operations[c.add]
      && c.base != c.add && c.base != m && c.add != m
  {
    hide MatchAt, FusedAt, Ordered, IsAbsorbed;
    MatchIsChain(g, m);
    var c := MatchAt(g, m).value;
    MemberUntouched(g, m, c.base);
    MemberUntouched(g, m, c.add);
    GeluNotAbsorbed(g, m + 1, m);
    NotGeluUnfused(g, c.base);
    NotGeluUnfused(g, c.add);
  }

  lemma NotGeluUnfused(g: GraphData, j: nat)
    requires j < |g.operations| && !g.operations[j].kind.Gelu?
    ensures FusedAt(g, j) == g.operations[j]
  {
  }

  lemma MemberUntouched(g: GraphData, m: nat, p: nat)
    requires Ordered(g) && m < |g.operations| && MatchAt(g, m).Some?
    requires p == MatchAt(g, m).value.base || p == MatchAt(g, m).value.add
    ensures !IsAbsorbed(g, m, p)
  {
    if IsAbsorbed(g, m, p) {
      var i := AbsorbedBy(g, m, p);
      SameChain(g, i, m, p);
    }
  }

  lemma SameChain(g: GraphData, i: nat, j: nat, p: nat)
    requires Ordered(g) && i < |g.operations| && j < |g.operations| && MatchAt(g, i).Some? && MatchAt(g, j).Some?
    requires p == MatchAt(g, i).value.base || p == MatchAt(g, i).value.add
    requires p == MatchAt(g, j).value.base || p == MatchAt(g, j).value.add
    ensures i == j
  {
    MatchIsChain(g, i);
    MatchIsChain(g, j);
    ChainsDisjoint(g, i, j);
  }

  lemma NothingVisited(g: GraphData, m: nat)
    requires m < |g.operations| && MatchAt(g, m).None?
    ensures Visited(g, m + 1) == Visited(g, m)
  {
    forall j | 0 <= j < |g.operations| ensures IsAbsorbed(g, m + 1, j) == IsAbsorbed(g, m, j) {
    }
  }

  /** One visit, as three updates. */
  function ThreeUpdates(ops: seq<Operation>, base: nat, add: nat, m: nat, x: Operation, y: Operation, z: Operation)
    : (r: seq<Operation>)
    requires base < |ops| && add < |ops| && m < |ops|
    ensures |r| == |ops|
  {
    ops[base := x][add := y][m := z]
  }

  lemma AbsorbedStep(g: GraphData, m: nat, j: nat)
    requires m < |g.operations| && MatchAt(g, m).Some?
    ensures IsAbsorbed(g, m + 1, j)
         == (IsAbsorbed(g, m, j) || j == MatchAt(g, m).value.base || j == MatchAt(g, m).value.add)
  {
  }

  lemma VisitedNext(g: GraphData, m: nat, j: nat)
    requires m < |g.operations| && j < |g.operations| && MatchAt(g, m).Some? && !IsAbsorbed(g, m + 1, m)
    ensures var c := MatchAt(g, m).value;
      Visited(g, m + 1)[j]
      == if j == c.base || j == c.add then Idle(g.operations[j]) else if j == m then FusedAt(g, m) else Visited(g, m)[j]
  {
    AbsorbedStep(g, m, j);
  }

  /** The members of a chain, just before it is fused. */
  lemma ChainBefore(g: GraphData, m: nat)
    requires Ordered(g) && m < |g.operations| && MatchAt(g, m).Some?
    ensures var c, ops, v := MatchAt(g, m).value, g.operations, Visited(g, m);
      && c.base < |ops| && c.add < |ops| && c.base != c.add && c.base != m && c.add != m && !IsAbsorbed(g, m + 1, m)
      && v[c.base] == ops[c.base] && v[c.add] == ops[c.add] && v[m] == ops[m]
  {
    ChainUntouched(g, m);
    hide MatchAt, FusedAt, IsChain, Ordered, IsAbsorbed;
    AbsorbedStep(g, m, m);
  }

  lemma ChainVisited(g: GraphData, m: nat)
    requires Ordered(g) && m < |g.operations| && MatchAt(g, m).Some?
    ensures var c, ops, v := MatchAt(g, m).value, g.operations, Visited(g, m);
      && c.base < |ops| && c.add < |ops| && c.base != c.add && c.base != m && c.add != m
      && v[c.base] == ops[c.base] && v[c.add] == ops[c.add] && v[m] == ops[m]
      && Visited(g, m + 1) == ThreeUpdates(v, c.base, c.add, m, Idle(ops[c.base]), Idle(ops[c.add]), FusedAt(g, m))
  {
    hide MatchAt, FusedAt, IsChain, Ordered, IsAbsorbed, Visited;
    ChainBefore(g, m);
    var c, ops, v := MatchAt(g, m).value, g.operations, Visited(g, m);
    var w := ThreeUpdates(v, c.base, c.add, m, Idle(ops[c.base]), Idle(ops[c.add]), FusedAt(g, m));
    forall j | 0 <= j < |ops| ensures Visited(g, m + 1)[j] == w[j] {
      VisitedNext(g, m, j);
    }
  }

  /** The uses of a chain: fusing it changes nothing but the uses of the two absorbed results. */
  lemma ChainUses(g: GraphData, m: nat, id: Id)
    requires m < |g.operations| && MatchAt(g, m).Some? && IsChain(g, m, MatchAt(g, m).value)
    requires var c := MatchAt(g, m).value; id != g.operations[c.base].output && id != g.operations[c.add].output
    ensures var c, ops := MatchAt(g, m).value, g.operations;
      multiset(ops[c.base].inputs)[id] + multiset(ops[c.add].inputs)[id] + multiset(ops[m].inputs)[id]
      == multiset(FusedAt(g, m).inputs)[id]
  {
    var c, ops := MatchAt(g, m).value, g.operations;
    var product, sum, bias := ops[c.base].output, ops[c.add].output, c.bias;
    assert ops[m].inputs == [sum];
    assert multiset([product, bias])[id] == multiset([bias, product])[id] == multiset([bias])[id];
  }

  lemma UpdatedUses(ops: seq<Operation>, base: nat, add: nat, m: nat, x: Operation, y: Operation, z: Operation, id: Id)
    requires base < |ops| && add < |ops| && m < |ops| && base != add && base != m && add != m
    ensures UseCount(ThreeUpdates(ops, base, add, m, x, y, z), id)
          + multiset(ops[base].inputs)[id] + multiset(ops[add].inputs)[id] + multiset(ops[m].inputs)[id]
         == UseCount(ops, id) + multiset(x.inputs)[id] + multiset(y.inputs)[id] + multiset(z.inputs)[id]
  {
    UseCountUpdate(ops, base, x, id);
    UseCountUpdate(ops[base := x], add, y, id);
    UseCountUpdate(ops[base := x][add := y], m, z, id);
  }

  lemma VisitedUsesStep(g: GraphData, m: nat, id: Id)
    requires Ordered(g) && m < |g.operations| && id !in AbsorbedValues(g, m + 1)
    ensures UseCount(Visited(g, m + 1), id) == UseCount(Visited(g, m), id)
  {
    if MatchAt(g, m).Some? {
      var c, ops := MatchAt(g, m).value, g.operations;
      MatchIsChain(g, m);
      ChainVisited(g, m);
      hide MatchAt, Ordered, UseCount, Visited, FusedAt;
      ChainUses(g, m, id);
      UpdatedUses(Visited(g, m), c.base, c.add, m, Idle(ops[c.base]), Idle(ops[c.add]), FusedAt(g, m), id);
    } else {
      NothingVisited(g, m);
    }
  }

  /** Visiting keeps the use counts of everything that is not absorbed. */
  lemma {:induction false} VisitedUses(g: GraphData, m: nat, id: Id)
    requires Ordered(g) && m <= |g.operations| && id !in AbsorbedValues(g, m)
    ensures UseCount(Visited(g, m), id) == UseCount(g.operations, id)
  {
    if m == 0 {
      assert Visited(g, 0) == g.operations;
    } else {
      hide MatchAt, Ordered, UseCount, Visited;
      VisitedUses(g, m - 1, id);
      VisitedUsesStep(g, m - 1, id);
    }
  }

  /** The fused graph uses what is left as often as the original. */
  lemma FusedUses(g: GraphData, id: Id)
    requires Ordered(g) && id !in AbsorbedValues(g, |g.operations|)
    ensures UseCount(Fuse(g).operations, id) == UseCount(g.operations, id)
  {
    var n := |g.operations|;
    var r, ids := FusedOperations(g, n), AbsorbedIds(g, n);
    ErasedUseCount(r, ids, id);
    VisitedUses(g, n, id);
    forall j | 0 <= j < n ensures IdleWhere(r, ids)[j] == Visited(g, n)[j] {
      AbsorbedIs(g, n, j);
      FusedKeepsNames(g, n, j);
      if IsAbsorbed(g, n, j) {
        AbsorbedUnfused(g, j);
      }
    }
    assert IdleWhere(r, ids) == Visited(g, n);
  }

  lemma AbsorbedUnfused(g: GraphData, j: nat)
    requires j < |g.operations| && IsAbsorbed(g, |g.operations|, j)
    ensures FusedAt(g, j) == g.operations[j]
  {
    if MatchAt(g, j).Some? {
      MatchIsChain(g, j);
      GeluNotAbsorbed(g, |g.operations|, j);
    }
  }

  // ----- nothing matches any more -----

  /** What is left of an operation that was not absorbed. */
  lemma ProducerKept(g: GraphData, p: nat) returns (q: nat)
    requires Ordered(g) && p < |g.operations| && !IsAbsorbed(g, |g.operations|, p)
    ensures q < |Fuse(g).operations| && Fuse(g).operations[q] == FusedAt(g, p)
    ensures ProducerIndex(Fuse(g).operations, g.operations[p].output) == Some(q)
    ensures g.operations[p].output !in AbsorbedValues(g, |g.operations|)
  {
    var n := |g.operations|;
    var r, ids := FusedOperations(g, n), AbsorbedIds(g, n);
    AbsorbedIs(g, n, p);
    FusedKeepsNames(g, n, p);
    FusedGraphIsOrdered(g);
    KeptOperationsAre(r, ids);
    KeptOperationsDistinct(r, ids);
    assert r[p] in r;
    q :| 0 <= q < |KeptOperations(r, ids)| && KeptOperations(r, ids)[q] == r[p];
    ProducerIndexAt(KeptOperations(r, ids), q);
  }

  /** The declarations of what is left. */
  lemma ValueKept(g: GraphData, id: Id)
    requires Ordered(g) && id !in AbsorbedValues(g, |g.operations|)
    ensures ValueNamed(Fuse(g).values, id) == ValueNamed(g.values, id)
  {
    var gone := AbsorbedValues(g, |g.operations|);
    var kept := KeptValues(g.values, gone);
    KeptValuesAre(g.values, gone);
    KeptValuesDistinct(g.values, gone);
    ValueNamedIs(g.values, id);
    ValueNamedIs(kept, id);
    if ValueNamed(g.values, id).Some? {
      var v := ValueNamed(g.values, id).value;
      assert v in kept;
      var k :| 0 <= k < |kept| && kept[k] == v;
      ValueNamedAt(kept, k);
    }
  }

  /** The producer of an operand of an operation that was neither absorbed nor fused. */
  lemma OperandKept(g: GraphData, j: nat, k: nat) returns (p: nat)
    requires Ordered(g) && j < |g.operations| && !IsAbsorbed(g, |g.operations|, j) && k < |g.operations[j].inputs|
    requires FusedAt(g, j) == g.operations[j]
    ensures p < |g.operations| && g.operations[p].output == g.operations[j].inputs[k]
    ensures ProducerIndex(g.operations, g.operations[j].inputs[k]) == Some(p) && !IsAbsorbed(g, |g.operations|, p)
  {
    assert ProducedBefore(g.operations, j, g.operations[j].inputs[k]);
    p :| 0 <= p < j && g.operations[p].output == g.operations[j].inputs[k];
    ProducerIndexAt(g.operations, p);
    if IsAbsorbed(g, |g.operations|, p) {
      AbsorbedUnused(g, j, p);
    }
  }

  lemma UnfusedUnlessGelu(g: GraphData, j: nat)
    requires j < |g.operations|
    ensures IsBase(FusedAt(g, j)) <==> IsBase(g.operations[j])
    ensures IsPlainAdd(FusedAt(g, j)) <==> IsPlainAdd(g.operations[j])
    ensures IsBase(g.operations[j]) || IsPlainAdd(g.operations[j]) ==> FusedAt(g, j) == g.operations[j]
  {
    FusedIsNoCandidate(g, |g.operations|, j);
  }

  /** Whether an operand comes from a plain projection has not changed. */
  lemma BaseAtStill(g: GraphData, j: nat, k: nat)
    requires Ordered(g) && j < |g.operations| && !IsAbsorbed(g, |g.operations|, j) && k < |g.operations[j].inputs|
    requires FusedAt(g, j) == g.operations[j]
    ensures var h, x := Fuse(g).operations, g.operations[j].inputs[k];
      && x !in AbsorbedValues(g, |g.operations|)
      && (BaseAt(h, x).Some? <==> BaseAt(g.operations, x).Some?)
      && (BaseAt(h, x).Some? ==>
            BaseAt(h, x).value < |h| && BaseAt(g.operations, x).value < |g.operations|
            && h[BaseAt(h, x).value] == g.operations[BaseAt(g.operations, x).value]
            && g.operations[BaseAt(g.operations, x).value].output == x)
  {
    var p := OperandKept(g, j, k);
    var q := ProducerKept(g, p);
    UnfusedUnlessGelu(g, p);
  }

  /** An unfused addition that is left still has the same projection and bias, if any. */
  lemma BaseStill(g: GraphData, a: nat)
    requires Ordered(g) && a < |g.operations| && !IsAbsorbed(g, |g.operations|, a) && IsPlainAdd(g.operations[a])
    ensures var h, add := Fuse(g).operations, g.operations[a];
      BaseOf(h, add).Some? ==>
        && BaseOf(g.operations, add).Some? && BaseOf(g.operations, add).value.1 == BaseOf(h, add).value.1
        && BaseOf(h, add).value.0 < |h| && BaseOf(g.operations, add).value.0 < |g.operations|
        && h[BaseOf(h, add).value.0] == g.operations[BaseOf(g.operations, add).value.0]
        && h[BaseOf(h, add).value.0].output !in AbsorbedValues(g, |g.operations|)
        && BaseOf(h, add).value.1 !in AbsorbedValues(g, |g.operations|)
  {
    UnfusedUnlessGelu(g, a);
    BaseAtStill(g, a, 0);
    BaseAtStill(g, a, 1);
  }

  /** Two graphs in which a chain would be made of the same operations, used as often, and the same values. */
  lemma MatchInherited(g: GraphData, h: GraphData, i: nat, j: nat, a: nat, q: nat)
    requires i < |h.operations| && j < |g.operations| && h.operations[i] == g.operations[j] && g.outputIds == h.outputIds
    requires IsPlainGelu(g.operations[j]) && a < |g.operations| && q < |h.operations|
    requires var s := g.operations[j].inputs[0];
      && ProducerIndex(g.operations, s) == Some(a) && ProducerIndex(h.operations, s) == Some(q)
      && UseCount(h.operations, s) == UseCount(g.operations, s) && ValueNamed(h.values, s) == ValueNamed(g.values, s)
    requires IsPlainAdd(h.operations[q]) ==> h.operations[q] == g.operations[a]
    requires IsPlainAdd(h.operations[q]) && BaseOf(h.operations, g.operations[a]).Some? ==>
      var x, y := BaseOf(h.operations, g.operations[a]), BaseOf(g.operations, g.operations[a]);
      && y.Some? && y.value.1 == x.value.1 && x.value.0 < |h.operations| && y.value.0 < |g.operations|
      && h.operations[x.value.0] == g.operations[y.value.0]
      && UseCount(h.operations, h.operations[x.value.0].output) == UseCount(g.operations, h.operations[x.value.0].output)
      && ValueNamed(h.values, x.value.1) == ValueNamed(g.values, x.value.1)
    ensures MatchAt(h, i).Some? ==> MatchAt(g, j).Some?
  {
  }

  /** A GELU that was not fused ends no chain afterwards that it did not end before. */
  lemma MatchStill(g: GraphData, i: nat, j: nat)
    requires Ordered(g) && i < |Fuse(g).operations| && j < |g.operations| && Fuse(g).operations[i] == g.operations[j]
    requires !IsAbsorbed(g, |g.operations|, j) && IsPlainGelu(g.operations[j]) && FusedAt(g, j) == g.operations[j]
    ensures MatchAt(Fuse(g), i).Some? ==> MatchAt(g, j).Some?
  {
    var h, s := Fuse(g), g.operations[j].inputs[0];
    assert h.outputIds == g.outputIds;
    hide Fuse, Ordered, MatchAt, UseCount, ValueNamed, ProducerIndex, BaseOf;
    var a := OperandKept(g, j, 0);
    var q := ProducerKept(g, a);
    UnfusedUnlessGelu(g, a);
    FusedUses(g, s);
    ValueKept(g, s);
    if IsPlainAdd(g.operations[a]) {
      BaseStill(g, a);
      var base := BaseOf(h.operations, g.operations[a]);
      if base.Some? {
        FusedUses(g, h.operations[base.value.0].output);
        ValueKept(g, base.value.1);
      }
    }
    MatchInherited(g, h, i, j, a, q);
  }

  lemma NoGeluNoMatch(g: GraphData, i: nat)
    requires i < |g.operations| && !IsPlainGelu(g.operations[i])
    ensures MatchAt(g, i).None?
  {
  }

  /** What an operation of the fused graph comes from. */
  lemma LeftOver(g: GraphData, i: nat) returns (j: nat)
    requires Ordered(g) && i < |Fuse(g).operations|
    ensures j < |g.operations| && Fuse(g).operations[i] == FusedAt(g, j) && !IsAbsorbed(g, |g.operations|, j)
  {
    var n := |g.operations|;
    var r, op := FusedOperations(g, n), Fuse(g).operations[i];
    KeptOperationsAre(r, AbsorbedIds(g, n));
    assert op in Fuse(g).operations && op in r;
    j :| 0 <= j < n && r[j] == op;
    AbsorbedIs(g, n, j);
    FusedKeepsNames(g, n, j);
  }

  /** Nothing matches in the fused graph. */
  lemma NoMatchLeft(g: GraphData, i: nat)
    requires Ordered(g) && i < |Fuse(g).operations|
    ensures MatchAt(Fuse(g), i).None?
  {
    var j := LeftOver(g, i);
    FusedIsNoGelu(g, j);
    hide Fuse, Ordered, MatchAt, IsAbsorbed, FusedAt;
    if IsPlainGelu(Fuse(g).operations[i]) {
      MatchStill(g, i, j);
    } else {
      NoGeluNoMatch(Fuse(g), i);
    }
  }

  lemma FusedIsNoGelu(g: GraphData, j: nat)
    requires j < |g.operations|
    ensures IsPlainGelu(FusedAt(g, j)) ==> MatchAt(g, j).None? && FusedAt(g, j) == g.operations[j]
  {
    if MatchAt(g, j).Some? {
      MatchIsChain(g, j);
    }
  }

  lemma {:induction false} NoMatchAtAll(g: GraphData, m: nat)
    requires m <= |g.operations| && forall i | 0 <= i < m :: MatchAt(g, i).None?
    ensures !HasMatch(g, m)
  {
    if m > 0 {
      NoMatchAtAll(g, m - 1);
    }
  }

  /** Fusing a second time changes nothing. */
  lemma FuseTwice(g: GraphData)
    requires Ordered(g)
    ensures Fuse(Fuse(g)) == Fuse(g)
  {
    var h := Fuse(g);
    forall i | 0 <= i < |h.operations| ensures MatchAt(h, i).None? {
      NoMatchLeft(g, i);
    }
    NoMatchAtAll(h, |h.operations|);
    NoMatchNoChange(h);
  }
}
