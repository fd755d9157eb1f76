/** The fusion finds every chain: what it rewrites, without its matcher (cpp/src/passes/fuse_bias_gelu_pass.cpp). */
module FusionChains {
  import opened Basics
  import opened GraphIR
  import opened Shapes
  import opened OperationOrder
  import opened Evaluator
  import opened SemanticVerifier
  import opened GraphInvariants
  import opened RewriteUtils
  import opened PassFramework
  import opened Erasure
  import opened Fusion
  import FusionTwice

  // ----- chains -----

  /** Used by one operand of one operation, and not declared. */
  predicate UsedOnce(g: GraphData, id: Id) {
    UseCount(g.operations, id) == 1 && id !in g.outputIds
  }

  /** A parameter or constant with one element for each column of the sum. */
  ghost predicate IsBias(g: GraphData, bias: Id, sum: Id) {
    exists b <- g.values, s <- g.values ::
      && b.id == bias && s.id == sum && (b.kind.ParameterValue? || b.kind.ConstantValue?)
      && s.descriptor.shape != []
      && b.descriptor.shape == [s.descriptor.shape[|s.descriptor.shape| - 1]]
  }

  /**
   Exact GELU of the sum, in either order, of a bias and a projection without bias; nothing else uses the sum
   or the product, nothing has a side effect.
   */
  ghost predicate BiasGeluChain(g: GraphData, i: nat, m: Match) {
    && i < |g.operations| && m.base < |g.operations| && m.add < |g.operations|
    && var base, add, gelu := g.operations[m.base], g.operations[m.add], g.operations[i];
    && gelu.kind.Gelu? && gelu.inputs == [add.output]
    && ("approximate" in gelu.attributes ==> gelu.attributes["approximate"] == JString("none"))
    && add.kind.Add? && (add.inputs == [base.output, m.bias] || add.inputs == [m.bias, base.output])
    && (base.kind.MatMul? || (base.kind.Linear? && "bias" in base.attributes && base.attributes["bias"] == JBool(false)))
    && |base.inputs| == 2
    && !base.HasSideEffect() && !add.HasSideEffect() && !gelu.HasSideEffect()
    && UsedOnce(g, add.output) && UsedOnce(g, base.output) && IsBias(g, m.bias, add.output)
  }

  lemma BiasSpelled(g: GraphData, bias: Id, sum: Id)
    requires DistinctValueIds(g.values)
    ensures BiasMatches(g.values, bias, sum) <==> IsBias(g, bias, sum)
  {
    ValueNamedIs(g.values, bias);
    ValueNamedIs(g.values, sum);
    if IsBias(g, bias, sum) {
      var b, s :| b in g.values && s in g.values && b.id == bias && s.id == sum
        && (b.kind.ParameterValue? || b.kind.ConstantValue?) && s.descriptor.shape != []
        && b.descriptor.shape == [s.descriptor.shape[|s.descriptor.shape| - 1]];
      var j :| 0 <= j < |g.values| && g.values[j] == b;
      var k :| 0 <= k < |g.values| && g.values[k] == s;
      ValueNamedAt(g.values, j);
      ValueNamedAt(g.values, k);
    }
  }

  lemma ChainSpelled(g: GraphData, i: nat, m: Match)
    requires DistinctValueIds(g.values)
    ensures IsChain(g, i, m) <==> BiasGeluChain(g, i, m)
  {
    if i < |g.operations| && m.base < |g.operations| && m.add < |g.operations| {
      BiasSpelled(g, m.bias, g.operations[m.add].output);
      hide BiasMatches, IsBias, UseCount;
      var gelu := g.operations[i];
      assert |gelu.inputs| == 1 ==> gelu.inputs == [gelu.inputs[0]];
    }
  }

  // ----- the matcher finds them all -----

  /** The matcher finds exactly the chains. */
  lemma MatchesAreChains(g: GraphData, i: nat, m: Match)
    requires WellFormedGraph(g) && i < |g.operations|
    ensures MatchAt(g, i) == Some(m) <==> BiasGeluChain(g, i, m)
  {
    ChainSpelled(g, i, m);
    hide MatchAt, BiasGeluChain, IsChain, WellFormedGraph;
    if MatchAt(g, i) == Some(m) {
      MatchIsChain(g, i);
    }
    if IsChain(g, i, m) {
      ChainIsMatched(g, i, m);
    }
  }

  ghost predicate EndsChain(g: GraphData, i: nat) {
    exists m :: BiasGeluChain(g, i, m)
  }

  ghost predicate HasChain(g: GraphData) {
    exists i: nat :: EndsChain(g, i)
  }

  lemma MatchedIsEnd(g: GraphData, i: nat)
    requires WellFormedGraph(g) && i < |g.operations|
    ensures MatchAt(g, i).Some? <==> EndsChain(g, i)
  {
    forall m ensures MatchAt(g, i) == Some(m) <==> BiasGeluChain(g, i, m) {
      MatchesAreChains(g, i, m);
    }
    hide MatchAt, BiasGeluChain, WellFormedGraph;
  }

  /** The pass finds something exactly when the graph has a chain. */
  lemma MatchIsChainSomewhere(g: GraphData)
    requires WellFormedGraph(g)
    ensures HasMatch(g, |g.operations|) <==> HasChain(g)
  {
    MatchSomewhere(g);
    forall i: nat, m ensures IsChain(g, i, m) <==> BiasGeluChain(g, i, m) {
      ChainSpelled(g, i, m);
    }
    hide IsChain, BiasGeluChain, WellFormedGraph;
    if ExistsChain(g) {
      var i: nat, m :| IsChain(g, i, m);
      assert EndsChain(g, i);
    }
    if HasChain(g) {
      var i: nat :| EndsChain(g, i);
      var m :| BiasGeluChain(g, i, m);
      assert IsChain(g, i, m);
    }
  }

  // ----- what the pass leaves -----

  /** Operation j is the projection or the addition of some chain. */
  ghost predicate InChain(g: GraphData, j: nat) {
    exists i: nat, m :: BiasGeluChain(g, i, m) && (m.base == j || m.add == j)
  }

  /** What becomes of the GELU of a chain: the projection with the bias and the activation. */
  ghost predicate IsFusion(g: GraphData, i: nat, m: Match, op: Operation)
    requires BiasGeluChain(g, i, m)
  {
    var base, add, gelu := g.operations[m.base], g.operations[m.add], g.operations[i];
    && op.id == gelu.id && op.output == gelu.output && op.kind == base.kind && op.inputs == base.inputs + [m.bias]
    && op.attributes.Keys == base.attributes.Keys
       + {"bias", "fused_activation", "fused_activation_approximate", "fused_from"}
    && op.attributes["bias"] == JBool(true) && op.attributes["fused_activation"] == JString("GELU")
    && op.attributes["fused_activation_approximate"] == JString("none")
    && op.attributes["fused_from"] == JArray([JString(base.id), JString(add.id), JString(gelu.id)])
    && forall name <- base.attributes
         | name !in {"bias", "fused_activation", "fused_activation_approximate", "fused_from"} ::
           op.attributes[name] == base.attributes[name]
  }

  /** Operation j of the original, as it is after the pass. */
  ghost predicate Becomes(g: GraphData, j: nat, op: Operation) {
    && j < |g.operations| && !InChain(g, j)
    && (!EndsChain(g, j) ==> op == g.operations[j])
    && forall m | BiasGeluChain(g, j, m) :: IsFusion(g, j, m, op)
  }

  lemma AbsorbedInChain(g: GraphData, j: nat)
    requires WellFormedGraph(g) && j < |g.operations|
    ensures IsAbsorbed(g, |g.operations|, j) <==> InChain(g, j)
  {
    var n := |g.operations|;
    if IsAbsorbed(g, n, j) {
      var i := AbsorbedBy(g, n, j);
      MatchesAreChains(g, i, MatchAt(g, i).value);
    }
    if InChain(g, j) {
      var i: nat, m :| BiasGeluChain(g, i, m) && (m.base == j || m.add == j);
      MatchesAreChains(g, i, m);
      ChainAbsorbed(g, n, i);
    }
  }

  lemma FusedBecomes(g: GraphData, j: nat, op: Operation)
    requires WellFormedGraph(g) && j < |g.operations| && !InChain(g, j)
    ensures op == FusedAt(g, j) <==> Becomes(g, j, op)
  {
    MatchedIsEnd(g, j);
    forall m ensures MatchAt(g, j) == Some(m) <==> BiasGeluChain(g, j, m) {
      MatchesAreChains(g, j, m);
    }
    if EndsChain(g, j) {
      var m :| BiasGeluChain(g, j, m);
      FusionIs(g, j, m, op);
      MatchIsChain(g, j);
    }
    hide WellFormedGraph, InChain, MatchAt, BiasGeluChain, IsFusion, FusedOperation;
  }

  lemma FusionIs(g: GraphData, i: nat, m: Match, op: Operation)
    requires BiasGeluChain(g, i, m)
    ensures op == FusedOperation(g.operations[m.base], g.operations[m.add], g.operations[i], m.bias)
      <==> IsFusion(g, i, m, op)
  {
    var base, add, gelu := g.operations[m.base], g.operations[m.add], g.operations[i];
    var f := FusedOperation(base, add, gelu, m.bias);
    assert IsFusion(g, i, m, f);
    if IsFusion(g, i, m, op) {
      assert op.attributes == f.attributes;
    }
  }

  /** The operations of the fused graph: chains become their fusion, their parts go, the rest stays. */
  lemma FuseExactly(g: GraphData, op: Operation)
    requires WellFormedGraph(g)
    ensures op in Fuse(g).operations <==> exists j: nat :: Becomes(g, j, op)
  {
    var n, fused := |g.operations|, FusedOperations(g, |g.operations|);
    KeptOperationsAre(fused, AbsorbedIds(g, n));
    forall j: nat | j < n
      ensures fused[j].id !in AbsorbedIds(g, n) <==> !InChain(g, j)
      ensures fused[j] == FusedAt(g, j)
      ensures !InChain(g, j) ==> (op == FusedAt(g, j) <==> Becomes(g, j, op))
    {
      FusedKeepsNames(g, n, j);
      AbsorbedIs(g, n, j);
      AbsorbedInChain(g, j);
      if !InChain(g, j) {
        FusedBecomes(g, j, op);
      }
    }
    hide FusedOperations, InChain, Becomes, WellFormedGraph, AbsorbedIds, FusedAt;
    if op in Fuse(g).operations {
      var j: nat :| j < n && fused[j] == op;
      assert Becomes(g, j, op);
    }
    if j: nat :| Becomes(g, j, op) {
      BecomesFacts(g, j, op);
      assert fused[j] in fused;
    }
  }

  lemma BecomesFacts(g: GraphData, j: nat, op: Operation)
    requires Becomes(g, j, op)
    ensures j < |g.operations| && !InChain(g, j)
  {
  }

  /** No chain is left. */
  lemma NoChainLeft(g: GraphData)
    requires Ordered(g) && WellFormedGraph(Fuse(g))
    ensures !HasChain(Fuse(g))
  {
    var h := Fuse(g);
    forall i: nat | i < |h.operations| ensures !EndsChain(h, i) {
      FusionTwice.NoMatchLeft(g, i);
      MatchedIsEnd(h, i);
    }
    hide Fuse;
    forall i: nat | EndsChain(h, i) ensures i < |h.operations| {
    }
  }
}
