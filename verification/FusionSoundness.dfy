/** What fusing bias additions and GELUs into projections keeps, and what it does not. */
module FusionSoundness {
  import opened Basics
  import opened GraphIR
  import opened Shapes
  import opened OperationOrder
  import opened Sequential
  import opened Tensors
  import opened Evaluator
  import opened SemanticVerifier
  import opened GraphInvariants
  import opened RewriteUtils
  import opened PassFramework
  import opened Erasure
  import opened Fusion

  // ----- erasing what was absorbed -----

  lemma AbsorbedIsErasable(g: GraphData)
    requires Ordered(g)
    ensures Erasable(FusedGraph(g), AbsorbedIds(g, |g.operations|), AbsorbedValues(g, |g.operations|))
  {
    var n, r := |g.operations|, FusedOperations(g, |g.operations|);
    forall op <- r ensures op.id in AbsorbedIds(g, n) <==> op.output in AbsorbedValues(g, n) {
      var j :| 0 <= j < n && r[j] == op;
      FusedKeepsNames(g, n, j);
      AbsorbedIs(g, n, j);
    }
    forall op, p | op in r && p in r && op.id !in AbsorbedIds(g, n) && UsesResult(op, p)
      ensures p.id !in AbsorbedIds(g, n)
    {
      KeptUsesKept(g, op, p);
    }
    forall id | id in g.inputIds || id in g.outputIds ensures id !in AbsorbedValues(g, n) {
      InterfaceNotAbsorbed(g, n, id);
    }
  }

  lemma KeptUsesKept(g: GraphData, op: Operation, p: Operation)
    requires Ordered(g) && UsesResult(op, p)
    requires op in FusedOperations(g, |g.operations|) && p in FusedOperations(g, |g.operations|)
    ensures p.id in AbsorbedIds(g, |g.operations|) ==> op.id in AbsorbedIds(g, |g.operations|)
  {
    var n, r := |g.operations|, FusedOperations(g, |g.operations|);
    var j :| 0 <= j < n && r[j] == op;
    var q :| 0 <= q < n && r[q] == p;
    FusedKeepsNames(g, n, j);
    FusedKeepsNames(g, n, q);
    AbsorbedIs(g, n, j);
    AbsorbedIs(g, n, q);
    if IsAbsorbed(g, n, q) {
      AbsorbedUnused(g, j, q);
    }
  }

  lemma ChainIsInternal(g: GraphData, i: nat, id: Id)
    requires Ordered(g) && i < |g.operations| && MatchAt(g, i).Some? && (id in g.inputIds || id in g.outputIds)
    ensures var m, ops := MatchAt(g, i).value, g.operations;
      m.base < |ops| && m.add < |ops| && ops[m.base].output != id && ops[m.add].output != id
  {
    MatchIsChain(g, i);
    NotAnInput(g, g.operations[MatchAt(g, i).value.base]);
    NotAnInput(g, g.operations[MatchAt(g, i).value.add]);
  }

  lemma {:induction false} InterfaceNotAbsorbed(g: GraphData, m: nat, id: Id)
    requires Ordered(g) && m <= |g.operations| && (id in g.inputIds || id in g.outputIds)
    ensures id !in AbsorbedValues(g, m)
  {
    hide MatchAt, Ordered;
    if m > 0 {
      InterfaceNotAbsorbed(g, m - 1, id);
      if MatchAt(g, m - 1).Some? {
        ChainIsInternal(g, m - 1, id);
      }
    }
  }

  // ----- meaning -----

  ghost predicate Commutative(f: (Scalar, Scalar) -> Scalar) {
    forall x, y :: f(x, y) == f(y, x)
  }

  lemma BroadcastSymmetric(left: Shape, right: Shape)
    ensures BroadcastShape(left, right) == BroadcastShape(right, left)
  {
    if Compatible(left, right) {
      assert forall offset: nat :: DimFromRight(right, offset) == DimFromRight(right, offset);
    }
    if Compatible(left, right) && Compatible(right, left) {
      assert BroadcastShape(left, right).value == BroadcastShape(right, left).value;
    }
  }

  /** Addition with broadcasting is commutative when the addition of elements is. */
  lemma BinaryCommutes(f: (Scalar, Scalar) -> Scalar, x: Tensor, y: Tensor)
    requires Commutative(f)
    ensures Binary(f, x, y) == Binary(f, y, x)
  {
    BroadcastSymmetric(x.shape, y.shape);
    if Binary(f, x, y).Some? {
      var u, v := Binary(f, x, y).value, Binary(f, y, x).value;
      BroadcastOperands(x.shape, y.shape);
      forall i | 0 <= i < |u.data| ensures u.data[i] == v.data[i] {
        var c := CoordinateOf(u.shape, i);
        assert u.data[i] == BinaryCell(f, x, y, c) && v.data[i] == BinaryCell(f, y, x, c);
      }
      assert u.data == v.data;
    }
  }

  /** A projection without activation is its product. */
  lemma PlainProjectionValue(A: Arith, op: Operation, operands: seq<Tensor>, shape: Shape)
    requires op.IsProjection() && |operands| == 2 && !Activated(op)
    ensures EvaluateOperation(A, op, operands, shape) == Product(A, op.kind.Linear?, operands[0], operands[1])
  {
  }

  /** A projection with any other activation has no value. */
  lemma ActivatedIsContract(A: Arith, op: Operation, operands: seq<Tensor>, shape: Shape)
    requires op.IsProjection() && EvaluateOperation(A, op, operands, shape).Some? && Activated(op)
    ensures FusedContract(op)
  {
  }

  /** A fused projection is the activation of the biased product. */
  lemma FusedProjectionValue(A: Arith, op: Operation, operands: seq<Tensor>, shape: Shape)
    requires op.IsProjection() && |operands| == 3
    requires FusedContract(op)
    requires Product(A, op.kind.Linear?, operands[0], operands[1]).Some?
    requires Binary(A.add, Product(A, op.kind.Linear?, operands[0], operands[1]).value, operands[2]).Some?
    ensures EvaluateOperation(A, op, operands, shape)
         == Some(Map(A.gelu, Binary(A.add, Product(A, op.kind.Linear?, operands[0], operands[1]).value, operands[2]).value))
  {
  }

  lemma GeluValue(A: Arith, op: Operation, operands: seq<Tensor>, shape: Shape)
    requires op.kind.Gelu? && EvaluateOperation(A, op, operands, shape).Some?
    ensures |operands| == 1 && EvaluateOperation(A, op, operands, shape) == Some(Map(A.gelu, operands[0]))
  {
  }

  lemma AddValue(A: Arith, op: Operation, operands: seq<Tensor>, shape: Shape)
    requires op.kind.Add? && EvaluateOperation(A, op, operands, shape).Some?
    ensures |operands| == 2 && EvaluateOperation(A, op, operands, shape) == Binary(A.add, operands[0], operands[1])
  {
  }

  /** The tensors along a chain, in a solution. */
  lemma ChainValues(A: Arith, feeds: Feeds, g: GraphData, env: Env, i: nat, m: Match)
    requires Solves(A, feeds, g, env) && IsChain(g, i, m) && Commutative(A.add) && !FusedContract(g.operations[m.base])
    ensures var base, add, gelu := g.operations[m.base], g.operations[m.add], g.operations[i];
      && base.inputs[0] in env && base.inputs[1] in env && m.bias in env
      && base.output in env && add.output in env && gelu.output in env
      && Product(A, base.kind.Linear?, env[base.inputs[0]], env[base.inputs[1]]) == Some(env[base.output])
      && Binary(A.add, env[base.output], env[m.bias]) == Some(env[add.output])
      && env[gelu.output] == Map(A.gelu, env[add.output])
      && gelu.output in Descriptors(g.values)
      && env[gelu.output].shape == Descriptors(g.values)[gelu.output].shape
  {
    var types := Descriptors(g.values);
    var base, add, gelu := g.operations[m.base], g.operations[m.add], g.operations[i];
    assert Satisfies(Meaning(A, feeds, types), g.operations[m.base], env);
    assert Satisfies(Meaning(A, feeds, types), g.operations[m.add], env);
    assert Satisfies(Meaning(A, feeds, types), g.operations[i], env);
    SatisfiedStep(A, feeds, types, base, env);
    SatisfiedStep(A, feeds, types, add, env);
    SatisfiedStep(A, feeds, types, gelu, env);
    if Activated(base) {
      ActivatedIsContract(A, base, Lookup(env, base.inputs), types[base.output].shape);
    }
    PlainProjectionValue(A, base, Lookup(env, base.inputs), types[base.output].shape);
    AddValue(A, add, Lookup(env, add.inputs), types[add.output].shape);
    GeluValue(A, gelu, Lookup(env, gelu.inputs), types[gelu.output].shape);
    BinaryCommutes(A.add, env[base.output], env[m.bias]);
  }

  /** The rewritten GELU. */
  lemma FusedAtIs(g: GraphData, i: nat)
    requires i < |g.operations| && MatchAt(g, i).Some?
    ensures IsChain(g, i, MatchAt(g, i).value)
    ensures var m, op := MatchAt(g, i).value, FusedAt(g, i);
      && op.kind == g.operations[m.base].kind && op.IsProjection() && FusedContract(op)
      && op.output == g.operations[i].output
      && op.inputs == [g.operations[m.base].inputs[0], g.operations[m.base].inputs[1], m.bias]
  {
    MatchIsChain(g, i);
  }

  /** The fused operation produces, in every solution, what the GELU produced. */
  lemma FusedIsSolved(A: Arith, feeds: Feeds, g: GraphData, env: Env, i: nat)
    requires Solves(A, feeds, g, env) && i < |g.operations| && MatchAt(g, i).Some? && Commutative(A.add)
    requires MatchAt(g, i).value.base < |g.operations| && !FusedContract(g.operations[MatchAt(g, i).value.base])
    ensures Satisfies(Meaning(A, feeds, Descriptors(g.values)), FusedAt(g, i), env)
  {
    FusedAtIs(g, i);
    var m, types, op := MatchAt(g, i).value, Descriptors(g.values), FusedAt(g, i);
    ChainValues(A, feeds, g, env, i, m);
    FusedProjectionValue(A, op, Lookup(env, op.inputs), types[op.output].shape);
    StepFromEvaluation(A, feeds, types, op, env);
  }

  lemma StepFromEvaluation(A: Arith, feeds: Feeds, types: Types, op: Operation, env: Env)
    requires !op.kind.Input? && !op.kind.Parameter? && op.output in types && op.output in env
    requires forall k | 0 <= k < |op.inputs| :: op.inputs[k] in env
    requires EvaluateOperation(A, op, Lookup(env, op.inputs), types[op.output].shape) == Some(env[op.output])
    requires env[op.output].shape == types[op.output].shape
    ensures Satisfies(Meaning(A, feeds, types), op, env)
  {
  }

  /** No chain starts at a projection that carries an activation of its own. */
  ghost predicate PlainBases(g: GraphData) {
    forall i | 0 <= i < |g.operations| && MatchAt(g, i).Some? && MatchAt(g, i).value.base < |g.operations| ::
      !FusedContract(g.operations[MatchAt(g, i).value.base])
  }

  /** Fusing keeps meaning when addition is commutative and no base is activated. */
  lemma FusionKeepsMeaning(A: Arith, g: GraphData)
    requires Ordered(g) && Commutative(A.add) && PlainBases(g)
    ensures KeepsMeaning(A, g, Fuse(g))
  {
    var types, r := Descriptors(g.values), FusedOperations(g, |g.operations|);
    FusedGraphIsOrdered(g);
    AbsorbedIsErasable(g);
    ErasureKeeps(A, FusedGraph(g), AbsorbedIds(g, |g.operations|), AbsorbedValues(g, |g.operations|));
    forall feeds, env | Solves(A, feeds, g, env) ensures Solves(A, feeds, Fuse(g), env) {
      forall i | 0 <= i < |r| ensures Satisfies(Meaning(A, feeds, types), r[i], env) {
        if MatchAt(g, i).Some? {
          MatchIsChain(g, i);
          FusedIsSolved(A, feeds, g, env, i);
        } else {
          assert Satisfies(Meaning(A, feeds, types), g.operations[i], env);
        }
      }
      assert Solves(A, feeds, FusedGraph(g), env);
    }
  }

  // ----- the verifier's judgement -----

  /** A projection one element wide, with a wider bias: the test looks at the sum, not at the projection. */
  predicate NarrowShapes(product: Shape, bias: Shape) {
    product != [] && product[|product| - 1] == 1 && bias != [1]
  }

  predicate Narrow(g: GraphData, m: Match) {
    && m.base < |g.operations| && g.operations[m.base].output in Descriptors(g.values) && m.bias in Descriptors(g.values)
    && NarrowShapes(Descriptors(g.values)[g.operations[m.base].output].shape, Descriptors(g.values)[m.bias].shape)
  }

  /** A bias as wide as the sum leaves the product's shape alone, unless the product is narrow. */
  lemma SumShape(product: Shape, bias: Shape, sum: Shape)
    requires Positive(product) && product != [] && sum != [] && bias == [sum[|sum| - 1]]
    requires BroadcastShape(product, bias) == Some(sum)
    ensures NarrowShapes(product, bias) <==> bias != [product[|product| - 1]]
    ensures !NarrowShapes(product, bias) ==> sum == product
  {
    var rank := |product|;
    assert |sum| == rank;
    assert sum[rank - 1] == BroadcastDim(product, bias, rank, rank - 1);
    assert DimFromRight(product, 0) == product[rank - 1] && DimFromRight(bias, 0) == bias[0];
    assert bias[0] == Max(product[rank - 1], bias[0]);
    if !NarrowShapes(product, bias) {
      forall a | 0 <= a < rank ensures sum[a] == product[a] {
        assert sum[a] == BroadcastDim(product, bias, rank, a);
        assert DimFromRight(product, rank - 1 - a) == product[a];
      }
    }
  }

  lemma DeclaredAs(values: seq<Value>, id: Id)
    requires DistinctValueIds(values) && ValueNamed(values, id).Some?
    ensures id in Descriptors(values) && Descriptors(values)[id] == ValueNamed(values, id).value.descriptor
  {
    ValueNamedIs(values, id);
    var k :| 0 <= k < |values| && values[k] == ValueNamed(values, id).value;
    DescriptorsAt(values, k);
  }

  /** Shapes along a chain of a verified graph. */
  lemma ChainShapes(A: Arith, g: GraphData, i: nat, m: Match)
    requires WellFormedGraph(g) && GraphVerified(A, g) && IsChain(g, i, m)
    ensures var types := Descriptors(g.values);
      var base, add, gelu := g.operations[m.base], g.operations[m.add], g.operations[i];
      && Resolved(types, base) && Resolved(types, add) && Resolved(types, gelu) && m.bias in types
      && OperationOk(A, types, base) && OperationOk(A, types, add) && OperationOk(A, types, gelu)
      && types[gelu.output].shape == types[add.output].shape != []
      && types[m.bias].shape == [types[add.output].shape[|types[add.output].shape| - 1]]
      && BroadcastShape(types[base.output].shape, types[m.bias].shape) == Some(types[add.output].shape)
  {
    var types := Descriptors(g.values);
    var base, add, gelu := g.operations[m.base], g.operations[m.add], g.operations[i];
    assert Resolved(types, g.operations[m.base]) && OperationOk(A, types, g.operations[m.base]);
    assert Resolved(types, g.operations[m.add]) && OperationOk(A, types, g.operations[m.add]);
    assert Resolved(types, g.operations[i]) && OperationOk(A, types, g.operations[i]);
    DeclaredAs(g.values, m.bias);
    DeclaredAs(g.values, add.output);
    BroadcastSymmetric(types[base.output].shape, types[m.bias].shape);
  }

  /** A fused operation passes the verifier unless its projection is narrow. */
  lemma FusedVerified(A: Arith, g: GraphData, i: nat)
    requires WellFormedGraph(g) && GraphVerified(A, g) && i < |g.operations| && MatchAt(g, i).Some?
    ensures Resolved(Descriptors(g.values), FusedAt(g, i))
    ensures OperationOk(A, Descriptors(g.values), FusedAt(g, i)) <==> !Narrow(g, MatchAt(g, i).value)
  {
    MatchIsChain(g, i);
    FusedResolved(g, i);
    var m, types := MatchAt(g, i).value, Descriptors(g.values);
    ChainShapes(A, g, i, m);
    DescriptorsPositive(g.values);
    FusedRules(A, types, g.operations[m.base], g.operations[m.add], g.operations[i], FusedAt(g, i), m.bias);
  }

  lemma FusedRules(A: Arith, types: Types, base: Operation, add: Operation, gelu: Operation, op: Operation, bias: Id)
    requires Resolved(types, base) && Resolved(types, add) && Resolved(types, gelu) && Resolved(types, op)
    requires bias in types && Positive(types[base.output].shape)
    requires IsBase(base) && BiasFree(base) && IsPlainAdd(add) && IsPlainGelu(gelu) && gelu.inputs == [add.output]
    requires add.inputs == [base.output, bias] || add.inputs == [bias, base.output]
    requires OperationOk(A, types, base) && OperationOk(A, types, add) && OperationOk(A, types, gelu)
    requires types[gelu.output].shape == types[add.output].shape != []
    requires types[bias].shape == [types[add.output].shape[|types[add.output].shape| - 1]]
    requires BroadcastShape(types[base.output].shape, types[bias].shape) == Some(types[add.output].shape)
    requires op == FusedOperation(base, add, gelu, bias)
    ensures OperationOk(A, types, op) <==> !NarrowShapes(types[base.output].shape, types[bias].shape)
  {
    ProjectionRank(A, types, base);
    SumShape(types[base.output].shape, types[bias].shape, types[add.output].shape);
    FusedShape(A, types, base, op, bias);
    FusedDType(types, base, add, gelu, op, bias);
  }

  lemma ProjectionRank(A: Arith, types: Types, base: Operation)
    requires Resolved(types, base) && base.IsProjection() && ShapeOk(A, types, base)
    ensures types[base.output].shape != []
  {
  }

  /** What is inferred for the fused projection. */
  lemma FusedShape(A: Arith, types: Types, base: Operation, op: Operation, bias: Id)
    requires Resolved(types, base) && IsBase(base) && ShapeOk(A, types, base) && BiasFree(base) && bias in types
    requires Resolved(types, op) && op.kind == base.kind && op.inputs == base.inputs + [bias]
    requires op.HasFlag("bias", true)
    requires IntegerOf(op.attributes, "in_features") == IntegerOf(base.attributes, "in_features")
    requires IntegerOf(op.attributes, "out_features") == IntegerOf(base.attributes, "out_features")
    ensures types[base.output].shape != []
    ensures var product := types[base.output].shape;
      InferredShape(A, types, op) == if types[bias].shape == [product[|product| - 1]] then Some(product) else None
  {
    assert InputShape(types, op, 0) == InputShape(types, base, 0);
    assert InputShape(types, op, 1) == InputShape(types, base, 1);
    assert InputShape(types, op, 2) == types[bias].shape;
  }

  lemma FusedDType(types: Types, base: Operation, add: Operation, gelu: Operation, op: Operation, bias: Id)
    requires Resolved(types, base) && Resolved(types, add) && Resolved(types, gelu) && Resolved(types, op)
    requires IsBase(base) && IsPlainAdd(add) && IsPlainGelu(gelu) && gelu.inputs == [add.output]
    requires add.inputs == [base.output, bias] || add.inputs == [bias, base.output]
    requires DTypeOk(types, base) && DTypeOk(types, add) && DTypeOk(types, gelu)
    requires op.kind == base.kind && op.inputs == base.inputs + [bias] && op.output == gelu.output
    ensures DTypeOk(types, op)
  {
    var d := types[base.inputs[0]].dtype;
    assert types[base.output].dtype == d;
    assert types[add.inputs[0]].dtype == types[add.inputs[1]].dtype == types[add.output].dtype;
    assert types[gelu.inputs[0]].dtype == types[gelu.output].dtype == Float32;
    forall k | 0 <= k < |op.inputs| ensures types[op.inputs[k]].dtype == d {
      assert k < 2 ==> op.inputs[k] == base.inputs[k];
    }
  }

  /** No chain is narrow. */
  ghost predicate NoNarrowChain(g: GraphData) {
    forall i | 0 <= i < |g.operations| && MatchAt(g, i).Some? :: !Narrow(g, MatchAt(g, i).value)
  }

  lemma FusedGraphVerified(A: Arith, g: GraphData)
    requires WellFormedGraph(g) && GraphVerified(A, g) && NoNarrowChain(g)
    ensures GraphVerified(A, FusedGraph(g))
  {
    var types, r := Descriptors(g.values), FusedOperations(g, |g.operations|);
    forall i | 0 <= i < |r| ensures Resolved(types, r[i]) && OperationOk(A, types, r[i]) {
      assert Resolved(types, g.operations[i]) && OperationOk(A, types, g.operations[i]);
      if MatchAt(g, i).Some? {
        FusedVerified(A, g, i);
      }
    }
  }

  /** A fused operation is not absorbed, so the verifier sees it. */
  lemma FusedStays(g: GraphData, i: nat)
    requires Ordered(g) && i < |g.operations| && MatchAt(g, i).Some?
    ensures FusedAt(g, i) in Fuse(g).operations
  {
    var n, r := |g.operations|, FusedOperations(g, |g.operations|);
    MatchIsChain(g, i);
    GeluNotAbsorbed(g, n, i);
    AbsorbedIs(g, n, i);
    FusedKeepsNames(g, n, i);
    KeptOperationsAre(r, AbsorbedIds(g, n));
    assert r[i] in r;
  }

  lemma {:induction false} GeluNotAbsorbed(g: GraphData, m: nat, i: nat)
    requires m <= |g.operations| && i < |g.operations| && IsPlainGelu(g.operations[i])
    ensures !IsAbsorbed(g, m, i)
  {
    if m > 0 {
      GeluNotAbsorbed(g, m - 1, i);
      if MatchAt(g, m - 1).Some? {
        MatchIsChain(g, m - 1);
      }
    }
  }

  /** The fused graph is accepted by the verifier exactly when no chain was narrow. */
  lemma FusionVerified(A: Arith, g: GraphData)
    requires Ordered(g) && GraphVerified(A, g)
    ensures Ordered(Fuse(g)) && SameInterface(g, Fuse(g))
    ensures GraphVerified(A, Fuse(g)) <==> NoNarrowChain(g)
  {
    FusedGraphIsOrdered(g);
    AbsorbedIsErasable(g);
    ErasureKeeps(A, FusedGraph(g), AbsorbedIds(g, |g.operations|), AbsorbedValues(g, |g.operations|));
    if NoNarrowChain(g) {
      FusedGraphVerified(A, g);
    }
    if GraphVerified(A, Fuse(g)) {
      forall i | 0 <= i < |g.operations| && MatchAt(g, i).Some? ensures !Narrow(g, MatchAt(g, i).value) {
        AcceptedChainNotNarrow(A, g, i);
      }
    }
  }

  lemma AcceptedChainNotNarrow(A: Arith, g: GraphData, i: nat)
    requires Ordered(g) && GraphVerified(A, g) && GraphVerified(A, Fuse(g))
    requires i < |g.operations| && MatchAt(g, i).Some?
    ensures !Narrow(g, MatchAt(g, i).value)
  {
    var h, op := Fuse(g), FusedAt(g, i);
    FusedStays(g, i);
    FusedVerified(A, g, i);
    var k :| 0 <= k < |h.operations| && h.operations[k] == op;
    assert Resolved(Descriptors(h.values), h.operations[k]) && OperationOk(A, Descriptors(h.values), h.operations[k]);
    KeptDescriptors(g.values, AbsorbedValues(g, |g.operations|));
    RulesByTypes(A, Descriptors(h.values), Descriptors(g.values), op);
  }

  // ----- when fusing an activated projection changes the result -----

  lemma IncrementsDiffer(p: Tensor, b: Tensor)
    requires BroadcastShape(p.shape, b.shape).Some?
    ensures var A := Increments();
      && Binary(A.add, p, b).Some? && Binary(A.add, Map(A.gelu, p), b).Some?
      && Map(A.gelu, Binary(A.add, Map(A.gelu, p), b).value) != Map(A.gelu, Binary(A.add, p, b).value)
  {
    var A := Increments();
    var u, v := Binary(A.add, Map(A.gelu, p), b).value, Binary(A.add, p, b).value;
    BroadcastOperands(p.shape, b.shape);
    CountPositive(u.shape);
    var c := CoordinateOf(u.shape, 0);
    ProjectInBounds(u.shape, p.shape, c);
    EncodeBound(p.shape, Project(c, p.shape));
    assert u.data[0] == BinaryCell(A.add, Map(A.gelu, p), b, c);
    assert v.data[0] == BinaryCell(A.add, p, b, c);
    assert u.data[0].bits == v.data[0].bits + 1;
    assert Map(A.gelu, u).data[0] != Map(A.gelu, v).data[0];
  }

  /** The tensors along a chain that starts at an activated projection, in a solution. */
  lemma ActivatedChainValues(A: Arith, feeds: Feeds, g: GraphData, env: Env, i: nat, m: Match)
    requires Solves(A, feeds, g, env) && IsChain(g, i, m) && Commutative(A.add) && FusedContract(g.operations[m.base])
    ensures var base, add, gelu := g.operations[m.base], g.operations[m.add], g.operations[i];
      && base.inputs[0] in env && base.inputs[1] in env && m.bias in env && gelu.output in env
      && var p := Product(A, base.kind.Linear?, env[base.inputs[0]], env[base.inputs[1]]);
      && p.Some? && Binary(A.add, Map(A.gelu, p.value), env[m.bias]).Some?
      && env[gelu.output] == Map(A.gelu, Binary(A.add, Map(A.gelu, p.value), env[m.bias]).value)
  {
    var types := Descriptors(g.values);
    var base, add, gelu := g.operations[m.base], g.operations[m.add], g.operations[i];
    assert Satisfies(Meaning(A, feeds, types), g.operations[m.base], env);
    assert Satisfies(Meaning(A, feeds, types), g.operations[m.add], env);
    assert Satisfies(Meaning(A, feeds, types), g.operations[i], env);
    SatisfiedStep(A, feeds, types, base, env);
    SatisfiedStep(A, feeds, types, add, env);
    SatisfiedStep(A, feeds, types, gelu, env);
    ActivatedProjectionValue(A, base, Lookup(env, base.inputs), types[base.output].shape);
    AddValue(A, add, Lookup(env, add.inputs), types[add.output].shape);
    GeluValue(A, gelu, Lookup(env, gelu.inputs), types[gelu.output].shape);
    BinaryCommutes(A.add, env[base.output], env[m.bias]);
  }

  lemma ActivatedProjectionValue(A: Arith, op: Operation, operands: seq<Tensor>, shape: Shape)
    requires op.IsProjection() && |operands| == 2 && FusedContract(op) && EvaluateOperation(A, op, operands, shape).Some?
    ensures Product(A, op.kind.Linear?, operands[0], operands[1]).Some?
    ensures EvaluateOperation(A, op, operands, shape)
         == Some(Map(A.gelu, Product(A, op.kind.Linear?, operands[0], operands[1]).value))
  {
  }

  /** With the counterexample arithmetic, no solution satisfies what such a chain is fused into ... */
  lemma ActivatedFusedNotSatisfied(feeds: Feeds, g: GraphData, env: Env, i: nat, types: Types)
    requires Solves(Increments(), feeds, g, env) && i < |g.operations| && MatchAt(g, i).Some?
    requires MatchAt(g, i).value.base < |g.operations| && FusedContract(g.operations[MatchAt(g, i).value.base])
    ensures !Satisfies(Meaning(Increments(), feeds, types), FusedAt(g, i), env)
  {
    FusedAtIs(g, i);
    ActivatedChainValues(Increments(), feeds, g, env, i, MatchAt(g, i).value);
    var op := FusedAt(g, i);
    hide FusedAt, MatchAt, IsChain, Solves, FusedContract;
    FusedNotSatisfied(feeds, types, op, env);
  }

  /** ... so none solves the fused graph. */
  lemma ActivatedChainBreaks(feeds: Feeds, g: GraphData, env: Env, i: nat)
    requires Ordered(g) && Solves(Increments(), feeds, g, env) && i < |g.operations| && MatchAt(g, i).Some?
    requires MatchAt(g, i).value.base < |g.operations| && FusedContract(g.operations[MatchAt(g, i).value.base])
    ensures !Solves(Increments(), feeds, Fuse(g), env)
  {
    FusedStays(g, i);
    ActivatedFusedNotSatisfied(feeds, g, env, i, Descriptors(Fuse(g).values));
    hide *;
    var h, op := Fuse(g), FusedAt(g, i);
    var k :| 0 <= k < |h.operations| && h.operations[k] == op;
    BrokenAt(Increments(), feeds, h, k, env);
  }

  lemma BrokenAt(A: Arith, feeds: Feeds, g: GraphData, k: nat, env: Env)
    requires k < |g.operations| && !Satisfies(Meaning(A, feeds, Descriptors(g.values)), g.operations[k], env)
    ensures !Solves(A, feeds, g, env)
  {
  }

  lemma FusedNotSatisfied(feeds: Feeds, types: Types, op: Operation, env: Env)
    requires op.IsProjection() && |op.inputs| == 3 && FusedContract(op)
    requires forall k | 0 <= k < 3 :: op.inputs[k] in env
    requires Product(Increments(), op.kind.Linear?, env[op.inputs[0]], env[op.inputs[1]]).Some?
    requires var A := Increments();
      var p := Product(A, op.kind.Linear?, env[op.inputs[0]], env[op.inputs[1]]).value;
      && Binary(A.add, Map(A.gelu, p), env[op.inputs[2]]).Some?
      && op.output in env && env[op.output] == Map(A.gelu, Binary(A.add, Map(A.gelu, p), env[op.inputs[2]]).value)
    ensures !Satisfies(Meaning(Increments(), feeds, types), op, env)
  {
    FusedDiffers(op, Lookup(env, op.inputs), op.output, env);
    SatisfiedValue(Increments(), feeds, types, op, env);
  }

  /** The fused operation computes something else than the chain did. */
  lemma FusedDiffers(op: Operation, operands: seq<Tensor>, id: Id, env: Env)
    requires op.IsProjection() && |operands| == 3 && FusedContract(op)
    requires Product(Increments(), op.kind.Linear?, operands[0], operands[1]).Some?
    requires var A := Increments();
      var p := Product(A, op.kind.Linear?, operands[0], operands[1]).value;
      && Binary(A.add, Map(A.gelu, p), operands[2]).Some?
      && id in env && env[id] == Map(A.gelu, Binary(A.add, Map(A.gelu, p), operands[2]).value)
    ensures forall shape :: EvaluateOperation(Increments(), op, operands, shape) != Some(env[id])
  {
    var p := Product(Increments(), op.kind.Linear?, operands[0], operands[1]).value;
    IncrementsDiffer(p, operands[2]);
    forall shape ensures EvaluateOperation(Increments(), op, operands, shape) != Some(env[id]) {
      FusedProjectionValue(Increments(), op, operands, shape);
    }
  }

  lemma SatisfiedValue(A: Arith, feeds: Feeds, types: Types, op: Operation, env: Env)
    requires !op.kind.Input? && !op.kind.Parameter? && forall k | 0 <= k < |op.inputs| :: op.inputs[k] in env
    ensures Satisfies(Meaning(A, feeds, types), op, env) ==>
      op.output in types && op.output in env
      && EvaluateOperation(A, op, Lookup(env, op.inputs), types[op.output].shape) == Some(env[op.output])
  {
  }

  /**
   Fusing a graph that evaluates keeps its meaning under every commutative addition exactly when no
   chain starts at a projection that is itself activated: the rewritten attributes replace that
   activation instead of composing with it.
   */
  lemma FusionExactCondition(A: Arith, feeds: Feeds, g: GraphData)
    requires Ordered(g) && EvaluateData(A, feeds, g).Some?
    ensures (forall B: Arith | Commutative(B.add) :: KeepsMeaning(B, g, Fuse(g))) <==> PlainBases(g)
  {
    if PlainBases(g) {
      forall B: Arith | Commutative(B.add) ensures KeepsMeaning(B, g, Fuse(g)) {
        FusionKeepsMeaning(B, g);
      }
    } else {
      var i: nat :| i < |g.operations| && MatchAt(g, i).Some? && MatchAt(g, i).value.base < |g.operations|
        && FusedContract(g.operations[MatchAt(g, i).value.base]);
      EvaluationIgnoresArithmetic(A, Increments(), feeds, Descriptors(g.values), g.operations, |g.operations|);
      EvaluationSolves(Increments(), feeds, g);
      ActivatedChainBreaks(feeds, g, EvaluateData(Increments(), feeds, g).value, i);
      assert Commutative(Increments().add);
    }
  }
}
