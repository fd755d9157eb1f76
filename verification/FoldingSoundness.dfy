/** When constant folding is right, and what it folds, without the folder (cpp/src/passes/constant_folding_pass.cpp). */
module FoldingSoundness {
  import opened Basics
  import opened GraphIR
  import opened OperationOrder
  import opened Tensors
  import opened Evaluator
  import opened SemanticVerifier
  import opened GraphInvariants
  import opened RewriteUtils
  import opened PassFramework
  import opened ConstantFolding

  // ----- right literals -----

  /**
   The double-precision operators of the folder do what the operators on elements do, and 64-bit integers
   stand for themselves. A property of the arithmetic alone.
   */
  ghost predicate FolderAgrees(A: Arith) {
    && (forall x, y | IsNumber(x) && IsNumber(y) ::
          A.literal(JFloat(A.foldAdd(x, y))) == A.add(A.literal(x), A.literal(y)))
    && (forall x, y | IsNumber(x) && IsNumber(y) ::
          A.literal(JFloat(A.foldMul(x, y))) == A.mul(A.literal(x), A.literal(y)))
    && (forall x, y | IsNumber(x) && IsNumber(y) && !A.isZero(y) ::
          A.literal(JFloat(A.foldDiv(x, y))) == A.div(A.literal(x), A.literal(y)))
    && (forall x | IsNumber(x) :: A.literal(JFloat(A.foldGelu(x))) == A.gelu(A.literal(x)))
    && (forall m, n | InInt64(m + n) :: A.literal(JInt(m + n)) == A.add(A.literal(JInt(m)), A.literal(JInt(n))))
    && (forall m, n | InInt64(m * n) :: A.literal(JInt(m * n)) == A.mul(A.literal(JInt(m)), A.literal(JInt(n))))
  }

  lemma LiteralIsRight(A: Arith, kind: OperationType, xs: seq<Json>)
    requires FolderAgrees(A) && FoldScalar(A, kind, xs).Some?
    ensures A.literal(FoldScalar(A, kind, xs).value) == ElementResult(A, kind, xs)
  {
    if |xs| == 2 && xs[0].JInt? && xs[1].JInt? {
      var m, n := xs[0].integer, xs[1].integer;
      assert xs[0] == JInt(m) && xs[1] == JInt(n);
      assert InInt64(m + n) ==> A.literal(JInt(m + n)) == A.add(A.literal(JInt(m)), A.literal(JInt(n)));
      assert InInt64(m * n) ==> A.literal(JInt(m * n)) == A.mul(A.literal(JInt(m)), A.literal(JInt(n)));
    }
  }

  /** Where the folder agrees with the operators, every fold on every graph is right. */
  lemma {:induction false} AgreementIsSound(A: Arith, g: GraphData, m: nat)
    requires FolderAgrees(A) && m <= |g.operations|
    ensures SoundFolds(A, g, m)
  {
    if m > 0 {
      AgreementIsSound(A, g, m - 1);
      var h := FoldSweep(A, g, m - 1);
      var op := h.operations[m - 1];
      if Folded(A, Descriptors(h.values), h.operations, op).Some? {
        LiteralIsRight(A, op.kind, ConstantOperands(h.operations, op.inputs).value);
      }
    }
  }

  /** ... and folding keeps the meaning. */
  lemma AgreementKeepsMeaning(A: Arith, g: GraphData)
    requires FolderAgrees(A)
    ensures KeepsMeaning(A, g, FoldSweep(A, g, |g.operations|))
  {
    AgreementIsSound(A, g, |g.operations|);
    SoundSweepKeepsMeaning(A, g, |g.operations|);
  }

  function NumberIn(j: Json): Scalar {
    if j.JInt? then Scalar.Scalar(j.integer) else if j.JFloat? then j.number else Scalar.Scalar(0)
  }

  /** Integers that stand for themselves: an arithmetic with which the folder agrees. */
  function Integers(): Arith {
    var A := Increments();
    A.(literal := NumberIn, foldAdd := (x: Json, y: Json) => A.add(NumberIn(x), NumberIn(y)),
       foldMul := (x: Json, y: Json) => A.mul(NumberIn(x), NumberIn(y)),
       foldDiv := (x: Json, y: Json) => A.div(NumberIn(x), NumberIn(y)),
       foldGelu := (x: Json) => A.gelu(NumberIn(x)))
  }

  lemma IntegersFoldRight(x: Json, y: Json)
    requires IsNumber(x) && IsNumber(y)
    ensures var A := Integers();
      && A.literal(JFloat(A.foldAdd(x, y))) == A.add(A.literal(x), A.literal(y))
      && A.literal(JFloat(A.foldMul(x, y))) == A.mul(A.literal(x), A.literal(y))
      && A.literal(JFloat(A.foldDiv(x, y))) == A.div(A.literal(x), A.literal(y))
      && A.literal(JFloat(A.foldGelu(x))) == A.gelu(A.literal(x))
  {
  }

  lemma IntegersAddUp(m: int, n: int, sum: int, product: int)
    requires sum == m + n && product == m * n
    ensures var A := Integers();
      && A.literal(JInt(sum)) == A.add(A.literal(JInt(m)), A.literal(JInt(n)))
      && A.literal(JInt(product)) == A.mul(A.literal(JInt(m)), A.literal(JInt(n)))
  {
  }

  lemma FolderCanAgree()
    ensures FolderAgrees(Integers())
  {
    hide Integers;
    var A := Integers();
    forall x, y | IsNumber(x) && IsNumber(y)
      ensures A.literal(JFloat(A.foldAdd(x, y))) == A.add(A.literal(x), A.literal(y))
      ensures A.literal(JFloat(A.foldMul(x, y))) == A.mul(A.literal(x), A.literal(y))
      ensures A.literal(JFloat(A.foldDiv(x, y))) == A.div(A.literal(x), A.literal(y))
      ensures A.literal(JFloat(A.foldGelu(x))) == A.gelu(A.literal(x))
    {
      IntegersFoldRight(x, y);
    }
    forall x | IsNumber(x) ensures A.literal(JFloat(A.foldGelu(x))) == A.gelu(A.literal(x)) {
      IntegersFoldRight(x, x);
    }
    forall m: int, n: int
      ensures A.literal(JInt(m + n)) == A.add(A.literal(JInt(m)), A.literal(JInt(n)))
      ensures A.literal(JInt(m * n)) == A.mul(A.literal(JInt(m)), A.literal(JInt(n)))
    {
      IntegersAddUp(m, n, m + n, m * n);
    }
  }

  // ----- what folds -----

  /** A constant of the graph gives this scalar literal to the value. */
  ghost predicate HasLiteral(ops: seq<Operation>, id: Id, x: Json) {
    exists op <- ops ::
      op.output == id && op.kind.Constant? && "value" in op.attributes && op.attributes["value"] == x
      && !x.JArray? && !x.JObject?
  }

  /** GELU of a number; sums and products of numbers, of integers only if they fit; quotients by what is not zero. */
  predicate LiteralsFold(A: Arith, kind: OperationType, xs: seq<Json>) {
    && (forall x <- xs :: IsNumber(x))
    && match kind
       case Gelu => |xs| == 1
       case Add => |xs| == 2 && (xs[0].JInt? && xs[1].JInt? ==> InInt64(xs[0].integer + xs[1].integer))
       case Multiply => |xs| == 2 && (xs[0].JInt? && xs[1].JInt? ==> InInt64(xs[0].integer * xs[1].integer))
       case Divide => |xs| == 2 && !A.isZero(xs[1])
       case _ => false
  }

  ghost predicate HaveLiterals(ops: seq<Operation>, ids: seq<Id>, xs: seq<Json>) {
    |xs| == |ids| && forall k | 0 <= k < |ids| :: HasLiteral(ops, ids[k], xs[k])
  }

  /** A scalar operation without side effect whose operands are such literals. */
  ghost predicate Folds(A: Arith, g: GraphData, op: Operation) {
    && !op.HasSideEffect() && op.output in Descriptors(g.values) && Descriptors(g.values)[op.output].shape == []
    && exists xs :: HaveLiterals(g.operations, op.inputs, xs) && LiteralsFold(A, op.kind, xs)
  }

  lemma LiteralFound(ops: seq<Operation>, id: Id)
    requires DistinctOutputs(ops)
    ensures forall x :: HasLiteral(ops, id, x) <==> ConstantOperand(ops, id) == Some(x)
  {
    forall x ensures HasLiteral(ops, id, x) <==> ConstantOperand(ops, id) == Some(x) {
      if HasLiteral(ops, id, x) {
        var op :| op in ops && op.output == id && op.kind.Constant? && "value" in op.attributes
          && op.attributes["value"] == x && !x.JArray? && !x.JObject?;
        var k :| 0 <= k < |ops| && ops[k] == op;
        FindProducerAt(ops, k);
      }
      if ConstantOperand(ops, id) == Some(x) {
        FoundProducer(ops, id);
      }
    }
  }

  lemma {:induction false} LiteralsFound(ops: seq<Operation>, ids: seq<Id>, xs: seq<Json>)
    requires DistinctOutputs(ops)
    ensures HaveLiterals(ops, ids, xs) <==> ConstantOperands(ops, ids) == Some(xs)
  {
    hide HasLiteral, ConstantOperand;
    if ids != [] {
      var m := |ids| - 1;
      LiteralFound(ops, ids[m]);
      if |xs| == |ids| {
        LiteralsFound(ops, ids[..m], xs[..m]);
        assert xs == xs[..m] + [xs[m]];
        assert HaveLiterals(ops, ids, xs) <==> HaveLiterals(ops, ids[..m], xs[..m]) && HasLiteral(ops, ids[m], xs[m]);
        if ConstantOperands(ops, ids) == Some(xs) {
          var earlier := ConstantOperands(ops, ids[..m]).value;
          assert (earlier + [xs[m]])[..|earlier|] == earlier;
        }
      } else {
        CollectedLength(ops, ids);
      }
    }
  }

  lemma {:induction false} CollectedLength(ops: seq<Operation>, ids: seq<Id>)
    ensures ConstantOperands(ops, ids).Some? ==> |ConstantOperands(ops, ids).value| == |ids|
  {
    if ids != [] {
      CollectedLength(ops, ids[..|ids| - 1]);
    }
  }

  lemma LiteralsFoldExactly(A: Arith, kind: OperationType, xs: seq<Json>)
    ensures FoldableKind(kind) && FoldScalar(A, kind, xs).Some? <==> LiteralsFold(A, kind, xs)
  {
    if |xs| == 2 {
      assert xs[0] in xs && xs[1] in xs;
    }
    if |xs| == 1 {
      assert xs[0] in xs;
    }
  }

  /** Exactly these operations fold. */
  lemma FoldsExactly(A: Arith, g: GraphData, op: Operation)
    requires DistinctOutputs(g.operations)
    ensures Folded(A, Descriptors(g.values), g.operations, op).Some? <==> Folds(A, g, op)
  {
    var found := ConstantOperands(g.operations, op.inputs);
    forall xs ensures HaveLiterals(g.operations, op.inputs, xs) <==> found == Some(xs) {
      LiteralsFound(g.operations, op.inputs, xs);
    }
    if found.Some? {
      LiteralsFoldExactly(A, op.kind, found.value);
    }
    hide FoldScalar, LiteralsFold, HaveLiterals, ConstantOperands, Descriptors;
    if Folds(A, g, op) {
      var xs :| HaveLiterals(g.operations, op.inputs, xs) && LiteralsFold(A, op.kind, xs);
      assert found == Some(xs);
    }
  }

  /** Integers fold to the integer. */
  lemma IntegersFold(A: Arith, g: GraphData, op: Operation, m: int, n: int)
    requires DistinctOutputs(g.operations) && Folds(A, g, op)
    requires HaveLiterals(g.operations, op.inputs, [JInt(m), JInt(n)])
    ensures op.kind.Add? ==> Folded(A, Descriptors(g.values), g.operations, op) == Some(JInt(m + n))
    ensures op.kind.Multiply? ==> Folded(A, Descriptors(g.values), g.operations, op) == Some(JInt(m * n))
  {
    FoldsExactly(A, g, op);
    LiteralsFound(g.operations, op.inputs, [JInt(m), JInt(n)]);
    hide Descriptors, ConstantOperands, HaveLiterals;
  }
}
