/** cpp/src/passes/pass_manager.cpp */
module PassManagement {
  import opened Basics
  import opened GraphIR
  import opened Kahn
  import opened OperationOrder
  import opened Sequential
  import opened Tensors
  import opened Evaluator
  import opened SemanticVerifier
  import opened GraphInvariants
  import opened RewriteUtils
  import opened PassFramework
  import opened CopyElimination
  import opened Canonicalisation
  import opened ConstantFolding
  import opened ReshapeElimination
  import TransposeElimination
  import opened DeadCodeElimination
  import opened Fusion
  import opened FusionSoundness
  import opened PassPipeline
  import opened PassResults

  datatype Stage = PreVerification | Running | PostVerification

  /** PassExecutionRecord, without the counts of diagnostics and nodes. */
  datatype Execution = Execution(pass: Pass, stage: Stage, success: bool, changed: bool)

  /** PassManagerResult, without diagnostics and rewrite records. */
  datatype PassManagerResult = PassManagerResult(status: Status, changed: bool, executions: seq<Execution>)

  // ----- one pass -----

  /** Canonicalisation of an ordered graph never meets a cycle. */
  lemma CanonicalisationSucceeds(g: GraphData)
    requires Ordered(g)
    ensures OperandsProduced(g.operations)
    ensures !Cyclic(OrderEdges(CanonicalOperations(Descriptors(g.values), g.operations), true))
  {
    WellFormedOperandsProduced(g);
    CanonicalKeepsOperations(Descriptors(g.values), g.operations);
    OrderedIsAcyclic(CanonicalOperations(Descriptors(g.values), g.operations));
  }

  method RunVerifier(A: Arith, graph: Graph) returns (s: Status)
    requires Ordered(graph.Data())
    ensures s == Success <==> GraphVerified(A, graph.Data())
    ensures s != Success ==> s == Failure(FailedPrecondition)
  {
    assert forall i | 0 <= i < |graph.operations| :: Resolved(Descriptors(graph.values), graph.operations[i]);
    s := VerifyGraph(A, graph.values, graph.operations);
  }

  /** `run` of the given pass. On what the verifier accepts no pass fails, and each reports a change exactly. */
  method RunPass(A: Arith, pass: Pass, graph: Graph) returns (s: Status, changed: bool)
    requires Ordered(graph.Data()) && GraphVerified(A, graph.Data())
    modifies graph
    ensures s == Success
    ensures Transforms(A, pass, old(graph.Data()), graph.Data())
    ensures changed <==> graph.Data() != old(graph.Data())
  {
    ghost var g := graph.Data();
    s := Success;
    match pass {
      case GraphVerifier =>
        s := RunVerifier(A, graph);
        changed := false;
      case CanonicalisationPass =>
        CanonicalisationSucceeds(g);
        s, changed := Canonicalise(graph);
        CanonicalChangeShows(A, g, graph.operations);
      case ConstantFoldingPass =>
        changed := FoldConstants(A, graph);
      case ReshapeEliminationPass =>
        changed := EliminateReshapes(graph);
        CopiesOrNot(g, RedundantReshapes(g));
      case TransposeEliminationPass =>
        changed := RunTransposes(graph);
      case FuseBiasGeluPass =>
        changed := FuseBiasGelu(graph);
        MatchOrNot(g);
      case DeadCodeEliminationPass =>
        ghost var live;
        changed, live := EliminateDeadCode(graph);
    }
  }

  method RunTransposes(graph: Graph) returns (changed: bool)
    requires Ordered(graph.Data())
    modifies graph
    ensures HasOperands(old(graph.operations), TransposeElimination.RedundantTransposes(old(graph.Data())))
    ensures graph.Data()
         == WithoutCopies(old(graph.Data()), TransposeElimination.RedundantTransposes(old(graph.Data())))
    ensures changed <==> graph.Data() != old(graph.Data())
  {
    ghost var g := graph.Data();
    forall i | 0 <= i < |graph.operations| ensures ArityOk(graph.operations[i], |graph.operations[i].inputs|) {
      assert Resolved(Descriptors(graph.values), graph.operations[i]);
    }
    changed := TransposeElimination.EliminateTransposes(graph);
    CopiesOrNot(g, TransposeElimination.RedundantTransposes(g));
  }

  lemma CopiesOrNot(g: GraphData, drop: seq<bool>)
    requires HasOperands(g.operations, drop)
    ensures WithoutCopies(g, drop) != g <==> true in drop
  {
    if true in drop {
      CopiesShow(g, drop);
    } else {
      NoCopiesNoChange(g, drop);
    }
  }

  lemma MatchOrNot(g: GraphData)
    ensures Fuse(g) != g <==> HasMatch(g, |g.operations|)
  {
    if HasMatch(g, |g.operations|) {
      MatchShows(g);
    } else {
      NoMatchNoChange(g);
    }
  }

  // ----- the manager -----

  /** `append_result` */
  function Append(result: PassManagerResult, e: Execution, s: Status): PassManagerResult {
    PassManagerResult(if s == Success then result.status else s, result.changed || e.changed, result.executions + [e])
  }

  predicate AllSucceeded(executions: seq<Execution>) {
    forall e <- executions :: e.success
  }

  function Labels(executions: seq<Execution>): seq<(Pass, Stage)> {
    seq(|executions|, k requires 0 <= k < |executions| => (executions[k].pass, executions[k].stage))
  }

  /** The stages of the first n passes, in the order in which they run. */
  function Planned(passes: seq<Pass>, n: nat): (r: seq<(Pass, Stage)>)
    requires n <= |passes|
    ensures |r| == 3 * n
  {
    if n == 0 then []
    else
      Planned(passes, n - 1)
      + [(passes[n - 1], PreVerification), (passes[n - 1], Running), (passes[n - 1], PostVerification)]
  }

  lemma {:induction false} PlannedPrefix(passes: seq<Pass>, m: nat, n: nat)
    requires m <= n <= |passes|
    ensures Planned(passes, m) <= Planned(passes, n)
  {
    if m < n {
      PlannedPrefix(passes, m, n - 1);
    }
  }

  /** What the records of one pass say, given what its two verifications found. */
  function Trace(pass: Pass, before: bool, changed: bool, after: bool): seq<Execution> {
    if !before then [Execution(pass, PreVerification, false, false)]
    else
      [Execution(pass, PreVerification, true, false), Execution(pass, Running, true, changed),
       Execution(pass, PostVerification, after, false)]
  }

  /** The records end with the first failure, and are the planned stages up to there. */
  predicate Recorded(passes: seq<Pass>, result: PassManagerResult) {
    var e := result.executions;
    if result.status == Success then AllSucceeded(e) && Labels(e) == Planned(passes, |passes|)
    else
      && |e| > 0 && AllSucceeded(e[..|e| - 1]) && !e[|e| - 1].success
      && Labels(e) <= Planned(passes, |passes|)
  }

  lemma RecordedOnwards(passes: seq<Pass>, n: nat, e: seq<Execution>, before: bool, changed: bool, after: bool)
    requires n < |passes| && AllSucceeded(e) && Labels(e) == Planned(passes, n)
    ensures var t := e + Trace(passes[n], before, changed, after);
      if before && after then AllSucceeded(t) && Labels(t) == Planned(passes, n + 1)
      else AllSucceeded(t[..|t| - 1]) && !t[|t| - 1].success && Labels(t) <= Planned(passes, |passes|)
  {
    PlannedPrefix(passes, n + 1, |passes|);
    var t := e + Trace(passes[n], before, changed, after);
    assert Labels(t) == Labels(e) + Labels(Trace(passes[n], before, changed, after));
  }

  /** What holds of the graph and the result while every verification so far has passed. */
  ghost predicate Progress(A: Arith, passes: seq<Pass>, n: nat, g: GraphData, h: GraphData, result: PassManagerResult) {
    && n <= |passes| && Ordered(h) && SameInterface(g, h)
    && Pipeline(A, passes, n, g, h) && NeverNarrow(A, passes, n, g)
    && (n > 0 ==> GraphVerified(A, g) && GraphVerified(A, h))
    && result.status == Success && AllSucceeded(result.executions) && Labels(result.executions) == Planned(passes, n)
    && (!result.changed ==> h == g)
    && |result.executions| == 3 * n && ChangesRecorded(A, passes, g, result)
  }

  /** In the records of the m-th pass, `changed` says whether the pass changed the graph it was given. */
  ghost predicate ChangeRecorded(A: Arith, passes: seq<Pass>, g: GraphData, e: seq<Execution>, m: nat)
    requires m < |passes| && 3 * m + 1 < |e|
  {
    forall k, h | Pipeline(A, passes, m, g, k) && Transforms(A, passes[m], k, h) :: e[3 * m + 1].changed <==> k != h
  }

  /** Every record says exactly whether its stage changed the graph, and the result whether any did. */
  ghost predicate ChangesRecorded(A: Arith, passes: seq<Pass>, g: GraphData, result: PassManagerResult) {
    var e := result.executions;
    && (forall m: nat | m < |passes| && 3 * m + 1 < |e| :: ChangeRecorded(A, passes, g, e, m))
    && (forall x <- e | x.changed :: x.stage.Running?)
    && (result.changed <==> exists x <- e :: x.changed)
    && (result.changed <==> exists m: nat :: m < |passes| && ChangedAt(e, m))
  }

  predicate ChangedAt(e: seq<Execution>, m: nat) {
    3 * m + 1 < |e| && e[3 * m + 1].changed
  }

  /** One pass more. */
  lemma ChangesOnwards(A: Arith, passes: seq<Pass>, n: nat, g: GraphData, k: GraphData, h: GraphData,
                       given: PassManagerResult, result: PassManagerResult, before: bool, changed: bool, after: bool)
    requires n < |passes| && |given.executions| == 3 * n && ChangesRecorded(A, passes, g, given)
    requires Pipeline(A, passes, n, g, k) && (before ==> Transforms(A, passes[n], k, h))
    requires changed ==> before
    requires result.executions == given.executions + Trace(passes[n], before, changed, after)
    requires (changed <==> k != h) && (result.changed <==> given.changed || changed)
    ensures ChangesRecorded(A, passes, g, result)
  {
    hide Pipeline, Transforms;
    var e, f := given.executions, result.executions;
    var t := Trace(passes[n], before, changed, after);
    forall m: nat | m < |passes| && 3 * m + 1 < |f| ensures ChangeRecorded(A, passes, g, f, m) {
      if m < n {
        assert ChangeRecorded(A, passes, g, e, m) && f[3 * m + 1] == e[3 * m + 1];
      } else {
        assert m == n && f[3 * m + 1] == t[1];
        RecordedHere(A, passes, g, k, h, f, n);
      }
    }
    forall x <- f | x.changed ensures x.stage.Running? && (x in e || changed) {
      assert x in e || x in t;
    }
    if changed {
      assert f[3 * n + 1] == t[1] && f[3 * n + 1] in f;
    }
    if given.changed {
      var x :| x in e && x.changed;
      assert x in f;
    }
    forall m: nat | m < n ensures ChangedAt(f, m) <==> ChangedAt(e, m) {
    }
    assert before ==> f[3 * n + 1] == t[1];
    assert ChangedAt(f, n) <==> changed;
    LaterUnchanged(passes, n, f);
  }

  lemma LaterUnchanged(passes: seq<Pass>, n: nat, f: seq<Execution>)
    requires |f| <= 3 * n + 3
    ensures forall m: nat | n < m :: !ChangedAt(f, m)
  {
  }

  lemma RecordedHere(A: Arith, passes: seq<Pass>, g: GraphData, k: GraphData, h: GraphData, f: seq<Execution>, n: nat)
    requires n < |passes| && 3 * n + 1 < |f| && Pipeline(A, passes, n, g, k) && Transforms(A, passes[n], k, h)
    requires f[3 * n + 1].changed <==> k != h
    ensures ChangeRecorded(A, passes, g, f, n)
  {
    hide Pipeline, Transforms;
    forall x, y | Pipeline(A, passes, n, g, x) && Transforms(A, passes[n], x, y)
      ensures f[3 * n + 1].changed <==> x != y
    {
      PipelineDeterministic(A, passes, n, g, k, x);
      TransformsDeterministic(A, passes[n], k, h, y);
    }
  }

  /** One more pass, on a graph its pre-verification accepts. */
  lemma OnePassOn(A: Arith, passes: seq<Pass>, n: nat, g: GraphData, k: GraphData, h: GraphData)
    requires n < |passes| && Pipeline(A, passes, n, g, k) && NeverNarrow(A, passes, n, g)
    requires Ordered(k) && GraphVerified(A, k) && Transforms(A, passes[n], k, h)
    ensures Pipeline(A, passes, n + 1, g, h)
    ensures NeverNarrow(A, passes, n + 1, g) <==> GraphVerified(A, h)
  {
    hide GraphVerified, Ordered, Transforms, NoNarrowChain;
    assert PipelineStep(A, passes, n + 1, g, k, h);
    PassKeepsVerified(A, passes[n], k, h);
    if GraphVerified(A, h) {
      forall x ensures Accepted(A, passes, n, g, x) {
        if Pipeline(A, passes, n, g, x) {
          PipelineDeterministic(A, passes, n, g, k, x);
        }
      }
    } else {
      assert !Accepted(A, passes, n, g, k);
    }
  }

  lemma NeverNarrowBelow(A: Arith, passes: seq<Pass>, m: nat, n: nat, g: GraphData)
    requires m <= n <= |passes|
    ensures NeverNarrow(A, passes, n, g) ==> NeverNarrow(A, passes, m, g)
  {
  }

  class PassManager {
    var passes: seq<Pass>

    constructor ()
      ensures passes == []
    {
      passes := [];
    }

    /** `add_pass` */
    method AddPass(pass: Pass)
      modifies this
      ensures passes == old(passes) + [pass]
    {
      passes := passes + [pass];
    }

    /** The three stages of one pass. */
    method RunStages(A: Arith, pass: Pass, graph: Graph, given: PassManagerResult)
      returns (result: PassManagerResult, ghost changed: bool)
      requires Ordered(graph.Data()) && given.status == Success
      modifies graph
      ensures Ordered(graph.Data()) && SameInterface(old(graph.Data()), graph.Data())
      ensures var before, after := GraphVerified(A, old(graph.Data())), GraphVerified(A, graph.Data());
        && (result.status == Success <==> before && after)
        && result.executions == given.executions + Trace(pass, before, changed, after)
        && (if before then Transforms(A, pass, old(graph.Data()), graph.Data()) else graph.Data() == old(graph.Data()))
      ensures changed <==> graph.Data() != old(graph.Data())
      ensures result.changed <==> given.changed || changed
    {
      hide GraphVerified, Ordered, Transforms, NoNarrowChain;
      changed := false;
      var before := RunVerifier(A, graph);
      result := Append(given, Execution(pass, PreVerification, before == Success, false), before);
      if before != Success {
        return;
      }
      var s, c := RunPass(A, pass, graph);
      changed := c;
      result := Append(result, Execution(pass, Running, s == Success, c), s);
      PassKeepsVerified(A, pass, old(graph.Data()), graph.Data());
      var after := RunVerifier(A, graph);
      result := Append(result, Execution(pass, PostVerification, after == Success, false), after);
    }

    /**
     `run`: whether a sequence of passes succeeds is decided by the verifier's first judgement and by
     the narrow chains the fusion meets, and by nothing else.
     */
    method Run(A: Arith, graph: Graph) returns (result: PassManagerResult)
      requires Ordered(graph.Data())
      modifies graph
      ensures Ordered(graph.Data()) && SameInterface(old(graph.Data()), graph.Data())
      ensures result.status == Success <==>
        passes == [] || (GraphVerified(A, old(graph.Data())) && NeverNarrow(A, passes, |passes|, old(graph.Data())))
      ensures result.status == Success ==> Pipeline(A, passes, |passes|, old(graph.Data()), graph.Data())
      ensures result.status == Success && passes != [] ==> GraphVerified(A, graph.Data())
      ensures !result.changed ==> graph.Data() == old(graph.Data())
      ensures Recorded(passes, result)
      ensures ChangesRecorded(A, passes, old(graph.Data()), result)
      ensures result.status != Success && GraphVerified(A, old(graph.Data())) ==>
        result.executions[|result.executions| - 1] == Execution(FuseBiasGeluPass, PostVerification, false, false)
    {
      ghost var g := graph.Data();
      result := PassManagerResult(Success, false, []);
      for i := 0 to |passes|
        invariant Progress(A, passes, i, g, graph.Data(), result)
      {
        ghost var k := graph.Data();
        var given := result;
        ghost var changed;
        result, changed := RunStages(A, passes[i], graph, given);
        ghost var h := graph.Data();
        RecordedOnwards(passes, i, given.executions, GraphVerified(A, k), changed, GraphVerified(A, h));
        ChangesOnwards(A, passes, i, g, k, h, given, result, GraphVerified(A, k), changed, GraphVerified(A, h));
        if result.status != Success {
          FailureExplained(A, passes, i, g, k, h);
          return;
        }
        OnePassOn(A, passes, i, g, k, h);
      }
    }
  }

  /** Why a run stops: the graph it was given, or a narrow chain before the fusion. */
  lemma FailureExplained(A: Arith, passes: seq<Pass>, n: nat, g: GraphData, k: GraphData, h: GraphData)
    requires n < |passes| && Pipeline(A, passes, n, g, k) && NeverNarrow(A, passes, n, g)
    requires Ordered(k) && (n > 0 ==> GraphVerified(A, g) && GraphVerified(A, k))
    requires !GraphVerified(A, k) || (!GraphVerified(A, h) && Transforms(A, passes[n], k, h))
    ensures GraphVerified(A, g) ==>
      GraphVerified(A, k) && passes[n].FuseBiasGeluPass? && !NeverNarrow(A, passes, |passes|, g)
  {
    if GraphVerified(A, k) {
      PassKeepsVerified(A, passes[n], k, h);
      OnePassOn(A, passes, n, g, k, h);
      NeverNarrowBelow(A, passes, n + 1, |passes|, g);
    }
  }

  // ----- runs that change nothing -----

  lemma {:induction false} StageGraph(A: Arith, passes: seq<Pass>, n: nat, m: nat, g: GraphData, h: GraphData)
      returns (k: GraphData)
    requires m <= n <= |passes| && Pipeline(A, passes, n, g, h)
    ensures Pipeline(A, passes, m, g, k)
  {
    hide Transforms;
    if m == n {
      k := h;
    } else {
      var before := Predecessor(A, passes, n, g, h);
      k := StageGraph(A, passes, n - 1, m, g, before);
    }
  }

  /** While no record shows a change the graph is the original. */
  lemma {:induction false} QuietUpTo(A: Arith, passes: seq<Pass>, m: nat, g: GraphData, h: GraphData,
                                     result: PassManagerResult)
    requires Pipeline(A, passes, |passes|, g, h) && ChangesRecorded(A, passes, g, result)
    requires |result.executions| == 3 * |passes| && !result.changed && m <= |passes|
    ensures Pipeline(A, passes, m, g, g) && forall i | 0 <= i < m :: Transforms(A, passes[i], g, g)
  {
    hide Transforms;
    if m > 0 {
      QuietUpTo(A, passes, m - 1, g, h, result);
      var after := StageGraph(A, passes, |passes|, m, g, h);
      var before := Predecessor(A, passes, m, g, after);
      PipelineDeterministic(A, passes, m - 1, g, g, before);
      assert ChangeRecorded(A, passes, g, result.executions, m - 1) && !ChangedAt(result.executions, m - 1);
      assert PipelineStep(A, passes, m, g, g, g);
    }
  }

  lemma {:induction false} SettledPipeline(A: Arith, passes: seq<Pass>, m: nat, g: GraphData)
    requires m <= |passes| && forall i | 0 <= i < |passes| :: Transforms(A, passes[i], g, g)
    ensures Pipeline(A, passes, m, g, g)
  {
    hide Transforms;
    if m > 0 {
      SettledPipeline(A, passes, m - 1, g);
      assert PipelineStep(A, passes, m, g, g, g);
    }
  }

  /** A run that went to its end changed nothing exactly when the graph it was given was settled for every pass. */
  lemma QuietExactly(A: Arith, passes: seq<Pass>, g: GraphData, h: GraphData, result: PassManagerResult)
    requires Ordered(g) && GraphVerified(A, g) && Pipeline(A, passes, |passes|, g, h)
    requires ChangesRecorded(A, passes, g, result) && |result.executions| == 3 * |passes|
    ensures !result.changed <==> forall i | 0 <= i < |passes| :: Settled(A, passes[i], g)
  {
    forall i | 0 <= i < |passes| ensures Transforms(A, passes[i], g, g) <==> Settled(A, passes[i], g) {
      UnchangedExactly(A, passes[i], g);
    }
    hide Transforms, Settled, Ordered, GraphVerified;
    if !result.changed {
      QuietUpTo(A, passes, |passes|, g, h, result);
    }
    if forall i | 0 <= i < |passes| :: Transforms(A, passes[i], g, g) {
      forall m: nat | m < |passes| ensures !ChangedAt(result.executions, m) {
        SettledPipeline(A, passes, m, g);
        assert Transforms(A, passes[m], g, g);
        assert ChangeRecorded(A, passes, g, result.executions, m);
      }
    }
  }
}
