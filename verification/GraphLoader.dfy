/** The ordering and the connectivity check of cpp/src/ir/graph_loader.cpp. */
module GraphLoader {
  import opened Basics
  import opened GraphIR
  import opened Kahn
  import opened OperationOrder
  import opened ExecutionSchedule
  import opened Sequential
  import opened Tensors
  import opened Evaluator
  import opened SemanticVerifier
  import opened GraphInvariants
  import opened PassFramework
  import opened ReorderingTwice
  import opened StringOrder
  import Counting

  // ----- the loader's order -----

  /** The least order the data dependencies allow; side effects play no part. */
  ghost predicate IsLoadedOrder(before: seq<Operation>, after: seq<Operation>) {
    exists order ::
      && LeastLinearExtension(Ids(before), OrderEdges(before, false), order)
      && |order| == |before| && (forall k | 0 <= k < |order| :: order[k] < |before|)
      && after == Reordered(before, order)
  }

  /** `h` is `g` written to a file and loaded again. */
  ghost predicate IsReloaded(g: GraphData, h: GraphData) {
    h == Rewired(g, h.operations) && IsLoadedOrder(g.operations, h.operations)
  }

  /** `deterministic_topological_order` */
  method DeterministicTopologicalOrder(ops: seq<Operation>) returns (r: Result<seq<Operation>>)
    requires DistinctOutputs(ops) && OperandsProduced(ops) && |ops| <= UINT64_MAX
    ensures r.Ok? <==> !Cyclic(OrderEdges(ops, false))
    ensures r.Ok? ==> IsLoadedOrder(ops, r.value)
    ensures r.Err? ==> r.code == FailedPrecondition
  {
    var producers, unique := IndexByOutput(ops);
    var ordering := OrderOperations(ops, producers, false);
    if ordering.Err? {
      return Err(FailedPrecondition);
    }
    var order := ordering.value;
    var ordered: seq<Operation> := [];
    for k := 0 to |order|
      invariant |ordered| == k
      invariant forall j | 0 <= j < k :: ordered[j] == ops[order[j]]
    {
      ordered := ordered + [ops[order[k]]];
    }
    assert ordered == Reordered(ops, order);
    return Ok(ordered);
  }

  // ----- the three orders -----

  /** Side effects add no constraint to operations in the least order their data allow: the chain points forward. */
  lemma ChainPointsForward(ops: seq<Operation>, identity: seq<nat>)
    requires LeastLinearExtension(Ids(ops), OrderEdges(ops, false), identity)
    requires forall k | 0 <= k < |identity| :: identity[k] == k
    ensures LeastLinearExtension(Ids(ops), OrderEdges(ops, true), identity)
  {
    forall i, j | 0 <= i <= j < |ops| ensures (identity[j], identity[i]) !in OrderEdges(ops, true) {
      assert (identity[j], identity[i]) !in OrderEdges(ops, false);
    }
    forall t | LinearExtension(|ops|, OrderEdges(ops, true), t) ensures LexicographicallyLeq(Ids(ops), identity, t) {
      assert LinearExtension(|ops|, OrderEdges(ops, false), t);
    }
  }

  /** A loaded list of operations is in the least order its data allow, with or without its side effects. */
  lemma LoadedIsLeast(ops: seq<Operation>, loaded: seq<Operation>) returns (identity: seq<nat>)
    requires DistinctOperationIds(ops) && IsLoadedOrder(ops, loaded)
    ensures |identity| == |loaded| == |ops| && forall k | 0 <= k < |identity| :: identity[k] == k
    ensures LeastLinearExtension(Ids(loaded), OrderEdges(loaded, false), identity)
    ensures LeastLinearExtension(Ids(loaded), OrderEdges(loaded, true), identity)
  {
    var s :| LeastLinearExtension(Ids(ops), OrderEdges(ops, false), s)
      && |s| == |ops| && (forall k | 0 <= k < |s| :: s[k] < |ops|) && loaded == Reordered(ops, s);
    identity := seq(|ops|, k => k);
    IdentityIsLeast(ops, false, s, identity);
    ChainPointsForward(loaded, identity);
  }

  /** On every loaded graph the three orders of the repository agree, side effects or not. */
  lemma OrdersAgree(ops: seq<Operation>, loaded: seq<Operation>, rewritten: seq<Operation>, schedule: Schedule)
    requires DistinctOperationIds(ops) && IsLoadedOrder(ops, loaded)
    requires IsStableOrder(loaded, rewritten) && IsScheduleOf(loaded, schedule)
    ensures rewritten == loaded
    ensures |schedule| == |loaded| && forall k | 0 <= k < |loaded| :: schedule[k] == Scheduled(loaded[k], k)
  {
    var identity := LoadedIsLeast(ops, loaded);
    var t :| LeastLinearExtension(Ids(loaded), OrderEdges(loaded, true), t)
      && |t| == |loaded| && (forall k | 0 <= k < |t| :: t[k] < |loaded|) && rewritten == Reordered(loaded, t);
    var order :| LeastLinearExtension(Ids(loaded), OrderEdges(loaded, true), order)
      && ListsInOrder(loaded, order, schedule);
    LeastIsUnique(Ids(loaded), OrderEdges(loaded, true), identity, t);
    LeastIsUnique(Ids(loaded), OrderEdges(loaded, true), identity, order);
  }

  // ----- loading what has been written back -----

  /** Whatever stands before an operation of smaller identifier has it wait: its producer stands no earlier. */
  predicate StandsAsLoaded(ops: seq<Operation>) {
    forall i, j | 0 <= i < j < |ops| && Less(ops[j].id, ops[i].id) :: WaitsFor(ops, i, j)
  }

  /** Some operand of operation j is produced at i or later. */
  predicate WaitsFor(ops: seq<Operation>, i: nat, j: nat)
    requires i < j < |ops|
  {
    exists k | i <= k < j :: OperationOrder.Feeds(ops, k, j)
  }

  lemma ReadyHasOperands(ops: seq<Operation>, done: set<nat>, k: nat, j: nat)
    requires Ready(|ops|, OrderEdges(ops, false), done, j) && OperationOrder.Feeds(ops, k, j)
    ensures k in done
  {
    assert (k, j) in OrderEdges(ops, false);
  }

  lemma IdentityIsGreedy(ops: seq<Operation>, identity: seq<nat>, i: nat)
    requires TopologicallyOrdered(ops) && DistinctOutputs(ops) && DistinctOperationIds(ops) && StandsAsLoaded(ops)
    requires |identity| == |ops| && (forall k | 0 <= k < |ops| :: identity[k] == k) && i < |ops|
    ensures GreedyAt(Ids(ops), OrderEdges(ops, false), identity, i)
  {
    var edges, done := OrderEdges(ops, false), Counting.Elements(identity[..i]);
    forall x: nat ensures x in done <==> x < i {
      if x < i {
        assert identity[..i][x] == x;
      }
    }
    forall e <- edges | e.1 == i ensures e.0 in done {
      FeedsForward(ops, e.0, i);
    }
    forall j: nat | Ready(|ops|, edges, done, j) && j != i ensures Before(Ids(ops), i, j) {
      if Less(ops[j].id, ops[i].id) {
        var k: nat :| i <= k < j && OperationOrder.Feeds(ops, k, j);
        ReadyHasOperands(ops, done, k, j);
        assert false;
      }
      StringOrder.Total(ops[i].id, ops[j].id);
    }
  }

  /** Moving operation j up to position i. */
  function MovedUp(n: nat, i: nat, j: nat): (t: seq<nat>)
    requires i < j < n
    ensures |t| == n
  {
    seq(n, k requires 0 <= k < n => if k == i then j else if i < k <= j then k - 1 else k)
  }

  lemma MovedUpExtends(ops: seq<Operation>, i: nat, j: nat)
    requires TopologicallyOrdered(ops) && DistinctOutputs(ops) && i < j < |ops| && !WaitsFor(ops, i, j)
    ensures LinearExtension(|ops|, OrderEdges(ops, false), MovedUp(|ops|, i, j))
  {
    var t := MovedUp(|ops|, i, j);
    forall a, b | 0 <= a <= b < |ops| ensures (t[b], t[a]) !in OrderEdges(ops, false) {
      if OperationOrder.Feeds(ops, t[b], t[a]) {
        FeedsForward(ops, t[b], t[a]);
        OnlyMoved(|ops|, i, j, a, b);
        assert false;
      }
    }
  }

  lemma OnlyMoved(n: nat, i: nat, j: nat, a: nat, b: nat)
    requires i < j < n && a <= b < n && MovedUp(n, i, j)[b] < MovedUp(n, i, j)[a]
    ensures MovedUp(n, i, j)[a] == j && i <= MovedUp(n, i, j)[b] < j
  {
  }

  lemma MovedUpIsLater(keys: seq<string>, identity: seq<nat>, i: nat, j: nat)
    requires i < j < |keys| == |identity| && forall k | 0 <= k < |identity| :: identity[k] == k
    requires LexicographicallyLeq(keys, identity, MovedUp(|keys|, i, j))
    ensures !Less(keys[j], keys[i])
  {
    var t := MovedUp(|keys|, i, j);
    assert identity[i] != t[i];
    var k :| 0 <= k < |keys| && identity[..k] == t[..k] && Before(keys, identity[k], t[k]);
    SamePrefix(identity, t, i, k);
    BeforeIsStrictTotal(keys, k, k, k);
    assert k == i;
    BeforeIsStrictTotal(keys, i, j, i);
  }

  /**
   Writing an ordered graph and loading it again keeps its operations in place exactly when each stands
   as the loader would have put it.
   */
  lemma ReloadKeepsOrder(ops: seq<Operation>, loaded: seq<Operation>)
    requires TopologicallyOrdered(ops) && DistinctOutputs(ops) && DistinctOperationIds(ops)
    requires IsLoadedOrder(ops, loaded)
    ensures loaded == ops <==> StandsAsLoaded(ops)
  {
    var order :| LeastLinearExtension(Ids(ops), OrderEdges(ops, false), order)
      && |order| == |ops| && (forall k | 0 <= k < |order| :: order[k] < |ops|) && loaded == Reordered(ops, order);
    var identity: seq<nat> := seq(|ops|, k => k);
    hide OrderEdges, LexicographicallyLeq, StandsAsLoaded, TopologicallyOrdered, DistinctOutputs;
    if StandsAsLoaded(ops) {
      IdentityLoaded(ops, identity);
      LeastIsUnique(Ids(ops), OrderEdges(ops, false), identity, order);
    }
    if loaded == ops {
      InPlace(ops, order);
      LeastStands(ops, order);
    }
  }

  lemma LeastStands(ops: seq<Operation>, identity: seq<nat>)
    requires TopologicallyOrdered(ops) && DistinctOutputs(ops)
    requires LeastLinearExtension(Ids(ops), OrderEdges(ops, false), identity)
    requires forall k | 0 <= k < |identity| :: identity[k] == k
    ensures StandsAsLoaded(ops)
  {
    hide OrderEdges, WaitsFor, TopologicallyOrdered, DistinctOutputs;
    forall i, j | 0 <= i < j < |ops| && Less(ops[j].id, ops[i].id) ensures WaitsFor(ops, i, j) {
      if !WaitsFor(ops, i, j) {
        MovedUpExtends(ops, i, j);
        MovedUpIsLater(Ids(ops), identity, i, j);
      }
    }
  }

  lemma IdentityLoaded(ops: seq<Operation>, identity: seq<nat>)
    requires TopologicallyOrdered(ops) && DistinctOutputs(ops) && DistinctOperationIds(ops) && StandsAsLoaded(ops)
    requires |identity| == |ops| && forall k | 0 <= k < |ops| :: identity[k] == k
    ensures LeastLinearExtension(Ids(ops), OrderEdges(ops, false), identity)
  {
    forall i | 0 <= i < |ops| ensures GreedyAt(Ids(ops), OrderEdges(ops, false), identity, i) {
      IdentityIsGreedy(ops, identity, i);
    }
    GreedyIsLeast(Ids(ops), OrderEdges(ops, false), identity);
  }

  lemma InPlace(ops: seq<Operation>, order: seq<nat>)
    requires DistinctOperationIds(ops) && |order| == |ops| && (forall k | 0 <= k < |order| :: order[k] < |ops|)
    requires Reordered(ops, order) == ops
    ensures forall k | 0 <= k < |order| :: order[k] == k
  {
    forall k | 0 <= k < |order| ensures order[k] == k {
      assert Reordered(ops, order)[k] == ops[order[k]];
    }
  }

  // ----- what loading does to a graph -----

  /** Loading reorders the operations of a graph and keeps what the graph means and the verifier's judgement. */
  lemma LoadingKeeps(A: Arith, g: GraphData, loaded: seq<Operation>)
    requires WellFormedGraph(g) && IsLoadedOrder(g.operations, loaded)
    ensures SameOperations(g.operations, loaded)
    ensures Ordered(Rewired(g, loaded)) && KeepsMeaning(A, g, Rewired(g, loaded))
    ensures GraphVerified(A, g) ==> GraphVerified(A, Rewired(g, loaded))
  {
    var ops := g.operations;
    var order :| LeastLinearExtension(Ids(ops), OrderEdges(ops, false), order)
      && |order| == |ops| && (forall k | 0 <= k < |order| :: order[k] < |ops|) && loaded == Reordered(ops, order);
    ReorderedFacts(ops, false, order);
    WellFormedOperandsProduced(g);
    ReorderedIsOrdered(ops, false, order);
    PermutationKeepsWellFormed(g, Rewired(g, loaded));
    forall feeds, env | Solves(A, feeds, g, env) ensures Solves(A, feeds, Rewired(g, loaded), env) {
      SameModels(Meaning(A, feeds, Descriptors(g.values)), ops, loaded, env);
    }
    if GraphVerified(A, g) {
      VerifiedElsewhere(A, Descriptors(g.values), ops, loaded);
    }
  }

  /** The one operation stands before the other. */
  ghost predicate Precedes(ops: seq<Operation>, a: Operation, b: Operation) {
    exists i, j | 0 <= i < j < |ops| :: ops[i] == a && ops[j] == b
  }

  /** A loaded list stands as loaded. */
  lemma LoadedStands(g: GraphData, loaded: seq<Operation>)
    requires WellFormedGraph(g) && IsLoadedOrder(g.operations, loaded)
    ensures TopologicallyOrdered(loaded) && DistinctOutputs(loaded) && DistinctOperationIds(loaded)
    ensures StandsAsLoaded(loaded)
  {
    var order :| LeastLinearExtension(Ids(g.operations), OrderEdges(g.operations, false), order)
      && |order| == |g.operations| && (forall k | 0 <= k < |order| :: order[k] < |g.operations|)
      && loaded == Reordered(g.operations, order);
    ReorderedFacts(g.operations, false, order);
    WellFormedOperandsProduced(g);
    ReorderedIsOrdered(g.operations, false, order);
    var identity := LoadedIsLeast(g.operations, loaded);
    LeastStands(loaded, identity);
  }

  /**
   Loading puts `early` before `late`, whatever stood first, if its identifier is smaller and it waits
   for nothing but the operands of `late` and a constant whose identifier is smaller, too.
   */
  lemma LoadingSwaps(g: GraphData, loaded: seq<Operation>, early: Operation, late: Operation, literal: Operation)
    requires WellFormedGraph(g) && IsLoadedOrder(g.operations, loaded)
    requires early in g.operations && late in g.operations && literal in g.operations && literal.inputs == []
    requires Less(early.id, late.id) && Less(literal.id, late.id)
    requires forall id <- early.inputs :: id == literal.output || id in late.inputs
    ensures Precedes(loaded, early, late)
  {
    LoadingKeeps(Increments(), g, loaded);
    LoadedStands(g, loaded);
    hide Ordered, TopologicallyOrdered, DistinctOutputs, DistinctOperationIds, IsLoadedOrder, WellFormedGraph;
    hide GraphVerified, KeepsMeaning, StandsAsLoaded, Less, Precedes;
    StandsEarly(loaded, early, late, literal);
  }

  lemma StandsEarly(loaded: seq<Operation>, early: Operation, late: Operation, literal: Operation)
    requires TopologicallyOrdered(loaded) && DistinctOutputs(loaded) && StandsAsLoaded(loaded)
    requires early in loaded && late in loaded && literal in loaded && literal.inputs == []
    requires Less(early.id, late.id) && Less(literal.id, late.id)
    requires forall id <- early.inputs :: id == literal.output || id in late.inputs
    ensures Precedes(loaded, early, late)
  {
    hide TopologicallyOrdered, DistinctOutputs, StandsAsLoaded;
    var i: nat :| i < |loaded| && loaded[i] == late;
    var j: nat :| j < |loaded| && loaded[j] == early;
    var m: nat :| m < |loaded| && loaded[m] == literal;
    Irreflexive(late.id);
    NotWaiting(loaded, i, j, m);
    assert j < i;
  }

  lemma LiteralStandsEarlier(loaded: seq<Operation>, i: nat, m: nat)
    requires StandsAsLoaded(loaded) && i < |loaded| && m < |loaded|
    requires loaded[m].inputs == [] && Less(loaded[m].id, loaded[i].id)
    ensures m < i
  {
    Irreflexive(loaded[i].id);
  }

  lemma FeedersEarlier(loaded: seq<Operation>, i: nat, j: nat, k: nat, m: nat)
    requires TopologicallyOrdered(loaded) && DistinctOutputs(loaded) && StandsAsLoaded(loaded)
    requires i < |loaded| && m < |loaded| && OperationOrder.Feeds(loaded, k, j)
    requires loaded[m].inputs == [] && Less(loaded[m].id, loaded[i].id)
    requires forall id <- loaded[j].inputs :: id == loaded[m].output || id in loaded[i].inputs
    ensures k < i
  {
    if OperationOrder.Feeds(loaded, k, i) {
      FeedsForward(loaded, k, i);
    } else {
      assert k == m;
      LiteralStandsEarlier(loaded, i, m);
    }
  }

  lemma NotWaiting(loaded: seq<Operation>, i: nat, j: nat, m: nat)
    requires TopologicallyOrdered(loaded) && DistinctOutputs(loaded) && StandsAsLoaded(loaded)
    requires i < |loaded| && j < |loaded| && m < |loaded| && loaded[m].inputs == []
    requires Less(loaded[m].id, loaded[i].id) && Less(loaded[j].id, loaded[i].id)
    requires forall id <- loaded[j].inputs :: id == loaded[m].output || id in loaded[i].inputs
    ensures j <= i
  {
    if i < j {
      var k: nat :| i <= k < j && OperationOrder.Feeds(loaded, k, j);
      FeedersEarlier(loaded, i, j, k, m);
    }
  }
}
