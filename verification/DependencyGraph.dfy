/**
 The mutable state behind every topological ordering in the repository: an edge set that
 suppresses duplicates, in-degree counters and dependents lists, and Kahn's loop over them.
 */
module Dependencies {
  import opened Basics
  import opened StringOrder
  import opened Counting
  import opened Kahn

  /** What `c` still waits for once `done` has been ordered. */
  function Pending(edges: Edges, done: set<nat>, c: nat): set<nat> {
    set e <- edges | e.1 == c && e.0 !in done :: e.0
  }

  /** Whatever has been ordered, so has everything it depends on. */
  ghost predicate Closed(edges: Edges, done: set<nat>) {
    forall e <- edges :: e.1 in done ==> e.0 in done
  }

  lemma PendingStep(edges: Edges, done: set<nat>, i: nat, c: nat)
    requires i !in done
    ensures (i, c) in edges ==> |Pending(edges, done + {i}, c)| == |Pending(edges, done, c)| - 1
    ensures (i, c) !in edges ==> Pending(edges, done + {i}, c) == Pending(edges, done, c)
  {
    var before, after := Pending(edges, done, c), Pending(edges, done + {i}, c);
    if (i, c) in edges {
      assert i in before;
      assert after == before - {i};
    }
  }

  lemma NothingPending(n: nat, edges: Edges, done: set<nat>, c: nat)
    requires c < n && c !in done
    ensures |Pending(edges, done, c)| == 0 <==> Ready(n, edges, done, c)
  {
    if |Pending(edges, done, c)| == 0 {
      forall e <- edges | e.1 == c ensures e.0 in done {
        assert e.0 !in Pending(edges, done, c);
      }
    } else {
      var p :| p in Pending(edges, done, c);
      assert (p, c) in edges;
    }
  }

  lemma PendingBound(n: nat, edges: Edges, done: set<nat>, c: nat, extra: nat)
    requires WellFormed(n, edges) && extra < n && extra !in Pending(edges, done, c)
    ensures |Pending(edges, done, c)| < n
  {
    SubsetSize(Pending(edges, done, c) + {extra}, InitialSegment(n));
  }

  /** The first element of the ready set in (identifier, index) order. */
  method First(keys: seq<string>, ready: set<nat>) returns (first: nat)
    requires ready != {} && forall i <- ready :: i < |keys|
    ensures first in ready
    ensures forall j <- ready | j != first :: Before(keys, first, j)
  {
    first :| first in ready;
    var rest := ready - {first};
    while rest != {}
      invariant rest <= ready && first in ready && first !in rest
      invariant forall j <- ready | j != first && j !in rest :: Before(keys, first, j)
      decreases rest
    {
      var i :| i in rest;
      forall j <- ready ensures
        (Before(keys, first, i) || Before(keys, i, first)) &&
        (Before(keys, i, first) && Before(keys, first, j) ==> Before(keys, i, j))
      {
        BeforeIsStrictTotal(keys, first, i, j);
        BeforeIsStrictTotal(keys, i, first, j);
      }
      if Before(keys, i, first) {
        first := i;
      }
      rest := rest - {i};
    }
  }

  class DependencyGraph {
    const count: nat
    var edges: Edges
    const indegrees: array<nat>
    const dependents: array<seq<nat>>

    ghost predicate Shape() {
      indegrees.Length == dependents.Length == count
    }

    ghost predicate DependentsMatch()
      requires Shape()
      reads this, dependents
    {
      forall p: nat | p < count ::
        Distinct(dependents[p]) && forall c: nat :: c in dependents[p] <==> (p, c) in edges
    }

    /** Every counter is the number of dependencies not yet in `done`. */
    ghost predicate Counts(done: set<nat>)
      requires Shape()
      reads this, indegrees
    {
      forall c: nat | c < count :: indegrees[c] == |Pending(edges, done, c)|
    }

    ghost predicate Valid()
      reads this, indegrees, dependents
    {
      Shape() && WellFormed(count, edges) && DependentsMatch() && Counts({})
    }

    constructor (n: nat)
      ensures Valid() && count == n && edges == {}
      ensures fresh(indegrees) && fresh(dependents)
    {
      count := n;
      edges := {};
      indegrees := new nat[n](i => 0);
      dependents := new seq<nat>[n](i => []);
    }

    /** `add_edge`: an edge already recorded is counted once. The overflow guard never fires. */
    method AddEdge(producer: nat, consumer: nat) returns (s: Status)
      requires Valid() && producer < count && consumer < count <= UINT64_MAX
      modifies this, indegrees, dependents
      ensures Valid()
      ensures s == Success
      ensures edges == old(edges) + {(producer, consumer)}
    {
      if (producer, consumer) in edges {
        return Success;
      }
      PendingBound(count, edges, {}, consumer, producer);
      if indegrees[consumer] == UINT64_MAX {
        return Failure(Overflow);
      }
      forall c: nat | c < count
        ensures |Pending(edges + {(producer, consumer)}, {}, c)|
             == |Pending(edges, {}, c)| + if c == consumer then 1 else 0
      {
        var before, after := Pending(edges, {}, c), Pending(edges + {(producer, consumer)}, {}, c);
        if c == consumer {
          assert after == before + {producer};
        } else {
          assert after == before;
        }
      }
      edges := edges + {(producer, consumer)};
      indegrees[consumer] := indegrees[consumer] + 1;
      dependents[producer] := dependents[producer] + [consumer];
      return Success;
    }

    /**
     The inner loop: operation `i` has just been ordered, so each dependent waits for one less.
     A counter that would go below zero is reported through `underflow`; it never is.
     */
    method Retire(i: nat, waiting: set<nat>, ghost before: set<nat>)
      returns (underflow: bool, ready: set<nat>)
      requires Shape() && DependentsMatch() && WellFormed(count, edges)
      requires Closed(edges, before) && Counts(before) && Ready(count, edges, before, i)
      requires forall j: nat :: j in waiting <==> j != i && Ready(count, edges, before, j)
      modifies indegrees
      ensures !underflow
      ensures Counts(before + {i})
      ensures forall j: nat :: j in ready <==> Ready(count, edges, before + {i}, j)
    {
      hide Pending;
      ready := waiting;
      ghost var done := before + {i};
      var list := dependents[i];
      assert forall c <- list :: (i, c) in edges;
      forall c: nat | c < count && c !in list
        ensures Pending(edges, done, c) == Pending(edges, before, c)
      {
        PendingStep(edges, before, i, c);
      }
      for k := 0 to |list|
        invariant dependents[i] == list
        invariant forall c: nat | c < count ::
          indegrees[c] == |Pending(edges, if c in list[..k] then done else before, c)|
        invariant forall j: nat :: j in ready <==>
          (j in list[..k] || j !in list) && Ready(count, edges, done, j)
      {
        var dependent := list[k];
        assert (i, dependent) in edges;
        assert dependent !in list[..k];
        PendingStep(edges, before, i, dependent);
        if indegrees[dependent] == 0 {
          return true, ready;
        }
        indegrees[dependent] := indegrees[dependent] - 1;
        assert list[..k + 1] == list[..k] + [dependent];
        NothingPending(count, edges, done, dependent);
        if indegrees[dependent] == 0 {
          ready := ready + {dependent};
        }
      }
      assert list[..|list|] == list;
      return false, ready;
    }

    /**
     The Kahn loop. It returns the least linear extension of the recorded edges when there is
     one, reports FailedPrecondition exactly when they contain a cycle, and never takes the
     `Internal` underflow exit.
     */
    method Order(keys: seq<string>) returns (r: Result<seq<nat>>)
      requires Valid() && |keys| == count
      modifies indegrees
      ensures r.Ok? ==> LeastLinearExtension(keys, edges, r.value)
      ensures r.Err? <==> Cyclic(edges)
      ensures r.Err? ==> r.code == FailedPrecondition
    {
      var ready: set<nat> := {};
      for i := 0 to count
        invariant Valid()
        invariant forall j: nat :: j in ready <==> j < i && Ready(count, edges, {}, j)
      {
        NothingPending(count, edges, {}, i);
        if indegrees[i] == 0 {
          ready := ready + {i};
        }
      }
      var order: seq<nat> := [];
      assert Elements(order) == {};
      while ready != {}
        invariant Shape() && DependentsMatch() && WellFormed(count, edges)
        invariant Closed(edges, Elements(order)) && Counts(Elements(order))
        invariant Greedy(keys, edges, order) && Distinct(order)
        invariant forall k | 0 <= k < |order| :: order[k] < count
        invariant forall j: nat :: j in ready <==> Ready(count, edges, Elements(order), j)
        decreases count - |order|
      {
        var i := First(keys, ready);
        GreedyStep(keys, edges, order, i);
        DistinctBound(order + [i], count);
        var underflow;
        underflow, ready := Retire(i, ready - {i}, Elements(order));
        assert Elements(order + [i]) == Elements(order) + {i};
        order := order + [i];
        if underflow {
          return Err(Internal);
        }
      }
      DistinctBound(order, count);
      if |order| != count {
        StuckAtEnd(count, edges, order);
        return Err(FailedPrecondition);
      }
      GreedyIsLeast(keys, edges, order);
      LinearExtensionExcludesCycles(count, edges, order);
      return Ok(order);
    }
  }

  lemma GreedyStep(keys: seq<string>, edges: Edges, order: seq<nat>, i: nat)
    requires Greedy(keys, edges, order)
    requires Ready(|keys|, edges, Elements(order), i)
    requires forall j | Ready(|keys|, edges, Elements(order), j) && j != i :: Before(keys, i, j)
    ensures Greedy(keys, edges, order + [i])
    ensures Distinct(order) ==> Distinct(order + [i])
  {
    var longer := order + [i];
    forall k | 0 <= k < |longer| ensures GreedyAt(keys, edges, longer, k) {
      assert longer[..k] == order[..k];
      if k < |order| {
        assert GreedyAt(keys, edges, order, k);
      } else {
        assert order[..k] == order;
      }
    }
  }

  lemma StuckAtEnd(n: nat, edges: Edges, order: seq<nat>)
    requires WellFormed(n, edges) && Distinct(order) && |order| < n
    requires forall k | 0 <= k < |order| :: order[k] < n
    requires Stuck(n, edges, Elements(order))
    ensures Cyclic(edges)
  {
    if forall i | 0 <= i < n :: i in Elements(order) {
      assert InitialSegment(n) <= Elements(order);
      SubsetSize(InitialSegment(n), Elements(order));
      ElementsSize(order);
      assert false;
    }
    StuckIsCyclic(n, edges, Elements(order));
  }
}
