/** std::string's `<`, and the strict total order (identifier, index) the ready sets are kept in. */
module StringOrder {

  predicate Less(a: string, b: string) {
    if b == "" then false
    else if a == "" then true
    else a[0] < b[0] || (a[0] == b[0] && Less(a[1..], b[1..]))
  }

  lemma {:induction false} Transitive(a: string, b: string, c: string)
    requires Less(a, b) && Less(b, c)
    ensures Less(a, c)
  {
    if a != "" && a[0] == b[0] && b[0] == c[0] {
      Transitive(a[1..], b[1..], c[1..]);
    }
  }

  lemma {:induction false} Irreflexive(a: string)
    ensures !Less(a, a)
  {
    if a != "" {
      Irreflexive(a[1..]);
    }
  }

  lemma {:induction false} Total(a: string, b: string)
    ensures Less(a, b) || a == b || Less(b, a)
  {
    if a != "" && b != "" && a[0] == b[0] {
      Total(a[1..], b[1..]);
      assert a == [a[0]] + a[1..] && b == [b[0]] + b[1..];
    }
  }

  /** Order of std::set<std::pair<std::string, std::size_t>> on the pairs (keys[i], i). */
  predicate Before(keys: seq<string>, i: nat, j: nat)
    requires i < |keys| && j < |keys|
  {
    Less(keys[i], keys[j]) || (keys[i] == keys[j] && i < j)
  }

  lemma BeforeIsStrictTotal(keys: seq<string>, i: nat, j: nat, k: nat)
    requires i < |keys| && j < |keys| && k < |keys|
    ensures !Before(keys, i, i)
    ensures Before(keys, i, j) || i == j || Before(keys, j, i)
    ensures Before(keys, i, j) && Before(keys, j, k) ==> Before(keys, i, k)
    ensures !(Before(keys, i, j) && Before(keys, j, i))
  {
    Irreflexive(keys[i]);
    Irreflexive(keys[j]);
    Total(keys[i], keys[j]);
    if Less(keys[i], keys[j]) && Less(keys[j], keys[k]) {
      Transitive(keys[i], keys[j], keys[k]);
    }
    if Less(keys[i], keys[j]) && Less(keys[j], keys[i]) {
      Transitive(keys[i], keys[j], keys[i]);
    }
  }
}

/**
 Kahn's algorithm with a smallest-identifier ready set, as the execution schedule, the rewrite
 utilities and the graph loader all run it, over an abstract dependency relation.
 */
module Kahn {
  import opened Basics
  import opened StringOrder
  import opened Counting

  type Edges = set<(nat, nat)>

  /** Edges connect operations below n. */
  ghost predicate WellFormed(n: nat, edges: Edges) {
    forall e <- edges :: e.0 < n && e.1 < n
  }

  // ----- what an order is: a definition that does not mention the algorithm -----

  /** A permutation of 0..n in which no edge points backwards (or at itself). */
  ghost predicate LinearExtension(n: nat, edges: Edges, s: seq<nat>) {
    && |s| == n
    && (forall k | 0 <= k < n :: s[k] < n)
    && Distinct(s)
    && forall i, j | 0 <= i <= j < n :: (s[j], s[i]) !in edges
  }

  /** s comes no later than t in the lexicographic order induced by `Before`. */
  ghost predicate LexicographicallyLeq(keys: seq<string>, s: seq<nat>, t: seq<nat>)
    requires |s| == |t| == |keys|
    requires forall k | 0 <= k < |s| :: s[k] < |keys| && t[k] < |keys|
  {
    s == t || exists k | 0 <= k < |s| :: s[..k] == t[..k] && Before(keys, s[k], t[k])
  }

  ghost predicate LeastLinearExtension(keys: seq<string>, edges: Edges, s: seq<nat>) {
    && LinearExtension(|keys|, edges, s)
    && forall t | LinearExtension(|keys|, edges, t) :: LexicographicallyLeq(keys, s, t)
  }

  /** A closed walk along the edges. */
  ghost predicate Cycle(edges: Edges, walk: seq<nat>) {
    && |walk| >= 2
    && walk[0] == walk[|walk| - 1]
    && forall k | 0 <= k < |walk| - 1 :: (walk[k], walk[k + 1]) in edges
  }

  ghost predicate Cyclic(edges: Edges) {
    exists walk :: Cycle(edges, walk)
  }

  // ----- the greedy choice -----

  /** Not yet ordered, and everything it depends on is. */
  predicate Ready(n: nat, edges: Edges, done: set<nat>, i: nat) {
    i < n && i !in done && forall e <- edges | e.1 == i :: e.0 in done
  }

  /** s[k] is the smallest operation ready once s[..k] has been ordered. */
  ghost predicate GreedyAt(keys: seq<string>, edges: Edges, s: seq<nat>, k: nat)
    requires k < |s|
  {
    && Ready(|keys|, edges, Elements(s[..k]), s[k])
    && forall j | Ready(|keys|, edges, Elements(s[..k]), j) && j != s[k] :: Before(keys, s[k], j)
  }

  ghost predicate Greedy(keys: seq<string>, edges: Edges, s: seq<nat>) {
    forall k | 0 <= k < |s| :: GreedyAt(keys, edges, s, k)
  }

  /** Nothing is ready any more. */
  ghost predicate Stuck(n: nat, edges: Edges, done: set<nat>) {
    forall i | 0 <= i < n :: !Ready(n, edges, done, i)
  }

  /** A complete greedy order is a linear extension ... */
  lemma GreedyIsLinearExtension(keys: seq<string>, edges: Edges, s: seq<nat>)
    requires Greedy(keys, edges, s) && |s| == |keys|
    ensures LinearExtension(|keys|, edges, s)
  {
    forall k | 0 <= k < |s| ensures s[k] < |keys| {
      assert GreedyAt(keys, edges, s, k);
    }
    forall i, j | 0 <= i < j < |s| ensures s[i] != s[j] {
      assert GreedyAt(keys, edges, s, j);
      assert s[..j][i] == s[i];
    }
    forall i, j | 0 <= i <= j < |s| ensures (s[j], s[i]) !in edges {
      assert GreedyAt(keys, edges, s, i);
      assert forall m | 0 <= m < i :: s[..i][m] == s[m] != s[j];
      assert s[j] !in Elements(s[..i]);
    }
  }

  lemma EdgesPointForward(n: nat, edges: Edges, s: seq<nat>, i: nat, j: nat)
    requires LinearExtension(n, edges, s) && i < n && j < n
    requires (s[i], s[j]) in edges
    ensures i < j
  {
  }

  /** In a linear extension every operation is ready once its predecessors have been ordered. */
  lemma ExtensionIsReady(n: nat, edges: Edges, t: seq<nat>, k: nat)
    requires WellFormed(n, edges) && LinearExtension(n, edges, t) && k < n
    ensures Ready(n, edges, Elements(t[..k]), t[k])
  {
    DistinctBound(t, n);
    forall e <- edges | e.1 == t[k] ensures e.0 in Elements(t[..k]) {
      assert e.0 in t;
      var m :| 0 <= m < n && t[m] == e.0;
      EdgesPointForward(n, edges, t, m, k);
      assert t[..k][m] == e.0;
    }
    assert forall m | 0 <= m < k :: t[..k][m] == t[m] != t[k];
  }

  /** ... and no linear extension precedes it. */
  lemma GreedyIsLeast(keys: seq<string>, edges: Edges, s: seq<nat>)
    requires WellFormed(|keys|, edges)
    requires Greedy(keys, edges, s) && |s| == |keys|
    ensures LeastLinearExtension(keys, edges, s)
  {
    GreedyIsLinearExtension(keys, edges, s);
    forall t | LinearExtension(|keys|, edges, t) ensures LexicographicallyLeq(keys, s, t) {
      if s != t {
        var k := FirstDifference(s, t);
        ExtensionIsReady(|keys|, edges, t, k);
        assert GreedyAt(keys, edges, s, k);
        assert s[..k] == t[..k] && Before(keys, s[k], t[k]);
      }
    }
  }

  lemma FirstDifference(s: seq<nat>, t: seq<nat>) returns (k: nat)
    requires |s| == |t| && s != t
    ensures k < |s| && s[..k] == t[..k] && s[k] != t[k]
  {
    k := 0;
    while s[k] == t[k]
      invariant k < |s| && s[..k] == t[..k]
      invariant exists m | k <= m < |s| :: s[m] != t[m]
      decreases |s| - k
    {
      assert s[..k + 1] == s[..k] + [s[k]] && t[..k + 1] == t[..k] + [t[k]];
      k := k + 1;
    }
  }

  lemma SamePrefix(s: seq<nat>, t: seq<nat>, k: nat, m: nat)
    requires m <= |s| == |t| && k < |s| && s[..m] == t[..m] && s[k] != t[k]
    ensures m <= k
  {
    assert forall i | 0 <= i < m :: s[i] == s[..m][i] == t[i];
  }

  /** Two orders that are both least are the same order. */
  lemma LeastIsUnique(keys: seq<string>, edges: Edges, s: seq<nat>, t: seq<nat>)
    requires LeastLinearExtension(keys, edges, s) && LeastLinearExtension(keys, edges, t)
    ensures s == t
  {
    if s != t {
      assert LexicographicallyLeq(keys, s, t) && LexicographicallyLeq(keys, t, s);
      var k :| 0 <= k < |s| && s[..k] == t[..k] && Before(keys, s[k], t[k]);
      var m :| 0 <= m < |s| && t[..m] == s[..m] && Before(keys, t[m], s[m]);
      BeforeIsStrictTotal(keys, s[k], t[k], s[k]);
      BeforeIsStrictTotal(keys, t[m], s[m], t[m]);
      SamePrefix(s, t, k, m);
      SamePrefix(s, t, m, k);
    }
  }

  // ----- cycles -----

  /** Position of an operation in an order. */
  ghost function Position(s: seq<nat>, x: nat): (k: nat)
    requires x in s
    ensures k < |s| && s[k] == x
  {
    var k: nat :| k < |s| && s[k] == x;
    k
  }

  lemma LinearExtensionExcludesCycles(n: nat, edges: Edges, s: seq<nat>)
    requires WellFormed(n, edges) && LinearExtension(n, edges, s)
    ensures !Cyclic(edges)
  {
    if walk :| Cycle(edges, walk) {
      DistinctBound(s, n);
      forall k | 0 <= k < |walk| ensures walk[k] in s {
        if k < |walk| - 1 {
          assert (walk[k], walk[k + 1]) in edges;
        } else {
          assert (walk[k - 1], walk[k - 1 + 1]) in edges;
        }
      }
      WalkAdvances(n, edges, s, walk, |walk| - 1);
    }
  }

  lemma {:induction false} WalkAdvances(n: nat, edges: Edges, s: seq<nat>, walk: seq<nat>, m: nat)
    requires LinearExtension(n, edges, s)
    requires forall k | 0 <= k < |walk| :: walk[k] in s
    requires forall k | 0 <= k < |walk| - 1 :: (walk[k], walk[k + 1]) in edges
    requires 0 < m < |walk|
    ensures Position(s, walk[0]) < Position(s, walk[m])
  {
    if m > 1 {
      WalkAdvances(n, edges, s, walk, m - 1);
    }
    assert (walk[m - 1], walk[m - 1 + 1]) in edges;
    var p, q := Position(s, walk[m - 1]), Position(s, walk[m]);
    EdgesPointForward(n, edges, s, p, q);
  }

  /** When nothing is ready but something is left, walking backwards along unmet dependencies closes a cycle. */
  lemma StuckIsCyclic(n: nat, edges: Edges, done: set<nat>)
    requires WellFormed(n, edges)
    requires Stuck(n, edges, done)
    requires exists i | 0 <= i < n :: i !in done
    ensures Cyclic(edges)
  {
    var start: nat :| start < n && start !in done;
    var walk: seq<nat> := [start];
    while true
      invariant |walk| > 0 && Distinct(walk)
      invariant forall k | 0 <= k < |walk| :: walk[k] < n && walk[k] !in done
      invariant forall k | 0 <= k < |walk| - 1 :: (walk[k], walk[k + 1]) in edges
      decreases n + 1 - |walk|
    {
      DistinctBound(walk, n);
      assert !Ready(n, edges, done, walk[0]);
      var e :| e in edges && e.1 == walk[0] && e.0 !in done;
      var longer := [e.0] + walk;
      forall k | 0 <= k < |longer| - 1 ensures (longer[k], longer[k + 1]) in edges {
        if k > 0 {
          assert longer[k] == walk[k - 1] && longer[k + 1] == walk[k - 1 + 1];
        }
      }
      if e.0 in walk {
        var m :| 0 <= m < |walk| && walk[m] == e.0;
        var closed := longer[..m + 2];
        assert closed[|closed| - 1] == walk[m];
        assert Cycle(edges, closed);
        return;
      }
      walk := longer;
    }
  }
}
