/** The one definition that every group query of the service must agree with:
    reachability along a finite set of directed edges. */
module Reach {

  type Id = string
  type Edges = set<(Id, Id)>

  /** A nonempty walk in which consecutive nodes are joined by an edge. */
  ghost predicate Chain(edges: Edges, p: seq<Id>) {
    |p| > 0 && forall i :: 0 <= i < |p| - 1 ==> (p[i], p[i + 1]) in edges
  }

  ghost predicate ChainTo(edges: Edges, seeds: set<Id>, x: Id, p: seq<Id>) {
    Chain(edges, p) && p[0] in seeds && p[|p| - 1] == x
  }

  ghost predicate Reaches(edges: Edges, seeds: set<Id>, x: Id) {
    exists p :: ChainTo(edges, seeds, x, p)
  }

  function Targets(edges: Edges): set<Id> {
    set e | e in edges :: e.1
  }

  /** What the recursive queries compute: everything reachable from the seeds. */
  ghost function Closure(edges: Edges, seeds: set<Id>): set<Id> {
    set x | x in seeds + Targets(edges) && Reaches(edges, seeds, x)
  }

  ghost predicate Closed(edges: Edges, s: set<Id>) {
    forall e :: e in edges && e.0 in s ==> e.1 in s
  }

  ghost predicate ShortestChain(edges: Edges, seeds: set<Id>, x: Id, p: seq<Id>) {
    ChainTo(edges, seeds, x, p) && forall q :: ChainTo(edges, seeds, x, q) ==> |p| <= |q|
  }

  lemma SeedReaches(edges: Edges, seeds: set<Id>, x: Id)
    requires x in seeds
    ensures Reaches(edges, seeds, x)
  {
    assert ChainTo(edges, seeds, x, [x]);
  }

  lemma ExtendChain(edges: Edges, p: seq<Id>, y: Id)
    requires Chain(edges, p) && (p[|p| - 1], y) in edges
    ensures Chain(edges, p + [y])
  {
  }

  lemma StepReaches(edges: Edges, seeds: set<Id>, x: Id, y: Id)
    requires Reaches(edges, seeds, x) && (x, y) in edges
    ensures Reaches(edges, seeds, y)
  {
    var p :| ChainTo(edges, seeds, x, p);
    ExtendChain(edges, p, y);
    assert ChainTo(edges, seeds, y, p + [y]);
  }

  lemma {:induction false} ChainStaysInClosed(edges: Edges, s: set<Id>, p: seq<Id>)
    requires Closed(edges, s) && Chain(edges, p) && p[0] in s
    ensures p[|p| - 1] in s
  {
    if |p| > 1 {
      assert (p[0], p[1]) in edges;
      assert Chain(edges, p[1..]) by {
        forall i | 0 <= i < |p| - 2 ensures (p[1..][i], p[1..][i + 1]) in edges {
          assert (p[i + 1], p[i + 2]) in edges;
        }
      }
      ChainStaysInClosed(edges, s, p[1..]);
    }
  }

  lemma InClosure(edges: Edges, seeds: set<Id>, x: Id)
    ensures x in Closure(edges, seeds) <==> Reaches(edges, seeds, x)
  {
    if Reaches(edges, seeds, x) {
      var p :| ChainTo(edges, seeds, x, p);
      if |p| > 1 {
        assert (p[|p| - 2], p[|p| - 1]) in edges;
      }
    }
  }

  lemma ClosureIsClosed(edges: Edges, seeds: set<Id>)
    ensures seeds <= Closure(edges, seeds)
    ensures Closed(edges, Closure(edges, seeds))
  {
    forall x | x in seeds ensures x in Closure(edges, seeds) {
      SeedReaches(edges, seeds, x);
    }
    forall e | e in edges && e.0 in Closure(edges, seeds) ensures e.1 in Closure(edges, seeds) {
      StepReaches(edges, seeds, e.0, e.1);
    }
  }

  lemma ClosureIsLeast(edges: Edges, seeds: set<Id>, s: set<Id>)
    requires seeds <= s && Closed(edges, s)
    ensures Closure(edges, seeds) <= s
  {
    forall x | x in Closure(edges, seeds) ensures x in s {
      var p :| ChainTo(edges, seeds, x, p);
      ChainStaysInClosed(edges, s, p);
    }
  }

  /** How every loop below concludes: a closed set that only holds reachable nodes. */
  lemma ClosedAndReachableIsClosure(edges: Edges, seeds: set<Id>, s: set<Id>)
    requires seeds <= s && Closed(edges, s)
    requires forall x :: x in s ==> Reaches(edges, seeds, x)
    ensures s == Closure(edges, seeds)
  {
    ClosureIsLeast(edges, seeds, s);
    forall x | x in s ensures x in Closure(edges, seeds) {
      InClosure(edges, seeds, x);
    }
  }

  // ---- acyclicity ------------------------------------------------------------

  ghost predicate Acyclic(edges: Edges) {
    forall p :: Chain(edges, p) && |p| >= 2 ==> p[0] != p[|p| - 1]
  }

  lemma ChainTail(edges: Edges, p: seq<Id>)
    requires Chain(edges, p) && |p| > 1
    ensures Chain(edges, p[1..]) && (p[0], p[1]) in edges
  {
    forall i | 0 <= i < |p| - 2 ensures (p[1..][i], p[1..][i + 1]) in edges {
      assert (p[i + 1], p[i + 2]) in edges;
    }
  }

  lemma JoinChains(edges: Edges, p: seq<Id>, q: seq<Id>)
    requires Chain(edges, p) && Chain(edges, q) && p[|p| - 1] == q[0]
    ensures Chain(edges, p + q[1..])
    ensures (p + q[1..])[0] == p[0] && (p + q[1..])[|p + q[1..]| - 1] == q[|q| - 1]
  {
    var r := p + q[1..];
    forall i | 0 <= i < |r| - 1 ensures (r[i], r[i + 1]) in edges {
      if i < |p| - 1 {
      } else {
        var k := i - (|p| - 1);
        assert (q[k], q[k + 1]) in edges;
      }
    }
  }

  lemma ReachesThrough(edges: Edges, x: Id, y: Id, z: Id)
    requires Reaches(edges, {x}, y) && Reaches(edges, {y}, z)
    ensures Reaches(edges, {x}, z)
  {
    var p :| ChainTo(edges, {x}, y, p);
    var q :| ChainTo(edges, {y}, z, q);
    JoinChains(edges, p, q);
    assert ChainTo(edges, {x}, z, p + q[1..]);
  }

  /** A walk over the graph with the new edge (a, b) either avoids it or splits
      into a part that reaches a and a part that leaves b, both without it. */
  lemma {:induction false} SplitAtNewEdge(edges: Edges, a: Id, b: Id, p: seq<Id>)
    requires Chain(edges + {(a, b)}, p)
    ensures Chain(edges, p) || (Reaches(edges, {p[0]}, a) && Reaches(edges, {b}, p[|p| - 1]))
  {
    if |p| > 1 {
      var rest := p[1..];
      ChainTail(edges + {(a, b)}, p);
      SplitAtNewEdge(edges, a, b, rest);
      if (p[0], p[1]) in edges {
        if Chain(edges, rest) {
          forall i | 0 <= i < |p| - 1 ensures (p[i], p[i + 1]) in edges {
            if i > 0 { assert (rest[i - 1], rest[i]) in edges; }
          }
        } else {
          assert ChainTo(edges, {p[0]}, p[1], [p[0], p[1]]);
          ReachesThrough(edges, p[0], p[1], a);
        }
      } else {
        SeedReaches(edges, {a}, a);
        if Chain(edges, rest) {
          assert ChainTo(edges, {b}, p[|p| - 1], rest);
        }
      }
    }
  }

  /** Adding an edge keeps a graph acyclic exactly when its head does not already
      reach its tail. */
  lemma AddEdgeKeepsAcyclic(edges: Edges, a: Id, b: Id)
    requires Acyclic(edges)
    ensures Acyclic(edges + {(a, b)}) <==> !Reaches(edges, {b}, a)
  {
    var more := edges + {(a, b)};
    if Reaches(edges, {b}, a) {
      var q :| ChainTo(edges, {b}, a, q);
      var p := [a] + q;
      forall i | 0 <= i < |p| - 1 ensures (p[i], p[i + 1]) in more {
        if i > 0 { assert (q[i - 1], q[i]) in edges; }
      }
      assert Chain(more, p);
    } else {
      forall p | Chain(more, p) && |p| >= 2 ensures p[0] != p[|p| - 1] {
        SplitAtNewEdge(edges, a, b, p);
        if !Chain(edges, p) && p[0] == p[|p| - 1] {
          ReachesThrough(edges, b, p[0], a);
        }
      }
    }
  }

  lemma FewerEdgesStayAcyclic(fewer: Edges, edges: Edges)
    requires fewer <= edges && Acyclic(edges)
    ensures Acyclic(fewer)
  {
    forall p | Chain(fewer, p) && |p| >= 2 ensures p[0] != p[|p| - 1] {
      assert Chain(edges, p);
    }
  }

  lemma SubChain(edges: Edges, p: seq<Id>, i: nat, j: nat)
    requires Chain(edges, p) && i < j <= |p|
    ensures Chain(edges, p[i..j])
  {
    forall k | 0 <= k < |p[i..j]| - 1 ensures (p[i..j][k], p[i..j][k + 1]) in edges {
      assert (p[i + k], p[i + k + 1]) in edges;
    }
  }

  /** In an acyclic graph no walk visits a node twice, so walks are short. */
  lemma AcyclicWalksAreShort(edges: Edges, p: seq<Id>)
    requires Acyclic(edges) && Chain(edges, p)
    ensures |p| <= |Targets(edges)| + 1
  {
    forall i, j | 0 <= i < j < |p| ensures p[i] != p[j] {
      SubChain(edges, p, i, j + 1);
    }
    var tail := p[1..];
    assert forall i :: 0 <= i < |tail| ==> tail[i] in Targets(edges) by {
      forall i | 0 <= i < |tail| ensures tail[i] in Targets(edges) {
        assert (p[i], p[i + 1]) in edges;
      }
    }
    DistinctElementsFit(tail, Targets(edges));
  }

  lemma {:induction false} DistinctElementsFit(s: seq<Id>, universe: set<Id>)
    requires forall i :: 0 <= i < |s| ==> s[i] in universe
    requires forall i, j :: 0 <= i < j < |s| ==> s[i] != s[j]
    ensures |s| <= |universe|
  {
    if s != [] {
      DistinctElementsFit(s[1..], universe - {s[0]});
    }
  }

  // ---- reversing the arrows ----------------------------------------------------

  function Reversed(edges: Edges): Edges {
    set e | e in edges :: (e.1, e.0)
  }

  function ReversedSeq(p: seq<Id>): seq<Id> {
    seq(|p|, i requires 0 <= i < |p| => p[|p| - 1 - i])
  }

  lemma ReversedChain(edges: Edges, p: seq<Id>)
    requires Chain(edges, p)
    ensures Chain(Reversed(edges), ReversedSeq(p))
  {
    var q := ReversedSeq(p);
    forall i | 0 <= i < |q| - 1 ensures (q[i], q[i + 1]) in Reversed(edges) {
      var k := |p| - 2 - i;
      assert (p[k], p[k + 1]) in edges;
    }
  }

  lemma ReversedTwice(edges: Edges)
    ensures Reversed(Reversed(edges)) == edges
  {
    forall e | e in edges ensures e in Reversed(Reversed(edges)) {
      assert (e.1, e.0) in Reversed(edges);
    }
  }

  lemma ReversedStaysAcyclic(edges: Edges)
    requires Acyclic(edges)
    ensures Acyclic(Reversed(edges))
  {
    forall p | Chain(Reversed(edges), p) && |p| >= 2 ensures p[0] != p[|p| - 1] {
      ReversedChain(Reversed(edges), p);
      ReversedTwice(edges);
      assert Chain(edges, ReversedSeq(p));
    }
  }
}
