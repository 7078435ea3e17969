/** The breadth-first searches that explain how a user belongs to each group. */
module GroupPaths {
  import opened Text
  import opened Reach
  import opened Tuples
  import opened GroupNesting
  import opened GroupClosure

  type Chains = map<Id, seq<Id>>

  // ---- what the search knows ------------------------------------------------------

  ghost predicate Begins(edges: Edges, seeds: set<Id>, chains: Chains) {
    && (forall s :: s in seeds ==> s in chains && |chains[s]| == 1)
    && (forall g {:trigger ChainTo(edges, seeds, g, chains[g])} :: g in chains ==> ChainTo(edges, seeds, g, chains[g]))
  }

  /** Queued groups have chains, in nondecreasing length, at most one longer than the first. */
  ghost predicate InOrder(chains: Chains, queue: seq<Id>) {
    && (forall i :: 0 <= i < |queue| ==> queue[i] in chains)
    && (forall i, j :: 0 <= i < j < |queue| ==> |chains[queue[i]]| <= |chains[queue[j]]| <= |chains[queue[0]]| + 1)
  }

  predicate Followed(e: (Id, Id), chains: Chains)
    requires e.0 in chains
  {
    e.1 in chains && |chains[e.1]| <= |chains[e.0]| + 1
  }

  /** Between two pops. */
  ghost predicate Exploring(edges: Edges, seeds: set<Id>, chains: Chains, queue: seq<Id>) {
    && Begins(edges, seeds, chains)
    && InOrder(chains, queue)
    && (forall e :: e in edges && e.0 in chains && e.0 !in queue ==> Followed(e, chains))
    && (forall d :: d in chains && d !in queue && queue != [] ==> |chains[d]| <= |chains[queue[0]]|)
  }

  /** While the parents of the popped child are looked at. */
  ghost predicate Expanding(edges: Edges, seeds: set<Id>, chains: Chains, queue: seq<Id>, child: Id, handled: set<Id>) {
    && Begins(edges, seeds, chains)
    && child in chains
    && InOrder(chains, queue)
    && (forall q :: q in queue ==> |chains[child]| <= |chains[q]| <= |chains[child]| + 1)
    && (forall e :: e in edges && e.0 in chains && e.0 !in queue && e.0 != child ==> Followed(e, chains))
    && (forall e :: e in edges && e.0 == child && e.1 in handled ==> Followed(e, chains))
    && (forall d :: d in chains && d !in queue ==> |chains[d]| <= |chains[child]|)
  }

  lemma Pop(edges: Edges, seeds: set<Id>, chains: Chains, child: Id, rest: seq<Id>)
    requires Exploring(edges, seeds, chains, [child] + rest)
    ensures Expanding(edges, seeds, chains, rest, child, {})
  {
    var queue := [child] + rest;
    assert queue[0] == child && forall i :: 0 <= i < |rest| ==> queue[i + 1] == rest[i];
    assert forall q :: q in queue <==> q == child || q in rest;
    forall i | 0 <= i < |rest|
      ensures rest[i] in chains && |chains[child]| <= |chains[rest[i]]| <= |chains[child]| + 1
    {
      assert queue[i + 1] in chains;
      assert |chains[queue[0]]| <= |chains[queue[i + 1]]|;
    }
    forall i, j | 0 <= i < j < |rest| ensures |chains[rest[i]]| <= |chains[rest[j]]| <= |chains[rest[0]]| + 1 {
      assert |chains[queue[i + 1]]| <= |chains[queue[j + 1]]|;
    }
  }

  lemma Known(edges: Edges, seeds: set<Id>, chains: Chains, queue: seq<Id>, child: Id, handled: set<Id>, parent: Id)
    requires Expanding(edges, seeds, chains, queue, child, handled) && parent in chains
    ensures Expanding(edges, seeds, chains, queue, child, handled + {parent})
  {
  }

  /** The chain of a group found now is no shorter than any queued one. */
  lemma DiscoveredLast(chains: Chains, queue: seq<Id>, child: Id, parent: Id)
    requires child in chains && parent !in chains && InOrder(chains, queue)
    requires forall i :: 0 <= i < |queue| ==>
          queue[i] in chains && |chains[child]| <= |chains[queue[i]]| <= |chains[child]| + 1
    ensures InOrder(chains[parent := chains[child] + [parent]], queue + [parent])
  {
  }

  lemma Discover(edges: Edges, seeds: set<Id>, chains: Chains, queue: seq<Id>, child: Id, handled: set<Id>, parent: Id)
    requires Expanding(edges, seeds, chains, queue, child, handled)
    requires parent !in chains && (child, parent) in edges
    ensures child in chains
    ensures Expanding(edges, seeds, chains[parent := chains[child] + [parent]], queue + [parent], child,
                      handled + {parent})
  {
    var more := chains[parent := chains[child] + [parent]];
    assert ChainTo(edges, seeds, child, chains[child]);
    ExtendChain(edges, chains[child], parent);
    forall q | q in queue ensures q in chains && q != parent {
      var i :| 0 <= i < |queue| && queue[i] == q;
    }
    assert forall q :: q in queue + [parent] <==> q in queue || q == parent;
    forall g | g in more ensures ChainTo(edges, seeds, g, more[g]) {
      if g != parent {
        assert ChainTo(edges, seeds, g, chains[g]);
      }
    }
    forall i | 0 <= i < |queue + [parent]| ensures (queue + [parent])[i] in more {
      assert (queue + [parent])[i] in queue + [parent];
    }
    DiscoveredLast(chains, queue, child, parent);
  }

  lemma Finish(edges: Edges, seeds: set<Id>, chains: Chains, queue: seq<Id>, child: Id, handled: set<Id>)
    requires Expanding(edges, seeds, chains, queue, child, handled)
    requires forall e :: e in edges && e.0 == child ==> e.1 in handled
    ensures Exploring(edges, seeds, chains, queue)
  {
    if queue != [] {
      assert queue[0] in queue;
    }
  }

  lemma {:induction false} NoShorterChain(edges: Edges, seeds: set<Id>, chains: Chains, p: seq<Id>)
    requires Exploring(edges, seeds, chains, []) && Chain(edges, p) && p[0] in seeds
    ensures p[|p| - 1] in chains && |chains[p[|p| - 1]]| <= |p|
  {
    if |p| > 1 {
      var init := p[..|p| - 1];
      SubChain(edges, p, 0, |p| - 1);
      assert p[0..|p| - 1] == init;
      NoShorterChain(edges, seeds, chains, init);
      var e := (p[|p| - 2], p[|p| - 1]);
      assert e in edges;
      assert Followed(e, chains);
    }
  }

  /** An exhausted search has found exactly the reachable groups, by shortest chains. */
  lemma Exhausted(edges: Edges, seeds: set<Id>, chains: Chains)
    requires Exploring(edges, seeds, chains, [])
    ensures chains.Keys == Closure(edges, seeds)
    ensures forall g :: g in chains ==> ShortestChain(edges, seeds, g, chains[g])
  {
    forall g ensures g in chains <==> g in Closure(edges, seeds) {
      InClosure(edges, seeds, g);
      if Reaches(edges, seeds, g) {
        var p :| ChainTo(edges, seeds, g, p);
        NoShorterChain(edges, seeds, chains, p);
      }
      if g in chains {
        assert ChainTo(edges, seeds, g, chains[g]);
      }
    }
    forall g | g in chains ensures ShortestChain(edges, seeds, g, chains[g]) {
      forall q | ChainTo(edges, seeds, g, q) ensures |chains[g]| <= |q| {
        NoShorterChain(edges, seeds, chains, q);
      }
    }
  }

  // ---- labels ----------------------------------------------------------------------------

  type Labels = map<Id, string>

  function Label(labels: Labels, group: Id): string {
    if group in labels then labels[group] else group
  }

  const ARROW := " -> "

  function Render(labels: Labels, chain: seq<Id>): string
    requires chain != []
  {
    if |chain| == 1 then Label(labels, chain[0])
    else Render(labels, chain[..|chain| - 1]) + ARROW + Label(labels, chain[|chain| - 1])
  }

  /** Read from the front: each group by its name, or by its id for want of one. */
  lemma {:induction false} RenderFromTheFront(labels: Labels, chain: seq<Id>)
    requires chain != []
    ensures
      var first := if chain[0] in labels then labels[chain[0]] else chain[0];
      Render(labels, chain) == if |chain| == 1 then first else first + " -> " + Render(labels, chain[1..])
  {
    if |chain| > 2 {
      var before, last := chain[..|chain| - 1], chain[|chain| - 1];
      RenderFromTheFront(labels, before);
      assert chain == before + [last] && chain[1..] == before[1..] + [last];
      RenderExtended(labels, before, last);
      RenderExtended(labels, before[1..], last);
      hide Render;
      Regrouped(Label(labels, chain[0]), Render(labels, before[1..]), Label(labels, last));
    } else if |chain| == 2 {
      assert chain[..1] == [chain[0]] && chain[1..] == [chain[1]];
    }
  }

  lemma Regrouped(first: string, middle: string, last: string)
    ensures first + " -> " + middle + ARROW + last == first + " -> " + (middle + ARROW + last)
  {
  }

  ghost predicate Rendered(labels: Labels, chains: Chains, paths: map<Id, string>) {
    && paths.Keys == chains.Keys
    && forall g :: g in chains ==> chains[g] != [] && paths[g] == Render(labels, chains[g])
  }

  /** A path text spells out a shortest membership chain from a direct group. */
  ghost predicate Explains(edges: Edges, seeds: set<Id>, labels: Labels, group: Id, path: string) {
    exists chain :: ShortestChain(edges, seeds, group, chain) && path == Render(labels, chain)
  }

  lemma RenderExtended(labels: Labels, chain: seq<Id>, group: Id)
    requires chain != []
    ensures Render(labels, chain + [group]) == Render(labels, chain) + ARROW + Label(labels, group)
  {
    assert (chain + [group])[..|chain|] == chain;
  }

  lemma RenderedKeys(labels: Labels, chains: Chains, paths: map<Id, string>)
    requires Rendered(labels, chains, paths)
    ensures paths.Keys == chains.Keys
  {
  }

  lemma RenderedMore(labels: Labels, chains: Chains, paths: map<Id, string>, child: Id, parent: Id)
    requires Rendered(labels, chains, paths) && child in chains && parent !in chains
    ensures child in paths
    ensures Rendered(labels, chains[parent := chains[child] + [parent]],
                     paths[parent := paths[child] + ARROW + Label(labels, parent)])
  {
    RenderExtended(labels, chains[child], parent);
    hide Render;
  }

  lemma PathsExplain(edges: Edges, seeds: set<Id>, labels: Labels, chains: Chains, paths: map<Id, string>)
    requires Exploring(edges, seeds, chains, []) && Rendered(labels, chains, paths)
    ensures paths.Keys == Closure(edges, seeds)
    ensures forall g :: g in paths ==> Explains(edges, seeds, labels, g, paths[g])
  {
    Exhausted(edges, seeds, chains);
    forall g | g in paths ensures Explains(edges, seeds, labels, g, paths[g]) {
      assert ShortestChain(edges, seeds, g, chains[g]);
    }
  }

  lemma SingletonChains(edges: Edges, seeds: set<Id>, chains: Chains, queue: seq<Id>)
    requires chains.Keys == seeds && forall g :: g in queue <==> g in seeds
    requires forall g :: g in chains ==> chains[g] == [g]
    ensures Exploring(edges, seeds, chains, queue)
  {
    forall i | 0 <= i < |queue| ensures queue[i] in chains && |chains[queue[i]]| == 1 {
      assert queue[i] in queue;
    }
  }

  // ---- one step of either search ----------------------------------------------------------

  /** How many groups are still to be found. */
  ghost function Missing(edges: Edges, chains: Chains): nat {
    |Targets(edges) - chains.Keys|
  }

  lemma OneLess(all: set<Id>, before: set<Id>, after: set<Id>, x: Id)
    requires x in all && after == before + {x}
    ensures if x in before then all - after == all - before else |all - after| < |all - before|
  {
    if x !in before {
      assert all - after == (all - before) - {x};
    }
  }

  lemma MissingShrinks(edges: Edges, before: Chains, after: Chains, parent: Id)
    requires parent in Targets(edges) && after.Keys == before.Keys + {parent}
    ensures if parent in before then Missing(edges, after) == Missing(edges, before)
            else Missing(edges, after) < Missing(edges, before)
  {
    hide Targets;
    OneLess(Targets(edges), before.Keys, after.Keys, parent);
  }

  /** Groups were found, or nothing was queued: why the search ends. */
  ghost predicate Progress(edges: Edges, chains: Chains, queue: seq<Id>, chains': Chains, queue': seq<Id>) {
    || Missing(edges, chains') < Missing(edges, chains)
    || (Missing(edges, chains') == Missing(edges, chains) && queue' == queue)
  }

  /** Looks at one parent of the popped child: a new group gets the child's path, one
      step longer, and is queued. */
  method Offer(ghost edges: Edges, ghost seeds: set<Id>, labels: Labels, child: Id, parent: Id, ghost handled: set<Id>,
               paths: map<Id, string>, queue: seq<Id>, ghost chains: Chains)
      returns (paths': map<Id, string>, queue': seq<Id>, ghost chains': Chains)
    requires Expanding(edges, seeds, chains, queue, child, handled) && Rendered(labels, chains, paths)
    requires (child, parent) in edges
    ensures Expanding(edges, seeds, chains', queue', child, handled + {parent}) && Rendered(labels, chains', paths')
    ensures Progress(edges, chains, queue, chains', queue')
  {
    assert parent in Targets(edges) by { assert (child, parent).1 == parent; }
    RenderedKeys(labels, chains, paths);
    hide Expanding, Rendered, Missing, Targets;
    paths', queue', chains' := paths, queue, chains;
    if parent in paths {
      Known(edges, seeds, chains, queue, child, handled, parent);
    } else {
      Discover(edges, seeds, chains, queue, child, handled, parent);
      RenderedMore(labels, chains, paths, child, parent);
      paths' := paths[parent := paths[child] + ARROW + Label(labels, parent)];
      chains' := chains[parent := chains[child] + [parent]];
      queue' := queue + [parent];
    }
    MissingShrinks(edges, chains, chains', parent);
  }

  // ---- the memory store -----------------------------------------------------------------

  method SeedPaths(ghost edges: Edges, labels: Labels, direct: set<Id>)
      returns (paths: map<Id, string>, queue: seq<Id>, ghost chains: Chains)
    ensures Exploring(edges, direct, chains, queue) && Rendered(labels, chains, paths)
  {
    paths, queue, chains := map[], [], map[];
    var rest := direct;
    while rest != {}
      invariant rest <= direct
      invariant chains.Keys == paths.Keys == direct - rest
      invariant forall g :: g in chains ==> chains[g] == [g] && paths[g] == Label(labels, g)
      invariant forall g :: g in queue <==> g in direct - rest
    {
      var g :| g in rest;
      rest := rest - {g};
      paths := paths[g := Label(labels, g)];
      chains := chains[g := [g]];
      queue := queue + [g];
    }
    SingletonChains(edges, direct, chains, queue);
  }

  /** One turn of the queue in the memory store: the parents of a child are the keys of
      the nesting map whose members include it. */
  method ExpandInMemory(ghost direct: set<Id>, labels: Labels, nests: Nests, child: Id,
                        paths: map<Id, string>, queue: seq<Id>, ghost chains: Chains)
      returns (paths': map<Id, string>, queue': seq<Id>, ghost chains': Chains)
    requires Exploring(Reversed(EdgesOf(nests)), direct, chains, [child] + queue) && Rendered(labels, chains, paths)
    ensures Exploring(Reversed(EdgesOf(nests)), direct, chains', queue') && Rendered(labels, chains', paths')
    ensures Progress(Reversed(EdgesOf(nests)), chains, queue, chains', queue')
  {
    hide Exploring, Expanding, Rendered;
    ghost var edges := Reversed(EdgesOf(nests));
    paths', queue', chains' := paths, queue, chains;
    Pop(edges, direct, chains, child, queue);
    var remaining := nests.Keys;
    ghost var handled: set<Id> := {};
    while remaining != {}
      invariant Expanding(edges, direct, chains', queue', child, handled) && Rendered(labels, chains', paths')
      invariant Progress(edges, chains, queue, chains', queue')
      invariant remaining <= nests.Keys
      invariant forall e :: e in edges && e.0 == child && e.1 !in remaining ==> e.1 in handled
    {
      var parent :| parent in remaining;
      remaining := remaining - {parent};
      assert child in nests[parent] <==> (parent, child) in EdgesOf(nests);
      if child in nests[parent] {
        paths', queue', chains' := Offer(edges, direct, labels, child, parent, handled, paths', queue', chains');
        handled := handled + {parent};
      }
    }
    Finish(edges, direct, chains', queue', child, handled);
  }

  /** `group_paths_for_user`: exactly the user's groups, each with a shortest explanation. */
  method GroupPathsForUser(labels: Labels, direct: set<Id>, nests: Nests) returns (paths: map<Id, string>)
    ensures paths.Keys == Closure(Reversed(EdgesOf(nests)), direct)
    ensures forall g :: g in paths ==> Explains(Reversed(EdgesOf(nests)), direct, labels, g, paths[g])
  {
    ghost var edges := Reversed(EdgesOf(nests));
    var queue: seq<Id>;
    ghost var chains: Chains;
    hide Exploring, Rendered, Explains, EdgesOf, Reversed, Closure, Missing;
    paths, queue, chains := SeedPaths(edges, labels, direct);
    while queue != []
      invariant Exploring(edges, direct, chains, queue) && Rendered(labels, chains, paths)
      decreases Missing(edges, chains), |queue|
    {
      var child := queue[0];
      assert queue == [child] + queue[1..];
      paths, queue, chains := ExpandInMemory(direct, labels, nests, child, paths, queue[1..], chains);
    }
    PathsExplain(edges, direct, labels, chains, paths);
  }

  // ---- SQLite -----------------------------------------------------------------------------

  predicate ParentOf(parents: map<Id, seq<Id>>, m: Id, p: Id) {
    m in parents && p in parents[m]
  }

  ghost predicate Indexes(edges: Edges, parents: map<Id, seq<Id>>) {
    forall m, p :: ParentOf(parents, m, p) <==> (m, p) in edges
  }

  /** The index from a member group to its parents, built row by row. */
  method ParentsByMember(db: Db) returns (parents: map<Id, seq<Id>>)
    ensures Indexes(NestEdges(db), parents)
  {
    parents := map[];
    for i := 0 to |db.nests|
      invariant forall m, p :: ParentOf(parents, m, p) <==> NestRow(p, m) in db.nests[..i]
    {
      var n := db.nests[i];
      assert db.nests[..i + 1] == db.nests[..i] + [n];
      var listed := MembersOf(parents, n.memberGroupId);
      ghost var before := parents;
      parents := parents[n.memberGroupId := listed + [n.groupId]];
      forall m, p ensures ParentOf(parents, m, p) <==> ParentOf(before, m, p) || n == NestRow(p, m) {
        assert m == n.memberGroupId ==> (p in parents[m] <==> p in listed || p == n.groupId);
      }
    }
    assert db.nests[..|db.nests|] == db.nests;
    forall m, p ensures NestRow(p, m) in db.nests <==> (m, p) in NestEdges(db) {
      if (m, p) in NestEdges(db) {
        var n :| n in db.nests && (m, p) == (n.memberGroupId, n.groupId);
        assert n == NestRow(p, m);
      }
    }
  }

  method SeedPathsConn(db: Db, labels: Labels, userId: Id, reachable: set<Id>)
      returns (paths: map<Id, string>, queue: seq<Id>, ghost chains: Chains)
    requires reachable == DbUserGroups(db, userId)
    ensures Exploring(NestEdges(db), DirectRows(db, userId), chains, queue) && Rendered(labels, chains, paths)
  {
    ghost var direct := DirectRows(db, userId);
    ClosureIsClosed(NestEdges(db), direct);
    hide Closure, Closed, NestEdges, Exploring;
    paths, queue, chains := map[], [], map[];
    for i := 0 to |db.members|
      invariant chains.Keys == paths.Keys
      invariant forall g :: g in chains ==> g in direct && chains[g] == [g] && paths[g] == Label(labels, g)
      invariant forall m :: m in db.members[..i] && m.userId == userId ==> m.groupId in chains
      invariant forall g :: g in queue <==> g in chains
    {
      var row := db.members[i];
      assert db.members[..i + 1] == db.members[..i] + [row];
      assert row.userId == userId ==> row.groupId in direct;
      if row.userId == userId && row.groupId in reachable {
        if row.groupId !in paths {
          queue := queue + [row.groupId];
        }
        paths := paths[row.groupId := Label(labels, row.groupId)];
        chains := chains[row.groupId := [row.groupId]];
      }
    }
    assert db.members[..|db.members|] == db.members;
    assert chains.Keys == direct;
    SingletonChains(NestEdges(db), direct, chains, queue);
  }

  lemma ParentIsReachable(edges: Edges, direct: set<Id>, chains: Chains, queue: seq<Id>, child: Id, handled: set<Id>,
                          parent: Id)
    requires Expanding(edges, direct, chains, queue, child, handled) && (child, parent) in edges
    ensures parent in Closure(edges, direct)
  {
    assert ChainTo(edges, direct, child, chains[child]);
    StepReaches(edges, direct, child, parent);
    InClosure(edges, direct, parent);
  }

  /** One turn of the queue in the SQLite store, given the child's row of the index. */
  method ExpandConn(ghost edges: Edges, ghost direct: set<Id>, labels: Labels, reachable: set<Id>, parents: seq<Id>,
                    child: Id, paths: map<Id, string>, queue: seq<Id>, ghost chains: Chains)
      returns (paths': map<Id, string>, queue': seq<Id>, ghost chains': Chains)
    requires reachable == Closure(edges, direct)
    requires forall p :: p in parents <==> (child, p) in edges
    requires Exploring(edges, direct, chains, [child] + queue) && Rendered(labels, chains, paths)
    ensures Exploring(edges, direct, chains', queue') && Rendered(labels, chains', paths')
    ensures Progress(edges, chains, queue, chains', queue')
  {
    hide Exploring, Expanding, Rendered;
    paths', queue', chains' := paths, queue, chains;
    Pop(edges, direct, chains, child, queue);
    ghost var handled: set<Id> := {};
    for i := 0 to |parents|
      invariant Expanding(edges, direct, chains', queue', child, handled) && Rendered(labels, chains', paths')
      invariant Progress(edges, chains, queue, chains', queue')
      invariant forall j :: 0 <= j < i ==> parents[j] in handled
    {
      var parent := parents[i];
      assert parent in parents;
      ParentIsReachable(edges, direct, chains', queue', child, handled, parent);
      if parent in reachable {
        paths', queue', chains' := Offer(edges, direct, labels, child, parent, handled, paths', queue', chains');
        handled := handled + {parent};
      }
    }
    forall e | e in edges && e.0 == child ensures e.1 in handled {
      assert (child, e.1) in edges;
      assert e.1 in parents;
    }
    Finish(edges, direct, chains', queue', child, handled);
  }

  lemma IndexRow(edges: Edges, parents: map<Id, seq<Id>>, child: Id)
    requires Indexes(edges, parents)
    ensures forall p :: p in MembersOf(parents, child) <==> (child, p) in edges
  {
    forall p ensures p in MembersOf(parents, child) <==> (child, p) in edges {
      assert ParentOf(parents, child, p) <==> (child, p) in edges;
    }
  }

  /** The queue loop of the SQLite store. */
  method SearchConn(ghost edges: Edges, ghost direct: set<Id>, labels: Labels, reachable: set<Id>,
                    parentsByMember: map<Id, seq<Id>>, seedPaths: map<Id, string>, seeds: seq<Id>,
                      ghost seedChains: Chains)
      returns (paths: map<Id, string>)
    requires reachable == Closure(edges, direct) && Indexes(edges, parentsByMember)
    requires Exploring(edges, direct, seedChains, seeds) && Rendered(labels, seedChains, seedPaths)
    ensures paths.Keys == reachable
    ensures forall g :: g in paths ==> Explains(edges, direct, labels, g, paths[g])
  {
    hide Exploring, Rendered, Explains, Closure, Missing, Indexes, MembersOf;
    var queue := seeds;
    ghost var chains := seedChains;
    paths := seedPaths;
    while queue != []
      invariant Exploring(edges, direct, chains, queue) && Rendered(labels, chains, paths)
      decreases Missing(edges, chains), |queue|
    {
      var child := queue[0];
      assert queue == [child] + queue[1..];
      IndexRow(edges, parentsByMember, child);
      paths, queue, chains :=
        ExpandConn(edges, direct, labels, reachable, MembersOf(parentsByMember, child), child, paths, queue[1..],
                   chains);
    }
    PathsExplain(edges, direct, labels, chains, paths);
  }

  /** `group_paths_conn`, which is given the reachable groups: the reachability filter
      never excludes a parent, and every reachable group is explained. */
  method GroupPathsConn(db: Db, labels: Labels, userId: Id, reachable: set<Id>) returns (paths: map<Id, string>)
    requires reachable == DbUserGroups(db, userId)
    ensures paths.Keys == reachable
    ensures forall g :: g in paths ==> Explains(NestEdges(db), DirectRows(db, userId), labels, g, paths[g])
  {
    var queue: seq<Id>;
    ghost var chains: Chains;
    paths, queue, chains := SeedPathsConn(db, labels, userId, reachable);
    var parentsByMember := ParentsByMember(db);
    paths := SearchConn(NestEdges(db), DirectRows(db, userId), labels, reachable, parentsByMember, paths, queue,
                        chains);
  }
}
