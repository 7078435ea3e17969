/** Group administration: names, nesting edges and the cycle check that guards
    every insertion of an edge. */
module GroupNesting {
  import opened Text
  import opened CoreModel
  import opened Reach

  datatype Group = Group(id: Id, name: string, description: string)

  // The memory adapter keys groups by name and nesting by parent id.
  type Groups = map<string, Group>
  type Nests = map<Id, seq<Id>>

  /** Edges from a parent group to its member groups. */
  function EdgesOf(nests: Nests): Edges {
    set parent, member | parent in nests && member in nests[parent] :: (parent, member)
  }

  ghost predicate NoDuplicates(nests: Nests) {
    forall parent :: parent in nests ==>
      forall i, j :: 0 <= i < j < |nests[parent]| ==> nests[parent][i] != nests[parent][j]
  }

  function MembersOf(nests: Nests, parent: Id): seq<Id> {
    if parent in nests then nests[parent] else []
  }

  function RemoveFirst(s: seq<Id>, x: Id): seq<Id> {
    if s == [] then [] else if s[0] == x then s[1..] else [s[0]] + RemoveFirst(s[1..], x)
  }

  // ---- resolving names -----------------------------------------------------------

  /** An id wins over a name. */
  function ResolveGroupId(groups: Groups, group: string): Option<Id> {
    if exists n :: n in groups && groups[n].id == group then Some(group)
    else if group in groups then Some(groups[group].id)
    else None
  }

  /** What a reference means: it is the id of a stored group, or the name of one while no
      group has it as its id. */
  ghost predicate Names(groups: Groups, ref: string, id: Id) {
    exists n :: n in groups && groups[n].id == id && (id == ref || (n == ref && !IsGroupId(groups, ref)))
  }

  ghost predicate IsGroupId(groups: Groups, id: Id) {
    exists n :: n in groups && groups[n].id == id
  }

  /** Resolution finds exactly the id that is meant, and fails exactly when none is. */
  lemma ResolutionIsExact(groups: Groups, ref: string)
    ensures forall id :: Names(groups, ref, id) <==> ResolveGroupId(groups, ref) == Some(id)
    ensures ResolveGroupId(groups, ref).None? <==> !IsGroupId(groups, ref) && ref !in groups
  {
    if IsGroupId(groups, ref) {
      var n :| n in groups && groups[n].id == ref;
      assert Names(groups, ref, ref);
    } else if ref in groups {
      assert Names(groups, ref, groups[ref].id);
    }
  }

  /** In every reachable state the groups are kept under their own trimmed names. */
  ghost predicate KeptByName(groups: Groups) {
    forall n :: n in groups ==> groups[n].name == n == Trim(n) && n != ""
  }

  // ---- the cycle check -----------------------------------------------------------

  /** What the search knows between two pops: everything met is a descendant, and
      the edges of a seen group lead to groups that are seen or still stacked. */
  ghost predicate Searching(edges: Edges, root: Id, seen: set<Id>, stack: seq<Id>) {
    && (forall x :: x in seen || x in stack ==> Reaches(edges, {root}, x))
    && (root in seen || root in stack)
    && (forall e :: e in edges && e.0 in seen ==> e.1 in seen || e.1 in stack)
  }

  lemma SkipSeen(edges: Edges, root: Id, seen: set<Id>, rest: seq<Id>, group: Id)
    requires Searching(edges, root, seen, rest + [group]) && group in seen
    ensures Searching(edges, root, seen, rest)
  {
    assert forall x :: x in rest + [group] <==> x in rest || x == group;
  }

  lemma Visit(nests: Nests, root: Id, seen: set<Id>, rest: seq<Id>, group: Id)
    requires Searching(EdgesOf(nests), root, seen, rest + [group])
    ensures Searching(EdgesOf(nests), root, seen + {group}, rest + MembersOf(nests, group))
  {
    var edges := EdgesOf(nests);
    var members := MembersOf(nests, group);
    assert forall x :: x in rest + [group] <==> x in rest || x == group;
    assert forall x :: x in rest + members <==> x in rest || x in members;
    assert group in rest + [group];
    forall m | m in members ensures Reaches(edges, {root}, m) {
      assert (group, m) in edges;
      StepReaches(edges, {root}, group, m);
    }
  }

  lemma SearchIsComplete(edges: Edges, root: Id, seen: set<Id>, x: Id)
    requires Searching(edges, root, seen, []) && x !in seen
    ensures !Reaches(edges, {root}, x)
  {
    InClosure(edges, {root}, x);
    ClosureIsLeast(edges, {root}, seen);
  }

  lemma ReachableIsKnown(edges: Edges, root: Id, x: Id)
    requires Reaches(edges, {root}, x)
    ensures x in {root} + Targets(edges)
  {
    InClosure(edges, {root}, x);
  }

  /** Depth-first search from the member down to its descendants. */
  method GroupGroupWouldCycle(nests: Nests, parent: Id, member: Id) returns (cycle: bool)
    ensures cycle <==> Reaches(EdgesOf(nests), {member}, parent)
  {
    ghost var edges := EdgesOf(nests);
    ghost var unseen := {member} + Targets(edges);
    var seen: set<Id> := {};
    var stack := [member];
    SeedReaches(edges, {member}, member);
    while |stack| > 0
      invariant parent !in seen
      invariant Searching(edges, member, seen, stack)
      invariant unseen == {member} + Targets(edges) - seen
      decreases unseen, |stack|
    {
      var group := stack[|stack| - 1];
      ghost var rest := stack[..|stack| - 1];
      assert stack == rest + [group];
      assert group in stack;
      stack := stack[..|stack| - 1];
      if group == parent {
        return true;
      }
      if group in seen {
        SkipSeen(edges, member, seen, rest, group);
        continue;
      }
      ReachableIsKnown(edges, member, group);
      Visit(nests, member, seen, rest, group);
      seen := seen + {group};
      unseen := unseen - {group};
      if group in nests {
        var members := nests[group];
        for i := 0 to |members|
          invariant stack == rest + members[..i]
        {
          stack := stack + [members[i]];
        }
        assert members[..|members|] == members;
      } else {
        assert rest + [] == rest;
      }
      assert stack == rest + MembersOf(nests, group);
    }
    assert stack == [];
    SearchIsComplete(edges, member, seen, parent);
    return false;
  }

  // ---- the specification: what one administrative call does to the nesting -------

  datatype State = State(groups: Groups, nests: Nests)

  datatype Op =
    | AddGroup(name: string, description: string, freshId: Id)
    | Nest(parent: string, member: string)
    | Unnest(parent: string, member: string)

  const EMPTY_NAME := InvalidArgument("group name must not be empty")
  const SELF_NEST := InvalidArgument("group cannot contain itself")
  const CYCLE := InvalidArgument("group nesting would create a cycle")

  ghost function NestGroups(s: State, parent: string, member: string): (State, Result<()>) {
    match (ResolveGroupId(s.groups, parent), ResolveGroupId(s.groups, member))
    case (Some(p), Some(m)) =>
      if p == m then (s, Err(SELF_NEST))
      else if (p, m) in EdgesOf(s.nests) then (s, Ok(()))
      else if Reaches(EdgesOf(s.nests), {m}, p) then (s, Err(CYCLE))
      else (s.(nests := s.nests[p := MembersOf(s.nests, p) + [m]]), Ok(()))
    case _ => (s, Err(NotFound))
  }

  function UnnestGroups(s: State, parent: string, member: string): (State, Result<()>) {
    match (ResolveGroupId(s.groups, parent), ResolveGroupId(s.groups, member))
    case (Some(p), Some(m)) =>
      if m in MembersOf(s.nests, p)
      then (s.(nests := s.nests[p := RemoveFirst(MembersOf(s.nests, p), m)]), Ok(()))
      else (s, Err(NotFound))
    case _ => (s, Err(NotFound))
  }

  ghost function Apply(s: State, op: Op): State {
    match op
    case AddGroup(name, description, freshId) =>
      if Trim(name) == "" then s
      else s.(groups := s.groups[Trim(name) := Group(freshId, Trim(name), description)])
    case Nest(parent, member) => NestGroups(s, parent, member).0
    case Unnest(parent, member) => UnnestGroups(s, parent, member).0
  }

  ghost function Run(s: State, ops: seq<Op>): State {
    if ops == [] then s else Apply(Run(s, ops[..|ops| - 1]), ops[|ops| - 1])
  }

  const EMPTY := State(map[], map[])

  // ---- what every call keeps ----------------------------------------------------

  ghost predicate Safe(nests: Nests) {
    Acyclic(EdgesOf(nests)) && NoDuplicates(nests)
  }

  lemma AppendedEdges(nests: Nests, p: Id, m: Id)
    ensures EdgesOf(nests[p := MembersOf(nests, p) + [m]]) == EdgesOf(nests) + {(p, m)}
  {
    var after := nests[p := MembersOf(nests, p) + [m]];
    forall e ensures e in EdgesOf(after) <==> e in EdgesOf(nests) + {(p, m)} {
      assert e.0 != p ==> (e.0 in after <==> e.0 in nests);
      assert m in after[p];
      if e.0 == p && e.1 != m {
        assert e.1 in after[p] <==> e.1 in MembersOf(nests, p);
      }
    }
  }

  lemma {:induction false} RemoveFirstElements(s: seq<Id>, x: Id)
    requires forall i, j :: 0 <= i < j < |s| ==> s[i] != s[j]
    ensures forall y :: y in RemoveFirst(s, x) <==> y in s && y != x
    ensures forall i, j :: 0 <= i < j < |RemoveFirst(s, x)| ==> RemoveFirst(s, x)[i] != RemoveFirst(s, x)[j]
  {
    if s != [] {
      RemoveFirstElements(s[1..], x);
      assert forall y :: y in s <==> y == s[0] || y in s[1..];
      if s[0] != x {
        var r := RemoveFirst(s[1..], x);
        forall j | 0 <= j < |r| ensures s[0] != r[j] {
          assert r[j] in r;
        }
      }
    }
  }

  lemma RemovedEdges(nests: Nests, p: Id, m: Id)
    requires NoDuplicates(nests) && p in nests
    ensures EdgesOf(nests[p := RemoveFirst(nests[p], m)]) == EdgesOf(nests) - {(p, m)}
    ensures NoDuplicates(nests[p := RemoveFirst(nests[p], m)])
  {
    RemoveFirstElements(nests[p], m);
    var after := nests[p := RemoveFirst(nests[p], m)];
    forall e ensures e in EdgesOf(after) <==> e in EdgesOf(nests) - {(p, m)} {
      assert e.0 != p ==> (e.0 in after <==> e.0 in nests);
    }
  }

  ghost predicate NamesBoth(groups: Groups, parent: string, member: string, p: Id, m: Id) {
    Names(groups, parent, p) && Names(groups, member, m)
  }

  /** The answer of a nesting call about the groups p and m. */
  ghost function NestingAnswer(edges: Edges, p: Id, m: Id): Result<()> {
    if p == m then Err(SELF_NEST) else if Acyclic(edges + {(p, m)}) then Ok(()) else Err(CYCLE)
  }

  /** The check is exact: among safe states, nesting joins the two groups that are named
      precisely when the graph with that edge is acyclic, and is otherwise
      refused without a change. */
  lemma NestingIsExact(s: State, parent: string, member: string)
    requires Safe(s.nests)
    ensures
      var (after, r) := NestGroups(s, parent, member);
      && Safe(after.nests) && after.groups == s.groups
      && (!r.Ok? ==> after == s)
      && (r == Err(NotFound) || exists p, m :: NamesBoth(s.groups, parent, member, p, m))
      && forall p, m :: NamesBoth(s.groups, parent, member, p, m) ==>
           && r == NestingAnswer(EdgesOf(s.nests), p, m)
           && (r.Ok? ==> EdgesOf(after.nests) == EdgesOf(s.nests) + {(p, m)})
  {
    ResolutionIsExact(s.groups, parent);
    ResolutionIsExact(s.groups, member);
    hide ResolveGroupId, Acyclic, Reaches, Names;
    match (ResolveGroupId(s.groups, parent), ResolveGroupId(s.groups, member))
    case (Some(p), Some(m)) =>
      var edges := EdgesOf(s.nests);
      AddEdgeKeepsAcyclic(edges, p, m);
      AppendedEdges(s.nests, p, m);
      if p == m {
        SeedReaches(edges, {m}, p);
      } else if (p, m) in edges {
        assert edges + {(p, m)} == edges;
      }
      assert NamesBoth(s.groups, parent, member, p, m);
    case _ =>
  }

  /** Un-nesting removes the edge between the two groups that are named, if there is one. */
  lemma UnnestingRemovesTheEdge(s: State, parent: string, member: string)
    requires Safe(s.nests)
    ensures
      var (after, r) := UnnestGroups(s, parent, member);
      && Safe(after.nests) && after.groups == s.groups
      && (!r.Ok? ==> after == s && r == Err(NotFound))
      && (r.Ok? ==> exists p, m :: NamesBoth(s.groups, parent, member, p, m))
      && forall p, m :: NamesBoth(s.groups, parent, member, p, m) ==>
           && (r.Ok? <==> (p, m) in EdgesOf(s.nests))
           && (r.Ok? ==> EdgesOf(after.nests) == EdgesOf(s.nests) - {(p, m)})
  {
    ResolutionIsExact(s.groups, parent);
    ResolutionIsExact(s.groups, member);
    hide ResolveGroupId, Acyclic, Reaches, Names;
    match (ResolveGroupId(s.groups, parent), ResolveGroupId(s.groups, member))
    case (Some(p), Some(m)) =>
      if m in MembersOf(s.nests, p) {
        RemovedEdges(s.nests, p, m);
        FewerEdgesStayAcyclic(EdgesOf(s.nests) - {(p, m)}, EdgesOf(s.nests));
      }
      assert NamesBoth(s.groups, parent, member, p, m);
    case _ =>
  }

  /** Nesting and then un-nesting a pair restores the edges. */
  lemma UnnestUndoesNest(s: State, parent: string, member: string)
    requires Safe(s.nests)
    requires NestGroups(s, parent, member).1.Ok? && NestGroups(s, parent, member).0 != s
    ensures
      var (nested, _) := NestGroups(s, parent, member);
      var (after, r) := UnnestGroups(nested, parent, member);
      r.Ok? && EdgesOf(after.nests) == EdgesOf(s.nests)
  {
    NestingIsExact(s, parent, member);
    var (nested, _) := NestGroups(s, parent, member);
    UnnestingRemovesTheEdge(nested, parent, member);
    var p, m :| NamesBoth(s.groups, parent, member, p, m);
    NestedEdgeIsNew(s, parent, member, p, m);
    assert EdgesOf(s.nests) + {(p, m)} - {(p, m)} == EdgesOf(s.nests);
  }

  lemma NestedEdgeIsNew(s: State, parent: string, member: string, p: Id, m: Id)
    requires NestGroups(s, parent, member).0 != s && NamesBoth(s.groups, parent, member, p, m)
    ensures (p, m) !in EdgesOf(s.nests)
  {
    ResolutionIsExact(s.groups, parent);
    ResolutionIsExact(s.groups, member);
  }

  lemma EmptyIsSafe()
    ensures Safe(map[])
  {
    var none: Edges := {};
    assert EdgesOf(map[]) == none;
    forall p | |p| >= 2 ensures !Chain(none, p) {
      assert (p[0], p[0 + 1]) !in none;
    }
  }

  /** Over every run from the empty store the nesting is acyclic and holds no
      edge twice. */
  lemma {:induction false} EveryRunIsSafe(ops: seq<Op>)
    ensures Safe(Run(EMPTY, ops).nests)
  {
    if ops != [] {
      var before := Run(EMPTY, ops[..|ops| - 1]);
      EveryRunIsSafe(ops[..|ops| - 1]);
      match ops[|ops| - 1]
      case AddGroup(_, _, _) =>
      case Nest(p, m) => NestingIsExact(before, p, m);
      case Unnest(p, m) => UnnestingRemovesTheEdge(before, p, m);
    } else {
      EmptyIsSafe();
    }
  }

  /** The i-th call asked for this edge: it named the two groups when it was made. */
  ghost predicate AsksFor(ops: seq<Op>, i: nat, e: (Id, Id)) {
    i < |ops| && ops[i].Nest? && NamesBoth(Run(EMPTY, ops[..i]).groups, ops[i].parent, ops[i].member, e.0, e.1)
  }

  /** Over every run, every edge joins two groups that some nesting call named. */
  lemma {:induction false} EveryEdgeWasAskedFor(ops: seq<Op>, e: (Id, Id)) returns (i: nat)
    requires e in EdgesOf(Run(EMPTY, ops).nests)
    ensures AsksFor(ops, i, e)
  {
    assert ops != [] by { assert EdgesOf(map[]) == {}; }
    var before := ops[..|ops| - 1];
    var s, op := Run(EMPTY, before), ops[|ops| - 1];
    EveryRunIsSafe(before);
    hide Run;
    NextState(ops);
    match op {
      case AddGroup(_, _, _) =>
      case Nest(parent, member) => NestingIsExact(s, parent, member);
      case Unnest(parent, member) => UnnestingAddsNothing(s, parent, member);
    }
    if e in EdgesOf(s.nests) {
      i := EveryEdgeWasAskedFor(before, e);
      assert before[..i] == ops[..i];
    } else {
      i := |ops| - 1;
      hide EdgesOf, NestingAnswer;
      var p, m :| NamesBoth(s.groups, op.parent, op.member, p, m);
      assert e == (p, m);
    }
  }

  lemma UnnestingAddsNothing(s: State, parent: string, member: string)
    requires Safe(s.nests)
    ensures EdgesOf(UnnestGroups(s, parent, member).0.nests) <= EdgesOf(s.nests)
  {
    UnnestingRemovesTheEdge(s, parent, member);
    hide EdgesOf, UnnestGroups;
    if UnnestGroups(s, parent, member).1.Ok? {
      var p, m :| NamesBoth(s.groups, parent, member, p, m);
    }
  }

  lemma NextState(ops: seq<Op>)
    requires ops != []
    ensures Run(EMPTY, ops) == Apply(Run(EMPTY, ops[..|ops| - 1]), ops[|ops| - 1])
  {
  }

  lemma {:induction false} EveryRunKeepsNames(ops: seq<Op>)
    ensures KeptByName(Run(EMPTY, ops).groups)
  {
    if ops != [] {
      var before := Run(EMPTY, ops[..|ops| - 1]);
      EveryRunKeepsNames(ops[..|ops| - 1]);
      EveryRunIsSafe(ops[..|ops| - 1]);
      match ops[|ops| - 1]
      case AddGroup(name, _, _) => TrimIdempotent(name);
      case Nest(p, m) => NestingIsExact(before, p, m);
      case Unnest(p, m) => UnnestingRemovesTheEdge(before, p, m);
    }
  }

  // ---- the memory store -----------------------------------------------------------

  class GroupStore {
    var groups: Groups
    var groupGroups: Nests

    ghost function Contents(): State
      reads this
    {
      State(groups, groupGroups)
    }

    ghost predicate Valid()
      reads this
    {
      Safe(groupGroups)
    }

    constructor ()
      ensures Valid() && Contents() == EMPTY
    {
      groups, groupGroups := map[], map[];
      new;
      EmptyIsSafe();
    }

    method AddGroup(name: string, description: string, freshId: Id) returns (r: Result<Group>)
      requires Valid()
      modifies this
      ensures Valid()
      ensures Contents() == Apply(old(Contents()), Op.AddGroup(name, description, freshId))
      ensures r == if Trim(name) == "" then Err(EMPTY_NAME) else Ok(Group(freshId, Trim(name), description))
    {
      if Trim(name) == "" {
        return Err(EMPTY_NAME);
      }
      var group := Group(freshId, Trim(name), description);
      groups := groups[group.name := group];
      return Ok(group);
    }

    method AddGroupGroup(parent: string, member: string) returns (r: Result<()>)
      requires Valid()
      modifies this`groupGroups
      ensures Valid()
      ensures (Contents(), r) == NestGroups(old(Contents()), parent, member)
    {
      NestingIsExact(Contents(), parent, member);
      var p := ResolveGroupId(groups, parent);
      if p.None? {
        return Err(NotFound);
      }
      var m := ResolveGroupId(groups, member);
      if m.None? {
        return Err(NotFound);
      }
      if p == m {
        return Err(SELF_NEST);
      }
      if p.value in groupGroups && m.value in groupGroups[p.value] {
        return Ok(());
      }
      var cycle := GroupGroupWouldCycle(groupGroups, p.value, m.value);
      if cycle {
        return Err(CYCLE);
      }
      var members := if p.value in groupGroups then groupGroups[p.value] else [];
      groupGroups := groupGroups[p.value := members + [m.value]];
      return Ok(());
    }

    method RemoveGroupGroup(parent: string, member: string) returns (r: Result<()>)
      requires Valid()
      modifies this`groupGroups
      ensures Valid()
      ensures (Contents(), r) == UnnestGroups(old(Contents()), parent, member)
    {
      UnnestingRemovesTheEdge(Contents(), parent, member);
      var p := ResolveGroupId(groups, parent);
      if p.None? {
        return Err(NotFound);
      }
      var m := ResolveGroupId(groups, member);
      if m.None? || p.value !in groupGroups {
        return Err(NotFound);
      }
      var members := groupGroups[p.value];
      if m.value !in members {
        return Err(NotFound);
      }
      groupGroups := groupGroups[p.value := RemoveFirst(members, m.value)];
      return Ok(());
    }
  }
}
