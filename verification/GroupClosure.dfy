/** The loops that compute a user's groups: over tuples, over the recursive query,
    and over the memory store. All return the same least closed set. */
module GroupClosure {
  import opened Text
  import opened CoreModel
  import opened Reach
  import opened Tuples
  import opened GroupNesting

  predicate Settled(t: Tuple, groupIds: set<Id>) {
    IsMemberTuple(t) && UsersetGroup(t).Some? && UsersetGroup(t).value in groupIds ==> t.objectId in groupIds
  }

  /** Found groups are the user's. */
  ghost predicate Reaching(edges: Edges, seeds: set<Id>, groupIds: set<Id>) {
    seeds <= groupIds && forall g :: g in groupIds ==> Reaches(edges, seeds, g)
  }

  lemma FollowTuple(tuples: seq<Tuple>, seeds: set<Id>, groupIds: set<Id>, t: Tuple)
    requires Reaching(UpEdges(tuples), seeds, groupIds) && t in tuples && !Settled(t, groupIds)
    ensures Reaching(UpEdges(tuples), seeds, groupIds + {t.objectId})
    ensures |Targets(UpEdges(tuples)) - (groupIds + {t.objectId})| < |Targets(UpEdges(tuples)) - groupIds|
  {
    var edges := UpEdges(tuples);
    assert (UsersetGroup(t).value, t.objectId) in edges;
    StepReaches(edges, seeds, UsersetGroup(t).value, t.objectId);
    assert t.objectId in Targets(edges) - groupIds;
    assert Targets(edges) - (groupIds + {t.objectId}) == (Targets(edges) - groupIds) - {t.objectId};
  }

  lemma AllSettled(tuples: seq<Tuple>, groupIds: set<Id>)
    requires forall t :: t in tuples ==> Settled(t, groupIds)
    ensures Closed(UpEdges(tuples), groupIds)
  {
  }

  /** One pass over the tuples: a changing pass finds a group, another settles them all. */
  method PassOverTuples(tuples: seq<Tuple>, ghost seeds: set<Id>, before: set<Id>)
      returns (groupIds: set<Id>, changed: bool)
    requires Reaching(UpEdges(tuples), seeds, before)
    ensures Reaching(UpEdges(tuples), seeds, groupIds)
    ensures changed ==> |Targets(UpEdges(tuples)) - groupIds| < |Targets(UpEdges(tuples)) - before|
    ensures !changed ==> groupIds == before && Closed(UpEdges(tuples), groupIds)
  {
    hide Reaching, UpEdges, Targets, Closed;
    groupIds, changed := before, false;
    for i := 0 to |tuples|
      invariant Reaching(UpEdges(tuples), seeds, groupIds)
      invariant changed ==> |Targets(UpEdges(tuples)) - groupIds| < |Targets(UpEdges(tuples)) - before|
      invariant !changed ==> groupIds == before && forall j :: 0 <= j < i ==> Settled(tuples[j], groupIds)
    {
      var t := tuples[i];
      if IsMemberTuple(t) && t.subjectType == "group" {
        var member := StripSuffix(t.subjectId, MEMBER_SUFFIX);
        if member.Some? && member.value in groupIds && t.objectId !in groupIds {
          FollowTuple(tuples, seeds, groupIds, t);
          groupIds := groupIds + {t.objectId};
          changed := true;
        }
      }
    }
    if !changed { AllSettled(tuples, groupIds); }
  }

  /** `reachable_group_ids_from_tuples`: passes over the tuples until one changes nothing. */
  method ReachableGroupIdsFromTuples(tuples: seq<Tuple>, userId: string) returns (groupIds: set<Id>)
    ensures groupIds == UserGroups(tuples, userId)
  {
    ghost var edges, seeds := UpEdges(tuples), DirectGroups(tuples, userId);
    groupIds := DirectGroups(tuples, userId);
    forall g | g in seeds ensures Reaches(edges, seeds, g) { SeedReaches(edges, seeds, g); }
    var changed := true;
    while changed
      invariant Reaching(edges, seeds, groupIds)
      invariant !changed ==> Closed(edges, groupIds)
      decreases |Targets(edges) - groupIds|, changed
    {
      groupIds, changed := PassOverTuples(tuples, seeds, groupIds);
    }
    ClosedAndReachableIsClosure(edges, seeds, groupIds);
  }

  // ---- the recursive query ----------------------------------------------------------

  function NestEdges(db: Db): Edges {
    set n | n in db.nests :: (n.memberGroupId, n.groupId)
  }

  function DirectRows(db: Db, userId: Id): set<Id> {
    set m | m in db.members && m.userId == userId :: m.groupId
  }

  /** `user_groups` of the recursive queries. */
  ghost function DbUserGroups(db: Db, userId: Id): set<Id> {
    Closure(NestEdges(db), DirectRows(db, userId))
  }

  function ParentsOf(db: Db, member: Id): (parents: set<Id>)
    ensures forall p :: p in parents <==> (member, p) in NestEdges(db)
  {
    set n | n in db.nests && n.memberGroupId == member :: n.groupId
  }

  ghost predicate Expanding(edges: Edges, seeds: set<Id>, groups: set<Id>, queue: set<Id>) {
    && seeds <= groups && queue <= groups
    && (forall g :: g in groups ==> Reaches(edges, seeds, g))
    && (forall e :: e in edges && e.0 in groups && e.0 !in queue ==> e.1 in groups)
  }

  /** Joining the queued row g admits what its edges lead to. */
  lemma Expand(edges: Edges, seeds: set<Id>, groups: set<Id>, queue: set<Id>, g: Id, joined: set<Id>)
    requires Expanding(edges, seeds, groups, queue) && g in queue
    requires forall x :: x in joined <==> (g, x) in edges
    ensures
      var added := joined - groups;
      && Expanding(edges, seeds, groups + added, queue - {g} + added)
      && added <= Targets(edges) - groups
  {
    var added := joined - groups;
    forall p | p in added ensures Reaches(edges, seeds, p) && p in Targets(edges) {
      assert (g, p) in edges;
      StepReaches(edges, seeds, g, p);
    }
    forall e | e in edges && e.0 in groups + added && e.0 !in queue - {g} + added ensures e.1 in groups + added {
      if e.0 == g { assert (g, e.1) in edges; }
    }
  }

  lemma SeedsExpanding(edges: Edges, seeds: set<Id>)
    ensures Expanding(edges, seeds, seeds, seeds)
  {
    forall g | g in seeds ensures Reaches(edges, seeds, g) { SeedReaches(edges, seeds, g); }
  }

  lemma ExhaustedIsClosure(edges: Edges, seeds: set<Id>, found: set<Id>)
    requires Expanding(edges, seeds, found, {})
    ensures found == Closure(edges, seeds)
  {
    ClosedAndReachableIsClosure(edges, seeds, found);
  }

  /** Evaluates `WITH RECURSIVE user_groups` as SQL defines it: rows wait in a
      queue, and UNION admits a row only once. */
  method RecursiveUserGroups(db: Db, userId: Id) returns (groups: set<Id>)
    ensures groups == DbUserGroups(db, userId)
  {
    ghost var edges, seeds := NestEdges(db), DirectRows(db, userId);
    SeedsExpanding(edges, seeds);
    hide Expanding, Targets, Closure, NestEdges;
    groups := DirectRows(db, userId);
    var queue := groups;
    ghost var missing := Targets(edges) - groups;
    while queue != {}
      invariant Expanding(edges, seeds, groups, queue)
      invariant missing == Targets(edges) - groups
      decreases missing, queue
    {
      var g :| g in queue;
      var added := ParentsOf(db, g) - groups;
      Expand(edges, seeds, groups, queue, g, ParentsOf(db, g));
      groups := groups + added;
      queue := queue - {g} + added;
      if added == {} {
        assert queue + {g} > queue;
      }
      missing := missing - added;
    }
    ExhaustedIsClosure(edges, seeds, groups);
  }

  lemma {:induction false} SelectMembersElements(rows: seq<MemberRow>, t: Tuple)
    ensures t in SelectMembers(rows, NO_FILTER) <==> exists m :: m in rows && t == MemberTuple(m)
  {
    if rows != [] {
      SelectMembersElements(rows[1..], t);
      assert rows[0] in rows;
      assert forall m :: m in rows <==> m == rows[0] || m in rows[1..];
    }
  }

  lemma {:induction false} SelectNestsElements(rows: seq<NestRow>, t: Tuple)
    ensures t in SelectNests(rows, NO_FILTER, None) <==> exists n :: n in rows && t == NestTuple(n)
  {
    if rows != [] {
      SelectNestsElements(rows[1..], t);
      assert rows[0] in rows;
      assert forall n :: n in rows <==> n == rows[0] || n in rows[1..];
    }
  }

  lemma {:induction false} SelectGrantsAreResources(db: Db, rows: seq<GrantRow>, t: Tuple)
    requires t in SelectGrants(db, rows, NO_FILTER)
    ensures t.objectType == "resource"
  {
    if rows != []
      && !(GrantWhere(db, NO_FILTER, rows[0])
           && t == GrantTuple(db.repositories[rows[0].repositoryId].loreId, rows[0])) {
      SelectGrantsAreResources(db, rows[1..], t);
    }
  }

  lemma MemberTuplesOf(db: Db, t: Tuple)
    requires IsMemberTuple(t)
    ensures t in ReadTuples(db, NO_FILTER)
       <==> (exists m :: m in db.members && t == MemberTuple(m)) || (exists n :: n in db.nests && t == NestTuple(n))
  {
    var grants := SelectGrants(db, db.grants, NO_FILTER);
    assert ReadTuples(db, NO_FILTER)
        == grants + (SelectMembers(db.members, NO_FILTER) + SelectNests(db.nests, NO_FILTER, None));
    if t in grants { SelectGrantsAreResources(db, db.grants, t); }
    SelectMembersElements(db.members, t);
    SelectNestsElements(db.nests, t);
  }

  /** The tuple view and the table view of a user's groups are one set, so the
      fixpoint over tuples and the recursive query agree. */
  lemma TuplesAndTablesAgree(db: Db, userId: Id)
    ensures UserGroups(ReadTuples(db, NO_FILTER), userId) == DbUserGroups(db, userId)
  {
    var ts := ReadTuples(db, NO_FILTER);
    forall e ensures e in UpEdges(ts) <==> e in NestEdges(db) {
      if e in UpEdges(ts) {
        var t :| t in ts && IsMemberTuple(t) && UsersetGroup(t) == Some(e.0) && t.objectId == e.1;
        MemberTuplesOf(db, t);
        var n :| n in db.nests && t == NestTuple(n);
        StripSuffixOfConcat(n.memberGroupId, MEMBER_SUFFIX);
      }
      if e in NestEdges(db) {
        var n :| n in db.nests && e == (n.memberGroupId, n.groupId);
        MemberTuplesOf(db, NestTuple(n));
        StripSuffixOfConcat(n.memberGroupId, MEMBER_SUFFIX);
        assert UsersetGroup(NestTuple(n)) == Some(e.0);
      }
    }
    forall g ensures g in DirectGroups(ts, userId) <==> g in DirectRows(db, userId) {
      if g in DirectGroups(ts, userId) {
        var t :| t in ts && IsDirectMember(t, userId) && t.objectId == g;
        MemberTuplesOf(db, t);
        var m :| m in db.members && t == MemberTuple(m);
      }
      if g in DirectRows(db, userId) {
        var m :| m in db.members && m.userId == userId && m.groupId == g;
        MemberTuplesOf(db, MemberTuple(m));
        assert IsDirectMember(MemberTuple(m), userId);
      }
    }
    assert UpEdges(ts) == NestEdges(db);
    assert DirectGroups(ts, userId) == DirectRows(db, userId);
  }

  // ---- the memory store ---------------------------------------------------------------

  /** The groups a memory-store user was added to, by id or name, that still resolve. */
  function DirectGroupIdsForUser(groups: Groups, groupMembers: map<Id, seq<string>>, userId: Id): set<Id> {
    set g | g in MembersOf(groupMembers, userId) && ResolveGroupId(groups, g).Some? :: ResolveGroupId(groups, g).value
  }

  /** They are the ids of the stored groups that the user's entries name. */
  lemma DirectGroupsAreNamed(groups: Groups, groupMembers: map<Id, seq<string>>, userId: Id, id: Id)
    ensures id in DirectGroupIdsForUser(groups, groupMembers, userId)
       <==> userId in groupMembers && exists ref :: ref in groupMembers[userId] && Names(groups, ref, id)
    ensures id in DirectGroupIdsForUser(groups, groupMembers, userId) ==> IsGroupId(groups, id)
  {
    forall ref ensures Names(groups, ref, id) <==> ResolveGroupId(groups, ref) == Some(id) {
      ResolutionIsExact(groups, ref);
    }
    hide ResolveGroupId;
  }

  ghost function MemoryUserGroups(groups: Groups, groupMembers: map<Id, seq<string>>, nests: Nests, userId: Id): set<Id>
  {
    Closure(Reversed(EdgesOf(nests)), DirectGroupIdsForUser(groups, groupMembers, userId))
  }

  predicate AnyIn(members: seq<Id>, found: set<Id>) {
    exists m :: m in members && m in found
  }

  /** What a pass knows: found groups are the user's, and the parents not found that
      it has looked at contain none of them. */
  ghost predicate Passing(nests: Nests, seeds: set<Id>, found: set<Id>, looked: set<Id>) {
    && seeds <= found
    && (forall g :: g in found ==> Reaches(Reversed(EdgesOf(nests)), seeds, g))
    && (forall p :: p in looked && p in nests && p !in found ==> !AnyIn(nests[p], found))
  }

  lemma FindParent(nests: Nests, seeds: set<Id>, found: set<Id>, parent: Id)
    requires Passing(nests, seeds, found, {}) && parent in nests && AnyIn(nests[parent], found)
    ensures Passing(nests, seeds, found + {parent}, {})
  {
    var m :| m in nests[parent] && m in found;
    assert (parent, m) in EdgesOf(nests);
    StepReaches(Reversed(EdgesOf(nests)), seeds, m, parent);
  }

  lemma PassesAreDone(nests: Nests, seeds: set<Id>, found: set<Id>)
    requires Passing(nests, seeds, found, nests.Keys)
    ensures found == Closure(Reversed(EdgesOf(nests)), seeds)
  {
    var edges := Reversed(EdgesOf(nests));
    forall e | e in edges && e.0 in found ensures e.1 in found {
      assert (e.1, e.0) in EdgesOf(nests);
      assert e.1 in nests && e.0 in nests[e.1];
    }
    ClosedAndReachableIsClosure(edges, seeds, found);
  }

  method GroupKeys(found: set<Id>) returns (out: seq<(string, Id)>)
    ensures forall key :: key in out <==> key.0 == "group" && key.1 in found
    ensures forall i, j :: 0 <= i < j < |out| ==> out[i] != out[j]
  {
    out := [];
    var rest := found;
    while rest != {}
      invariant rest <= found
      invariant forall key :: key in out <==> key.0 == "group" && key.1 in found - rest
      invariant forall i, j :: 0 <= i < j < |out| ==> out[i] != out[j]
    {
      var g :| g in rest;
      assert ("group", g) !in out;
      rest := rest - {g};
      out := out + [("group", g)];
    }
  }

  ghost function Missing(nests: Nests, found: set<Id>): nat {
    |nests.Keys - found|
  }

  /** Looks at one parent within a pass. */
  method LookAt(nests: Nests, ghost seeds: set<Id>, ghost looked: set<Id>, before: set<Id>, changedBefore: bool,
                parent: Id)
      returns (found: set<Id>, changed: bool)
    requires parent in nests && Passing(nests, seeds, before, if changedBefore then {} else looked)
    ensures Passing(nests, seeds, found, if changed then {} else looked + {parent})
    ensures (found == before && changed == changedBefore) || (changed && Missing(nests, found) < Missing(nests, before))
  {
    found, changed := before, changedBefore;
    if AnyIn(nests[parent], found) && parent !in found {
      PassingForgets(nests, seeds, found, if changed then {} else looked);
      FindParent(nests, seeds, found, parent);
      assert nests.Keys - (found + {parent}) == (nests.Keys - found) - {parent};
      found := found + {parent};
      changed := true;
    }
  }

  /** One pass over the nesting lists: a changing pass finds a group, another settles them all. */
  method PassOnce(nests: Nests, ghost seeds: set<Id>, before: set<Id>) returns (found: set<Id>, changed: bool)
    requires Passing(nests, seeds, before, {})
    ensures Passing(nests, seeds, found, if changed then {} else nests.Keys)
    ensures changed ==> Missing(nests, found) < Missing(nests, before)
    ensures !changed ==> found == before
  {
    hide Passing, Missing;
    found, changed := before, false;
    var remaining := nests.Keys;
    ghost var looked: set<Id> := {};
    while remaining != {}
      invariant looked + remaining == nests.Keys
      invariant Passing(nests, seeds, found, if changed then {} else looked)
      invariant changed ==> Missing(nests, found) < Missing(nests, before)
      invariant !changed ==> found == before
      decreases |remaining|
    {
      var parent :| parent in remaining;
      remaining := remaining - {parent};
      found, changed := LookAt(nests, seeds, looked, found, changed, parent);
      looked := looked + {parent};
    }
  }

  lemma PassingForgets(nests: Nests, seeds: set<Id>, found: set<Id>, looked: set<Id>)
    requires Passing(nests, seeds, found, looked)
    ensures Passing(nests, seeds, found, {})
  {
  }

  /** Passes until one changes nothing. */
  method Fixpoint(nests: Nests, direct: set<Id>) returns (found: set<Id>)
    ensures found == Closure(Reversed(EdgesOf(nests)), direct)
  {
    found := direct;
    forall g | g in direct ensures Reaches(Reversed(EdgesOf(nests)), direct, g) {
      SeedReaches(Reversed(EdgesOf(nests)), direct, g);
    }
    assert Passing(nests, direct, found, {});
    hide Passing, Missing, EdgesOf, Reversed, Closure;
    var changed := true;
    while changed
      invariant Passing(nests, direct, found, if changed then {} else nests.Keys)
      decreases Missing(nests, found), changed
    {
      found, changed := PassOnce(nests, direct, found);
    }
    PassesAreDone(nests, direct, found);
  }

  /** The keys under which grants can reach the user: the user, then every group. */
  method GrantSubjectKeysForUser(groups: Groups, groupMembers: map<Id, seq<string>>, nests: Nests, userId: Id)
      returns (out: seq<(string, Id)>)
    ensures out != [] && out[0] == ("user", userId)
    ensures forall key :: key in out[1..] <==>
              key.0 == "group" && key.1 in MemoryUserGroups(groups, groupMembers, nests, userId)
    ensures forall i, j :: 1 <= i < j < |out| ==> out[i] != out[j]
  {
    hide Closure, EdgesOf, Reversed, DirectGroupIdsForUser;
    var found := Fixpoint(nests, DirectGroupIdsForUser(groups, groupMembers, userId));
    out := GroupKeys(found);
    out := [("user", userId)] + out;
  }
}
