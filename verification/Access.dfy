/** The ReBAC authorization policy: `can_access` and `list_accessible` over a
    snapshot of the tables, against one inductive definition of access. */
module Access {
  import opened Text
  import opened CoreModel
  import opened Reach
  import opened Tuples
  import opened Resolver
  import opened GroupClosure
  import opened GroupTables
  import GroupNesting

  const UNKNOWN_ROLE := InvalidArgument("unknown grant role")
  const MAX_DEPTH := InvalidArgument("authz: max recursion depth exceeded")

  // ---- the definition of access -----------------------------------------------------

  /** A grant that reaches the user, in person or through a group of theirs. */
  ghost predicate Applies(db: Db, userId: Id, g: GrantRow) {
    || (g.subjectType == "user" && g.subjectId == userId)
    || (g.subjectType == "group" && g.subjectId in DbUserGroups(db, userId))
  }

  predicate IsOn(db: Db, g: GrantRow, loreId: string) {
    ActiveRepository(db, g.repositoryId) && db.repositories[g.repositoryId].loreId == loreId
  }

  /** The roles the user holds on the active repository with this Lore id. */
  ghost predicate HasRole(db: Db, userId: Id, loreId: string, role: string) {
    exists g :: g in db.grants && IsOn(db, g, loreId) && Applies(db, userId, g) && g.role == role
  }

  predicate Decides(role: string, action: string) {
    role == "admin" || RoleAllows(role, action)
  }

  predicate RepositoryExists(db: Db, loreId: string) {
    exists id :: id in db.repositories && ActiveRepository(db, id) && db.repositories[id].loreId == loreId
  }

  /** `lore_repository_id` is unique in the schema. */
  ghost predicate UniqueLoreIds(db: Db) {
    forall a, b :: a in db.repositories && b in db.repositories ==>
      db.repositories[a].loreId == db.repositories[b].loreId ==> a == b
  }

  /** An unknown role of the user sorts before every role that decides the action. */
  ghost predicate UnknownRoleFirst(db: Db, userId: Id, loreId: string, action: string) {
    exists u :: HasRole(db, userId, loreId, u) && !IsKnownRole(u)
             && forall d :: HasRole(db, userId, loreId, d) && Decides(d, action) ==> LexLt(u, d)
  }

  ghost predicate Decided(db: Db, userId: Id, loreId: string, action: string) {
    exists d :: HasRole(db, userId, loreId, d) && Decides(d, action)
  }

  /** What `can_access` answers when the depth limit is not met. */
  ghost function Decision(db: Db, userId: Id, resourceId: string, action: string): Result<bool> {
    var loreId := RepositoryIdFromResourceId(resourceId);
    if !RepositoryExists(db, loreId) then Err(NotFound)
    else if UnknownRoleFirst(db, userId, loreId, action) then Err(UNKNOWN_ROLE)
    else Ok(resourceId == ResourceIdOf(loreId) && Decided(db, userId, loreId, action))
  }

  function NestedGroups(db: Db): set<Id> {
    set n | n in db.nests :: n.memberGroupId
  }

  /** The depth limit exceeds every chain of nested groups. */
  ghost predicate DeepEnough(db: Db, fuel: nat) {
    Acyclic(NestEdges(db)) && fuel >= |NestedGroups(db)| + 2
  }

  /** A chain of nested groups, from a group with a grant down through groups of the user. */
  ghost predicate DepthChain(db: Db, userId: Id, p: seq<Id>) {
    && Chain(Reversed(NestEdges(db)), p)
    && (forall i :: 0 < i < |p| ==> p[i] in DbUserGroups(db, userId))
    && (exists g ::
        g in db.grants && ActiveRepository(db, g.repositoryId) && g.subjectType == "group" && g.subjectId == p[0])
  }

  /** Nesting is as deep as the limit. */
  ghost predicate DepthReached(db: Db, userId: Id, fuel: nat) {
    fuel == 0 || exists p :: DepthChain(db, userId, p) && |p| == fuel
  }

  /** A limit above the number of nested groups is beyond every chain. */
  lemma DepthNeedsNesting(db: Db, userId: Id, fuel: nat)
    requires DepthReached(db, userId, fuel)
    ensures !DeepEnough(db, fuel)
  {
    if DeepEnough(db, fuel) {
      var p :| DepthChain(db, userId, p) && |p| == fuel;
      var down := Reversed(NestEdges(db));
      ReversedStaysAcyclic(NestEdges(db));
      AcyclicWalksAreShort(down, p);
      forall x | x in Targets(down) ensures x in NestedGroups(db) {
        var e :| e in down && e.1 == x;
        assert (e.1, e.0) in NestEdges(db);
      }
      SubsetIsSmaller(Targets(down), NestedGroups(db));
    }
  }

  lemma SubsetIsSmaller(a: set<Id>, b: set<Id>)
    requires a <= b
    ensures |a| <= |b|
  {
    assert b == a + (b - a);
  }

  // ---- snapshots -----------------------------------------------------------------------

  /** A list of tuples that holds all grants on some repositories and the user's part
      of the group graph. */
  ghost predicate IsSnapshot(db: Db, userId: Id, loreIds: set<string>, ts: seq<Tuple>) {
    && (forall t :: t in ts ==> t.objectType == "resource" || IsMemberTuple(t))
    && (forall t :: t in ts && t.objectType == "resource"
          ==> exists g :: IsGrantOf(db, loreIds, g) && t == TupleOf(db, g))
    && (forall g :: IsGrantOf(db, loreIds, g) ==> TupleOf(db, g) in ts)
    && (forall t :: t in ts && IsMemberTuple(t) ==> IsMembershipOf(db, userId, t))
    && (forall m :: m in db.members && m.userId == userId ==> MemberTuple(m) in ts)
    && (forall n :: n in db.nests && n.memberGroupId in DbUserGroups(db, userId) ==> NestTuple(n) in ts)
  }

  predicate IsGrantOf(db: Db, loreIds: set<string>, g: GrantRow) {
    g in db.grants && ActiveRepository(db, g.repositoryId) && db.repositories[g.repositoryId].loreId in loreIds
  }

  function TupleOf(db: Db, g: GrantRow): Tuple
    requires ActiveRepository(db, g.repositoryId)
  {
    GrantTuple(db.repositories[g.repositoryId].loreId, g)
  }

  ghost predicate IsMembershipOf(db: Db, userId: Id, t: Tuple) {
    || (exists m :: m in db.members && m.userId == userId && t == MemberTuple(m))
    || (exists n :: n in db.nests && n.memberGroupId in DbUserGroups(db, userId) && t == NestTuple(n))
  }

  /** The closure inside a snapshot is the user's closure in the tables. */
  lemma SnapshotGroups(db: Db, userId: Id, loreIds: set<string>, ts: seq<Tuple>)
    requires IsSnapshot(db, userId, loreIds, ts)
    ensures UserGroups(ts, userId) == DbUserGroups(db, userId)
    ensures UpEdges(ts) <= NestEdges(db)
  {
    forall e | e in UpEdges(ts) ensures e in NestEdges(db) {
      var t :| t in ts && IsMemberTuple(t) && UsersetGroup(t) == Some(e.0) && t.objectId == e.1;
      assert IsMembershipOf(db, userId, t);
      var n :| n in db.nests && t == NestTuple(n);
      StripSuffixOfConcat(n.memberGroupId, MEMBER_SUFFIX);
    }
    forall e | e in NestEdges(db) && e.0 in DbUserGroups(db, userId) ensures e in UpEdges(ts) {
      var n :| n in db.nests && e == (n.memberGroupId, n.groupId);
      StripSuffixOfConcat(n.memberGroupId, MEMBER_SUFFIX);
      assert UsersetGroup(NestTuple(n)) == Some(e.0);
    }
    forall g ensures g in DirectGroups(ts, userId) <==> g in DirectRows(db, userId) {
      if g in DirectGroups(ts, userId) {
        var t :| t in ts && IsDirectMember(t, userId) && t.objectId == g;
        assert IsMembershipOf(db, userId, t);
      }
      if g in DirectRows(db, userId) {
        var m :| m in db.members && m.userId == userId && m.groupId == g;
        assert IsDirectMember(MemberTuple(m), userId);
      }
    }
    assert DirectGroups(ts, userId) == DirectRows(db, userId);
    SameClosure(NestEdges(db), UpEdges(ts), DirectRows(db, userId));
  }

  lemma IncludesApplies(db: Db, userId: Id, loreIds: set<string>, ts: seq<Tuple>, g: GrantRow)
    requires IsSnapshot(db, userId, loreIds, ts) && ActiveRepository(db, g.repositoryId)
    ensures Includes(ts, userId, TupleOf(db, g)) <==> Applies(db, userId, g)
  {
    SnapshotGroups(db, userId, loreIds, ts);
    StripSuffixOfConcat(g.subjectId, MEMBER_SUFFIX);
  }

  /** In a snapshot, being related to a resource id is holding the role on one of the
      snapshot's repositories with that id. */
  lemma RelatedIsHasRole(db: Db, userId: Id, loreIds: set<string>, ts: seq<Tuple>, resourceId: string, role: string)
    requires IsSnapshot(db, userId, loreIds, ts)
    ensures Related(ts, userId, "resource", resourceId, role)
       <==> exists loreId ::
         loreId in loreIds && resourceId == ResourceIdOf(loreId) && HasRole(db, userId, loreId, role)
  {
    if Related(ts, userId, "resource", resourceId, role) {
      var row :| row in ts && IsAbout(row, "resource", resourceId, role) && Includes(ts, userId, row);
      var g :| IsGrantOf(db, loreIds, g) && row == TupleOf(db, g);
      IncludesApplies(db, userId, loreIds, ts, g);
      var loreId := db.repositories[g.repositoryId].loreId;
      assert IsOn(db, g, loreId);
      assert loreId in loreIds && HasRole(db, userId, loreId, role);
    }
    if loreId :| loreId in loreIds && resourceId == ResourceIdOf(loreId) && HasRole(db, userId, loreId, role) {
      var g :| g in db.grants && IsOn(db, g, loreId) && Applies(db, userId, g) && g.role == role;
      assert IsGrantOf(db, loreIds, g);
      IncludesApplies(db, userId, loreIds, ts, g);
      assert IsAbout(TupleOf(db, g), "resource", resourceId, role);
    }
  }

  /** A check over a snapshot that meets the depth limit has met nesting as deep as it. */
  lemma TooDeepIsDeep(db: Db, userId: Id, loreIds: set<string>, ts: seq<Tuple>, resourceId: string, role: string,
                      fuel: nat)
    requires IsSnapshot(db, userId, loreIds, ts) && Check(ts, userId, "resource", resourceId, role, fuel) == TooDeep
    ensures DepthReached(db, userId, fuel)
  {
    if fuel > 0 {
      var rows := FilteredTuples(ts, ObjectFilter("resource", resourceId, role));
      RowsOf(ts, "resource", resourceId, role);
      var row, p := TooDeepScan(ts, userId, rows, fuel);
      var g :| IsGrantOf(db, loreIds, g) && row == TupleOf(db, g);
      StripSuffixOfConcat(g.subjectId, MEMBER_SUFFIX);
      assert g.subjectType == "group" && g.subjectId == p[0];
      hide Check, Scan, IsSnapshot, UsersetGroup;
      SnapshotChain(db, userId, loreIds, ts, p);
      assert DepthChain(db, userId, p);
    }
  }

  lemma {:induction false} SnapshotChain(db: Db, userId: Id, loreIds: set<string>, ts: seq<Tuple>, p: seq<Id>)
    requires IsSnapshot(db, userId, loreIds, ts) && Chain(DownEdges(ts), p)
    ensures Chain(Reversed(NestEdges(db)), p)
    ensures forall i :: 0 < i < |p| ==> p[i] in DbUserGroups(db, userId)
    decreases |p|
  {
    hide IsSnapshot, UpEdges, NestEdges, DbUserGroups;
    if |p| > 1 {
      ChainTail(DownEdges(ts), p);
      SnapshotChain(db, userId, loreIds, ts, p[1..]);
      SnapshotEdge(db, userId, loreIds, ts, (p[1], p[0]));
      forall i | 0 < i < |p| ensures p[i] in DbUserGroups(db, userId) {
        if i > 1 { assert p[1..][i - 1] in DbUserGroups(db, userId); }
      }
      JoinChains(Reversed(NestEdges(db)), [p[0], p[1]], p[1..]);
      assert [p[0], p[1]] + p[1..][1..] == p;
    }
  }

  lemma SnapshotEdge(db: Db, userId: Id, loreIds: set<string>, ts: seq<Tuple>, e: (Id, Id))
    requires IsSnapshot(db, userId, loreIds, ts) && e in UpEdges(ts)
    ensures e in NestEdges(db) && e.0 in DbUserGroups(db, userId)
  {
    var t :| t in ts && IsMemberTuple(t) && UsersetGroup(t) == Some(e.0) && t.objectId == e.1;
    assert IsMembershipOf(db, userId, t);
    var n :| n in db.nests && n.memberGroupId in DbUserGroups(db, userId) && t == NestTuple(n);
    StripSuffixOfConcat(n.memberGroupId, MEMBER_SUFFIX);
  }

  // ---- the snapshot, row by row -----------------------------------------------------------

  function SelectGrantsOn(db: Db, rows: seq<GrantRow>, loreIds: set<string>): seq<Tuple> {
    if rows == [] then []
    else if ActiveRepository(db, rows[0].repositoryId) && db.repositories[rows[0].repositoryId].loreId in loreIds
    then [TupleOf(db, rows[0])] + SelectGrantsOn(db, rows[1..], loreIds)
    else SelectGrantsOn(db, rows[1..], loreIds)
  }

  function SelectOwnMembers(rows: seq<MemberRow>, userId: Id): seq<Tuple> {
    if rows == [] then []
    else if rows[0].userId == userId then [MemberTuple(rows[0])] + SelectOwnMembers(rows[1..], userId)
    else SelectOwnMembers(rows[1..], userId)
  }

  function SelectNestsFrom(rows: seq<NestRow>, groups: set<Id>): seq<Tuple> {
    if rows == [] then []
    else if rows[0].memberGroupId in groups then [NestTuple(rows[0])] + SelectNestsFrom(rows[1..], groups)
    else SelectNestsFrom(rows[1..], groups)
  }

  /** `can_access_snapshot_conn` and `list_accessible_snapshot_conn`: the rows each query
      keeps, in the order in which it returns them. */
  ghost function SnapshotTuples(db: Db, userId: Id, loreIds: set<string>): seq<Tuple> {
    SelectGrantsOn(db, db.grants, loreIds) + MembershipTuples(db, userId)
  }

  ghost function MembershipTuples(db: Db, userId: Id): seq<Tuple> {
    SelectOwnMembers(db.members, userId) + SelectNestsFrom(db.nests, DbUserGroups(db, userId))
  }

  lemma {:induction false} GrantsOnElements(db: Db, rows: seq<GrantRow>, loreIds: set<string>, t: Tuple)
    ensures t in SelectGrantsOn(db, rows, loreIds)
       <==> exists g ::
         g in rows && ActiveRepository(db, g.repositoryId) && db.repositories[g.repositoryId].loreId in loreIds
                        && t == TupleOf(db, g)
  {
    if rows != [] {
      GrantsOnElements(db, rows[1..], loreIds, t);
      assert rows[0] in rows && forall g :: g in rows <==> g == rows[0] || g in rows[1..];
    }
  }

  lemma {:induction false} OwnMembersElements(rows: seq<MemberRow>, userId: Id, t: Tuple)
    ensures t in SelectOwnMembers(rows, userId) <==> exists m :: m in rows && m.userId == userId && t == MemberTuple(m)
  {
    if rows != [] {
      OwnMembersElements(rows[1..], userId, t);
      assert rows[0] in rows && forall m :: m in rows <==> m == rows[0] || m in rows[1..];
    }
  }

  lemma {:induction false} NestsFromElements(rows: seq<NestRow>, groups: set<Id>, t: Tuple)
    ensures t in SelectNestsFrom(rows, groups)
         <==> exists n :: n in rows && n.memberGroupId in groups && t == NestTuple(n)
  {
    if rows != [] {
      NestsFromElements(rows[1..], groups, t);
      assert rows[0] in rows && forall n :: n in rows <==> n == rows[0] || n in rows[1..];
    }
  }

  lemma MembershipElements(db: Db, userId: Id, t: Tuple)
    ensures t in MembershipTuples(db, userId) <==> IsMembershipOf(db, userId, t)
  {
    OwnMembersElements(db.members, userId, t);
    NestsFromElements(db.nests, DbUserGroups(db, userId), t);
  }

  lemma SnapshotIsSnapshot(db: Db, userId: Id, loreIds: set<string>)
    ensures IsSnapshot(db, userId, loreIds, SnapshotTuples(db, userId, loreIds))
  {
    hide SelectGrantsOn, MembershipTuples, DbUserGroups, ResourceIdOf;
    forall t
      ensures t in SelectGrantsOn(db, db.grants, loreIds)
           <==> exists g :: IsGrantOf(db, loreIds, g) && t == TupleOf(db, g)
    {
      GrantsOnElements(db, db.grants, loreIds, t);
    }
    forall t ensures t in MembershipTuples(db, userId) <==> IsMembershipOf(db, userId, t) {
      MembershipElements(db, userId, t);
    }
    forall m | m in db.members && m.userId == userId ensures MemberTuple(m) in SnapshotTuples(db, userId, loreIds) {
      assert IsMembershipOf(db, userId, MemberTuple(m));
    }
    forall n | n in db.nests && n.memberGroupId in DbUserGroups(db, userId)
      ensures NestTuple(n) in SnapshotTuples(db, userId, loreIds)
    {
      assert IsMembershipOf(db, userId, NestTuple(n));
    }
  }

  // ---- the snapshot stands for all tuples ---------------------------------------------------

  lemma {:induction false} PrunedGrants(db: Db, userId: Id, all: seq<Tuple>, rows: seq<GrantRow>)
    ensures Pruned(all, userId, SelectGrants(db, rows, NO_FILTER)) == SelectGrants(db, rows, NO_FILTER)
  {
    if rows != [] {
      PrunedGrants(db, userId, all, rows[1..]);
      var selected := SelectGrants(db, rows, NO_FILTER);
      if GrantWhere(db, NO_FILTER, rows[0]) {
        assert selected[1..] == SelectGrants(db, rows[1..], NO_FILTER);
      }
    }
  }

  lemma {:induction false} PrunedMembers(userId: Id, all: seq<Tuple>, rows: seq<MemberRow>)
    ensures Pruned(all, userId, SelectMembers(rows, NO_FILTER)) == SelectOwnMembers(rows, userId)
  {
    if rows != [] {
      PrunedMembers(userId, all, rows[1..]);
      assert SelectMembers(rows, NO_FILTER)[1..] == SelectMembers(rows[1..], NO_FILTER);
    }
  }

  lemma {:induction false} PrunedNests(userId: Id, all: seq<Tuple>, rows: seq<NestRow>)
    ensures Pruned(all, userId, SelectNests(rows, NO_FILTER, None)) == SelectNestsFrom(rows, UserGroups(all, userId))
  {
    if rows != [] {
      PrunedNests(userId, all, rows[1..]);
      assert SelectNests(rows, NO_FILTER, None)[1..] == SelectNests(rows[1..], NO_FILTER, None);
      StripSuffixOfConcat(rows[0].memberGroupId, MEMBER_SUFFIX);
    }
  }

  lemma {:induction false} PrunedConcat(all: seq<Tuple>, userId: Id, a: seq<Tuple>, b: seq<Tuple>)
    ensures Pruned(all, userId, a + b) == Pruned(all, userId, a) + Pruned(all, userId, b)
  {
    hide Kept;
    if a == [] {
      assert a + b == b;
    } else {
      PrunedConcat(all, userId, a[1..], b);
      assert (a + b)[1..] == a[1..] + b;
    }
  }

  /** Pruning all tuples leaves every grant, and of the memberships exactly the rows that
      the queries read. */
  lemma PrunedTables(db: Db, userId: Id)
    ensures Snapshot(ReadTuples(db, NO_FILTER), userId)
         == SelectGrants(db, db.grants, NO_FILTER) + MembershipTuples(db, userId)
  {
    hide Pruned, SelectGrants, SelectMembers, SelectNests, UserGroups, DbUserGroups;
    var all := ReadTuples(db, NO_FILTER);
    var grants := SelectGrants(db, db.grants, NO_FILTER);
    var members, nests := SelectMembers(db.members, NO_FILTER), SelectNests(db.nests, NO_FILTER, None);
    assert all == grants + (members + nests);
    PrunedConcat(all, userId, grants, members + nests);
    PrunedConcat(all, userId, members, nests);
    PrunedGrants(db, userId, all, db.grants);
    PrunedMembers(userId, all, db.members);
    PrunedNests(userId, all, db.nests);
    TuplesAndTablesAgree(db, userId);
  }

  predicate RowCovered(db: Db, g: GrantRow, loreIds: set<string>, resourceId: string) {
    ActiveRepository(db, g.repositoryId) && ResourceIdOf(db.repositories[g.repositoryId].loreId) == resourceId ==>
      db.repositories[g.repositoryId].loreId in loreIds
  }

  /** Every grant on a resource id is on one of the repositories read. */
  ghost predicate Covers(db: Db, loreIds: set<string>, resourceId: string) {
    forall g :: g in db.grants ==> RowCovered(db, g, loreIds, resourceId)
  }

  lemma {:induction false} OtherTypesUnread(rows: seq<Tuple>, f: TupleFilter)
    requires f.objectType.Some? && forall t :: t in rows ==> t.objectType != f.objectType.value
    ensures FilteredTuples(rows, f) == []
  {
    if rows != [] {
      OtherTypesUnread(rows[1..], f);
      assert rows[0] in rows;
    }
  }

  lemma {:induction false} ResourceRows(db: Db, rows: seq<GrantRow>, loreIds: set<string>, resourceId: string,
                                        role: string)
    requires forall g :: g in rows ==> RowCovered(db, g, loreIds, resourceId)
    ensures FilteredTuples(SelectGrantsOn(db, rows, loreIds), ObjectFilter("resource", resourceId, role))
         == FilteredTuples(SelectGrants(db, rows, NO_FILTER), ObjectFilter("resource", resourceId, role))
  {
    hide ResourceIdOf;
    if rows != [] {
      var f := ObjectFilter("resource", resourceId, role);
      var g := rows[0];
      assert g in rows && RowCovered(db, g, loreIds, resourceId);
      ResourceRows(db, rows[1..], loreIds, resourceId, role);
      if ActiveRepository(db, g.repositoryId) {
        assert SelectGrants(db, rows, NO_FILTER)[1..] == SelectGrants(db, rows[1..], NO_FILTER);
        if db.repositories[g.repositoryId].loreId in loreIds {
          assert SelectGrantsOn(db, rows, loreIds)[1..] == SelectGrantsOn(db, rows[1..], loreIds);
        } else {
          assert !TupleMatchesFilter(TupleOf(db, g), f);
        }
      }
    }
  }

  /** The rows a check can read are the same, in order, in the snapshot read from the
      tables and in all tuples pruned for the user: those of every group, and those of a
      resource whose grants the snapshot covers. */
  lemma SnapshotRows(db: Db, userId: Id, loreIds: set<string>, resourceId: string, role: string)
    ensures SameGroupRows(SnapshotTuples(db, userId, loreIds), Snapshot(ReadTuples(db, NO_FILTER), userId))
    ensures
      var f := ObjectFilter("resource", resourceId, role);
      Covers(db, loreIds, resourceId) ==>
        FilteredTuples(SnapshotTuples(db, userId, loreIds), f)
          == FilteredTuples(Snapshot(ReadTuples(db, NO_FILTER), userId), f)
  {
    hide SelectGrants, SelectGrantsOn, MembershipTuples, Snapshot, FilteredTuples, ResourceIdOf;
    var on, all := SelectGrantsOn(db, db.grants, loreIds), SelectGrants(db, db.grants, NO_FILTER);
    var memberships := MembershipTuples(db, userId);
    PrunedTables(db, userId);
    forall t | t in on ensures t.objectType == "resource" { GrantsOnElements(db, db.grants, loreIds, t); }
    forall t | t in all ensures t.objectType == "resource" { SelectGrantsAreResources(db, db.grants, t); }
    forall t | t in memberships ensures t.objectType == "group" { MembershipElements(db, userId, t); }
    forall group: Id ensures FilteredTuples(on + memberships, ObjectFilter("group", group, "member"))
                          == FilteredTuples(all + memberships, ObjectFilter("group", group, "member"))
    {
      var f := ObjectFilter("group", group, "member");
      FilteredConcat(on, memberships, f);
      FilteredConcat(all, memberships, f);
      OtherTypesUnread(on, f);
      OtherTypesUnread(all, f);
    }
    if Covers(db, loreIds, resourceId) {
      var f := ObjectFilter("resource", resourceId, role);
      FilteredConcat(on, memberships, f);
      FilteredConcat(all, memberships, f);
      ResourceRows(db, db.grants, loreIds, resourceId, role);
    }
  }

  /** At every depth limit at which the check over all tuples answers, the check over the
      snapshot that is read gives the same answer. */
  lemma ReadSnapshotIsSound(db: Db, userId: Id, loreIds: set<string>, resourceId: string, role: string, fuel: nat)
    requires Covers(db, loreIds, resourceId)
    requires Check(ReadTuples(db, NO_FILTER), userId, "resource", resourceId, role, fuel) != TooDeep
    ensures Check(SnapshotTuples(db, userId, loreIds), userId, "resource", resourceId, role, fuel)
         == Check(ReadTuples(db, NO_FILTER), userId, "resource", resourceId, role, fuel)
  {
    hide Check, SnapshotTuples, Snapshot, ReadTuples, Covers;
    SnapshotRows(db, userId, loreIds, resourceId, role);
    CheckReadsRows(SnapshotTuples(db, userId, loreIds), Snapshot(ReadTuples(db, NO_FILTER), userId), userId, "resource",
                   resourceId, role, fuel);
    PruningIsSound(ReadTuples(db, NO_FILTER), userId, "resource", resourceId, role, fuel);
  }

  /** Canonical ids are covered by reading the one repository the resource id names. */
  lemma CanonicalIsCovered(db: Db, resourceId: string)
    requires forall id :: id in db.repositories ==> CanonicalRepositoryId(db.repositories[id].loreId)
    ensures Covers(db, {RepositoryIdFromResourceId(resourceId)}, resourceId)
  {
    forall g | g in db.grants ensures RowCovered(db, g, {RepositoryIdFromResourceId(resourceId)}, resourceId) {
      if ActiveRepository(db, g.repositoryId) { RepositoryIdRoundTrip(db.repositories[g.repositoryId].loreId); }
    }
  }

  // ---- reading a snapshot ---------------------------------------------------------------

  lemma {:induction false} GrantsOnAppend(db: Db, rows: seq<GrantRow>, g: GrantRow, loreIds: set<string>)
    ensures SelectGrantsOn(db, rows + [g], loreIds)
         == SelectGrantsOn(db, rows, loreIds) + SelectGrantsOn(db, [g], loreIds)
  {
    if rows == [] {
      assert rows + [g] == [g];
    } else {
      GrantsOnAppend(db, rows[1..], g, loreIds);
      assert (rows + [g])[1..] == rows[1..] + [g];
    }
  }

  lemma {:induction false} OwnMembersAppend(rows: seq<MemberRow>, m: MemberRow, userId: Id)
    ensures SelectOwnMembers(rows + [m], userId) == SelectOwnMembers(rows, userId) + SelectOwnMembers([m], userId)
  {
    if rows == [] {
      assert rows + [m] == [m];
    } else {
      OwnMembersAppend(rows[1..], m, userId);
      assert (rows + [m])[1..] == rows[1..] + [m];
    }
  }

  lemma {:induction false} NestsFromAppend(rows: seq<NestRow>, n: NestRow, groups: set<Id>)
    ensures SelectNestsFrom(rows + [n], groups) == SelectNestsFrom(rows, groups) + SelectNestsFrom([n], groups)
  {
    if rows == [] {
      assert rows + [n] == [n];
    } else {
      NestsFromAppend(rows[1..], n, groups);
      assert (rows + [n])[1..] == rows[1..] + [n];
    }
  }

  method ReadGrantTuplesOn(db: Db, loreIds: set<string>) returns (tuples: seq<Tuple>)
    ensures tuples == SelectGrantsOn(db, db.grants, loreIds)
  {
    tuples := [];
    for i := 0 to |db.grants|
      invariant tuples == SelectGrantsOn(db, db.grants[..i], loreIds)
    {
      var g := db.grants[i];
      assert db.grants[..i + 1] == db.grants[..i] + [g];
      GrantsOnAppend(db, db.grants[..i], g, loreIds);
      if ActiveRepository(db, g.repositoryId) && db.repositories[g.repositoryId].loreId in loreIds {
        tuples := tuples + [TupleOf(db, g)];
      }
    }
    assert db.grants[..|db.grants|] == db.grants;
  }

  /** `read_user_reachable_group_member_tuples_conn`. */
  method ReadUserReachableGroupMemberTuples(db: Db, userId: Id) returns (tuples: seq<Tuple>)
    ensures tuples == MembershipTuples(db, userId)
  {
    tuples := [];
    for i := 0 to |db.members|
      invariant tuples == SelectOwnMembers(db.members[..i], userId)
    {
      var m := db.members[i];
      assert db.members[..i + 1] == db.members[..i] + [m];
      OwnMembersAppend(db.members[..i], m, userId);
      if m.userId == userId {
        tuples := tuples + [MemberTuple(m)];
      }
    }
    assert db.members[..|db.members|] == db.members;
    var groups := RecursiveUserGroups(db, userId);
    ghost var direct := tuples;
    for i := 0 to |db.nests|
      invariant tuples == direct + SelectNestsFrom(db.nests[..i], groups)
    {
      var n := db.nests[i];
      assert db.nests[..i + 1] == db.nests[..i] + [n];
      NestsFromAppend(db.nests[..i], n, groups);
      if n.memberGroupId in groups {
        tuples := tuples + [NestTuple(n)];
      }
    }
    assert db.nests[..|db.nests|] == db.nests;
  }

  method ReadSnapshot(db: Db, userId: Id, loreIds: set<string>) returns (tuples: seq<Tuple>)
    ensures tuples == SnapshotTuples(db, userId, loreIds)
    ensures IsSnapshot(db, userId, loreIds, tuples)
  {
    var grants := ReadGrantTuplesOn(db, loreIds);
    var members := ReadUserReachableGroupMemberTuples(db, userId);
    tuples := grants + members;
    SnapshotIsSnapshot(db, userId, loreIds);
  }

  // ---- validating roles -------------------------------------------------------------------

  /** The first role in sorted order that is unknown or decides the action settles
      whether the roles are valid. */
  method FirstRoleIsValid(roles: seq<string>, action: string) returns (valid: bool)
    ensures !valid <==> exists u :: u in roles && !IsKnownRole(u)
                                 && forall d :: d in roles && Decides(d, action) ==> LexLt(u, d)
  {
    var sorted := SortBy(LexLe, roles);
    SortedRoles(roles);
    hide LexLe, SortBy, RoleAllows, Ordered;
    for i := 0 to |sorted|
      invariant forall j :: 0 <= j < i ==> IsKnownRole(sorted[j]) && !Decides(sorted[j], action)
    {
      var role := sorted[i];
      if role == "admin" {
        DecidingRoleFirst(sorted, i, action);
        return true;
      }
      if !IsKnownRole(role) {
        UnknownRoleFound(sorted, i, action);
        return false;
      }
      if RoleAllows(role, action) {
        DecidingRoleFirst(sorted, i, action);
        return true;
      }
    }
    return true;
  }

  lemma SortedRoles(roles: seq<string>)
    ensures Ordered(LexLe, SortBy(LexLe, roles))
    ensures forall r :: r in SortBy(LexLe, roles) <==> r in roles
  {
    LexIsTotalPreorder();
    SortByOrdered(LexLe, roles);
    forall r ensures r in SortBy(LexLe, roles) <==> r in roles { SortByKeepsElements(LexLe, roles, r); }
  }

  lemma UnknownRoleFound(sorted: seq<string>, i: nat, action: string)
    requires Ordered(LexLe, sorted) && i < |sorted| && !IsKnownRole(sorted[i])
    requires forall j :: 0 <= j < i ==> !Decides(sorted[j], action)
    ensures forall d :: d in sorted && Decides(d, action) ==> LexLt(sorted[i], d)
  {
    hide LexLe;
    forall d | d in sorted && Decides(d, action) ensures LexLt(sorted[i], d) {
      var j :| 0 <= j < |sorted| && sorted[j] == d;
      assert i < j;
    }
  }

  lemma DecidingRoleFirst(sorted: seq<string>, i: nat, action: string)
    requires Ordered(LexLe, sorted) && i < |sorted|
    requires IsKnownRole(sorted[i]) && Decides(sorted[i], action)
    requires forall j :: 0 <= j < i ==> IsKnownRole(sorted[j])
    ensures forall u :: u in sorted && !IsKnownRole(u) ==> !LexLt(u, sorted[i])
  {
    forall u | u in sorted && !IsKnownRole(u) ensures !LexLt(u, sorted[i]) {
      var j :| 0 <= j < |sorted| && sorted[j] == u;
      assert LexLe(sorted[i], u);
      LexTotal(u, sorted[i]);
    }
  }

  /** `validate_snapshot_can_access_roles`. */
  method ValidateSnapshotCanAccessRoles(tuples: seq<Tuple>, userId: Id, action: string) returns (valid: bool)
    ensures
      var held := set t | t in tuples && t.objectType == "resource" && Includes(tuples, userId, t) :: t.relation;
      !valid <==> exists u :: u in held && !IsKnownRole(u)
                           && forall d :: d in held && Decides(d, action) ==> LexLt(u, d)
  {
    ghost var held := set t | t in tuples && t.objectType == "resource" && Includes(tuples, userId, t) :: t.relation;
    var groupIds := ReachableGroupIdsFromTuples(tuples, userId);
    var roles: seq<string> := [];
    for i := 0 to |tuples|
      invariant forall r :: r in roles <==>
        exists t :: t in tuples[..i] && t.objectType == "resource" && Includes(tuples, userId, t) && t.relation == r
    {
      var t := tuples[i];
      assert tuples[..i + 1] == tuples[..i] + [t];
      if t.objectType == "resource" {
        if t.subjectType == "user" && t.subjectId == userId {
          roles := roles + [t.relation];
        } else if t.subjectType == "group" {
          var group := StripSuffix(t.subjectId, MEMBER_SUFFIX);
          if group.Some? && group.value in groupIds {
            roles := roles + [t.relation];
          }
        }
      }
    }
    assert tuples[..|tuples|] == tuples;
    assert forall r :: r in roles <==> r in held;
    valid := FirstRoleIsValid(roles, action);
  }

  // ---- can_access -----------------------------------------------------------------------

  /** `check_any_relation_with_resolver`: the first relation that does not deny answers. */
  function AnyRelation(ts: seq<Tuple>, fuel: nat, resourceId: string, userId: Id, relations: seq<string>): Result<bool>
    decreases |relations|
  {
    if relations == [] then Ok(false)
    else match Check(ts, userId, "resource", resourceId, relations[0], fuel)
      case Allowed => Ok(true)
      case TooDeep => Err(MAX_DEPTH)
      case Denied => AnyRelation(ts, fuel, resourceId, userId, relations[1..])
  }

  method CheckAnyRelation(ts: seq<Tuple>, fuel: nat, resourceId: string, userId: Id, relations: seq<string>)
      returns (r: Result<bool>)
    ensures r == AnyRelation(ts, fuel, resourceId, userId, relations)
    ensures r.Ok? ==> (r.value <==> exists rel :: rel in relations && Related(ts, userId, "resource", resourceId, rel))
    ensures r.Err? ==> r.error == MAX_DEPTH
    ensures r.Err? ==> exists rel :: rel in relations && Check(ts, userId, "resource", resourceId, rel, fuel) == TooDeep
  {
    for i := 0 to |relations|
      invariant AnyRelation(ts, fuel, resourceId, userId, relations)
           == AnyRelation(ts, fuel, resourceId, userId, relations[i..])
      invariant forall j :: 0 <= j < i ==> !Related(ts, userId, "resource", resourceId, relations[j])
    {
      CheckMeaning(ts, userId, "resource", resourceId, relations[i], fuel);
      assert relations[i..][1..] == relations[i + 1..];
      match Check(ts, userId, "resource", resourceId, relations[i], fuel)
      case Allowed =>
        assert relations[i] in relations;
        return Ok(true);
      case TooDeep =>
        assert relations[i] in relations;
        return Err(MAX_DEPTH);
      case Denied =>
    }
    return Ok(false);
  }

  /** Whenever the relations answer over all tuples, they answer the same over the snapshot
      that is read. */
  lemma {:induction false} AnyRelationOverAllTuples(db: Db, userId: Id, loreIds: set<string>, resourceId: string,
                                                    relations: seq<string>, fuel: nat)
    requires Covers(db, loreIds, resourceId)
    requires AnyRelation(ReadTuples(db, NO_FILTER), fuel, resourceId, userId, relations).Ok?
    ensures AnyRelation(SnapshotTuples(db, userId, loreIds), fuel, resourceId, userId, relations)
         == AnyRelation(ReadTuples(db, NO_FILTER), fuel, resourceId, userId, relations)
    decreases |relations|
  {
    hide Check, SnapshotTuples, ReadTuples, Covers;
    if relations != [] {
      ReadSnapshotIsSound(db, userId, loreIds, resourceId, relations[0], fuel);
      if Check(ReadTuples(db, NO_FILTER), userId, "resource", resourceId, relations[0], fuel) == Denied {
        AnyRelationOverAllTuples(db, userId, loreIds, resourceId, relations[1..], fuel);
      }
    }
  }

  /** With canonical ids that covers every resource id `can_access` is asked about. */
  lemma CanonicalRelationsOverAllTuples(db: Db, userId: Id, resourceId: string, relations: seq<string>, fuel: nat)
    requires forall id :: id in db.repositories ==> CanonicalRepositoryId(db.repositories[id].loreId)
    requires AnyRelation(ReadTuples(db, NO_FILTER), fuel, resourceId, userId, relations).Ok?
    ensures AnyRelation(SnapshotTuples(db, userId, {RepositoryIdFromResourceId(resourceId)}), fuel, resourceId, userId,
                        relations)
         == AnyRelation(ReadTuples(db, NO_FILTER), fuel, resourceId, userId, relations)
  {
    hide AnyRelation, SnapshotTuples, ReadTuples;
    CanonicalIsCovered(db, resourceId);
    AnyRelationOverAllTuples(db, userId, {RepositoryIdFromResourceId(resourceId)}, resourceId, relations, fuel);
  }

  function RelationsFor(action: string): (relations: seq<string>)
    ensures forall role :: role in relations <==> Decides(role, action)
  {
    match action
    case "read" => ["reader", "writer", "admin"]
    case "write" => ["writer", "admin"]
    case _ => ["admin"]
  }

  /** Answers the decision, or reports the depth limit, and then only when nesting is as deep
      as the limit; past the validation it answers what the relations answer over the snapshot. */
  method CanAccess(db: Db, fuel: nat, userId: Id, resourceId: string, action: string) returns (r: Result<bool>)
    ensures r == Decision(db, userId, resourceId, action)
         || (r == Err(MAX_DEPTH) && DepthReached(db, userId, fuel) && !DeepEnough(db, fuel))
    ensures Decision(db, userId, resourceId, action).Err? ==> r == Decision(db, userId, resourceId, action)
    ensures Decision(db, userId, resourceId, action).Ok? ==>
              r == AnyRelation(SnapshotTuples(db, userId, {RepositoryIdFromResourceId(resourceId)}), fuel, resourceId,
                               userId, RelationsFor(action))
  {
    var loreId := RepositoryIdFromResourceId(resourceId);
    if !RepositoryExists(db, loreId) {
      return Err(NotFound);
    }
    var snapshot := ReadSnapshot(db, userId, {loreId});
    HeldRoles(db, userId, loreId, snapshot);
    hide SnapshotTuples, IsSnapshot, RepositoryExists, HasRole, LexLt, Covers;
    var valid := ValidateSnapshotCanAccessRoles(snapshot, userId, action);
    if !valid {
      return Err(UNKNOWN_ROLE);
    }
    assert !UnknownRoleFirst(db, userId, loreId, action);
    var relations := RelationsFor(action);
    forall role ensures Related(snapshot, userId, "resource", resourceId, role)
                   <==> resourceId == ResourceIdOf(loreId) && HasRole(db, userId, loreId, role)
    {
      RelatedIsHasRole(db, userId, {loreId}, snapshot, resourceId, role);
    }
    r := CheckAnyRelation(snapshot, fuel, resourceId, userId, relations);
    if r.Err? {
      ghost var rel :| rel in relations && Check(snapshot, userId, "resource", resourceId, rel, fuel) == TooDeep;
      TooDeepIsDeep(db, userId, {loreId}, snapshot, resourceId, rel, fuel);
      DepthNeedsNesting(db, userId, fuel);
    }
  }

  /** When the nesting rows were built by calls of the SQLite store, whatever calls, a depth
      limit above the number of nested groups is enough for `can_access` to decide. */
  lemma NestingRunsAreDeepEnough(db: Db, userId: Id, fuel: nat, ops: seq<GroupNesting.Op>)
    requires forall n :: n in db.nests <==> n in RunSql(EMPTY_TABLES, ops).rows
    requires fuel >= |NestedGroups(db)| + 2
    ensures DeepEnough(db, fuel) && !DepthReached(db, userId, fuel)
  {
    var rows := RunSql(EMPTY_TABLES, ops).rows;
    EveryRunKeepsRowsSafe(ops);
    assert NestEdges(db) == Reversed(RowEdges(rows));
    ReversedStaysAcyclic(RowEdges(rows));
    if DepthReached(db, userId, fuel) { DepthNeedsNesting(db, userId, fuel); }
  }

  /** The roles that the validation looks at are the roles the user holds. */
  lemma HeldRoles(db: Db, userId: Id, loreId: string, ts: seq<Tuple>)
    requires IsSnapshot(db, userId, {loreId}, ts)
    ensures
      var held := set t | t in ts && t.objectType == "resource" && Includes(ts, userId, t) :: t.relation;
      forall role :: role in held <==> HasRole(db, userId, loreId, role)
  {
    hide Includes, HasRole, ResourceIdOf;
    forall role
      ensures HasRole(db, userId, loreId, role) <==>
              exists t :: t in ts && t.objectType == "resource" && Includes(ts, userId, t) && t.relation == role
    {
      RelatedIsHasRole(db, userId, {loreId}, ts, ResourceIdOf(loreId), role);
      if exists t :: t in ts && t.objectType == "resource" && Includes(ts, userId, t) && t.relation == role {
        var t :| t in ts && t.objectType == "resource" && Includes(ts, userId, t) && t.relation == role;
        assert IsAbout(t, "resource", ResourceIdOf(loreId), role);
      }
    }
  }
}
