/** `can_access` of the memory store, and exactly when it agrees with the tuple engine on
    stores that hold the same groups and grants. */
module MemoryAccess {
  import opened Text
  import opened CoreModel
  import opened Reach
  import opened GroupNesting
  import opened Tuples
  import opened GroupClosure
  import opened Access

  /** Grants by subject, then by resource id: one role each. */
  type Grants = map<(string, Id), map<string, string>>

  datatype MemoryState = MemoryState(groups: Groups, groupMembers: map<Id, seq<string>>, nests: Nests, grants: Grants)

  /** The user, and every group the user reaches. */
  ghost predicate IsSubjectOf(m: MemoryState, userId: Id, subject: (string, Id)) {
    || subject == ("user", userId)
    || (subject.0 == "group" && subject.1 in MemoryUserGroups(m.groups, m.groupMembers, m.nests, userId))
  }

  predicate Granted(m: MemoryState, subject: (string, Id), resourceId: string, role: string) {
    subject in m.grants && resourceId in m.grants[subject] && m.grants[subject][resourceId] == role
  }

  ghost predicate MemoryHolds(m: MemoryState, userId: Id, resourceId: string, role: string) {
    exists subject :: IsSubjectOf(m, userId, subject) && Granted(m, subject, resourceId, role)
  }

  /** Some role granted on the very resource id to the user or a reachable group allows the action. */
  ghost predicate MemoryAllows(m: MemoryState, userId: Id, resourceId: string, action: string) {
    exists role :: MemoryHolds(m, userId, resourceId, role) && RoleAllows(role, action)
  }

  /** It never fails, and it looks at no resource row. */
  method MemoryCanAccess(m: MemoryState, userId: Id, resourceId: string, action: string) returns (allowed: bool)
    ensures allowed <==> MemoryAllows(m, userId, resourceId, action)
  {
    var subjects := GrantSubjectKeysForUser(m.groups, m.groupMembers, m.nests, userId);
    forall subject ensures subject in subjects <==> IsSubjectOf(m, userId, subject) {
      assert subjects == [subjects[0]] + subjects[1..];
    }
    hide MemoryUserGroups, IsSubjectOf, RoleAllows;
    for i := 0 to |subjects|
      invariant forall j, role :: 0 <= j < i && Granted(m, subjects[j], resourceId, role) ==> !RoleAllows(role, action)
    {
      var subject := subjects[i];
      if subject in m.grants && resourceId in m.grants[subject] {
        var role := m.grants[subject][resourceId];
        if RoleAllows(role, action) {
          assert IsSubjectOf(m, userId, subject) && Granted(m, subject, resourceId, role);
          assert MemoryHolds(m, userId, resourceId, role);
          return true;
        }
      }
    }
    forall role | MemoryHolds(m, userId, resourceId, role) ensures !RoleAllows(role, action) {
      var subject :| IsSubjectOf(m, userId, subject) && Granted(m, subject, resourceId, role);
      var j :| 0 <= j < |subjects| && subjects[j] == subject;
    }
    return false;
  }

  // ---- the same groups and grants in the tables -----------------------------------------------

  ghost predicate SameGroups(m: MemoryState, db: Db) {
    && Reversed(EdgesOf(m.nests)) == NestEdges(db)
    && forall userId: Id :: DirectGroupIdsForUser(m.groups, m.groupMembers, userId) == DirectRows(db, userId)
  }

  /** A grant row on a repository, whatever the repository's status. */
  predicate IsRow(db: Db, g: GrantRow, subject: (string, Id), resourceId: string, role: string) {
    && (g.subjectType, g.subjectId) == subject && g.role == role && g.repositoryId in db.repositories
    && ResourceIdOf(db.repositories[g.repositoryId].loreId) == resourceId
  }

  ghost predicate SameGrants(m: MemoryState, db: Db) {
    forall subject, resourceId: string, role: string ::
      Granted(m, subject, resourceId, role) <==> exists g :: g in db.grants && IsRow(db, g, subject, resourceId, role)
  }

  /** Stored repository ids are unique, and no two share a resource id. */
  ghost predicate DistinctResourceIds(db: Db) {
    forall a, b :: a in db.repositories && b in db.repositories ==>
      ResourceIdOf(db.repositories[a].loreId) == ResourceIdOf(db.repositories[b].loreId) ==> a == b
  }

  /** A resource id that some repository has is the id of the repository it strips to. */
  predicate NamesItsRepository(db: Db, resourceId: string) {
    forall id :: id in db.repositories && ResourceIdOf(db.repositories[id].loreId) == resourceId ==>
      db.repositories[id].loreId == RepositoryIdFromResourceId(resourceId)
  }

  /** The stores hold the same, and the id that is asked for names its repository. */
  ghost predicate SameStores(m: MemoryState, db: Db, resourceId: string) {
    SameGroups(m, db) && SameGrants(m, db) && DistinctResourceIds(db) && NamesItsRepository(db, resourceId)
  }

  lemma SameUserGroups(m: MemoryState, db: Db, userId: Id)
    requires SameGroups(m, db)
    ensures MemoryUserGroups(m.groups, m.groupMembers, m.nests, userId) == DbUserGroups(db, userId)
  {
  }

  lemma SubjectsApply(m: MemoryState, db: Db, userId: Id, g: GrantRow)
    requires SameGroups(m, db)
    ensures IsSubjectOf(m, userId, (g.subjectType, g.subjectId)) <==> Applies(db, userId, g)
  {
    SameUserGroups(m, db, userId);
  }

  /** On the resource id of an active repository the two stores hold the same roles. */
  lemma SameRoles(m: MemoryState, db: Db, userId: Id, loreId: string, role: string)
    requires SameGroups(m, db) && SameGrants(m, db) && DistinctResourceIds(db) && RepositoryExists(db, loreId)
    ensures MemoryHolds(m, userId, ResourceIdOf(loreId), role) <==> HasRole(db, userId, loreId, role)
  {
    hide ResourceIdOf, DbUserGroups, MemoryUserGroups, Applies, IsSubjectOf;
    var resourceId := ResourceIdOf(loreId);
    if MemoryHolds(m, userId, resourceId, role) {
      var subject :| IsSubjectOf(m, userId, subject) && Granted(m, subject, resourceId, role);
      var g :| g in db.grants && IsRow(db, g, subject, resourceId, role);
      SubjectsApply(m, db, userId, g);
      assert IsOn(db, g, loreId);
    }
    if HasRole(db, userId, loreId, role) {
      var g :| g in db.grants && IsOn(db, g, loreId) && Applies(db, userId, g) && g.role == role;
      SubjectsApply(m, db, userId, g);
      assert IsRow(db, g, (g.subjectType, g.subjectId), resourceId, role);
      assert Granted(m, (g.subjectType, g.subjectId), resourceId, role);
    }
  }

  /** When the memory store answers as the tuple engine does. */
  ghost predicate MemoryFollows(db: Db, userId: Id, resourceId: string, action: string) {
    var loreId := RepositoryIdFromResourceId(resourceId);
    && RepositoryExists(db, loreId)
    && !UnknownRoleFirst(db, userId, loreId, action)
    && (PermissionFromName(action).Some? || resourceId != ResourceIdOf(loreId) || !HasRole(db, userId, loreId, "admin"))
  }

  /** On the same groups and grants the memory store gives the tuple engine's answer exactly
      when the repository is active, no unknown role of the user sorts before every role that
      decides, and the action is known or the user is no admin there. */
  lemma MemoryAgreesExactly(m: MemoryState, db: Db, userId: Id, resourceId: string, action: string)
    requires SameStores(m, db, resourceId)
    ensures Decision(db, userId, resourceId, action) == Ok(MemoryAllows(m, userId, resourceId, action))
       <==> MemoryFollows(db, userId, resourceId, action)
  {
    var loreId := RepositoryIdFromResourceId(resourceId);
    if RepositoryExists(db, loreId) {
      hide RepositoryExists, HasRole, MemoryHolds, RoleAllows, UnknownRoleFirst;
      if resourceId == ResourceIdOf(loreId) {
        forall role ensures MemoryHolds(m, userId, resourceId, role) <==> HasRole(db, userId, loreId, role) {
          SameRoles(m, db, userId, loreId, role);
        }
        DecidingIsAllowing(db, userId, loreId, action);
      } else {
        OtherIdsHoldNothing(m, db, userId, resourceId);
      }
    }
  }

  /** The schema keeps stored ids unique; canonical ones then have all that is asked. */
  lemma CanonicalIdsNameTheirRepositories(db: Db, resourceId: string)
    requires UniqueLoreIds(db)
    requires forall id :: id in db.repositories ==> CanonicalRepositoryId(db.repositories[id].loreId)
    ensures DistinctResourceIds(db) && NamesItsRepository(db, resourceId)
  {
    forall a, b | a in db.repositories && b in db.repositories
      ensures ResourceIdOf(db.repositories[a].loreId) == ResourceIdOf(db.repositories[b].loreId) ==> a == b
    {
      CanonicalIdsAreDistinct(db.repositories[a].loreId, db.repositories[b].loreId);
    }
    forall id | id in db.repositories && ResourceIdOf(db.repositories[id].loreId) == resourceId
      ensures db.repositories[id].loreId == RepositoryIdFromResourceId(resourceId)
    {
      RepositoryIdRoundTrip(db.repositories[id].loreId);
    }
  }

  lemma OtherIdsHoldNothing(m: MemoryState, db: Db, userId: Id, resourceId: string)
    requires SameGrants(m, db) && NamesItsRepository(db, resourceId)
    requires resourceId != ResourceIdOf(RepositoryIdFromResourceId(resourceId))
    ensures forall role :: !MemoryHolds(m, userId, resourceId, role)
  {
    hide ResourceIdOf, RepositoryIdFromResourceId;
    forall subject, role ensures !Granted(m, subject, resourceId, role) {
      forall g | g in db.grants ensures !IsRow(db, g, subject, resourceId, role) {
      }
    }
  }

  /** A known action is decided by exactly the roles that allow it; an unknown one only by admin. */
  lemma DecidingIsAllowing(db: Db, userId: Id, loreId: string, action: string)
    ensures PermissionFromName(action).Some? ==>
              forall role :: Decides(role, action) <==> RoleAllows(role, action)
    ensures PermissionFromName(action).None? ==>
              forall role :: !RoleAllows(role, action) && (Decides(role, action) <==> role == "admin")
  {
    if PermissionFromName(action).Some? {
      assert RoleAllows("admin", action);
    }
  }

  /** In particular, allowing: whenever the memory store follows, it allows exactly what the
      tuple engine allows. */
  lemma MemoryAllowsWhatIsDecided(m: MemoryState, db: Db, userId: Id, resourceId: string, action: string)
    requires SameStores(m, db, resourceId)
    requires MemoryFollows(db, userId, resourceId, action)
    ensures MemoryAllows(m, userId, resourceId, action) <==> Decision(db, userId, resourceId, action) == Ok(true)
  {
    MemoryAgreesExactly(m, db, userId, resourceId, action);
  }

  // ---- where they part, on stores with one grant ------------------------------------------------

  /** User `u` holds one role on `urc-x`. */
  function OneGrant(role: string): MemoryState {
    MemoryState(map[], map[], map[], map[("user", "u") := map["urc-x" := role]])
  }

  /** The same grant in the tables; deleting a repository changes its status and no grant. */
  function OneGrantTables(role: string, status: string): Db {
    Db(map["r" := Repository("x", "x", status)], [GrantRow("user", "u", "r", role)], [], [])
  }

  lemma IdsOfX()
    ensures ResourceIdOf("x") == "urc-x" && RepositoryIdFromResourceId("urc-x") == "x"
  {
    assert ResourceIdOf("x") == URC + "x" == "urc-x";
    assert "urc-x"[..4] == URC && "urc-x"[4..] == "x";
  }

  lemma OneGrantIsShared(role: string, status: string)
    ensures SameStores(OneGrant(role), OneGrantTables(role, status), "urc-x")
  {
    var m, db := OneGrant(role), OneGrantTables(role, status);
    var g := GrantRow("user", "u", "r", role);
    IdsOfX();
    hide ResourceIdOf, RepositoryIdFromResourceId;
    forall userId: Id ensures DirectGroupIdsForUser(m.groups, m.groupMembers, userId) == DirectRows(db, userId) {
    }
    assert Reversed(EdgesOf(m.nests)) == NestEdges(db);
    forall subject, resourceId: string, r: string
      ensures Granted(m, subject, resourceId, r) <==> exists g :: g in db.grants && IsRow(db, g, subject, resourceId, r)
    {
      assert g in db.grants;
      assert Granted(m, subject, resourceId, r) <==> IsRow(db, g, subject, resourceId, r);
    }
  }

  lemma OneGrantRoles(role: string, action: string)
    ensures MemoryAllows(OneGrant(role), "u", "urc-x", action) <==> RoleAllows(role, action)
    ensures forall r :: HasRole(OneGrantTables(role, "active"), "u", "x", r) <==> r == role
  {
    var m, db := OneGrant(role), OneGrantTables(role, "active");
    var g := GrantRow("user", "u", "r", role);
    hide RoleAllows, MemoryUserGroups, DbUserGroups;
    assert IsSubjectOf(m, "u", ("user", "u")) && Granted(m, ("user", "u"), "urc-x", role);
    assert MemoryHolds(m, "u", "urc-x", role);
    assert g in db.grants && IsOn(db, g, "x") && Applies(db, "u", g);
  }

  /** On a deleted repository the memory store goes on allowing, and the tuple engine finds nothing. */
  lemma DeletedRepositoryStaysOpen()
    ensures
      var m, db := OneGrant("reader"), OneGrantTables("reader", "deleted");
      && SameStores(m, db, "urc-x")
      && MemoryAllows(m, "u", "urc-x", "read") && Decision(db, "u", "urc-x", "read") == Err(NotFound)
  {
    OneGrantIsShared("reader", "deleted");
    OneGrantRoles("reader", "read");
    IdsOfX();
  }

  /** An unknown role is passed over in memory and fails the tuple engine. */
  lemma UnknownRoleIsPassedOver()
    ensures
      var m, db := OneGrant("owner"), OneGrantTables("owner", "active");
      && SameStores(m, db, "urc-x")
      && !MemoryAllows(m, "u", "urc-x", "read") && Decision(db, "u", "urc-x", "read") == Err(UNKNOWN_ROLE)
  {
    OneGrantIsShared("owner", "active");
    OneGrantRoles("owner", "read");
    IdsOfX();
    hide ResourceIdOf, RepositoryIdFromResourceId, HasRole;
    var db := OneGrantTables("owner", "active");
    assert ActiveRepository(db, "r");
    assert HasRole(db, "u", "x", "owner") && !IsKnownRole("owner") && !Decides("owner", "read");
  }

  /** An unknown action is refused in memory, and an admin's in the tuple engine is not. */
  lemma UnknownActionNeedsAnAdmin()
    ensures
      var m, db := OneGrant("admin"), OneGrantTables("admin", "active");
      && SameStores(m, db, "urc-x")
      && !MemoryAllows(m, "u", "urc-x", "delete") && Decision(db, "u", "urc-x", "delete") == Ok(true)
  {
    OneGrantIsShared("admin", "active");
    OneGrantRoles("admin", "delete");
    IdsOfX();
    hide ResourceIdOf, RepositoryIdFromResourceId, HasRole;
    var db := OneGrantTables("admin", "active");
    assert ActiveRepository(db, "r");
    assert HasRole(db, "u", "x", "admin") && IsKnownRole("admin") && Decides("admin", "delete");
  }
}
