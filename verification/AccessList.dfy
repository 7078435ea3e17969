/** `list_accessible`, and its agreement with `can_access`. */
module AccessList {
  import opened Text
  import opened CoreModel
  import opened Reach
  import opened Tuples
  import opened Resolver
  import opened GroupClosure
  import opened Access

  datatype ResourcePermission = ResourcePermission(resourceId: string, permission: seq<Permission>)

  /** A grant row that the candidate query returns and the prefix admits. */
  ghost predicate Candidate(db: Db, userId: Id, prefix: string, g: GrantRow) {
    && g in db.grants && ActiveRepository(db, g.repositoryId) && Applies(db, userId, g)
    && HasPrefix(ResourceIdOf(db.repositories[g.repositoryId].loreId), prefix)
  }

  ghost predicate CandidateId(db: Db, userId: Id, prefix: string, id: string) {
    exists g :: Candidate(db, userId, prefix, g) && id == ResourceIdOf(db.repositories[g.repositoryId].loreId)
  }

  ghost predicate CandidateLore(db: Db, userId: Id, prefix: string, loreId: string) {
    exists g :: Candidate(db, userId, prefix, g) && db.repositories[g.repositoryId].loreId == loreId
  }

  ghost predicate UnknownCandidate(db: Db, userId: Id, prefix: string) {
    exists g :: Candidate(db, userId, prefix, g) && !IsKnownRole(g.role)
  }

  /** Resource ids with a candidate grant, in order and once each. */
  method CandidateResourceIds(db: Db, userId: Id, prefix: string) returns (r: Result<seq<string>>)
    ensures r.Err? <==> UnknownCandidate(db, userId, prefix)
    ensures r.Err? ==> r.error == UNKNOWN_ROLE
    ensures r.Ok? ==> StrictlySorted(r.value)
    ensures r.Ok? ==> forall id :: id in r.value <==> CandidateId(db, userId, prefix, id)
  {
    var groups := RecursiveUserGroups(db, userId);
    var byResource: seq<string> := [];
    for i := 0 to |db.grants|
      invariant StrictlySorted(byResource)
      invariant forall g :: g in db.grants[..i] && Candidate(db, userId, prefix, g) ==> IsKnownRole(g.role)
      invariant forall id :: id in byResource ==> CandidateId(db, userId, prefix, id)
      invariant forall g :: g in db.grants[..i] && Candidate(db, userId, prefix, g) ==>
        ResourceIdOf(db.repositories[g.repositoryId].loreId) in byResource
    {
      var g := db.grants[i];
      assert db.grants[..i + 1] == db.grants[..i] + [g];
      if ActiveRepository(db, g.repositoryId)
         && ((g.subjectType == "user" && g.subjectId == userId) || (g.subjectType == "group" && g.subjectId in groups))
      {
        var resourceId := ResourceIdOf(db.repositories[g.repositoryId].loreId);
        if HasPrefix(resourceId, prefix) {
          assert Candidate(db, userId, prefix, g);
          if RolePermissions(g.role).None? {
            return Err(UNKNOWN_ROLE);
          }
          forall id ensures id in InsertKey(resourceId, byResource) <==> id == resourceId || id in byResource {
            InsertKeyElements(resourceId, byResource, id);
          }
          InsertKeySorted(resourceId, byResource);
          byResource := InsertKey(resourceId, byResource);
        }
      }
    }
    assert db.grants[..|db.grants|] == db.grants;
    return Ok(byResource);
  }

  function PermissionsOf(admin: bool, writer: bool, reader: bool): seq<Permission> {
    if admin then [Read, Write, Admin]
    else (if reader || writer then [Read] else []) + (if writer then [Write] else [])
  }

  /** `resource_permissions_with_resolver`. */
  method ResourcePermissions(ts: seq<Tuple>, fuel: nat, userId: Id, resourceId: string)
      returns (r: Result<seq<Permission>>)
    ensures r.Ok? ==> r.value == Computed(ts, userId, resourceId)
    ensures r.Err? ==> r.error == MAX_DEPTH
    ensures r.Err? ==> exists role :: Check(ts, userId, "resource", resourceId, role, fuel) == TooDeep
  {
    var admin := CheckAnyRelation(ts, fuel, resourceId, userId, ["admin"]);
    if admin.Err? {
      return Err(admin.error);
    }
    assert "admin" in ["admin"];
    if admin.value {
      return Ok([Read, Write, Admin]);
    }
    var reader := CheckAnyRelation(ts, fuel, resourceId, userId, ["reader"]);
    if reader.Err? {
      return Err(reader.error);
    }
    assert "reader" in ["reader"];
    var writer := CheckAnyRelation(ts, fuel, resourceId, userId, ["writer"]);
    if writer.Err? {
      return Err(writer.error);
    }
    assert "writer" in ["writer"];
    var set_ := (if reader.value || writer.value then [Read] else []) + (if writer.value then [Write] else []);
    return Ok(set_);
  }

  ghost predicate Allows(db: Db, userId: Id, resourceId: string, action: string) {
    Decision(db, userId, resourceId, action) == Ok(true)
  }

  /** The entry for a resource says what `can_access` says. */
  ghost predicate EntryAgrees(db: Db, userId: Id, entry: ResourcePermission) {
    && Allows(db, userId, entry.resourceId, "read") && Read in entry.permission
    && (Write in entry.permission <==> Allows(db, userId, entry.resourceId, "write"))
    && (Admin in entry.permission <==> Allows(db, userId, entry.resourceId, "admin"))
  }

  ghost predicate Listed(db: Db, userId: Id, prefix: string, out: seq<ResourcePermission>) {
    && (forall i, j :: 0 <= i < j < |out| ==> LexLt(out[i].resourceId, out[j].resourceId))
    && (forall entry :: entry in out ==> HasPrefix(entry.resourceId, prefix) && EntryAgrees(db, userId, entry))
    && (forall id :: HasPrefix(id, prefix) && Allows(db, userId, id, "read")
          ==> exists entry :: entry in out && entry.resourceId == id)
  }

  lemma WhoDecides(role: string)
    ensures Decides(role, "read") <==> role in {"reader", "writer", "admin"}
    ensures Decides(role, "write") <==> role in {"writer", "admin"}
    ensures Decides(role, "admin") <==> role == "admin"
  {
    assert RelationsFor("read") == ["reader", "writer", "admin"];
    assert RelationsFor("write") == ["writer", "admin"];
    assert RelationsFor("admin") == ["admin"];
  }

  lemma RolesDecide(db: Db, userId: Id, loreId: string)
    ensures
      var admin := HasRole(db, userId, loreId, "admin");
      var writer := HasRole(db, userId, loreId, "writer");
      && (Decided(db, userId, loreId, "read") <==> admin || writer || HasRole(db, userId, loreId, "reader"))
      && (Decided(db, userId, loreId, "write") <==> admin || writer)
      && (Decided(db, userId, loreId, "admin") <==> admin)
  {
    WhoDecides("reader");
    WhoDecides("writer");
    WhoDecides("admin");
    forall role ensures Decides(role, "read") <==> role in {"reader", "writer", "admin"}
      ensures Decides(role, "write") <==> role in {"writer", "admin"}
      ensures Decides(role, "admin") <==> role == "admin"
    {
      WhoDecides(role);
    }
  }

  /** The permissions computed for a resource from the snapshot. */
  ghost function Computed(ts: seq<Tuple>, userId: Id, id: string): seq<Permission> {
    PermissionsOf(Related(ts, userId, "resource", id, "admin"),
                  Related(ts, userId, "resource", id, "writer"),
                  Related(ts, userId, "resource", id, "reader"))
  }

  // ---- which repositories stand behind a listed id -----------------------------------------

  const ACTIONS: set<string> := {"read", "write", "admin"}

  function PermissionFor(action: string): Permission
    requires action in ACTIONS
  {
    match action
    case "read" => Read
    case "write" => Write
    case _ => Admin
  }

  /** A stored id that itself begins with the prefix, beside a stored id with one prefix
      more: the second one's resource id strips to the first, so that the snapshot holds
      grants that `can_access` looks for under yet another id. */
  ghost predicate Borrows(db: Db, userId: Id, prefix: string, loreId: string) {
    && HasPrefix(loreId, URC)
    && CandidateLore(db, userId, prefix, loreId) && CandidateLore(db, userId, prefix, URC + loreId)
  }

  /** Nothing is listed on the strength of such grants alone. */
  ghost predicate NothingBorrowed(db: Db, userId: Id, prefix: string) {
    forall loreId, action ::
      Borrows(db, userId, prefix, loreId) && action in ACTIONS && Decided(db, userId, loreId, action) ==>
      Own(db, userId, loreId, action)
  }

  /** The repository that `can_access` looks at has the id and decides the action. */
  ghost predicate Own(db: Db, userId: Id, id: string, action: string) {
    var loreId := RepositoryIdFromResourceId(id);
    ResourceIdOf(loreId) == id && Decided(db, userId, loreId, action)
  }

  ghost predicate CanonicalStore(db: Db) {
    forall id :: id in db.repositories ==> CanonicalRepositoryId(db.repositories[id].loreId)
  }

  lemma CanonicalStoreBorrowsNothing(db: Db, userId: Id, prefix: string)
    requires CanonicalStore(db)
    ensures NothingBorrowed(db, userId, prefix)
  {
    forall g | Candidate(db, userId, prefix, g) ensures !HasPrefix(db.repositories[g.repositoryId].loreId, URC) {
    }
  }

  /** Stripped candidate ids that have a given candidate id: the id without its prefix, or
      the id itself when it is the stripped form of another candidate. */
  lemma LoreIdsOfId(db: Db, userId: Id, prefix: string, id: string, other: string, loreId: string)
    requires CandidateId(db, userId, prefix, id) && CandidateId(db, userId, prefix, other)
    requires loreId == RepositoryIdFromResourceId(other) && ResourceIdOf(loreId) == id
    requires exists role :: HasRole(db, userId, loreId, role)
    ensures loreId == RepositoryIdFromResourceId(id) || (loreId == id && Borrows(db, userId, prefix, loreId))
  {
    var h :| Candidate(db, userId, prefix, h) && id == ResourceIdOf(db.repositories[h.repositoryId].loreId);
    var role :| HasRole(db, userId, loreId, role);
    var g :| g in db.grants && IsOn(db, g, loreId) && Applies(db, userId, g) && g.role == role;
    assert Candidate(db, userId, prefix, g);
    if HasPrefix(loreId, URC) {
      assert id == loreId;
      var o :| Candidate(db, userId, prefix, o) && other == ResourceIdOf(db.repositories[o.repositoryId].loreId);
      PrefixedTwice(db.repositories[o.repositoryId].loreId, loreId);
      assert db.repositories[o.repositoryId].loreId == URC + loreId;
    } else {
      RepositoryIdRoundTrip(loreId);
    }
  }

  lemma PrefixedTwice(stored: string, loreId: string)
    requires HasPrefix(loreId, URC) && RepositoryIdFromResourceId(ResourceIdOf(stored)) == loreId
    ensures stored == URC + loreId
  {
    RepositoryIdRoundTrip(stored);
    if HasPrefix(stored, URC) {
      assert stored == URC + stored[4..];
    }
  }

  /** What is computed for a candidate id: what its own repository decides, or what a
      borrowed one does. */
  lemma ComputedDecides(db: Db, userId: Id, prefix: string, ids: seq<string>, ts: seq<Tuple>, id: string,
                        action: string)
    requires forall x :: x in ids <==> CandidateId(db, userId, prefix, x)
    requires IsSnapshot(db, userId, LoreIdsOf(ids), ts) && id in ids && action in ACTIONS
    ensures PermissionFor(action) in Computed(ts, userId, id)
       <==> Own(db, userId, id, action) || (Borrows(db, userId, prefix, id) && Decided(db, userId, id, action))
  {
    hide IsSnapshot, Related, HasRole, ResourceIdOf, RepositoryIdFromResourceId, CandidateLore, CandidateId, Candidate;
    forall role ensures Related(ts, userId, "resource", id, role) <==> StandsBehind(db, userId, prefix, id, role) {
      RolesBehind(db, userId, prefix, ids, ts, id, role);
    }
    WhoDecides("reader");
    WhoDecides("writer");
    WhoDecides("admin");
    RolesDecide(db, userId, RepositoryIdFromResourceId(id));
    RolesDecide(db, userId, id);
  }

  function LoreIdsOf(ids: seq<string>): set<string> {
    set id | id in ids :: RepositoryIdFromResourceId(id)
  }

  /** A role held on the id's own repository, or on one whose grants it borrows. */
  ghost predicate StandsBehind(db: Db, userId: Id, prefix: string, id: string, role: string) {
    || (ResourceIdOf(RepositoryIdFromResourceId(id)) == id && HasRole(db, userId, RepositoryIdFromResourceId(id), role))
    || (Borrows(db, userId, prefix, id) && HasRole(db, userId, id, role))
  }

  lemma RolesBehind(db: Db, userId: Id, prefix: string, ids: seq<string>, ts: seq<Tuple>, id: string, role: string)
    requires forall x :: x in ids <==> CandidateId(db, userId, prefix, x)
    requires IsSnapshot(db, userId, LoreIdsOf(ids), ts) && id in ids
    ensures Related(ts, userId, "resource", id, role) <==> StandsBehind(db, userId, prefix, id, role)
  {
    hide IsSnapshot, Related, HasRole;
    RelatedIsHasRole(db, userId, LoreIdsOf(ids), ts, id, role);
    if loreId :| loreId in LoreIdsOf(ids) && id == ResourceIdOf(loreId) && HasRole(db, userId, loreId, role) {
      var other :| other in ids && RepositoryIdFromResourceId(other) == loreId;
      LoreIdsOfId(db, userId, prefix, id, other, loreId);
    }
    if Borrows(db, userId, prefix, id) && HasRole(db, userId, id, role) {
      var g :| Candidate(db, userId, prefix, g) && db.repositories[g.repositoryId].loreId == URC + id;
      assert HasPrefix(URC + id, URC) && (URC + id)[4..] == id;
      assert CandidateId(db, userId, prefix, URC + id);
      assert RepositoryIdFromResourceId(URC + id) == id;
      assert id in LoreIdsOf(ids) && id == ResourceIdOf(id);
    }
  }

  /** With known roles, `can_access` decides by the id's own repository. */
  lemma AllowsIsOwn(db: Db, userId: Id, prefix: string, id: string, action: string)
    requires !UnknownCandidate(db, userId, prefix) && HasPrefix(id, prefix)
    ensures Allows(db, userId, id, action) <==> Own(db, userId, id, action)
  {
    var loreId := RepositoryIdFromResourceId(id);
    if Own(db, userId, id, action) {
      forall role | HasRole(db, userId, loreId, role) ensures IsKnownRole(role) {
        var h :| h in db.grants && IsOn(db, h, loreId) && Applies(db, userId, h) && h.role == role;
        assert Candidate(db, userId, prefix, h);
      }
      var d :| HasRole(db, userId, loreId, d) && Decides(d, action);
      var g :| g in db.grants && IsOn(db, g, loreId) && Applies(db, userId, g) && g.role == d;
      assert RepositoryExists(db, loreId);
      assert !UnknownRoleFirst(db, userId, loreId, action);
    }
  }

  lemma AllowedIsCandidate(db: Db, userId: Id, prefix: string, id: string)
    requires Allows(db, userId, id, "read") && HasPrefix(id, prefix)
    ensures CandidateId(db, userId, prefix, id)
  {
    var loreId := RepositoryIdFromResourceId(id);
    var role :| HasRole(db, userId, loreId, role) && Decides(role, "read");
    var g :| g in db.grants && IsOn(db, g, loreId) && Applies(db, userId, g) && g.role == role;
    assert Candidate(db, userId, prefix, g);
  }

  // ---- the list ----------------------------------------------------------------------------------

  /** The entries of the ids with some permission, in the order of the ids. */
  ghost function ListingOf(ts: seq<Tuple>, userId: Id, ids: seq<string>): seq<ResourcePermission> {
    if ids == [] then []
    else if Computed(ts, userId, ids[0]) != []
    then [ResourcePermission(ids[0], Computed(ts, userId, ids[0]))] + ListingOf(ts, userId, ids[1..])
    else ListingOf(ts, userId, ids[1..])
  }

  lemma {:induction false} ListingElements(ts: seq<Tuple>, userId: Id, ids: seq<string>, entry: ResourcePermission)
    ensures entry in ListingOf(ts, userId, ids)
       <==> && entry.resourceId in ids
            && entry.permission == Computed(ts, userId, entry.resourceId) && entry.permission != []
  {
    hide Computed;
    if ids != [] {
      ListingElements(ts, userId, ids[1..], entry);
      assert entry.resourceId in ids <==> entry.resourceId == ids[0] || entry.resourceId in ids[1..];
    }
  }

  lemma {:induction false} ListingSorted(ts: seq<Tuple>, userId: Id, ids: seq<string>)
    requires StrictlySorted(ids)
    ensures
      var out := ListingOf(ts, userId, ids);
      forall i, j :: 0 <= i < j < |out| ==> LexLt(out[i].resourceId, out[j].resourceId)
  {
    hide Computed, LexLt;
    if ids != [] {
      ListingSorted(ts, userId, ids[1..]);
      var rest := ListingOf(ts, userId, ids[1..]);
      forall j | 0 <= j < |rest| ensures LexLt(ids[0], rest[j].resourceId) {
        ListingElements(ts, userId, ids[1..], rest[j]);
        var k :| 0 <= k < |ids[1..]| && ids[1..][k] == rest[j].resourceId;
        assert LexLt(ids[0], ids[k + 1]);
      }
    }
  }

  lemma ListingAppend(ts: seq<Tuple>, userId: Id, ids: seq<string>, id: string)
    ensures ListingOf(ts, userId, ids + [id]) == ListingOf(ts, userId, ids) + ListingOf(ts, userId, [id])
    decreases |ids|
  {
    hide Computed;
    if ids == [] {
      assert ids + [id] == [id];
    } else {
      ListingAppend(ts, userId, ids[1..], id);
      assert (ids + [id])[1..] == ids[1..] + [id];
    }
  }

  lemma PermissionsShown(ts: seq<Tuple>, userId: Id, id: string)
    ensures Computed(ts, userId, id) != [] <==> Read in Computed(ts, userId, id)
  {
    hide Related;
  }

  /** The list agrees with `can_access` exactly when nothing is borrowed. */
  lemma ListingIsExact(db: Db, userId: Id, prefix: string, ids: seq<string>, ts: seq<Tuple>)
    requires !UnknownCandidate(db, userId, prefix) && StrictlySorted(ids)
    requires forall x :: x in ids <==> CandidateId(db, userId, prefix, x)
    requires IsSnapshot(db, userId, LoreIdsOf(ids), ts)
    ensures Listed(db, userId, prefix, ListingOf(ts, userId, ids)) <==> NothingBorrowed(db, userId, prefix)
  {
    hide IsSnapshot, Computed, Allows, Own, Decided, CandidateLore, LexLt, UnknownCandidate, StrictlySorted;
    var out := ListingOf(ts, userId, ids);
    ListingSorted(ts, userId, ids);
    forall entry ensures entry in out <==>
        entry.resourceId in ids && entry.permission == Computed(ts, userId, entry.resourceId) && entry.permission != []
    {
      ListingElements(ts, userId, ids, entry);
    }
    forall id | id in ids ensures HasPrefix(id, prefix) { CandidateHasPrefix(db, userId, prefix, id); }
    if NothingBorrowed(db, userId, prefix) {
      forall entry | entry in out ensures EntryAgrees(db, userId, entry) {
        EntryIsOwn(db, userId, prefix, ids, ts, entry.resourceId);
      }
      forall id | HasPrefix(id, prefix) && Allows(db, userId, id, "read")
        ensures exists entry :: entry in out && entry.resourceId == id
      {
        AllowedIsCandidate(db, userId, prefix, id);
        EntryIsOwn(db, userId, prefix, ids, ts, id);
        assert ResourcePermission(id, Computed(ts, userId, id)) in out;
      }
    } else {
      var loreId, action :| Borrows(db, userId, prefix, loreId) && action in ACTIONS
        && Decided(db, userId, loreId, action)
        && !Own(db, userId, loreId, action);
      BorrowedIsListed(db, userId, prefix, ids, ts, loreId, action);
      var entry := ResourcePermission(loreId, Computed(ts, userId, loreId));
      assert entry in out;
      AllowsIsOwn(db, userId, prefix, loreId, action);
      assert !EntryAgrees(db, userId, entry);
    }
  }

  lemma CandidateHasPrefix(db: Db, userId: Id, prefix: string, id: string)
    requires CandidateId(db, userId, prefix, id)
    ensures HasPrefix(id, prefix)
  {
  }

  lemma EntryIsOwn(db: Db, userId: Id, prefix: string, ids: seq<string>, ts: seq<Tuple>, id: string)
    requires !UnknownCandidate(db, userId, prefix) && NothingBorrowed(db, userId, prefix)
    requires forall x :: x in ids <==> CandidateId(db, userId, prefix, x)
    requires IsSnapshot(db, userId, LoreIdsOf(ids), ts) && id in ids
    ensures Computed(ts, userId, id) != [] <==> Allows(db, userId, id, "read")
    ensures Computed(ts, userId, id) != [] ==> EntryAgrees(db, userId, ResourcePermission(id, Computed(ts, userId, id)))
  {
    hide IsSnapshot, Computed, Allows, Own, Decided, Borrows, UnknownCandidate;
    CandidateHasPrefix(db, userId, prefix, id);
    PermissionsShown(ts, userId, id);
    forall action | action in ACTIONS
      ensures PermissionFor(action) in Computed(ts, userId, id) <==> Allows(db, userId, id, action)
    {
      ComputedDecides(db, userId, prefix, ids, ts, id, action);
      AllowsIsOwn(db, userId, prefix, id, action);
    }
    assert PermissionFor("read") == Read && PermissionFor("write") == Write && PermissionFor("admin") == Admin;
  }

  lemma BorrowedIsListed(db: Db, userId: Id, prefix: string, ids: seq<string>, ts: seq<Tuple>, loreId: string,
                         action: string)
    requires forall x :: x in ids <==> CandidateId(db, userId, prefix, x)
    requires IsSnapshot(db, userId, LoreIdsOf(ids), ts)
    requires Borrows(db, userId, prefix, loreId) && action in ACTIONS && Decided(db, userId, loreId, action)
    ensures loreId in ids && PermissionFor(action) in Computed(ts, userId, loreId)
  {
    hide IsSnapshot, Computed, Decided;
    var g :| Candidate(db, userId, prefix, g) && db.repositories[g.repositoryId].loreId == loreId;
    assert ResourceIdOf(loreId) == loreId;
    assert CandidateId(db, userId, prefix, loreId);
    ComputedDecides(db, userId, prefix, ids, ts, loreId, action);
  }

  /** The loop of `list_accessible` over the candidates and their snapshot. */
  method ListCandidates(db: Db, fuel: nat, userId: Id, ids: seq<string>, ts: seq<Tuple>, ghost loreIds: set<string>)
      returns (r: Result<seq<ResourcePermission>>)
    requires IsSnapshot(db, userId, loreIds, ts)
    ensures r.Ok? ==> r.value == ListingOf(ts, userId, ids)
    ensures r.Err? ==> r.error == MAX_DEPTH && DepthReached(db, userId, fuel)
  {
    hide IsSnapshot, Computed, DepthReached;
    var out: seq<ResourcePermission> := [];
    for i := 0 to |ids|
      invariant out == ListingOf(ts, userId, ids[..i])
    {
      var id := ids[i];
      assert ids[..i + 1] == ids[..i] + [id];
      ListingAppend(ts, userId, ids[..i], id);
      var permissions := ResourcePermissions(ts, fuel, userId, id);
      if permissions.Err? {
        ghost var role :| Check(ts, userId, "resource", id, role, fuel) == TooDeep;
        TooDeepIsDeep(db, userId, loreIds, ts, id, role, fuel);
        return Err(permissions.error);
      }
      if permissions.value != [] {
        out := out + [ResourcePermission(id, permissions.value)];
      }
    }
    assert ids[..|ids|] == ids;
    return Ok(out);
  }

  /** Fails exactly when an applicable role under the prefix is unknown, unless nesting is as
      deep as the limit. Otherwise it lists, strictly sorted, the resources under the prefix
      where `can_access` allows read, with Write and Admin exactly where it allows them,
      exactly when nothing is borrowed, which canonical ids guarantee. */
  method ListAccessible(db: Db, fuel: nat, userId: Id, prefix: string) returns (r: Result<seq<ResourcePermission>>)
    ensures UnknownCandidate(db, userId, prefix) ==> r == Err(UNKNOWN_ROLE)
    ensures !UnknownCandidate(db, userId, prefix) ==>
              || (r.Ok? && (Listed(db, userId, prefix, r.value) <==> NothingBorrowed(db, userId, prefix)))
              || (r == Err(MAX_DEPTH) && DepthReached(db, userId, fuel) && !DeepEnough(db, fuel))
    ensures r.Ok? && CanonicalStore(db) ==> Listed(db, userId, prefix, r.value)
  {
    var candidates := CandidateResourceIds(db, userId, prefix);
    if candidates.Err? {
      return Err(candidates.error);
    }
    var ids := candidates.value;
    var loreIds := LoreIdsOf(ids);
    var ts := ReadSnapshot(db, userId, loreIds);
    r := ListCandidates(db, fuel, userId, ids, ts, loreIds);
    if r.Ok? {
      ListingIsExact(db, userId, prefix, ids, ts);
      if CanonicalStore(db) { CanonicalStoreBorrowsNothing(db, userId, prefix); }
    } else {
      DepthNeedsNesting(db, userId, fuel);
    }
  }

  /** A store in which the list and `can_access` disagree: the user reads `urc-urc-y` and
      `urc-y`, and is listed on `urc-y`, whose own repository `y` does not exist. */
  lemma ChainedIdsBorrow(userId: Id)
    ensures
      var db := Db(map["1" := Repository("a", "urc-y", "active"), "2" := Repository("b", "urc-urc-y", "active")],
                   [GrantRow("user", userId, "1", "reader"), GrantRow("user", userId, "2", "reader")], [], []);
      !UnknownCandidate(db, userId, "") && !NothingBorrowed(db, userId, "")
  {
    var db := Db(map["1" := Repository("a", "urc-y", "active"), "2" := Repository("b", "urc-urc-y", "active")],
                 [GrantRow("user", userId, "1", "reader"), GrantRow("user", userId, "2", "reader")], [], []);
    assert Candidate(db, userId, "", db.grants[0]) && Candidate(db, userId, "", db.grants[1]);
    assert URC + "urc-y" == "urc-urc-y" && HasPrefix("urc-y", URC);
    assert Borrows(db, userId, "", "urc-y");
    WhoDecides("reader");
    assert IsOn(db, db.grants[0], "urc-y") && Applies(db, userId, db.grants[0]);
    assert HasRole(db, userId, "urc-y", "reader");
    assert Decided(db, userId, "urc-y", "read");
    assert RepositoryIdFromResourceId("urc-y") == "y";
    assert !Own(db, userId, "urc-y", "read") by {
      forall role ensures !HasRole(db, userId, "y", role) {
      }
    }
  }
}
