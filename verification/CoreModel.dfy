/** Errors, roles, permissions and resource ids: the protocol-independent rules. */
module CoreModel {
  import opened Text

  datatype CoreError =
    | NotFound
    | PermissionDenied
    | Unauthenticated
    | AuthSessionNotFound
    | TokenIssueFailed
    | DeviceAuthorizationNotPending
    | DeviceExpiredCode
    | DeviceInvalidCode
    | DeviceIncompleteAuthorization
    | InvalidArgument(message: string)

  datatype Result<+T> = Ok(value: T) | Err(error: CoreError)

  function NormalizeEmail(email: string): string {
    AsciiLower(Trim(email))
  }

  predicate IsActive(accounts: map<string, bool>, userId: string) {
    userId in accounts && accounts[userId]
  }

  /** `principal_by_user_id`: accounts that are not deleted, each with whether it is active. */
  function PrincipalOf(accounts: map<string, bool>, userId: string): Result<string> {
    if userId !in accounts then Err(NotFound)
    else if !accounts[userId] then Err(PermissionDenied)
    else Ok(userId)
  }

  datatype Permission = Read | Write | Admin

  function PermissionFromName(name: string): Option<Permission> {
    match name
    case "read" => Some(Read)
    case "write" => Some(Write)
    case "admin" => Some(Admin)
    case _ => None
  }

  predicate IsKnownRole(role: string) {
    role in {"reader", "writer", "admin"}
  }

  /** `Role::permissions`, as a set, for the known roles. */
  function RolePermissions(role: string): Option<set<Permission>> {
    match role
    case "reader" => Some({Read})
    case "writer" => Some({Read, Write})
    case "admin" => Some({Read, Write, Admin})
    case _ => None
  }

  predicate RoleAllows(role: string, action: string) {
    && RolePermissions(role).Some?
    && PermissionFromName(action).Some?
    && PermissionFromName(action).value in RolePermissions(role).value
  }

  const URC := "urc-"

  function ForRepositoryId(repositoryId: string): Option<string> {
    if repositoryId == "" then None
    else if HasPrefix(repositoryId, URC) then Some(repositoryId)
    else Some(URC + repositoryId)
  }

  /** `for_repository_id(..).unwrap_or_default()`, as the tuple readers use it. */
  function ResourceIdOf(repositoryId: string): string {
    match ForRepositoryId(repositoryId)
    case Some(id) => id
    case None => ""
  }

  function RepositoryIdFromResourceId(resourceId: string): string {
    match StripPrefix(resourceId, URC)
    case Some(id) => id
    case None => resourceId
  }

  /** Only one prefix is stripped, so the two conversions are inverse exactly on
      repository ids that do not carry the prefix themselves. */
  lemma RepositoryIdRoundTrip(id: string)
    ensures RepositoryIdFromResourceId(ResourceIdOf(id)) == id <==> !HasPrefix(id, URC)
  {
    if id != "" && !HasPrefix(id, URC) {
      assert (URC + id)[..4] == URC && (URC + id)[4..] == id;
    } else if HasPrefix(id, URC) {
      assert |id[4..]| < |id|;
    }
  }

  /** Stored repository ids for which both conversions are inverse. */
  predicate CanonicalRepositoryId(id: string) {
    id != "" && !HasPrefix(id, URC)
  }

  lemma CanonicalIdsAreDistinct(a: string, b: string)
    requires CanonicalRepositoryId(a) && CanonicalRepositoryId(b)
    ensures ResourceIdOf(a) == ResourceIdOf(b) <==> a == b
    ensures RepositoryIdFromResourceId(ResourceIdOf(a)) == a
  {
    RepositoryIdRoundTrip(a);
    RepositoryIdRoundTrip(b);
  }
}
