/** Accounts, external identities and invitations: how a login is resolved to an account,
    and how an invitation binds an identity to one. Every store call is one transaction. */
module LoginBinding {
  import opened Text
  import opened CoreModel

  type Id = string

  // ---- the tables -------------------------------------------------------------------------------

  datatype UserStatus = Active | Disabled | Pending | Deleted

  /** An empty normalized email stands for NULL. */
  datatype User = User(email: string, emailNormalized: string, displayName: string, status: UserStatus,
                       lastLoginAt: int)

  datatype Triple = Triple(providerId: string, issuer: string, subject: string)

  datatype Identity = Identity(id: Id, userId: Id, triple: Triple, email: string, active: bool, lastSeenAt: int)

  /** An accepted invitation holds the identity it created; an expiry of 0 stands for none. */
  datatype Invitation = Invitation(id: Id, userId: Id, providerId: string, issuer: string, email: string,
                                   emailNormalized: string, bindingPolicy: string, accepted: Option<Id>, expiresAt: int)

  /** Rows of the last two tables in the order of their creation. */
  datatype Db = Db(users: map<Id, User>, identities: seq<Identity>, invitations: seq<Invitation>)

  const EMPTY := Db(map[], [], [])

  datatype Request = Request(providerId: string, issuer: string, subject: string, email: string, emailVerified: bool,
                             displayName: string, emailBinding: string, allowedDomains: seq<string>)

  datatype Binding = Existing | BoundInvitation(invitationId: Id)

  datatype Login = Login(userId: Id, idp: string, identityId: Id, binding: Binding)

  // ---- emails -------------------------------------------------------------------------------------

  const VERIFIED_EMAIL_INVITATION := "verified_email_invitation"

  function ValidatedEmail(value: string): Result<string> {
    var n := NormalizeEmail(value);
    if n == "" || '@' !in n || (exists c :: c in n && IsWhitespace(c)) then
      Err(InvalidArgument("email must contain '@' and no whitespace"))
    else Ok(Trim(value))
  }

  function AfterLast(s: string, c: char): (r: Option<string>)
    ensures r.None? <==> c !in s
    ensures r.Some? ==>
          c !in r.value && |r.value| < |s| && s[|s| - |r.value|..] == r.value && s[|s| - |r.value| - 1] == c
  {
    if s == "" then None
    else if s[|s| - 1] == c then Some("")
    else
      match AfterLast(s[..|s| - 1], c)
      case Some(rest) => Some(rest + [s[|s| - 1]])
      case None => None
  }

  predicate EmailDomainAllowed(email: string, allowed: seq<string>) {
    || allowed == []
    || (&& AfterLast(NormalizeEmail(email), '@').Some?
        && var domain := AfterLast(NormalizeEmail(email), '@').value;
        && domain != ""
        && exists i :: 0 <= i < |allowed| && AsciiLower(Trim(allowed[i])) == AsciiLower(domain))
  }

  // ---- queries ---------------------------------------------------------------------------------------

  /** The first matching row. */
  function First<T>(rows: seq<T>, p: T -> bool, from: nat := 0): (r: Option<nat>)
    requires from <= |rows|
    ensures r.Some? ==> from <= r.value < |rows| && p(rows[r.value]) && forall j :: from <= j < r.value ==> !p(rows[j])
    ensures r.None? ==> forall j :: from <= j < |rows| ==> !p(rows[j])
    decreases |rows| - from
  {
    if from == |rows| then None
    else if p(rows[from]) then Some(from)
    else First(rows, p, from + 1)
  }

  predicate IdentityMatches(i: Identity, t: Triple) {
    i.active && i.triple == t
  }

  function FindIdentity(identities: seq<Identity>, t: Triple): (r: Option<nat>)
    ensures r.Some? ==> r.value < |identities| && IdentityMatches(identities[r.value], t)
    ensures r.None? ==> forall j :: 0 <= j < |identities| ==> !IdentityMatches(identities[j], t)
  {
    First(identities, i => IdentityMatches(i, t))
  }

  predicate InvitationMatches(v: Invitation, t: Triple, email: string, now: int) {
    && v.providerId == t.providerId && v.issuer == t.issuer && v.emailNormalized == email
    && v.bindingPolicy == VERIFIED_EMAIL_INVITATION && v.accepted.None?
    && (v.expiresAt == 0 || v.expiresAt > now)
  }

  function FindInvitation(invitations: seq<Invitation>, t: Triple, email: string, now: int): (r: Option<nat>)
    ensures r.Some? ==> r.value < |invitations| && InvitationMatches(invitations[r.value], t, email, now)
    ensures r.None? ==> forall j :: 0 <= j < |invitations| ==> !InvitationMatches(invitations[j], t, email, now)
  {
    First(invitations, v => InvitationMatches(v, t, email, now))
  }

  /** The unique index over the emails of the users that are not deleted. */
  predicate EmailTaken(users: map<Id, User>, email: string, except: Id) {
    email != "" && exists id ::
      id in users && id != except && users[id].status != Deleted && users[id].emailNormalized == email
  }

  predicate TripleTaken(identities: seq<Identity>, t: Triple) {
    exists i :: 0 <= i < |identities| && identities[i].triple == t
  }

  /** The unique index over the pending invitations. */
  predicate PendingTaken(invitations: seq<Invitation>, providerId: string, issuer: string, email: string) {
    exists i :: && 0 <= i < |invitations| && invitations[i].accepted.None? && invitations[i].providerId == providerId
                && invitations[i].issuer == issuer && invitations[i].emailNormalized == email
  }

  const CONFLICT := InvalidArgument("sqlite: UNIQUE constraint failed")

  // ---- resolving a login --------------------------------------------------------------------------------

  function TripleOf(req: Request): Triple {
    Triple(Trim(req.providerId), Trim(req.issuer), Trim(req.subject))
  }

  function ResolveExisting(db: Db, k: nat, now: int): (Db, Result<Login>)
    requires k < |db.identities|
  {
    var i := db.identities[k];
    if i.userId !in db.users then (db, Err(NotFound))
    else if db.users[i.userId].status != Active then (db, Err(PermissionDenied))
    else
      (db.(identities := db.identities[k := i.(lastSeenAt := now)],
           users := db.users[i.userId := db.users[i.userId].(lastLoginAt := now)]),
       Ok(Login(i.userId, i.triple.providerId, i.id, Existing)))
  }

  /** Whether the identity's email may bind it to an invitation at all. */
  predicate MayBind(req: Request) {
    && req.emailVerified && Trim(req.email) != ""
    && Trim(req.emailBinding) == VERIFIED_EMAIL_INVITATION
    && EmailDomainAllowed(NormalizeEmail(req.email), req.allowedDomains)
  }

  function Bound(user: User, req: Request, invited: string, now: int): User {
    var email := Trim(req.email);
    User(email, NormalizeEmail(email), if req.displayName == "" then invited else req.displayName, Active, now)
  }

  function BindInvitation(db: Db, req: Request, k: nat, now: int, id: Id): (Db, Result<Login>)
    requires k < |db.invitations|
  {
    var v := db.invitations[k];
    if TripleTaken(db.identities, TripleOf(req)) then (db, Err(CONFLICT))
    else if v.userId !in db.users then (db, Err(NotFound))
    else if EmailTaken(db.users, NormalizeEmail(Trim(req.email)), v.userId) then (db, Err(CONFLICT))
    else
      (Db(db.users[v.userId := Bound(db.users[v.userId], req, v.email, now)],
          db.identities + [Identity(id, v.userId, TripleOf(req), Trim(req.email), true, now)],
          db.invitations[k := v.(accepted := Some(id))]),
       Ok(Login(v.userId, TripleOf(req).providerId, id, BoundInvitation(v.id))))
  }

  function Resolve(db: Db, req: Request, now: int, id: Id): (Db, Result<Login>) {
    var t := TripleOf(req);
    if t.providerId == "" || t.issuer == "" || t.subject == "" then
      (db, Err(InvalidArgument("provider_id, issuer, and subject are required")))
    else
      match FindIdentity(db.identities, t)
      case Some(k) => ResolveExisting(db, k, now)
      case None =>
        if !MayBind(req) then (db, Err(NotFound))
        else
          match FindInvitation(db.invitations, t, NormalizeEmail(req.email), now)
          case Some(k) => BindInvitation(db, req, k, now, id)
          case None => (db, Err(NotFound))
  }

  // ---- accounts and invitations -----------------------------------------------------------------------------

  function AddUser(db: Db, email: string, displayName: string, id: Id): (Db, Result<Id>) {
    match ValidatedEmail(email)
    case Err(e) => (db, Err(e))
    case Ok(valid) =>
      if EmailTaken(db.users, NormalizeEmail(valid), id) then (db, Err(CONFLICT))
      else (db.(users := db.users[id := User(valid, NormalizeEmail(valid), displayName, Active, 0)]), Ok(id))
  }

  function NewInvitation(id: Id, userId: Id, providerId: string, issuer: string, email: string, policy: string,
                         expiresAt: int): Invitation
  {
    Invitation(id, userId, Trim(providerId), Trim(issuer), email, NormalizeEmail(email),
               if Trim(policy) == "" then VERIFIED_EMAIL_INVITATION else Trim(policy), None, expiresAt)
  }

  function AddInvitation(db: Db, providerId: string, issuer: string, email: string, displayName: string, policy: string,
                         expiresAt: int, userId: Id, id: Id): (Db, Result<Id>)
  {
    match ValidatedEmail(email)
    case Err(e) => (db, Err(e))
    case Ok(valid) =>
      var v := NewInvitation(id, userId, providerId, issuer, valid, policy, expiresAt);
      if v.providerId == "" || v.issuer == "" || v.emailNormalized == "" then
        (db, Err(InvalidArgument("provider_id, issuer, and email are required")))
      else if EmailTaken(db.users, v.emailNormalized, userId) then (db, Err(CONFLICT))
      else if PendingTaken(db.invitations, v.providerId, v.issuer, v.emailNormalized) then (db, Err(CONFLICT))
      else
        (Db(db.users[userId := User(valid, v.emailNormalized, displayName, Pending, 0)], db.identities,
            db.invitations + [v]), Ok(id))
  }

  function SetStatus(db: Db, id: Id, status: UserStatus): (Db, Result<()>) {
    if id !in db.users || db.users[id].status == Deleted then (db, Err(NotFound))
    else (db.(users := db.users[id := db.users[id].(status := status)]), Ok(()))
  }

  /** One account may have changed, in its status only; a deleted account never does. */
  predicate OnlyStatus(before: map<Id, User>, after: map<Id, User>, id: Id, status: UserStatus, ok: bool) {
    && before.Keys == after.Keys
    && (ok <==> id in before && before[id].status != Deleted)
    && forall x :: x in before ==>
         && after[x].email == before[x].email && after[x].emailNormalized == before[x].emailNormalized
         && after[x].displayName == before[x].displayName && after[x].lastLoginAt == before[x].lastLoginAt
         && after[x].status == if ok && x == id then status else before[x].status
  }

  // ---- the tables, updated in place ---------------------------------------------------------------------------

  class AccountTables {
    var users: map<Id, User>
    var identities: seq<Identity>
    var invitations: seq<Invitation>

    ghost function Contents(): Db
      reads this
    {
      Db(users, identities, invitations)
    }

    constructor ()
      ensures Contents() == EMPTY
    {
      users, identities, invitations := map[], [], [];
    }

    /** The transaction works on copies; leaving early rolls it back. */
    method ResolveLogin(req: Request, now: int, id: Id) returns (r: Result<Login>)
      modifies this
      ensures (Contents(), r) == Resolve(old(Contents()), req, now, id)
      ensures r.Err? ==> Contents() == old(Contents())
    {
      var t := TripleOf(req);
      if t.providerId == "" || t.issuer == "" || t.subject == "" {
        return Err(InvalidArgument("provider_id, issuer, and subject are required"));
      }
      var existing := FindIdentity(identities, t);
      if existing.Some? {
        r := TouchExisting(existing.value, now);
        return;
      }
      if !req.emailVerified || Trim(req.email) == "" {
        return Err(NotFound);
      }
      if Trim(req.emailBinding) != VERIFIED_EMAIL_INVITATION {
        return Err(NotFound);
      }
      var email := NormalizeEmail(req.email);
      if !EmailDomainAllowed(email, req.allowedDomains) {
        return Err(NotFound);
      }
      var invitation := FindInvitation(invitations, t, email, now);
      if invitation.None? {
        return Err(NotFound);
      }
      r := AcceptInvitation(req, invitation.value, now, id);
    }

    method TouchExisting(k: nat, now: int) returns (r: Result<Login>)
      requires k < |identities|
      modifies this
      ensures (Contents(), r) == ResolveExisting(old(Contents()), k, now)
    {
      var txUsers, txIdentities := users, identities;
      var i := txIdentities[k];
      txIdentities := txIdentities[k := i.(lastSeenAt := now)];
      if i.userId in txUsers {
        txUsers := txUsers[i.userId := txUsers[i.userId].(lastLoginAt := now)];
      }
      if i.userId !in txUsers {
        return Err(NotFound);
      }
      if txUsers[i.userId].status != Active {
        return Err(PermissionDenied);
      }
      users, identities := txUsers, txIdentities;
      return Ok(Login(i.userId, i.triple.providerId, i.id, Existing));
    }

    method AcceptInvitation(req: Request, k: nat, now: int, id: Id) returns (r: Result<Login>)
      requires k < |invitations| && invitations[k].accepted.None?
      modifies this
      ensures (Contents(), r) == BindInvitation(old(Contents()), req, k, now, id)
    {
      var txUsers, txIdentities, txInvitations := users, identities, invitations;
      var v := txInvitations[k];
      var identity := Identity(id, v.userId, TripleOf(req), Trim(req.email), true, now);
      if TripleTaken(txIdentities, identity.triple) {
        return Err(CONFLICT);
      }
      txIdentities := txIdentities + [identity];
      txInvitations := txInvitations[k := v.(accepted := Some(identity.id))];
      if v.userId !in txUsers {
        return Err(NotFound);
      }
      if EmailTaken(txUsers, NormalizeEmail(identity.email), v.userId) {
        return Err(CONFLICT);
      }
      txUsers := txUsers[v.userId := Bound(txUsers[v.userId], req, v.email, now)];
      users, identities, invitations := txUsers, txIdentities, txInvitations;
      return Ok(Login(v.userId, identity.triple.providerId, identity.id, BoundInvitation(v.id)));
    }

    method DisableUser(id: Id) returns (r: Result<()>)
      modifies this`users
      ensures (Contents(), r) == SetStatus(old(Contents()), id, Disabled)
      ensures OnlyStatus(old(users), users, id, Disabled, r.Ok?)
    {
      var changed := 0;
      if id in users && users[id].status != Deleted {
        users := users[id := users[id].(status := Disabled)];
        changed := 1;
      }
      return if changed == 0 then Err(NotFound) else Ok(());
    }

    method EnableUser(id: Id) returns (r: Result<()>)
      modifies this`users
      ensures (Contents(), r) == SetStatus(old(Contents()), id, Active)
      ensures OnlyStatus(old(users), users, id, Active, r.Ok?)
    {
      var changed := 0;
      if id in users && users[id].status != Deleted {
        users := users[id := users[id].(status := Active)];
        changed := 1;
      }
      return if changed == 0 then Err(NotFound) else Ok(());
    }
  }

  // ---- runs ------------------------------------------------------------------------------------------------------

  datatype Action =
    | DoLogin(req: Request, now: int, id: Id)
    | DoAddUser(email: string, displayName: string, id: Id)
    | DoAddInvitation(providerId: string, issuer: string, email: string, displayName: string, policy: string,
                      expiresAt: int, userId: Id, id: Id)
    | DoDisable(userId: Id)
    | DoEnable(userId: Id)

  /** Generated ids never collide with earlier ones. */
  predicate Fresh(db: Db, id: Id) {
    && id !in db.users
    && (forall i :: 0 <= i < |db.identities| ==> db.identities[i].id != id)
    && (forall i :: 0 <= i < |db.invitations| ==> db.invitations[i].id != id)
  }

  function Apply(db: Db, a: Action): Db {
    match a
    case DoLogin(req, now, id) => if Fresh(db, id) then Resolve(db, req, now, id).0 else db
    case DoAddUser(email, name, id) => if Fresh(db, id) then AddUser(db, email, name, id).0 else db
    case DoAddInvitation(provider, issuer, email, name, policy, expiresAt, userId, id) =>
      if Fresh(db, id) && Fresh(db, userId)
      then AddInvitation(db, provider, issuer, email, name, policy, expiresAt, userId, id).0
      else db
    case DoDisable(userId) => SetStatus(db, userId, Disabled).0
    case DoEnable(userId) => SetStatus(db, userId, Active).0
  }

  function Run(db: Db, actions: seq<Action>): Db {
    if actions == [] then db else Apply(Run(db, actions[..|actions| - 1]), actions[|actions| - 1])
  }

  // ---- what every step keeps ---------------------------------------------------------------------------------------

  ghost predicate OneIdentityPerTriple(identities: seq<Identity>) {
    forall i, j :: 0 <= i < j < |identities| ==>
      identities[i].triple != identities[j].triple && identities[i].id != identities[j].id
  }

  ghost predicate UniqueInvitations(invitations: seq<Invitation>) {
    forall i, j :: 0 <= i < j < |invitations| ==> invitations[i].id != invitations[j].id
  }

  /** At most one pending invitation for an email at a provider. */
  ghost predicate OnePending(invitations: seq<Invitation>) {
    forall i, j :: 0 <= i < j < |invitations| && invitations[i].accepted.None? && invitations[j].accepted.None? ==>
      || invitations[i].providerId != invitations[j].providerId || invitations[i].issuer != invitations[j].issuer
      || invitations[i].emailNormalized != invitations[j].emailNormalized
  }

  /** The identity was created by accepting the invitation. */
  ghost predicate CreatedBy(i: Identity, v: Invitation) {
    && v.accepted == Some(i.id) && i.userId == v.userId
    && i.triple.providerId == v.providerId && i.triple.issuer == v.issuer
    && NormalizeEmail(i.email) == v.emailNormalized
  }

  ghost predicate HasInvitation(i: Identity, invitations: seq<Invitation>) {
    exists k :: 0 <= k < |invitations| && CreatedBy(i, invitations[k])
  }

  ghost predicate HasIdentity(v: Invitation, identities: seq<Identity>) {
    exists k :: 0 <= k < |identities| && CreatedBy(identities[k], v)
  }

  ghost predicate AcceptedApart(invitations: seq<Invitation>) {
    forall i, j :: 0 <= i < j < |invitations| && invitations[i].accepted.Some? ==>
      invitations[i].accepted != invitations[j].accepted
  }

  ghost predicate UniqueEmails(users: map<Id, User>) {
    forall a, b :: a in users && b in users && a != b && users[a].status != Deleted && users[b].status != Deleted ==>
      users[a].emailNormalized == "" || users[a].emailNormalized != users[b].emailNormalized
  }

  ghost predicate RowsOk(db: Db) {
    && (forall i :: 0 <= i < |db.identities| ==>
          db.identities[i].active && db.identities[i].userId in db.users
            && HasInvitation(db.identities[i], db.invitations))
    && (forall k :: 0 <= k < |db.invitations| ==>
          && db.invitations[k].userId in db.users
          && (db.invitations[k].accepted.Some? ==> HasIdentity(db.invitations[k], db.identities)))
  }

  ghost predicate Inv(db: Db) {
    && OneIdentityPerTriple(db.identities) && UniqueInvitations(db.invitations) && OnePending(db.invitations)
    && AcceptedApart(db.invitations) && UniqueEmails(db.users) && RowsOk(db)
  }

  /** Identities keep their account and triple; invitations are only ever accepted, once. */
  ghost predicate Extends(db: Db, db': Db) {
    && db.users.Keys <= db'.users.Keys
    && |db.identities| <= |db'.identities| && |db.invitations| <= |db'.invitations|
    && (forall i :: 0 <= i < |db.identities| ==>
          db'.identities[i] == db.identities[i].(lastSeenAt := db'.identities[i].lastSeenAt))
    && (forall k :: 0 <= k < |db.invitations| ==>
          && db'.invitations[k] == db.invitations[k].(accepted := db'.invitations[k].accepted)
          && (db.invitations[k].accepted.Some? ==> db'.invitations[k].accepted == db.invitations[k].accepted))
  }

  lemma UserUpdateKeeps(db: Db, users': map<Id, User>)
    requires Inv(db) && db.users.Keys <= users'.Keys && UniqueEmails(users')
    ensures Inv(db.(users := users')) && Extends(db, db.(users := users'))
  {
  }

  lemma StatusKeeps(db: Db, id: Id, status: UserStatus)
    requires Inv(db) && status != Deleted
    ensures Inv(SetStatus(db, id, status).0) && Extends(db, SetStatus(db, id, status).0)
  {
    UserUpdateKeeps(db, SetStatus(db, id, status).0.users);
  }

  lemma AddUserKeeps(db: Db, email: string, name: string, id: Id)
    requires Inv(db) && Fresh(db, id)
    ensures Inv(AddUser(db, email, name, id).0) && Extends(db, AddUser(db, email, name, id).0)
  {
    hide ValidatedEmail, NormalizeEmail;
    UserUpdateKeeps(db, AddUser(db, email, name, id).0.users);
  }

  lemma CreatingInvitation(db: Db, i: nat) returns (k: nat)
    requires RowsOk(db) && i < |db.identities|
    ensures k < |db.invitations| && CreatedBy(db.identities[i], db.invitations[k])
  {
    assert HasInvitation(db.identities[i], db.invitations);
    k :| 0 <= k < |db.invitations| && CreatedBy(db.identities[i], db.invitations[k]);
  }

  lemma CreatedIdentity(db: Db, k: nat) returns (i: nat)
    requires RowsOk(db) && k < |db.invitations| && db.invitations[k].accepted.Some?
    ensures i < |db.identities| && CreatedBy(db.identities[i], db.invitations[k])
  {
    assert HasIdentity(db.invitations[k], db.identities);
    i :| 0 <= i < |db.identities| && CreatedBy(db.identities[i], db.invitations[k]);
  }

  lemma InvitationAppended(db: Db, v: Invitation, user: User)
    requires Inv(db) && Fresh(db, v.id) && v.accepted.None? && v.userId !in db.users
    requires !EmailTaken(db.users, user.emailNormalized, v.userId)
    requires !PendingTaken(db.invitations, v.providerId, v.issuer, v.emailNormalized)
    ensures
      var db' := Db(db.users[v.userId := user], db.identities, db.invitations + [v]);
      Inv(db') && Extends(db, db')
  {
    hide NormalizeEmail;
    var db' := Db(db.users[v.userId := user], db.identities, db.invitations + [v]);
    forall i | 0 <= i < |db.identities| ensures HasInvitation(db.identities[i], db'.invitations) {
      var k := CreatingInvitation(db, i);
      assert db'.invitations[k] == db.invitations[k];
    }
  }

  lemma AddInvitationKeeps(db: Db, provider: string, issuer: string, email: string, name: string, policy: string,
                           expiresAt: int, userId: Id, id: Id)
    requires Inv(db) && Fresh(db, id) && Fresh(db, userId)
    ensures
      var db' := AddInvitation(db, provider, issuer, email, name, policy, expiresAt, userId, id).0;
      Inv(db') && Extends(db, db')
  {
    hide NormalizeEmail, Trim, Inv, Extends;
    assert Extends(db, db) by { SelfExtends(db); }
    var (db', r) := AddInvitation(db, provider, issuer, email, name, policy, expiresAt, userId, id);
    if r.Ok? {
      var valid := ValidatedEmail(email).value;
      var v := NewInvitation(id, userId, provider, issuer, valid, policy, expiresAt);
      InvitationAppended(db, v, User(valid, v.emailNormalized, name, Pending, 0));
    }
  }

  lemma SelfExtends(db: Db)
    ensures Extends(db, db)
  {
  }

  lemma SeenKeepsRows(db: Db, k: nat, now: int)
    requires RowsOk(db) && k < |db.identities|
    ensures RowsOk(db.(identities := db.identities[k := db.identities[k].(lastSeenAt := now)]))
  {
    hide NormalizeEmail, HasInvitation, HasIdentity;
    var identities' := db.identities[k := db.identities[k].(lastSeenAt := now)];
    forall i | 0 <= i < |identities'| ensures HasInvitation(identities'[i], db.invitations) {
      var j := CreatingInvitation(db, i);
      Witness(identities', db.invitations, i, j);
    }
    forall j | 0 <= j < |db.invitations| && db.invitations[j].accepted.Some?
      ensures HasIdentity(db.invitations[j], identities')
    {
      var i := CreatedIdentity(db, j);
      Witness(identities', db.invitations, i, j);
    }
  }

  lemma Witness(identities: seq<Identity>, invitations: seq<Invitation>, i: nat, j: nat)
    requires i < |identities| && j < |invitations| && CreatedBy(identities[i], invitations[j])
    ensures HasInvitation(identities[i], invitations) && HasIdentity(invitations[j], identities)
  {
  }

  lemma TouchKeeps(db: Db, k: nat, now: int)
    requires Inv(db) && k < |db.identities|
    ensures Inv(ResolveExisting(db, k, now).0) && Extends(db, ResolveExisting(db, k, now).0)
  {
    hide RowsOk;
    var seen := db.(identities := db.identities[k := db.identities[k].(lastSeenAt := now)]);
    SeenKeepsRows(db, k, now);
    UserUpdateKeeps(seen, ResolveExisting(db, k, now).0.users);
  }

  /** A new identity and the invitation that creates it, in the rows. */
  lemma AcceptanceKeepsRows(db: Db, k: nat, identity: Identity, users': map<Id, User>)
    requires RowsOk(db) && k < |db.invitations| && db.invitations[k].accepted.None? && identity.active
    requires CreatedBy(identity, db.invitations[k].(accepted := Some(identity.id)))
    requires db.users.Keys <= users'.Keys
    ensures RowsOk(Db(users', db.identities + [identity],
                      db.invitations[k := db.invitations[k].(accepted := Some(identity.id))]))
  {
    hide NormalizeEmail, HasInvitation, HasIdentity;
    var identities' := db.identities + [identity];
    var invitations' := db.invitations[k := db.invitations[k].(accepted := Some(identity.id))];
    forall i | 0 <= i < |identities'| ensures HasInvitation(identities'[i], invitations') {
      if i == |db.identities| {
        Witness(identities', invitations', i, k);
      } else {
        var j := CreatingInvitation(db, i);
        Witness(identities', invitations', i, j);
      }
    }
    forall j | 0 <= j < |invitations'| && invitations'[j].accepted.Some?
      ensures HasIdentity(invitations'[j], identities')
    {
      if j == k {
        Witness(identities', invitations', |db.identities|, k);
      } else {
        var i := CreatedIdentity(db, j);
        Witness(identities', invitations', i, j);
      }
    }
  }

  /** A new identity together with the acceptance of the invitation that creates it. */
  lemma AcceptanceKeeps(db: Db, k: nat, identity: Identity, user: User)
    requires Inv(db) && k < |db.invitations| && db.invitations[k].accepted.None? && identity.active
    requires Fresh(db, identity.id) && !TripleTaken(db.identities, identity.triple)
    requires CreatedBy(identity, db.invitations[k].(accepted := Some(identity.id)))
    requires user.status != Deleted && !EmailTaken(db.users, user.emailNormalized, identity.userId)
    ensures
      var db' := Db(db.users[identity.userId := user], db.identities + [identity],
                    db.invitations[k := db.invitations[k].(accepted := Some(identity.id))]);
      Inv(db') && Extends(db, db')
  {
    AcceptanceKeepsRows(db, k, identity, db.users[identity.userId := user]);
    AcceptedStayApart(db, k, identity.id);
    AcceptanceKeepsIdentities(db.identities, identity);
    AcceptanceKeepsInvitations(db.invitations, k, Some(identity.id));
    UpdatedEmailsStayUnique(db.users, identity.userId, user);
    hide NormalizeEmail, RowsOk, AcceptedApart, CreatedBy, OneIdentityPerTriple, UniqueInvitations, OnePending,
         UniqueEmails, EmailTaken, TripleTaken, Fresh;
  }

  lemma AcceptanceKeepsIdentities(identities: seq<Identity>, i: Identity)
    requires OneIdentityPerTriple(identities) && !TripleTaken(identities, i.triple)
    requires forall j :: 0 <= j < |identities| ==> identities[j].id != i.id
    ensures OneIdentityPerTriple(identities + [i])
  {
  }

  lemma AcceptanceKeepsInvitations(invitations: seq<Invitation>, k: nat, accepted: Option<Id>)
    requires UniqueInvitations(invitations) && OnePending(invitations) && k < |invitations| && accepted.Some?
    ensures UniqueInvitations(invitations[k := invitations[k].(accepted := accepted)])
    ensures OnePending(invitations[k := invitations[k].(accepted := accepted)])
  {
  }

  lemma UpdatedEmailsStayUnique(users: map<Id, User>, id: Id, user: User)
    requires UniqueEmails(users) && !EmailTaken(users, user.emailNormalized, id)
    ensures UniqueEmails(users[id := user])
  {
  }

  lemma AcceptedStayApart(db: Db, k: nat, id: Id)
    requires RowsOk(db) && AcceptedApart(db.invitations) && k < |db.invitations| && Fresh(db, id)
    ensures AcceptedApart(db.invitations[k := db.invitations[k].(accepted := Some(id))])
  {
    hide NormalizeEmail;
    forall j | 0 <= j < |db.invitations| && db.invitations[j].accepted.Some?
      ensures db.invitations[j].accepted.value != id
    {
      var i := CreatedIdentity(db, j);
    }
  }

  lemma BindKeeps(db: Db, req: Request, k: nat, now: int, id: Id)
    requires Inv(db) && Fresh(db, id) && k < |db.invitations|
    requires InvitationMatches(db.invitations[k], TripleOf(req), NormalizeEmail(req.email), now)
    ensures Inv(BindInvitation(db, req, k, now, id).0) && Extends(db, BindInvitation(db, req, k, now, id).0)
  {
    hide Trim, Inv, Extends, AsciiLower;
    SelfExtends(db);
    var v := db.invitations[k];
    TrimIdempotent(req.email);
    if BindInvitation(db, req, k, now, id).1.Ok? {
      AcceptanceKeeps(db, k, Identity(id, v.userId, TripleOf(req), Trim(req.email), true, now),
                      Bound(db.users[v.userId], req, v.email, now));
    }
  }

  lemma ResolveKeeps(db: Db, req: Request, now: int, id: Id)
    requires Inv(db) && Fresh(db, id)
    ensures Inv(Resolve(db, req, now, id).0) && Extends(db, Resolve(db, req, now, id).0)
  {
    hide Trim, Inv, Extends, NormalizeEmail, MayBind, BindInvitation, ResolveExisting, Fresh;
    SelfExtends(db);
    var t := TripleOf(req);
    match FindIdentity(db.identities, t)
    case Some(k) => TouchKeeps(db, k, now);
    case None =>
      match FindInvitation(db.invitations, t, NormalizeEmail(req.email), now)
      case Some(k) => BindKeeps(db, req, k, now, id);
      case None =>
  }

  lemma ApplyKeeps(db: Db, a: Action)
    requires Inv(db)
    ensures Inv(Apply(db, a)) && Extends(db, Apply(db, a))
  {
    hide Inv, Extends, Resolve, AddUser, AddInvitation, SetStatus, Fresh;
    SelfExtends(db);
    match a
    case DoLogin(req, now, id) => if Fresh(db, id) { ResolveKeeps(db, req, now, id); }
    case DoAddUser(email, name, id) => if Fresh(db, id) { AddUserKeeps(db, email, name, id); }
    case DoAddInvitation(provider, issuer, email, name, policy, expiresAt, userId, id) =>
      if Fresh(db, id) && Fresh(db, userId) {
        AddInvitationKeeps(db, provider, issuer, email, name, policy, expiresAt, userId, id);
      }
    case DoDisable(userId) => StatusKeeps(db, userId, Disabled);
    case DoEnable(userId) => StatusKeeps(db, userId, Active);
  }

  // ---- the theorems, over every run -------------------------------------------------------------

  /** In every reachable state a triple has at most one identity, pending invitations do not
      clash, and identities and accepted invitations correspond one to one. */
  lemma {:induction false} EveryRunKeepsInv(actions: seq<Action>)
    ensures Inv(Run(EMPTY, actions))
  {
    if actions != [] {
      EveryRunKeepsInv(actions[..|actions| - 1]);
      ApplyKeeps(Run(EMPTY, actions[..|actions| - 1]), actions[|actions| - 1]);
    }
  }

  /** Along every run an invitation is accepted at most once, for good, and points to the
      identity it created, which stays with the invited account. */
  lemma {:induction false} RunExtends(db: Db, actions: seq<Action>)
    requires Inv(db)
    ensures Inv(Run(db, actions)) && Extends(db, Run(db, actions))
  {
    if actions == [] {
      SelfExtends(db);
    } else {
      hide Inv, Apply;
      var before := Run(db, actions[..|actions| - 1]);
      RunExtends(db, actions[..|actions| - 1]);
      ApplyKeeps(before, actions[|actions| - 1]);
      ExtendsTransitive(db, before, Run(db, actions));
    }
  }

  lemma ExtendsTransitive(a: Db, b: Db, c: Db)
    requires Extends(a, b) && Extends(b, c)
    ensures Extends(a, c)
  {
  }

  /** Once a triple is bound, whatever happens next, its logins resolve to the same account,
      whatever their email, policy or time: they succeed exactly while that account is
      active, and are otherwise denied. */
  lemma BoundLoginIsStable(db: Db, k: nat, actions: seq<Action>, req: Request, now: int, id: Id)
    requires Inv(db) && k < |db.identities|
    requires db.identities[k].triple == Triple(Trim(req.providerId), Trim(req.issuer), Trim(req.subject))
    requires Trim(req.providerId) != "" && Trim(req.issuer) != "" && Trim(req.subject) != ""
    ensures
      var end := Run(db, actions);
      var user := db.identities[k].userId;
      && user in end.users
      && Resolve(end, req, now, id).1 ==
         if end.users[user].status == Active
         then Ok(Login(user, Trim(req.providerId), db.identities[k].id, Existing))
         else Err(PermissionDenied)
  {
    hide Trim, Inv, Run;
    RunExtends(db, actions);
    var end := Run(db, actions);
    assert end.identities[k].triple == db.identities[k].triple;
    BoundIsFound(end, k);
  }

  lemma BoundIsFound(db: Db, k: nat)
    requires Inv(db) && k < |db.identities|
    ensures FindIdentity(db.identities, db.identities[k].triple) == Some(k) && db.identities[k].userId in db.users
  {
    hide NormalizeEmail;
    assert IdentityMatches(db.identities[k], db.identities[k].triple);
  }

  /** A successful login leaves its triple bound to the account it returned. */
  lemma LoginBindsItsTriple(db: Db, req: Request, now: int, id: Id)
    requires Inv(db) && Fresh(db, id) && Resolve(db, req, now, id).1.Ok?
    ensures
      var (db', r) := Resolve(db, req, now, id);
      exists k: nat :: k < |db'.identities|
                       && db'.identities[k].triple == Triple(Trim(req.providerId), Trim(req.issuer), Trim(req.subject))
                       && db'.identities[k].userId == r.value.userId && db'.identities[k].id == r.value.identityId
  {
    hide Trim, NormalizeEmail, MayBind, Inv, Fresh, EmailTaken, TripleTaken;
    var (db', r) := Resolve(db, req, now, id);
    match FindIdentity(db.identities, TripleOf(req))
    case Some(k) =>
      assert db'.identities[k].triple == TripleOf(req);
    case None =>
      assert db'.identities[|db.identities|].triple == TripleOf(req);
  }

  // ---- what adding an account writes --------------------------------------------------------------

  /** Some other account that is not deleted has the email. */
  ghost predicate HeldByAnother(users: map<Id, User>, email: string, id: Id) {
    exists u :: u in users && u != id && users[u].status != Deleted && users[u].emailNormalized == email
  }

  /** Surrounded by white space or not, an email has an at sign and no white space inside. */
  ghost predicate PlainEmail(email: string) {
    '@' in Trim(email) && forall c :: c in Trim(email) ==> !IsWhitespace(c)
  }

  lemma {:induction false} LowerKeeps(s: string, c: char)
    requires c == '@' || IsWhitespace(c)
    ensures c in AsciiLower(s) <==> c in s
  {
    if s != [] {
      LowerKeeps(s[1..], c);
      assert AsciiLower(s) == [AsciiLowerChar(s[0])] + AsciiLower(s[1..]);
    }
  }

  lemma ValidationIsExact(email: string)
    ensures ValidatedEmail(email).Ok? <==> PlainEmail(email)
    ensures ValidatedEmail(email).Ok? ==> ValidatedEmail(email).value == Trim(email)
    ensures NormalizeEmail(Trim(email)) == NormalizeEmail(email)
    ensures ValidatedEmail(email).Ok? ==> NormalizeEmail(email) != ""
  {
    TrimIdempotent(email);
    forall c | c == '@' || IsWhitespace(c) ensures c in NormalizeEmail(email) <==> c in Trim(email) {
      LowerKeeps(Trim(email), c);
    }
    hide AsciiLower, Trim;
    if ValidatedEmail(email).Ok? { assert '@' in Trim(email); }
  }

  /** An account is added, active, exactly for a plain email that no other account holds. */
  lemma AddUserIsExact(db: Db, email: string, name: string, id: Id)
    requires Fresh(db, id)
    ensures
      var (db', r) := AddUser(db, email, name, id);
      && (r.Ok? <==> PlainEmail(email) && !HeldByAnother(db.users, AsciiLower(Trim(email)), id))
      && (r.Ok? ==> r.value == id
                    && db' == db.(users := db.users[id := User(Trim(email), AsciiLower(Trim(email)), name, Active, 0)]))
      && (!r.Ok? ==> db' == db)
  {
    ValidationIsExact(email);
    hide AsciiLower, Trim, ValidatedEmail, Fresh, PlainEmail;
  }

  /** An invitation and its account are added exactly for a provider, an issuer and a plain email
      that no account holds and no pending invitation of the provider names. */
  lemma InvitationIsExact(db: Db, provider: string, issuer: string, email: string, name: string, policy: string,
                          expiresAt: int, userId: Id, id: Id)
    requires Fresh(db, id) && Fresh(db, userId)
    ensures
      var (db', r) := AddInvitation(db, provider, issuer, email, name, policy, expiresAt, userId, id);
      var normalized := AsciiLower(Trim(email));
      && (r.Ok? <==>
            && PlainEmail(email) && Trim(provider) != "" && Trim(issuer) != ""
            && !HeldByAnother(db.users, normalized, userId)
            && forall v :: v in db.invitations && v.accepted.None? ==>
                 v.providerId != Trim(provider) || v.issuer != Trim(issuer) || v.emailNormalized != normalized)
      && (r.Ok? ==>
            && db'.users == db.users[userId := User(Trim(email), normalized, name, Pending, 0)]
            && db'.identities == db.identities && |db'.invitations| == |db.invitations| + 1
            && db'.invitations[..|db.invitations|] == db.invitations
            && var v := db'.invitations[|db.invitations|];
            && v == Invitation(id, userId, Trim(provider), Trim(issuer), Trim(email), normalized, v.bindingPolicy,
                               None, expiresAt)
            && v.bindingPolicy == if Trim(policy) == "" then VERIFIED_EMAIL_INVITATION else Trim(policy))
      && (!r.Ok? ==> db' == db)
  {
    ValidationIsExact(email);
    hide AsciiLower, Trim, ValidatedEmail, Fresh, PlainEmail;
  }

  // ---- what a login leaves behind ---------------------------------------------------------------

  /** A successful login touches one account, which is active afterwards and was last seen now. */
  ghost predicate OnlyAccount(before: map<Id, User>, after: map<Id, User>, user: Id, now: int) {
    && before.Keys == after.Keys && user in after
    && after[user].status == Active && after[user].lastLoginAt == now
    && forall x :: x in before && x != user ==> after[x] == before[x]
  }

  lemma LoginLeavesAccountActive(db: Db, req: Request, now: int, id: Id)
    requires Inv(db) && Fresh(db, id) && Resolve(db, req, now, id).1.Ok?
    ensures
      var (db', r) := Resolve(db, req, now, id);
      && OnlyAccount(db.users, db'.users, r.value.userId, now) && r.value.idp == TripleOf(req).providerId
      && (r.value.binding.Existing? ==>
            && db'.users[r.value.userId] == db.users[r.value.userId].(lastLoginAt := now)
            && db'.invitations == db.invitations && |db'.identities| == |db.identities|)
  {
    hide Trim, NormalizeEmail, MayBind, Inv, Fresh, EmailTaken, TripleTaken;
  }

  /** What accepting an invitation writes: to the account the verified email and the name, to
      the identity the triple, and to the invitation the identity. */
  lemma AcceptanceWritesTheAccount(db: Db, req: Request, now: int, id: Id) returns (k: nat)
    requires Inv(db) && Fresh(db, id) && Resolve(db, req, now, id).1.Ok?
    requires Resolve(db, req, now, id).1.value.binding.BoundInvitation?
    ensures
      var (db', r) := Resolve(db, req, now, id);
      var user := db'.users[r.value.userId];
      && k < |db.invitations| == |db'.invitations|
      && var v := db.invitations[k];
      && v.id == r.value.binding.invitationId && v.userId == r.value.userId && v.accepted.None?
      && db'.invitations == db.invitations[k := v.(accepted := Some(id))] && r.value.identityId == id
      && r.value.userId in db'.users
      && user.email == Trim(req.email) && user.emailNormalized == NormalizeEmail(req.email) == v.emailNormalized
      && user.displayName == (if req.displayName == "" then v.email else req.displayName)
      && db'.identities
           == db.identities + [Identity(id, v.userId, Triple(Trim(req.providerId), Trim(req.issuer), Trim(req.subject)),
                                        Trim(req.email), true, now)]
  {
    hide AsciiLower, Trim, MayBind, Inv, Fresh, EmailTaken, TripleTaken;
    TrimIdempotent(req.email);
    k := FindInvitation(db.invitations, TripleOf(req), NormalizeEmail(req.email), now).value;
  }

  /** Only disabling it takes an account out of use. */
  lemma {:induction false} ActiveUntilDisabled(db: Db, actions: seq<Action>, user: Id)
    requires Inv(db) && user in db.users && db.users[user].status == Active
    requires forall a :: a in actions ==> a != DoDisable(user)
    ensures user in Run(db, actions).users && Run(db, actions).users[user].status == Active
  {
    if actions != [] {
      var earlier, a := actions[..|actions| - 1], actions[|actions| - 1];
      assert forall x :: x in earlier ==> x in actions;
      ActiveUntilDisabled(db, earlier, user);
      RunExtends(db, earlier);
      assert a in actions;
      hide Run, Inv;
      assert Run(db, actions) == Apply(Run(db, earlier), a) by { RunLast(db, actions); }
      StaysActive(Run(db, earlier), a, user);
    }
  }

  lemma RunLast(db: Db, actions: seq<Action>)
    requires actions != []
    ensures Run(db, actions) == Apply(Run(db, actions[..|actions| - 1]), actions[|actions| - 1])
  {
  }

  lemma StaysActive(db: Db, a: Action, user: Id)
    requires Inv(db) && user in db.users && db.users[user].status == Active && a != DoDisable(user)
    ensures user in Apply(db, a).users && Apply(db, a).users[user].status == Active
  {
    hide Resolve, AddUser, AddInvitation, Inv;
    match a
    case DoLogin(req, now, id) => if Fresh(db, id) { LoginKeepsActive(db, req, now, id, user); }
    case DoAddUser(email, name, id) => if Fresh(db, id) { AddUserIsExact(db, email, name, id); }
    case DoAddInvitation(provider, issuer, email, name, policy, expiresAt, userId, id) =>
      if Fresh(db, id) && Fresh(db, userId) {
        InvitationIsExact(db, provider, issuer, email, name, policy, expiresAt, userId, id);
      }
    case _ =>
  }

  lemma LoginKeepsActive(db: Db, req: Request, now: int, id: Id, user: Id)
    requires Inv(db) && Fresh(db, id) && user in db.users && db.users[user].status == Active
    ensures user in Resolve(db, req, now, id).0.users && Resolve(db, req, now, id).0.users[user].status == Active
  {
    FailedLoginChangesNothing(db, req, now, id);
    hide Resolve, Inv, Fresh;
    if Resolve(db, req, now, id).1.Ok? { LoginLeavesAccountActive(db, req, now, id); }
  }

  lemma FailedLoginChangesNothing(db: Db, req: Request, now: int, id: Id)
    ensures Resolve(db, req, now, id).1.Err? ==> Resolve(db, req, now, id).0 == db
  {
    hide Trim, NormalizeEmail, MayBind, EmailTaken, TripleTaken;
  }

  /** After a successful login every later login of its triple succeeds for the same account and
      identity, whatever happens in between, until the account is disabled. */
  lemma LoginsSucceedUntilDisabled(db: Db, req: Request, now: int, id: Id, actions: seq<Action>, again: Request,
                                   later: int, nextId: Id)
    requires Inv(db) && Fresh(db, id) && Resolve(db, req, now, id).1.Ok? && TripleOf(again) == TripleOf(req)
    requires forall a :: a in actions ==> a != DoDisable(Resolve(db, req, now, id).1.value.userId)
    ensures
      var (db', r) := Resolve(db, req, now, id);
      Resolve(Run(db', actions), again, later, nextId).1
        == Ok(Login(r.value.userId, TripleOf(req).providerId, r.value.identityId, Existing))
  {
    var (db', r) := Resolve(db, req, now, id);
    ResolveKeeps(db, req, now, id);
    LoginLeavesAccountActive(db, req, now, id);
    LoginBindsItsTriple(db, req, now, id);
    SuccessNeedsATriple(db, req, now, id);
    ActiveUntilDisabled(db', actions, r.value.userId);
    hide Resolve, Run, Inv, Fresh, TripleOf;
    var k: nat :| k < |db'.identities| && db'.identities[k].triple == TripleOf(req)
                  && db'.identities[k].userId == r.value.userId && db'.identities[k].id == r.value.identityId;
    BoundLoginIsStable(db', k, actions, again, later, nextId);
  }

  lemma SuccessNeedsATriple(db: Db, req: Request, now: int, id: Id)
    requires Resolve(db, req, now, id).1.Ok?
    ensures TripleOf(req).providerId != "" && TripleOf(req).issuer != "" && TripleOf(req).subject != ""
  {
  }

  // ---- who is admitted ------------------------------------------------------------------------------

  /** The domain of a normalized email is an allowed one, letters of either case alike. */
  ghost predicate HasDomain(email: string, domain: string, allowed: seq<string>) {
    && domain != "" && '@' !in domain && (exists local: string :: email == local + "@" + domain)
    && exists a :: a in allowed && AsciiLower(Trim(a)) == AsciiLower(domain)
  }

  lemma DomainTestIsExact(email: string, allowed: seq<string>)
    ensures EmailDomainAllowed(email, allowed) <==>
              allowed == [] || exists domain: string :: HasDomain(NormalizeEmail(email), domain, allowed)
  {
    hide AsciiLower, Trim, NormalizeEmail, HasDomain;
    var e := NormalizeEmail(email);
    if EmailDomainAllowed(email, allowed) && allowed != [] {
      var i :| 0 <= i < |allowed| && AsciiLower(Trim(allowed[i])) == AsciiLower(AfterLast(e, '@').value);
      LastIsDomain(e, allowed, i);
    }
    if domain: string :| HasDomain(e, domain, allowed) {
      DomainIsLast(e, domain, allowed);
    }
  }

  lemma LastIsDomain(e: string, allowed: seq<string>, i: nat)
    requires AfterLast(e, '@').Some? && AfterLast(e, '@').value != ""
    requires i < |allowed| && AsciiLower(Trim(allowed[i])) == AsciiLower(AfterLast(e, '@').value)
    ensures HasDomain(e, AfterLast(e, '@').value, allowed)
  {
    hide AsciiLower, Trim;
    var domain := AfterLast(e, '@').value;
    assert e == e[..|e| - |domain| - 1] + "@" + domain;
    assert allowed[i] in allowed;
  }

  lemma DomainIsLast(e: string, domain: string, allowed: seq<string>)
    requires HasDomain(e, domain, allowed)
    ensures AfterLast(e, '@') == Some(domain) && domain != ""
    ensures exists i :: 0 <= i < |allowed| && AsciiLower(Trim(allowed[i])) == AsciiLower(domain)
  {
    hide AsciiLower, Trim;
    var local: string :| e == local + "@" + domain;
    assert e[|local|] == '@';
    LastIsUnique(local, domain, AfterLast(e, '@').value);
  }

  lemma LastIsUnique(local: string, domain: string, found: string)
    requires '@' !in domain && '@' !in found && |found| <= |local| + |domain|
    requires
      var e := local + "@" + domain;
      e[|e| - |found|..] == found && e[|e| - |found| - 1] == '@'
    ensures found == domain
  {
    var e := local + "@" + domain;
    assert e[|local|] == '@';
    forall j | |local| < j < |e| ensures e[j] != '@' {
      assert e[j] == domain[j - |local| - 1];
    }
    forall j | |e| - |found| <= j < |e| ensures e[j] != '@' {
      assert e[j] == found[j - (|e| - |found|)];
    }
    assert |e| - |found| - 1 == |local|;
  }

  /** A pending, unexpired invitation for the email at the provider of the request, which no
      account but the invited one holds. */
  ghost predicate Admits(db: Db, v: Invitation, req: Request, email: string, now: int) {
    && v.providerId == Trim(req.providerId) && v.issuer == Trim(req.issuer) && v.emailNormalized == email
    && v.bindingPolicy == VERIFIED_EMAIL_INVITATION && v.accepted.None? && (v.expiresAt == 0 || now < v.expiresAt)
    && !HeldByAnother(db.users, email, v.userId)
  }

  /** An unbound triple is admitted exactly when a verified, nonblank email of an allowed domain
      meets a pending, unexpired invitation for it at the provider, under a policy of binding by
      verified email on both sides, and no other account holds that email. */
  lemma UnboundLoginNeedsInvitation(db: Db, req: Request, now: int, id: Id)
    requires Inv(db) && forall i :: 0 <= i < |db.identities| ==> db.identities[i].triple != TripleOf(req)
    requires Trim(req.providerId) != "" && Trim(req.issuer) != "" && Trim(req.subject) != ""
    ensures
      var email := AsciiLower(Trim(req.email));
      Resolve(db, req, now, id).1.Ok? <==>
        && req.emailVerified && email != "" && Trim(req.emailBinding) == VERIFIED_EMAIL_INVITATION
        && (req.allowedDomains == [] || exists domain: string :: HasDomain(email, domain, req.allowedDomains))
        && exists k: nat :: k < |db.invitations| && Admits(db, db.invitations[k], req, email, now)
  {
    var email := NormalizeEmail(req.email);
    NormalizedTwice(req.email);
    DomainTestIsExact(email, req.allowedDomains);
    var found := FindInvitation(db.invitations, TripleOf(req), email, now);
    assert FindIdentity(db.identities, TripleOf(req)).None?;
    hide Trim, AsciiLower, HasDomain, EmailDomainAllowed, BindInvitation, HeldByAnother;
    if found.Some? && Trim(req.email) != "" {
      BindingNeedsItsEmail(db, req, found.value, now, id);
      assert Resolve(db, req, now, id).1.Ok? <==> MayBind(req) && BindInvitation(db, req, found.value, now, id).1.Ok?;
      assert Admits(db, db.invitations[found.value], req, email, now)
        <==> !HeldByAnother(db.users, email, db.invitations[found.value].userId);
    }
    forall k: nat | k < |db.invitations| && Admits(db, db.invitations[k], req, email, now) ensures found == Some(k) {
      assert InvitationMatches(db.invitations[k], TripleOf(req), email, now);
      PendingIsUnique(db, found.value, k);
    }
  }

  lemma BindingNeedsItsEmail(db: Db, req: Request, k: nat, now: int, id: Id)
    requires Inv(db) && k < |db.invitations| && Trim(req.email) != ""
    requires forall i :: 0 <= i < |db.identities| ==> db.identities[i].triple != TripleOf(req)
    ensures BindInvitation(db, req, k, now, id).1.Ok?
       <==> !HeldByAnother(db.users, NormalizeEmail(req.email), db.invitations[k].userId)
  {
    TrimIdempotent(req.email);
    NormalizedTwice(req.email);
    assert db.invitations[k].userId in db.users;
    hide Trim, AsciiLower, Inv;
  }

  lemma NormalizedTwice(email: string)
    ensures NormalizeEmail(NormalizeEmail(email)) == NormalizeEmail(email)
    ensures NormalizeEmail(email) == "" <==> Trim(email) == ""
  {
    var t := Trim(email);
    TrimIdempotent(email);
    TrimmedExactly(t);
    TrimmedExactly(AsciiLower(t));
    hide Trim;
    var once, twice := AsciiLower(t), AsciiLower(AsciiLower(t));
    assert forall i :: 0 <= i < |t| ==> twice[i] == once[i];
    assert once == twice;
  }

  /** A login that an invitation was made for: the same provider, issuer and email, verified, from
      an allowed domain, and not yet bound to an account. */
  ghost predicate Answers(db: Db, req: Request, v: Invitation, now: int) {
    var email := AsciiLower(Trim(req.email));
    && (forall i :: 0 <= i < |db.identities| ==> db.identities[i].triple != TripleOf(req))
    && Trim(req.subject) != "" && Trim(req.providerId) == v.providerId && Trim(req.issuer) == v.issuer
    && req.emailVerified && email == v.emailNormalized && Trim(req.emailBinding) == VERIFIED_EMAIL_INVITATION
    && (req.allowedDomains == [] || exists domain: string :: HasDomain(email, domain, req.allowedDomains))
    && (v.expiresAt == 0 || now < v.expiresAt)
  }

  /** Inviting and then logging in binds the login to the invited account, as long as the
      invitation is for binding by verified email. */
  lemma InvitedLoginBinds(db: Db, provider: string, issuer: string, email: string, name: string, policy: string,
                          expiresAt: int, userId: Id, invitationId: Id, req: Request, now: int, id: Id)
    requires Inv(db) && Fresh(db, invitationId) && Fresh(db, userId)
    requires AddInvitation(db, provider, issuer, email, name, policy, expiresAt, userId, invitationId).1.Ok?
    requires Trim(policy) in {"", VERIFIED_EMAIL_INVITATION}
    ensures
      var invited := AddInvitation(db, provider, issuer, email, name, policy, expiresAt, userId, invitationId).0;
      Answers(invited, req, invited.invitations[|db.invitations|], now) && Fresh(invited, id) ==>
        Resolve(invited, req, now, id).1
          == Ok(Login(userId, Trim(provider), id, BoundInvitation(invitationId)))
  {
    var invited := AddInvitation(db, provider, issuer, email, name, policy, expiresAt, userId, invitationId).0;
    InvitationIsExact(db, provider, issuer, email, name, policy, expiresAt, userId, invitationId);
    AddInvitationKeeps(db, provider, issuer, email, name, policy, expiresAt, userId, invitationId);
    ValidationIsExact(email);
    var k := |db.invitations|;
    hide AddInvitation, Inv, HasDomain, Trim, AsciiLower, PlainEmail;
    if Answers(invited, req, invited.invitations[k], now) && Fresh(invited, id) {
      UnboundLoginNeedsInvitation(invited, req, now, id);
      assert Admits(invited, invited.invitations[k], req, AsciiLower(Trim(req.email)), now);
      TheOneAdmitted(invited, req, k, now, id);
    }
  }

  lemma TheOneAdmitted(db: Db, req: Request, k: nat, now: int, id: Id)
    requires Inv(db) && Fresh(db, id) && k < |db.invitations| && Resolve(db, req, now, id).1.Ok?
    requires forall i :: 0 <= i < |db.identities| ==> db.identities[i].triple != TripleOf(req)
    requires Admits(db, db.invitations[k], req, NormalizeEmail(req.email), now)
    ensures Resolve(db, req, now, id).1
         == Ok(Login(db.invitations[k].userId, Trim(req.providerId), id, BoundInvitation(db.invitations[k].id)))
  {
    var found := FindInvitation(db.invitations, TripleOf(req), NormalizeEmail(req.email), now);
    assert FindIdentity(db.identities, TripleOf(req)).None?;
    assert InvitationMatches(db.invitations[k], TripleOf(req), NormalizeEmail(req.email), now);
    PendingIsUnique(db, found.value, k);
    hide Trim, AsciiLower, Inv, HeldByAnother;
  }

  lemma PendingIsUnique(db: Db, j: nat, k: nat)
    requires Inv(db) && j < |db.invitations| && k < |db.invitations|
    requires db.invitations[j].accepted.None? && db.invitations[k].accepted.None?
    requires db.invitations[j].providerId == db.invitations[k].providerId
    requires db.invitations[j].issuer == db.invitations[k].issuer
    requires db.invitations[j].emailNormalized == db.invitations[k].emailNormalized
    ensures j == k
  {
    hide RowsOk;
  }
}
