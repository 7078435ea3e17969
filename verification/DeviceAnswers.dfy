/** What the callers of the device flow are told, in every interleaving: each answer goes back
    to what its own call was given, read and did. */
module DeviceAnswers {
  import opened Text
  import opened CoreModel
  import opened History
  import opened DeviceStore
  import opened DeviceFlow
  import DeviceNames

  // ---- where a call has been ----------------------------------------------------------------------

  /** The k-th action was a step of the caller, taken from this point of its call in this world. */
  ghost predicate StoodAt(w: World, actions: seq<Action>, k: nat, c: nat, pc: Pc, u: World) {
    && k < |actions| && actions[k].Advance? && actions[k].caller == c
    && u == Run(w, actions[..k]) && c in u.callers && u.callers[c] == pc
  }

  ghost predicate WasAt(w: World, actions: seq<Action>, c: nat, pc: Pc, u: World) {
    exists k: nat :: StoodAt(w, actions, k, c, pc, u)
  }

  predicate Registered(devices: map<Id, Device>, index: map<string, Id>, code: string, d: Device) {
    HashCode(code) in index && index[HashCode(code)] in devices && devices[index[HashCode(code)]] == d
  }

  predicate Unregistered(devices: map<Id, Device>, index: map<string, Id>, code: string) {
    HashCode(code) in index ==> index[HashCode(code)] !in devices
  }

  predicate RefersTo(repos: map<Id, Repo>, id: Id, repo: RepoRef) {
    id in repos && repos[id].active && repo == RepoRef(id, repos[id].resourceId)
  }

  // ---- approving ------------------------------------------------------------------------------------

  /** The call presented a user code, for its purpose, and read the device of the code. */
  ghost predicate ReadByUser(w: World, acts: seq<Action>, c: nat, p: Purpose, code: string, d: Device) {
    exists u :: WasAt(w, acts, c, UserRead(p, code), u) && Registered(u.store.devices, u.store.byUserCode, code, d)
  }

  /** The device was pending, and the clock, read next, was before its expiry. */
  ghost predicate PendingInTime(w: World, acts: seq<Action>, c: nat, p: Purpose, code: string, d: Device) {
    && ReadByUser(w, acts, c, p, code, d) && d.status == Pending
    && exists u :: WasAt(w, acts, c, UserPending(p, d), u) && u.now < d.expiresAt
  }

  ghost predicate PendingTooLate(w: World, acts: seq<Action>, c: nat, p: Purpose, code: string, d: Device) {
    && ReadByUser(w, acts, c, p, code, d) && d.status == Pending
    && exists u :: WasAt(w, acts, c, UserPending(p, d), u) && d.expiresAt <= u.now
  }

  /** The repository of the device was active. */
  ghost predicate Located(w: World, acts: seq<Action>, c: nat, p: Purpose, d: Device, repo: RepoRef) {
    exists u :: WasAt(w, acts, c, UserRepository(p, d), u) && RefersTo(u.repos, d.repositoryId, repo)
  }

  /** The user of the call had write access to it. */
  ghost predicate Permitted(w: World, acts: seq<Action>, c: nat, user: Id, code: string, d: Device, repo: RepoRef) {
    && PendingInTime(w, acts, c, ApproveBy(user), code, d) && Located(w, acts, c, ApproveBy(user), d, repo)
    && exists u :: WasAt(w, acts, c, ApproveAccess(user, d, repo), u) && (user, repo.resourceId) in u.writers
  }

  /** And the account of the user was active. */
  ghost predicate Approving(w: World, acts: seq<Action>, c: nat, user: Id, code: string, d: Device, repo: RepoRef) {
    && Permitted(w, acts, c, user, code, d, repo)
    && exists u :: WasAt(w, acts, c, ApprovePrincipal(user, d, repo), u) && IsActive(u.accounts, user)
  }

  // ---- polling ----------------------------------------------------------------------------------------

  /** The call presented a device code and read the device of the code. */
  ghost predicate ReadByDevice(w: World, acts: seq<Action>, c: nat, code: string, d: Device) {
    exists u :: WasAt(w, acts, c, TokenRead(code), u) && Registered(u.store.devices, u.store.byDeviceCode, code, d)
  }

  /** It then read the clock. */
  ghost predicate Polled(w: World, acts: seq<Action>, c: nat, code: string, d: Device, now: int) {
    && ReadByDevice(w, acts, c, code, d)
    && exists u :: WasAt(w, acts, c, TokenClock(code, d), u) && u.now == now
  }

  /** What a poll is told of a device that has no token for it. */
  predicate PollAnswer(d: Device, now: int, status: string) {
    match d.status
    case Pending => status == if d.expiresAt <= now then "expired_token" else "authorization_pending"
    case Consumed => status == "consumed"
    case Expired => status == "expired"
    case Approved => false
  }

  ghost predicate Redeemable(w: World, acts: seq<Action>, c: nat, code: string, d: Device) {
    && ReadByDevice(w, acts, c, code, d)
    && d.status == Approved && d.approvedUserId != "" && d.repositoryId != ""
  }

  /** The repository of the device was active, under this name. */
  ghost predicate NamedBy(w: World, acts: seq<Action>, c: nat, code: string, d: Device, name: string) {
    && Redeemable(w, acts, c, code, d)
    && exists u :: WasAt(w, acts, c, TokenRepository(code, d), u) && d.repositoryId in u.repos
                   && u.repos[d.repositoryId].active && u.repos[d.repositoryId].name == name
  }

  /** The account that approved was active when the token was minted. */
  ghost predicate Vouched(w: World, acts: seq<Action>, c: nat, code: string, d: Device, name: string) {
    && NamedBy(w, acts, c, code, d, name)
    && exists u :: WasAt(w, acts, c, MintPrincipal(code, d, name), u) && IsActive(u.accounts, d.approvedUserId)
  }

  /** The repository of the token was active under that name. */
  ghost predicate Minting(w: World, acts: seq<Action>, c: nat, code: string, d: Device, repo: RepoRef) {
    exists name: string, u ::
      && WasAt(w, acts, c, MintByName(code, d, name), u) && Vouched(w, acts, c, code, d, name)
      && RefersTo(u.repos, repo.id, repo) && u.repos[repo.id].name == name
  }

  /** The account had write access to it. */
  ghost predicate Writable(w: World, acts: seq<Action>, c: nat, code: string, d: Device, repo: RepoRef) {
    && Minting(w, acts, c, code, d, repo)
    && exists u :: WasAt(w, acts, c, MintAccess(code, d, repo), u) && (d.approvedUserId, repo.resourceId) in u.writers
  }

  ghost predicate IsResource(repos: map<Id, Repo>, resourceId: string) {
    exists id :: id in repos && repos[id].active && repos[id].resourceId == resourceId
  }

  /** Its resource was still that of an active repository. */
  ghost predicate Exchanging(w: World, acts: seq<Action>, c: nat, code: string, d: Device, repo: RepoRef) {
    && Writable(w, acts, c, code, d, repo)
    && exists u :: WasAt(w, acts, c, ExchangeResource(code, d, repo), u) && IsResource(u.repos, repo.resourceId)
  }

  /** And the account still had write access to it. */
  ghost predicate Issuing(w: World, acts: seq<Action>, c: nat, code: string, d: Device, repo: RepoRef) {
    && Exchanging(w, acts, c, code, d, repo)
    && exists u ::
         WasAt(w, acts, c, ExchangeAccess(code, d, repo), u) && (d.approvedUserId, repo.resourceId) in u.writers
  }

  // ---- starting -----------------------------------------------------------------------------------------

  /** The call named an active repository. */
  ghost predicate Starting(w: World, acts: seq<Action>, c: nat, repositoryId: Id, deviceCode: string, userCode: string)
  {
    exists name: string, u ::
      && WasAt(w, acts, c, StartRepository(name, deviceCode, userCode), u)
      && repositoryId in u.repos && u.repos[repositoryId].active && u.repos[repositoryId].name == name
  }

  /** The device then created was to expire at this time. */
  ghost predicate Creating(w: World, acts: seq<Action>, c: nat, repositoryId: Id, deviceCode: string, userCode: string,
                           expiresAt: int) {
    && Starting(w, acts, c, repositoryId, deviceCode, userCode)
    && exists k: nat, u ::
         && StoodAt(w, acts, k, c, StartCreate(repositoryId, deviceCode, userCode), u)
         && expiresAt == u.now + acts[k].ttl
  }

  /** Both codes, which are not blank, lead to one device, started for the repository. */
  ghost predicate StartedUnder(end: World, repositoryId: Id, deviceCode: string, userCode: string, expiresAt: int) {
    && Trim(deviceCode) != "" && Trim(userCode) != ""
    && HashCode(deviceCode) in end.store.byDeviceCode && HashCode(userCode) in end.store.byUserCode
    && end.store.byDeviceCode[HashCode(deviceCode)] == end.store.byUserCode[HashCode(userCode)]
    && DeviceStarted(end.store.byDeviceCode[HashCode(deviceCode)], repositoryId, expiresAt) in end.log
  }

  // ---- why a caller stands where it stands -----------------------------------------------------------------

  ghost predicate NotPending(end: World, id: Id) {
    id in end.store.devices && end.store.devices[id].status != Pending
  }

  /** What must have happened in the call before an answer. */
  ghost predicate Earned(w: World, acts: seq<Action>, end: World, c: nat, o: Outcome) {
    match o
    case TokenIssued(user, repo) =>
      exists code: string, d ::
        && Issuing(w, acts, c, code, d, repo) && d.approvedUserId == user
        && OkReturned(c, code, d.id, user, repo) in end.log
    case ApprovalOk =>
      exists user: Id, code: string, d, repo, at: int ::
        Approving(w, acts, c, user, code, d, repo) && DeviceApproved(c, d.id, d.repositoryId, user, at) in end.log
    case TokenStatus(status) =>
      exists code: string, d, now: int ::
        && Polled(w, acts, c, code, d, now) && PollAnswer(d, now, status)
        && (status == "expired_token" ==> NotPending(end, d.id))
    case Previewed =>
      exists code: string, d, repo ::
        PendingInTime(w, acts, c, Preview, code, d) && Located(w, acts, c, Preview, d, repo)
    case Started =>
      exists repositoryId: Id, deviceCode: string, userCode: string, expiresAt: int ::
        && Creating(w, acts, c, repositoryId, deviceCode, userCode, expiresAt)
        && StartedUnder(end, repositoryId, deviceCode, userCode, expiresAt)
    case Failed(e) =>
      && (e == DeviceAuthorizationNotPending ==>
            exists p, code: string, d :: ReadByUser(w, acts, c, p, code, d) && d.status != Pending)
      && (e == DeviceExpiredCode ==>
            exists p, code: string, d :: PendingTooLate(w, acts, c, p, code, d) && NotPending(end, d.id))
      && (e == DeviceInvalidCode ==> UnknownCode(w, acts, c))
  }

  /** The code that the call presented led to no device. */
  ghost predicate UnknownCode(w: World, acts: seq<Action>, c: nat) {
    || (exists p, code: string, u ::
          WasAt(w, acts, c, UserRead(p, code), u) && Unregistered(u.store.devices, u.store.byUserCode, code))
    || (exists code: string, u ::
          WasAt(w, acts, c, TokenRead(code), u) && Unregistered(u.store.devices, u.store.byDeviceCode, code))
  }

  ghost predicate Story(w: World, acts: seq<Action>, end: World, c: nat, pc: Pc) {
    match pc
    case StartCreate(id, deviceCode, userCode) => Starting(w, acts, c, id, deviceCode, userCode)
    case UserPending(p, d) => exists code: string :: ReadByUser(w, acts, c, p, code, d)
    case UserExpire(d) => exists p, code: string :: PendingTooLate(w, acts, c, p, code, d)
    case UserRepository(p, d) => exists code: string :: PendingInTime(w, acts, c, p, code, d)
    case ApproveAccess(user, d, repo) =>
      && Located(w, acts, c, ApproveBy(user), d, repo)
      && exists code: string :: PendingInTime(w, acts, c, ApproveBy(user), code, d)
    case ApprovePrincipal(user, d, repo) => exists code: string :: Permitted(w, acts, c, user, code, d, repo)
    case ApproveWrite(user, d, repo) => exists code: string :: Approving(w, acts, c, user, code, d, repo)
    case TokenClock(code, d) => ReadByDevice(w, acts, c, code, d)
    case TokenExpire(d) =>
      exists code: string, now: int :: Polled(w, acts, c, code, d, now) && PollAnswer(d, now, "expired_token")
    case TokenRepository(code, d) => Redeemable(w, acts, c, code, d)
    case MintPrincipal(code, d, name) => NamedBy(w, acts, c, code, d, name)
    case MintByName(code, d, name) => Vouched(w, acts, c, code, d, name)
    case MintAccess(code, d, repo) => Minting(w, acts, c, code, d, repo)
    case ExchangeResource(code, d, repo) => Writable(w, acts, c, code, d, repo)
    case ExchangeAccess(code, d, repo) => Exchanging(w, acts, c, code, d, repo)
    case TokenConsume(code, d, repo) => Issuing(w, acts, c, code, d, repo)
    case Done(o) => Earned(w, acts, end, c, o)
    case _ => true
  }

  // ---- what has happened stays so --------------------------------------------------------------------------

  lemma WasAtStays(w: World, acts: seq<Action>, a: Action, c: nat)
    ensures forall pc, u :: WasAt(w, acts, c, pc, u) ==> WasAt(w, acts + [a], c, pc, u)
  {
    hide Run;
    forall pc, u | WasAt(w, acts, c, pc, u) ensures WasAt(w, acts + [a], c, pc, u) {
      var k: nat :| StoodAt(w, acts, k, c, pc, u);
      assert (acts + [a])[..k] == acts[..k];
      assert StoodAt(w, acts + [a], k, c, pc, u);
    }
  }

  lemma ApprovalPartsStay(w: World, acts: seq<Action>, a: Action, c: nat)
    ensures forall p, code, d :: ReadByUser(w, acts, c, p, code, d) ==> ReadByUser(w, acts + [a], c, p, code, d)
    ensures forall p, code, d :: PendingInTime(w, acts, c, p, code, d) ==> PendingInTime(w, acts + [a], c, p, code, d)
    ensures forall p, code, d :: PendingTooLate(w, acts, c, p, code, d) ==> PendingTooLate(w, acts + [a], c, p, code, d)
    ensures forall p, d, repo :: Located(w, acts, c, p, d, repo) ==> Located(w, acts + [a], c, p, d, repo)
    ensures forall user, code, d, repo :: Permitted(w, acts, c, user, code, d, repo) ==>
              Permitted(w, acts + [a], c, user, code, d, repo)
    ensures forall user, code, d, repo :: Approving(w, acts, c, user, code, d, repo) ==>
              Approving(w, acts + [a], c, user, code, d, repo)
  {
    WasAtStays(w, acts, a, c);
    hide WasAt, Registered;
  }

  lemma PollPartsStay(w: World, acts: seq<Action>, a: Action, c: nat)
    ensures forall code, d :: ReadByDevice(w, acts, c, code, d) ==> ReadByDevice(w, acts + [a], c, code, d)
    ensures forall code, d, now :: Polled(w, acts, c, code, d, now) ==> Polled(w, acts + [a], c, code, d, now)
    ensures forall code, d :: Redeemable(w, acts, c, code, d) ==> Redeemable(w, acts + [a], c, code, d)
  {
    WasAtStays(w, acts, a, c);
    hide WasAt, Registered;
  }

  lemma NamePartsStay(w: World, acts: seq<Action>, a: Action, c: nat)
    ensures forall code, d, name :: NamedBy(w, acts, c, code, d, name) ==> NamedBy(w, acts + [a], c, code, d, name)
    ensures forall code, d, name :: Vouched(w, acts, c, code, d, name) ==> Vouched(w, acts + [a], c, code, d, name)
  {
    WasAtStays(w, acts, a, c);
    PollPartsStay(w, acts, a, c);
    hide WasAt, Redeemable;
  }

  lemma MintPartsStay(w: World, acts: seq<Action>, a: Action, c: nat)
    ensures forall code, d, repo :: Minting(w, acts, c, code, d, repo) ==> Minting(w, acts + [a], c, code, d, repo)
    ensures forall code, d, repo :: Writable(w, acts, c, code, d, repo) ==> Writable(w, acts + [a], c, code, d, repo)
    ensures forall code, d, repo ::
              Exchanging(w, acts, c, code, d, repo) ==> Exchanging(w, acts + [a], c, code, d, repo)
    ensures forall code, d, repo :: Issuing(w, acts, c, code, d, repo) ==> Issuing(w, acts + [a], c, code, d, repo)
  {
    WasAtStays(w, acts, a, c);
    NamePartsStay(w, acts, a, c);
    hide WasAt, NamedBy, Vouched, IsResource;
    forall code, d, repo | Minting(w, acts, c, code, d, repo) ensures Minting(w, acts + [a], c, code, d, repo) {
      var name: string, u :|
        && WasAt(w, acts, c, MintByName(code, d, name), u) && Vouched(w, acts, c, code, d, name)
        && RefersTo(u.repos, repo.id, repo) && u.repos[repo.id].name == name;
      assert WasAt(w, acts + [a], c, MintByName(code, d, name), u);
    }
    hide Minting;
  }

  /** The history and the indices only grow, and no device is pending again. */
  ghost predicate Grows(before: World, after: World) {
    && before.log <= after.log
    && (forall h :: h in before.store.byDeviceCode ==>
          h in after.store.byDeviceCode && after.store.byDeviceCode[h] == before.store.byDeviceCode[h])
    && (forall h :: h in before.store.byUserCode ==>
          h in after.store.byUserCode && after.store.byUserCode[h] == before.store.byUserCode[h])
    && forall id :: NotPending(before, id) ==> NotPending(after, id)
  }

  lemma InGrown(before: World, after: World)
    requires Grows(before, after)
    ensures forall e :: e in before.log ==> e in after.log
  {
    hide NotPending;
    forall e | e in before.log ensures e in after.log { InPrefix(before.log, after.log, e); }
  }

  lemma StartingStays(w: World, acts: seq<Action>, a: Action, c: nat)
    ensures forall id, deviceCode, userCode :: Starting(w, acts, c, id, deviceCode, userCode) ==>
              Starting(w, acts + [a], c, id, deviceCode, userCode)
    ensures UnknownCode(w, acts, c) ==> UnknownCode(w, acts + [a], c)
  {
    WasAtStays(w, acts, a, c);
    hide WasAt, Unregistered;
    forall id, deviceCode, userCode | Starting(w, acts, c, id, deviceCode, userCode)
      ensures Starting(w, acts + [a], c, id, deviceCode, userCode)
    {
      var name: string, u :|
        && WasAt(w, acts, c, StartRepository(name, deviceCode, userCode), u)
        && id in u.repos && u.repos[id].active && u.repos[id].name == name;
      assert WasAt(w, acts + [a], c, StartRepository(name, deviceCode, userCode), u);
    }
    if p, code: string, u :|
      WasAt(w, acts, c, UserRead(p, code), u) && Unregistered(u.store.devices, u.store.byUserCode, code)
    {
      assert WasAt(w, acts + [a], c, UserRead(p, code), u);
    }
    if code: string, u :|
      WasAt(w, acts, c, TokenRead(code), u) && Unregistered(u.store.devices, u.store.byDeviceCode, code)
    {
      assert WasAt(w, acts + [a], c, TokenRead(code), u);
    }
  }

  lemma CreatingStays(w: World, acts: seq<Action>, a: Action, c: nat)
    ensures forall id, deviceCode, userCode, expiresAt :: Creating(w, acts, c, id, deviceCode, userCode, expiresAt) ==>
              Creating(w, acts + [a], c, id, deviceCode, userCode, expiresAt)
  {
    StartingStays(w, acts, a, c);
    hide Run, Starting;
    forall id, deviceCode, userCode, expiresAt | Creating(w, acts, c, id, deviceCode, userCode, expiresAt)
      ensures Creating(w, acts + [a], c, id, deviceCode, userCode, expiresAt)
    {
      var k: nat, u :|
        StoodAt(w, acts, k, c, StartCreate(id, deviceCode, userCode), u) && expiresAt == u.now + acts[k].ttl;
      assert (acts + [a])[..k] == acts[..k];
      assert StoodAt(w, acts + [a], k, c, StartCreate(id, deviceCode, userCode), u);
    }
  }

  lemma EarnedStays(w: World, acts: seq<Action>, a: Action, before: World, after: World, c: nat, o: Outcome)
    requires Earned(w, acts, before, c, o) && Grows(before, after)
    ensures Earned(w, acts + [a], after, c, o)
  {
    ApprovalPartsStay(w, acts, a, c);
    PollPartsStay(w, acts, a, c);
    MintPartsStay(w, acts, a, c);
    StartingStays(w, acts, a, c);
    CreatingStays(w, acts, a, c);
    InGrown(before, after);
    hide WasAt, HashCode, Trim, ReadByUser, PendingInTime, PendingTooLate, Located, Approving, Polled, Issuing,
         Creating, UnknownCode, NotPending;
  }

  lemma StoryStays(w: World, acts: seq<Action>, a: Action, before: World, after: World, c: nat, pc: Pc)
    requires Story(w, acts, before, c, pc) && Grows(before, after)
    ensures Story(w, acts + [a], after, c, pc)
  {
    ApprovalPartsStay(w, acts, a, c);
    PollPartsStay(w, acts, a, c);
    NamePartsStay(w, acts, a, c);
    MintPartsStay(w, acts, a, c);
    StartingStays(w, acts, a, c);
    hide ReadByUser, PendingInTime, PendingTooLate, Located, Permitted, Approving, ReadByDevice, Polled, Redeemable,
         NamedBy, Vouched, Minting, Writable, Exchanging, Issuing, Starting, Earned, PollAnswer, Grows;
    if pc.Done? { EarnedStays(w, acts, a, before, after, c, pc.outcome); }
  }

  // ---- one step -----------------------------------------------------------------------------------------------

  /** The caller stands where its story says, in this world. */
  ghost predicate Standing(w: World, acts: seq<Action>, u: World, c: nat) {
    && c in u.callers && WasAt(w, acts, c, u.callers[c], u) && Story(w, acts, u, c, u.callers[c])
    && DataOk(u.store, u.log) && PcOk(u.store, u.log, u.callers[c])
  }

  /** After the step its story goes on. */
  ghost predicate GoesOn(w: World, acts: seq<Action>, u: World, c: nat, id: Id, ttl: int)
    requires c in u.callers
  {
    c in Step(u, c, id, ttl).callers && Story(w, acts, Step(u, c, id, ttl), c, Step(u, c, id, ttl).callers[c])
  }

  lemma StartStory(w: World, acts: seq<Action>, u: World, c: nat, id: Id, ttl: int)
    requires Standing(w, acts, u, c) && u.callers[c].StartRepository?
    ensures GoesOn(w, acts, u, c, id, ttl)
  {
    hide WasAt, HashCode, DataOk, PcOk, FindByName;
    FoundIsNamed(u.repos, u.callers[c].name);
  }

  lemma FoundIsNamed(repos: map<Id, Repo>, name: string)
    ensures
      match FindByName(repos, name)
      case Some(id) => id in repos && repos[id].active && repos[id].name == name
      case None => forall id :: id in repos && repos[id].active ==> repos[id].name != name
  {
    assert forall id ::
        id in RepositoriesNamed(repos, name) <==> id in repos && repos[id].active && repos[id].name == name;
  }

  /** The step at hand, with its time to live. */
  ghost predicate Now(w: World, acts: seq<Action>, u: World, c: nat, ttl: int)
    requires c in u.callers
  {
    exists k: nat :: StoodAt(w, acts, k, c, u.callers[c], u) && acts[k].ttl == ttl
  }

  lemma CreateStory(w: World, acts: seq<Action>, u: World, c: nat, id: Id, ttl: int)
    requires Standing(w, acts, u, c) && u.callers[c].StartCreate? && Now(w, acts, u, c, ttl)
    ensures GoesOn(w, acts, u, c, id, ttl)
  {
    hide WasAt, HashCode, DataOk, PcOk, Trim, Starting;
    var StartCreate(repositoryId, deviceCode, userCode) := u.callers[c];
    var after := Step(u, c, id, ttl);
    if after.callers[c] == Done(Started) {
      assert after.log[|u.log|] == DeviceStarted(id, repositoryId, u.now + ttl);
      assert Creating(w, acts, c, repositoryId, deviceCode, userCode, u.now + ttl);
      assert StartedUnder(after, repositoryId, deviceCode, userCode, u.now + ttl);
    }
  }

  lemma ReadStory(w: World, acts: seq<Action>, u: World, c: nat, id: Id, ttl: int)
    requires Standing(w, acts, u, c) && (u.callers[c].UserRead? || u.callers[c].TokenRead?)
    ensures GoesOn(w, acts, u, c, id, ttl)
  {
    hide WasAt, HashCode, DataOk, PcOk;
    match u.callers[c]
    case UserRead(p, code) =>
      if Lookup(u.store, u.store.byUserCode, code).Ok? {
        assert ReadByUser(w, acts, c, p, code, Lookup(u.store, u.store.byUserCode, code).value);
      } else {
        assert Unregistered(u.store.devices, u.store.byUserCode, code);
      }
    case TokenRead(code) =>
      if Lookup(u.store, u.store.byDeviceCode, code).Err? {
        assert Unregistered(u.store.devices, u.store.byDeviceCode, code);
      }
  }

  lemma PendingStory(w: World, acts: seq<Action>, u: World, c: nat, id: Id, ttl: int)
    requires Standing(w, acts, u, c) && u.callers[c].UserPending?
    ensures GoesOn(w, acts, u, c, id, ttl)
  {
    hide WasAt, ReadByUser, DataOk, PcOk;
    var UserPending(p, d) := u.callers[c];
    var code: string :| ReadByUser(w, acts, c, p, code, d);
    if d.status == Pending {
      if d.expiresAt <= u.now {
        assert PendingTooLate(w, acts, c, p, code, d);
      } else {
        assert PendingInTime(w, acts, c, p, code, d);
      }
    }
  }

  lemma ExpiryStory(w: World, acts: seq<Action>, u: World, c: nat, id: Id, ttl: int)
    requires Standing(w, acts, u, c) && (u.callers[c].UserExpire? || u.callers[c].TokenExpire?)
    ensures GoesOn(w, acts, u, c, id, ttl)
  {
    hide WasAt, PendingTooLate, Polled, DataOk, PollAnswer;
    var d := u.callers[c].device;
    assert NotPending(Step(u, c, id, ttl), d.id);
    hide NotPending, PcOk;
  }

  lemma RepositoryStory(w: World, acts: seq<Action>, u: World, c: nat, id: Id, ttl: int)
    requires Standing(w, acts, u, c) && u.callers[c].UserRepository?
    ensures GoesOn(w, acts, u, c, id, ttl)
  {
    hide WasAt, PendingInTime, DataOk, PcOk;
    var UserRepository(p, d) := u.callers[c];
    var code: string :| PendingInTime(w, acts, c, p, code, d);
    if d.repositoryId in u.repos && u.repos[d.repositoryId].active {
      assert Located(w, acts, c, p, d, RepoRef(d.repositoryId, u.repos[d.repositoryId].resourceId));
    }
    hide Located;
  }

  lemma ApproveStory(w: World, acts: seq<Action>, u: World, c: nat, id: Id, ttl: int)
    requires Standing(w, acts, u, c)
    requires u.callers[c].ApproveAccess? || u.callers[c].ApprovePrincipal?
    ensures GoesOn(w, acts, u, c, id, ttl)
  {
    hide WasAt, PendingInTime, Located, DataOk, PcOk;
    match u.callers[c]
    case ApproveAccess(user, d, repo) =>
      var code: string :| PendingInTime(w, acts, c, ApproveBy(user), code, d);
      if (user, repo.resourceId) in u.writers {
        assert Permitted(w, acts, c, user, code, d, repo);
      }
      hide Permitted;
    case ApprovePrincipal(user, d, repo) =>
      var code: string :| Permitted(w, acts, c, user, code, d, repo);
      if IsActive(u.accounts, user) {
        assert Approving(w, acts, c, user, code, d, repo);
      }
      hide Permitted, Approving;
  }

  lemma ApprovedStory(w: World, acts: seq<Action>, u: World, c: nat, id: Id, ttl: int)
    requires Standing(w, acts, u, c) && u.callers[c].ApproveWrite?
    ensures GoesOn(w, acts, u, c, id, ttl)
  {
    hide WasAt, Approving, DataOk, PcOk;
    var ApproveWrite(user, d, repo) := u.callers[c];
    if Approve(u.store, d.id, user, u.now).1.Ok? {
      var e := DeviceApproved(c, d.id, d.repositoryId, user, u.now);
      assert e in u.log + [e];
    }
  }

  lemma ClockStory(w: World, acts: seq<Action>, u: World, c: nat, id: Id, ttl: int)
    requires Standing(w, acts, u, c) && u.callers[c].TokenClock?
    ensures GoesOn(w, acts, u, c, id, ttl)
  {
    hide WasAt, ReadByDevice, DataOk, PcOk;
    var TokenClock(code, d) := u.callers[c];
    assert Polled(w, acts, c, code, d, u.now);
    hide Polled;
  }

  lemma NameStory(w: World, acts: seq<Action>, u: World, c: nat, id: Id, ttl: int)
    requires Standing(w, acts, u, c) && (u.callers[c].TokenRepository? || u.callers[c].MintPrincipal?)
    ensures GoesOn(w, acts, u, c, id, ttl)
  {
    hide WasAt, Redeemable, DataOk, PcOk;
    match u.callers[c]
    case TokenRepository(code, d) =>
      if d.repositoryId in u.repos && u.repos[d.repositoryId].active {
        assert NamedBy(w, acts, c, code, d, u.repos[d.repositoryId].name);
      }
      hide NamedBy;
    case MintPrincipal(code, d, name) =>
      hide NamedBy;
      if IsActive(u.accounts, d.approvedUserId) { assert Vouched(w, acts, c, code, d, name); }
      hide Vouched;
  }

  lemma MintStory(w: World, acts: seq<Action>, u: World, c: nat, id: Id, ttl: int)
    requires Standing(w, acts, u, c) && (u.callers[c].MintByName? || u.callers[c].MintAccess?)
    ensures GoesOn(w, acts, u, c, id, ttl)
  {
    hide WasAt, Vouched, DataOk, PcOk, FindByName;
    match u.callers[c]
    case MintByName(code, d, name) =>
      FoundIsNamed(u.repos, name);
      if FindByName(u.repos, name).Some? {
        var other := FindByName(u.repos, name).value;
        assert Minting(w, acts, c, code, d, RepoRef(other, u.repos[other].resourceId));
      }
      hide Minting;
    case MintAccess(code, d, repo) =>
      hide Minting;
      if (d.approvedUserId, repo.resourceId) in u.writers { assert Writable(w, acts, c, code, d, repo); }
      hide Writable;
  }

  lemma ExchangeStory(w: World, acts: seq<Action>, u: World, c: nat, id: Id, ttl: int)
    requires Standing(w, acts, u, c) && (u.callers[c].ExchangeResource? || u.callers[c].ExchangeAccess?)
    ensures GoesOn(w, acts, u, c, id, ttl)
  {
    hide WasAt, Minting, DataOk, PcOk;
    match u.callers[c]
    case ExchangeResource(code, d, repo) =>
      hide Writable;
      if ResourceActive(u.repos, repo.resourceId) {
        assert IsResource(u.repos, repo.resourceId);
        assert Exchanging(w, acts, c, code, d, repo);
      }
      hide Exchanging, IsResource, ResourceActive;
    case ExchangeAccess(code, d, repo) =>
      hide Exchanging;
      if (d.approvedUserId, repo.resourceId) in u.writers { assert Issuing(w, acts, c, code, d, repo); }
      hide Issuing;
  }

  lemma IssueStory(w: World, acts: seq<Action>, u: World, c: nat, id: Id, ttl: int)
    requires Standing(w, acts, u, c) && u.callers[c].TokenConsume?
    ensures GoesOn(w, acts, u, c, id, ttl)
  {
    hide WasAt, Issuing, DataOk, PcOk;
    var TokenConsume(code, d, repo) := u.callers[c];
    if Consume(u.store, d.id, u.now).1.Ok? {
      var e := OkReturned(c, code, d.id, d.approvedUserId, repo);
      assert e in u.log + [e];
    }
  }

  lemma StepStory(w: World, acts: seq<Action>, u: World, c: nat, id: Id, ttl: int)
    requires Standing(w, acts, u, c) && Now(w, acts, u, c, ttl)
    ensures GoesOn(w, acts, u, c, id, ttl)
  {
    var pc := u.callers[c];
    if pc.Done? { return; }
    hide Standing, GoesOn, Now;
    if pc.StartRepository? { StartStory(w, acts, u, c, id, ttl); }
    else if pc.StartCreate? { CreateStory(w, acts, u, c, id, ttl); }
    else if pc.UserRead? || pc.TokenRead? { ReadStory(w, acts, u, c, id, ttl); }
    else if pc.UserPending? { PendingStory(w, acts, u, c, id, ttl); }
    else if pc.UserExpire? || pc.TokenExpire? { ExpiryStory(w, acts, u, c, id, ttl); }
    else if pc.UserRepository? { RepositoryStory(w, acts, u, c, id, ttl); }
    else if pc.ApproveWrite? { ApprovedStory(w, acts, u, c, id, ttl); }
    else if pc.ApproveAccess? || pc.ApprovePrincipal? { ApproveStory(w, acts, u, c, id, ttl); }
    else if pc.TokenClock? { ClockStory(w, acts, u, c, id, ttl); }
    else if pc.TokenRepository? || pc.MintPrincipal? { NameStory(w, acts, u, c, id, ttl); }
    else if pc.MintByName? || pc.MintAccess? { MintStory(w, acts, u, c, id, ttl); }
    else if pc.TokenConsume? { IssueStory(w, acts, u, c, id, ttl); }
    else { ExchangeStory(w, acts, u, c, id, ttl); }
  }

  // ---- every run -------------------------------------------------------------------------------------------------

  lemma StepKeepsUserCodes(u: World, c: nat, id: Id, ttl: int)
    requires c in u.callers
    ensures forall h :: h in u.store.byUserCode ==>
              h in Step(u, c, id, ttl).store.byUserCode
              && Step(u, c, id, ttl).store.byUserCode[h] == u.store.byUserCode[h]
  {
    hide HashCode, FindByName, Lookup, PrincipalOf, ResourceActive, Trim;
    if !HasEffect(u.callers[c]) {
      ReadsKeepStore(u, c, id, ttl);
      hide Step;
    }
  }

  lemma ReadsKeepStore(u: World, c: nat, id: Id, ttl: int)
    requires c in u.callers && !HasEffect(u.callers[c])
    ensures Step(u, c, id, ttl).store == u.store
  {
    hide HashCode, FindByName, Lookup, PrincipalOf, ResourceActive, Create, Approve, Consume, Expire;
  }

  lemma PendingIsPast(s: Store, log: seq<Event>, s': Store, log': seq<Event>, id: Id)
    requires Extends(s, log, s', log') && id in s.devices && s.devices[id].status != Pending
    ensures id in s'.devices && s'.devices[id].status != Pending
  {
  }

  lemma ApplyGrows(u: World, a: Action)
    requires Inv(u)
    ensures Grows(u, Apply(u, a))
  {
    hide Inv, Step, MayBecome;
    ApplyKeeps(u, a);
    if a.Advance? && a.caller in u.callers { StepKeepsUserCodes(u, a.caller, a.freshId, a.ttl); }
    var after := Apply(u, a);
    forall id | NotPending(u, id) ensures NotPending(after, id) {
      PendingIsPast(u.store, u.log, after.store, after.log, id);
    }
  }

  lemma OthersUntouched(u: World, c: nat, id: Id, ttl: int)
    requires Inv(u) && c in u.callers
    ensures
      var after := Step(u, c, id, ttl);
      c in after.callers && after.callers == u.callers[c := after.callers[c]]
  {
    hide Step, Inv;
    StepKeeps(u, c, id, ttl);
  }

  ghost predicate Stories(w: World, acts: seq<Action>, end: World) {
    forall c :: c in end.callers ==> Story(w, acts, end, c, end.callers[c])
  }

  lemma StandsThere(w: World, earlier: seq<Action>, a: Action, u: World, c: nat)
    requires u == Run(w, earlier) && Inv(u) && c in u.callers && Story(w, earlier, u, c, u.callers[c])
    requires a.Advance? && a.caller == c
    ensures Standing(w, earlier + [a], u, c) && Now(w, earlier + [a], u, c, a.ttl)
  {
    hide Story, DataOk, PcOk;
    assert Grows(u, u);
    StoryStays(w, earlier, a, u, u, c, u.callers[c]);
    assert (earlier + [a])[..|earlier|] == earlier;
    assert StoodAt(w, earlier + [a], |earlier|, c, u.callers[c], u);
  }

  lemma ApplyStories(w: World, earlier: seq<Action>, a: Action)
    requires Inv(Run(w, earlier)) && Stories(w, earlier, Run(w, earlier))
    ensures Stories(w, earlier + [a], Apply(Run(w, earlier), a))
  {
    hide Story, Inv, Step, Run, Grows, Standing, Now;
    var before := Run(w, earlier);
    var end := Apply(before, a);
    ApplyGrows(before, a);
    if a.Advance? && a.caller in before.callers { OthersUntouched(before, a.caller, a.freshId, a.ttl); }
    forall c | c in end.callers ensures Story(w, earlier + [a], end, c, end.callers[c]) {
      if c !in before.callers {
        EntryHasNoStory(w, earlier + [a], end, c, end.callers[c]);
      } else if a.Advance? && a.caller == c {
        StandsThere(w, earlier, a, before, c);
        StepStory(w, earlier + [a], before, c, a.freshId, a.ttl);
      } else {
        StoryStays(w, earlier, a, before, end, c, before.callers[c]);
      }
    }
  }

  lemma EntryHasNoStory(w: World, acts: seq<Action>, end: World, c: nat, pc: Pc)
    requires IsEntry(pc)
    ensures Story(w, acts, end, c, pc)
  {
  }

  lemma {:induction false} EveryRunHasStories(w: World, actions: seq<Action>)
    requires Initial(w)
    ensures Stories(w, actions, Run(w, actions))
  {
    if actions != [] {
      var earlier, a := actions[..|actions| - 1], actions[|actions| - 1];
      assert actions == earlier + [a];
      EveryRunHasStories(w, earlier);
      EveryRunKeepsInv(w, earlier);
      ApplyStories(w, earlier, a);
    }
  }

  /** Every answer of every run is earned by what its own call was given, read and did. */
  lemma EveryAnswerIsEarned(w: World, actions: seq<Action>, c: nat)
    requires Initial(w) && c in Run(w, actions).callers && Run(w, actions).callers[c].Done?
    ensures Earned(w, actions, Run(w, actions), c, Run(w, actions).callers[c].outcome)
  {
    hide Earned, Run;
    EveryRunHasStories(w, actions);
    assert Story(w, actions, Run(w, actions), c, Run(w, actions).callers[c]);
  }

  // ---- the history names the callers that were answered ----------------------------------------------------

  /** The caller whose success an event records. */
  function Winner(e: Event): Option<nat> {
    match e
    case DeviceApproved(c, _, _, _, _) => Some(c)
    case OkReturned(c, _, _, _, _) => Some(c)
    case _ => None
  }

  predicate Success(e: Event, o: Outcome) {
    match e
    case DeviceApproved(_, _, _, _, _) => o == ApprovalOk
    case OkReturned(_, _, _, user, repo) => o == TokenIssued(user, repo)
    case _ => true
  }

  ghost predicate Answered(u: World, e: Event) {
    Winner(e).Some? ==>
      && Winner(e).value in u.callers && u.callers[Winner(e).value].Done?
      && Success(e, u.callers[Winner(e).value].outcome)
  }

  ghost predicate AllAnswered(u: World) {
    && (forall e :: e in u.log ==> Answered(u, e))
    && forall i, j :: 0 <= i < j < |u.log| && Winner(u.log[i]).Some? ==> Winner(u.log[i]) != Winner(u.log[j])
  }

  /** What a step adds to the history, and what it then answers. */
  ghost predicate Recorded(u: World, after: World, c: nat)
    requires c in u.callers
  {
    && (u.callers[c].Done? ==> after == u)
    && (after.log == u.log
        || (&& |after.log| == |u.log| + 1 && after.log[..|u.log|] == u.log
            && var e := after.log[|u.log|];
            && (Winner(e).Some? ==> Winner(e).value == c && Answered(after, e))))
  }

  lemma StepIsRecorded(u: World, c: nat, id: Id, ttl: int)
    requires c in u.callers
    ensures Recorded(u, Step(u, c, id, ttl), c)
  {
    hide HashCode, FindByName, Lookup, PrincipalOf, ResourceActive, Create, Expire, Recorded;
    if HasEffect(u.callers[c]) {
      EffectIsRecorded(u, c, id, ttl);
    } else {
      ReadIsRecorded(u, c, id, ttl);
    }
  }

  lemma EffectIsRecorded(u: World, c: nat, id: Id, ttl: int)
    requires c in u.callers && HasEffect(u.callers[c])
    ensures Recorded(u, Step(u, c, id, ttl), c)
  {
    hide HashCode, FindByName, Lookup, PrincipalOf, ResourceActive, Create, Expire;
  }

  lemma ReadIsRecorded(u: World, c: nat, id: Id, ttl: int)
    requires c in u.callers && !HasEffect(u.callers[c])
    ensures Recorded(u, Step(u, c, id, ttl), c)
  {
    hide HashCode, FindByName, Lookup, PrincipalOf, ResourceActive, Create, Expire, Approve, Consume, Answered;
  }

  lemma RecordedKeepsAnswers(u: World, after: World, c: nat)
    requires AllAnswered(u) && c in u.callers && Recorded(u, after, c)
    requires c in after.callers && after.callers == u.callers[c := after.callers[c]]
    ensures AllAnswered(after)
  {
    if !u.callers[c].Done? {
      forall e | e in u.log ensures Winner(e) != Some(c) {
        assert Answered(u, e);
      }
      forall e | e in after.log ensures Answered(after, e) {
        if e in u.log { assert Answered(u, e); } else { assert e == after.log[|u.log|]; }
      }
      forall i | 0 <= i < |u.log| ensures after.log[i] == u.log[i] && u.log[i] in u.log {
        assert after.log[..|u.log|][i] == u.log[i];
      }
    }
  }

  lemma ApplyKeepsAnswers(u: World, a: Action)
    requires Inv(u) && AllAnswered(u)
    ensures AllAnswered(Apply(u, a))
  {
    hide Inv, Step, Recorded;
    if a.Advance? && a.caller in u.callers {
      OthersUntouched(u, a.caller, a.freshId, a.ttl);
      StepIsRecorded(u, a.caller, a.freshId, a.ttl);
      RecordedKeepsAnswers(u, Step(u, a.caller, a.freshId, a.ttl), a.caller);
    }
  }

  lemma {:induction false} EveryRunIsAnswered(w: World, actions: seq<Action>)
    requires Initial(w)
    ensures AllAnswered(Run(w, actions))
  {
    if actions != [] {
      EveryRunIsAnswered(w, actions[..|actions| - 1]);
      EveryRunKeepsInv(w, actions[..|actions| - 1]);
      hide Inv, Apply, AllAnswered;
      ApplyKeepsAnswers(Run(w, actions[..|actions| - 1]), actions[|actions| - 1]);
    }
  }

  ghost predicate TokenRecorded(log: seq<Event>, c: nat, user: Id, repo: RepoRef) {
    exists i :: 0 <= i < |log| && log[i].OkReturned? && log[i].caller == c && log[i].user == user && log[i].repo == repo
  }

  ghost predicate ApprovalRecorded(log: seq<Event>, c: nat) {
    exists i :: 0 <= i < |log| && log[i].DeviceApproved? && log[i].caller == c
  }

  /** Over every run a caller holds a token exactly when the history has its return to that caller,
      for that user and repository, and is told "approved" exactly when it has its approval. */
  lemma AnswersMatchTheHistory(w: World, actions: seq<Action>, c: nat, user: Id, repo: RepoRef)
    requires Initial(w) && c in Run(w, actions).callers
    ensures
      var end := Run(w, actions);
      && (end.callers[c] == Done(TokenIssued(user, repo)) <==> TokenRecorded(end.log, c, user, repo))
      && (end.callers[c] == Done(ApprovalOk) <==> ApprovalRecorded(end.log, c))
  {
    var end := Run(w, actions);
    EveryRunIsAnswered(w, actions);
    RecordIsAnswered(end, c);
    hide Run, Earned, AllAnswered, TokenRecorded, ApprovalRecorded;
    if end.callers[c].Done? {
      EveryAnswerIsEarned(w, actions, c);
      EarnedIsRecorded(w, actions, end, c, end.callers[c].outcome);
    }
  }

  lemma EarnedIsRecorded(w: World, acts: seq<Action>, end: World, c: nat, o: Outcome)
    requires Earned(w, acts, end, c, o)
    ensures o.TokenIssued? ==> TokenRecorded(end.log, c, o.user, o.repo)
    ensures o.ApprovalOk? ==> ApprovalRecorded(end.log, c)
  {
    hide Issuing, Approving, Polled, PollAnswer, PendingInTime, Located, Starting, StartedUnder, UnknownCode;
    if o.TokenIssued? {
      var code: string, d :|
        Issuing(w, acts, c, code, d, o.repo) && OkReturned(c, code, d.id, o.user, o.repo) in end.log;
    }
  }

  lemma RecordIsAnswered(end: World, c: nat)
    requires AllAnswered(end) && c in end.callers
    ensures forall user, repo ::
              TokenRecorded(end.log, c, user, repo) ==> end.callers[c] == Done(TokenIssued(user, repo))
    ensures ApprovalRecorded(end.log, c) ==> end.callers[c] == Done(ApprovalOk)
  {
    forall user, repo | TokenRecorded(end.log, c, user, repo) ensures end.callers[c] == Done(TokenIssued(user, repo)) {
      var i :| && 0 <= i < |end.log| && end.log[i].OkReturned? && end.log[i].caller == c
               && end.log[i].user == user && end.log[i].repo == repo;
      assert Answered(end, end.log[i]);
    }
    if ApprovalRecorded(end.log, c) {
      var i :| 0 <= i < |end.log| && end.log[i].DeviceApproved? && end.log[i].caller == c;
      assert Answered(end, end.log[i]);
    }
  }

  /** Each caller that holds a token redeemed a device of its own: two never share one. */
  lemma HoldersRedeemApart(w: World, actions: seq<Action>, a: nat, b: nat) returns (i: nat, j: nat)
    requires Initial(w) && a != b && a in Run(w, actions).callers && b in Run(w, actions).callers
    requires Run(w, actions).callers[a].Done? && Run(w, actions).callers[a].outcome.TokenIssued?
    requires Run(w, actions).callers[b].Done? && Run(w, actions).callers[b].outcome.TokenIssued?
    ensures
      var log := Run(w, actions).log;
      && i < |log| && j < |log| && log[i].OkReturned? && log[j].OkReturned?
      && log[i].caller == a && log[j].caller == b && log[i].device != log[j].device
      && HashCode(log[i].code) != HashCode(log[j].code)
  {
    i := HolderIsRecorded(w, actions, a);
    j := HolderIsRecorded(w, actions, b);
    TokensAreReturnedOnce(w, actions);
    hide Run, HashCode;
  }

  lemma HolderIsRecorded(w: World, actions: seq<Action>, c: nat) returns (i: nat)
    requires Initial(w) && c in Run(w, actions).callers
    requires Run(w, actions).callers[c].Done? && Run(w, actions).callers[c].outcome.TokenIssued?
    ensures i < |Run(w, actions).log| && Run(w, actions).log[i].OkReturned? && Run(w, actions).log[i].caller == c
  {
    var o := Run(w, actions).callers[c].outcome;
    AnswersMatchTheHistory(w, actions, c, o.user, o.repo);
    hide Run;
    var log := Run(w, actions).log;
    i :| 0 <= i < |log| && log[i].OkReturned? && log[i].caller == c && log[i].user == o.user && log[i].repo == o.repo;
  }

  // ---- one caller alone ---------------------------------------------------------------------------------------

  /** The user code leads to a device that may still be approved, for an active repository. */
  predicate Approvable(u: World, d: Device) {
    && d.status == Pending && u.now < d.expiresAt && d.repositoryId != ""
    && d.repositoryId in u.repos && u.repos[d.repositoryId].active
  }

  /** The first three steps of a call with a user code. */
  lemma ReadsAlone(u: World, c: nat, p: Purpose, code: string, d: Device, n: nat, id: Id, ttl: int) returns (u3: World)
    requires c in u.callers && u.callers[c] == UserRead(p, code)
    requires Registered(u.store.devices, u.store.byUserCode, code, d)
    ensures DeviceNames.Alone(u, c, n + 3, id, ttl) == DeviceNames.Alone(u3, c, n, id, ttl) && c in u3.callers
    ensures if Approvable(u, d)
            then && u3 == u.(callers := u3.callers)
                 && u3.callers[c] == match p {
                      case Preview => Done(Previewed)
                      case ApproveBy(user) =>
                        ApproveAccess(user, d, RepoRef(d.repositoryId, u.repos[d.repositoryId].resourceId))
                    }
            else u3.callers[c].Done? && u3.callers[c].outcome.Failed?
  {
    hide HashCode, FindByName, PrincipalOf, ResourceActive, Create, Approve, Consume, Expire, DeviceNames.Alone;
    var u1 := Step(u, c, id, ttl);
    assert u1 == At(u, c, UserPending(p, d));
    NextAlone(u, c, n + 2, id, ttl);
    hide Lookup, Step;
    u3 := PendingAlone(u1, c, p, d, n, id, ttl);
  }

  lemma NextAlone(u: World, c: nat, n: nat, id: Id, ttl: int)
    requires c in u.callers
    ensures DeviceNames.Alone(u, c, n + 1, id, ttl) == DeviceNames.Alone(Step(u, c, id, ttl), c, n, id, ttl)
  {
    hide Step;
  }

  lemma PendingAlone(u: World, c: nat, p: Purpose, d: Device, n: nat, id: Id, ttl: int) returns (u2: World)
    requires c in u.callers && u.callers[c] == UserPending(p, d)
    ensures DeviceNames.Alone(u, c, n + 2, id, ttl) == DeviceNames.Alone(u2, c, n, id, ttl) && c in u2.callers
    ensures if Approvable(u, d)
            then && u2 == u.(callers := u2.callers)
                 && u2.callers[c] == match p {
                      case Preview => Done(Previewed)
                      case ApproveBy(user) =>
                        ApproveAccess(user, d, RepoRef(d.repositoryId, u.repos[d.repositoryId].resourceId))
                    }
            else u2.callers[c].Done? && u2.callers[c].outcome.Failed?
  {
    hide HashCode, FindByName, Lookup, PrincipalOf, ResourceActive, Create, Approve, Consume, Expire, DeviceNames.Alone;
    var u1 := Step(u, c, id, ttl);
    u2 := Step(u1, c, id, ttl);
    NextAlone(u, c, n + 1, id, ttl);
    NextAlone(u1, c, n, id, ttl);
  }

  lemma UndisturbedPreview(u: World, c: nat, code: string, d: Device, id: Id, ttl: int)
    requires c in u.callers && u.callers[c] == UserRead(Preview, code)
    requires Registered(u.store.devices, u.store.byUserCode, code, d)
    ensures
      var end := DeviceNames.Alone(u, c, 3, id, ttl);
      c in end.callers && (end.callers[c] == Done(Previewed) <==> Approvable(u, d))
  {
    hide HashCode, Step, Approvable;
    var u3 := ReadsAlone(u, c, Preview, code, d, 0, id, ttl);
  }

  /** The approval ends well exactly if ok, and then the device is the user's, from now on. */
  ghost predicate ApprovalEnds(end: World, u: World, c: nat, user: Id, d: Device, ok: bool) {
    && c in end.callers && (end.callers[c] == Done(ApprovalOk) <==> ok)
    && (ok ==> end.store.devices
                 == u.store.devices[d.id := d.(status := Approved, approvedUserId := user, approvedAt := u.now)])
  }

  lemma ApprovesAlone(u: World, c: nat, user: Id, d: Device, repo: RepoRef, id: Id, ttl: int)
    requires c in u.callers && u.callers[c] == ApproveAccess(user, d, repo)
    requires d.id in u.store.devices && u.store.devices[d.id] == d && d.status == Pending && u.now < d.expiresAt
    ensures ApprovalEnds(DeviceNames.Alone(u, c, 3, id, ttl), u, c, user, d,
                         (user, repo.resourceId) in u.writers && IsActive(u.accounts, user))
  {
    hide HashCode, FindByName, Lookup, ResourceActive, Create, Consume, Expire;
    var u1 := Step(u, c, id, ttl);
    var u2 := Step(u1, c, id, ttl);
    var u3 := Step(u2, c, id, ttl);
    assert DeviceNames.Alone(u, c, 3, id, ttl) == DeviceNames.Alone(u1, c, 2, id, ttl);
    assert DeviceNames.Alone(u1, c, 2, id, ttl) == DeviceNames.Alone(u2, c, 1, id, ttl);
    assert DeviceNames.Alone(u2, c, 1, id, ttl) == DeviceNames.Alone(u3, c, 0, id, ttl);
  }

  lemma {:induction false} DoneIsDone(u: World, c: nat, n: nat, id: Id, ttl: int)
    requires c in u.callers && u.callers[c].Done?
    ensures DeviceNames.Alone(u, c, n, id, ttl) == u
    decreases n
  {
    if n > 0 { DoneIsDone(u, c, n - 1, id, ttl); }
  }

  lemma RegisteredRow(u: World, code: string, d: Device)
    requires Inv(u) && Registered(u.store.devices, u.store.byUserCode, code, d)
    ensures d.id in u.store.devices && u.store.devices[d.id] == d
  {
    hide HashCode, LogOk, PcOk;
    assert DeviceOk(u.log, u.store.byUserCode[HashCode(code)], d);
  }

  /** An approval that nobody disturbs succeeds exactly for a pending, unexpired device of an active
      repository, on which the user, whose account is active, has write access. */
  lemma UndisturbedApproval(u: World, c: nat, user: Id, code: string, d: Device, id: Id, ttl: int)
    requires Inv(u) && c in u.callers && u.callers[c] == UserRead(ApproveBy(user), code)
    requires Registered(u.store.devices, u.store.byUserCode, code, d)
    ensures ApprovalEnds(DeviceNames.Alone(u, c, 6, id, ttl), u, c, user, d, MayApprove(u, user, d))
  {
    RegisteredRow(u, code, d);
    hide HashCode, Step, Inv, Registered, IsActive, DeviceNames.Alone, Approvable, ApprovalEnds, MayApprove;
    if Approvable(u, d) {
      ApprovableEnds(u, c, user, code, d, id, ttl);
    } else {
      UnapprovableEnds(u, c, user, code, d, id, ttl);
    }
  }

  predicate MayApprove(u: World, user: Id, d: Device) {
    && Approvable(u, d)
    && (user, u.repos[d.repositoryId].resourceId) in u.writers && IsActive(u.accounts, user)
  }

  lemma UnapprovableEnds(u: World, c: nat, user: Id, code: string, d: Device, id: Id, ttl: int)
    requires c in u.callers && u.callers[c] == UserRead(ApproveBy(user), code) && !Approvable(u, d)
    requires Registered(u.store.devices, u.store.byUserCode, code, d)
    ensures ApprovalEnds(DeviceNames.Alone(u, c, 6, id, ttl), u, c, user, d, MayApprove(u, user, d))
  {
    hide HashCode, Step, Registered, DeviceNames.Alone, Approvable, ApprovalEnds;
    var u3 := ReadsAlone(u, c, ApproveBy(user), code, d, 3, id, ttl);
    DoneIsDone(u3, c, 3, id, ttl);
    FailsHere(u, u3, c, user, d);
  }

  lemma ApprovableEnds(u: World, c: nat, user: Id, code: string, d: Device, id: Id, ttl: int)
    requires c in u.callers && u.callers[c] == UserRead(ApproveBy(user), code) && Approvable(u, d)
    requires Registered(u.store.devices, u.store.byUserCode, code, d)
    requires d.id in u.store.devices && u.store.devices[d.id] == d
    ensures ApprovalEnds(DeviceNames.Alone(u, c, 6, id, ttl), u, c, user, d, MayApprove(u, user, d))
  {
    hide HashCode, Step, Registered, IsActive, DeviceNames.Alone, ApprovalEnds;
    var repo := RepoRef(d.repositoryId, u.repos[d.repositoryId].resourceId);
    var u3 := ReadsAlone(u, c, ApproveBy(user), code, d, 3, id, ttl);
    ApprovesAlone(u3, c, user, d, repo, id, ttl);
    EndsFromHere(DeviceNames.Alone(u3, c, 3, id, ttl), u, u3, c, user, d, MayApprove(u, user, d));
  }

  lemma EndsFromHere(end: World, u: World, u3: World, c: nat, user: Id, d: Device, ok: bool)
    requires ApprovalEnds(end, u3, c, user, d, ok) && u3.store == u.store && u3.now == u.now
    ensures ApprovalEnds(end, u, c, user, d, ok)
  {
  }

  lemma FailsHere(u: World, u3: World, c: nat, user: Id, d: Device)
    requires c in u3.callers && u3.callers[c].Done? && u3.callers[c].outcome.Failed?
    ensures ApprovalEnds(u3, u, c, user, d, false)
  {
  }

  /** A poll that nobody disturbs is told the status of the device of its code, unless that is
      approved; and a pending device whose time is up expires. */
  lemma UndisturbedPoll(u: World, c: nat, code: string, d: Device, id: Id, ttl: int)
    requires c in u.callers && u.callers[c] == TokenRead(code)
    requires Registered(u.store.devices, u.store.byDeviceCode, code, d) && d.status != Approved
    ensures
      var end := DeviceNames.Alone(u, c, 3, id, ttl);
      && c in end.callers && end.callers[c].Done? && end.callers[c].outcome.TokenStatus?
      && PollAnswer(d, u.now, end.callers[c].outcome.status)
      && (d.status == Pending && d.expiresAt <= u.now && d.id in u.store.devices && u.store.devices[d.id] == d ==>
            end.store.devices == u.store.devices[d.id := d.(status := Expired)])
      && (d.status != Pending || u.now < d.expiresAt ==> end.store == u.store)
  {
    hide HashCode, FindByName, ResourceActive, Create, Approve, Consume;
    var u1 := Step(u, c, id, ttl);
    assert u1 == At(u, c, TokenClock(code, d));
    hide Lookup;
    var u2 := Step(u1, c, id, ttl);
    var u3 := Step(u2, c, id, ttl);
    assert DeviceNames.Alone(u, c, 3, id, ttl) == DeviceNames.Alone(u1, c, 2, id, ttl);
    assert DeviceNames.Alone(u1, c, 2, id, ttl) == DeviceNames.Alone(u2, c, 1, id, ttl);
    assert DeviceNames.Alone(u2, c, 1, id, ttl) == DeviceNames.Alone(u3, c, 0, id, ttl);
  }

  /** A code that leads to no device is refused as invalid, whoever else is moving. */
  lemma UnknownCodesAreRefused(u: World, c: nat, code: string, id: Id, ttl: int)
    requires c in u.callers
    requires
      || (u.callers[c].UserRead? && u.callers[c].userCode == code
          && Unregistered(u.store.devices, u.store.byUserCode, code))
      || (u.callers[c] == TokenRead(code) && Unregistered(u.store.devices, u.store.byDeviceCode, code))
    ensures Step(u, c, id, ttl) == u.(callers := u.callers[c := Done(Failed(DeviceInvalidCode))])
  {
    hide HashCode, FindByName, ResourceActive, Create, Approve, Consume, Expire, PrincipalOf;
  }

  /** A start that nobody disturbs, with fresh codes, succeeds exactly for the name of an active
      repository and codes and ids that are not blank. */
  lemma UndisturbedStart(u: World, c: nat, name: string, deviceCode: string, userCode: string, id: Id, ttl: int)
    requires c in u.callers && u.callers[c] == StartRepository(name, deviceCode, userCode)
    requires id !in u.store.devices
    requires HashCode(deviceCode) !in u.store.byDeviceCode && HashCode(userCode) !in u.store.byUserCode
    requires forall r :: r in u.repos ==> Trim(r) != ""
    ensures
      var end := DeviceNames.Alone(u, c, 2, id, ttl);
      && c in end.callers
      && (end.callers[c] == Done(Started) <==>
            && (exists r :: r in u.repos && u.repos[r].active && u.repos[r].name == name)
            && Trim(deviceCode) != "" && Trim(userCode) != "")
      && (end.callers[c] == Done(Started) ==>
            && id in end.store.devices && var d := end.store.devices[id];
            && d == Device(id, d.repositoryId, "", Pending, u.now, u.now + ttl, 0, 0)
            && d.repositoryId in u.repos && u.repos[d.repositoryId].active && u.repos[d.repositoryId].name == name)
  {
    FoundIsNamed(u.repos, name);
    hide HashCode, FindByName, ResourceActive, Lookup, Approve, Consume, Trim;
    var u1 := Step(u, c, id, ttl);
    var u2 := Step(u1, c, id, ttl);
    assert DeviceNames.Alone(u, c, 2, id, ttl) == DeviceNames.Alone(u1, c, 1, id, ttl);
    assert DeviceNames.Alone(u1, c, 1, id, ttl) == DeviceNames.Alone(u2, c, 0, id, ttl);
  }
}
