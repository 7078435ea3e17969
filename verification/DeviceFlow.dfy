/** The device authorization flow, with any number of callers interleaved at their
    store calls. */
module DeviceFlow {
  import opened Text
  import opened CoreModel
  import opened History
  import opened DeviceStore

  // ---- the world ---------------------------------------------------------------------------

  datatype Repo = Repo(name: string, resourceId: string, active: bool)
  datatype RepoRef = RepoRef(id: Id, resourceId: string)

  /** What a user code is presented for. */
  datatype Purpose = Preview | ApproveBy(user: Id)

  datatype Outcome = Failed(error: CoreError) | Started | Previewed | ApprovalOk | TokenStatus(status: string)
    | TokenIssued(user: Id, repo: RepoRef)

  /** Where a call stands: the value names the next store or authorization call, with the
      local variables that are still needed. */
  datatype Pc =
    | Done(outcome: Outcome)
    | StartRepository(name: string, deviceCode: string, userCode: string)
    | StartCreate(repositoryId: Id, deviceCode: string, userCode: string)
    | UserRead(purpose: Purpose, userCode: string)
    | UserPending(purpose: Purpose, device: Device)
    | UserExpire(device: Device)
    | UserRepository(purpose: Purpose, device: Device)
    | ApproveAccess(user: Id, device: Device, repo: RepoRef)
    | ApprovePrincipal(user: Id, device: Device, repo: RepoRef)
    | ApproveWrite(user: Id, device: Device, repo: RepoRef)
    | TokenRead(code: string)
    | TokenClock(code: string, device: Device)
    | TokenExpire(device: Device)
    | TokenRepository(code: string, device: Device)
    | MintPrincipal(code: string, device: Device, name: string)
    | MintByName(code: string, device: Device, name: string)
    | MintAccess(code: string, device: Device, repo: RepoRef)
    | ExchangeResource(code: string, device: Device, repo: RepoRef)
    | ExchangeAccess(code: string, device: Device, repo: RepoRef)
    | TokenConsume(code: string, device: Device, repo: RepoRef)

  datatype Stage = AtApproval | AtIssue

  /** The history of a run. */
  datatype Event =
    | DeviceStarted(device: Id, repositoryId: Id, expiresAt: int)
    | WriteChecked(stage: Stage, device: Id, user: Id, repo: RepoRef)
    | DeviceApproved(caller: nat, device: Id, repositoryId: Id, user: Id, at: int)
    | OkReturned(caller: nat, code: string, device: Id, user: Id, repo: RepoRef)

  datatype World = World(now: int, store: Store, repos: map<Id, Repo>, writers: set<(Id, string)>,
                         accounts: map<Id, bool>, callers: map<nat, Pc>, log: seq<Event>)

  datatype Action =
    | Tick(later: int)
    | ChangeRepos(repos: map<Id, Repo>)
    | ChangeAccess(writers: set<(Id, string)>)
    | ChangeAccounts(accounts: map<Id, bool>)
    | Call(caller: nat, pc: Pc)
    | Advance(caller: nat, freshId: Id, ttl: int)

  ghost predicate IsEntry(pc: Pc) {
    pc.StartRepository? || pc.UserRead? || pc.TokenRead?
  }

  // ---- one atomic step of one caller ---------------------------------------------------------

  function RepositoriesNamed(repos: map<Id, Repo>, name: string): set<Id> {
    set id | id in repos && repos[id].active && repos[id].name == name
  }

  /** `get_by_name`, for the active repository of that name. */
  ghost function FindByName(repos: map<Id, Repo>, name: string): Option<Id> {
    var ids := RepositoriesNamed(repos, name);
    if ids == {} then None
    else
      var id :| id in ids;
      Some(id)
  }

  predicate ResourceActive(repos: map<Id, Repo>, resourceId: string) {
    exists id :: id in repos && repos[id].active && repos[id].resourceId == resourceId
  }

  ghost function At(w: World, caller: nat, pc: Pc): World {
    w.(callers := w.callers[caller := pc])
  }

  ghost function Fail(w: World, caller: nat, error: CoreError): World {
    At(w, caller, Done(Failed(error)))
  }

  function InvalidCode(e: CoreError): CoreError {
    if e == NotFound then DeviceInvalidCode else e
  }

  ghost function Step(w: World, caller: nat, freshId: Id, ttl: int): World
    requires caller in w.callers
  {
    match w.callers[caller]
    case Done(_) => w
    case StartRepository(name, deviceCode, userCode) =>
      (match FindByName(w.repos, name)
       case Some(id) => At(w, caller, StartCreate(id, deviceCode, userCode))
       case None => Fail(w, caller, NotFound))
    case StartCreate(repositoryId, deviceCode, userCode) =>
      // Ids and codes are generated secrets: new ones never collide with old ones.
      if freshId in w.store.devices || HashCode(deviceCode) in w.store.byDeviceCode
        || HashCode(userCode) in w.store.byUserCode then w
      else
        var (store, r) := Create(w.store, freshId, deviceCode, userCode, repositoryId, w.now, ttl);
        (match r
         case Ok(device) =>
           At(w.(store := store, log := w.log + [DeviceStarted(freshId, repositoryId, device.expiresAt)]), caller,
              Done(Started))
         case Err(e) => Fail(w, caller, e))
    case UserRead(purpose, userCode) =>
      (match Lookup(w.store, w.store.byUserCode, userCode)
       case Ok(device) => At(w, caller, UserPending(purpose, device))
       case Err(e) => Fail(w, caller, InvalidCode(e)))
    case UserPending(purpose, device) =>
      if device.status != Pending then Fail(w, caller, DeviceAuthorizationNotPending)
      else if device.expiresAt <= w.now then At(w, caller, UserExpire(device))
      else if device.repositoryId == "" then Fail(w, caller, DeviceIncompleteAuthorization)
      else At(w, caller, UserRepository(purpose, device))
    case UserExpire(device) =>
      Fail(w.(store := Expire(w.store, device.id)), caller, DeviceExpiredCode)
    case UserRepository(purpose, device) =>
      if device.repositoryId !in w.repos || !w.repos[device.repositoryId].active then Fail(w, caller, NotFound)
      else
        var repo := RepoRef(device.repositoryId, w.repos[device.repositoryId].resourceId);
        (match purpose
         case Preview => At(w, caller, Done(Previewed))
         case ApproveBy(user) => At(w, caller, ApproveAccess(user, device, repo)))
    case ApproveAccess(user, device, repo) =>
      if (user, repo.resourceId) !in w.writers then Fail(w, caller, PermissionDenied)
      else At(w.(log := w.log + [WriteChecked(AtApproval, device.id, user, repo)]), caller,
              ApprovePrincipal(user, device, repo))
    case ApprovePrincipal(user, device, repo) =>
      (match PrincipalOf(w.accounts, user)
       case Ok(_) => At(w, caller, ApproveWrite(user, device, repo))
       case Err(e) => Fail(w, caller, e))
    case ApproveWrite(user, device, repo) =>
      var (store, r) := Approve(w.store, device.id, user, w.now);
      (match r
       case Ok(_) =>
         var e := DeviceApproved(caller, device.id, device.repositoryId, user, w.now);
         At(w.(store := store, log := w.log + [e]), caller, Done(ApprovalOk))
       case Err(e) => Fail(w, caller, e))
    case TokenRead(code) =>
      (match Lookup(w.store, w.store.byDeviceCode, code)
       case Ok(device) => At(w, caller, TokenClock(code, device))
       case Err(e) => Fail(w, caller, InvalidCode(e)))
    case TokenClock(code, device) =>
      if device.expiresAt <= w.now && device.status == Pending then At(w, caller, TokenExpire(device))
      else (match device.status
            case Pending => At(w, caller, Done(TokenStatus("authorization_pending")))
            case Approved =>
              if device.approvedUserId == "" || device.repositoryId == ""
              then Fail(w, caller, DeviceIncompleteAuthorization)
              else At(w, caller, TokenRepository(code, device))
            case Consumed => At(w, caller, Done(TokenStatus("consumed")))
            case Expired => At(w, caller, Done(TokenStatus("expired"))))
    case TokenExpire(device) =>
      At(w.(store := Expire(w.store, device.id)), caller, Done(TokenStatus("expired_token")))
    case TokenRepository(code, device) =>
      if device.repositoryId !in w.repos || !w.repos[device.repositoryId].active then Fail(w, caller, NotFound)
      else At(w, caller, MintPrincipal(code, device, w.repos[device.repositoryId].name))
    case MintPrincipal(code, device, name) =>
      (match PrincipalOf(w.accounts, device.approvedUserId)
       case Ok(_) => At(w, caller, MintByName(code, device, name))
       case Err(e) => Fail(w, caller, e))
    case MintByName(code, device, name) =>
      (match FindByName(w.repos, name)
       case Some(id) => At(w, caller, MintAccess(code, device, RepoRef(id, w.repos[id].resourceId)))
       case None => Fail(w, caller, NotFound))
    case MintAccess(code, device, repo) =>
      if (device.approvedUserId, repo.resourceId) !in w.writers then Fail(w, caller, PermissionDenied)
      else At(w, caller, ExchangeResource(code, device, repo))
    case ExchangeResource(code, device, repo) =>
      if !ResourceActive(w.repos, repo.resourceId) then Fail(w, caller, NotFound)
      else At(w, caller, ExchangeAccess(code, device, repo))
    case ExchangeAccess(code, device, repo) =>
      // The token is then signed and recorded, which nothing here reads back.
      if (device.approvedUserId, repo.resourceId) !in w.writers then Fail(w, caller, PermissionDenied)
      else At(w.(log := w.log + [WriteChecked(AtIssue, device.id, device.approvedUserId, repo)]), caller,
              TokenConsume(code, device, repo))
    case TokenConsume(code, device, repo) =>
      var (store, r) := Consume(w.store, device.id, w.now);
      (match r
       case Ok(_) =>
         At(w.(store := store, log := w.log + [OkReturned(caller, code, device.id, device.approvedUserId, repo)]),
            caller, Done(TokenIssued(device.approvedUserId, repo)))
       case Err(e) => Fail(w, caller, e))
  }

  ghost function Apply(w: World, a: Action): World {
    match a
    case Tick(later) => if later >= w.now then w.(now := later) else w
    case ChangeRepos(repos) => w.(repos := repos)
    case ChangeAccess(writers) => w.(writers := writers)
    case ChangeAccounts(accounts) => w.(accounts := accounts)
    case Call(caller, pc) => if caller !in w.callers && IsEntry(pc) then At(w, caller, pc) else w
    case Advance(caller, freshId, ttl) => if caller in w.callers then Step(w, caller, freshId, ttl) else w
  }

  ghost predicate Initial(w: World) {
    w.store == EMPTY && w.callers == map[] && w.log == []
  }

  ghost function Run(w: World, actions: seq<Action>): World {
    if actions == [] then w else Apply(Run(w, actions[..|actions| - 1]), actions[|actions| - 1])
  }

  // ---- what every step keeps --------------------------------------------------------------------

  /** The moves a device may make, forward only. */
  predicate MayBecome(a: Device, b: Device) {
    && SameRequest(a, b)
    && (|| b == a
        || (a.status == Pending && b.status == Approved)
        || (a.status == Pending && b == a.(status := Expired))
        || (a.status == Approved && b.status == Consumed && b.approvedUserId == a.approvedUserId
            && b.approvedAt == a.approvedAt))
  }

  /** A device read earlier, against the store now. */
  ghost predicate ReadEarlier(s: Store, d: Device) {
    && d.id in s.devices
    && SameRequest(d, s.devices[d.id])
    && (d.status == Approved ==>
          && s.devices[d.id].status in {Approved, Consumed}
          && s.devices[d.id].approvedUserId == d.approvedUserId)
  }

  predicate CodeOf(s: Store, code: string, id: Id) {
    HashCode(code) in s.byDeviceCode && s.byDeviceCode[HashCode(code)] == id
  }

  ghost predicate Redeeming(s: Store, code: string, d: Device) {
    ReadEarlier(s, d) && CodeOf(s, code, d.id) && d.status == Approved
  }

  ghost predicate PcOk(s: Store, log: seq<Event>, pc: Pc) {
    match pc
    case UserPending(_, d) => ReadEarlier(s, d)
    case UserExpire(d) => ReadEarlier(s, d)
    case TokenExpire(d) => ReadEarlier(s, d)
    case UserRepository(_, d) => ReadEarlier(s, d)
    case ApproveAccess(_, d, repo) => ReadEarlier(s, d) && repo.id == d.repositoryId
    case ApprovePrincipal(user, d, repo) =>
      ReadEarlier(s, d) && repo.id == d.repositoryId && WriteChecked(AtApproval, d.id, user, repo) in log
    case ApproveWrite(user, d, repo) =>
      ReadEarlier(s, d) && repo.id == d.repositoryId && WriteChecked(AtApproval, d.id, user, repo) in log
    case TokenClock(code, d) => ReadEarlier(s, d) && CodeOf(s, code, d.id)
    case TokenRepository(code, d) => Redeeming(s, code, d)
    case MintPrincipal(code, d, _) => Redeeming(s, code, d)
    case MintByName(code, d, _) => Redeeming(s, code, d)
    case MintAccess(code, d, _) => Redeeming(s, code, d)
    case ExchangeResource(code, d, _) => Redeeming(s, code, d)
    case ExchangeAccess(code, d, _) => Redeeming(s, code, d)
    case TokenConsume(code, d, repo) =>
      Redeeming(s, code, d) && WriteChecked(AtIssue, d.id, d.approvedUserId, repo) in log
    case _ => true
  }

  ghost predicate CheckedForApproval(log: seq<Event>, device: Id, user: Id, repositoryId: Id) {
    exists rid: string :: WriteChecked(AtApproval, device, user, RepoRef(repositoryId, rid)) in log
  }

  ghost predicate StartedIn(log: seq<Event>, id: Id) {
    exists e :: e in log && e.DeviceStarted? && e.device == id
  }

  ghost predicate ApprovedIn(log: seq<Event>, id: Id) {
    exists e :: e in log && e.DeviceApproved? && e.device == id
  }

  ghost predicate ApprovedAs(log: seq<Event>, id: Id, repositoryId: Id, user: Id, at: int) {
    exists c: nat :: DeviceApproved(c, id, repositoryId, user, at) in log
  }

  ghost predicate OkReturnedFor(log: seq<Event>, id: Id) {
    exists e :: e in log && e.OkReturned? && e.device == id
  }

  /** What must have happened before an event. */
  ghost predicate EventOk(before: seq<Event>, e: Event) {
    match e
    case DeviceStarted(device, _, _) => !StartedIn(before, device)
    case WriteChecked(stage, device, user, repo) =>
      if stage == AtApproval then exists expiresAt: int :: DeviceStarted(device, repo.id, expiresAt) in before
      else exists repositoryId: Id, at: int :: ApprovedAs(before, device, repositoryId, user, at)
    case DeviceApproved(_, device, repositoryId, user, at) =>
      && !ApprovedIn(before, device)
      && (exists expiresAt: int :: DeviceStarted(device, repositoryId, expiresAt) in before && at < expiresAt)
      && CheckedForApproval(before, device, user, repositoryId)
    case OkReturned(_, _, device, user, repo) =>
      !OkReturnedFor(before, device) && WriteChecked(AtIssue, device, user, repo) in before
  }

  /** Every event of the history came after what it needs. */
  ghost predicate LogOk(log: seq<Event>) {
    Justified(EventOk, log)
  }

  /** A device's history matches its row. */
  ghost predicate DeviceOk(log: seq<Event>, id: Id, d: Device) {
    && d.id == id
    && DeviceStarted(id, d.repositoryId, d.expiresAt) in log
    && (d.status in {Approved, Consumed} <==> ApprovedIn(log, id))
    && (d.status in {Approved, Consumed} ==> ApprovedAs(log, id, d.repositoryId, d.approvedUserId, d.approvedAt))
    && (d.status == Consumed <==> OkReturnedFor(log, id))
  }

  /** A returned token matches the device it was returned for. */
  ghost predicate OkEventOk(s: Store, e: Event)
    requires e.OkReturned?
  {
    e.device in s.devices && s.devices[e.device].approvedUserId == e.user && CodeOf(s, e.code, e.device)
  }

  /** The store and the history agree. */
  ghost predicate DataOk(s: Store, log: seq<Event>) {
    && LogOk(log)
    && (forall id :: id in s.devices ==> DeviceOk(log, id, s.devices[id]))
    && (forall e :: e in log ==> e.device in s.devices)
    && (forall h :: h in s.byDeviceCode ==> s.byDeviceCode[h] in s.devices)
    && (forall h :: h in s.byUserCode ==> s.byUserCode[h] in s.devices)
    && (forall e :: e in log && e.OkReturned? ==> OkEventOk(s, e))
  }

  ghost predicate Inv(w: World) {
    && DataOk(w.store, w.log)
    && forall c :: c in w.callers ==> PcOk(w.store, w.log, w.callers[c])
  }

  /** How the rest of the state may move under everyone else's feet. */
  ghost predicate Extends(s: Store, log: seq<Event>, s': Store, log': seq<Event>) {
    && log <= log'
    && (forall id :: id in s.devices ==> id in s'.devices && MayBecome(s.devices[id], s'.devices[id]))
    && (forall h :: h in s.byDeviceCode ==> h in s'.byDeviceCode && s'.byDeviceCode[h] == s.byDeviceCode[h])
  }

  lemma ReadStaysEarlier(s: Store, log: seq<Event>, s': Store, log': seq<Event>, d: Device)
    requires Extends(s, log, s', log') && ReadEarlier(s, d)
    ensures ReadEarlier(s', d)
  {
  }

  lemma CodeStays(s: Store, log: seq<Event>, s': Store, log': seq<Event>, code: string, id: Id)
    requires Extends(s, log, s', log') && CodeOf(s, code, id)
    ensures CodeOf(s', code, id)
  {
    hide HashCode, MayBecome;
  }

  lemma ReadsStay(s: Store, log: seq<Event>, s': Store, log': seq<Event>)
    requires Extends(s, log, s', log')
    ensures log <= log'
    ensures forall d :: ReadEarlier(s, d) ==> ReadEarlier(s', d)
    ensures forall code, id :: CodeOf(s, code, id) ==> CodeOf(s', code, id)
    ensures forall code, d :: Redeeming(s, code, d) ==> Redeeming(s', code, d)
  {
    forall d | ReadEarlier(s, d) ensures ReadEarlier(s', d) {
      ReadStaysEarlier(s, log, s', log', d);
    }
    forall code, id | CodeOf(s, code, id) ensures CodeOf(s', code, id) {
      CodeStays(s, log, s', log', code, id);
    }
    assert log <= log';
    hide Extends, ReadEarlier, CodeOf;
  }

  lemma PcStaysOk(s: Store, log: seq<Event>, s': Store, log': seq<Event>, pc: Pc)
    requires Extends(s, log, s', log') && PcOk(s, log, pc)
    ensures PcOk(s', log', pc)
  {
    ReadsStay(s, log, s', log');
    hide Extends, ReadEarlier, CodeOf, Redeeming;
    match pc
    case ApprovePrincipal(user, d, repo) => InPrefix(log, log', WriteChecked(AtApproval, d.id, user, repo));
    case ApproveWrite(user, d, repo) => InPrefix(log, log', WriteChecked(AtApproval, d.id, user, repo));
    case TokenConsume(code, d, repo) => InPrefix(log, log', WriteChecked(AtIssue, d.id, d.approvedUserId, repo));
    case _ =>
  }

  lemma LogAppend(log: seq<Event>, e: Event)
    requires LogOk(log) && EventOk(log, e)
    ensures LogOk(log + [e])
  {
    AppendJustified(EventOk, log, e);
  }

  /** An event about another device, or a check, changes nothing that is known of a device. */
  lemma DeviceStaysOk(log: seq<Event>, e: Event, id: Id, d: Device)
    requires DeviceOk(log, id, d) && (e.device != id || e.WriteChecked?)
    ensures DeviceOk(log + [e], id, d)
  {
    InLonger(log, e);
    assert ApprovedIn(log + [e], id) <==> ApprovedIn(log, id) by { AppendedApprovals(log, e, id); }
    assert OkReturnedFor(log + [e], id) <==> OkReturnedFor(log, id) by { AppendedApprovals(log, e, id); }
  }

  lemma AppendedApprovals(log: seq<Event>, e: Event, id: Id)
    ensures ApprovedIn(log + [e], id) <==> ApprovedIn(log, id) || (e.DeviceApproved? && e.device == id)
    ensures OkReturnedFor(log + [e], id) <==> OkReturnedFor(log, id) || (e.OkReturned? && e.device == id)
  {
    InLonger(log, e);
    assert e in log + [e];
    if ApprovedIn(log, id) {
      var x :| x in log && x.DeviceApproved? && x.device == id;
      assert x in log + [e];
    }
    if OkReturnedFor(log, id) {
      var x :| x in log && x.OkReturned? && x.device == id;
      assert x in log + [e];
    }
  }

  lemma AppendCheck(s: Store, log: seq<Event>, e: Event)
    requires DataOk(s, log) && e.WriteChecked? && e.device in s.devices && EventOk(log, e)
    ensures DataOk(s, log + [e]) && Extends(s, log, s, log + [e])
  {
    hide EventOk, DeviceOk, OkEventOk, LogOk;
    LogAppend(log, e);
    InLonger(log, e);
    forall id | id in s.devices ensures DeviceOk(log + [e], id, s.devices[id]) {
      DeviceStaysOk(log, e, id, s.devices[id]);
    }
  }

  lemma StartedDeviceOk(log: seq<Event>, d: Device)
    requires d.status == Pending && forall e :: e in log ==> e.device != d.id
    ensures DeviceOk(log + [DeviceStarted(d.id, d.repositoryId, d.expiresAt)], d.id, d)
    ensures EventOk(log, DeviceStarted(d.id, d.repositoryId, d.expiresAt))
  {
    var e := DeviceStarted(d.id, d.repositoryId, d.expiresAt);
    InLonger(log, e);
    assert e in log + [e];
  }

  /** A new device under new keys disturbs nothing. */
  lemma InsertKeeps(s: Store, log: seq<Event>, d: Device, deviceHash: string, userHash: string)
    requires DataOk(s, log) && d.id !in s.devices && deviceHash !in s.byDeviceCode && d.status == Pending
    ensures
      var s' := Store(s.devices[d.id := d], s.byDeviceCode[deviceHash := d.id], s.byUserCode[userHash := d.id]);
      var log' := log + [DeviceStarted(d.id, d.repositoryId, d.expiresAt)];
      DataOk(s', log') && Extends(s, log, s', log')
  {
    hide HashCode, EventOk, DeviceOk, LogOk;
    var s' := Store(s.devices[d.id := d], s.byDeviceCode[deviceHash := d.id], s.byUserCode[userHash := d.id]);
    var e := DeviceStarted(d.id, d.repositoryId, d.expiresAt);
    StartedDeviceOk(log, d);
    LogAppend(log, e);
    InLonger(log, e);
    forall x | x in s'.devices ensures DeviceOk(log + [e], x, s'.devices[x]) {
      if x != d.id {
        DeviceStaysOk(log, e, x, s.devices[x]);
      }
    }
    forall ok | ok in log + [e] && ok.OkReturned? ensures OkEventOk(s', ok) {
      assert OkEventOk(s, ok);
    }
  }

  lemma CreateKeeps(s: Store, log: seq<Event>, id: Id, deviceCode: string, userCode: string, repositoryId: Id, now: int,
                    ttl: int)
    requires DataOk(s, log)
    requires id !in s.devices && HashCode(deviceCode) !in s.byDeviceCode && HashCode(userCode) !in s.byUserCode
    requires Create(s, id, deviceCode, userCode, repositoryId, now, ttl).1.Ok?
    ensures
      var s' := Create(s, id, deviceCode, userCode, repositoryId, now, ttl).0;
      var log' := log + [DeviceStarted(id, repositoryId, now + ttl)];
      DataOk(s', log') && Extends(s, log, s', log')
  {
    hide HashCode, Trim, DataOk, Extends;
    InsertKeeps(s, log, NewDevice(id, repositoryId, now, ttl), HashCode(deviceCode), HashCode(userCode));
  }

  lemma ApprovedDeviceOk(log: seq<Event>, caller: nat, d: Device, user: Id, now: int)
    requires DeviceOk(log, d.id, d) && d.status == Pending && now < d.expiresAt
    requires CheckedForApproval(log, d.id, user, d.repositoryId)
    ensures
      var e := DeviceApproved(caller, d.id, d.repositoryId, user, now);
      && EventOk(log, e)
      && DeviceOk(log + [e], d.id, d.(status := Approved, approvedUserId := user, approvedAt := now))
  {
    var e := DeviceApproved(caller, d.id, d.repositoryId, user, now);
    InLonger(log, e);
    AppendedApprovals(log, e, d.id);
  }

  lemma ApproveKeeps(s: Store, log: seq<Event>, caller: nat, id: Id, user: Id, now: int)
    requires DataOk(s, log) && Approve(s, id, user, now).1.Ok?
    requires CheckedForApproval(log, id, user, s.devices[id].repositoryId)
    ensures
      var s' := Approve(s, id, user, now).0;
      var log' := log + [DeviceApproved(caller, id, s.devices[id].repositoryId, user, now)];
      DataOk(s', log') && Extends(s, log, s', log')
  {
    hide EventOk, LogOk, CheckedForApproval;
    var s' := Approve(s, id, user, now).0;
    var e := DeviceApproved(caller, id, s.devices[id].repositoryId, user, now);
    assert DeviceOk(log, id, s.devices[id]);
    ApprovedDeviceOk(log, caller, s.devices[id], user, now);
    LogAppend(log, e);
    InLonger(log, e);
    forall ok | ok in log && ok.OkReturned? ensures OkEventOk(s', ok) {
      assert OkEventOk(s, ok);
      assert OkReturnedFor(log, ok.device);
      assert DeviceOk(log, ok.device, s.devices[ok.device]);
    }
    hide DeviceOk;
    forall x | x in s'.devices && x != id ensures DeviceOk(log + [e], x, s'.devices[x]) {
      DeviceStaysOk(log, e, x, s.devices[x]);
    }
  }

  lemma ExpireKeeps(s: Store, log: seq<Event>, id: Id)
    requires DataOk(s, log)
    ensures DataOk(Expire(s, id), log) && Extends(s, log, Expire(s, id), log)
  {
    hide LogOk, DeviceOk;
    var s' := Expire(s, id);
    if id in s.devices && s.devices[id].status == Pending {
      ExpiredDeviceOk(log, id, s.devices[id]);
    }
    forall ok | ok in log && ok.OkReturned? ensures OkEventOk(s', ok) {
      assert OkEventOk(s, ok);
    }
  }

  lemma ExpiredDeviceOk(log: seq<Event>, id: Id, d: Device)
    requires DeviceOk(log, id, d) && d.status == Pending
    ensures DeviceOk(log, id, d.(status := Expired))
  {
  }

  lemma ConsumedDeviceOk(log: seq<Event>, e: Event, d: Device, now: int)
    requires DeviceOk(log, d.id, d) && d.status == Approved && e.OkReturned? && e.device == d.id
    requires WriteChecked(AtIssue, d.id, e.user, e.repo) in log
    ensures EventOk(log, e) && DeviceOk(log + [e], d.id, d.(status := Consumed, consumedAt := now))
  {
    InLonger(log, e);
    AppendedApprovals(log, e, d.id);
  }

  lemma ConsumeKeeps(s: Store, log: seq<Event>, id: Id, caller: nat, code: string, user: Id, repo: RepoRef, now: int)
    requires DataOk(s, log) && Consume(s, id, now).1.Ok?
    requires s.devices[id].approvedUserId == user && CodeOf(s, code, id) && WriteChecked(AtIssue, id, user, repo) in log
    ensures
      var s' := Consume(s, id, now).0;
      var log' := log + [OkReturned(caller, code, id, user, repo)];
      DataOk(s', log') && Extends(s, log, s', log')
  {
    hide HashCode, EventOk, LogOk;
    var s' := Consume(s, id, now).0;
    var e := OkReturned(caller, code, id, user, repo);
    assert DeviceOk(log, id, s.devices[id]);
    ConsumedDeviceOk(log, e, s.devices[id], now);
    LogAppend(log, e);
    InLonger(log, e);
    hide DeviceOk;
    forall x | x in s'.devices && x != id ensures DeviceOk(log + [e], x, s'.devices[x]) {
      DeviceStaysOk(log, e, x, s.devices[x]);
    }
    forall ok | ok in log + [e] && ok.OkReturned? ensures OkEventOk(s', ok) {
      if ok in log {
        assert OkEventOk(s, ok);
      }
    }
  }

  predicate HasEffect(pc: Pc) {
    pc.StartCreate? || pc.UserExpire? || pc.TokenExpire? || pc.ApproveAccess? || pc.ApproveWrite? || pc.ExchangeAccess?
      || pc.TokenConsume?
  }

  /** What a step must establish for its own caller. */
  ghost predicate GoodStep(w: World, w': World, caller: nat) {
    && DataOk(w'.store, w'.log) && Extends(w.store, w.log, w'.store, w'.log)
    && caller in w'.callers && w'.callers == w.callers[caller := w'.callers[caller]]
    && PcOk(w'.store, w'.log, w'.callers[caller])
  }

  lemma ExtendsItself(s: Store, log: seq<Event>)
    ensures Extends(s, log, s, log)
  {
  }

  /** From the repository's name to the exchange. */
  predicate Redeems(pc: Pc) {
    pc.TokenRepository? || pc.MintPrincipal? || pc.MintByName? || pc.MintAccess? || pc.ExchangeResource?
  }

  /** Steps that only read leave the store and the history alone. */
  lemma RedeemStepKeeps(w: World, caller: nat, freshId: Id, ttl: int)
    requires DataOk(w.store, w.log) && caller in w.callers && PcOk(w.store, w.log, w.callers[caller])
    requires Redeems(w.callers[caller])
    ensures GoodStep(w, Step(w, caller, freshId, ttl), caller)
  {
    hide FindByName, Lookup, PrincipalOf, DataOk, Extends, ResourceActive, ReadEarlier, Redeeming, Create, Approve,
         Consume, Expire;
    ExtendsItself(w.store, w.log);
  }

  lemma ClockStepKeeps(w: World, caller: nat, freshId: Id, ttl: int)
    requires DataOk(w.store, w.log) && caller in w.callers && PcOk(w.store, w.log, w.callers[caller])
    requires w.callers[caller].TokenClock?
    ensures GoodStep(w, Step(w, caller, freshId, ttl), caller)
  {
    hide FindByName, DataOk, Extends, ReadEarlier, CodeOf;
    ExtendsItself(w.store, w.log);
  }

  lemma ReadStepKeeps(w: World, caller: nat, freshId: Id, ttl: int)
    requires DataOk(w.store, w.log) && caller in w.callers && PcOk(w.store, w.log, w.callers[caller])
    requires !HasEffect(w.callers[caller]) && !w.callers[caller].UserRead? && !w.callers[caller].TokenRead?
    requires !Redeems(w.callers[caller]) && !w.callers[caller].TokenClock?
    ensures GoodStep(w, Step(w, caller, freshId, ttl), caller)
  {
    hide FindByName, Lookup, PrincipalOf, DataOk, Extends, ResourceActive, ReadEarlier, CodeOf, Create, Approve,
         Consume, Expire;
    ExtendsItself(w.store, w.log);
  }

  /** Reading a device by its code. */
  lemma LookupStepKeeps(w: World, caller: nat, freshId: Id, ttl: int)
    requires DataOk(w.store, w.log) && caller in w.callers
    requires w.callers[caller].UserRead? || w.callers[caller].TokenRead?
    ensures GoodStep(w, Step(w, caller, freshId, ttl), caller)
  {
    hide HashCode, Trim, FindByName, Create, Lookup, PrincipalOf, DataOk, Extends, ResourceActive, ReadEarlier,
         Approve, Consume, Expire;
    ExtendsItself(w.store, w.log);
    match w.callers[caller]
    case UserRead(_, userCode) =>
      if Lookup(w.store, w.store.byUserCode, userCode).Ok? {
        LookupFinds(w.store, w.log, w.store.byUserCode, userCode);
      }
    case TokenRead(code) =>
      if Lookup(w.store, w.store.byDeviceCode, code).Ok? { LookupFinds(w.store, w.log, w.store.byDeviceCode, code); }
  }

  lemma LookupFinds(s: Store, log: seq<Event>, index: map<string, Id>, code: string)
    requires DataOk(s, log) && Lookup(s, index, code).Ok?
    ensures HashCode(code) in index && index[HashCode(code)] == Lookup(s, index, code).value.id
    ensures ReadEarlier(s, Lookup(s, index, code).value)
  {
    hide HashCode;
    assert DeviceOk(log, index[HashCode(code)], s.devices[index[HashCode(code)]]);
  }

  lemma StartStepKeeps(w: World, caller: nat, freshId: Id, ttl: int)
    requires DataOk(w.store, w.log) && caller in w.callers && w.callers[caller].StartCreate?
    ensures GoodStep(w, Step(w, caller, freshId, ttl), caller)
  {
    hide HashCode, Trim, FindByName, DataOk;
    var StartCreate(repositoryId, deviceCode, userCode) := w.callers[caller];
    if freshId !in w.store.devices && HashCode(deviceCode) !in w.store.byDeviceCode
      && HashCode(userCode) !in w.store.byUserCode
       && Create(w.store, freshId, deviceCode, userCode, repositoryId, w.now, ttl).1.Ok? {
      CreateKeeps(w.store, w.log, freshId, deviceCode, userCode, repositoryId, w.now, ttl);
    }
  }

  /** A check is recorded for a device that was started, or that was approved. */
  lemma CheckIsDue(s: Store, log: seq<Event>, stage: Stage, d: Device, user: Id, repo: RepoRef)
    requires DataOk(s, log) && ReadEarlier(s, d)
    requires if stage == AtApproval then repo.id == d.repositoryId else d.status == Approved && user == d.approvedUserId
    ensures d.id in s.devices && EventOk(log, WriteChecked(stage, d.id, user, repo))
  {
    hide LogOk;
    assert DeviceOk(log, d.id, s.devices[d.id]);
    assert DeviceStarted(d.id, d.repositoryId, d.expiresAt) in log;
  }

  /** Checks of write access, recorded in the history. */
  lemma CheckStepKeeps(w: World, caller: nat, freshId: Id, ttl: int)
    requires DataOk(w.store, w.log) && caller in w.callers && PcOk(w.store, w.log, w.callers[caller])
    requires w.callers[caller].ApproveAccess? || w.callers[caller].ExchangeAccess?
    ensures GoodStep(w, Step(w, caller, freshId, ttl), caller)
  {
    hide HashCode, DataOk, EventOk, Extends, ReadEarlier, CodeOf;
    ExtendsItself(w.store, w.log);
    match w.callers[caller]
    case ApproveAccess(user, device, repo) =>
      CheckIsDue(w.store, w.log, AtApproval, device, user, repo);
      AppendCheck(w.store, w.log, WriteChecked(AtApproval, device.id, user, repo));
    case ExchangeAccess(code, device, repo) =>
      CheckIsDue(w.store, w.log, AtIssue, device, device.approvedUserId, repo);
      AppendCheck(w.store, w.log, WriteChecked(AtIssue, device.id, device.approvedUserId, repo));
  }

  /** Steps that move a device. */
  lemma MoveStepKeeps(w: World, caller: nat, freshId: Id, ttl: int)
    requires DataOk(w.store, w.log) && caller in w.callers && PcOk(w.store, w.log, w.callers[caller])
    requires
      var pc := w.callers[caller];
      pc.UserExpire? || pc.TokenExpire? || pc.ApproveWrite? || pc.TokenConsume?
    ensures GoodStep(w, Step(w, caller, freshId, ttl), caller)
  {
    hide HashCode, DataOk, EventOk, Extends, CodeOf, Expire;
    ExtendsItself(w.store, w.log);
    match w.callers[caller]
    case UserExpire(device) => ExpireKeeps(w.store, w.log, device.id);
    case TokenExpire(device) => ExpireKeeps(w.store, w.log, device.id);
    case ApproveWrite(user, device, repo) =>
      if Approve(w.store, device.id, user, w.now).1.Ok? {
        assert repo == RepoRef(device.repositoryId, repo.resourceId);
        assert CheckedForApproval(w.log, device.id, user, device.repositoryId);
        ApproveKeeps(w.store, w.log, caller, device.id, user, w.now);
      }
    case TokenConsume(code, device, repo) =>
      if Consume(w.store, device.id, w.now).1.Ok? {
        ConsumeKeeps(w.store, w.log, device.id, caller, code, device.approvedUserId, repo, w.now);
      }
  }

  /** One step of one caller. */
  lemma StepKeeps(w: World, caller: nat, freshId: Id, ttl: int)
    requires Inv(w) && caller in w.callers
    ensures GoodStep(w, Step(w, caller, freshId, ttl), caller)
  {
    var pc := w.callers[caller];
    hide Step, GoodStep, DataOk, PcOk;
    if pc.StartCreate? {
      StartStepKeeps(w, caller, freshId, ttl);
    } else if pc.ApproveAccess? || pc.ExchangeAccess? {
      CheckStepKeeps(w, caller, freshId, ttl);
    } else if HasEffect(pc) {
      MoveStepKeeps(w, caller, freshId, ttl);
    } else if pc.UserRead? || pc.TokenRead? {
      LookupStepKeeps(w, caller, freshId, ttl);
    } else if pc.TokenClock? {
      ClockStepKeeps(w, caller, freshId, ttl);
    } else if Redeems(pc) {
      RedeemStepKeeps(w, caller, freshId, ttl);
    } else {
      ReadStepKeeps(w, caller, freshId, ttl);
    }
  }

  /** The other callers are undisturbed. */
  lemma GoodStepKeepsInv(w: World, w': World, caller: nat)
    requires Inv(w) && GoodStep(w, w', caller)
    ensures Inv(w')
  {
    hide DataOk, PcOk, Extends;
    forall c | c in w'.callers ensures PcOk(w'.store, w'.log, w'.callers[c]) {
      if c != caller {
        PcStaysOk(w.store, w.log, w'.store, w'.log, w.callers[c]);
      }
    }
  }

  lemma EntryIsOk(s: Store, log: seq<Event>, pc: Pc)
    ensures IsEntry(pc) ==> PcOk(s, log, pc)
  {
  }

  lemma ApplyKeeps(w: World, a: Action)
    requires Inv(w)
    ensures Inv(Apply(w, a))
    ensures Extends(w.store, w.log, Apply(w, a).store, Apply(w, a).log)
  {
    hide DataOk, PcOk, Extends, Step;
    ExtendsItself(w.store, w.log);
    match a
    case Advance(caller, freshId, ttl) =>
      if caller in w.callers {
        StepKeeps(w, caller, freshId, ttl);
        GoodStepKeepsInv(w, Step(w, caller, freshId, ttl), caller);
      }
    case Call(_, pc) => EntryIsOk(w.store, w.log, pc);
    case _ =>
  }

  // ---- the theorems, over every run -----------------------------------------------------------

  lemma {:induction false} EveryRunKeepsInv(w: World, actions: seq<Action>)
    requires Initial(w)
    ensures Inv(Run(w, actions))
  {
    if actions != [] {
      EveryRunKeepsInv(w, actions[..|actions| - 1]);
      ApplyKeeps(Run(w, actions[..|actions| - 1]), actions[|actions| - 1]);
    }
  }

  /** In every interleaving a device, and so a device code, returns "ok" at most once, and
      a device is consumed exactly when it has. */
  lemma TokensAreReturnedOnce(w: World, actions: seq<Action>)
    requires Initial(w)
    ensures
      var end := Run(w, actions);
      && (forall i, j :: 0 <= i < j < |end.log| && end.log[i].OkReturned? && end.log[j].OkReturned? ==>
            end.log[i].device != end.log[j].device && HashCode(end.log[i].code) != HashCode(end.log[j].code))
      && (forall id :: id in end.store.devices ==>
          (end.store.devices[id].status == Consumed <==> OkReturnedFor(end.log, id)))
  {
    hide HashCode;
    var end := Run(w, actions);
    EveryRunKeepsInv(w, actions);
    forall i, j | 0 <= i < j < |end.log| && end.log[i].OkReturned? && end.log[j].OkReturned?
      ensures end.log[i].device != end.log[j].device && HashCode(end.log[i].code) != HashCode(end.log[j].code)
    {
      ReturnsApart(end.store, end.log, i, j);
    }
    forall id | id in end.store.devices
      ensures end.store.devices[id].status == Consumed <==> OkReturnedFor(end.log, id)
    {
      assert DeviceOk(end.log, id, end.store.devices[id]);
    }
  }

  lemma ReturnsApart(s: Store, log: seq<Event>, i: nat, j: nat)
    requires DataOk(s, log) && i < j < |log| && log[i].OkReturned? && log[j].OkReturned?
    ensures log[i].device != log[j].device && HashCode(log[i].code) != HashCode(log[j].code)
  {
    hide HashCode, DeviceOk;
    assert log[i] in log && log[j] in log;
    assert OkEventOk(s, log[i]) && OkEventOk(s, log[j]);
    assert EventOk(log[..j], log[j]);
    assert log[..j][i] in log[..j];
  }

  /** Every approval, whether or not a token follows: it happened once, before the device
      expired, after the device was started for the repository and after write access to
      that repository was checked for the approving user. */
  lemma EveryApprovalIsInTime(w: World, actions: seq<Action>, n: nat)
      returns (started: nat, checked: nat, expiresAt: int)
    requires Initial(w) && n < |Run(w, actions).log| && Run(w, actions).log[n].DeviceApproved?
    ensures
      var log := Run(w, actions).log;
      var e := log[n];
      && started < checked < n && e.at < expiresAt
      && log[started] == DeviceStarted(e.device, e.repositoryId, expiresAt)
      && log[checked].WriteChecked? && log[checked].stage == AtApproval
      && log[checked].device == e.device && log[checked].user == e.user && log[checked].repo.id == e.repositoryId
      && (forall i :: 0 <= i < |log| && log[i].DeviceApproved? && log[i].device == e.device ==> i == n)
  {
    EveryRunKeepsInv(w, actions);
    hide Run, LogOk;
    ApprovedOnce(Run(w, actions).log, n);
    started, checked, expiresAt := BeforeApproval(Run(w, actions).log, n);
  }

  lemma BeforeApproval(log: seq<Event>, n: nat) returns (started: nat, checked: nat, expiresAt: int)
    requires LogOk(log) && n < |log| && log[n].DeviceApproved?
    ensures
      var e := log[n];
      && started < checked < n && e.at < expiresAt
      && log[started] == DeviceStarted(e.device, e.repositoryId, expiresAt)
      && log[checked].WriteChecked? && log[checked].stage == AtApproval
      && log[checked].device == e.device && log[checked].user == e.user && log[checked].repo.id == e.repositoryId
  {
    var e := log[n];
    assert EventOk(log[..n], e);
    expiresAt :| DeviceStarted(e.device, e.repositoryId, expiresAt) in log[..n] && e.at < expiresAt;
    var rid: string :| WriteChecked(AtApproval, e.device, e.user, RepoRef(e.repositoryId, rid)) in log[..n];
    checked := HappenedAt(log, n, WriteChecked(AtApproval, e.device, e.user, RepoRef(e.repositoryId, rid)));
    assert EventOk(log[..checked], log[checked]);
    var x: int :| DeviceStarted(e.device, e.repositoryId, x) in log[..checked];
    started := HappenedAt(log, checked, DeviceStarted(e.device, e.repositoryId, x));
    var other := HappenedAt(log, n, DeviceStarted(e.device, e.repositoryId, expiresAt));
    StartedOnce(log, started, other);
  }

  /** A device is started once and approved once. */
  lemma NothingTwice(log: seq<Event>, i: nat, j: nat)
    requires LogOk(log) && i < j < |log|
    ensures log[i].DeviceApproved? && log[j].DeviceApproved? ==> log[i].device != log[j].device
    ensures log[i].DeviceStarted? && log[j].DeviceStarted? ==> log[i].device != log[j].device
  {
    assert EventOk(log[..j], log[j]);
    assert log[..j][i] in log[..j];
  }

  lemma EachOnce(log: seq<Event>)
    requires LogOk(log)
    ensures forall i, j :: 0 <= i < j < |log| && log[i].DeviceApproved? && log[j].DeviceApproved? ==>
          log[i].device != log[j].device
    ensures forall i, j :: 0 <= i < j < |log| && log[i].DeviceStarted? && log[j].DeviceStarted? ==>
          log[i].device != log[j].device
  {
    hide LogOk;
    forall i, j | 0 <= i < j < |log|
      ensures log[i].DeviceApproved? && log[j].DeviceApproved? ==> log[i].device != log[j].device
      ensures log[i].DeviceStarted? && log[j].DeviceStarted? ==> log[i].device != log[j].device
    {
      NothingTwice(log, i, j);
    }
  }

  lemma ApprovedOnce(log: seq<Event>, n: nat)
    requires LogOk(log) && n < |log| && log[n].DeviceApproved?
    ensures forall i :: 0 <= i < |log| && log[i].DeviceApproved? && log[i].device == log[n].device ==> i == n
  {
    EachOnce(log);
  }

  lemma StartedOnce(log: seq<Event>, i: nat, j: nat)
    requires LogOk(log) && i < |log| && j < |log| && log[i].DeviceStarted? && log[j].DeviceStarted?
    requires log[i].device == log[j].device
    ensures i == j
  {
    EachOnce(log);
  }

  /** In every reachable state a device is approved or consumed exactly when it was approved
      in the history, by the user and at the time of its row, before its expiry. */
  lemma ApprovedDevicesWereApprovedInTime(w: World, actions: seq<Action>, id: Id)
    requires Initial(w) && id in Run(w, actions).store.devices
    ensures
      var end := Run(w, actions);
      var d := end.store.devices[id];
      && (d.status in {Approved, Consumed} <==> ApprovedIn(end.log, id))
      && (d.status in {Approved, Consumed} ==>
            && d.approvedAt < d.expiresAt
            && CheckedForApproval(end.log, id, d.approvedUserId, d.repositoryId)
            && ApprovedAs(end.log, id, d.repositoryId, d.approvedUserId, d.approvedAt))
  {
    var end := Run(w, actions);
    EveryRunKeepsInv(w, actions);
    var d := end.store.devices[id];
    assert DeviceOk(end.log, id, d);
    if d.status in {Approved, Consumed} {
      var c: nat :| DeviceApproved(c, id, d.repositoryId, d.approvedUserId, d.approvedAt) in end.log;
      var e := DeviceApproved(c, id, d.repositoryId, d.approvedUserId, d.approvedAt);
      var n :| 0 <= n < |end.log| && end.log[n] == e;
      var started, checked, expiresAt := EveryApprovalIsInTime(w, actions, n);
      var again :| 0 <= again < |end.log| && end.log[again] == DeviceStarted(id, d.repositoryId, d.expiresAt);
      hide Run;
      StartedOnce(end.log, started, again);
      assert end.log[checked]
        == WriteChecked(AtApproval, id, d.approvedUserId, RepoRef(d.repositoryId, end.log[checked].repo.resourceId));
    }
  }

  /** Every token returned, with what came before it, in order: the device was started for a
      repository; write access to it was checked for the user; the user approved, before the
      expiry; write access was checked again, on the repository of the token; then the token. */
  lemma EveryTokenIsAccountedFor(w: World, actions: seq<Action>, n: nat)
      returns (started: nat, checked: nat, approved: nat, rechecked: nat, expiresAt: int)
    requires Initial(w) && n < |Run(w, actions).log| && Run(w, actions).log[n].OkReturned?
    ensures
      var end := Run(w, actions);
      var log, e := end.log, end.log[n];
      && e.device in end.store.devices
      && var d := end.store.devices[e.device];
      && d.approvedUserId == e.user && d.approvedAt < d.expiresAt == expiresAt
      && started < checked < approved < rechecked < n
      && log[started] == DeviceStarted(e.device, d.repositoryId, expiresAt)
      && log[checked].WriteChecked? && log[checked].stage == AtApproval
      && log[checked].device == e.device && log[checked].user == e.user && log[checked].repo.id == d.repositoryId
      && log[approved].DeviceApproved? && log[approved].device == e.device && log[approved].user == e.user
      && log[approved].repositoryId == d.repositoryId && log[approved].at == d.approvedAt
      && log[rechecked] == WriteChecked(AtIssue, e.device, e.user, e.repo)
  {
    var end := Run(w, actions);
    EveryRunKeepsInv(w, actions);
    hide Run, HashCode;
    rechecked, approved := BeforeToken(end.log, n);
    started, checked, expiresAt := EveryApprovalIsInTime(w, actions, approved);
    TokenDevice(end.store, end.log, n, approved, started);
  }

  lemma BeforeToken(log: seq<Event>, n: nat) returns (rechecked: nat, approved: nat)
    requires LogOk(log) && n < |log| && log[n].OkReturned?
    ensures approved < rechecked < n
    ensures log[rechecked] == WriteChecked(AtIssue, log[n].device, log[n].user, log[n].repo)
    ensures log[approved].DeviceApproved? && log[approved].device == log[n].device && log[approved].user == log[n].user
  {
    var e := log[n];
    assert EventOk(log[..n], e);
    rechecked := HappenedAt(log, n, WriteChecked(AtIssue, e.device, e.user, e.repo));
    assert EventOk(log[..rechecked], log[rechecked]);
    var r: Id, at: int :| ApprovedAs(log[..rechecked], e.device, r, e.user, at);
    var c: nat :| DeviceApproved(c, e.device, r, e.user, at) in log[..rechecked];
    approved := HappenedAt(log, rechecked, DeviceApproved(c, e.device, r, e.user, at));
  }

  /** The row of a device whose token was returned has what its history shows. */
  lemma TokenDevice(s: Store, log: seq<Event>, n: nat, approved: nat, started: nat)
    requires DataOk(s, log) && n < |log| && approved < |log| && started < |log|
    requires log[n].OkReturned? && log[approved].DeviceApproved? && log[started].DeviceStarted?
    requires log[approved].device == log[started].device == log[n].device
    ensures
      var e := log[n];
      && e.device in s.devices
      && var d := s.devices[e.device];
      && d.approvedUserId == e.user
      && log[approved].repositoryId == d.repositoryId && log[approved].user == d.approvedUserId
      && log[approved].at == d.approvedAt
      && log[started] == DeviceStarted(e.device, d.repositoryId, d.expiresAt)
  {
    var e := log[n];
    assert e in log && OkEventOk(s, e);
    assert OkReturnedFor(log, e.device);
    hide LogOk, CodeOf;
    RowMatches(log, e.device, s.devices[e.device], approved, started);
  }

  lemma RowMatches(log: seq<Event>, id: Id, d: Device, approved: nat, started: nat)
    requires LogOk(log) && DeviceOk(log, id, d) && d.status == Consumed
    requires approved < |log| && log[approved].DeviceApproved? && log[approved].device == id
    requires started < |log| && log[started].DeviceStarted? && log[started].device == id
    ensures log[approved].repositoryId == d.repositoryId && log[approved].user == d.approvedUserId
    ensures log[approved].at == d.approvedAt
    ensures log[started] == DeviceStarted(id, d.repositoryId, d.expiresAt)
  {
    hide LogOk, ApprovedIn, OkReturnedFor;
    assert log[..|log|] == log;
    var c: nat :| DeviceApproved(c, id, d.repositoryId, d.approvedUserId, d.approvedAt) in log;
    var known := HappenedAt(log, |log|, DeviceApproved(c, id, d.repositoryId, d.approvedUserId, d.approvedAt));
    var again := HappenedAt(log, |log|, DeviceStarted(id, d.repositoryId, d.expiresAt));
    ApprovedOnce(log, approved);
    StartedOnce(log, started, again);
  }

  predicate Forward(a: Status, b: Status) {
    a == b || (a == Pending) || (a == Approved && b == Consumed)
  }

  /** Along every run a device keeps its repository and expiry, and its status only moves
      from pending to approved to consumed or from pending to expired. */
  lemma {:induction false} StatusesMoveForward(w: World, actions: seq<Action>, id: Id)
    requires Inv(w) && id in w.store.devices
    ensures
      var end := Run(w, actions);
      && Inv(end) && id in end.store.devices
      && SameRequest(w.store.devices[id], end.store.devices[id])
      && Forward(w.store.devices[id].status, end.store.devices[id].status)
  {
    if actions != [] {
      var before := Run(w, actions[..|actions| - 1]);
      StatusesMoveForward(w, actions[..|actions| - 1], id);
      ApplyKeeps(before, actions[|actions| - 1]);
      assert MayBecome(before.store.devices[id], Apply(before, actions[|actions| - 1]).store.devices[id]);
    }
  }
}
