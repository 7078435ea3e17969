/** CLI sign-in sessions: a session is started, completed by a browser login that carries
    its nonce, and redeemed with its code; callers interleave at their store calls. */
module AuthSessions {
  import opened Text
  import opened CoreModel
  import opened History

  type Id = string

  datatype Status = Pending | Completed | Consumed

  datatype Session = Session(id: Id, clientStateHash: string, status: Status, userId: Id, nonce: string,
                             expiresAt: int, completedAt: int, consumedAt: int)

  datatype Store = Store(sessions: map<Id, Session>, byCode: map<string, Id>)

  const EMPTY := Store(map[], map[])

  /** Hashing is injective on the trimmed secret, which stands for its hash. */
  function HashSecret(secret: string): string {
    Trim(secret)
  }

  // ---- the specification of the store calls ---------------------------------------------------

  function Create(s: Store, id: Id, code: string, nonce: string, clientState: string, now: int, ttl: int): Store {
    var session := Session(id, HashSecret(clientState), Pending, "", nonce, now + ttl, 0, 0);
    Store(s.sessions[id := session], s.byCode[HashSecret(code) := id])
  }

  function NotExpired(session: Session, now: int): Result<Session> {
    if session.expiresAt <= now then Err(AuthSessionNotFound) else Ok(session)
  }

  function ByCode(s: Store, code: string, now: int): Result<Session> {
    if HashSecret(code) in s.byCode && s.byCode[HashSecret(code)] in s.sessions
    then NotExpired(s.sessions[s.byCode[HashSecret(code)]], now)
    else Err(AuthSessionNotFound)
  }

  function WithNonce(sessions: map<Id, Session>, nonce: string): set<Id> {
    set id | id in sessions && sessions[id].nonce == nonce
  }

  ghost function ByNonce(s: Store, nonce: string, now: int): Result<Session> {
    if WithNonce(s.sessions, nonce) == {} then Err(AuthSessionNotFound)
    else
      var id :| id in WithNonce(s.sessions, nonce);
      NotExpired(s.sessions[id], now)
  }

  function Complete(s: Store, id: Id, userId: Id, now: int): (Store, Result<()>) {
    if id in s.sessions && s.sessions[id].status == Pending && s.sessions[id].expiresAt > now
    then
      var completed := s.sessions[id].(status := Completed, userId := userId, completedAt := now);
      (s.(sessions := s.sessions[id := completed]), Ok(()))
    else (s, Err(AuthSessionNotFound))
  }

  function Consume(s: Store, id: Id, now: int): (Store, Result<()>) {
    if id in s.sessions && s.sessions[id].status == Completed && s.sessions[id].expiresAt > now
    then (s.(sessions := s.sessions[id := s.sessions[id].(status := Consumed, consumedAt := now)]), Ok(()))
    else (s, Err(AuthSessionNotFound))
  }

  ghost predicate UniqueNonces(sessions: map<Id, Session>) {
    forall a, b :: a in sessions && b in sessions && sessions[a].nonce == sessions[b].nonce ==> a == b
  }

  predicate SameSession(a: Session, b: Session) {
    a.id == b.id && a.clientStateHash == b.clientStateHash && a.nonce == b.nonce && a.expiresAt == b.expiresAt
  }

  /** One session may have moved, with its secrets and expiry kept; the rest are untouched. */
  predicate OnlyMoves(before: map<Id, Session>, after: map<Id, Session>, id: Id) {
    && before.Keys == after.Keys
    && forall x :: x in before ==> if x == id then SameSession(before[x], after[x]) else before[x] == after[x]
  }

  // ---- the store, updated in place --------------------------------------------------------------

  class SessionTable {
    var sessions: map<Id, Session>
    var byCode: map<string, Id>

    ghost function Contents(): Store
      reads this
    {
      Store(sessions, byCode)
    }

    constructor ()
      ensures Contents() == EMPTY
    {
      sessions, byCode := map[], map[];
    }

    method CreateAuthSession(id: Id, code: string, nonce: string, clientState: string, now: int, ttl: int)
      modifies this
      ensures Contents() == Create(old(Contents()), id, code, nonce, clientState, now, ttl)
    {
      var session := Session(id, HashSecret(clientState), Pending, "", nonce, now + ttl, 0, 0);
      byCode := byCode[HashSecret(code) := session.id];
      sessions := sessions[session.id := session];
    }

    method GetAuthSessionByCode(code: string, now: int) returns (r: Result<Session>)
      ensures r == ByCode(Contents(), code, now)
    {
      if HashSecret(code) !in byCode || byCode[HashSecret(code)] !in sessions {
        return Err(AuthSessionNotFound);
      }
      var session := sessions[byCode[HashSecret(code)]];
      if session.expiresAt <= now {
        return Err(AuthSessionNotFound);
      }
      return Ok(session);
    }

    /** Nonces are fresh secrets, so the search finds the one session there can be. */
    method GetAuthSessionByNonce(nonce: string, now: int) returns (r: Result<Session>)
      requires UniqueNonces(sessions)
      ensures r == ByNonce(Contents(), nonce, now)
    {
      var ids := sessions.Keys;
      while ids != {}
        invariant ids <= sessions.Keys
        invariant forall id :: id in sessions && id !in ids ==> sessions[id].nonce != nonce
        decreases |ids|
      {
        var id :| id in ids;
        if sessions[id].nonce == nonce {
          assert WithNonce(sessions, nonce) == {id};
          return NotExpired(sessions[id], now);
        }
        ids := ids - {id};
      }
      return Err(AuthSessionNotFound);
    }

    method CompleteAuthSession(id: Id, userId: Id, now: int) returns (r: Result<()>)
      modifies this`sessions
      ensures (Contents(), r) == Complete(old(Contents()), id, userId, now)
      ensures OnlyMoves(old(sessions), sessions, id) && (r.Err? ==> sessions == old(sessions))
      ensures r.Ok? ==> old(sessions)[id].status == Pending && now < sessions[id].expiresAt
                        && sessions[id].status == Completed && sessions[id].userId == userId
                        && sessions[id].completedAt == now
    {
      if id !in sessions || sessions[id].status != Pending || sessions[id].expiresAt <= now {
        return Err(AuthSessionNotFound);
      }
      sessions := sessions[id := sessions[id].(status := Completed, userId := userId, completedAt := now)];
      return Ok(());
    }

    method ConsumeAuthSession(id: Id, now: int) returns (r: Result<()>)
      modifies this`sessions
      ensures (Contents(), r) == Consume(old(Contents()), id, now)
      ensures OnlyMoves(old(sessions), sessions, id) && (r.Err? ==> sessions == old(sessions))
      ensures r.Ok? ==> old(sessions)[id].status == Completed && now < sessions[id].expiresAt
                        && sessions[id].status == Consumed && sessions[id].userId == old(sessions)[id].userId
                        && sessions[id].completedAt == old(sessions)[id].completedAt && sessions[id].consumedAt == now
    {
      if id !in sessions || sessions[id].status != Completed || sessions[id].expiresAt <= now {
        return Err(AuthSessionNotFound);
      }
      sessions := sessions[id := sessions[id].(status := Consumed, consumedAt := now)];
      return Ok(());
    }
  }

  // ---- callers, interleaved -----------------------------------------------------------------------

  datatype Outcome =
    | Failed(error: CoreError)
    | Started(code: string, nonce: string)
    | NotReady
    | TokenReady(user: Id)
    | UnknownUser
    | CliComplete(user: Id)
    | BrowserSession(user: Id)

  datatype Pc =
    | Done(outcome: Outcome)
    | StartCreate(clientState: string, ttl: int)
    | GetRead(code: string, clientState: string)
    | GetCheck(code: string, clientState: string, session: Session)
    | GetMint(code: string, clientState: string, session: Session)
    | GetConsume(code: string, clientState: string, session: Session)
    | LoginResolve(identity: string, nonce: string)
    | LoginFind(user: Id, nonce: string)
    | LoginComplete(user: Id, session: Session)

  /** The history of a run. */
  datatype Event =
    | SessionStarted(session: Id, clientState: string, nonce: string, expiresAt: int)
    | SignedIn(user: Id, nonce: string)
    | SessionCompleted(caller: nat, session: Id, user: Id, at: int)
    | TokenReturned(caller: nat, session: Id, code: string, clientState: string, user: Id, at: int)

  /** `logins` is what resolving each external identity would give; none means unknown. */
  datatype World = World(now: int, store: Store, logins: map<string, Result<Id>>, accounts: map<Id, bool>,
                         callers: map<nat, Pc>, log: seq<Event>)

  /** The secrets a step may draw. */
  datatype Draw = Draw(id: Id, code: string, nonce: string)

  datatype Action =
    | Tick(later: int)
    | ChangeLogins(logins: map<string, Result<Id>>)
    | ChangeAccounts(accounts: map<Id, bool>)
    | Call(caller: nat, pc: Pc)
    | Advance(caller: nat, draw: Draw)

  const MISMATCH := InvalidArgument("client_state mismatch")

  predicate IsEntry(pc: Pc) {
    pc.StartCreate? || pc.GetRead? || pc.LoginResolve?
  }

  function At(w: World, caller: nat, pc: Pc): World {
    w.(callers := w.callers[caller := pc])
  }

  function Finish(w: World, caller: nat, outcome: Outcome): World {
    At(w, caller, Done(outcome))
  }

  /** Drawn secrets never collide with earlier ones. */
  predicate Fresh(s: Store, draw: Draw) {
    && draw.id !in s.sessions && HashSecret(draw.code) !in s.byCode
    && forall id :: id in s.sessions ==> s.sessions[id].nonce != draw.nonce
  }

  ghost function Step(w: World, caller: nat, draw: Draw): World
    requires caller in w.callers
  {
    match w.callers[caller]
    case Done(_) => w
    case StartCreate(clientState, ttl) =>
      if !Fresh(w.store, draw) then w
      else
        Finish(w.(store := Create(w.store, draw.id, draw.code, draw.nonce, clientState, w.now, ttl),
                  log := w.log + [SessionStarted(draw.id, clientState, draw.nonce, w.now + ttl)]),
               caller, Started(draw.code, draw.nonce))
    case GetRead(code, clientState) =>
      (match ByCode(w.store, code, w.now)
       case Ok(session) => At(w, caller, GetCheck(code, clientState, session))
       case Err(_) => Finish(w, caller, Failed(AuthSessionNotFound)))
    case GetCheck(code, clientState, session) =>
      if session.expiresAt <= w.now then Finish(w, caller, Failed(AuthSessionNotFound))
      else if session.clientStateHash != HashSecret(clientState) then
        Finish(w, caller, Failed(MISMATCH))
      else if session.status != Completed || session.userId == "" then Finish(w, caller, NotReady)
      else At(w, caller, GetMint(code, clientState, session))
    case GetMint(code, clientState, session) =>
      // The token is then signed and recorded; the session is consumed only afterwards.
      (match PrincipalOf(w.accounts, session.userId)
       case Ok(_) => At(w, caller, GetConsume(code, clientState, session))
       case Err(e) => Finish(w, caller, Failed(e)))
    case GetConsume(code, clientState, session) =>
      var (store, r) := Consume(w.store, session.id, w.now);
      (match r
       case Ok(_) =>
         var e := TokenReturned(caller, session.id, code, clientState, session.userId, w.now);
         Finish(w.(store := store, log := w.log + [e]), caller, TokenReady(session.userId))
       case Err(e) => Finish(w, caller, Failed(e)))
    case LoginResolve(identity, nonce) =>
      (match if identity in w.logins then w.logins[identity] else Err(NotFound)
       case Ok(user) =>
         var signedIn := w.(log := w.log + [SignedIn(user, nonce)]);
         if nonce == "" then Finish(signedIn, caller, BrowserSession(user))
         else At(signedIn, caller, LoginFind(user, nonce))
       case Err(NotFound) => Finish(w, caller, UnknownUser)
       case Err(e) => Finish(w, caller, Failed(e)))
    case LoginFind(user, nonce) =>
      (match ByNonce(w.store, nonce, w.now)
       case Ok(session) => At(w, caller, LoginComplete(user, session))
       case Err(_) => Finish(w, caller, BrowserSession(user)))
    case LoginComplete(user, session) =>
      var (store, r) := Complete(w.store, session.id, user, w.now);
      (match r
       case Ok(_) =>
         Finish(w.(store := store, log := w.log + [SessionCompleted(caller, session.id, user, w.now)]), caller,
                CliComplete(user))
       case Err(e) => Finish(w, caller, Failed(e)))
  }

  ghost function Apply(w: World, a: Action): World {
    match a
    case Tick(later) => if later >= w.now then w.(now := later) else w
    case ChangeLogins(logins) => w.(logins := logins)
    case ChangeAccounts(accounts) => w.(accounts := accounts)
    case Call(caller, pc) => if caller !in w.callers && IsEntry(pc) then At(w, caller, pc) else w
    case Advance(caller, draw) => if caller in w.callers then Step(w, caller, draw) else w
  }

  ghost predicate Initial(w: World) {
    w.store == EMPTY && w.callers == map[] && w.log == []
  }

  ghost function Run(w: World, actions: seq<Action>): World {
    if actions == [] then w else Apply(Run(w, actions[..|actions| - 1]), actions[|actions| - 1])
  }

  // ---- what every step keeps ------------------------------------------------------------------------

  ghost predicate StartedIn(log: seq<Event>, id: Id) {
    exists e :: e in log && e.SessionStarted? && e.session == id
  }

  ghost predicate CompletedIn(log: seq<Event>, id: Id) {
    exists e :: e in log && e.SessionCompleted? && e.session == id
  }

  ghost predicate CompletedBy(log: seq<Event>, id: Id, user: Id, at: int) {
    exists c: nat :: SessionCompleted(c, id, user, at) in log
  }

  ghost predicate ReturnedFor(log: seq<Event>, id: Id) {
    exists e :: e in log && e.TokenReturned? && e.session == id
  }

  /** What must have happened before an event. */
  ghost predicate EventOk(before: seq<Event>, e: Event) {
    match e
    case SessionStarted(id, _, _, _) => !StartedIn(before, id)
    case SignedIn(_, _) => true
    case SessionCompleted(_, id, user, at) =>
      && !CompletedIn(before, id)
      && exists cs: string, nonce: string, expiresAt: int ::
           SessionStarted(id, cs, nonce, expiresAt) in before && at < expiresAt && SignedIn(user, nonce) in before
    case TokenReturned(_, id, _, cs, user, at) =>
      && !ReturnedFor(before, id)
      && (exists completed: int :: CompletedBy(before, id, user, completed))
      && exists started: string, nonce: string, expiresAt: int ::
           SessionStarted(id, started, nonce, expiresAt) in before && at < expiresAt
             && HashSecret(started) == HashSecret(cs)
  }

  /** Every event of the history came after what it needs. */
  ghost predicate LogOk(log: seq<Event>) {
    Justified(EventOk, log)
  }

  /** A session's history matches its row. */
  ghost predicate SessionOk(log: seq<Event>, id: Id, x: Session) {
    && x.id == id
    && (exists cs: string :: SessionStarted(id, cs, x.nonce, x.expiresAt) in log && x.clientStateHash == HashSecret(cs))
    && (x.status != Pending <==> CompletedIn(log, id))
    && (x.status != Pending ==> CompletedBy(log, id, x.userId, x.completedAt))
    && (x.status == Consumed <==> ReturnedFor(log, id))
  }

  predicate About(e: Event, id: Id) {
    !e.SignedIn? && e.session == id
  }

  /** A token's code is the code of its session. */
  ghost predicate CodeOk(s: Store, e: Event)
    requires e.TokenReturned?
  {
    HashSecret(e.code) in s.byCode && s.byCode[HashSecret(e.code)] == e.session
  }

  ghost predicate DataOk(s: Store, log: seq<Event>) {
    && LogOk(log)
    && (forall id :: id in s.sessions ==> SessionOk(log, id, s.sessions[id]))
    && (forall e :: e in log && !e.SignedIn? ==> e.session in s.sessions)
    && (forall h :: h in s.byCode ==> s.byCode[h] in s.sessions)
    && (forall e :: e in log && e.TokenReturned? ==> CodeOk(s, e))
    && UniqueNonces(s.sessions)
  }

  /** A session read earlier, against the store now. */
  ghost predicate ReadEarlier(s: Store, x: Session) {
    && x.id in s.sessions
    && var y := s.sessions[x.id];
    && y.clientStateHash == x.clientStateHash && y.nonce == x.nonce && y.expiresAt == x.expiresAt
    && (x.status != Pending ==> y.status != Pending && y.userId == x.userId)
  }

  ghost predicate Redeems(s: Store, code: string, x: Session) {
    ReadEarlier(s, x) && HashSecret(code) in s.byCode && s.byCode[HashSecret(code)] == x.id
  }

  ghost predicate PcOk(s: Store, log: seq<Event>, pc: Pc) {
    match pc
    case GetCheck(code, _, x) => Redeems(s, code, x)
    case GetMint(code, cs, x) => Redeems(s, code, x) && x.status == Completed && x.clientStateHash == HashSecret(cs)
    case GetConsume(code, cs, x) => Redeems(s, code, x) && x.status == Completed && x.clientStateHash == HashSecret(cs)
    case LoginFind(user, nonce) => SignedIn(user, nonce) in log
    case LoginComplete(user, x) => ReadEarlier(s, x) && SignedIn(user, x.nonce) in log
    case _ => true
  }

  ghost predicate Inv(w: World) {
    && DataOk(w.store, w.log)
    && forall c :: c in w.callers ==> PcOk(w.store, w.log, w.callers[c])
  }

  function Rank(s: Status): nat {
    match s
    case Pending => 0
    case Completed => 1
    case Consumed => 2
  }

  /** The moves a session may make, forward only. */
  predicate MayBecome(a: Session, b: Session) {
    && SameSession(a, b)
    && Rank(a.status) <= Rank(b.status) <= Rank(a.status) + 1
    && (a.status == b.status ==> a == b)
    && (a.status != Pending ==> a.userId == b.userId && a.completedAt == b.completedAt)
  }

  ghost predicate Extends(s: Store, log: seq<Event>, s': Store, log': seq<Event>) {
    && log <= log'
    && (forall id :: id in s.sessions ==> id in s'.sessions && MayBecome(s.sessions[id], s'.sessions[id]))
    && (forall h :: h in s.byCode ==> h in s'.byCode && s'.byCode[h] == s.byCode[h])
  }

  lemma PcStaysOk(s: Store, log: seq<Event>, s': Store, log': seq<Event>, pc: Pc)
    requires Extends(s, log, s', log') && PcOk(s, log, pc)
    ensures PcOk(s', log', pc)
  {
    hide HashSecret;
    match pc
    case LoginFind(user, nonce) => InPrefix(log, log', SignedIn(user, nonce));
    case LoginComplete(user, x) => InPrefix(log, log', SignedIn(user, x.nonce));
    case _ =>
  }

  lemma LogAppend(log: seq<Event>, e: Event)
    requires LogOk(log) && EventOk(log, e)
    ensures LogOk(log + [e])
  {
    AppendJustified(EventOk, log, e);
  }

  lemma Appended(log: seq<Event>, e: Event, id: Id)
    ensures CompletedIn(log + [e], id) <==> CompletedIn(log, id) || (e.SessionCompleted? && e.session == id)
    ensures ReturnedFor(log + [e], id) <==> ReturnedFor(log, id) || (e.TokenReturned? && e.session == id)
  {
    InLonger(log, e);
    assert e in log + [e];
    if CompletedIn(log, id) {
      var x :| x in log && x.SessionCompleted? && x.session == id;
      assert x in log + [e];
    }
    if ReturnedFor(log, id) {
      var x :| x in log && x.TokenReturned? && x.session == id;
      assert x in log + [e];
    }
  }

  /** A session moves with the event about it; events about others change nothing. */
  lemma SessionFollows(log: seq<Event>, e: Event, id: Id, x: Session, x': Session)
    requires SessionOk(log, id, x) && SameSession(x, x')
    requires
      || (!About(e, id) && x' == x)
      || (x.status == Pending && x'.status == Completed && e.SessionCompleted?
          && e.session == id && e.user == x'.userId && e.at == x'.completedAt)
      || (x.status == Completed && x'.status == Consumed && x'.userId == x.userId && x'.completedAt == x.completedAt
          && e.TokenReturned? && e.session == id)
    ensures SessionOk(log + [e], id, x')
  {
    hide HashSecret, CompletedIn, ReturnedFor;
    InLonger(log, e);
    Appended(log, e, id);
  }

  lemma StartedSessionOk(log: seq<Event>, x: Session, cs: string)
    requires x.status == Pending && x.clientStateHash == HashSecret(cs) && forall e :: e in log ==> !About(e, x.id)
    ensures
      var e := SessionStarted(x.id, cs, x.nonce, x.expiresAt);
      EventOk(log, e) && SessionOk(log + [e], x.id, x)
  {
    hide HashSecret;
    InLonger(log, SessionStarted(x.id, cs, x.nonce, x.expiresAt));
  }

  lemma NewNonceIsUnique(sessions: map<Id, Session>, x: Session)
    requires UniqueNonces(sessions) && forall id :: id in sessions ==> sessions[id].nonce != x.nonce
    ensures UniqueNonces(sessions[x.id := x])
  {
  }

  lemma CreateKeeps(s: Store, log: seq<Event>, draw: Draw, cs: string, now: int, ttl: int)
    requires DataOk(s, log) && Fresh(s, draw)
    ensures
      var s' := Create(s, draw.id, draw.code, draw.nonce, cs, now, ttl);
      var log' := log + [SessionStarted(draw.id, cs, draw.nonce, now + ttl)];
      DataOk(s', log') && Extends(s, log, s', log')
  {
    hide HashSecret, SessionOk, EventOk, LogOk, UniqueNonces;
    var s' := Create(s, draw.id, draw.code, draw.nonce, cs, now, ttl);
    var e := SessionStarted(draw.id, cs, draw.nonce, now + ttl);
    StartedSessionOk(log, s'.sessions[draw.id], cs);
    NewNonceIsUnique(s.sessions, s'.sessions[draw.id]);
    LogAppend(log, e);
    InLonger(log, e);
    forall id | id in s'.sessions && id != draw.id ensures SessionOk(log + [e], id, s'.sessions[id]) {
      SessionFollows(log, e, id, s.sessions[id], s.sessions[id]);
    }
    forall t | t in log + [e] && t.TokenReturned? ensures CodeOk(s', t) {
      assert CodeOk(s, t);
    }
  }

  lemma SignInKeeps(s: Store, log: seq<Event>, user: Id, nonce: string)
    requires DataOk(s, log)
    ensures DataOk(s, log + [SignedIn(user, nonce)]) && Extends(s, log, s, log + [SignedIn(user, nonce)])
  {
    hide HashSecret, SessionOk, LogOk;
    var e := SignedIn(user, nonce);
    LogAppend(log, e);
    InLonger(log, e);
    forall id | id in s.sessions ensures SessionOk(log + [e], id, s.sessions[id]) {
      SessionFollows(log, e, id, s.sessions[id], s.sessions[id]);
    }
  }

  lemma NoncesStayUnique(sessions: map<Id, Session>, id: Id, x: Session)
    requires UniqueNonces(sessions) && id in sessions && x.nonce == sessions[id].nonce
    ensures UniqueNonces(sessions[id := x])
  {
  }

  /** An event about one session, with its move. */
  lemma MoveKeeps(s: Store, log: seq<Event>, id: Id, x': Session, e: Event)
    requires DataOk(s, log) && id in s.sessions && MayBecome(s.sessions[id], x')
    requires !e.SignedIn? && e.session == id && EventOk(log, e) && SessionOk(log + [e], id, x')
    requires e.TokenReturned? ==> CodeOk(s, e)
    ensures
      var s' := s.(sessions := s.sessions[id := x']);
      DataOk(s', log + [e]) && Extends(s, log, s', log + [e])
  {
    hide HashSecret, SessionOk, EventOk, LogOk, UniqueNonces;
    var s' := s.(sessions := s.sessions[id := x']);
    LogAppend(log, e);
    InLonger(log, e);
    NoncesStayUnique(s.sessions, id, x');
    forall y | y in s'.sessions && y != id ensures SessionOk(log + [e], y, s'.sessions[y]) {
      SessionFollows(log, e, y, s.sessions[y], s.sessions[y]);
    }
    forall t | t in log + [e] && t.TokenReturned? ensures CodeOk(s', t) {
      if t in log { assert CodeOk(s, t); }
    }
  }

  lemma CompleteKeeps(s: Store, log: seq<Event>, caller: nat, id: Id, user: Id, now: int)
    requires DataOk(s, log) && Complete(s, id, user, now).1.Ok? && SignedIn(user, s.sessions[id].nonce) in log
    ensures
      var s' := Complete(s, id, user, now).0;
      var log' := log + [SessionCompleted(caller, id, user, now)];
      DataOk(s', log') && Extends(s, log, s', log')
  {
    var x := s.sessions[id];
    var x' := x.(status := Completed, userId := user, completedAt := now);
    var e := SessionCompleted(caller, id, user, now);
    CompletionIsDue(log, caller, id, x, user, now);
    hide DataOk, HashSecret, EventOk, SessionOk, Extends;
    MoveKeeps(s, log, id, x', e);
  }

  lemma CompletionIsDue(log: seq<Event>, caller: nat, id: Id, x: Session, user: Id, now: int)
    requires SessionOk(log, id, x) && x.status == Pending && now < x.expiresAt && SignedIn(user, x.nonce) in log
    ensures EventOk(log, SessionCompleted(caller, id, user, now))
    ensures SessionOk(log + [SessionCompleted(caller, id, user, now)], id,
                      x.(status := Completed, userId := user, completedAt := now))
  {
    hide HashSecret;
    SessionFollows(log, SessionCompleted(caller, id, user, now), id, x,
                   x.(status := Completed, userId := user, completedAt := now));
  }

  lemma ConsumeKeeps(s: Store, log: seq<Event>, caller: nat, code: string, cs: string, id: Id, user: Id, now: int)
    requires DataOk(s, log) && Consume(s, id, now).1.Ok?
    requires HashSecret(code) in s.byCode && s.byCode[HashSecret(code)] == id
    requires s.sessions[id].userId == user && s.sessions[id].clientStateHash == HashSecret(cs)
    ensures
      var s' := Consume(s, id, now).0;
      var log' := log + [TokenReturned(caller, id, code, cs, user, now)];
      DataOk(s', log') && Extends(s, log, s', log')
  {
    var x := s.sessions[id];
    var x' := x.(status := Consumed, consumedAt := now);
    var e := TokenReturned(caller, id, code, cs, user, now);
    ReturnIsDue(log, caller, id, x, code, cs, now);
    hide DataOk, HashSecret, EventOk, SessionOk, Extends;
    MoveKeeps(s, log, id, x', e);
  }

  lemma ReturnIsDue(log: seq<Event>, caller: nat, id: Id, x: Session, code: string, cs: string, now: int)
    requires SessionOk(log, id, x) && x.status == Completed && now < x.expiresAt && x.clientStateHash == HashSecret(cs)
    ensures EventOk(log, TokenReturned(caller, id, code, cs, x.userId, now))
    ensures SessionOk(log + [TokenReturned(caller, id, code, cs, x.userId, now)], id,
                      x.(status := Consumed, consumedAt := now))
  {
    hide HashSecret;
    SessionFollows(log, TokenReturned(caller, id, code, cs, x.userId, now), id, x,
                   x.(status := Consumed, consumedAt := now));
  }

  /** What a step must establish for its own caller. */
  ghost predicate GoodStep(w: World, w': World, caller: nat) {
    && DataOk(w'.store, w'.log) && Extends(w.store, w.log, w'.store, w'.log)
    && caller in w'.callers && w'.callers == w.callers[caller := w'.callers[caller]]
    && PcOk(w'.store, w'.log, w'.callers[caller])
  }

  lemma ExtendsItself(s: Store, log: seq<Event>)
    ensures Extends(s, log, s, log)
  {
  }

  predicate HasEffect(pc: Pc) {
    pc.StartCreate? || pc.GetConsume? || pc.LoginResolve? || pc.LoginComplete?
  }

  /** Steps that only read leave the store and the history alone. */
  lemma ReadStepKeeps(w: World, caller: nat, draw: Draw)
    requires DataOk(w.store, w.log) && caller in w.callers && PcOk(w.store, w.log, w.callers[caller])
    requires !HasEffect(w.callers[caller])
    ensures GoodStep(w, Step(w, caller, draw), caller)
  {
    hide HashSecret, DataOk, Extends, PrincipalOf, ByCode, ByNonce;
    ExtendsItself(w.store, w.log);
    match w.callers[caller]
    case GetRead(code, _) =>
      if ByCode(w.store, code, w.now).Ok? { CodeFinds(w.store, w.log, code, w.now); }
    case LoginFind(_, nonce) =>
      if ByNonce(w.store, nonce, w.now).Ok? { NonceFinds(w.store, w.log, nonce, w.now); }
    case _ =>
  }

  /** Steps that change the store or are recorded in the history. */
  lemma EffectStepKeeps(w: World, caller: nat, draw: Draw)
    requires DataOk(w.store, w.log) && caller in w.callers && PcOk(w.store, w.log, w.callers[caller])
    requires HasEffect(w.callers[caller])
    ensures GoodStep(w, Step(w, caller, draw), caller)
  {
    hide HashSecret, Fresh, Create, DataOk, Extends;
    ExtendsItself(w.store, w.log);
    match w.callers[caller]
    case StartCreate(cs, ttl) =>
      if Fresh(w.store, draw) { CreateKeeps(w.store, w.log, draw, cs, w.now, ttl); }
    case LoginResolve(identity, nonce) =>
      if identity in w.logins && w.logins[identity].Ok? {
        SignInKeeps(w.store, w.log, w.logins[identity].value, nonce);
      }
    case LoginComplete(user, x) =>
      if Complete(w.store, x.id, user, w.now).1.Ok? { CompleteKeeps(w.store, w.log, caller, x.id, user, w.now); }
    case GetConsume(code, cs, x) =>
      if Consume(w.store, x.id, w.now).1.Ok? { ConsumeKeeps(w.store, w.log, caller, code, cs, x.id, x.userId, w.now); }
  }

  lemma StepKeeps(w: World, caller: nat, draw: Draw)
    requires DataOk(w.store, w.log) && caller in w.callers && PcOk(w.store, w.log, w.callers[caller])
    ensures GoodStep(w, Step(w, caller, draw), caller)
  {
    hide Step, GoodStep, DataOk, PcOk;
    if HasEffect(w.callers[caller]) {
      EffectStepKeeps(w, caller, draw);
    } else {
      ReadStepKeeps(w, caller, draw);
    }
  }

  lemma CodeFinds(s: Store, log: seq<Event>, code: string, now: int)
    requires DataOk(s, log) && ByCode(s, code, now).Ok?
    ensures Redeems(s, code, ByCode(s, code, now).value)
  {
    hide HashSecret, LogOk;
    var id := s.byCode[HashSecret(code)];
    assert SessionOk(log, id, s.sessions[id]);
  }

  lemma NonceFinds(s: Store, log: seq<Event>, nonce: string, now: int)
    requires DataOk(s, log) && ByNonce(s, nonce, now).Ok?
    ensures ReadEarlier(s, ByNonce(s, nonce, now).value) && ByNonce(s, nonce, now).value.nonce == nonce
  {
    hide HashSecret, LogOk;
    var id :| id in WithNonce(s.sessions, nonce) && s.sessions[id] == ByNonce(s, nonce, now).value;
    assert SessionOk(log, id, s.sessions[id]);
  }

  /** The other callers are undisturbed. */
  lemma GoodStepKeepsInv(w: World, w': World, caller: nat)
    requires Inv(w) && GoodStep(w, w', caller)
    ensures Inv(w')
  {
    hide DataOk, PcOk, Extends;
    forall c | c in w'.callers ensures PcOk(w'.store, w'.log, w'.callers[c]) {
      if c != caller {
        PcStaysOk(w.store, w.log, w'.store, w'.log, w.callers[c]);
      }
    }
  }

  lemma EntryIsOk(s: Store, log: seq<Event>, pc: Pc)
    ensures IsEntry(pc) ==> PcOk(s, log, pc)
  {
  }

  lemma ApplyKeeps(w: World, a: Action)
    requires Inv(w)
    ensures Inv(Apply(w, a))
    ensures Extends(w.store, w.log, Apply(w, a).store, Apply(w, a).log)
  {
    hide DataOk, PcOk, Extends, Step;
    ExtendsItself(w.store, w.log);
    match a
    case Advance(caller, draw) =>
      if caller in w.callers {
        StepKeeps(w, caller, draw);
        GoodStepKeepsInv(w, Step(w, caller, draw), caller);
      }
    case Call(_, pc) => EntryIsOk(w.store, w.log, pc);
    case _ =>
  }

  // ---- the theorems, over every run ---------------------------------------------------------------------

  lemma {:induction false} EveryRunKeepsInv(w: World, actions: seq<Action>)
    requires Initial(w)
    ensures Inv(Run(w, actions))
  {
    if actions != [] {
      EveryRunKeepsInv(w, actions[..|actions| - 1]);
      ApplyKeeps(Run(w, actions[..|actions| - 1]), actions[|actions| - 1]);
    }
  }

  /** In every interleaving each session, and each session code, returns a token at most
      once, and is consumed exactly when it has. */
  lemma TokensAreReturnedOnce(w: World, actions: seq<Action>)
    requires Initial(w)
    ensures
      var end := Run(w, actions);
      && (forall i, j :: 0 <= i < j < |end.log| && end.log[i].TokenReturned? && end.log[j].TokenReturned? ==>
            end.log[i].session != end.log[j].session && HashSecret(end.log[i].code) != HashSecret(end.log[j].code))
      && (forall id :: id in end.store.sessions ==>
          (end.store.sessions[id].status == Consumed <==> ReturnedFor(end.log, id)))
  {
    hide HashSecret;
    var end := Run(w, actions);
    EveryRunKeepsInv(w, actions);
    forall i, j | 0 <= i < j < |end.log| && end.log[i].TokenReturned? && end.log[j].TokenReturned?
      ensures end.log[i].session != end.log[j].session && HashSecret(end.log[i].code) != HashSecret(end.log[j].code)
    {
      NothingTwice(end.log, i, j);
      assert end.log[i] in end.log && end.log[j] in end.log;
      assert CodeOk(end.store, end.log[i]) && CodeOk(end.store, end.log[j]);
    }
    forall id | id in end.store.sessions
      ensures end.store.sessions[id].status == Consumed <==> ReturnedFor(end.log, id)
    {
      assert SessionOk(end.log, id, end.store.sessions[id]);
    }
  }

  /** A session is started, completed and redeemed once each. */
  lemma NothingTwice(log: seq<Event>, i: nat, j: nat)
    requires LogOk(log) && i < j < |log|
    ensures log[i].SessionStarted? && log[j].SessionStarted? ==> log[i].session != log[j].session
    ensures log[i].SessionCompleted? && log[j].SessionCompleted? ==> log[i].session != log[j].session
    ensures log[i].TokenReturned? && log[j].TokenReturned? ==> log[i].session != log[j].session
  {
    hide HashSecret;
    assert EventOk(log[..j], log[j]);
    assert log[..j][i] in log[..j];
  }

  lemma EachOnce(log: seq<Event>)
    requires LogOk(log)
    ensures forall i, j :: 0 <= i < j < |log| && log[i].SessionStarted? && log[j].SessionStarted? ==>
          log[i].session != log[j].session
    ensures forall i, j :: 0 <= i < j < |log| && log[i].SessionCompleted? && log[j].SessionCompleted? ==>
          log[i].session != log[j].session
  {
    hide LogOk;
    forall i, j | 0 <= i < j < |log|
      ensures log[i].SessionStarted? && log[j].SessionStarted? ==> log[i].session != log[j].session
      ensures log[i].SessionCompleted? && log[j].SessionCompleted? ==> log[i].session != log[j].session
    {
      NothingTwice(log, i, j);
    }
  }

  /** Every completion, whether or not it is redeemed: it happened once, before the session
      expired, after the session was started and after its user signed in with its nonce. */
  lemma EveryCompletionIsAccountedFor(w: World, actions: seq<Action>, n: nat) returns (started: nat, signedIn: nat)
    requires Initial(w) && n < |Run(w, actions).log| && Run(w, actions).log[n].SessionCompleted?
    ensures
      var log := Run(w, actions).log;
      var e := log[n];
      && started < n && signedIn < n
      && log[started].SessionStarted? && log[started].session == e.session && e.at < log[started].expiresAt
      && log[signedIn] == SignedIn(e.user, log[started].nonce)
      && (forall i :: 0 <= i < |log| && log[i].SessionCompleted? && log[i].session == e.session ==> i == n)
  {
    EveryRunKeepsInv(w, actions);
    hide Run, LogOk, HashSecret;
    started, signedIn := BeforeCompletion(Run(w, actions).log, n);
    EachOnce(Run(w, actions).log);
  }

  lemma BeforeCompletion(log: seq<Event>, n: nat) returns (started: nat, signedIn: nat)
    requires LogOk(log) && n < |log| && log[n].SessionCompleted?
    ensures
      var e := log[n];
      && started < n && signedIn < n
      && log[started].SessionStarted? && log[started].session == e.session && e.at < log[started].expiresAt
      && log[signedIn] == SignedIn(e.user, log[started].nonce)
  {
    hide HashSecret;
    var e := log[n];
    assert EventOk(log[..n], e);
    var cs: string, nonce: string, expiresAt: int :|
      SessionStarted(e.session, cs, nonce, expiresAt) in log[..n] && e.at < expiresAt
        && SignedIn(e.user, nonce) in log[..n];
    started := HappenedAt(log, n, SessionStarted(e.session, cs, nonce, expiresAt));
    signedIn := HappenedAt(log, n, SignedIn(e.user, nonce));
  }

  /** Every token returned, with what came before it, in order: its session was started with
      that client state; its user signed in with the session's nonce; that user, and nobody
      else ever, completed the session; then the token, before the session expired. */
  lemma EveryTokenIsAccountedFor(w: World, actions: seq<Action>, n: nat)
      returns (started: nat, signedIn: nat, completed: nat)
    requires Initial(w) && n < |Run(w, actions).log| && Run(w, actions).log[n].TokenReturned?
    ensures
      var log := Run(w, actions).log;
      var r := log[n];
      && started < completed < n && signedIn < completed
      && log[started].SessionStarted? && log[started].session == r.session
      && Trim(log[started].clientState) == Trim(r.clientState) && r.at < log[started].expiresAt
      && log[signedIn] == SignedIn(r.user, log[started].nonce)
      && log[completed].SessionCompleted? && log[completed].session == r.session && log[completed].user == r.user
      && (forall i :: 0 <= i < |log| && log[i].SessionCompleted? && log[i].session == r.session ==> i == completed)
  {
    EveryRunKeepsInv(w, actions);
    hide Run, LogOk, Trim;
    started, signedIn, completed := TokenIsAccountedFor(Run(w, actions).log, n);
  }

  lemma TokenIsAccountedFor(log: seq<Event>, n: nat) returns (started: nat, signedIn: nat, completed: nat)
    requires LogOk(log) && n < |log| && log[n].TokenReturned?
    ensures
      var r := log[n];
      && started < completed < n && signedIn < completed
      && log[started].SessionStarted? && log[started].session == r.session
      && HashSecret(log[started].clientState) == HashSecret(r.clientState) && r.at < log[started].expiresAt
      && log[signedIn] == SignedIn(r.user, log[started].nonce)
      && log[completed].SessionCompleted? && log[completed].session == r.session && log[completed].user == r.user
      && (forall i :: 0 <= i < |log| && log[i].SessionCompleted? && log[i].session == r.session ==> i == completed)
  {
    hide LogOk, HashSecret;
    var again;
    completed, again := BeforeToken(log, n);
    started, signedIn := BeforeCompletion(log, completed);
    EachOnce(log);
  }

  lemma BeforeToken(log: seq<Event>, n: nat) returns (completed: nat, started: nat)
    requires LogOk(log) && n < |log| && log[n].TokenReturned?
    ensures
      var r := log[n];
      && completed < n && started < n
      && log[completed].SessionCompleted? && log[completed].session == r.session && log[completed].user == r.user
      && log[started].SessionStarted? && log[started].session == r.session
      && HashSecret(log[started].clientState) == HashSecret(r.clientState) && r.at < log[started].expiresAt
  {
    hide HashSecret;
    var r := log[n];
    assert EventOk(log[..n], r);
    var at: int :| CompletedBy(log[..n], r.session, r.user, at);
    var c: nat :| SessionCompleted(c, r.session, r.user, at) in log[..n];
    completed := HappenedAt(log, n, SessionCompleted(c, r.session, r.user, at));
    var cs: string, nonce: string, expiresAt: int :|
      SessionStarted(r.session, cs, nonce, expiresAt) in log[..n] && r.at < expiresAt
        && HashSecret(cs) == HashSecret(r.clientState);
    started := HappenedAt(log, n, SessionStarted(r.session, cs, nonce, expiresAt));
  }

  /** Along every run a session keeps its client state, nonce and expiry, its status never
      moves back, and the user who completed it is never replaced. */
  lemma {:induction false} SessionsMoveForward(w: World, actions: seq<Action>, id: Id)
    requires Inv(w) && id in w.store.sessions
    ensures
      var end := Run(w, actions);
      && Inv(end) && id in end.store.sessions
      && var a := w.store.sessions[id];
      && var b := end.store.sessions[id];
      && b.clientStateHash == a.clientStateHash && b.nonce == a.nonce && b.expiresAt == a.expiresAt
      && Rank(a.status) <= Rank(b.status)
      && (a.status != Pending ==> b.userId == a.userId && b.completedAt == a.completedAt)
  {
    if actions != [] {
      hide Inv, Apply;
      var before := Run(w, actions[..|actions| - 1]);
      SessionsMoveForward(w, actions[..|actions| - 1], id);
      ApplyKeeps(before, actions[|actions| - 1]);
      assert MayBecome(before.store.sessions[id], Apply(before, actions[|actions| - 1]).store.sessions[id]);
    }
  }

  // ---- one caller alone ---------------------------------------------------------------------------------

  /** The caller's next steps, with nobody else moving. */
  ghost function Alone(w: World, caller: nat, n: nat, draw: Draw): World
    decreases n
  {
    if n == 0 || caller !in w.callers then w else Alone(Step(w, caller, draw), caller, n - 1, draw)
  }

  lemma CodedSession(w: World, code: string)
    requires Inv(w)
    ensures HashSecret(code) in w.store.byCode ==>
              w.store.byCode[HashSecret(code)] in w.store.sessions
              && w.store.sessions[w.store.byCode[HashSecret(code)]].id == w.store.byCode[HashSecret(code)]
  {
    hide HashSecret, PcOk;
    if HashSecret(code) in w.store.byCode {
      var id := w.store.byCode[HashSecret(code)];
      assert SessionOk(w.log, id, w.store.sessions[id]);
    }
  }

  /** A redemption that nobody disturbs returns a token for a user exactly when the code names an
      unexpired session completed by the user, the client state matches and the account is active. */
  lemma UndisturbedRedemption(w: World, caller: nat, code: string, cs: string, user: Id, draw: Draw)
    requires Inv(w) && caller in w.callers && w.callers[caller] == GetRead(code, cs)
    ensures
      var end := Alone(w, caller, 4, draw);
      && caller in end.callers
      && (end.callers[caller] == Done(TokenReady(user)) <==>
          && Trim(code) in w.store.byCode
          && var x := w.store.sessions[w.store.byCode[Trim(code)]];
          && w.now < x.expiresAt && x.clientStateHash == Trim(cs)
          && x.status == Completed && x.userId == user && user != "" && IsActive(w.accounts, user))
  {
    hide Trim, PcOk, DataOk, ByNonce, Create, Complete;
    var w1 := Step(w, caller, draw);
    var w2 := Step(w1, caller, draw);
    var w3 := Step(w2, caller, draw);
    var w4 := Step(w3, caller, draw);
    CodedSession(w, code);
    assert Alone(w, caller, 4, draw) == Alone(w1, caller, 3, draw);
    assert Alone(w1, caller, 3, draw) == Alone(w2, caller, 2, draw);
    assert Alone(w2, caller, 2, draw) == Alone(w3, caller, 1, draw);
    assert Alone(w3, caller, 1, draw) == Alone(w4, caller, 0, draw);
  }
}
