/** The life of tokens: minted, recorded, verified, exchanged, revoked, while accounts and
    the clock move; callers interleave at their store and signer calls. */
module AuthnTokens {
  import opened Text
  import opened CoreModel

  type Id = string

  // ---- claims, with an ideal signature -----------------------------------------------------------

  const SECOND := 1_000_000_000

  /** Durations and times are in nanoseconds, claims in whole seconds. */
  function UnixSeconds(time: nat): nat {
    time / SECOND
  }

  function DefaultTtl(ttl: nat): nat {
    if ttl == 0 then 60 * 60 * SECOND else ttl
  }

  datatype Config = Config(issuer: string, audience: seq<string>, authServiceAudience: string, authnTtl: nat,
                           authzTtl: nat)

  datatype Claims = Claims(subject: string, issuer: string, issuedAt: nat, expiresAt: nat, audience: seq<string>,
                           resources: seq<string>, idp: string, jti: string)

  function NewAuthnClaims(issuer: string, audience: seq<string>, subject: string, idp: string, ttl: nat, now: nat,
                          jti: string): Result<Claims>
  {
    if issuer == "" || audience == [] || subject == "" || idp == "" then Err(TokenIssueFailed)
    else Ok(Claims(subject, issuer, UnixSeconds(now), UnixSeconds(now + DefaultTtl(ttl)), audience, [], idp, jti))
  }

  function NewAuthzClaims(issuer: string, audience: seq<string>, subject: string, idp: string, resources: seq<string>,
                          ttl: nat, now: nat, jti: string): Result<Claims> {
    if resources == [] then Err(TokenIssueFailed)
    else
      match NewAuthnClaims(issuer, audience, subject, idp, ttl, now, jti)
      case Ok(claims) => Ok(claims.(resources := resources))
      case Err(e) => Err(e)
  }

  /** The checks that do not depend on the time. */
  predicate Addressed(claims: Claims, issuer: string, audience: string) {
    (issuer == "" || claims.issuer == issuer) && (audience == "" || audience in claims.audience)
  }

  predicate ValidClaims(claims: Claims, issuer: string, audience: string, now: nat) {
    && claims.expiresAt != 0
    && UnixSeconds(now) < claims.expiresAt
    && Addressed(claims, issuer, audience)
  }

  function AuthnAudience(cfg: Config): seq<string> {
    if cfg.authServiceAudience != "" && cfg.authServiceAudience !in cfg.audience
    then cfg.audience + [cfg.authServiceAudience]
    else cfg.audience
  }

  /** `user:<id>`, the subject under which an account appears in tokens. */
  function BridgeSubject(user: Id): string {
    "user:" + user
  }

  const BRIDGE := "bridge"
  const BEARER := "Bearer "

  /** The compact token inside an Authorization value. */
  function CompactOf(bearer: string): string {
    Trim(match StripPrefix(Trim(bearer), BEARER)
         case Some(rest) => rest
         case None => bearer)
  }

  /** Signed texts are base64url parts joined by dots. */
  predicate IsCompact(text: string) {
    text != "" && forall c :: c in text ==> !IsWhitespace(c)
  }

  // ---- the world -------------------------------------------------------------------------------------

  datatype Kind = Authn | Authz

  datatype Record = Record(kind: Kind, userId: Id, expiresAt: nat, revoked: bool)

  // ---- the token log ---------------------------------------------------------------------------------

  /** The primary key refuses a second row for a token id. */
  function InsertRecord(records: map<string, Record>, jti: string, record: Record): Result<map<string, Record>> {
    if jti in records then Err(TokenIssueFailed) else Ok(records[jti := record])
  }

  function MarkRevoked(records: map<string, Record>, jti: string): (map<string, Record>, Result<()>) {
    if jti in records then (records[jti := records[jti].(revoked := true)], Ok(())) else (records, Err(NotFound))
  }

  /** `principal_by_authn_token_jti`, the row joined with its account. */
  function ActivePrincipal(records: map<string, Record>, accounts: map<Id, bool>, jti: string, seconds: nat): Result<Id>
  {
    if && jti in records && records[jti].kind == Authn && !records[jti].revoked && records[jti].expiresAt > seconds
       && records[jti].userId in accounts && accounts[records[jti].userId]
    then Ok(records[jti].userId)
    else Err(NotFound)
  }

  class TokenLog {
    var records: map<string, Record>

    constructor ()
      ensures records == map[]
    {
      records := map[];
    }

    method Append(jti: string, record: Record) returns (r: Result<()>)
      modifies this
      ensures match InsertRecord(old(records), jti, record)
              case Ok(after) => r == Ok(()) && records == after
              case Err(e) => r == Err(e) && records == old(records)
    {
      if jti in records {
        return Err(TokenIssueFailed);
      }
      records := records[jti := record];
      return Ok(());
    }

    method RevokeIssuedToken(jti: string) returns (r: Result<()>)
      modifies this
      ensures (records, r) == MarkRevoked(old(records), jti)
      ensures records.Keys == old(records).Keys && (r.Ok? <==> jti in records)
      ensures forall j :: j in records ==>
                records[j].revoked == (j == jti || old(records)[j].revoked)
                && records[j].kind == old(records)[j].kind && records[j].userId == old(records)[j].userId
                && records[j].expiresAt == old(records)[j].expiresAt
    {
      var changed := 0;
      if jti in records {
        records := records[jti := records[jti].(revoked := true)];
        changed := 1;
      }
      return if changed == 0 then Err(NotFound) else Ok(());
    }

    method PrincipalByAuthnTokenJti(accounts: map<Id, bool>, jti: string, seconds: nat) returns (r: Result<Id>)
      ensures r == ActivePrincipal(records, accounts, jti, seconds)
    {
      if jti !in records {
        return Err(NotFound);
      }
      var row := records[jti];
      if row.kind != Authn || row.revoked || row.expiresAt <= seconds {
        return Err(NotFound);
      }
      if row.userId !in accounts || !accounts[row.userId] {
        return Err(NotFound);
      }
      return Ok(row.userId);
    }
  }

  // ---- callers ------------------------------------------------------------------------------------------

  datatype Purpose = Accept | Exchange(resourceIds: seq<string>, ttl: Option<nat>)

  datatype Outcome = Failed(error: CoreError) | MintReturned(text: string) | Verified(subject: string, user: Id)
    | AuthzReturned(text: string)

  datatype Pc =
    | Done(outcome: Outcome)
    | MintPrincipal(user: Id, ttl: Option<nat>)
    | MintSign(user: Id, ttl: Option<nat>)
    | MintRecord(user: Id, text: string, at: nat, lifetime: nat)
    | VerifySignature(bearer: string, purpose: Purpose)
    | VerifyLookup(text: string, purpose: Purpose)
    | ManualPrincipal(user: Id, name: string, role: string, ttl: Option<nat>)
    | ManualRepository(user: Id, name: string, ttl: Option<nat>)
    | ManualAccess(user: Id, resourceId: string, ttl: Option<nat>)
    | ExchangeResource(user: Id, asked: seq<string>, granted: seq<string>, ttl: Option<nat>)
    | ExchangeAccess(user: Id, resourceId: string, asked: seq<string>, granted: seq<string>, ttl: Option<nat>)
    | ExchangeSign(user: Id, granted: seq<string>, ttl: Option<nat>)
    | ExchangeRecord(user: Id, text: string)

  /** What has happened so far. */
  datatype Fact =
    | Minted(text: string, jti: string, user: Id, at: nat, lifetime: nat)
    | Revoked(jti: string)
    | Vouched(user: Id)
    | WriteChecked(user: Id, resourceId: string)

  /** `signed` holds exactly the texts the key has signed: the signature check is membership. */
  datatype World = World(cfg: Config, now: nat, accounts: map<Id, bool>, repositories: map<string, string>,
                         resources: map<string, string>, writers: set<(Id, string)>, signed: map<string, Claims>,
                         records: map<string, Record>, callers: map<nat, Pc>, facts: set<Fact>)

  datatype Action =
    | Tick(later: nat)
    | ChangeAccounts(accounts: map<Id, bool>)
    | ChangeResources(repositories: map<string, string>, resources: map<string, string>, writers: set<(Id, string)>)
    | Revoke(jti: string)
    | Call(caller: nat, pc: Pc)
    | Advance(caller: nat, text: string, jti: string)

  predicate IsEntry(pc: Pc) {
    pc.MintPrincipal? || pc.VerifySignature? || pc.ManualPrincipal?
  }

  function At(w: World, caller: nat, pc: Pc): World {
    w.(callers := w.callers[caller := pc])
  }

  function Fail(w: World, caller: nat, error: CoreError): World {
    At(w, caller, Done(Failed(error)))
  }

  // ---- verification -------------------------------------------------------------------------------------

  function CheckSignature(w: World, bearer: string): Result<string> {
    var text := CompactOf(bearer);
    if text == "" || text !in w.signed then Err(Unauthenticated)
    else if !ValidClaims(w.signed[text], w.cfg.issuer, w.cfg.authServiceAudience, w.now) then Err(Unauthenticated)
    else if w.signed[text].jti == "" then Err(Unauthenticated)
    else Ok(text)
  }

  function PrincipalByJti(w: World, jti: string): Result<Id> {
    ActivePrincipal(w.records, w.accounts, jti, UnixSeconds(w.now))
  }

  /** `verify_authn` when nothing moves between its two reads. */
  function VerifyAuthn(w: World, bearer: string): Result<Id> {
    match CheckSignature(w, bearer)
    case Ok(text) => PrincipalByJti(w, w.signed[text].jti)
    case Err(e) => Err(e)
  }

  // ---- one atomic step of one caller ---------------------------------------------------------------------

  /** Signed texts and token ids never collide with earlier ones. */
  predicate Fresh(w: World, text: string, jti: string) {
    && IsCompact(text) && text !in w.signed && jti != ""
    && forall t :: t in w.signed ==> w.signed[t].jti != jti
  }

  function Sign(w: World, text: string, claims: Claims): World {
    w.(signed := w.signed[text := claims])
  }

  function Lifetime(ttl: Option<nat>, configured: nat): nat {
    if ttl.Some? then ttl.value else configured
  }

  /** The next resource to check, or the signing once all are. */
  function ExchangeNext(user: Id, asked: seq<string>, granted: seq<string>, ttl: Option<nat>): Pc {
    if asked == [] then ExchangeSign(user, granted, ttl) else ExchangeResource(user, asked, granted, ttl)
  }

  function ExchangeStart(w: World, caller: nat, user: Id, resourceIds: seq<string>, ttl: Option<nat>): World {
    if user == "" then Fail(w, caller, Unauthenticated)
    else if resourceIds == [] then Fail(w, caller, InvalidArgument("resource_id is required"))
    else At(w, caller, ExchangeNext(user, resourceIds, [], ttl))
  }

  function AddRecord(w: World, jti: string, record: Record): Result<World> {
    match InsertRecord(w.records, jti, record)
    case Ok(records) => Ok(w.(records := records))
    case Err(e) => Err(e)
  }

  function MintStep(w: World, caller: nat, text: string, jti: string): World
    requires caller in w.callers
    requires w.callers[caller].MintPrincipal? || w.callers[caller].MintSign? || w.callers[caller].MintRecord?
  {
    match w.callers[caller]
    case MintPrincipal(user, ttl) =>
      (match PrincipalOf(w.accounts, user)
       case Ok(_) => At(w, caller, MintSign(user, ttl))
       case Err(e) => Fail(w, caller, e))
    case MintSign(user, ttl) =>
      if !Fresh(w, text, jti) then w
      else
        var lifetime := Lifetime(ttl, w.cfg.authnTtl);
        (match NewAuthnClaims(w.cfg.issuer, AuthnAudience(w.cfg), BridgeSubject(user), BRIDGE, lifetime, w.now, jti)
         case Ok(claims) => At(Sign(w, text, claims), caller, MintRecord(user, text, w.now, lifetime))
         case Err(e) => Fail(w, caller, e))
    case MintRecord(user, t, at, lifetime) =>
      if t !in w.signed then w
      else
        var c := w.signed[t];
        (match AddRecord(w, c.jti, Record(Authn, user, c.expiresAt, false))
         case Ok(w') =>
           At(w'.(facts := w.facts + {Minted(t, c.jti, user, at, lifetime)}), caller, Done(MintReturned(t)))
         case Err(e) => Fail(w, caller, e))
  }

  function ManualStep(w: World, caller: nat): World
    requires caller in w.callers
    requires w.callers[caller].ManualPrincipal? || w.callers[caller].ManualRepository?
          || w.callers[caller].ManualAccess?
  {
    match w.callers[caller]
    case ManualPrincipal(user, name, role, ttl) =>
      if role != "" && role != "writer" then Fail(w, caller, InvalidArgument("MVP only issues writer tokens"))
      else (match PrincipalOf(w.accounts, user)
            case Ok(_) => At(w, caller, ManualRepository(user, name, ttl))
            case Err(e) => Fail(w, caller, e))
    case ManualRepository(user, name, ttl) =>
      if name !in w.repositories then Fail(w, caller, NotFound)
      else At(w, caller, ManualAccess(user, w.repositories[name], ttl))
    case ManualAccess(user, rid, ttl) =>
      if (user, rid) !in w.writers then Fail(w, caller, PermissionDenied)
      else ExchangeStart(w.(facts := w.facts + {Vouched(user)}), caller, user, [rid], ttl)
  }

  function ExchangeStep(w: World, caller: nat, text: string, jti: string): World
    requires
      && caller in w.callers
      && var pc := w.callers[caller];
      pc.ExchangeResource? || pc.ExchangeAccess? || pc.ExchangeSign? || pc.ExchangeRecord?
  {
    match w.callers[caller]
    case ExchangeResource(user, asked, granted, ttl) =>
      if asked == [] || asked[0] !in w.resources then Fail(w, caller, NotFound)
      else At(w, caller, ExchangeAccess(user, w.resources[asked[0]], asked[1..], granted, ttl))
    case ExchangeAccess(user, rid, asked, granted, ttl) =>
      if (user, rid) !in w.writers then Fail(w, caller, PermissionDenied)
      else At(w.(facts := w.facts + {WriteChecked(user, rid)}), caller, ExchangeNext(user, asked, granted + [rid], ttl))
    case ExchangeSign(user, granted, ttl) =>
      if !Fresh(w, text, jti) then w
      else
        (match NewAuthzClaims(w.cfg.issuer, w.cfg.audience, BridgeSubject(user), BRIDGE, granted,
                              Lifetime(ttl, w.cfg.authzTtl), w.now, jti)
         case Ok(claims) => At(Sign(w, text, claims), caller, ExchangeRecord(user, text))
         case Err(e) => Fail(w, caller, e))
    case ExchangeRecord(user, t) =>
      if t !in w.signed then w
      else
        (match AddRecord(w, w.signed[t].jti, Record(Authz, user, w.signed[t].expiresAt, false))
         case Ok(w') => At(w', caller, Done(AuthzReturned(t)))
         case Err(e) => Fail(w, caller, e))
  }

  function VerifyStep(w: World, caller: nat): World
    requires caller in w.callers && (w.callers[caller].VerifySignature? || w.callers[caller].VerifyLookup?)
  {
    match w.callers[caller]
    case VerifySignature(bearer, purpose) =>
      (match CheckSignature(w, bearer)
       case Ok(t) => At(w, caller, VerifyLookup(t, purpose))
       case Err(e) => Fail(w, caller, e))
    case VerifyLookup(t, purpose) =>
      if t !in w.signed then w
      else
        (match PrincipalByJti(w, w.signed[t].jti)
         case Ok(user) =>
           (match purpose
            case Accept => At(w, caller, Done(Verified(w.signed[t].subject, user)))
            case Exchange(ids, ttl) => ExchangeStart(w.(facts := w.facts + {Vouched(user)}), caller, user, ids, ttl))
         case Err(e) => Fail(w, caller, e))
  }

  function Step(w: World, caller: nat, text: string, jti: string): World
    requires caller in w.callers
  {
    match w.callers[caller]
    case Done(_) => w
    case MintPrincipal(_, _) => MintStep(w, caller, text, jti)
    case MintSign(_, _) => MintStep(w, caller, text, jti)
    case MintRecord(_, _, _, _) => MintStep(w, caller, text, jti)
    case VerifySignature(_, _) => VerifyStep(w, caller)
    case VerifyLookup(_, _) => VerifyStep(w, caller)
    case ManualPrincipal(_, _, _, _) => ManualStep(w, caller)
    case ManualRepository(_, _, _) => ManualStep(w, caller)
    case ManualAccess(_, _, _) => ManualStep(w, caller)
    case _ => ExchangeStep(w, caller, text, jti)
  }

  function RevokeToken(w: World, jti: string): World {
    var (records, r) := MarkRevoked(w.records, jti);
    if r.Ok? then w.(records := records, facts := w.facts + {Revoked(jti)}) else w
  }

  function Apply(w: World, a: Action): World {
    match a
    case Tick(later) => if later >= w.now then w.(now := later) else w
    case ChangeAccounts(accounts) => w.(accounts := accounts)
    case ChangeResources(repositories, resources, writers) =>
      w.(repositories := repositories, resources := resources, writers := writers)
    case Revoke(jti) => RevokeToken(w, jti)
    case Call(caller, pc) => if caller !in w.callers && IsEntry(pc) then At(w, caller, pc) else w
    case Advance(caller, text, jti) => if caller in w.callers then Step(w, caller, text, jti) else w
  }

  predicate Initial(w: World) {
    w.signed == map[] && w.records == map[] && w.callers == map[] && w.facts == {}
  }

  function Run(w: World, actions: seq<Action>): World {
    if actions == [] then w else Apply(Run(w, actions[..|actions| - 1]), actions[|actions| - 1])
  }

  // ---- what every step keeps -------------------------------------------------------------------------------

  ghost predicate AllChecked(facts: set<Fact>, user: Id, granted: seq<string>) {
    && Vouched(user) in facts
    && forall rid :: rid in granted ==> WriteChecked(user, rid) in facts
  }

  /** A signed token: an authn token addressed as configured, or an authz token whose
      every resource was checked for the vouched account it names. */
  ghost predicate SignedOk(cfg: Config, facts: set<Fact>, text: string, c: Claims) {
    && IsCompact(text) && c.jti != "" && c.issuer == cfg.issuer
    && if c.resources == [] then c.audience == AuthnAudience(cfg)
       else exists user: Id :: c.subject == BridgeSubject(user) && AllChecked(facts, user, c.resources)
  }

  ghost predicate UniqueJtis(signed: map<string, Claims>) {
    forall a, b :: a in signed && b in signed && signed[a].jti == signed[b].jti ==> a == b
  }

  /** A row of the token log: it belongs to a signed token of its kind. */
  ghost predicate RecordOk(signed: map<string, Claims>, facts: set<Fact>, jti: string, r: Record) {
    && (r.revoked <==> Revoked(jti) in facts)
    && exists text ::
         && text in signed && signed[text].jti == jti && signed[text].expiresAt == r.expiresAt
         && (r.kind == Authn <==> signed[text].resources == [])
         && (r.kind == Authn ==> exists at: nat, lifetime: nat :: Minted(text, jti, r.userId, at, lifetime) in facts)
  }

  /** A token on its way from signing to recording. */
  ghost predicate MintOk(signed: map<string, Claims>, text: string, user: Id, at: nat, lifetime: nat) {
    && text in signed && signed[text].resources == [] && signed[text].subject == BridgeSubject(user)
    && signed[text].expiresAt == UnixSeconds(at + DefaultTtl(lifetime))
    && signed[text].issuedAt == UnixSeconds(at) && signed[text].idp == BRIDGE
  }

  ghost predicate FactOk(signed: map<string, Claims>, records: map<string, Record>, f: Fact) {
    match f
    case Minted(text, jti, user, at, lifetime) =>
      && MintOk(signed, text, user, at, lifetime) && signed[text].jti == jti
      && jti in records && records[jti].kind == Authn && records[jti].userId == user
    case Revoked(jti) => jti in records
    case _ => true
  }

  ghost predicate DataOk(cfg: Config, signed: map<string, Claims>, records: map<string, Record>, facts: set<Fact>) {
    && (forall t :: t in signed ==> SignedOk(cfg, facts, t, signed[t]))
    && UniqueJtis(signed)
    && (forall jti :: jti in records ==> RecordOk(signed, facts, jti, records[jti]))
    && (forall f :: f in facts ==> FactOk(signed, records, f))
  }

  ghost predicate PcOk(cfg: Config, signed: map<string, Claims>, facts: set<Fact>, pc: Pc) {
    match pc
    case MintRecord(user, text, at, lifetime) => MintOk(signed, text, user, at, lifetime)
    case VerifyLookup(text, _) => text in signed && Addressed(signed[text], cfg.issuer, cfg.authServiceAudience)
    case ExchangeResource(user, _, granted, _) => AllChecked(facts, user, granted)
    case ExchangeAccess(user, _, _, granted, _) => AllChecked(facts, user, granted)
    case ExchangeSign(user, granted, _) => AllChecked(facts, user, granted)
    case ExchangeRecord(user, text) => text in signed && signed[text].resources != []
    case _ => true
  }

  ghost predicate Inv(w: World) {
    && DataOk(w.cfg, w.signed, w.records, w.facts)
    && forall c :: c in w.callers ==> PcOk(w.cfg, w.signed, w.facts, w.callers[c])
  }

  /** Tokens, rows and facts are never taken back, and revocation is final. */
  ghost predicate Extends(w: World, w': World) {
    && w'.cfg == w.cfg && w.now <= w'.now && w.facts <= w'.facts
    && (forall t :: t in w.signed ==> t in w'.signed && w'.signed[t] == w.signed[t])
    && (forall j :: j in w.records ==>
          && j in w'.records && (w.records[j].revoked ==> w'.records[j].revoked)
          && w'.records[j] == w.records[j].(revoked := w'.records[j].revoked))
  }

  lemma SignedStaysOk(cfg: Config, facts: set<Fact>, facts': set<Fact>, text: string, c: Claims)
    requires facts <= facts' && SignedOk(cfg, facts, text, c)
    ensures SignedOk(cfg, facts', text, c)
  {
    hide IsCompact, BridgeSubject, AuthnAudience;
    if c.resources != [] {
      var user: Id :| c.subject == BridgeSubject(user) && AllChecked(facts, user, c.resources);
      assert AllChecked(facts', user, c.resources);
    }
  }

  lemma RecordStaysOk(signed: map<string, Claims>, signed': map<string, Claims>, facts: set<Fact>, facts': set<Fact>,
                      jti: string, r: Record)
    requires RecordOk(signed, facts, jti, r) && facts <= facts' && (Revoked(jti) in facts' ==> Revoked(jti) in facts)
    requires forall t :: t in signed ==> t in signed' && signed'[t] == signed[t]
    ensures RecordOk(signed', facts', jti, r)
  {
    var text :|
      && text in signed && signed[text].jti == jti && signed[text].expiresAt == r.expiresAt
      && (r.kind == Authn <==> signed[text].resources == [])
      && (r.kind == Authn ==> exists at: nat, lifetime: nat :: Minted(text, jti, r.userId, at, lifetime) in facts);
    assert text in signed' && signed'[text] == signed[text];
    if r.kind == Authn {
      var at: nat, lifetime: nat :| Minted(text, jti, r.userId, at, lifetime) in facts;
      assert Minted(text, jti, r.userId, at, lifetime) in facts';
    }
  }

  /** Facts about checks disturb nothing. */
  lemma FactKeeps(w: World, f: Fact)
    requires DataOk(w.cfg, w.signed, w.records, w.facts) && (f.Vouched? || f.WriteChecked?)
    ensures DataOk(w.cfg, w.signed, w.records, w.facts + {f})
  {
    hide SignedOk, RecordOk;
    forall t | t in w.signed ensures SignedOk(w.cfg, w.facts + {f}, t, w.signed[t]) {
      SignedStaysOk(w.cfg, w.facts, w.facts + {f}, t, w.signed[t]);
    }
    forall j | j in w.records ensures RecordOk(w.signed, w.facts + {f}, j, w.records[j]) {
      RecordStaysOk(w.signed, w.signed, w.facts, w.facts + {f}, j, w.records[j]);
    }
  }

  lemma SignKeeps(w: World, text: string, c: Claims)
    requires DataOk(w.cfg, w.signed, w.records, w.facts) && Fresh(w, text, c.jti) && SignedOk(w.cfg, w.facts, text, c)
    ensures DataOk(w.cfg, w.signed[text := c], w.records, w.facts)
  {
    hide SignedOk, RecordOk, IsCompact;
    var signed' := w.signed[text := c];
    forall j | j in w.records ensures RecordOk(signed', w.facts, j, w.records[j]) {
      RecordStaysOk(w.signed, signed', w.facts, w.facts, j, w.records[j]);
    }
    forall f | f in w.facts ensures FactOk(signed', w.records, f) {
      assert FactOk(w.signed, w.records, f);
    }
  }

  lemma MintRecordKeeps(w: World, user: Id, text: string, at: nat, lifetime: nat)
    requires DataOk(w.cfg, w.signed, w.records, w.facts) && MintOk(w.signed, text, user, at, lifetime)
    requires w.signed[text].jti !in w.records
    ensures
      var c := w.signed[text];
      DataOk(w.cfg, w.signed, w.records[c.jti := Record(Authn, user, c.expiresAt, false)],
             w.facts + {Minted(text, c.jti, user, at, lifetime)})
  {
    hide SignedOk, RecordOk;
    var c := w.signed[text];
    var records' := w.records[c.jti := Record(Authn, user, c.expiresAt, false)];
    var facts' := w.facts + {Minted(text, c.jti, user, at, lifetime)};
    forall t | t in w.signed ensures SignedOk(w.cfg, facts', t, w.signed[t]) {
      SignedStaysOk(w.cfg, w.facts, facts', t, w.signed[t]);
    }
    assert FactOk(w.signed, w.records, Revoked(c.jti)) ==> c.jti in w.records;
    NewRecordOk(w.signed, facts', text, Record(Authn, user, c.expiresAt, false), at, lifetime);
    forall j | j in w.records ensures RecordOk(w.signed, facts', j, records'[j]) {
      RecordStaysOk(w.signed, w.signed, w.facts, facts', j, w.records[j]);
    }
    forall f | f in facts' ensures FactOk(w.signed, records', f) {
      if f in w.facts { assert FactOk(w.signed, w.records, f); }
    }
  }

  lemma NewRecordOk(signed: map<string, Claims>, facts: set<Fact>, text: string, r: Record, at: nat, lifetime: nat)
    requires text in signed && signed[text].expiresAt == r.expiresAt && !r.revoked
    requires Revoked(signed[text].jti) !in facts
    requires r.kind == Authn <==> signed[text].resources == []
    requires r.kind == Authn ==> Minted(text, signed[text].jti, r.userId, at, lifetime) in facts
    ensures RecordOk(signed, facts, signed[text].jti, r)
  {
  }

  lemma ExchangeRecordKeeps(w: World, user: Id, text: string)
    requires DataOk(w.cfg, w.signed, w.records, w.facts)
    requires text in w.signed && w.signed[text].resources != [] && w.signed[text].jti !in w.records
    ensures
      var c := w.signed[text];
      DataOk(w.cfg, w.signed, w.records[c.jti := Record(Authz, user, c.expiresAt, false)], w.facts)
  {
    hide SignedOk, RecordOk;
    var c := w.signed[text];
    var records' := w.records[c.jti := Record(Authz, user, c.expiresAt, false)];
    assert FactOk(w.signed, w.records, Revoked(c.jti)) ==> c.jti in w.records;
    NewRecordOk(w.signed, w.facts, text, Record(Authz, user, c.expiresAt, false), 0, 0);
    forall f | f in w.facts ensures FactOk(w.signed, records', f) {
      assert FactOk(w.signed, w.records, f);
    }
  }

  lemma RevokeKeeps(w: World, jti: string)
    requires DataOk(w.cfg, w.signed, w.records, w.facts) && jti in w.records
    ensures DataOk(w.cfg, w.signed, RevokeToken(w, jti).records, RevokeToken(w, jti).facts)
  {
    hide SignedOk;
    var w' := RevokeToken(w, jti);
    forall t | t in w.signed ensures SignedOk(w.cfg, w'.facts, t, w.signed[t]) {
      SignedStaysOk(w.cfg, w.facts, w'.facts, t, w.signed[t]);
    }
    forall j | j in w.records ensures RecordOk(w.signed, w'.facts, j, w'.records[j]) {
      assert RecordOk(w.signed, w.facts, j, w.records[j]);
      if j != jti {
        RecordStaysOk(w.signed, w.signed, w.facts, w'.facts, j, w.records[j]);
      } else {
        RevokedRecordOk(w.signed, w.facts, jti, w.records[jti]);
      }
    }
    forall f | f in w'.facts ensures FactOk(w.signed, w'.records, f) {
      if f in w.facts { RevokedFactOk(w.signed, w.records, jti, f); }
    }
    hide RecordOk, FactOk;
  }

  lemma RevokedFactOk(signed: map<string, Claims>, records: map<string, Record>, jti: string, f: Fact)
    requires jti in records && FactOk(signed, records, f)
    ensures FactOk(signed, records[jti := records[jti].(revoked := true)], f)
  {
    hide MintOk;
  }

  lemma RevokedRecordOk(signed: map<string, Claims>, facts: set<Fact>, jti: string, r: Record)
    requires RecordOk(signed, facts, jti, r)
    ensures RecordOk(signed, facts + {Revoked(jti)}, jti, r.(revoked := true))
  {
    var text :|
      && text in signed && signed[text].jti == jti && signed[text].expiresAt == r.expiresAt
      && (r.kind == Authn <==> signed[text].resources == [])
      && (r.kind == Authn ==> exists at: nat, lifetime: nat :: Minted(text, jti, r.userId, at, lifetime) in facts);
    if r.kind == Authn {
      var at: nat, lifetime: nat :| Minted(text, jti, r.userId, at, lifetime) in facts;
      assert Minted(text, jti, r.userId, at, lifetime) in facts + {Revoked(jti)};
    }
  }

  // ---- steps -----------------------------------------------------------------------------------------------

  /** What a step must establish for its own caller. */
  ghost predicate GoodStep(w: World, w': World, caller: nat) {
    && DataOk(w'.cfg, w'.signed, w'.records, w'.facts) && Extends(w, w')
    && caller in w'.callers && w'.callers == w.callers[caller := w'.callers[caller]]
    && PcOk(w'.cfg, w'.signed, w'.facts, w'.callers[caller])
  }

  ghost predicate Ready(w: World, caller: nat) {
    && DataOk(w.cfg, w.signed, w.records, w.facts)
    && caller in w.callers && PcOk(w.cfg, w.signed, w.facts, w.callers[caller])
  }

  /** Moving on without touching anything else. */
  lemma QuietStep(w: World, caller: nat, pc: Pc)
    requires Ready(w, caller) && PcOk(w.cfg, w.signed, w.facts, pc)
    ensures GoodStep(w, At(w, caller, pc), caller)
  {
    hide DataOk, PcOk;
  }

  lemma FailedStep(w: World, caller: nat, e: CoreError)
    requires Ready(w, caller)
    ensures GoodStep(w, Fail(w, caller, e), caller)
  {
    hide DataOk;
  }

  /** Moving on after a check has passed. */
  lemma CheckedStep(w: World, caller: nat, f: Fact, pc: Pc)
    requires Ready(w, caller) && (f.Vouched? || f.WriteChecked?) && PcOk(w.cfg, w.signed, w.facts + {f}, pc)
    ensures GoodStep(w, At(w.(facts := w.facts + {f}), caller, pc), caller)
  {
    hide DataOk, PcOk;
    FactKeeps(w, f);
  }

  lemma StartStep(w: World, caller: nat, user: Id, ids: seq<string>, ttl: Option<nat>)
    requires Ready(w, caller)
    ensures GoodStep(w, ExchangeStart(w.(facts := w.facts + {Vouched(user)}), caller, user, ids, ttl), caller)
  {
    hide Ready, GoodStep;
    var next := if user == "" then Done(Failed(Unauthenticated))
                else if ids == [] then Done(Failed(InvalidArgument("resource_id is required")))
                else ExchangeNext(user, ids, [], ttl);
    CheckedStep(w, caller, Vouched(user), next);
  }

  lemma SignedStep(w: World, caller: nat, text: string, c: Claims, pc: Pc)
    requires Ready(w, caller) && Fresh(w, text, c.jti) && SignedOk(w.cfg, w.facts, text, c)
    requires PcOk(w.cfg, w.signed[text := c], w.facts, pc)
    ensures GoodStep(w, At(Sign(w, text, c), caller, pc), caller)
  {
    hide DataOk, PcOk;
    SignKeeps(w, text, c);
  }

  lemma MintStepKeeps(w: World, caller: nat, text: string, jti: string)
    requires caller in w.callers && Ready(w, caller)
    requires w.callers[caller].MintPrincipal? || w.callers[caller].MintSign?
    ensures GoodStep(w, MintStep(w, caller, text, jti), caller)
  {
    hide Ready, GoodStep, AuthnAudience, BridgeSubject, PrincipalOf, UnixSeconds, DefaultTtl;
    match w.callers[caller]
    case MintPrincipal(user, ttl) =>
      match PrincipalOf(w.accounts, user) {
        case Ok(_) => QuietStep(w, caller, MintSign(user, ttl));
        case Err(e) => FailedStep(w, caller, e);
      }
    case MintSign(user, ttl) =>
      var lifetime := Lifetime(ttl, w.cfg.authnTtl);
      if !Fresh(w, text, jti) {
        StillGood(w, caller);
      } else {
        match NewAuthnClaims(w.cfg.issuer, AuthnAudience(w.cfg), BridgeSubject(user), BRIDGE, lifetime, w.now, jti)
        case Ok(c) => SignedStep(w, caller, text, c, MintRecord(user, text, w.now, lifetime));
        case Err(e) => FailedStep(w, caller, e);
      }
  }

  lemma StillGood(w: World, caller: nat)
    requires Ready(w, caller)
    ensures GoodStep(w, w, caller)
  {
    hide DataOk, PcOk;
  }

  lemma MintRecordStepKeeps(w: World, caller: nat, text: string, jti: string)
    requires Ready(w, caller) && w.callers[caller].MintRecord?
    ensures GoodStep(w, MintStep(w, caller, text, jti), caller)
  {
    hide DataOk, BridgeSubject, UnixSeconds, DefaultTtl;
    var MintRecord(user, t, at, lifetime) := w.callers[caller];
    if w.signed[t].jti !in w.records { MintRecordKeeps(w, user, t, at, lifetime); }
  }

  lemma ExchangeStepKeeps(w: World, caller: nat, text: string, jti: string)
    requires Ready(w, caller)
    requires
      var pc := w.callers[caller];
      pc.ExchangeResource? || pc.ExchangeAccess? || pc.ExchangeSign?
    ensures GoodStep(w, ExchangeStep(w, caller, text, jti), caller)
  {
    hide GoodStep, DataOk, AuthnAudience, BridgeSubject, UnixSeconds, DefaultTtl;
    match w.callers[caller]
    case ExchangeResource(user, asked, granted, ttl) =>
      if asked == [] || asked[0] !in w.resources {
        FailedStep(w, caller, NotFound);
      } else {
        QuietStep(w, caller, ExchangeAccess(user, w.resources[asked[0]], asked[1..], granted, ttl));
      }
    case ExchangeAccess(user, rid, asked, granted, ttl) =>
      if (user, rid) !in w.writers {
        FailedStep(w, caller, PermissionDenied);
      } else {
        assert AllChecked(w.facts + {WriteChecked(user, rid)}, user, granted + [rid]);
        CheckedStep(w, caller, WriteChecked(user, rid), ExchangeNext(user, asked, granted + [rid], ttl));
      }
    case ExchangeSign(user, granted, ttl) =>
      if !Fresh(w, text, jti) {
        StillGood(w, caller);
      } else {
        match NewAuthzClaims(w.cfg.issuer, w.cfg.audience, BridgeSubject(user), BRIDGE, granted,
                             Lifetime(ttl, w.cfg.authzTtl), w.now, jti)
        case Ok(c) => SignedStep(w, caller, text, c, ExchangeRecord(user, text));
        case Err(e) => FailedStep(w, caller, e);
      }
  }

  lemma ExchangeRecordStepKeeps(w: World, caller: nat, text: string, jti: string)
    requires Ready(w, caller) && w.callers[caller].ExchangeRecord?
    ensures GoodStep(w, ExchangeStep(w, caller, text, jti), caller)
  {
    hide DataOk;
    var ExchangeRecord(user, t) := w.callers[caller];
    if w.signed[t].jti !in w.records { ExchangeRecordKeeps(w, user, t); }
  }

  lemma VerifyStepKeeps(w: World, caller: nat)
    requires caller in w.callers && Ready(w, caller)
    requires w.callers[caller].VerifySignature? || w.callers[caller].VerifyLookup?
    ensures GoodStep(w, VerifyStep(w, caller), caller)
  {
    hide GoodStep, DataOk, CompactOf, UnixSeconds, Addressed, ExchangeStart, PrincipalByJti;
    match w.callers[caller]
    case VerifySignature(bearer, purpose) =>
      match CheckSignature(w, bearer) {
        case Ok(t) => QuietStep(w, caller, VerifyLookup(t, purpose));
        case Err(e) => FailedStep(w, caller, e);
      }
    case VerifyLookup(t, purpose) =>
      match PrincipalByJti(w, w.signed[t].jti)
      case Ok(user) =>
        match purpose {
          case Accept => QuietStep(w, caller, Done(Verified(w.signed[t].subject, user)));
          case Exchange(ids, ttl) => StartStep(w, caller, user, ids, ttl);
        }
      case Err(e) => FailedStep(w, caller, e);
  }

  lemma ManualStepKeeps(w: World, caller: nat)
    requires caller in w.callers && Ready(w, caller)
    requires w.callers[caller].ManualPrincipal? || w.callers[caller].ManualRepository?
          || w.callers[caller].ManualAccess?
    ensures GoodStep(w, ManualStep(w, caller), caller)
  {
    hide GoodStep, Ready, PrincipalOf, ExchangeStart;
    match w.callers[caller]
    case ManualPrincipal(user, name, role, ttl) =>
      if role != "" && role != "writer" {
        FailedStep(w, caller, InvalidArgument("MVP only issues writer tokens"));
      } else {
        match PrincipalOf(w.accounts, user)
        case Ok(_) => QuietStep(w, caller, ManualRepository(user, name, ttl));
        case Err(e) => FailedStep(w, caller, e);
      }
    case ManualRepository(user, name, ttl) =>
      if name !in w.repositories {
        FailedStep(w, caller, NotFound);
      } else {
        QuietStep(w, caller, ManualAccess(user, w.repositories[name], ttl));
      }
    case ManualAccess(user, rid, ttl) =>
      if (user, rid) !in w.writers {
        FailedStep(w, caller, PermissionDenied);
      } else {
        StartStep(w, caller, user, [rid], ttl);
      }
  }

  lemma StepKeeps(w: World, caller: nat, text: string, jti: string)
    requires Ready(w, caller)
    ensures GoodStep(w, Step(w, caller, text, jti), caller)
  {
    hide DataOk, PcOk, MintStep, VerifyStep, ManualStep, ExchangeStep;
    match w.callers[caller]
    case Done(_) =>
    case MintPrincipal(_, _) => MintStepKeeps(w, caller, text, jti);
    case MintSign(_, _) => MintStepKeeps(w, caller, text, jti);
    case MintRecord(_, _, _, _) => MintRecordStepKeeps(w, caller, text, jti);
    case VerifySignature(_, _) => VerifyStepKeeps(w, caller);
    case VerifyLookup(_, _) => VerifyStepKeeps(w, caller);
    case ManualPrincipal(_, _, _, _) => ManualStepKeeps(w, caller);
    case ManualRepository(_, _, _) => ManualStepKeeps(w, caller);
    case ManualAccess(_, _, _) => ManualStepKeeps(w, caller);
    case ExchangeRecord(_, _) => ExchangeRecordStepKeeps(w, caller, text, jti);
    case _ => ExchangeStepKeeps(w, caller, text, jti);
  }

  lemma PcStaysOk(w: World, w': World, pc: Pc)
    requires Extends(w, w') && PcOk(w.cfg, w.signed, w.facts, pc)
    ensures PcOk(w'.cfg, w'.signed, w'.facts, pc)
  {
    hide Addressed, BridgeSubject, UnixSeconds, DefaultTtl;
  }

  /** The other callers are undisturbed. */
  lemma GoodStepKeepsInv(w: World, w': World, caller: nat)
    requires Inv(w) && GoodStep(w, w', caller)
    ensures Inv(w')
  {
    hide DataOk, PcOk, Extends;
    forall c | c in w'.callers ensures PcOk(w'.cfg, w'.signed, w'.facts, w'.callers[c]) {
      if c != caller {
        PcStaysOk(w, w', w.callers[c]);
      }
    }
  }

  lemma RevokeKeepsInv(w: World, jti: string)
    requires Inv(w)
    ensures Inv(RevokeToken(w, jti)) && Extends(w, RevokeToken(w, jti))
  {
    hide DataOk, PcOk;
    var w' := RevokeToken(w, jti);
    if jti in w.records { RevokeKeeps(w, jti); }
    forall c | c in w.callers ensures PcOk(w'.cfg, w'.signed, w'.facts, w'.callers[c]) {
      PcStaysOk(w, w', w.callers[c]);
    }
  }

  lemma CallKeepsInv(w: World, caller: nat, pc: Pc)
    requires Inv(w) && caller !in w.callers && IsEntry(pc)
    ensures Inv(At(w, caller, pc)) && Extends(w, At(w, caller, pc))
  {
    hide DataOk;
  }

  lemma ApplyKeeps(w: World, a: Action)
    requires Inv(w)
    ensures Inv(Apply(w, a)) && Extends(w, Apply(w, a))
  {
    hide DataOk, PcOk, Step, RevokeToken;
    match a
    case Advance(caller, text, jti) =>
      if caller in w.callers {
        StepKeeps(w, caller, text, jti);
        GoodStepKeepsInv(w, Step(w, caller, text, jti), caller);
      }
    case Call(caller, pc) => if caller !in w.callers && IsEntry(pc) { CallKeepsInv(w, caller, pc); }
    case Revoke(jti) => RevokeKeepsInv(w, jti);
    case _ =>
  }

  // ---- the theorems, over every run ---------------------------------------------------------------------------

  lemma {:induction false} EveryRunKeepsInv(w: World, actions: seq<Action>)
    requires Initial(w)
    ensures Inv(Run(w, actions)) && Run(w, actions).cfg == w.cfg
  {
    if actions != [] {
      EveryRunKeepsInv(w, actions[..|actions| - 1]);
      ApplyKeeps(Run(w, actions[..|actions| - 1]), actions[|actions| - 1]);
    }
  }

  lemma {:induction false} RunExtends(w: World, actions: seq<Action>)
    requires Inv(w)
    ensures Inv(Run(w, actions)) && Extends(w, Run(w, actions))
  {
    if actions != [] {
      hide Inv, Apply;
      RunExtends(w, actions[..|actions| - 1]);
      ApplyKeeps(Run(w, actions[..|actions| - 1]), actions[|actions| - 1]);
    }
  }

  /** Minted for the user, unexpired, never revoked, and the user is active now. */
  ghost predicate Live(w: World, text: string, user: Id) {
    exists jti: string, at: nat, lifetime: nat ::
      && Minted(text, jti, user, at, lifetime) in w.facts
      && UnixSeconds(w.now) < UnixSeconds(at + DefaultTtl(lifetime))
      && Revoked(jti) !in w.facts
      && user in w.accounts && w.accounts[user]
  }

  /** Verification accepts exactly the tokens that minting signed and recorded, for the user
      they were minted for, while they are unexpired and unrevoked and the user is active. */
  lemma AcceptsExactlyLiveTokens(w: World, actions: seq<Action>, bearer: string, user: Id)
    requires Initial(w)
    ensures VerifyAuthn(Run(w, actions), bearer) == Ok(user) <==> Live(Run(w, actions), CompactOf(bearer), user)
  {
    hide CompactOf, AuthnAudience, BridgeSubject;
    var end := Run(w, actions);
    EveryRunKeepsInv(w, actions);
    if VerifyAuthn(end, bearer) == Ok(user) {
      AcceptedIsLive(end, bearer, user);
    }
    if Live(end, CompactOf(bearer), user) {
      LiveIsAccepted(end, bearer, user);
    }
  }

  lemma AcceptedIsLive(w: World, bearer: string, user: Id)
    requires Inv(w) && VerifyAuthn(w, bearer) == Ok(user)
    ensures Live(w, CompactOf(bearer), user)
  {
    hide CompactOf, AuthnAudience, BridgeSubject, SignedOk, PcOk;
    var text := CompactOf(bearer);
    var jti := w.signed[text].jti;
    assert RecordOk(w.signed, w.facts, jti, w.records[jti]);
    var at: nat, lifetime: nat :| Minted(text, jti, user, at, lifetime) in w.facts;
    assert FactOk(w.signed, w.records, Minted(text, jti, user, at, lifetime));
  }

  lemma LiveIsAccepted(w: World, bearer: string, user: Id)
    requires Inv(w) && Live(w, CompactOf(bearer), user)
    ensures VerifyAuthn(w, bearer) == Ok(user)
  {
    hide CompactOf, BridgeSubject, IsCompact, PcOk;
    var text := CompactOf(bearer);
    var jti: string, at: nat, lifetime: nat :|
      && Minted(text, jti, user, at, lifetime) in w.facts
      && UnixSeconds(w.now) < UnixSeconds(at + DefaultTtl(lifetime))
      && Revoked(jti) !in w.facts
      && user in w.accounts && w.accounts[user];
    assert FactOk(w.signed, w.records, Minted(text, jti, user, at, lifetime));
    assert SignedOk(w.cfg, w.facts, text, w.signed[text]);
    assert IsCompact(text) ==> text != "" by { CompactIsNonempty(text); }
    assert w.cfg.authServiceAudience == "" || w.cfg.authServiceAudience in AuthnAudience(w.cfg);
    RecordExpiry(w, text, jti);
  }

  lemma CompactIsNonempty(text: string)
    ensures IsCompact(text) ==> text != ""
  {
  }

  lemma RecordExpiry(w: World, text: string, jti: string)
    requires Inv(w) && text in w.signed && w.signed[text].jti == jti && jti in w.records
    ensures w.records[jti].expiresAt == w.signed[text].expiresAt
    ensures w.records[jti].kind == Authn <==> w.signed[text].resources == []
    ensures w.records[jti].revoked <==> Revoked(jti) in w.facts
  {
    hide SignedOk, PcOk, FactOk;
    assert RecordOk(w.signed, w.facts, jti, w.records[jti]);
  }

  /** An authz token is never accepted, whatever audience it carries. */
  lemma AuthzTokensAreNeverAccepted(w: World, actions: seq<Action>, bearer: string)
    requires Initial(w)
    requires
      var end := Run(w, actions);
      CompactOf(bearer) in end.signed && end.signed[CompactOf(bearer)].resources != []
    ensures VerifyAuthn(Run(w, actions), bearer).Err?
  {
    hide CompactOf;
    var end := Run(w, actions);
    EveryRunKeepsInv(w, actions);
    var jti := end.signed[CompactOf(bearer)].jti;
    if jti in end.records { RecordExpiry(end, CompactOf(bearer), jti); }
  }

  /** The two reads of a verification may lie far apart: the verdict is that of a
      verification made at the second, and the subject is the account's own. */
  lemma SplitVerificationIsAtomic(w: World, actions: seq<Action>, caller: nat, text: string, jti: string)
    requires Initial(w)
    requires
      var end := Run(w, actions);
      caller in end.callers && end.callers[caller] == VerifyLookup(text, Accept)
    ensures
      var end := Run(w, actions);
      && CompactOf(text) == text
      && Step(end, caller, text, jti) == At(end, caller, Done(
           match VerifyAuthn(end, text)
           case Ok(user) => Verified(BridgeSubject(user), user)
           case Err(_) => Failed(NotFound)))
  {
    hide Run, Inv, Step, VerifyAuthn, CompactOf, BridgeSubject;
    EveryRunKeepsInv(w, actions);
    LookupVerdict(Run(w, actions), caller, text, jti);
  }

  lemma LookupVerdict(w: World, caller: nat, text: string, jti: string)
    requires Inv(w) && caller in w.callers && w.callers[caller] == VerifyLookup(text, Accept)
    ensures
      && CompactOf(text) == text
      && Step(w, caller, text, jti) == At(w, caller, Done(
           match VerifyAuthn(w, text)
           case Ok(user) => Verified(BridgeSubject(user), user)
           case Err(_) => Failed(NotFound)))
  {
    hide BridgeSubject, CompactOf, DataOk, AuthnAudience, UnixSeconds;
    assert PcOk(w.cfg, w.signed, w.facts, w.callers[caller]);
    SignedIsCompact(w, text);
    var j := w.signed[text].jti;
    if j in w.records {
      RecordExpiry(w, text, j);
      if w.records[j].kind == Authn { AuthnSubject(w, text); }
    }
  }

  lemma SignedIsCompact(w: World, text: string)
    requires Inv(w) && text in w.signed
    ensures text != "" && CompactOf(text) == text && w.signed[text].jti != ""
  {
    hide CompactOf;
    assert SignedOk(w.cfg, w.facts, text, w.signed[text]);
    CompactRoundTrip(text);
  }

  lemma AuthnSubject(w: World, text: string)
    requires Inv(w) && text in w.signed && w.signed[text].jti in w.records
    requires w.records[w.signed[text].jti].kind == Authn
    ensures w.signed[text].subject == BridgeSubject(w.records[w.signed[text].jti].userId)
  {
    hide SignedOk, PcOk, BridgeSubject;
    var jti := w.signed[text].jti;
    assert RecordOk(w.signed, w.facts, jti, w.records[jti]);
    var at: nat, lifetime: nat :| Minted(text, jti, w.records[jti].userId, at, lifetime) in w.facts;
    assert FactOk(w.signed, w.records, Minted(text, jti, w.records[jti].userId, at, lifetime));
  }

  /** Once revoked or expired, a token is refused for good, along every further run. */
  lemma RefusalIsFinal(w: World, actions: seq<Action>, bearer: string)
    requires Inv(w) && CompactOf(bearer) in w.signed
    requires
      var c := w.signed[CompactOf(bearer)];
      c.expiresAt <= UnixSeconds(w.now) || (c.jti in w.records && w.records[c.jti].revoked)
    ensures VerifyAuthn(Run(w, actions), bearer).Err?
  {
    hide CompactOf, Inv;
    RunExtends(w, actions);
    var end := Run(w, actions);
    assert UnixSeconds(w.now) <= UnixSeconds(end.now);
    assert end.signed[CompactOf(bearer)] == w.signed[CompactOf(bearer)];
  }

  /** Revoking a recorded token refuses it at once, and along every further run. */
  lemma RevocationRefuses(w: World, actions: seq<Action>, bearer: string)
    requires Inv(w) && CompactOf(bearer) in w.signed && w.signed[CompactOf(bearer)].jti in w.records
    ensures VerifyAuthn(Run(Apply(w, Revoke(w.signed[CompactOf(bearer)].jti)), actions), bearer).Err?
  {
    hide CompactOf, Inv, Run;
    var jti := w.signed[CompactOf(bearer)].jti;
    ApplyKeeps(w, Revoke(jti));
    RefusalIsFinal(Apply(w, Revoke(jti)), actions, bearer);
  }

  /** Whatever the key may have signed, under this configuration or another: a presented token
      passes the first check exactly when it is signed, bears an id, is before its expiry, and
      matches each of issuer and audience that is configured. */
  lemma SignatureCheckIsExact(w: World, caller: nat, text: string, jti: string)
    requires caller in w.callers && w.callers[caller].VerifySignature?
    requires forall t :: t in w.signed ==> IsCompact(t)
    ensures
      var presented := CompactOf(w.callers[caller].bearer);
      var passed :=
        && presented in w.signed
        && var c := w.signed[presented];
        && c.jti != "" && UnixSeconds(w.now) < c.expiresAt
        && w.cfg.issuer in {"", c.issuer}
        && (w.cfg.authServiceAudience != "" ==> w.cfg.authServiceAudience in c.audience);
      Step(w, caller, text, jti).callers[caller]
      == if passed then VerifyLookup(presented, w.callers[caller].purpose) else Done(Failed(Unauthenticated))
  {
    SignatureStep(w, caller, text, jti);
    hide CompactOf, Step;
  }

  lemma SignatureStep(w: World, caller: nat, text: string, jti: string)
    requires caller in w.callers && w.callers[caller].VerifySignature?
    ensures
      var pc := w.callers[caller];
      Step(w, caller, text, jti)
      == match CheckSignature(w, pc.bearer)
         case Ok(t) => At(w, caller, VerifyLookup(t, pc.purpose))
         case Err(e) => Fail(w, caller, e)
  {
    hide CheckSignature;
  }

  /** Every authz token ever signed: write access to each of its resources was checked for
      the very account it names, which had presented a live token or been named by an operator. */
  lemma AuthzTokensAreChecked(w: World, actions: seq<Action>, text: string)
    requires Initial(w) && text in Run(w, actions).signed && Run(w, actions).signed[text].resources != []
    ensures
      var end := Run(w, actions);
      exists user: Id ::
        end.signed[text].subject == BridgeSubject(user) && AllChecked(end.facts, user, end.signed[text].resources)
  {
    EveryRunKeepsInv(w, actions);
    assert SignedOk(Run(w, actions).cfg, Run(w, actions).facts, text, Run(w, actions).signed[text]);
  }

  /** An empty audience on both settings makes minting fail at the signer; otherwise the
      configured checks of verification are met by construction. */
  lemma MintingNeedsAnAudience(cfg: Config, user: Id, ttl: nat, now: nat, jti: string)
    ensures
      var r := NewAuthnClaims(cfg.issuer, AuthnAudience(cfg), BridgeSubject(user), BRIDGE, ttl, now, jti);
      && (r.Ok? <==> cfg.issuer != "" && (cfg.audience != [] || cfg.authServiceAudience != ""))
      && (r.Ok? ==> Addressed(r.value, cfg.issuer, cfg.authServiceAudience) && UnixSeconds(now) <= r.value.expiresAt)
      && (r.Ok? && ttl >= SECOND ==> ValidClaims(r.value, cfg.issuer, cfg.authServiceAudience, now))
  {
    if AuthnAudience(cfg) != cfg.audience {
      assert AuthnAudience(cfg)[|cfg.audience|] == cfg.authServiceAudience;
    }
  }

  // ---- the Authorization value -----------------------------------------------------------------------------------

  lemma TrimKeeps(s: string)
    requires s != "" && !IsWhitespace(s[0]) && !IsWhitespace(s[|s| - 1])
    ensures Trim(s) == s
  {
  }

  /** A signed text is found again, bare or behind "Bearer ". */
  lemma CompactRoundTrip(text: string)
    requires IsCompact(text)
    ensures CompactOf(text) == text && CompactOf(BEARER + text) == text
  {
    assert text[0] in text && text[|text| - 1] in text;
    TrimKeeps(text);
    assert BEARER[6] == ' ';
    assert |text| > 6 ==> text[..7][6] == text[6] && text[6] in text;
    var value := BEARER + text;
    assert value[0] == 'B' && value[|value| - 1] == text[|text| - 1];
    TrimKeeps(value);
    assert value[..7] == BEARER && value[7..] == text;
  }
}
