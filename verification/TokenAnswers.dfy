/** What the callers of the token service are told, in every interleaving: whom a token is for,
    how long it lives and which resources it carries go back to what its own call asked for. */
module TokenAnswers {
  import opened Text
  import opened CoreModel
  import opened AuthnTokens

  // ---- where a call has been ----------------------------------------------------------------------

  /** The k-th action was a step of the caller, taken from this point of its call in this world. */
  ghost predicate StoodAt(w: World, actions: seq<Action>, k: nat, c: nat, pc: Pc, u: World) {
    && k < |actions| && actions[k].Advance? && actions[k].caller == c
    && u == Run(w, actions[..k]) && c in u.callers && u.callers[c] == pc
  }

  ghost predicate WasAt(w: World, actions: seq<Action>, c: nat, pc: Pc, u: World) {
    exists k: nat :: StoodAt(w, actions, k, c, pc, u)
  }

  // ---- minting an authn token ---------------------------------------------------------------------

  /** The call was for a token of the user, whose account was active. */
  ghost predicate MayMint(w: World, acts: seq<Action>, c: nat, user: Id, ttl: Option<nat>) {
    exists u :: WasAt(w, acts, c, MintPrincipal(user, ttl), u) && IsActive(u.accounts, user)
  }

  /** It was signed at this time, for the time asked for or configured. */
  ghost predicate Minting(w: World, acts: seq<Action>, c: nat, user: Id, at: nat, lifetime: nat) {
    exists ttl: Option<nat>, u ::
      && WasAt(w, acts, c, MintSign(user, ttl), u) && MayMint(w, acts, c, user, ttl)
      && at == u.now && lifetime == match ttl { case Some(asked) => asked case None => u.cfg.authnTtl }
  }

  // ---- verifying ------------------------------------------------------------------------------------

  /** The call presented the token, and it was the user's and alive when the log was read. */
  ghost predicate Presented(w: World, acts: seq<Action>, c: nat, purpose: Purpose, user: Id) {
    exists t: string, u ::
      WasAt(w, acts, c, VerifyLookup(t, purpose), u) && Bears(w, acts, c, t, purpose) && Live(u, t, user)
  }

  ghost predicate Bears(w: World, acts: seq<Action>, c: nat, t: string, purpose: Purpose) {
    exists bearer: string, u :: WasAt(w, acts, c, VerifySignature(bearer, purpose), u) && CompactOf(bearer) == t
  }

  // ---- exchanging -------------------------------------------------------------------------------------

  /** An operator named the user, active, and asked for a writer's token. */
  ghost predicate Named(w: World, acts: seq<Action>, c: nat, user: Id, name: string, ttl: Option<nat>) {
    exists role: string, u ::
      WasAt(w, acts, c, ManualPrincipal(user, name, role, ttl), u) && role in {"", "writer"}
      && IsActive(u.accounts, user)
  }

  /** The operator's name led to the resource. */
  ghost predicate LedTo(w: World, acts: seq<Action>, c: nat, user: Id, rid: string, ttl: Option<nat>) {
    exists name: string, u ::
      && WasAt(w, acts, c, ManualRepository(user, name, ttl), u) && Named(w, acts, c, user, name, ttl)
      && name in u.repositories && u.repositories[name] == rid
  }

  ghost predicate LedToWritable(w: World, acts: seq<Action>, c: nat, user: Id, rid: string, ttl: Option<nat>) {
    && LedTo(w, acts, c, user, rid, ttl)
    && exists u :: WasAt(w, acts, c, ManualAccess(user, rid, ttl), u) && (user, rid) in u.writers
  }

  /** What the call asked for: the ids presented with a live token of the user, or the one resource
      that an operator named. */
  ghost predicate AskedFor(w: World, acts: seq<Action>, c: nat, user: Id, ids: seq<string>, ttl: Option<nat>) {
    || Presented(w, acts, c, Exchange(ids, ttl), user)
    || (|ids| == 1 && LedToWritable(w, acts, c, user, ids[0], ttl))
  }

  /** The id led to the resource when the call looked it up. */
  ghost predicate Located(w: World, acts: seq<Action>, c: nat, user: Id, id: string, rid: string) {
    exists asked, granted: seq<string>, ttl: Option<nat>, u ::
      && WasAt(w, acts, c, ExchangeResource(user, asked, granted, ttl), u) && asked != [] && asked[0] == id
      && id in u.resources && u.resources[id] == rid
  }

  /** And the user had write access to the resource. */
  ghost predicate Granted(w: World, acts: seq<Action>, c: nat, user: Id, id: string, rid: string) {
    && Located(w, acts, c, user, id, rid)
    && exists asked, granted: seq<string>, ttl: Option<nat>, u ::
         WasAt(w, acts, c, ExchangeAccess(user, rid, asked, granted, ttl), u) && (user, rid) in u.writers
  }

  /** One resource for each id, in order. */
  ghost predicate AllGranted(w: World, acts: seq<Action>, c: nat, user: Id, ids: seq<string>, rids: seq<string>) {
    |ids| == |rids| && forall i :: 0 <= i < |ids| ==> Granted(w, acts, c, user, ids[i], rids[i])
  }

  /** Part of what was asked for is granted, and the rest is still to do. */
  ghost predicate Halfway(w: World, acts: seq<Action>, c: nat, user: Id, done: seq<string>, rest: seq<string>,
                          granted: seq<string>, ttl: Option<nat>) {
    AskedFor(w, acts, c, user, done + rest, ttl) && AllGranted(w, acts, c, user, done, granted)
  }

  /** Times in tokens are whole seconds, rounded down; a lifetime of zero stands for an hour. */
  ghost predicate LivesFrom(claims: Claims, at: nat, lifetime: nat) {
    && claims.issuedAt * SECOND <= at < (claims.issuedAt + 1) * SECOND
    && claims.expiresAt * SECOND <= at + (if lifetime == 0 then 3_600 * SECOND else lifetime)
    && at + (if lifetime == 0 then 3_600 * SECOND else lifetime) < (claims.expiresAt + 1) * SECOND
  }

  /** The signed token names the user and carries exactly the resources of the ids asked for. */
  ghost predicate SignedAsAsked(w: World, acts: seq<Action>, c: nat, user: Id, claims: Claims) {
    exists ids: seq<string>, ttl: Option<nat>, u ::
      && WasAt(w, acts, c, ExchangeSign(user, claims.resources, ttl), u)
      && Halfway(w, acts, c, user, ids, [], claims.resources, ttl)
      && claims.subject == "user:" + user && claims.audience == u.cfg.audience && claims.issuer == u.cfg.issuer
      && LivesFrom(claims, u.now, match ttl { case Some(asked) => asked case None => u.cfg.authzTtl })
  }

  // ---- why a caller stands where it stands ---------------------------------------------------------------

  /** What must have happened in the call before an answer. */
  ghost predicate Earned(w: World, acts: seq<Action>, end: World, c: nat, o: Outcome) {
    match o
    case MintReturned(text) =>
      exists jti: string, user: Id, at: nat, lifetime: nat ::
        Minting(w, acts, c, user, at, lifetime) && Minted(text, jti, user, at, lifetime) in end.facts
    case Verified(subject, user) => Presented(w, acts, c, Accept, user) && subject == "user:" + user
    case AuthzReturned(text) =>
      && text in end.signed && end.signed[text].jti in end.records
      && var r := end.records[end.signed[text].jti];
      && r.kind == Authz && SignedAsAsked(w, acts, c, r.userId, end.signed[text])
    case Failed(_) => true
  }

  ghost predicate Story(w: World, acts: seq<Action>, end: World, c: nat, pc: Pc) {
    match pc
    case MintSign(user, ttl) => MayMint(w, acts, c, user, ttl)
    case MintRecord(user, text, at, lifetime) => Minting(w, acts, c, user, at, lifetime)
    case VerifyLookup(t, purpose) => Bears(w, acts, c, t, purpose)
    case ManualRepository(user, name, ttl) => Named(w, acts, c, user, name, ttl)
    case ManualAccess(user, rid, ttl) => LedTo(w, acts, c, user, rid, ttl)
    case ExchangeResource(user, asked, granted, ttl) =>
      exists done: seq<string> :: Halfway(w, acts, c, user, done, asked, granted, ttl)
    case ExchangeAccess(user, rid, asked, granted, ttl) =>
      exists done: seq<string>, id: string ::
        Halfway(w, acts, c, user, done, [id] + asked, granted, ttl) && Located(w, acts, c, user, id, rid)
    case ExchangeSign(user, granted, ttl) =>
      exists done: seq<string> :: Halfway(w, acts, c, user, done, [], granted, ttl)
    case ExchangeRecord(user, text) => text in end.signed && SignedAsAsked(w, acts, c, user, end.signed[text])
    case Done(o) => Earned(w, acts, end, c, o)
    case _ => true
  }

  // ---- what has happened stays so -----------------------------------------------------------------------

  lemma WasAtStays(w: World, acts: seq<Action>, a: Action, c: nat)
    ensures forall pc, u :: WasAt(w, acts, c, pc, u) ==> WasAt(w, acts + [a], c, pc, u)
  {
    hide Run;
    forall pc, u | WasAt(w, acts, c, pc, u) ensures WasAt(w, acts + [a], c, pc, u) {
      var k: nat :| StoodAt(w, acts, k, c, pc, u);
      assert (acts + [a])[..k] == acts[..k];
      assert StoodAt(w, acts + [a], k, c, pc, u);
    }
  }

  lemma MintPartsStay(w: World, acts: seq<Action>, a: Action, c: nat)
    ensures forall user, ttl :: MayMint(w, acts, c, user, ttl) ==> MayMint(w, acts + [a], c, user, ttl)
    ensures forall user, at, lifetime :: Minting(w, acts, c, user, at, lifetime) ==>
              Minting(w, acts + [a], c, user, at, lifetime)
  {
    WasAtStays(w, acts, a, c);
    hide WasAt;
    forall user, at, lifetime | Minting(w, acts, c, user, at, lifetime)
      ensures Minting(w, acts + [a], c, user, at, lifetime)
    {
      var ttl: Option<nat>, u :|
        && WasAt(w, acts, c, MintSign(user, ttl), u) && MayMint(w, acts, c, user, ttl)
        && at == u.now && lifetime == match ttl { case Some(asked) => asked case None => u.cfg.authnTtl };
      assert WasAt(w, acts + [a], c, MintSign(user, ttl), u);
    }
  }

  lemma PresentedStays(w: World, acts: seq<Action>, a: Action, c: nat)
    ensures forall t, purpose :: Bears(w, acts, c, t, purpose) ==> Bears(w, acts + [a], c, t, purpose)
    ensures forall purpose, user :: Presented(w, acts, c, purpose, user) ==> Presented(w, acts + [a], c, purpose, user)
  {
    WasAtStays(w, acts, a, c);
    hide WasAt, Live, CompactOf;
    forall t, purpose | Bears(w, acts, c, t, purpose) ensures Bears(w, acts + [a], c, t, purpose) {
      var bearer: string, u :| WasAt(w, acts, c, VerifySignature(bearer, purpose), u) && CompactOf(bearer) == t;
      assert WasAt(w, acts + [a], c, VerifySignature(bearer, purpose), u);
    }
    hide Bears;
    forall purpose, user | Presented(w, acts, c, purpose, user) ensures Presented(w, acts + [a], c, purpose, user) {
      var t: string, u :|
        WasAt(w, acts, c, VerifyLookup(t, purpose), u) && Bears(w, acts, c, t, purpose) && Live(u, t, user);
      assert WasAt(w, acts + [a], c, VerifyLookup(t, purpose), u);
    }
  }

  lemma ManualPartsStay(w: World, acts: seq<Action>, a: Action, c: nat)
    ensures forall user, name, ttl :: Named(w, acts, c, user, name, ttl) ==> Named(w, acts + [a], c, user, name, ttl)
    ensures forall user, rid, ttl :: LedTo(w, acts, c, user, rid, ttl) ==> LedTo(w, acts + [a], c, user, rid, ttl)
    ensures forall user, rid, ttl :: LedToWritable(w, acts, c, user, rid, ttl) ==>
              LedToWritable(w, acts + [a], c, user, rid, ttl)
  {
    WasAtStays(w, acts, a, c);
    hide WasAt;
    forall user, name, ttl | Named(w, acts, c, user, name, ttl) ensures Named(w, acts + [a], c, user, name, ttl) {
      var role: string, u :|
        WasAt(w, acts, c, ManualPrincipal(user, name, role, ttl), u) && role in {"", "writer"}
        && IsActive(u.accounts, user);
      assert WasAt(w, acts + [a], c, ManualPrincipal(user, name, role, ttl), u);
    }
    hide Named;
    forall user, rid, ttl | LedTo(w, acts, c, user, rid, ttl) ensures LedTo(w, acts + [a], c, user, rid, ttl) {
      var name: string, u :|
        && WasAt(w, acts, c, ManualRepository(user, name, ttl), u) && Named(w, acts, c, user, name, ttl)
        && name in u.repositories && u.repositories[name] == rid;
      assert WasAt(w, acts + [a], c, ManualRepository(user, name, ttl), u);
    }
    hide LedTo;
  }

  lemma GrantPartsStay(w: World, acts: seq<Action>, a: Action, c: nat)
    ensures forall user, id, rid :: Located(w, acts, c, user, id, rid) ==> Located(w, acts + [a], c, user, id, rid)
    ensures forall user, id, rid :: Granted(w, acts, c, user, id, rid) ==> Granted(w, acts + [a], c, user, id, rid)
  {
    WasAtStays(w, acts, a, c);
    hide WasAt;
    forall user, id, rid | Located(w, acts, c, user, id, rid) ensures Located(w, acts + [a], c, user, id, rid) {
      var asked, granted: seq<string>, ttl: Option<nat>, u :|
        && WasAt(w, acts, c, ExchangeResource(user, asked, granted, ttl), u) && asked != [] && asked[0] == id
        && id in u.resources && u.resources[id] == rid;
      assert WasAt(w, acts + [a], c, ExchangeResource(user, asked, granted, ttl), u);
    }
    hide Located;
    forall user, id, rid | Granted(w, acts, c, user, id, rid) ensures Granted(w, acts + [a], c, user, id, rid) {
      var asked, granted: seq<string>, ttl: Option<nat>, u :|
        WasAt(w, acts, c, ExchangeAccess(user, rid, asked, granted, ttl), u) && (user, rid) in u.writers;
      assert WasAt(w, acts + [a], c, ExchangeAccess(user, rid, asked, granted, ttl), u);
    }
  }

  lemma HalfwayStays(w: World, acts: seq<Action>, a: Action, c: nat)
    ensures forall user, done, rest, granted, ttl :: Halfway(w, acts, c, user, done, rest, granted, ttl) ==>
              Halfway(w, acts + [a], c, user, done, rest, granted, ttl)
  {
    PresentedStays(w, acts, a, c);
    ManualPartsStay(w, acts, a, c);
    GrantPartsStay(w, acts, a, c);
    hide Presented, LedToWritable, Granted;
  }

  lemma SignedStays(w: World, acts: seq<Action>, a: Action, c: nat, user: Id, claims: Claims)
    requires SignedAsAsked(w, acts, c, user, claims)
    ensures SignedAsAsked(w, acts + [a], c, user, claims)
  {
    WasAtStays(w, acts, a, c);
    HalfwayStays(w, acts, a, c);
    hide WasAt, Halfway, LivesFrom;
    var ids: seq<string>, ttl: Option<nat>, u :|
      && WasAt(w, acts, c, ExchangeSign(user, claims.resources, ttl), u)
      && Halfway(w, acts, c, user, ids, [], claims.resources, ttl)
      && claims.subject == "user:" + user && claims.audience == u.cfg.audience && claims.issuer == u.cfg.issuer
      && LivesFrom(claims, u.now, match ttl { case Some(asked) => asked case None => u.cfg.authzTtl });
    assert WasAt(w, acts + [a], c, ExchangeSign(user, claims.resources, ttl), u);
  }

  lemma EarnedStays(w: World, acts: seq<Action>, a: Action, before: World, after: World, c: nat, o: Outcome)
    requires Earned(w, acts, before, c, o) && Extends(before, after)
    ensures Earned(w, acts + [a], after, c, o)
  {
    MintPartsStay(w, acts, a, c);
    PresentedStays(w, acts, a, c);
    hide Minting, Presented, SignedAsAsked, BridgeSubject;
    match o
    case AuthzReturned(text) =>
      SignedStays(w, acts, a, c, before.records[before.signed[text].jti].userId, before.signed[text]);
    case _ =>
  }

  lemma StoryStays(w: World, acts: seq<Action>, a: Action, before: World, after: World, c: nat, pc: Pc)
    requires Story(w, acts, before, c, pc) && Extends(before, after)
    ensures Story(w, acts + [a], after, c, pc)
  {
    MintPartsStay(w, acts, a, c);
    PresentedStays(w, acts, a, c);
    ManualPartsStay(w, acts, a, c);
    GrantPartsStay(w, acts, a, c);
    HalfwayStays(w, acts, a, c);
    hide MayMint, Minting, Bears, Named, LedTo, Halfway, Located, SignedAsAsked, Earned;
    match pc
    case ExchangeRecord(user, text) => SignedStays(w, acts, a, c, user, before.signed[text]);
    case Done(o) => EarnedStays(w, acts, a, before, after, c, o);
    case _ =>
  }

  // ---- one step ---------------------------------------------------------------------------------------------

  /** The caller stands where its story says, in this world. */
  ghost predicate Standing(w: World, acts: seq<Action>, u: World, c: nat) {
    c in u.callers && WasAt(w, acts, c, u.callers[c], u) && Story(w, acts, u, c, u.callers[c]) && Inv(u)
  }

  /** After the step its story goes on. */
  ghost predicate GoesOn(w: World, acts: seq<Action>, after: World, c: nat) {
    c in after.callers && Story(w, acts, after, c, after.callers[c])
  }

  lemma MintStory(w: World, acts: seq<Action>, u: World, c: nat, text: string, jti: string)
    requires Standing(w, acts, u, c) && (u.callers[c].MintPrincipal? || u.callers[c].MintSign?)
    ensures GoesOn(w, acts, MintStep(u, c, text, jti), c)
  {
    hide WasAt, Inv, AuthnAudience, BridgeSubject, NewAuthnClaims, SignedAsAsked, Presented, Halfway, Bears, LedTo,
         Named, Fresh;
    match u.callers[c]
    case MintPrincipal(user, ttl) =>
    case MintSign(user, ttl) =>
      hide MayMint;
      assert Minting(w, acts, c, user, u.now, Lifetime(ttl, u.cfg.authnTtl));
      hide Minting;
  }

  lemma RecordStory(w: World, acts: seq<Action>, u: World, c: nat, text: string, jti: string)
    requires Standing(w, acts, u, c) && u.callers[c].MintRecord?
    ensures GoesOn(w, acts, MintStep(u, c, text, jti), c)
  {
    hide WasAt, Inv, Minting, SignedAsAsked, Presented;
    var MintRecord(user, t, at, lifetime) := u.callers[c];
    if t in u.signed && u.signed[t].jti !in u.records {
      var f := Minted(t, u.signed[t].jti, user, at, lifetime);
      assert f in u.facts + {f};
    }
  }

  /** A token that passes the lookup is alive, and names its account. */
  lemma LookupIsLive(u: World, t: string, user: Id)
    requires Inv(u) && t in u.signed && Addressed(u.signed[t], u.cfg.issuer, u.cfg.authServiceAudience)
    requires PrincipalByJti(u, u.signed[t].jti) == Ok(user)
    ensures Live(u, t, user) && u.signed[t].subject == BridgeSubject(user)
  {
    hide CompactOf, BridgeSubject, DataOk, PcOk;
    SignedIsCompact(u, t);
    RecordExpiry(u, t, u.signed[t].jti);
    AuthnSubject(u, t);
    assert VerifyAuthn(u, t) == Ok(user);
    AcceptedIsLive(u, t, user);
  }

  lemma SignatureStory(w: World, acts: seq<Action>, u: World, c: nat)
    requires Standing(w, acts, u, c) && u.callers[c].VerifySignature?
    ensures GoesOn(w, acts, VerifyStep(u, c), c)
  {
    hide WasAt, Inv, CompactOf, ValidClaims;
    var VerifySignature(bearer, purpose) := u.callers[c];
    assert Bears(w, acts, c, CompactOf(bearer), purpose);
    hide Bears;
  }

  lemma LookupStory(w: World, acts: seq<Action>, u: World, c: nat)
    requires Standing(w, acts, u, c) && u.callers[c].VerifyLookup?
    ensures GoesOn(w, acts, VerifyStep(u, c), c)
  {
    hide WasAt, DataOk, PrincipalByJti, Addressed, Live, ExchangeStart, Bears;
    var VerifyLookup(t, purpose) := u.callers[c];
    assert PcOk(u.cfg, u.signed, u.facts, u.callers[c]);
    match PrincipalByJti(u, u.signed[t].jti)
    case Ok(user) =>
      LookupIsLive(u, t, user);
      assert Presented(w, acts, c, purpose, user);
      match purpose {
        case Accept =>
        case Exchange(ids, ttl) => BeginStory(w, acts, u.(facts := u.facts + {Vouched(user)}), c, user, ids, ttl);
      }
    case Err(_) =>
  }

  /** The exchange begins with nothing granted. */
  lemma BeginStory(w: World, acts: seq<Action>, u: World, c: nat, user: Id, ids: seq<string>, ttl: Option<nat>)
    requires AskedFor(w, acts, c, user, ids, ttl)
    ensures GoesOn(w, acts, ExchangeStart(u, c, user, ids, ttl), c)
  {
    NothingGranted(w, acts, c, user, ids, ttl);
    var after := ExchangeStart(u, c, user, ids, ttl);
    if user != "" && ids != [] {
      assert after.callers[c] == ExchangeResource(user, ids, [], ttl);
      AllToDo(w, acts, after, c, user, ids, ttl);
    } else {
      assert after.callers[c].Done? && after.callers[c].outcome.Failed?;
      FailureIsFree(w, acts, after, c, after.callers[c].outcome.error);
    }
    hide Story, ExchangeStart, ExchangeNext, Halfway, AskedFor;
  }

  lemma AllToDo(w: World, acts: seq<Action>, end: World, c: nat, user: Id, ids: seq<string>, ttl: Option<nat>)
    requires Halfway(w, acts, c, user, [], ids, [], ttl)
    ensures Story(w, acts, end, c, ExchangeResource(user, ids, [], ttl))
  {
    hide Halfway;
  }

  lemma NothingGranted(w: World, acts: seq<Action>, c: nat, user: Id, ids: seq<string>, ttl: Option<nat>)
    requires AskedFor(w, acts, c, user, ids, ttl)
    ensures Halfway(w, acts, c, user, [], ids, [], ttl)
  {
    hide AskedFor, Granted;
    assert [] + ids == ids;
  }

  lemma FailureIsFree(w: World, acts: seq<Action>, end: World, c: nat, e: CoreError)
    ensures Story(w, acts, end, c, Done(Failed(e)))
  {
  }

  lemma ManualStory(w: World, acts: seq<Action>, u: World, c: nat)
    requires Standing(w, acts, u, c)
    requires u.callers[c].ManualPrincipal?
    ensures GoesOn(w, acts, ManualStep(u, c), c)
  {
    hide WasAt, Inv, ExchangeStart;
    var ManualPrincipal(user, name, role, ttl) := u.callers[c];
    if role in {"", "writer"} && IsActive(u.accounts, user) { assert Named(w, acts, c, user, name, ttl); }
    forall e { FailureIsFree(w, acts, Fail(u, c, e), c, e); }
    hide Named, Earned;
  }

  lemma ManualRepositoryStory(w: World, acts: seq<Action>, u: World, c: nat)
    requires Standing(w, acts, u, c)
    requires u.callers[c].ManualRepository?
    ensures GoesOn(w, acts, ManualStep(u, c), c)
  {
    hide WasAt, Inv, ExchangeStart, Named;
    var ManualRepository(user, name, ttl) := u.callers[c];
    if name in u.repositories { assert LedTo(w, acts, c, user, u.repositories[name], ttl); }
    FailureIsFree(w, acts, Fail(u, c, NotFound), c, NotFound);
    hide LedTo, Earned;
  }

  lemma ManualAccessStory(w: World, acts: seq<Action>, u: World, c: nat)
    requires Standing(w, acts, u, c) && u.callers[c].ManualAccess?
    ensures GoesOn(w, acts, ManualStep(u, c), c)
  {
    hide WasAt, Inv, ExchangeStart, LedTo, Presented;
    var ManualAccess(user, rid, ttl) := u.callers[c];
    if (user, rid) in u.writers {
      assert LedToWritable(w, acts, c, user, rid, ttl);
      hide LedToWritable;
      assert AskedFor(w, acts, c, user, [rid], ttl);
      BeginStory(w, acts, u.(facts := u.facts + {Vouched(user)}), c, user, [rid], ttl);
    }
  }

  lemma ResourceStory(w: World, acts: seq<Action>, u: World, c: nat, text: string, jti: string)
    requires Standing(w, acts, u, c) && u.callers[c].ExchangeResource?
    ensures GoesOn(w, acts, ExchangeStep(u, c, text, jti), c)
  {
    hide WasAt, Inv, Halfway;
    var ExchangeResource(user, asked, granted, ttl) := u.callers[c];
    if asked != [] && asked[0] in u.resources {
      assert Located(w, acts, c, user, asked[0], u.resources[asked[0]]);
      assert [asked[0]] + asked[1..] == asked;
      hide Located;
    }
  }

  lemma AccessStory(w: World, acts: seq<Action>, u: World, c: nat, text: string, jti: string)
    requires Standing(w, acts, u, c) && u.callers[c].ExchangeAccess?
    ensures GoesOn(w, acts, ExchangeStep(u, c, text, jti), c)
  {
    hide WasAt, Inv, Halfway, Located;
    var ExchangeAccess(user, rid, asked, granted, ttl) := u.callers[c];
    var done: seq<string>, id: string :|
      Halfway(w, acts, c, user, done, [id] + asked, granted, ttl) && Located(w, acts, c, user, id, rid);
    if (user, rid) in u.writers {
      assert Granted(w, acts, c, user, id, rid);
      OneMore(w, acts, c, user, done, id, rid, asked, granted, ttl);
    }
  }

  lemma OneMore(w: World, acts: seq<Action>, c: nat, user: Id, done: seq<string>, id: string, rid: string,
                asked: seq<string>, granted: seq<string>, ttl: Option<nat>)
    requires Halfway(w, acts, c, user, done, [id] + asked, granted, ttl) && Granted(w, acts, c, user, id, rid)
    ensures Halfway(w, acts, c, user, done + [id], asked, granted + [rid], ttl)
  {
    hide AskedFor, Granted;
    assert done + ([id] + asked) == done + [id] + asked;
  }

  lemma SignStory(w: World, acts: seq<Action>, u: World, c: nat, text: string, jti: string)
    requires Standing(w, acts, u, c) && u.callers[c].ExchangeSign?
    ensures GoesOn(w, acts, ExchangeStep(u, c, text, jti), c)
  {
    hide WasAt, Inv, Halfway, Fresh;
    var ExchangeSign(user, granted, ttl) := u.callers[c];
    match NewAuthzClaims(u.cfg.issuer, u.cfg.audience, BridgeSubject(user), BRIDGE, granted,
                         Lifetime(ttl, u.cfg.authzTtl), u.now, jti)
    case Ok(claims) =>
      assert LivesFrom(claims, u.now, Lifetime(ttl, u.cfg.authzTtl));
      hide LivesFrom;
      assert SignedAsAsked(w, acts, c, user, claims);
      hide SignedAsAsked, Earned;
    case Err(e) => FailureIsFree(w, acts, Fail(u, c, e), c, e);
  }

  lemma ExchangedStory(w: World, acts: seq<Action>, u: World, c: nat, text: string, jti: string)
    requires Standing(w, acts, u, c) && u.callers[c].ExchangeRecord?
    ensures GoesOn(w, acts, ExchangeStep(u, c, text, jti), c)
  {
    hide WasAt, Inv, SignedAsAsked;
  }

  lemma StepStory(w: World, acts: seq<Action>, u: World, c: nat, text: string, jti: string)
    requires Standing(w, acts, u, c)
    ensures GoesOn(w, acts, Step(u, c, text, jti), c)
  {
    var pc := u.callers[c];
    if pc.Done? { return; }
    hide Standing, GoesOn, MintStep, VerifyStep, ManualStep, ExchangeStep;
    if pc.MintPrincipal? || pc.MintSign? { MintStory(w, acts, u, c, text, jti); }
    else if pc.MintRecord? { RecordStory(w, acts, u, c, text, jti); }
    else if pc.VerifySignature? { SignatureStory(w, acts, u, c); }
    else if pc.VerifyLookup? { LookupStory(w, acts, u, c); }
    else if pc.ManualAccess? { ManualAccessStory(w, acts, u, c); }
    else if pc.ManualPrincipal? { ManualStory(w, acts, u, c); }
    else if pc.ManualRepository? { ManualRepositoryStory(w, acts, u, c); }
    else if pc.ExchangeResource? { ResourceStory(w, acts, u, c, text, jti); }
    else if pc.ExchangeAccess? { AccessStory(w, acts, u, c, text, jti); }
    else if pc.ExchangeSign? { SignStory(w, acts, u, c, text, jti); }
    else { ExchangedStory(w, acts, u, c, text, jti); }
  }

  // ---- every run -------------------------------------------------------------------------------------------------

  ghost predicate Stories(w: World, acts: seq<Action>, end: World) {
    forall c :: c in end.callers ==> Story(w, acts, end, c, end.callers[c])
  }

  lemma OthersUntouched(u: World, c: nat, text: string, jti: string)
    requires Inv(u) && c in u.callers
    ensures
      var after := Step(u, c, text, jti);
      c in after.callers && after.callers == u.callers[c := after.callers[c]]
  {
    hide Step, DataOk, PcOk;
    StepKeeps(u, c, text, jti);
  }

  lemma ExtendsItself(u: World)
    ensures Extends(u, u)
  {
  }

  lemma StandsThere(w: World, earlier: seq<Action>, a: Action, u: World, c: nat)
    requires u == Run(w, earlier) && Inv(u) && c in u.callers && Story(w, earlier, u, c, u.callers[c])
    requires a.Advance? && a.caller == c
    ensures Standing(w, earlier + [a], u, c)
  {
    hide Story, Inv, Run, Extends;
    ExtendsItself(u);
    StoryStays(w, earlier, a, u, u, c, u.callers[c]);
    assert (earlier + [a])[..|earlier|] == earlier;
    assert StoodAt(w, earlier + [a], |earlier|, c, u.callers[c], u);
  }

  lemma ApplyStories(w: World, earlier: seq<Action>, a: Action)
    requires Inv(Run(w, earlier)) && Stories(w, earlier, Run(w, earlier))
    ensures Stories(w, earlier + [a], Apply(Run(w, earlier), a))
  {
    hide Story, Inv, Step, Run, Extends, Standing;
    var before := Run(w, earlier);
    var end := Apply(before, a);
    ApplyKeeps(before, a);
    if a.Advance? && a.caller in before.callers { OthersUntouched(before, a.caller, a.text, a.jti); }
    forall c | c in end.callers ensures Story(w, earlier + [a], end, c, end.callers[c]) {
      if c !in before.callers {
        EntryHasNoStory(w, earlier + [a], end, c, end.callers[c]);
      } else if a.Advance? && a.caller == c {
        StandsThere(w, earlier, a, before, c);
        StepStory(w, earlier + [a], before, c, a.text, a.jti);
      } else {
        StoryStays(w, earlier, a, before, end, c, before.callers[c]);
      }
    }
  }

  lemma EntryHasNoStory(w: World, acts: seq<Action>, end: World, c: nat, pc: Pc)
    requires IsEntry(pc)
    ensures Story(w, acts, end, c, pc)
  {
  }

  lemma {:induction false} EveryRunHasStories(w: World, actions: seq<Action>)
    requires Initial(w)
    ensures Stories(w, actions, Run(w, actions))
  {
    if actions != [] {
      var earlier, a := actions[..|actions| - 1], actions[|actions| - 1];
      assert actions == earlier + [a];
      EveryRunHasStories(w, earlier);
      EveryRunKeepsInv(w, earlier);
      ApplyStories(w, earlier, a);
    }
  }

  /** Every answer of every run is earned by what its own call was given, read and did. */
  lemma EveryAnswerIsEarned(w: World, actions: seq<Action>, c: nat)
    requires Initial(w) && c in Run(w, actions).callers && Run(w, actions).callers[c].Done?
    ensures Earned(w, actions, Run(w, actions), c, Run(w, actions).callers[c].outcome)
  {
    hide Earned, Run;
    EveryRunHasStories(w, actions);
    assert Story(w, actions, Run(w, actions), c, Run(w, actions).callers[c]);
  }

  /** The authz token that a call returns carries exactly the resources of the ids that the call
      asked for: one for each, in order, each found under its id and writable for the user. */
  lemma ExchangedTokensCarryWhatWasAsked(w: World, actions: seq<Action>, c: nat, text: string)
      returns (user: Id, ids: seq<string>, ttl: Option<nat>)
    requires Initial(w) && c in Run(w, actions).callers && Run(w, actions).callers[c] == Done(AuthzReturned(text))
    ensures
      var end := Run(w, actions);
      && text in end.signed && end.signed[text].subject == "user:" + user
      && AskedFor(w, actions, c, user, ids, ttl) && |end.signed[text].resources| == |ids|
      && forall i :: 0 <= i < |ids| ==> Granted(w, actions, c, user, ids[i], end.signed[text].resources[i])
  {
    EveryAnswerIsEarned(w, actions, c);
    hide Run, SignedAsAsked, AskedFor, Granted;
    var claims := Run(w, actions).signed[text];
    user := Run(w, actions).records[claims.jti].userId;
    ids, ttl := SignedFor(w, actions, c, user, claims);
  }

  lemma SignedFor(w: World, acts: seq<Action>, c: nat, user: Id, claims: Claims)
      returns (ids: seq<string>, ttl: Option<nat>)
    requires SignedAsAsked(w, acts, c, user, claims)
    ensures claims.subject == "user:" + user && AskedFor(w, acts, c, user, ids, ttl)
    ensures AllGranted(w, acts, c, user, ids, claims.resources)
  {
    hide WasAt, LivesFrom, AskedFor, Granted;
    var u;
    ids, ttl, u :|
      && WasAt(w, acts, c, ExchangeSign(user, claims.resources, ttl), u)
      && Halfway(w, acts, c, user, ids, [], claims.resources, ttl)
      && claims.subject == "user:" + user && claims.audience == u.cfg.audience && claims.issuer == u.cfg.issuer
      && LivesFrom(claims, u.now, match ttl { case Some(asked) => asked case None => u.cfg.authzTtl });
    assert ids + [] == ids;
  }

  /** What a minted token says. */
  lemma MintedTokensSay(w: World, actions: seq<Action>, f: Fact)
    requires Initial(w) && f in Run(w, actions).facts && f.Minted?
    ensures
      var end := Run(w, actions);
      && f.text in end.signed && var claims := end.signed[f.text];
      && claims.jti == f.jti && claims.subject == "user:" + f.user && claims.idp == "bridge" && claims.resources == []
      && claims.issuer == w.cfg.issuer && LivesFrom(claims, f.at, f.lifetime)
      && claims.audience == if w.cfg.authServiceAudience == "" || w.cfg.authServiceAudience in w.cfg.audience
                            then w.cfg.audience
                            else w.cfg.audience + [w.cfg.authServiceAudience]
  {
    EveryRunKeepsInv(w, actions);
    var end := Run(w, actions);
    hide Run, PcOk, RecordOk, IsCompact;
    assert FactOk(end.signed, end.records, f);
    assert SignedOk(end.cfg, end.facts, f.text, end.signed[f.text]);
  }

  /** Every authn token was minted in some call for its user, whose account was active, to live as
      long as the call asked or as configured. */
  lemma {:induction false} EveryMintedTokenWasAskedFor(w: World, actions: seq<Action>, f: Fact) returns (c: nat)
    requires Initial(w) && f in Run(w, actions).facts && f.Minted?
    ensures Minting(w, actions, c, f.user, f.at, f.lifetime)
  {
    var earlier, a := actions[..|actions| - 1], actions[|actions| - 1];
    var before := Run(w, earlier);
    assert actions == earlier + [a];
    if f in before.facts {
      c := EveryMintedTokenWasAskedFor(w, earlier, f);
    } else {
      c := a.caller;
      EveryRunHasStories(w, earlier);
      hide Run, Step, Minting;
      OnlyMintingMints(before, c, a.text, a.jti, f);
      assert Story(w, earlier, before, c, before.callers[c]);
    }
    MintPartsStay(w, earlier, a, c);
  }

  lemma OnlyMintingMints(u: World, c: nat, text: string, jti: string, f: Fact)
    requires c in u.callers && f !in u.facts && f.Minted? && f in Step(u, c, text, jti).facts
    ensures
      var pc := u.callers[c];
      pc.MintRecord? && pc.user == f.user && pc.at == f.at && pc.lifetime == f.lifetime
  {
    hide MintStep, VerifyStep, ManualStep, ExchangeStep;
    var pc := u.callers[c];
    if pc.MintPrincipal? || pc.MintSign? || pc.MintRecord? {
      MintFacts(u, c, text, jti, f);
    } else if pc.VerifySignature? || pc.VerifyLookup? {
      VerifyFacts(u, c, f);
    } else if pc.ManualPrincipal? || pc.ManualRepository? || pc.ManualAccess? {
      ManualFacts(u, c, f);
    } else if !pc.Done? {
      ExchangeFacts(u, c, text, jti, f);
    }
  }

  lemma MintFacts(u: World, c: nat, text: string, jti: string, f: Fact)
    requires c in u.callers && f !in u.facts
    requires u.callers[c].MintPrincipal? || u.callers[c].MintSign? || u.callers[c].MintRecord?
    requires f in MintStep(u, c, text, jti).facts
    ensures
      var pc := u.callers[c];
      f.Minted? && pc.MintRecord? && pc.user == f.user && pc.at == f.at && pc.lifetime == f.lifetime
  {
    hide PrincipalOf, Fresh, NewAuthnClaims, BridgeSubject, AuthnAudience, InsertRecord, Lifetime;
    if u.callers[c].MintRecord? {
      var MintRecord(user, t, at, lifetime) := u.callers[c];
      assert f in u.facts + {Minted(t, u.signed[t].jti, user, at, lifetime)};
    }
  }

  lemma VerifyFacts(u: World, c: nat, f: Fact)
    requires c in u.callers && (u.callers[c].VerifySignature? || u.callers[c].VerifyLookup?)
    ensures f in VerifyStep(u, c).facts ==> f in u.facts || f.Vouched?
  {
    forall user, ids, ttl
      ensures ExchangeStart(u.(facts := u.facts + {Vouched(user)}), c, user, ids, ttl).facts
           == u.facts + {Vouched(user)}
    {
      StartKeepsFacts(u.(facts := u.facts + {Vouched(user)}), c, user, ids, ttl);
    }
    hide CheckSignature, PrincipalByJti, ExchangeStart;
  }

  lemma ManualFacts(u: World, c: nat, f: Fact)
    requires c in u.callers
    requires u.callers[c].ManualPrincipal? || u.callers[c].ManualRepository? || u.callers[c].ManualAccess?
    ensures f in ManualStep(u, c).facts ==> f in u.facts || f.Vouched?
  {
    match u.callers[c] {
      case ManualAccess(user, rid, ttl) =>
        StartKeepsFacts(u.(facts := u.facts + {Vouched(user)}), c, user, [rid], ttl);
      case _ =>
    }
    hide PrincipalOf, ExchangeStart;
  }

  lemma StartKeepsFacts(u: World, c: nat, user: Id, ids: seq<string>, ttl: Option<nat>)
    ensures ExchangeStart(u, c, user, ids, ttl).facts == u.facts
  {
  }

  lemma ExchangeFacts(u: World, c: nat, text: string, jti: string, f: Fact)
    requires c in u.callers
    requires
      var pc := u.callers[c];
      pc.ExchangeResource? || pc.ExchangeAccess? || pc.ExchangeSign? || pc.ExchangeRecord?
    ensures f in ExchangeStep(u, c, text, jti).facts ==> f in u.facts || f.WriteChecked?
  {
    hide Fresh, NewAuthzClaims, ExchangeNext, BridgeSubject, InsertRecord, Lifetime;
    var pc := u.callers[c];
    if pc.ExchangeAccess? {
      assert ExchangeStep(u, c, text, jti).facts in {u.facts, u.facts + {WriteChecked(pc.user, pc.resourceId)}};
    } else {
      assert ExchangeStep(u, c, text, jti).facts == u.facts;
    }
    hide ExchangeStep;
  }

  // ---- an exchange that nobody disturbs -------------------------------------------------------------------------

  /** The caller's next steps, with nobody else moving. */
  function Alone(u: World, c: nat, n: nat, text: string, jti: string): World
    decreases n
  {
    if n == 0 || c !in u.callers then u else Alone(Step(u, c, text, jti), c, n - 1, text, jti)
  }

  predicate AllWritable(u: World, user: Id, ids: seq<string>) {
    forall i :: 0 <= i < |ids| ==> ids[i] in u.resources && (user, u.resources[ids[i]]) in u.writers
  }

  function ResourcesOf(u: World, ids: seq<string>): seq<string>
    requires forall i :: 0 <= i < |ids| ==> ids[i] in u.resources
  {
    seq(|ids|, i requires 0 <= i < |ids| => u.resources[ids[i]])
  }

  predicate CanRecord(u: World, text: string, jti: string) {
    Fresh(u, text, jti) && jti !in u.records
  }

  predicate CanSign(u: World) {
    u.cfg.issuer != "" && u.cfg.audience != []
  }

  lemma {:induction false} DoneIsDone(u: World, c: nat, n: nat, text: string, jti: string)
    requires c in u.callers && u.callers[c].Done?
    ensures Alone(u, c, n, text, jti) == u
    decreases n
  {
    if n > 0 { DoneIsDone(u, c, n - 1, text, jti); }
  }

  /** Only the caller and the facts may have changed. */
  predicate Moved(u: World, after: World, c: nat) {
    after == u.(callers := after.callers, facts := after.facts) && c in after.callers
  }

  predicate HasFailed(u: World, c: nat)
    requires c in u.callers
  {
    u.callers[c].Done? && u.callers[c].outcome.Failed?
  }

  /** The exchange, alone, ends with the token or with a failure. */
  ghost predicate Ends(end: World, c: nat, text: string, ok: bool, resources: seq<string>) {
    && c in end.callers && end.callers[c].Done?
    && (end.callers[c] == Done(AuthzReturned(text)) <==> ok)
    && (ok ==> text in end.signed && end.signed[text].resources == resources)
  }

  lemma SignAlone(u: World, c: nat, user: Id, granted: seq<string>, ttl: Option<nat>, text: string, jti: string)
    requires c in u.callers && u.callers[c] == ExchangeSign(user, granted, ttl) && granted != []
    requires CanRecord(u, text, jti)
    ensures Ends(Alone(u, c, 2, text, jti), c, text, CanSign(u), granted)
  {
    hide UnixSeconds, DefaultTtl, Fresh, MintStep, VerifyStep, ManualStep;
    assert BridgeSubject(user) != "";
    hide BridgeSubject;
    var u1 := Step(u, c, text, jti);
    assert Alone(u, c, 2, text, jti) == Alone(u1, c, 1, text, jti);
    hide Step, Alone;
    if CanSign(u) {
      RecordsAlone(u1, c, user, text, jti);
    } else {
      DoneIsDone(u1, c, 1, text, jti);
    }
  }

  lemma RecordsAlone(u: World, c: nat, user: Id, text: string, jti: string)
    requires c in u.callers && u.callers[c] == ExchangeRecord(user, text)
    requires text in u.signed && u.signed[text].jti !in u.records
    ensures Ends(Alone(u, c, 1, text, jti), c, text, true, u.signed[text].resources)
  {
    hide MintStep, VerifyStep, ManualStep;
    assert Alone(u, c, 1, text, jti) == Alone(Step(u, c, text, jti), c, 0, text, jti);
  }

  /** One id: looked up, and then checked. */
  lemma OneAlone(u: World, c: nat, user: Id, asked: seq<string>, granted: seq<string>, ttl: Option<nat>, n: nat,
                 text: string, jti: string) returns (u2: World)
    requires c in u.callers && u.callers[c] == ExchangeResource(user, asked, granted, ttl) && asked != []
    ensures Alone(u, c, n + 2, text, jti) == Alone(u2, c, n, text, jti)
    ensures u2 == u.(callers := u2.callers, facts := u2.facts) && c in u2.callers
    ensures if asked[0] in u.resources && (user, u.resources[asked[0]]) in u.writers
            then u2.callers[c] == ExchangeNext(user, asked[1..], granted + [u.resources[asked[0]]], ttl)
            else u2.callers[c].Done? && u2.callers[c].outcome.Failed?
  {
    hide Step, Alone;
    var u1 := FoundAlone(u, c, user, asked, granted, ttl, n + 1, text, jti);
    if asked[0] in u.resources {
      u2 := CheckedAlone(u1, c, user, u.resources[asked[0]], asked[1..], granted, ttl, n, text, jti);
    } else {
      u2 := u1;
      DoneIsDone(u1, c, n + 1, text, jti);
      DoneIsDone(u1, c, n, text, jti);
    }
  }

  lemma FoundAlone(u: World, c: nat, user: Id, asked: seq<string>, granted: seq<string>, ttl: Option<nat>, n: nat,
                   text: string, jti: string) returns (u1: World)
    requires c in u.callers && u.callers[c] == ExchangeResource(user, asked, granted, ttl) && asked != []
    ensures Alone(u, c, n + 1, text, jti) == Alone(u1, c, n, text, jti)
    ensures if asked[0] in u.resources
            then u1 == At(u, c, ExchangeAccess(user, u.resources[asked[0]], asked[1..], granted, ttl))
            else u1 == Fail(u, c, NotFound)
  {
    hide MintStep, VerifyStep, ManualStep;
    u1 := Step(u, c, text, jti);
    assert Alone(u, c, n + 1, text, jti) == Alone(u1, c, n, text, jti);
  }

  lemma CheckedAlone(u: World, c: nat, user: Id, rid: string, asked: seq<string>, granted: seq<string>,
                     ttl: Option<nat>, n: nat, text: string, jti: string) returns (u1: World)
    requires c in u.callers && u.callers[c] == ExchangeAccess(user, rid, asked, granted, ttl)
    ensures Alone(u, c, n + 1, text, jti) == Alone(u1, c, n, text, jti) && Moved(u, u1, c)
    ensures if (user, rid) in u.writers then u1.callers[c] == ExchangeNext(user, asked, granted + [rid], ttl)
            else HasFailed(u1, c)
  {
    hide MintStep, VerifyStep, ManualStep, ExchangeNext;
    u1 := Step(u, c, text, jti);
    assert Alone(u, c, n + 1, text, jti) == Alone(u1, c, n, text, jti);
  }

  ghost predicate AllFound(u: World, ids: seq<string>) {
    forall i :: 0 <= i < |ids| ==> ids[i] in u.resources
  }

  lemma {:induction false} ExchangeAlone(u: World, c: nat, user: Id, asked: seq<string>, granted: seq<string>,
                                         ttl: Option<nat>, text: string, jti: string)
    requires c in u.callers && u.callers[c] == ExchangeNext(user, asked, granted, ttl) && granted + asked != []
    requires CanRecord(u, text, jti)
    ensures Ends(Alone(u, c, 2 * |asked| + 2, text, jti), c, text, AllWritable(u, user, asked) && CanSign(u),
                 if AllFound(u, asked) then granted + ResourcesOf(u, asked) else [])
    decreases |asked|
  {
    hide Step, Fresh;
    if asked == [] {
      SignAlone(u, c, user, granted, ttl, text, jti);
      assert granted + ResourcesOf(u, []) == granted;
    } else {
      var u2 := OneAlone(u, c, user, asked, granted, ttl, 2 * |asked|, text, jti);
      OneThenRest(u, user, asked);
      if asked[0] in u.resources && (user, u.resources[asked[0]]) in u.writers {
        assert CanRecord(u2, text, jti) by { SameFresh(u, u2, text, jti); }
        ExchangeAlone(u2, c, user, asked[1..], granted + [u.resources[asked[0]]], ttl, text, jti);
        assert AllWritable(u2, user, asked[1..]) == AllWritable(u, user, asked[1..]);
        if AllFound(u, asked) {
          assert granted + [u.resources[asked[0]]] + ResourcesOf(u2, asked[1..]) == granted + ResourcesOf(u, asked);
        }
      } else {
        DoneIsDone(u2, c, 2 * |asked|, text, jti);
      }
    }
  }

  lemma OneThenRest(u: World, user: Id, ids: seq<string>)
    requires ids != []
    ensures AllWritable(u, user, ids) <==>
              ids[0] in u.resources && (user, u.resources[ids[0]]) in u.writers && AllWritable(u, user, ids[1..])
    ensures AllFound(u, ids) <==> ids[0] in u.resources && AllFound(u, ids[1..])
  {
    assert forall i :: 0 <= i < |ids| ==> i == 0 || ids[i] == ids[1..][i - 1];
    assert forall i :: 0 <= i < |ids| - 1 ==> ids[1..][i] == ids[i + 1];
  }

  lemma SameFresh(u: World, u2: World, text: string, jti: string)
    requires u2.signed == u.signed && Fresh(u, text, jti)
    ensures Fresh(u2, text, jti)
  {
  }

  /** An exchange that nobody disturbs returns a token exactly when the presented token is alive,
      every id exists and is writable for its user, and the signer is configured; the token then
      carries the resource of every id, in order. */
  lemma UndisturbedExchange(u: World, c: nat, bearer: string, ids: seq<string>, ttl: Option<nat>, text: string,
                            jti: string)
    requires Inv(u) && c in u.callers && u.callers[c] == VerifySignature(bearer, Exchange(ids, ttl))
    requires Fresh(u, text, jti)
    ensures
      var end := Alone(u, c, 2 * |ids| + 4, text, jti);
      && c in end.callers && end.callers[c].Done?
      && (end.callers[c] == Done(AuthzReturned(text)) <==>
            exists user: Id :: Live(u, CompactOf(bearer), user) && user != "" && ids != []
                               && AllWritable(u, user, ids) && CanSign(u))
      && (end.callers[c] == Done(AuthzReturned(text)) ==>
            && text in end.signed && |end.signed[text].resources| == |ids|
            && forall i :: 0 <= i < |ids| ==>
                 ids[i] in u.resources && end.signed[text].resources[i] == u.resources[ids[i]])
  {
    hide CompactOf, Inv, Live, Step, Fresh;
    forall user ensures VerifyAuthn(u, bearer) == Ok(user) <==> Live(u, CompactOf(bearer), user) {
      if VerifyAuthn(u, bearer) == Ok(user) { AcceptedIsLive(u, bearer, user); }
      if Live(u, CompactOf(bearer), user) { LiveIsAccepted(u, bearer, user); }
    }
    var u2 := VerifiesAlone(u, c, bearer, ids, ttl, 2 * |ids| + 2, text, jti);
    if VerifyAuthn(u, bearer).Ok? && VerifyAuthn(u, bearer).value != "" && ids != [] {
      var user := VerifyAuthn(u, bearer).value;
      SameFresh(u, u2, text, jti);
      FreshIsUnrecorded(u, text, jti);
      ExchangeAlone(u2, c, user, ids, [], ttl, text, jti);
      assert AllWritable(u2, user, ids) == AllWritable(u, user, ids);
    } else {
      DoneIsDone(u2, c, 2 * |ids| + 2, text, jti);
    }
  }

  lemma FreshIsUnrecorded(u: World, text: string, jti: string)
    requires Inv(u) && Fresh(u, text, jti)
    ensures jti !in u.records
  {
    assert forall j :: j in u.records ==> RecordOk(u.signed, u.facts, j, u.records[j]);
  }

  lemma VerifiesAlone(u: World, c: nat, bearer: string, ids: seq<string>, ttl: Option<nat>, n: nat, text: string,
                      jti: string) returns (u2: World)
    requires c in u.callers && u.callers[c] == VerifySignature(bearer, Exchange(ids, ttl))
    ensures Alone(u, c, n + 2, text, jti) == Alone(u2, c, n, text, jti)
    ensures u2 == u.(callers := u2.callers, facts := u2.facts) && c in u2.callers
    ensures
      var r := VerifyAuthn(u, bearer);
      if r.Ok? && r.value != "" && ids != []
      then u2.callers[c] == ExchangeNext(r.value, ids, [], ttl)
      else u2.callers[c].Done? && u2.callers[c].outcome.Failed?
  {
    hide CompactOf, ValidClaims, ActivePrincipal, Alone, Step;
    var u1 := SignatureAlone(u, c, bearer, Exchange(ids, ttl), n + 1, text, jti);
    if CheckSignature(u, bearer).Ok? {
      u2 := LookupAlone(u1, c, CheckSignature(u, bearer).value, ids, ttl, n, text, jti);
    } else {
      u2 := u1;
      DoneIsDone(u1, c, n + 1, text, jti);
      DoneIsDone(u1, c, n, text, jti);
    }
  }

  lemma SignatureAlone(u: World, c: nat, bearer: string, purpose: Purpose, n: nat, text: string, jti: string)
      returns (u1: World)
    requires c in u.callers && u.callers[c] == VerifySignature(bearer, purpose)
    ensures Alone(u, c, n + 1, text, jti) == Alone(u1, c, n, text, jti)
    ensures match CheckSignature(u, bearer)
            case Ok(t) => u1 == At(u, c, VerifyLookup(t, purpose)) && t in u.signed
            case Err(e) => u1 == Fail(u, c, e)
  {
    hide CompactOf, ValidClaims, MintStep, ManualStep, ExchangeStep;
    u1 := Step(u, c, text, jti);
    assert Alone(u, c, n + 1, text, jti) == Alone(u1, c, n, text, jti);
  }

  lemma LookupAlone(u: World, c: nat, t: string, ids: seq<string>, ttl: Option<nat>, n: nat, text: string, jti: string)
      returns (u1: World)
    requires c in u.callers && u.callers[c] == VerifyLookup(t, Exchange(ids, ttl)) && t in u.signed
    ensures Alone(u, c, n + 1, text, jti) == Alone(u1, c, n, text, jti) && Moved(u, u1, c)
    ensures
      var r := PrincipalByJti(u, u.signed[t].jti);
      if r.Ok? && r.value != "" && ids != []
      then u1.callers[c] == ExchangeNext(r.value, ids, [], ttl)
      else HasFailed(u1, c)
  {
    hide PrincipalByJti, MintStep, ManualStep, ExchangeStep;
    u1 := Step(u, c, text, jti);
    assert Alone(u, c, n + 1, text, jti) == Alone(u1, c, n, text, jti);
  }

  /** Minting that nobody disturbs returns a token exactly for an active account, with an issuer and
      some audience configured. */
  lemma UndisturbedMint(u: World, c: nat, user: Id, ttl: Option<nat>, text: string, jti: string)
    requires Inv(u) && c in u.callers && u.callers[c] == MintPrincipal(user, ttl) && Fresh(u, text, jti)
    ensures
      var end := Alone(u, c, 3, text, jti);
      && c in end.callers
      && (end.callers[c] == Done(MintReturned(text)) <==>
            && IsActive(u.accounts, user) && u.cfg.issuer != ""
            && (u.cfg.audience != [] || u.cfg.authServiceAudience != ""))
  {
    FreshIsUnrecorded(u, text, jti);
    SameFresh(u, Step(u, c, text, jti), text, jti);
    hide Fresh, Inv;
    var u1 := Step(u, c, text, jti);
    assert Alone(u, c, 3, text, jti) == Alone(u1, c, 2, text, jti);
    if IsActive(u.accounts, user) {
      assert u1 == At(u, c, MintSign(user, ttl));
      hide Step, Alone;
      MintAlone(u1, c, user, ttl, text, jti);
    } else {
      DoneIsDone(u1, c, 2, text, jti);
    }
  }

  lemma MintAlone(u: World, c: nat, user: Id, ttl: Option<nat>, text: string, jti: string)
    requires c in u.callers && u.callers[c] == MintSign(user, ttl) && CanRecord(u, text, jti)
    ensures
      var end := Alone(u, c, 2, text, jti);
      && c in end.callers
      && (end.callers[c] == Done(MintReturned(text)) <==>
            u.cfg.issuer != "" && (u.cfg.audience != [] || u.cfg.authServiceAudience != ""))
  {
    hide UnixSeconds, DefaultTtl, Fresh, VerifyStep, ManualStep, ExchangeStep;
    assert BridgeSubject(user) != "";
    assert AuthnAudience(u.cfg) == [] <==> u.cfg.audience == [] && u.cfg.authServiceAudience == "";
    hide BridgeSubject, AuthnAudience;
    var u1 := Step(u, c, text, jti);
    var u2 := Step(u1, c, text, jti);
    assert Alone(u, c, 2, text, jti) == Alone(u1, c, 1, text, jti);
    assert Alone(u1, c, 1, text, jti) == Alone(u2, c, 0, text, jti);
  }

  /** A verification that nobody disturbs accepts exactly a live token, for its user. */
  lemma UndisturbedVerification(u: World, c: nat, bearer: string, user: Id, text: string, jti: string)
    requires Inv(u) && c in u.callers && u.callers[c] == VerifySignature(bearer, Accept)
    ensures
      var end := Alone(u, c, 2, text, jti);
      && c in end.callers
      && (end.callers[c] == Done(Verified("user:" + user, user)) <==> Live(u, CompactOf(bearer), user))
  {
    if VerifyAuthn(u, bearer) == Ok(user) {
      AcceptedIsLive(u, bearer, user);
      LookupIsLive(u, CompactOf(bearer), user);
    }
    if Live(u, CompactOf(bearer), user) { LiveIsAccepted(u, bearer, user); }
    hide CompactOf, Inv, Live, ValidClaims, PrincipalByJti, Alone, Step;
    var u1 := SignatureAlone(u, c, bearer, Accept, 1, text, jti);
    match CheckSignature(u, bearer)
    case Ok(t) => AcceptAlone(u1, c, t, text, jti);
    case Err(_) => DoneIsDone(u1, c, 1, text, jti);
  }

  lemma AcceptAlone(u: World, c: nat, t: string, text: string, jti: string)
    requires c in u.callers && u.callers[c] == VerifyLookup(t, Accept) && t in u.signed
    ensures Alone(u, c, 1, text, jti)
         == match PrincipalByJti(u, u.signed[t].jti)
            case Ok(user) => At(u, c, Done(Verified(u.signed[t].subject, user)))
            case Err(e) => Fail(u, c, e)
  {
    hide PrincipalByJti, MintStep, ManualStep, ExchangeStep;
    assert Alone(u, c, 1, text, jti) == Alone(Step(u, c, text, jti), c, 0, text, jti);
  }

  /** A writer role, an active account, and a named repository that it may write. */
  predicate NamedWritable(u: World, user: Id, name: string, role: string) {
    && role in {"", "writer"} && IsActive(u.accounts, user) && user != ""
    && name in u.repositories && (user, u.repositories[name]) in u.writers
  }

  /** And the resource of the repository exists, and may be written too. */
  predicate ManuallyMintable(u: World, user: Id, name: string, role: string) {
    && NamedWritable(u, user, name, role) && u.repositories[name] in u.resources
    && (user, u.resources[u.repositories[name]]) in u.writers && CanSign(u)
  }

  function ManualResources(u: World, user: Id, name: string, role: string): seq<string> {
    if ManuallyMintable(u, user, name, role) then [u.resources[u.repositories[name]]] else []
  }

  /** Manual minting that nobody disturbs returns a token exactly in that case, for exactly the
      resource of the repository. */
  lemma UndisturbedManualMint(u: World, c: nat, user: Id, name: string, role: string, ttl: Option<nat>, text: string,
                              jti: string)
    requires Inv(u) && c in u.callers && u.callers[c] == ManualPrincipal(user, name, role, ttl)
    requires Fresh(u, text, jti)
    ensures Ends(Alone(u, c, 7, text, jti), c, text, ManuallyMintable(u, user, name, role),
                 ManualResources(u, user, name, role))
  {
    FreshIsUnrecorded(u, text, jti);
    hide Inv, Fresh, Step, Alone, Ends, CanSign;
    var u1 := RoleAlone(u, c, user, name, role, ttl, 6, text, jti);
    if !u1.callers[c].Done? {
      var u3 := NameAlone(u1, c, user, name, ttl, 4, text, jti);
      if !u3.callers[c].Done? {
        MintableEnds(u, u3, c, user, name, role, ttl, text, jti);
      } else {
        FailedEnds(u, u3, c, 4, user, name, role, text, jti);
      }
    } else {
      FailedEnds(u, u1, c, 6, user, name, role, text, jti);
    }
  }

  lemma FailedEnds(u: World, after: World, c: nat, n: nat, user: Id, name: string, role: string, text: string,
                   jti: string)
    requires c in after.callers && HasFailed(after, c) && !NamedWritable(u, user, name, role)
    ensures Ends(Alone(after, c, n, text, jti), c, text, ManuallyMintable(u, user, name, role),
                 ManualResources(u, user, name, role))
  {
    DoneIsDone(after, c, n, text, jti);
  }

  lemma RoleAlone(u: World, c: nat, user: Id, name: string, role: string, ttl: Option<nat>, n: nat, text: string,
                  jti: string) returns (u1: World)
    requires c in u.callers && u.callers[c] == ManualPrincipal(user, name, role, ttl)
    ensures Alone(u, c, n + 1, text, jti) == Alone(u1, c, n, text, jti) && Moved(u, u1, c)
    ensures if role in {"", "writer"} && IsActive(u.accounts, user)
            then u1.callers[c] == ManualRepository(user, name, ttl) && u1.facts == u.facts
            else HasFailed(u1, c)
  {
    u1 := Step(u, c, text, jti);
    assert u1 == ManualStep(u, c);
    hide Step;
    assert Alone(u, c, n + 1, text, jti) == Alone(u1, c, n, text, jti);
    hide Alone;
    RoleStep(u, c, user, name, role, ttl);
    hide ManualStep;
  }

  lemma RoleStep(u: World, c: nat, user: Id, name: string, role: string, ttl: Option<nat>)
    requires c in u.callers && u.callers[c] == ManualPrincipal(user, name, role, ttl)
    ensures Moved(u, ManualStep(u, c), c)
    ensures if role in {"", "writer"} && IsActive(u.accounts, user)
            then ManualStep(u, c) == At(u, c, ManualRepository(user, name, ttl))
            else HasFailed(ManualStep(u, c), c)
  {
    hide ExchangeStart;
  }

  lemma NameAlone(u: World, c: nat, user: Id, name: string, ttl: Option<nat>, n: nat, text: string, jti: string)
      returns (u2: World)
    requires c in u.callers && u.callers[c] == ManualRepository(user, name, ttl)
    ensures Alone(u, c, n + 2, text, jti) == Alone(u2, c, n, text, jti) && Moved(u, u2, c)
    ensures if name in u.repositories && (user, u.repositories[name]) in u.writers && user != ""
            then u2.callers[c] == ExchangeNext(user, [u.repositories[name]], [], ttl)
            else HasFailed(u2, c)
  {
    hide MintStep, VerifyStep, ExchangeStep;
    var u1 := Step(u, c, text, jti);
    u2 := Step(u1, c, text, jti);
    assert Alone(u, c, n + 2, text, jti) == Alone(u1, c, n + 1, text, jti);
    assert Alone(u1, c, n + 1, text, jti) == Alone(u2, c, n, text, jti);
  }

  lemma MintableEnds(u: World, u3: World, c: nat, user: Id, name: string, role: string, ttl: Option<nat>, text: string,
                     jti: string)
    requires NamedWritable(u, user, name, role) && CanRecord(u, text, jti) && Moved(u, u3, c)
    requires u3.callers[c] == ExchangeNext(user, [u.repositories[name]], [], ttl)
    ensures Ends(Alone(u3, c, 4, text, jti), c, text, ManuallyMintable(u, user, name, role),
                 ManualResources(u, user, name, role))
  {
    hide Fresh, Step, Alone, Ends;
    SameFresh(u, u3, text, jti);
    OneAsked(u3, c, user, u.repositories[name], ttl, text, jti);
  }

  /** The exchange of a single id. */
  lemma OneAsked(u: World, c: nat, user: Id, id: string, ttl: Option<nat>, text: string, jti: string)
    requires c in u.callers && u.callers[c] == ExchangeNext(user, [id], [], ttl) && CanRecord(u, text, jti)
    ensures
      var ok := id in u.resources && (user, u.resources[id]) in u.writers && CanSign(u);
      Ends(Alone(u, c, 4, text, jti), c, text, ok, if ok then [u.resources[id]] else [])
  {
    hide Step, Alone, Fresh, CanSign;
    ExchangeAlone(u, c, user, [id], [], ttl, text, jti);
    OneIsWritable(u, user, id);
    hide ResourcesOf;
  }

  lemma OneIsWritable(u: World, user: Id, id: string)
    ensures AllWritable(u, user, [id]) <==> id in u.resources && (user, u.resources[id]) in u.writers
    ensures id in u.resources ==> AllFound(u, [id]) && [] + ResourcesOf(u, [id]) == [u.resources[id]]
  {
    assert forall i :: 0 <= i < |[id]| ==> [id][i] == id;
    assert [id][0] == id;
  }
}
