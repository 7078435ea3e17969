/** What the callers of the sign-in flow are told, in every interleaving: each answer goes back
    to what its own call was given, read and did. */
module SessionAnswers {
  import opened Text
  import opened CoreModel
  import opened History
  import opened AuthSessions

  // ---- where a call has been ----------------------------------------------------------------------

  /** The k-th action was a step of the caller, taken from this point of its call in this world. */
  ghost predicate StoodAt(w: World, actions: seq<Action>, k: nat, c: nat, pc: Pc, u: World) {
    && k < |actions| && actions[k].Advance? && actions[k].caller == c
    && u == Run(w, actions[..k]) && c in u.callers && u.callers[c] == pc
  }

  ghost predicate WasAt(w: World, actions: seq<Action>, c: nat, pc: Pc, u: World) {
    exists k: nat :: StoodAt(w, actions, k, c, pc, u)
  }

  /** The call presented a code and client state, and read the unexpired session of the code. */
  ghost predicate ReadSession(w: World, actions: seq<Action>, c: nat, code: string, cs: string, x: Session) {
    exists u ::
      && WasAt(w, actions, c, GetRead(code, cs), u)
      && Trim(code) in u.store.byCode && u.store.byCode[Trim(code)] in u.store.sessions
      && u.store.sessions[u.store.byCode[Trim(code)]] == x
  }

  /** It then found the session unexpired and the client state right. */
  ghost predicate Checked(w: World, actions: seq<Action>, c: nat, code: string, cs: string, x: Session) {
    && ReadSession(w, actions, c, code, cs, x) && x.clientStateHash == Trim(cs)
    && exists u :: WasAt(w, actions, c, GetCheck(code, cs, x), u) && u.now < x.expiresAt
  }

  /** It then found the account of a completed session active. */
  ghost predicate Admitted(w: World, actions: seq<Action>, c: nat, code: string, cs: string, x: Session) {
    && Checked(w, actions, c, code, cs, x) && x.status == Completed && x.userId != ""
    && exists u :: WasAt(w, actions, c, GetMint(code, cs, x), u) && IsActive(u.accounts, x.userId)
  }

  /** The login of the call was resolved to the user. */
  ghost predicate Resolved(w: World, actions: seq<Action>, c: nat, user: Id, nonce: string) {
    exists identity: string, u ::
      && WasAt(w, actions, c, LoginResolve(identity, nonce), u)
      && identity in u.logins && u.logins[identity] == Ok(user)
  }

  /** The call found the unexpired session of its nonce. */
  ghost predicate FoundSession(w: World, actions: seq<Action>, c: nat, user: Id, x: Session) {
    && Resolved(w, actions, c, user, x.nonce) && x.nonce != ""
    && exists u :: WasAt(w, actions, c, LoginFind(user, x.nonce), u)
                   && x.id in u.store.sessions && u.store.sessions[x.id] == x && u.now < x.expiresAt
  }

  ghost predicate NoSession(w: World, actions: seq<Action>, c: nat, user: Id, nonce: string) {
    exists u ::
      && WasAt(w, actions, c, LoginFind(user, nonce), u)
      && forall id :: id in u.store.sessions && u.store.sessions[id].nonce == nonce ==>
           u.store.sessions[id].expiresAt <= u.now
  }

  /** The call started a session of its own, with the code and nonce it returns. */
  ghost predicate Opened(w: World, actions: seq<Action>, end: World, c: nat, code: string, nonce: string) {
    exists cs: string, ttl: int, u ::
      WasAt(w, actions, c, StartCreate(cs, ttl), u) && StartedAs(end, code, cs, nonce, u.now + ttl)
  }

  ghost predicate StartedAs(end: World, code: string, cs: string, nonce: string, expiresAt: int) {
    && Trim(code) in end.store.byCode
    && SessionStarted(end.store.byCode[Trim(code)], cs, nonce, expiresAt) in end.log
  }

  // ---- why a caller stands where it stands -----------------------------------------------------------

  /** What must have happened in the call before an answer. */
  ghost predicate Earned(w: World, actions: seq<Action>, end: World, c: nat, o: Outcome) {
    match o
    case TokenReady(user) =>
      exists code, cs: string, x, at: int ::
        && Admitted(w, actions, c, code, cs, x) && x.userId == user
        && TokenReturned(c, x.id, code, cs, user, at) in end.log
    case NotReady =>
      exists code, cs: string, x :: Checked(w, actions, c, code, cs, x) && (x.status != Completed || x.userId == "")
    case CliComplete(user) =>
      exists x, at: int ::
        FoundSession(w, actions, c, user, x) && SessionCompleted(c, x.id, user, at) in end.log
    case BrowserSession(user) =>
      exists nonce: string ::
        Resolved(w, actions, c, user, nonce) && (nonce == "" || NoSession(w, actions, c, user, nonce))
    case UnknownUser =>
      exists identity, nonce: string, u ::
        && WasAt(w, actions, c, LoginResolve(identity, nonce), u)
        && (identity !in u.logins || u.logins[identity] == Err(NotFound))
    case Started(code, nonce) => Opened(w, actions, end, c, code, nonce)
    case Failed(e) =>
      e == MISMATCH ==>
        || (exists code, cs: string, x :: ReadSession(w, actions, c, code, cs, x) && x.clientStateHash != Trim(cs))
        || (exists identity, nonce: string, u ::
              && WasAt(w, actions, c, LoginResolve(identity, nonce), u)
              && identity in u.logins && u.logins[identity] == Err(e))
  }

  ghost predicate Story(w: World, actions: seq<Action>, end: World, c: nat, pc: Pc) {
    match pc
    case GetCheck(code, cs, x) => ReadSession(w, actions, c, code, cs, x)
    case GetMint(code, cs, x) =>
      Checked(w, actions, c, code, cs, x) && x.status == Completed && x.userId != ""
    case GetConsume(code, cs, x) => Admitted(w, actions, c, code, cs, x)
    case LoginFind(user, nonce) => Resolved(w, actions, c, user, nonce) && nonce != ""
    case LoginComplete(user, x) => FoundSession(w, actions, c, user, x)
    case Done(o) => Earned(w, actions, end, c, o)
    case _ => true
  }

  // ---- what has happened stays so ---------------------------------------------------------------------

  lemma WasAtStays(w: World, actions: seq<Action>, a: Action, c: nat)
    ensures forall pc, u :: WasAt(w, actions, c, pc, u) ==> WasAt(w, actions + [a], c, pc, u)
  {
    hide Run;
    forall pc, u | WasAt(w, actions, c, pc, u) ensures WasAt(w, actions + [a], c, pc, u) {
      var k: nat :| StoodAt(w, actions, k, c, pc, u);
      assert (actions + [a])[..k] == actions[..k];
      assert StoodAt(w, actions + [a], k, c, pc, u);
    }
  }

  lemma PartsStay(w: World, actions: seq<Action>, a: Action, c: nat)
    ensures forall code, cs, x ::
              ReadSession(w, actions, c, code, cs, x) ==> ReadSession(w, actions + [a], c, code, cs, x)
    ensures forall code, cs, x :: Checked(w, actions, c, code, cs, x) ==> Checked(w, actions + [a], c, code, cs, x)
    ensures forall code, cs, x :: Admitted(w, actions, c, code, cs, x) ==> Admitted(w, actions + [a], c, code, cs, x)
    ensures forall user, nonce :: Resolved(w, actions, c, user, nonce) ==> Resolved(w, actions + [a], c, user, nonce)
    ensures forall user, x :: FoundSession(w, actions, c, user, x) ==> FoundSession(w, actions + [a], c, user, x)
    ensures forall user, nonce :: NoSession(w, actions, c, user, nonce) ==> NoSession(w, actions + [a], c, user, nonce)
  {
    WasAtStays(w, actions, a, c);
    hide WasAt, Trim;
    forall user, nonce | Resolved(w, actions, c, user, nonce) ensures Resolved(w, actions + [a], c, user, nonce) {
      var identity: string, u :|
        && WasAt(w, actions, c, LoginResolve(identity, nonce), u)
        && identity in u.logins && u.logins[identity] == Ok(user);
      assert WasAt(w, actions + [a], c, LoginResolve(identity, nonce), u);
    }
  }

  /** The history and the index of codes only grow. */
  ghost predicate Grows(before: World, after: World) {
    && before.log <= after.log
    && forall h :: h in before.store.byCode ==>
         h in after.store.byCode && after.store.byCode[h] == before.store.byCode[h]
  }

  lemma InGrown(before: World, after: World)
    requires Grows(before, after)
    ensures forall e :: e in before.log ==> e in after.log
  {
    forall e | e in before.log ensures e in after.log { InPrefix(before.log, after.log, e); }
  }

  lemma EarnedStays(w: World, actions: seq<Action>, a: Action, before: World, after: World, c: nat, o: Outcome)
    requires Earned(w, actions, before, c, o) && Grows(before, after)
    ensures Earned(w, actions + [a], after, c, o)
  {
    PartsStay(w, actions, a, c);
    WasAtStays(w, actions, a, c);
    InGrown(before, after);
    hide WasAt, Trim, ReadSession, Checked, Admitted, Resolved, FoundSession, NoSession, Opened;
    match o
    case Started(code, nonce) => OpenedStays(w, actions, a, before, after, c, code, nonce);
    case UnknownUser =>
      var identity, nonce: string, u :|
        && WasAt(w, actions, c, LoginResolve(identity, nonce), u)
        && (identity !in u.logins || u.logins[identity] == Err(NotFound));
      assert WasAt(w, actions + [a], c, LoginResolve(identity, nonce), u);
    case Failed(e) =>
      if identity, nonce: string, u :|
        WasAt(w, actions, c, LoginResolve(identity, nonce), u) && identity in u.logins && u.logins[identity] == Err(e)
      {
        assert WasAt(w, actions + [a], c, LoginResolve(identity, nonce), u);
      }
    case _ =>
  }

  lemma OpenedStays(w: World, actions: seq<Action>, a: Action, before: World, after: World, c: nat, code: string,
                    nonce: string)
    requires Opened(w, actions, before, c, code, nonce) && Grows(before, after)
    ensures Opened(w, actions + [a], after, c, code, nonce)
  {
    WasAtStays(w, actions, a, c);
    InGrown(before, after);
    hide WasAt, Trim;
    var cs: string, ttl: int, u :|
      WasAt(w, actions, c, StartCreate(cs, ttl), u) && StartedAs(before, code, cs, nonce, u.now + ttl);
    assert WasAt(w, actions + [a], c, StartCreate(cs, ttl), u) && StartedAs(after, code, cs, nonce, u.now + ttl);
  }

  lemma StoryStays(w: World, actions: seq<Action>, a: Action, before: World, after: World, c: nat, pc: Pc)
    requires Story(w, actions, before, c, pc) && Grows(before, after)
    ensures Story(w, actions + [a], after, c, pc)
  {
    PartsStay(w, actions, a, c);
    hide ReadSession, Checked, Admitted, Resolved, FoundSession, Earned, Trim;
    if pc.Done? { EarnedStays(w, actions, a, before, after, c, pc.outcome); }
  }

  /** After the step the caller's story goes on. */
  ghost predicate GoesOn(w: World, acts: seq<Action>, u: World, c: nat, draw: Draw)
    requires c in u.callers
  {
    c in Step(u, c, draw).callers && Story(w, acts, Step(u, c, draw), c, Step(u, c, draw).callers[c])
  }

  // ---- one step --------------------------------------------------------------------------------------------

  /** A step of a redemption. */
  lemma RedeemStory(w: World, acts: seq<Action>, u: World, c: nat, draw: Draw)
    requires c in u.callers && WasAt(w, acts, c, u.callers[c], u) && Story(w, acts, u, c, u.callers[c])
    requires u.callers[c].GetRead? || u.callers[c].GetCheck? || u.callers[c].GetMint? || u.callers[c].GetConsume?
    ensures GoesOn(w, acts, u, c, draw)
  {
    hide WasAt, Trim;
    match u.callers[c]
    case GetRead(code, cs) =>
    case GetCheck(code, cs, x) =>
      if u.now < x.expiresAt && x.clientStateHash == Trim(cs) { assert Checked(w, acts, c, code, cs, x); }
      hide Checked, ReadSession;
    case GetMint(code, cs, x) =>
      if PrincipalOf(u.accounts, x.userId).Ok? { assert Admitted(w, acts, c, code, cs, x); }
      hide Admitted, Checked;
    case GetConsume(code, cs, x) =>
      var (store, r) := Consume(u.store, x.id, u.now);
      if r.Ok? {
        var e := TokenReturned(c, x.id, code, cs, x.userId, u.now);
        assert e in u.log + [e];
      }
  }

  /** The steps of a login, and of a start. */
  lemma ResolveStory(w: World, acts: seq<Action>, u: World, c: nat, draw: Draw)
    requires c in u.callers && WasAt(w, acts, c, u.callers[c], u) && Story(w, acts, u, c, u.callers[c])
    requires u.callers[c].LoginResolve?
    ensures GoesOn(w, acts, u, c, draw)
  {
    hide WasAt, Trim;
    var LoginResolve(identity, nonce) := u.callers[c];
    if identity in u.logins && u.logins[identity].Ok? {
      assert Resolved(w, acts, c, u.logins[identity].value, nonce);
    }
    hide Resolved, NoSession, FoundSession, ReadSession, Checked, Admitted, Opened;
  }

  lemma FindStory(w: World, acts: seq<Action>, u: World, c: nat, draw: Draw)
    requires Inv(u)
    requires c in u.callers && WasAt(w, acts, c, u.callers[c], u) && Story(w, acts, u, c, u.callers[c])
    requires u.callers[c].LoginFind?
    ensures GoesOn(w, acts, u, c, draw)
  {
    hide WasAt, Trim, ByNonce, Inv, Resolved, ReadSession, Checked, Admitted, Opened;
    NonceLookup(u, u.callers[c].nonce);
  }

  lemma NonceLookup(u: World, nonce: string)
    requires Inv(u)
    ensures
      match ByNonce(u.store, nonce, u.now)
      case Ok(x) => x.id in u.store.sessions && u.store.sessions[x.id] == x && x.nonce == nonce && u.now < x.expiresAt
      case Err(_) => forall id :: id in u.store.sessions && u.store.sessions[id].nonce == nonce ==>
                       u.store.sessions[id].expiresAt <= u.now
  {
    hide HashSecret, PcOk, LogOk;
    assert forall id :: id in u.store.sessions ==> SessionOk(u.log, id, u.store.sessions[id]);
    assert forall id :: id in WithNonce(u.store.sessions, nonce) <==>
             id in u.store.sessions && u.store.sessions[id].nonce == nonce;
  }

  lemma CompleteStory(w: World, acts: seq<Action>, u: World, c: nat, draw: Draw)
    requires c in u.callers && WasAt(w, acts, c, u.callers[c], u) && Story(w, acts, u, c, u.callers[c])
    requires u.callers[c].LoginComplete?
    ensures GoesOn(w, acts, u, c, draw)
  {
    hide WasAt, Trim, FoundSession;
    var LoginComplete(user, x) := u.callers[c];
    if Complete(u.store, x.id, user, u.now).1.Ok? {
      var e := SessionCompleted(c, x.id, user, u.now);
      assert e in u.log + [e];
    }
  }

  lemma StartStory(w: World, acts: seq<Action>, u: World, c: nat, draw: Draw)
    requires c in u.callers && WasAt(w, acts, c, u.callers[c], u) && Story(w, acts, u, c, u.callers[c])
    requires u.callers[c].StartCreate?
    ensures GoesOn(w, acts, u, c, draw)
  {
    hide WasAt, Trim;
    var StartCreate(cs, ttl) := u.callers[c];
    if Fresh(u.store, draw) {
      var e := SessionStarted(draw.id, cs, draw.nonce, u.now + ttl);
      assert e in u.log + [e];
      assert StartedAs(Step(u, c, draw), draw.code, cs, draw.nonce, u.now + ttl);
    }
  }

  lemma StepStory(w: World, acts: seq<Action>, u: World, c: nat, draw: Draw)
    requires Inv(u)
    requires c in u.callers && WasAt(w, acts, c, u.callers[c], u) && Story(w, acts, u, c, u.callers[c])
    ensures GoesOn(w, acts, u, c, draw)
  {
    var pc := u.callers[c];
    if pc.Done? { return; }
    hide WasAt, Story, Inv, GoesOn, Step;
    if pc.StartCreate? {
      StartStory(w, acts, u, c, draw);
    } else if pc.LoginComplete? {
      CompleteStory(w, acts, u, c, draw);
    } else if pc.LoginResolve? {
      ResolveStory(w, acts, u, c, draw);
    } else if pc.LoginFind? {
      FindStory(w, acts, u, c, draw);
    } else {
      RedeemStory(w, acts, u, c, draw);
    }
  }

  // ---- every run ---------------------------------------------------------------------------------------------

  ghost predicate Stories(w: World, actions: seq<Action>, end: World) {
    forall c :: c in end.callers ==> Story(w, actions, end, c, end.callers[c])
  }

  lemma OthersUntouched(u: World, c: nat, draw: Draw)
    requires Inv(u) && c in u.callers
    ensures
      var after := Step(u, c, draw);
      c in after.callers && after.callers == u.callers[c := after.callers[c]]
  {
    hide Step, DataOk, PcOk;
    StepKeeps(u, c, draw);
  }

  lemma ApplyGrows(u: World, a: Action)
    requires Inv(u)
    ensures Grows(u, Apply(u, a))
  {
    hide Inv, Apply;
    ApplyKeeps(u, a);
  }

  lemma ApplyStories(w: World, earlier: seq<Action>, a: Action)
    requires Inv(Run(w, earlier)) && Stories(w, earlier, Run(w, earlier))
    ensures Stories(w, earlier + [a], Apply(Run(w, earlier), a))
  {
    hide Story, Inv, Step, Run, Grows;
    var before := Run(w, earlier);
    var end := Apply(before, a);
    ApplyGrows(before, a);
    if a.Advance? && a.caller in before.callers { OthersUntouched(before, a.caller, a.draw); }
    forall c | c in end.callers ensures Story(w, earlier + [a], end, c, end.callers[c]) {
      if c !in before.callers {
        EntryHasNoStory(w, earlier + [a], end, c, end.callers[c]);
      } else if a.Advance? && a.caller == c {
        StoryStays(w, earlier, a, before, before, c, before.callers[c]) by { SelfGrows(before); }
        assert (earlier + [a])[..|earlier|] == earlier;
        assert StoodAt(w, earlier + [a], |earlier|, c, before.callers[c], before);
        StepStory(w, earlier + [a], before, c, a.draw);
      } else {
        StoryStays(w, earlier, a, before, end, c, before.callers[c]);
      }
    }
  }

  lemma SelfGrows(u: World)
    ensures Grows(u, u)
  {
  }

  lemma EntryHasNoStory(w: World, actions: seq<Action>, end: World, c: nat, pc: Pc)
    requires IsEntry(pc)
    ensures Story(w, actions, end, c, pc)
  {
  }

  lemma {:induction false} EveryRunHasStories(w: World, actions: seq<Action>)
    requires Initial(w)
    ensures Stories(w, actions, Run(w, actions))
  {
    if actions != [] {
      var earlier, a := actions[..|actions| - 1], actions[|actions| - 1];
      assert actions == earlier + [a];
      EveryRunHasStories(w, earlier);
      EveryRunKeepsInv(w, earlier);
      ApplyStories(w, earlier, a);
    }
  }

  /** Every answer of every run is earned by what its own call was given, read and did. */
  lemma EveryAnswerIsEarned(w: World, actions: seq<Action>, c: nat)
    requires Initial(w) && c in Run(w, actions).callers && Run(w, actions).callers[c].Done?
    ensures Earned(w, actions, Run(w, actions), c, Run(w, actions).callers[c].outcome)
  {
    hide Earned, Run;
    EveryRunHasStories(w, actions);
    assert Story(w, actions, Run(w, actions), c, Run(w, actions).callers[c]);
  }

  // ---- the history names the callers that were answered -----------------------------------------------------

  /** The caller whose success an event records. */
  function Winner(e: Event): Option<nat> {
    match e
    case SessionCompleted(c, _, _, _) => Some(c)
    case TokenReturned(c, _, _, _, _, _) => Some(c)
    case _ => None
  }

  predicate Success(e: Event, o: Outcome) {
    match e
    case SessionCompleted(_, _, user, _) => o == CliComplete(user)
    case TokenReturned(_, _, _, _, user, _) => o == TokenReady(user)
    case _ => true
  }

  ghost predicate Answered(u: World, e: Event) {
    Winner(e).Some? ==>
      && Winner(e).value in u.callers && u.callers[Winner(e).value].Done?
      && Success(e, u.callers[Winner(e).value].outcome)
  }

  ghost predicate AllAnswered(u: World) {
    && (forall e :: e in u.log ==> Answered(u, e))
    && forall i, j :: 0 <= i < j < |u.log| && Winner(u.log[i]).Some? ==> Winner(u.log[i]) != Winner(u.log[j])
  }

  /** What a step adds to the history, and what it then answers. */
  ghost predicate Recorded(u: World, after: World, c: nat)
    requires c in u.callers
  {
    && (u.callers[c].Done? ==> after == u)
    && (after.log == u.log
        || (&& |after.log| == |u.log| + 1 && after.log[..|u.log|] == u.log
            && var e := after.log[|u.log|];
            && (Winner(e).Some? ==> Winner(e).value == c && Answered(after, e))))
  }

  lemma StepIsRecorded(u: World, c: nat, draw: Draw)
    requires c in u.callers
    ensures Recorded(u, Step(u, c, draw), c)
  {
    hide HashSecret, ByCode, ByNonce, Create, PrincipalOf, Fresh;
  }

  lemma RecordedKeepsAnswers(u: World, after: World, c: nat)
    requires AllAnswered(u) && c in u.callers && Recorded(u, after, c)
    requires c in after.callers && after.callers == u.callers[c := after.callers[c]]
    ensures AllAnswered(after)
  {
    if !u.callers[c].Done? {
      forall e | e in u.log ensures Winner(e) != Some(c) {
        assert Answered(u, e);
      }
      forall e | e in after.log ensures Answered(after, e) {
        if e in u.log { assert Answered(u, e); } else { assert e == after.log[|u.log|]; }
      }
      forall i | 0 <= i < |u.log| ensures after.log[i] == u.log[i] && u.log[i] in u.log {
        assert after.log[..|u.log|][i] == u.log[i];
      }
    }
  }

  lemma ApplyKeepsAnswers(u: World, a: Action)
    requires Inv(u) && AllAnswered(u)
    ensures AllAnswered(Apply(u, a))
  {
    hide Inv, Step, Recorded;
    if a.Advance? && a.caller in u.callers {
      OthersUntouched(u, a.caller, a.draw);
      StepIsRecorded(u, a.caller, a.draw);
      RecordedKeepsAnswers(u, Step(u, a.caller, a.draw), a.caller);
    }
  }

  lemma {:induction false} EveryRunIsAnswered(w: World, actions: seq<Action>)
    requires Initial(w)
    ensures AllAnswered(Run(w, actions))
  {
    if actions != [] {
      EveryRunIsAnswered(w, actions[..|actions| - 1]);
      EveryRunKeepsInv(w, actions[..|actions| - 1]);
      hide Inv, Apply, AllAnswered;
      ApplyKeepsAnswers(Run(w, actions[..|actions| - 1]), actions[|actions| - 1]);
    }
  }

  ghost predicate TokenRecorded(log: seq<Event>, c: nat, user: Id) {
    exists i :: 0 <= i < |log| && log[i].TokenReturned? && log[i].caller == c && log[i].user == user
  }

  ghost predicate CompletionRecorded(log: seq<Event>, c: nat, user: Id) {
    exists i :: 0 <= i < |log| && log[i].SessionCompleted? && log[i].caller == c && log[i].user == user
  }

  /** Over every run a caller holds a token for a user exactly when the history has its return to
      that caller, and is told that a sign-in is complete exactly when the history has its completion. */
  lemma AnswersMatchTheHistory(w: World, actions: seq<Action>, c: nat, user: Id)
    requires Initial(w) && c in Run(w, actions).callers
    ensures
      var end := Run(w, actions);
      && (end.callers[c] == Done(TokenReady(user)) <==> TokenRecorded(end.log, c, user))
      && (end.callers[c] == Done(CliComplete(user)) <==> CompletionRecorded(end.log, c, user))
  {
    var end := Run(w, actions);
    EveryRunIsAnswered(w, actions);
    RecordIsAnswered(end, c);
    hide Run, Earned, AllAnswered, TokenRecorded, CompletionRecorded;
    if end.callers[c].Done? {
      EveryAnswerIsEarned(w, actions, c);
      EarnedIsRecorded(w, actions, end, c, end.callers[c].outcome);
    }
  }

  lemma EarnedIsRecorded(w: World, acts: seq<Action>, end: World, c: nat, o: Outcome)
    requires Earned(w, acts, end, c, o)
    ensures o.TokenReady? ==> TokenRecorded(end.log, c, o.user)
    ensures o.CliComplete? ==> CompletionRecorded(end.log, c, o.user)
  {
    hide Admitted, FoundSession, Checked, ReadSession, Resolved, NoSession, Opened;
  }

  lemma RecordIsAnswered(end: World, c: nat)
    requires AllAnswered(end) && c in end.callers
    ensures forall user :: TokenRecorded(end.log, c, user) ==> end.callers[c] == Done(TokenReady(user))
    ensures forall user :: CompletionRecorded(end.log, c, user) ==> end.callers[c] == Done(CliComplete(user))
  {
    forall user | TokenRecorded(end.log, c, user) ensures end.callers[c] == Done(TokenReady(user)) {
      var i :| 0 <= i < |end.log| && end.log[i].TokenReturned? && end.log[i].caller == c && end.log[i].user == user;
      assert Answered(end, end.log[i]);
    }
    forall user | CompletionRecorded(end.log, c, user) ensures end.callers[c] == Done(CliComplete(user)) {
      var i :| 0 <= i < |end.log| && end.log[i].SessionCompleted? && end.log[i].caller == c && end.log[i].user == user;
      assert Answered(end, end.log[i]);
    }
  }

  /** Each caller that holds a token redeemed a session of its own: two never share one. */
  lemma ReadyCallersRedeemApart(w: World, actions: seq<Action>, a: nat, b: nat) returns (i: nat, j: nat)
    requires Initial(w) && a != b && a in Run(w, actions).callers && b in Run(w, actions).callers
    requires Run(w, actions).callers[a].Done? && Run(w, actions).callers[a].outcome.TokenReady?
    requires Run(w, actions).callers[b].Done? && Run(w, actions).callers[b].outcome.TokenReady?
    ensures
      var log := Run(w, actions).log;
      && i < |log| && j < |log| && log[i].TokenReturned? && log[j].TokenReturned?
      && log[i].caller == a && log[j].caller == b && log[i].session != log[j].session
      && Trim(log[i].code) != Trim(log[j].code)
  {
    i := ReadyIsRecorded(w, actions, a);
    j := ReadyIsRecorded(w, actions, b);
    TokensAreReturnedOnce(w, actions);
    hide Run;
  }

  lemma ReadyIsRecorded(w: World, actions: seq<Action>, c: nat) returns (i: nat)
    requires Initial(w) && c in Run(w, actions).callers
    requires Run(w, actions).callers[c].Done? && Run(w, actions).callers[c].outcome.TokenReady?
    ensures i < |Run(w, actions).log| && Run(w, actions).log[i].TokenReturned? && Run(w, actions).log[i].caller == c
  {
    var user := Run(w, actions).callers[c].outcome.user;
    AnswersMatchTheHistory(w, actions, c, user);
    hide Run;
    var log := Run(w, actions).log;
    i :| 0 <= i < |log| && log[i].TokenReturned? && log[i].caller == c && log[i].user == user;
  }

  // ---- one caller alone ---------------------------------------------------------------------------------------

  /** The session of a nonce that a login may still complete. */
  ghost predicate Awaiting(u: World, nonce: string, x: Session) {
    && x.id in u.store.sessions && u.store.sessions[x.id] == x && x.nonce == nonce
    && x.status == Pending && u.now < x.expiresAt
  }

  /** A login that nobody disturbs completes the pending session of its nonce for the user it was
      resolved to; without a nonce, or an unexpired session of it, it opens a browser session. */
  lemma UndisturbedLogin(u: World, c: nat, identity: string, nonce: string, user: Id, draw: Draw)
    requires Inv(u) && c in u.callers && u.callers[c] == LoginResolve(identity, nonce)
    requires identity in u.logins && u.logins[identity] == Ok(user)
    ensures
      var end := Alone(u, c, 3, draw);
      && c in end.callers
      && (nonce != "" && (exists x :: Awaiting(u, nonce, x)) ==> end.callers[c] == Done(CliComplete(user)))
      && (nonce == "" || (forall id :: id in u.store.sessions && u.store.sessions[id].nonce == nonce ==>
                                         u.store.sessions[id].expiresAt <= u.now) ==>
            end.callers[c] == Done(BrowserSession(user)))
  {
    NonceLookup(u, nonce);
    NonceIsOne(u, nonce);
    hide Trim, Inv, ByNonce, Alone, ByCode, Create, Consume, PrincipalOf;
    var u1 := Step(u, c, draw);
    NextAlone(u, c, 2, draw);
    assert u1.store == u.store && u1.now == u.now;
    if nonce == "" {
      assert u1.callers[c] == Done(BrowserSession(user));
      hide Step;
      DoneIsDone(u1, c, 2, draw);
    } else {
      assert u1.callers[c] == LoginFind(user, nonce);
      hide Step;
      FindsAlone(u1, c, user, nonce, draw);
    }
  }

  lemma NextAlone(u: World, c: nat, n: nat, draw: Draw)
    requires c in u.callers
    ensures Alone(u, c, n + 1, draw) == Alone(Step(u, c, draw), c, n, draw)
  {
    hide Step;
  }

  lemma {:induction false} DoneIsDone(u: World, c: nat, n: nat, draw: Draw)
    requires c in u.callers && u.callers[c].Done?
    ensures Alone(u, c, n, draw) == u
    decreases n
  {
    if n > 0 { DoneIsDone(u, c, n - 1, draw); }
  }

  lemma FindsAlone(u: World, c: nat, user: Id, nonce: string, draw: Draw)
    requires c in u.callers && u.callers[c] == LoginFind(user, nonce)
    ensures
      var end := Alone(u, c, 2, draw);
      && c in end.callers
      && match ByNonce(u.store, nonce, u.now)
         case Ok(x) => Awaiting(u, x.nonce, x) ==> end.callers[c] == Done(CliComplete(user))
         case Err(_) => end.callers[c] == Done(BrowserSession(user))
  {
    hide Trim, ByNonce, Alone, ByCode, Create, Consume, PrincipalOf;
    var u1 := Step(u, c, draw);
    NextAlone(u, c, 1, draw);
    NextAlone(u1, c, 0, draw);
    DoneNow(Step(u1, c, draw), c, draw);
  }

  lemma DoneNow(u: World, c: nat, draw: Draw)
    ensures Alone(u, c, 0, draw) == u
  {
  }

  /** A login that resolves to nobody says so, and one that fails says how. */
  lemma UnresolvedLogin(u: World, c: nat, identity: string, nonce: string, draw: Draw)
    requires c in u.callers && u.callers[c] == LoginResolve(identity, nonce)
    requires identity in u.logins ==> u.logins[identity].Err?
    ensures Step(u, c, draw) == u.(callers := u.callers[c :=
              if identity !in u.logins || u.logins[identity] == Err(NotFound) then Done(UnknownUser)
              else Done(Failed(u.logins[identity].error))])
  {
    hide Trim, ByNonce, ByCode;
  }

  lemma NonceIsOne(u: World, nonce: string)
    requires Inv(u)
    ensures forall x :: Awaiting(u, nonce, x) ==> ByNonce(u.store, nonce, u.now) == Ok(x)
  {
    hide LogOk, SessionOk, PcOk, Trim;
    forall x | Awaiting(u, nonce, x) ensures ByNonce(u.store, nonce, u.now) == Ok(x) {
      assert WithNonce(u.store.sessions, nonce) == {x.id};
    }
  }

  /** Starting a session always succeeds. */
  lemma UndisturbedStart(u: World, c: nat, cs: string, ttl: int, draw: Draw)
    requires c in u.callers && u.callers[c] == StartCreate(cs, ttl) && Fresh(u.store, draw)
    ensures Step(u, c, draw).callers[c] == Done(Started(draw.code, draw.nonce))
    ensures draw.id in Step(u, c, draw).store.sessions
            && Step(u, c, draw).store.sessions[draw.id]
                 == Session(draw.id, Trim(cs), Pending, "", draw.nonce, u.now + ttl, 0, 0)
  {
  }
}
