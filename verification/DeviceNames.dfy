/** Which repository a device-flow token is for: the token is minted by the repository's
    name, so it is for the repository that bears the name when it is minted. */
module DeviceNames {
  import opened Text
  import opened CoreModel
  import opened DeviceStore
  import opened DeviceFlow

  // ---- which repository a token is for -----------------------------------------------------------

  ghost predicate UniqueNames(repos: map<Id, Repo>) {
    forall a, b :: a in repos && b in repos && repos[a].name == repos[b].name ==> a == b
  }

  /** Repositories may come, and be deleted or reactivated, but are not renamed. */
  ghost predicate KeepsNames(repos: map<Id, Repo>, repos': map<Id, Repo>) {
    && UniqueNames(repos')
    && forall id :: id in repos ==>
      id in repos' && repos'[id].name == repos[id].name && repos'[id].resourceId == repos[id].resourceId
  }

  ghost predicate StableRun(w: World, actions: seq<Action>) {
    if actions == [] then UniqueNames(w.repos)
    else
      var a := actions[|actions| - 1];
      && StableRun(w, actions[..|actions| - 1])
      && (a.ChangeRepos? ==> KeepsNames(Run(w, actions[..|actions| - 1]).repos, a.repos))
  }

  predicate RefOk(repos: map<Id, Repo>, ref: RepoRef) {
    ref.id in repos && repos[ref.id].resourceId == ref.resourceId
  }

  ghost predicate PcNamesOk(repos: map<Id, Repo>, pc: Pc) {
    match pc
    case ApproveAccess(_, _, repo) => RefOk(repos, repo)
    case ApprovePrincipal(_, _, repo) => RefOk(repos, repo)
    case ApproveWrite(_, _, repo) => RefOk(repos, repo)
    case MintPrincipal(_, d, name) => d.repositoryId in repos && repos[d.repositoryId].name == name
    case MintByName(_, d, name) => d.repositoryId in repos && repos[d.repositoryId].name == name
    case MintAccess(_, d, repo) => RefOk(repos, repo) && repo.id == d.repositoryId
    case ExchangeResource(_, d, repo) => RefOk(repos, repo) && repo.id == d.repositoryId
    case ExchangeAccess(_, d, repo) => RefOk(repos, repo) && repo.id == d.repositoryId
    case TokenConsume(_, d, repo) => RefOk(repos, repo) && repo.id == d.repositoryId
    case _ => true
  }

  ghost predicate EventNamesOk(repos: map<Id, Repo>, s: Store, e: Event) {
    match e
    case DeviceStarted(_, _, _) => true
    case DeviceApproved(_, _, _, _, _) => true
    case WriteChecked(_, _, _, repo) => RefOk(repos, repo)
    case OkReturned(_, _, device, _, repo) =>
      RefOk(repos, repo) && device in s.devices && repo.id == s.devices[device].repositoryId
  }

  ghost predicate NamesOk(w: World) {
    && UniqueNames(w.repos)
    && (forall c :: c in w.callers ==> PcNamesOk(w.repos, w.callers[c]))
    && (forall e :: e in w.log ==> EventNamesOk(w.repos, w.store, e))
  }

  lemma FindByNameFinds(repos: map<Id, Repo>, name: string, id: Id)
    requires UniqueNames(repos) && id in repos && repos[id].name == name
    ensures FindByName(repos, name).Some? ==> FindByName(repos, name) == Some(id)
  {
  }

  /** What a step must establish about names: for its own caller and for the event it records. */
  ghost predicate GoodNames(w: World, w': World, caller: nat) {
    && w'.repos == w.repos
    && caller in w'.callers && PcNamesOk(w.repos, w'.callers[caller])
    && (w'.log == w.log || (|w'.log| == |w.log| + 1 && EventNamesOk(w.repos, w'.store, w'.log[|w.log|])))
  }

  predicate Minting(pc: Pc) {
    pc.TokenRepository? || pc.MintPrincipal? || pc.MintByName? || pc.MintAccess? || pc.ExchangeResource?
  }

  lemma MintStepNames(w: World, caller: nat, freshId: Id, ttl: int)
    requires UniqueNames(w.repos) && caller in w.callers && PcNamesOk(w.repos, w.callers[caller])
    requires Minting(w.callers[caller])
    ensures GoodNames(w, Step(w, caller, freshId, ttl), caller)
  {
    hide HashCode, FindByName, PrincipalOf, ResourceActive;
    var pc := w.callers[caller];
    if pc.MintByName? {
      FindByNameFinds(w.repos, pc.name, pc.device.repositoryId);
    }
  }

  lemma ReadStepNames(w: World, caller: nat, freshId: Id, ttl: int)
    requires caller in w.callers && PcNamesOk(w.repos, w.callers[caller])
    requires !HasEffect(w.callers[caller]) && !Minting(w.callers[caller])
    ensures GoodNames(w, Step(w, caller, freshId, ttl), caller)
  {
    hide HashCode, FindByName, Lookup, PrincipalOf, Create, Approve, Consume, Expire, ResourceActive;
  }

  lemma EffectStepNames(w: World, caller: nat, freshId: Id, ttl: int)
    requires caller in w.callers && PcNamesOk(w.repos, w.callers[caller]) && HasEffect(w.callers[caller])
    requires PcOk(w.store, w.log, w.callers[caller])
    ensures GoodNames(w, Step(w, caller, freshId, ttl), caller)
  {
    hide HashCode, Trim, Create, FindByName, Lookup, Approve, Expire;
    match w.callers[caller]
    case TokenConsume(code, device, repo) =>
      var (store, r) := Consume(w.store, device.id, w.now);
      if r.Ok? {
        assert EventNamesOk(w.repos, store, OkReturned(caller, code, device.id, device.approvedUserId, repo));
      }
    case _ =>
  }

  lemma StepKeepsNames(w: World, caller: nat, freshId: Id, ttl: int)
    requires Inv(w) && NamesOk(w) && caller in w.callers
    ensures NamesOk(Step(w, caller, freshId, ttl))
  {
    hide Step, DataOk, PcOk, PcNamesOk;
    var w' := Step(w, caller, freshId, ttl);
    StepKeeps(w, caller, freshId, ttl);
    if HasEffect(w.callers[caller]) {
      EffectStepNames(w, caller, freshId, ttl);
    } else if Minting(w.callers[caller]) {
      MintStepNames(w, caller, freshId, ttl);
    } else {
      ReadStepNames(w, caller, freshId, ttl);
    }
    forall e | e in w'.log ensures EventNamesOk(w'.repos, w'.store, e) {
      if e in w.log {
        assert EventNamesOk(w.repos, w.store, e);
      }
    }
  }

  lemma ActionKeepsNames(w: World, a: Action)
    requires Inv(w) && NamesOk(w) && (a.ChangeRepos? ==> KeepsNames(w.repos, a.repos))
    ensures NamesOk(Apply(w, a))
  {
    hide Inv, Step;
    match a
    case Advance(caller, freshId, ttl) =>
      if caller in w.callers { StepKeepsNames(w, caller, freshId, ttl); }
    case _ =>
  }

  lemma {:induction false} StableRunKeepsNames(w: World, actions: seq<Action>)
    requires Initial(w) && StableRun(w, actions)
    ensures NamesOk(Run(w, actions))
  {
    if actions != [] {
      var before := Run(w, actions[..|actions| - 1]);
      StableRunKeepsNames(w, actions[..|actions| - 1]);
      EveryRunKeepsInv(w, actions[..|actions| - 1]);
      ActionKeepsNames(before, actions[|actions| - 1]);
    }
  }

  /** When repositories keep unique names, a token is for the repository named at the start,
      the very one on which access was checked at approval. */
  lemma TokenIsForTheRequestedRepository(w: World, actions: seq<Action>, n: nat)
    requires Initial(w) && StableRun(w, actions) && n < |Run(w, actions).log| && Run(w, actions).log[n].OkReturned?
    ensures
      var log := Run(w, actions).log;
      var e := log[n];
      && (exists x: int :: DeviceStarted(e.device, e.repo.id, x) in log[..n])
      && WriteChecked(AtApproval, e.device, e.user, e.repo) in log[..n]
  {
    var end := Run(w, actions);
    var e := end.log[n];
    StableRunKeepsNames(w, actions);
    var started, checked, approved, rechecked, x := EveryTokenIsAccountedFor(w, actions, n);
    assert e in end.log && EventNamesOk(end.repos, end.store, e);
    assert end.log[checked] in end.log && EventNamesOk(end.repos, end.store, end.log[checked]);
    assert end.log[..n][started] == DeviceStarted(e.device, e.repo.id, x);
    assert end.log[..n][checked] == WriteChecked(AtApproval, e.device, e.user, e.repo);
  }

  // ---- one caller alone ------------------------------------------------------------------------------

  /** The caller's next steps, with nobody else moving. */
  ghost function Alone(w: World, caller: nat, n: nat, id: Id, ttl: int): World
    decreases n
  {
    if n == 0 || caller !in w.callers then w else Alone(Step(w, caller, id, ttl), caller, n - 1, id, ttl)
  }

  /** An approved device redeems its code whatever the time: expiry stops approval only. */
  lemma ApprovedDeviceRedeems(w: World, caller: nat, code: string, d: Device, id: Id, ttl: int)
    requires caller in w.callers && w.callers[caller] == TokenRead(code)
    requires Lookup(w.store, w.store.byDeviceCode, code) == Ok(d) && d.id in w.store.devices
    requires w.store.devices[d.id] == d
    requires d.status == Approved && d.approvedUserId != "" && d.repositoryId != ""
    requires IsActive(w.accounts, d.approvedUserId)
    requires UniqueNames(w.repos) && d.repositoryId in w.repos && w.repos[d.repositoryId].active
    requires (d.approvedUserId, w.repos[d.repositoryId].resourceId) in w.writers
    ensures
      var end := Alone(w, caller, 9, id, ttl);
      var repo := RepoRef(d.repositoryId, w.repos[d.repositoryId].resourceId);
      && caller in end.callers && end.callers[caller] == Done(TokenIssued(d.approvedUserId, repo))
      && end.log != [] && end.log[|end.log| - 1] == OkReturned(caller, code, d.id, d.approvedUserId, repo)
  {
    hide HashCode, Step, Alone, Lookup, FindByName;
    var w1 := ReadsDevice(w, caller, code, d, 7, id, ttl);
    var w2 := ReadsName(w1, caller, code, d, id, ttl);
    FindByNameIsActive(w.repos, w.repos[d.repositoryId].name, d.repositoryId);
    MintsAndConsumes(w2, caller, code, d, w.repos[d.repositoryId].name, id, ttl);
  }

  lemma ReadsDevice(w: World, caller: nat, code: string, d: Device, n: nat, id: Id, ttl: int) returns (w2: World)
    requires caller in w.callers && w.callers[caller] == TokenRead(code)
    requires Lookup(w.store, w.store.byDeviceCode, code) == Ok(d)
    requires d.status == Approved && d.approvedUserId != "" && d.repositoryId != ""
    ensures w2 == w.(callers := w2.callers) && caller in w2.callers && w2.callers[caller] == TokenRepository(code, d)
    ensures Alone(w, caller, n + 2, id, ttl) == Alone(w2, caller, n, id, ttl)
  {
    hide HashCode, Lookup, FindByName;
    var w1 := Step(w, caller, id, ttl);
    assert w1 == At(w, caller, TokenClock(code, d));
    w2 := Step(w1, caller, id, ttl);
    assert w2 == At(w1, caller, TokenRepository(code, d));
    assert Alone(w, caller, n + 2, id, ttl) == Alone(w1, caller, n + 1, id, ttl);
    assert Alone(w1, caller, n + 1, id, ttl) == Alone(w2, caller, n, id, ttl);
  }

  lemma ReadsName(w: World, caller: nat, code: string, d: Device, id: Id, ttl: int) returns (w2: World)
    requires caller in w.callers && w.callers[caller] == TokenRepository(code, d)
    requires PrincipalOf(w.accounts, d.approvedUserId).Ok?
    requires d.repositoryId in w.repos && w.repos[d.repositoryId].active
    ensures w2 == w.(callers := w2.callers) && caller in w2.callers
    ensures w2.callers[caller] == MintByName(code, d, w.repos[d.repositoryId].name)
    ensures Alone(w, caller, 7, id, ttl) == Alone(w2, caller, 5, id, ttl)
  {
    hide HashCode, Lookup, FindByName;
    var w1 := Step(w, caller, id, ttl);
    assert w1 == At(w, caller, MintPrincipal(code, d, w.repos[d.repositoryId].name));
    w2 := Step(w1, caller, id, ttl);
    assert w2 == At(w1, caller, MintByName(code, d, w.repos[d.repositoryId].name));
    assert Alone(w, caller, 7, id, ttl) == Alone(w1, caller, 6, id, ttl);
    assert Alone(w1, caller, 6, id, ttl) == Alone(w2, caller, 5, id, ttl);
  }

  lemma FindByNameIsActive(repos: map<Id, Repo>, name: string, id: Id)
    requires UniqueNames(repos) && id in repos && repos[id].name == name && repos[id].active
    ensures FindByName(repos, name) == Some(id)
  {
    assert id in RepositoriesNamed(repos, name);
  }

  /** From the name to the token. */
  lemma MintsAndConsumes(w: World, caller: nat, code: string, d: Device, name: string, id: Id, ttl: int)
    requires caller in w.callers && w.callers[caller] == MintByName(code, d, name)
    requires FindByName(w.repos, name).Some?
    requires (d.approvedUserId, w.repos[FindByName(w.repos, name).value].resourceId) in w.writers
    requires d.id in w.store.devices && w.store.devices[d.id].status == Approved
    ensures
      var end := Alone(w, caller, 5, id, ttl);
      var other := FindByName(w.repos, name).value;
      var repo := RepoRef(other, w.repos[other].resourceId);
      && caller in end.callers && end.callers[caller] == Done(TokenIssued(d.approvedUserId, repo))
      && end.log != [] && end.log[|end.log| - 1] == OkReturned(caller, code, d.id, d.approvedUserId, repo)
  {
    hide Step, Alone, HashCode;
    var w2 := ChecksAccess(w, caller, code, d, name, id, ttl);
    var other := FindByName(w.repos, name).value;
    Issues(w2, caller, code, d, RepoRef(other, w.repos[other].resourceId), id, ttl);
  }

  lemma ChecksAccess(w: World, caller: nat, code: string, d: Device, name: string, id: Id, ttl: int) returns (w2: World)
    requires caller in w.callers && w.callers[caller] == MintByName(code, d, name)
    requires FindByName(w.repos, name).Some?
    requires (d.approvedUserId, w.repos[FindByName(w.repos, name).value].resourceId) in w.writers
    ensures
      var other := FindByName(w.repos, name).value;
      && w2 == w.(callers := w2.callers) && caller in w2.callers
      && w2.callers[caller] == ExchangeResource(code, d, RepoRef(other, w.repos[other].resourceId))
      && ResourceActive(w.repos, w.repos[other].resourceId)
      && Alone(w, caller, 5, id, ttl) == Alone(w2, caller, 3, id, ttl)
  {
    hide HashCode, ResourceActive;
    var other := FindByName(w.repos, name).value;
    NamedIsActive(w.repos, name);
    var repo := RepoRef(other, w.repos[other].resourceId);
    var w1 := Step(w, caller, id, ttl);
    assert w1 == At(w, caller, MintAccess(code, d, repo));
    w2 := Step(w1, caller, id, ttl);
    assert w2 == At(w1, caller, ExchangeResource(code, d, repo));
    assert Alone(w, caller, 5, id, ttl) == Alone(w1, caller, 4, id, ttl);
    assert Alone(w1, caller, 4, id, ttl) == Alone(w2, caller, 3, id, ttl);
  }

  lemma NamedIsActive(repos: map<Id, Repo>, name: string)
    requires FindByName(repos, name).Some?
    ensures FindByName(repos, name).value in repos
          && ResourceActive(repos, repos[FindByName(repos, name).value].resourceId)
  {
    assert FindByName(repos, name).value in RepositoriesNamed(repos, name);
  }

  lemma Issues(w: World, caller: nat, code: string, d: Device, repo: RepoRef, id: Id, ttl: int)
    requires caller in w.callers && w.callers[caller] == ExchangeResource(code, d, repo)
    requires ResourceActive(w.repos, repo.resourceId) && (d.approvedUserId, repo.resourceId) in w.writers
    requires d.id in w.store.devices && w.store.devices[d.id].status == Approved
    ensures
      var end := Alone(w, caller, 3, id, ttl);
      && caller in end.callers && end.callers[caller] == Done(TokenIssued(d.approvedUserId, repo))
      && end.log != [] && end.log[|end.log| - 1] == OkReturned(caller, code, d.id, d.approvedUserId, repo)
  {
    hide HashCode, ResourceActive, FindByName;
    var w1 := Step(w, caller, id, ttl);
    assert w1 == At(w, caller, ExchangeAccess(code, d, repo));
    var w2 := Step(w1, caller, id, ttl);
    assert w2.callers[caller] == TokenConsume(code, d, repo) && w2.store == w.store;
    var w3 := Step(w2, caller, id, ttl);
    assert Alone(w, caller, 3, id, ttl) == Alone(w1, caller, 2, id, ttl);
    assert Alone(w1, caller, 2, id, ttl) == Alone(w2, caller, 1, id, ttl);
    assert Alone(w2, caller, 1, id, ttl) == Alone(w3, caller, 0, id, ttl);
  }

  // ---- the step at which the repository of a token is settled -----------------------------------------

  /** The k-th action of a run is the step that looks a repository up by name for a token. */
  ghost predicate MintsAt(w: World, actions: seq<Action>, k: nat, caller: nat) {
    && k < |actions| && actions[k].Advance? && actions[k].caller == caller
    && caller in Run(w, actions[..k]).callers && Run(w, actions[..k]).callers[caller].MintByName?
  }

  /** What the lookup finds at that step. */
  ghost function Found(w: World, actions: seq<Action>, k: nat, caller: nat): Option<Id>
    requires MintsAt(w, actions, k, caller)
  {
    var before := Run(w, actions[..k]);
    FindByName(before.repos, before.callers[caller].name)
  }

  ghost predicate MintedFor(w: World, actions: seq<Action>, k: nat, caller: nat, d: Device, repo: RepoRef) {
    && MintsAt(w, actions, k, caller)
    && Run(w, actions[..k]).callers[caller].device == d && Found(w, actions, k, caller) == Some(repo.id)
  }

  predicate IsMinted(pc: Pc) {
    pc.MintAccess? || pc.ExchangeResource? || pc.ExchangeAccess? || pc.TokenConsume?
  }

  ghost predicate PcMinted(w: World, actions: seq<Action>, caller: nat, pc: Pc) {
    IsMinted(pc) ==> exists k: nat :: MintedFor(w, actions, k, caller, pc.device, pc.repo)
  }

  ghost predicate EventMinted(w: World, actions: seq<Action>, s: Store, e: Event) {
    e.OkReturned? ==>
      exists k: nat, d: Device ::
        && MintedFor(w, actions, k, e.caller, d, e.repo) && d.id == e.device
        && e.device in s.devices && s.devices[e.device].repositoryId == d.repositoryId
  }

  ghost predicate MintingOk(w: World, actions: seq<Action>, end: World) {
    && (forall c :: c in end.callers ==> PcMinted(w, actions, c, end.callers[c]))
    && (forall e :: e in end.log ==> EventMinted(w, actions, end.store, e))
  }

  lemma MintedStays(w: World, actions: seq<Action>, a: Action, k: nat, caller: nat, d: Device, repo: RepoRef)
    requires MintedFor(w, actions, k, caller, d, repo)
    ensures MintedFor(w, actions + [a], k, caller, d, repo)
  {
    hide Run, FindByName;
    assert (actions + [a])[..k] == actions[..k];
  }

  lemma PcMintedStays(w: World, actions: seq<Action>, a: Action, caller: nat, pc: Pc)
    requires PcMinted(w, actions, caller, pc)
    ensures PcMinted(w, actions + [a], caller, pc)
  {
    hide MintedFor;
    if IsMinted(pc) {
      var k: nat :| MintedFor(w, actions, k, caller, pc.device, pc.repo);
      MintedStays(w, actions, a, k, caller, pc.device, pc.repo);
    }
  }

  lemma EventMintedStays(w: World, actions: seq<Action>, a: Action, s: Store, s': Store, e: Event)
    requires EventMinted(w, actions, s, e)
    requires forall id :: id in s.devices ==> id in s'.devices && SameRequest(s.devices[id], s'.devices[id])
    ensures EventMinted(w, actions + [a], s', e)
  {
    hide MintedFor;
    if e.OkReturned? {
      var k: nat, d: Device :|
        && MintedFor(w, actions, k, e.caller, d, e.repo) && d.id == e.device
        && e.device in s.devices && s.devices[e.device].repositoryId == d.repositoryId;
      MintedStays(w, actions, a, k, e.caller, d, e.repo);
    }
  }

  predicate NewEvent(pc: Pc, caller: nat, e: Event) {
    e.OkReturned? ==> IsMinted(pc) && e.caller == caller && e.device == pc.device.id && e.repo == pc.repo
  }

  /** What a step leaves its caller at, and what it records, about minting. */
  ghost predicate MintProgress(w: World, w': World, caller: nat)
    requires caller in w.callers
  {
    var pc := w.callers[caller];
    && caller in w'.callers
    && (IsMinted(w'.callers[caller]) ==>
          || (IsMinted(pc) && w'.callers[caller].device == pc.device && w'.callers[caller].repo == pc.repo)
          || (pc.MintByName? && w'.callers[caller].device == pc.device
              && FindByName(w.repos, pc.name) == Some(w'.callers[caller].repo.id)))
    && (w'.log == w.log
        || (|w'.log| == |w.log| + 1 && w'.log[..|w.log|] == w.log && NewEvent(pc, caller, w'.log[|w.log|])))
  }

  lemma MintedStepMints(w: World, caller: nat, freshId: Id, ttl: int)
    requires caller in w.callers && (IsMinted(w.callers[caller]) || w.callers[caller].MintByName?)
    ensures MintProgress(w, Step(w, caller, freshId, ttl), caller)
  {
    hide HashCode, FindByName, ResourceActive, Consume, Lookup, PrincipalOf, Create, Approve, Expire;
  }

  lemma EffectStepMints(w: World, caller: nat, freshId: Id, ttl: int)
    requires caller in w.callers && HasEffect(w.callers[caller]) && !IsMinted(w.callers[caller])
    ensures MintProgress(w, Step(w, caller, freshId, ttl), caller)
  {
    hide HashCode, Create, Approve, Expire;
  }

  lemma ReadStepMints(w: World, caller: nat, freshId: Id, ttl: int)
    requires caller in w.callers && !HasEffect(w.callers[caller]) && !IsMinted(w.callers[caller])
    requires !w.callers[caller].MintByName?
    ensures MintProgress(w, Step(w, caller, freshId, ttl), caller)
  {
    hide HashCode, FindByName, Lookup, PrincipalOf, Create, Approve, Consume, Expire, ResourceActive;
  }

  lemma StepMints(w: World, caller: nat, freshId: Id, ttl: int)
    requires caller in w.callers
    ensures MintProgress(w, Step(w, caller, freshId, ttl), caller)
  {
    hide Step, MintProgress;
    var pc := w.callers[caller];
    if IsMinted(pc) || pc.MintByName? {
      MintedStepMints(w, caller, freshId, ttl);
    } else if HasEffect(pc) {
      EffectStepMints(w, caller, freshId, ttl);
    } else {
      ReadStepMints(w, caller, freshId, ttl);
    }
  }

  /** In every reachable state, a caller past the lookup and every token returned go back to
      the one lookup that settled its repository. */
  lemma {:induction false} EveryRunMints(w: World, actions: seq<Action>)
    requires Initial(w)
    ensures MintingOk(w, actions, Run(w, actions))
  {
    if actions != [] {
      var earlier, a := actions[..|actions| - 1], actions[|actions| - 1];
      assert actions == earlier + [a];
      EveryRunMints(w, earlier);
      EveryRunKeepsInv(w, earlier);
      ApplyKeeps(Run(w, earlier), a);
      ApplyMints(w, earlier, a);
    }
  }

  lemma ApplyMints(w: World, earlier: seq<Action>, a: Action)
    requires Inv(Run(w, earlier)) && MintingOk(w, earlier, Run(w, earlier))
    ensures MintingOk(w, earlier + [a], Apply(Run(w, earlier), a))
  {
    hide PcMinted, EventMinted, Inv, Step, Run;
    var before := Run(w, earlier);
    var end := Apply(before, a);
    RequestsStay(before, a);
    if a.Advance? && a.caller in before.callers {
      AdvanceMints(w, earlier, a);
      OthersUntouched(before, a.caller, a.freshId, a.ttl);
      forall c | c in end.callers && c != a.caller ensures PcMinted(w, earlier + [a], c, end.callers[c]) {
        PcMintedStays(w, earlier, a, c, before.callers[c]);
      }
    } else {
      forall c | c in end.callers ensures PcMinted(w, earlier + [a], c, end.callers[c]) {
        if c in before.callers {
          PcMintedStays(w, earlier, a, c, before.callers[c]);
        } else {
          EntryIsUnminted(w, earlier + [a], c, end.callers[c]);
        }
      }
      forall e | e in end.log ensures EventMinted(w, earlier + [a], end.store, e) {
        EventMintedStays(w, earlier, a, before.store, end.store, e);
      }
    }
  }

  lemma EntryIsUnminted(w: World, actions: seq<Action>, c: nat, pc: Pc)
    requires IsEntry(pc)
    ensures PcMinted(w, actions, c, pc)
  {
  }

  lemma RequestsStay(w: World, a: Action)
    requires Inv(w)
    ensures forall id :: id in w.store.devices ==>
          id in Apply(w, a).store.devices && SameRequest(w.store.devices[id], Apply(w, a).store.devices[id])
  {
    hide Inv, Apply;
    ApplyKeeps(w, a);
  }

  lemma OthersUntouched(w: World, caller: nat, freshId: Id, ttl: int)
    requires Inv(w) && caller in w.callers
    ensures
      var w' := Step(w, caller, freshId, ttl);
      caller in w'.callers && w'.callers == w.callers[caller := w'.callers[caller]]
  {
    hide Step, Inv;
    StepKeeps(w, caller, freshId, ttl);
  }

  /** The stepping caller, and the token it may return. */
  lemma AdvanceMints(w: World, earlier: seq<Action>, a: Action)
    requires Inv(Run(w, earlier)) && MintingOk(w, earlier, Run(w, earlier))
    requires a.Advance? && a.caller in Run(w, earlier).callers
    ensures
      var end := Step(Run(w, earlier), a.caller, a.freshId, a.ttl);
      && a.caller in end.callers && PcMinted(w, earlier + [a], a.caller, end.callers[a.caller])
      && forall e :: e in end.log ==> EventMinted(w, earlier + [a], end.store, e)
  {
    hide Run, Step, FindByName, PcMinted, EventMinted, Inv;
    var before := Run(w, earlier);
    var end := Step(before, a.caller, a.freshId, a.ttl);
    var pc := before.callers[a.caller];
    StepMints(before, a.caller, a.freshId, a.ttl);
    RequestsStay(before, a);
    PcMintedStays(w, earlier, a, a.caller, pc);
    CallerMints(w, earlier, a, before, end);
    forall e | e in end.log ensures EventMinted(w, earlier + [a], end.store, e) {
      if e in before.log {
        EventMintedStays(w, earlier, a, before.store, end.store, e);
      } else {
        assert e == end.log[|before.log|];
        if e.OkReturned? {
          ReturnedDevice(before, a.caller);
          TokenMints(w, earlier + [a], end.store, pc, a.caller, e);
        } else {
          OthersNeedNothing(w, earlier + [a], end.store, e);
        }
      }
    }
  }

  lemma CallerMints(w: World, earlier: seq<Action>, a: Action, before: World, end: World)
    requires a.Advance? && before == Run(w, earlier) && a.caller in before.callers
    requires MintProgress(before, end, a.caller)
    requires PcMinted(w, earlier + [a], a.caller, before.callers[a.caller])
    ensures PcMinted(w, earlier + [a], a.caller, end.callers[a.caller])
  {
    hide Run, FindByName;
    var pc := before.callers[a.caller];
    if pc.MintByName? && IsMinted(end.callers[a.caller]) {
      assert (earlier + [a])[..|earlier|] == earlier;
      assert MintedFor(w, earlier + [a], |earlier|, a.caller, pc.device, end.callers[a.caller].repo);
    }
  }

  lemma TokenMints(w: World, actions: seq<Action>, s: Store, pc: Pc, caller: nat, e: Event)
    requires PcMinted(w, actions, caller, pc) && e.OkReturned? && NewEvent(pc, caller, e)
    requires pc.device.id in s.devices && s.devices[pc.device.id].repositoryId == pc.device.repositoryId
    ensures EventMinted(w, actions, s, e)
  {
    hide MintedFor;
    var k: nat :| MintedFor(w, actions, k, caller, pc.device, pc.repo);
  }

  lemma OthersNeedNothing(w: World, actions: seq<Action>, s: Store, e: Event)
    requires !e.OkReturned?
    ensures EventMinted(w, actions, s, e)
  {
  }

  lemma ReturnedDevice(w: World, caller: nat)
    requires Inv(w) && caller in w.callers && IsMinted(w.callers[caller])
    ensures
      var d := w.callers[caller].device;
      d.id in w.store.devices && w.store.devices[d.id].repositoryId == d.repositoryId
  {
    assert PcOk(w.store, w.log, w.callers[caller]);
    hide DataOk;
  }

  // ---- a caller looks up at most once -----------------------------------------------------------------

  /** How far a call is along; only a stalled or finished call does not move on. */
  function Progress(pc: Pc): nat {
    match pc
    case StartRepository(_, _, _) => 0
    case UserRead(_, _) => 0
    case TokenRead(_) => 0
    case StartCreate(_, _, _) => 1
    case UserPending(_, _) => 1
    case TokenClock(_, _) => 1
    case UserExpire(_) => 2
    case UserRepository(_, _) => 2
    case TokenExpire(_) => 2
    case TokenRepository(_, _) => 2
    case ApproveAccess(_, _, _) => 3
    case MintPrincipal(_, _, _) => 3
    case ApprovePrincipal(_, _, _) => 4
    case MintByName(_, _, _) => 4
    case ApproveWrite(_, _, _) => 5
    case MintAccess(_, _, _) => 5
    case ExchangeResource(_, _, _) => 6
    case ExchangeAccess(_, _, _) => 7
    case TokenConsume(_, _, _) => 8
    case Done(_) => 9
  }

  ghost predicate Progresses(w: World, w': World, caller: nat)
    requires caller in w.callers
  {
    && caller in w'.callers && Progress(w.callers[caller]) <= Progress(w'.callers[caller])
    && (w.callers[caller].MintByName? ==> Progress(w.callers[caller]) < Progress(w'.callers[caller]))
  }

  lemma MintedStepProgresses(w: World, caller: nat, freshId: Id, ttl: int)
    requires caller in w.callers && (IsMinted(w.callers[caller]) || w.callers[caller].MintByName?)
    ensures Progresses(w, Step(w, caller, freshId, ttl), caller)
  {
    hide HashCode, FindByName, ResourceActive, Consume, Lookup, PrincipalOf, Create, Approve, Expire;
  }

  lemma EffectStepProgresses(w: World, caller: nat, freshId: Id, ttl: int)
    requires caller in w.callers && HasEffect(w.callers[caller]) && !IsMinted(w.callers[caller])
    ensures Progresses(w, Step(w, caller, freshId, ttl), caller)
  {
    hide HashCode, Create, Approve, Expire;
  }

  lemma ReadStepProgresses(w: World, caller: nat, freshId: Id, ttl: int)
    requires caller in w.callers && !HasEffect(w.callers[caller]) && !IsMinted(w.callers[caller])
    requires !w.callers[caller].MintByName?
    ensures Progresses(w, Step(w, caller, freshId, ttl), caller)
  {
    hide HashCode, FindByName, Lookup, PrincipalOf, Create, Approve, Consume, Expire, ResourceActive;
  }

  lemma StepProgresses(w: World, caller: nat, freshId: Id, ttl: int)
    requires caller in w.callers
    ensures Progresses(w, Step(w, caller, freshId, ttl), caller)
  {
    hide Step, Progresses;
    var pc := w.callers[caller];
    if IsMinted(pc) || pc.MintByName? {
      MintedStepProgresses(w, caller, freshId, ttl);
    } else if HasEffect(pc) {
      EffectStepProgresses(w, caller, freshId, ttl);
    } else {
      ReadStepProgresses(w, caller, freshId, ttl);
    }
  }

  lemma {:induction false} CallerProgresses(w: World, actions: seq<Action>, more: seq<Action>, caller: nat)
    requires Initial(w) && caller in Run(w, actions).callers
    ensures caller in Run(w, actions + more).callers
    ensures Progress(Run(w, actions).callers[caller]) <= Progress(Run(w, actions + more).callers[caller])
    decreases |more|
  {
    if more == [] {
      assert actions + more == actions;
    } else {
      var less, a := more[..|more| - 1], more[|more| - 1];
      CallerProgresses(w, actions, less, caller);
      assert (actions + more)[..|actions + more| - 1] == actions + less && (actions + more)[|actions + more| - 1] == a;
      EveryRunKeepsInv(w, actions + less);
      ActionProgresses(Run(w, actions + less), a, caller);
    }
  }

  lemma ActionProgresses(w: World, a: Action, caller: nat)
    requires Inv(w) && caller in w.callers
    ensures caller in Apply(w, a).callers && Progress(w.callers[caller]) <= Progress(Apply(w, a).callers[caller])
  {
    hide Step, Inv, Progress;
    if a.Advance? && a.caller in w.callers {
      OthersUntouched(w, a.caller, a.freshId, a.ttl);
      if a.caller == caller { StepProgresses(w, caller, a.freshId, a.ttl); }
    }
  }

  /** Each caller has one lookup step at most. */
  lemma MintsOnce(w: World, actions: seq<Action>, j: nat, k: nat, caller: nat)
    requires Initial(w) && MintsAt(w, actions, j, caller) && MintsAt(w, actions, k, caller)
    ensures j == k
  {
    var first, last := if j < k then j else k, if j < k then k else j;
    NoLaterMint(w, actions, first, last, caller);
  }

  lemma NoLaterMint(w: World, actions: seq<Action>, j: nat, k: nat, caller: nat)
    requires Initial(w) && MintsAt(w, actions, j, caller) && j <= k <= |actions|
    ensures j < k ==> caller in Run(w, actions[..k]).callers && !Run(w, actions[..k]).callers[caller].MintByName?
  {
    if j == k { return; }
    var at := Run(w, actions[..j]);
    hide FindByName;
    assert actions[..j + 1][..j] == actions[..j] && actions[..j + 1][j] == actions[j];
    StepProgresses(at, caller, actions[j].freshId, actions[j].ttl);
    hide Step;
    assert Run(w, actions[..j + 1]) == Step(at, caller, actions[j].freshId, actions[j].ttl);
    assert actions[..j + 1] + actions[j + 1..k] == actions[..k];
    CallerProgresses(w, actions[..j + 1], actions[j + 1..k], caller);
  }

  // ---- exactly when the token is for the requested repository ------------------------------------------

  /** The call that returned a token looked its repository up by name, at one step. */
  lemma EveryTokenWasMinted(w: World, actions: seq<Action>, e: Event) returns (k: nat)
    requires Initial(w) && e in Run(w, actions).log && e.OkReturned?
    ensures MintsAt(w, actions, k, e.caller) && Found(w, actions, k, e.caller) == Some(e.repo.id)
    ensures Run(w, actions[..k]).callers[e.caller].device.id == e.device
  {
    EveryRunMints(w, actions);
    var end := Run(w, actions);
    assert EventMinted(w, actions, end.store, e);
    var d: Device;
    k, d :|
      && MintedFor(w, actions, k, e.caller, d, e.repo) && d.id == e.device
      && e.device in end.store.devices && end.store.devices[e.device].repositoryId == d.repositoryId;
  }

  /** Over every run, whatever happens to the names: a token is for the repository its device
      was started for exactly when, at its call's lookup step, the name led to that repository. */
  lemma TokenIsForTheRequestedRepositoryExactly(w: World, actions: seq<Action>, n: nat, k: nat, requested: Id,
                                                expiresAt: int)
    requires Initial(w) && n < |Run(w, actions).log| && Run(w, actions).log[n].OkReturned?
    requires DeviceStarted(Run(w, actions).log[n].device, requested, expiresAt) in Run(w, actions).log
    requires MintsAt(w, actions, k, Run(w, actions).log[n].caller)
    ensures
      var e := Run(w, actions).log[n];
      e.repo.id == requested <==> Found(w, actions, k, e.caller) == Some(requested)
  {
    var e := Run(w, actions).log[n];
    assert e in Run(w, actions).log;
    var minted := EveryTokenWasMinted(w, actions, e);
    MintsOnce(w, actions, minted, k, e.caller);
  }

  // ---- where the name at the lookup comes from -----------------------------------------------------------

  /** The j-th action of a run is the step at which a token call reads its repository's name. */
  ghost predicate ReadsNameAt(w: World, actions: seq<Action>, j: nat, caller: nat, d: Device, name: string) {
    && j < |actions| && actions[j].Advance? && actions[j].caller == caller
    && var before := Run(w, actions[..j]);
    && caller in before.callers && before.callers[caller].TokenRepository? && before.callers[caller].device == d
    && d.repositoryId in before.repos && before.repos[d.repositoryId].name == name
  }

  predicate CarriesName(pc: Pc) {
    pc.MintPrincipal? || pc.MintByName?
  }

  ghost predicate PcNamed(w: World, actions: seq<Action>, caller: nat, pc: Pc) {
    CarriesName(pc) ==> exists j: nat :: ReadsNameAt(w, actions, j, caller, pc.device, pc.name)
  }

  lemma PcNamedStays(w: World, actions: seq<Action>, a: Action, caller: nat, pc: Pc)
    requires PcNamed(w, actions, caller, pc)
    ensures PcNamed(w, actions + [a], caller, pc)
  {
    hide Run;
    if CarriesName(pc) {
      var j: nat :| ReadsNameAt(w, actions, j, caller, pc.device, pc.name);
      assert (actions + [a])[..j] == actions[..j];
      assert ReadsNameAt(w, actions + [a], j, caller, pc.device, pc.name);
    }
  }

  /** A name is carried from the step that read it, or from the step before. */
  ghost predicate NameProgress(w: World, w': World, caller: nat)
    requires caller in w.callers
  {
    var pc := w.callers[caller];
    && caller in w'.callers
    && (CarriesName(w'.callers[caller]) ==>
          || (CarriesName(pc) && w'.callers[caller].device == pc.device && w'.callers[caller].name == pc.name)
          || (&& pc.TokenRepository? && w'.callers[caller].device == pc.device && pc.device.repositoryId in w.repos
              && w'.callers[caller].name == w.repos[pc.device.repositoryId].name))
  }

  lemma TokenStepNames(w: World, caller: nat, freshId: Id, ttl: int)
    requires caller in w.callers && !HasEffect(w.callers[caller])
    requires w.callers[caller].TokenRepository? || Minting(w.callers[caller])
    ensures NameProgress(w, Step(w, caller, freshId, ttl), caller)
  {
    hide HashCode, FindByName, ResourceActive, Consume, PrincipalOf;
  }

  lemma OtherReadStepNames(w: World, caller: nat, freshId: Id, ttl: int)
    requires caller in w.callers && !HasEffect(w.callers[caller])
    requires !w.callers[caller].TokenRepository? && !Minting(w.callers[caller])
    ensures NameProgress(w, Step(w, caller, freshId, ttl), caller)
  {
    hide HashCode, FindByName, Lookup, PrincipalOf, Create, Approve, Consume, Expire, ResourceActive;
  }

  lemma EffectStepCarriesNoName(w: World, caller: nat, freshId: Id, ttl: int)
    requires caller in w.callers && HasEffect(w.callers[caller])
    ensures NameProgress(w, Step(w, caller, freshId, ttl), caller)
  {
    hide HashCode, Create, Approve, Expire, Consume;
  }

  lemma StepNames(w: World, caller: nat, freshId: Id, ttl: int)
    requires caller in w.callers
    ensures NameProgress(w, Step(w, caller, freshId, ttl), caller)
  {
    hide Step, NameProgress;
    var pc := w.callers[caller];
    if HasEffect(pc) {
      EffectStepCarriesNoName(w, caller, freshId, ttl);
    } else if pc.TokenRepository? || Minting(pc) {
      TokenStepNames(w, caller, freshId, ttl);
    } else {
      OtherReadStepNames(w, caller, freshId, ttl);
    }
  }

  lemma CallerNames(w: World, earlier: seq<Action>, a: Action, before: World, end: World)
    requires a.Advance? && before == Run(w, earlier) && a.caller in before.callers
    requires NameProgress(before, end, a.caller)
    requires PcNamed(w, earlier, a.caller, before.callers[a.caller])
    ensures PcNamed(w, earlier + [a], a.caller, end.callers[a.caller])
  {
    PcNamedStays(w, earlier, a, a.caller, before.callers[a.caller]);
    hide Run;
    var pc, pc' := before.callers[a.caller], end.callers[a.caller];
    if CarriesName(pc') && pc.TokenRepository? {
      assert (earlier + [a])[..|earlier|] == earlier;
      assert ReadsNameAt(w, earlier + [a], |earlier|, a.caller, pc'.device, pc'.name);
    }
  }

  lemma {:induction false} EveryRunNames(w: World, actions: seq<Action>)
    requires Initial(w)
    ensures forall c :: c in Run(w, actions).callers ==> PcNamed(w, actions, c, Run(w, actions).callers[c])
  {
    if actions != [] {
      var earlier, a := actions[..|actions| - 1], actions[|actions| - 1];
      assert actions == earlier + [a];
      EveryRunNames(w, earlier);
      EveryRunKeepsInv(w, earlier);
      ApplyNames(w, earlier, a);
    }
  }

  lemma ApplyNames(w: World, earlier: seq<Action>, a: Action)
    requires Inv(Run(w, earlier))
    requires forall c :: c in Run(w, earlier).callers ==> PcNamed(w, earlier, c, Run(w, earlier).callers[c])
    ensures
      var end := Apply(Run(w, earlier), a);
      forall c :: c in end.callers ==> PcNamed(w, earlier + [a], c, end.callers[c])
  {
    hide PcNamed, Inv, Step, Run, NameProgress;
    var before := Run(w, earlier);
    var end := Apply(before, a);
    if a.Advance? && a.caller in before.callers {
      StepNames(before, a.caller, a.freshId, a.ttl);
      OthersUntouched(before, a.caller, a.freshId, a.ttl);
      CallerNames(w, earlier, a, before, end);
    }
    forall c | c in end.callers && !(a.Advance? && a.caller == c) ensures PcNamed(w, earlier + [a], c, end.callers[c]) {
      if c in before.callers {
        PcNamedStays(w, earlier, a, c, before.callers[c]);
      } else {
        EntryCarriesNoName(w, earlier + [a], c, end.callers[c]);
      }
    }
  }

  lemma EntryCarriesNoName(w: World, actions: seq<Action>, c: nat, pc: Pc)
    requires IsEntry(pc)
    ensures PcNamed(w, actions, c, pc)
  {
  }

  /** A lookup uses the name that its call read at one earlier step. */
  lemma LookupUsesTheName(w: World, actions: seq<Action>, k: nat, caller: nat) returns (j: nat)
    requires Initial(w) && MintsAt(w, actions, k, caller)
    ensures
      var pc := Run(w, actions[..k]).callers[caller];
      j < k && ReadsNameAt(w, actions, j, caller, pc.device, pc.name)
  {
    EveryRunNames(w, actions[..k]);
    hide Run;
    var pc := Run(w, actions[..k]).callers[caller];
    assert PcNamed(w, actions[..k], caller, pc);
    j :| ReadsNameAt(w, actions[..k], j, caller, pc.device, pc.name);
    assert actions[..k][..j] == actions[..j];
  }

  lemma FindByNameExactly(repos: map<Id, Repo>, name: string, id: Id)
    requires UniqueNames(repos)
    ensures FindByName(repos, name) == Some(id) <==> id in repos && repos[id].active && repos[id].name == name
  {
    if id in repos && repos[id].active && repos[id].name == name {
      FindByNameIsActive(repos, name, id);
    }
  }

  /** The device of a token was started for one repository. */
  lemma StartedFor(w: World, actions: seq<Action>, e: Event, requested: Id, expiresAt: int)
    requires Initial(w) && e in Run(w, actions).log && e.OkReturned?
    requires DeviceStarted(e.device, requested, expiresAt) in Run(w, actions).log
    ensures
      var devices := Run(w, actions).store.devices;
      e.device in devices && devices[e.device].repositoryId == requested
  {
    EveryRunKeepsInv(w, actions);
    var end := Run(w, actions);
    hide Run, LogOk;
    var d := end.store.devices[e.device];
    assert DeviceOk(end.log, e.device, d);
    var i :| 0 <= i < |end.log| && end.log[i] == DeviceStarted(e.device, requested, expiresAt);
    var j :| 0 <= j < |end.log| && end.log[j] == DeviceStarted(e.device, d.repositoryId, d.expiresAt);
    StartedOnce(end.log, i, j);
  }

  /** In terms of the tables: when names are unique at the lookup, a token is for the
      repository its device was started for exactly when that repository is active there and
      still bears the name that its call read. */
  lemma TokenFollowsItsName(w: World, actions: seq<Action>, n: nat, k: nat, requested: Id, expiresAt: int)
      returns (j: nat)
    requires Initial(w) && n < |Run(w, actions).log| && Run(w, actions).log[n].OkReturned?
    requires DeviceStarted(Run(w, actions).log[n].device, requested, expiresAt) in Run(w, actions).log
    requires MintsAt(w, actions, k, Run(w, actions).log[n].caller) && UniqueNames(Run(w, actions[..k]).repos)
    ensures
      var e := Run(w, actions).log[n];
      && j < k
      && var read, lookup := Run(w, actions[..j]), Run(w, actions[..k]);
      && actions[j].Advance? && actions[j].caller == e.caller
      && e.caller in read.callers && read.callers[e.caller].TokenRepository? && requested in read.repos
      && (e.repo.id == requested <==>
            && requested in lookup.repos && lookup.repos[requested].active
            && lookup.repos[requested].name == read.repos[requested].name)
  {
    var e := Run(w, actions).log[n];
    assert e in Run(w, actions).log;
    TokenIsForTheRequestedRepositoryExactly(w, actions, n, k, requested, expiresAt);
    StartedFor(w, actions, e, requested, expiresAt);
    LookupDevice(w, actions, e, k);
    j := LookupUsesTheName(w, actions, k, e.caller);
    FindByNameExactly(Run(w, actions[..k]).repos, Run(w, actions[..k]).callers[e.caller].name, requested);
  }

  lemma LookupDevice(w: World, actions: seq<Action>, e: Event, k: nat)
    requires Initial(w) && e in Run(w, actions).log && e.OkReturned? && MintsAt(w, actions, k, e.caller)
    ensures
      var devices := Run(w, actions).store.devices;
      e.device in devices
        && devices[e.device].repositoryId == Run(w, actions[..k]).callers[e.caller].device.repositoryId
  {
    EveryRunMints(w, actions);
    var end := Run(w, actions);
    assert EventMinted(w, actions, end.store, e);
    hide Run, FindByName;
    var minted: nat, d: Device :|
      && MintedFor(w, actions, minted, e.caller, d, e.repo) && d.id == e.device
      && e.device in end.store.devices && end.store.devices[e.device].repositoryId == d.repositoryId;
    MintsOnce(w, actions, minted, k, e.caller);
  }

  // ---- a run in which the name passes on -----------------------------------------------------------------

  lemma {:induction false} RunConcat(w: World, a: seq<Action>, b: seq<Action>)
    ensures Run(w, a + b) == Run(Run(w, a), b)
    decreases |b|
  {
    if b == [] {
      assert a + b == a;
    } else {
      RunConcat(w, a, b[..|b| - 1]);
      assert (a + b)[..|a + b| - 1] == a + b[..|b| - 1] && (a + b)[|a + b| - 1] == b[|b| - 1];
    }
  }

  lemma RunOne(w: World, a: Action)
    ensures Run(w, [a]) == Apply(w, a)
  {
    assert [a][..0] == [] && Run(w, []) == w;
  }

  function Advances(caller: nat, n: nat, id: Id, ttl: int): seq<Action> {
    if n == 0 then [] else [Advance(caller, id, ttl)] + Advances(caller, n - 1, id, ttl)
  }

  /** A caller's steps alone are a run. */
  lemma {:induction false} AloneIsARun(w: World, caller: nat, n: nat, id: Id, ttl: int)
    requires caller in w.callers && Inv(w)
    ensures Run(w, Advances(caller, n, id, ttl)) == Alone(w, caller, n, id, ttl) && Inv(Alone(w, caller, n, id, ttl))
    decreases n
  {
    hide Step, Inv;
    if n > 0 {
      var w' := Step(w, caller, id, ttl);
      OthersUntouched(w, caller, id, ttl);
      ApplyKeeps(w, Advance(caller, id, ttl));
      AloneIsARun(w', caller, n - 1, id, ttl);
      RunOne(w, Advance(caller, id, ttl));
      RunConcat(w, [Advance(caller, id, ttl)], Advances(caller, n - 1, id, ttl));
    }
  }

  /** A new call, left alone for n steps. */
  function CallAlone(caller: nat, pc: Pc, n: nat, id: Id, ttl: int): seq<Action> {
    [Call(caller, pc)] + Advances(caller, n, id, ttl)
  }

  lemma CallRuns(w: World, caller: nat, pc: Pc, n: nat, id: Id, ttl: int)
    requires Inv(w) && caller !in w.callers && IsEntry(pc)
    ensures Run(w, CallAlone(caller, pc, n, id, ttl)) == Alone(At(w, caller, pc), caller, n, id, ttl)
    ensures Inv(Run(w, CallAlone(caller, pc, n, id, ttl)))
  {
    hide Inv, Alone, Advances;
    ApplyKeeps(w, Call(caller, pc));
    RunOne(w, Call(caller, pc));
    RunConcat(w, [Call(caller, pc)], Advances(caller, n, id, ttl));
    AloneIsARun(At(w, caller, pc), caller, n, id, ttl);
  }

  // The names and ids of the run.
  const OLD: Repo := Repo("a", "r1", true)
  const RENAMED: Repo := Repo("b", "r1", true)
  const NEW: Repo := Repo("a", "r2", true)
  const BEGINNING: World :=
    World(0, EMPTY, map["1" := OLD], {("u", "r1"), ("u", "r2")}, map["u" := true], map[], [])

  const D0: Device := Device("d", "1", "", Pending, 0, 10, 0, 0)
  const D1: Device := D0.(status := Approved, approvedUserId := "u")

  /** The device is started for repository 1, by its name. */
  lemma StartPart(w: World)
    requires w == BEGINNING && Inv(w)
    ensures
      var end := Alone(At(w, 0, StartRepository("a", "D", "U")), 0, 2, "d", 10);
      && end.now == 0 && end.repos == w.repos && end.writers == w.writers && end.accounts == w.accounts
      && end.store == Store(map["d" := D0], map[HashCode("D") := "d"], map[HashCode("U") := "d"])
      && end.callers.Keys == {0} && end.log == [DeviceStarted("d", "1", 10)]
  {
    hide HashCode, FindByName, Trim, Lookup, Approve, Consume, Expire, Inv;
    FindByNameIsActive(w.repos, "a", "1");
    var w0 := At(w, 0, StartRepository("a", "D", "U"));
    var w1 := Step(w0, 0, "d", 10);
    assert w1 == At(w0, 0, StartCreate("1", "D", "U"));
    var w2 := CreatePart(w1);
    assert Alone(w0, 0, 2, "d", 10) == Alone(w1, 0, 1, "d", 10);
    assert Alone(w1, 0, 1, "d", 10) == Alone(w2, 0, 0, "d", 10);
  }

  lemma CreatePart(w: World) returns (w2: World)
    requires w.store == EMPTY && w.now == 0 && w.callers == map[0 := StartCreate("1", "D", "U")]
    ensures w2 == Step(w, 0, "d", 10)
    ensures w2.now == 0 && w2.repos == w.repos && w2.writers == w.writers && w2.accounts == w.accounts
    ensures w2.store == Store(map["d" := D0], map[HashCode("D") := "d"], map[HashCode("U") := "d"])
    ensures w2.callers.Keys == {0} && w2.log == w.log + [DeviceStarted("d", "1", 10)]
  {
    TrimKeepsOne('D');
    TrimKeepsOne('U');
    TrimKeepsOne('1');
    hide HashCode, FindByName, Trim, Lookup, Approve, Consume, Expire;
    w2 := Step(w, 0, "d", 10);
  }

  lemma TrimKeepsOne(c: char)
    requires !IsWhitespace(c)
    ensures Trim([c]) == [c]
  {
  }

  /** The user approves it, with write access to repository 1. */
  lemma ApprovePart(w: World)
    requires w.now == 0 && w.repos == BEGINNING.repos && w.writers == BEGINNING.writers
    requires w.accounts == BEGINNING.accounts
    requires w.store == Store(map["d" := D0], map[HashCode("D") := "d"], map[HashCode("U") := "d"])
    ensures
      var end := Alone(At(w, 1, UserRead(ApproveBy("u"), "U")), 1, 6, "d", 10);
      && end.now == 0 && end.repos == w.repos && end.writers == w.writers && end.accounts == w.accounts
      && end.store == w.store.(devices := map["d" := D1])
      && end.callers.Keys == w.callers.Keys + {1} && w.log <= end.log
  {
    hide HashCode, Alone, Step;
    var w3 := ApproveReads(w);
    ApproveSteps(w3, RepoRef("1", "r1"));
  }

  lemma ApproveReads(w: World) returns (w3: World)
    requires w.now == 0 && w.repos == BEGINNING.repos
    requires w.store == Store(map["d" := D0], map[HashCode("D") := "d"], map[HashCode("U") := "d"])
    ensures w3 == w.(callers := w3.callers) && w3.callers.Keys == w.callers.Keys + {1}
    ensures w3.callers[1] == ApproveAccess("u", D0, RepoRef("1", "r1"))
    ensures Alone(At(w, 1, UserRead(ApproveBy("u"), "U")), 1, 6, "d", 10) == Alone(w3, 1, 3, "d", 10)
  {
    hide HashCode;
    var w0 := At(w, 1, UserRead(ApproveBy("u"), "U"));
    var w1 := Step(w0, 1, "d", 10);
    assert w1 == At(w0, 1, UserPending(ApproveBy("u"), D0));
    var w2 := Step(w1, 1, "d", 10);
    assert w2 == At(w1, 1, UserRepository(ApproveBy("u"), D0));
    w3 := Step(w2, 1, "d", 10);
    assert w3 == At(w2, 1, ApproveAccess("u", D0, RepoRef("1", "r1")));
    assert Alone(w0, 1, 6, "d", 10) == Alone(w1, 1, 5, "d", 10);
    assert Alone(w1, 1, 5, "d", 10) == Alone(w2, 1, 4, "d", 10);
    assert Alone(w2, 1, 4, "d", 10) == Alone(w3, 1, 3, "d", 10);
  }

  lemma ApproveSteps(w: World, ref: RepoRef)
    requires w.now == 0 && ref == RepoRef("1", "r1") && w.writers == BEGINNING.writers
    requires w.accounts == BEGINNING.accounts
    requires "d" in w.store.devices && w.store.devices["d"] == D0 && 1 in w.callers
    requires w.callers[1] == ApproveAccess("u", D0, ref)
    ensures
      var end := Alone(w, 1, 3, "d", 10);
      && end.now == 0 && end.repos == w.repos && end.writers == w.writers && end.accounts == w.accounts
      && end.store == w.store.(devices := w.store.devices["d" := D1]) && end.callers.Keys == w.callers.Keys
      && w.log <= end.log
  {
    hide Alone, Step, Approve;
    var w2 := ApproveChecks(w, ref);
    ApproveEnds(w2, ref);
  }

  lemma ApproveEnds(w2: World, ref: RepoRef)
    requires w2.now == 0 && "d" in w2.store.devices && w2.store.devices["d"] == D0
    requires 1 in w2.callers && w2.callers[1] == ApproveWrite("u", D0, ref)
    ensures
      var end := Alone(w2, 1, 1, "d", 10);
      && end == w2.(store := end.store, log := end.log, callers := end.callers)
      && end.store == w2.store.(devices := w2.store.devices["d" := D1]) && end.callers.Keys == w2.callers.Keys
      && w2.log <= end.log
  {
    hide HashCode, Lookup, FindByName, ResourceActive, Create, Consume, Expire;
    var w3 := Step(w2, 1, "d", 10);
    assert Alone(w2, 1, 1, "d", 10) == Alone(w3, 1, 0, "d", 10);
  }

  lemma ApproveChecks(w: World, ref: RepoRef) returns (w2: World)
    requires ("u", ref.resourceId) in w.writers && PrincipalOf(w.accounts, "u").Ok?
    requires 1 in w.callers && w.callers[1] == ApproveAccess("u", D0, ref)
    ensures w2 == w.(callers := w.callers[1 := ApproveWrite("u", D0, ref)], log := w2.log) && w.log <= w2.log
    ensures Alone(w, 1, 3, "d", 10) == Alone(w2, 1, 1, "d", 10)
  {
    hide HashCode, Lookup, FindByName, ResourceActive, Create, Approve, Consume, Expire;
    var w1 := Step(w, 1, "d", 10);
    assert w1.callers[1] == ApprovePrincipal("u", D0, ref) && w1.store == w.store;
    w2 := Step(w1, 1, "d", 10);
    assert Alone(w, 1, 3, "d", 10) == Alone(w1, 1, 2, "d", 10);
    assert Alone(w1, 1, 2, "d", 10) == Alone(w2, 1, 1, "d", 10);
  }

  /** A token call reads the device and the name of its repository. */
  lemma ReadPart(w: World)
    requires w.repos == BEGINNING.repos && w.accounts == BEGINNING.accounts
    requires w.store == Store(map["d" := D1], map[HashCode("D") := "d"], map[HashCode("U") := "d"])
    ensures
      var end := Alone(At(w, 2, TokenRead("D")), 2, 4, "d", 10);
      end == w.(callers := end.callers) && 2 in end.callers && end.callers[2] == MintByName("D", D1, "a")
  {
    hide HashCode, Alone;
    var w0 := At(w, 2, TokenRead("D"));
    var w2 := ReadsDevice(w0, 2, "D", D1, 2, "d", 10);
    hide Lookup;
    var w4 := ReadsNameThen(w2, 2, "D", D1, "d", 10);
  }

  lemma ReadsNameThen(w: World, caller: nat, code: string, d: Device, id: Id, ttl: int) returns (w2: World)
    requires caller in w.callers && w.callers[caller] == TokenRepository(code, d)
    requires PrincipalOf(w.accounts, d.approvedUserId).Ok?
    requires d.repositoryId in w.repos && w.repos[d.repositoryId].active
    ensures w2 == w.(callers := w2.callers) && caller in w2.callers
    ensures w2.callers[caller] == MintByName(code, d, w.repos[d.repositoryId].name)
    ensures Alone(w, caller, 2, id, ttl) == w2
  {
    hide HashCode, Lookup, FindByName;
    var w1 := Step(w, caller, id, ttl);
    assert w1 == At(w, caller, MintPrincipal(code, d, w.repos[d.repositoryId].name));
    w2 := Step(w1, caller, id, ttl);
    assert w2 == At(w1, caller, MintByName(code, d, w.repos[d.repositoryId].name));
    assert Alone(w, caller, 2, id, ttl) == Alone(w1, caller, 1, id, ttl);
    assert Alone(w1, caller, 1, id, ttl) == Alone(w2, caller, 0, id, ttl);
  }

  /** Between that read and the lookup, repository 1 is renamed and repository 2 takes its
      name; names are unique throughout. */
  const RENAMES: seq<Action> := [ChangeRepos(map["1" := RENAMED]), ChangeRepos(map["1" := RENAMED, "2" := NEW])]

  const PASSING: seq<Action> :=
    CallAlone(0, StartRepository("a", "D", "U"), 2, "d", 10)
    + CallAlone(1, UserRead(ApproveBy("u"), "U"), 6, "d", 10)
    + CallAlone(2, TokenRead("D"), 4, "d", 10)
    + RENAMES
    + Advances(2, 5, "d", 10)

  lemma RenamesApply(w: World)
    ensures Run(w, RENAMES) == w.(repos := map["1" := RENAMED, "2" := NEW])
  {
    assert RENAMES == [RENAMES[0]] + [RENAMES[1]];
    RunConcat(w, [RENAMES[0]], [RENAMES[1]]);
    RunOne(w, RENAMES[0]);
    RunOne(Apply(w, RENAMES[0]), RENAMES[1]);
  }

  lemma UpToStart() returns (w1: World)
    ensures w1 == Run(BEGINNING, CallAlone(0, StartRepository("a", "D", "U"), 2, "d", 10))
    ensures Inv(w1) && w1.callers.Keys == {0} && w1.log == [DeviceStarted("d", "1", 10)] && w1.now == 0
    ensures w1.repos == BEGINNING.repos && w1.writers == BEGINNING.writers && w1.accounts == BEGINNING.accounts
    ensures w1.store == Store(map["d" := D0], map[HashCode("D") := "d"], map[HashCode("U") := "d"])
  {
    EveryRunKeepsInv(BEGINNING, []);
    RunNothing(BEGINNING);
    hide Inv, HashCode, Alone, Run, CallAlone;
    CallRuns(BEGINNING, 0, StartRepository("a", "D", "U"), 2, "d", 10);
    StartPart(BEGINNING);
    w1 := Run(BEGINNING, CallAlone(0, StartRepository("a", "D", "U"), 2, "d", 10));
  }

  lemma UpToApproval() returns (w2: World)
    ensures w2 == Run(Run(BEGINNING, CallAlone(0, StartRepository("a", "D", "U"), 2, "d", 10)),
                      CallAlone(1, UserRead(ApproveBy("u"), "U"), 6, "d", 10))
    ensures Inv(w2) && w2.callers.Keys == {0, 1} && [DeviceStarted("d", "1", 10)] <= w2.log
    ensures w2.repos == BEGINNING.repos && w2.writers == BEGINNING.writers && w2.accounts == BEGINNING.accounts
    ensures w2.store == Store(map["d" := D1], map[HashCode("D") := "d"], map[HashCode("U") := "d"])
  {
    hide Inv, HashCode, Alone, Run, CallAlone;
    var w1 := UpToStart();
    CallRuns(w1, 1, UserRead(ApproveBy("u"), "U"), 6, "d", 10);
    ApprovePart(w1);
    w2 := Run(w1, CallAlone(1, UserRead(ApproveBy("u"), "U"), 6, "d", 10));
  }

  /** From the renamed world the token call, left alone, returns the other repository. */
  lemma AfterRenames(w3: World) returns (n: nat)
    requires Inv(w3) && 2 in w3.callers && w3.callers[2] == MintByName("D", D1, "a")
    requires w3.writers == BEGINNING.writers && "d" in w3.store.devices && w3.store.devices["d"] == D1
    requires [DeviceStarted("d", "1", 10)] <= w3.log
    ensures
      var log := Run(Run(w3, RENAMES), Advances(2, 5, "d", 10)).log;
      && log != [] && log[0] == DeviceStarted("d", "1", 10)
      && n < |log| && log[n].OkReturned? && log[n].device == "d" && log[n].repo == RepoRef("2", "r2")
  {
    hide Inv, Alone, Run, Advances, FindByName;
    RenamesApply(w3);
    var w4 := Run(w3, RENAMES);
    LogOnlyGrows(w3, RENAMES);
    AloneIsARun(w4, 2, 5, "d", 10);
    FindByNameIsActive(w4.repos, "a", "2");
    MintsAndConsumes(w4, 2, "D", D1, "a", "d", 10);
    LogOnlyGrows(w4, Advances(2, 5, "d", 10));
    n := |Run(w4, Advances(2, 5, "d", 10)).log| - 1;
  }

  /** From an initial world, with unique names at every moment, a run that returns a token for
      repository 2 to a device started for repository 1. */
  lemma NamesMayPass() returns (n: nat)
    ensures Initial(BEGINNING) && UniqueNames(BEGINNING.repos)
    ensures forall a :: a in RENAMES ==> a.ChangeRepos? && UniqueNames(a.repos)
    ensures
      var log := Run(BEGINNING, PASSING).log;
      && log != [] && log[0] == DeviceStarted("d", "1", 10)
      && n < |log| && log[n].OkReturned? && log[n].device == "d" && log[n].repo == RepoRef("2", "r2")
  {
    hide Inv, HashCode, Alone, Run, CallAlone, Advances;
    var w2 := UpToApproval();
    CallRuns(w2, 2, TokenRead("D"), 4, "d", 10);
    ReadPart(w2);
    var w3 := Run(w2, CallAlone(2, TokenRead("D"), 4, "d", 10));
    n := AfterRenames(w3);
    PassingIs(BEGINNING);
  }

  lemma RunNothing(w: World)
    ensures Run(w, []) == w
  {
  }

  lemma PassingIs(w: World)
    ensures Run(w, PASSING) ==
              Run(Run(Run(Run(Run(w, CallAlone(0, StartRepository("a", "D", "U"), 2, "d", 10)),
                                     CallAlone(1, UserRead(ApproveBy("u"), "U"), 6, "d", 10)),
                             CallAlone(2, TokenRead("D"), 4, "d", 10)),
                      RENAMES),
                  Advances(2, 5, "d", 10))
  {
    var a := CallAlone(0, StartRepository("a", "D", "U"), 2, "d", 10);
    var b := CallAlone(1, UserRead(ApproveBy("u"), "U"), 6, "d", 10);
    var c := CallAlone(2, TokenRead("D"), 4, "d", 10);
    hide CallAlone, Advances, Run;
    RunConcat(w, a, b);
    RunConcat(w, a + b, c);
    RunConcat(w, a + b + c, RENAMES);
    RunConcat(w, a + b + c + RENAMES, Advances(2, 5, "d", 10));
  }

  lemma {:induction false} LogOnlyGrows(w: World, actions: seq<Action>)
    requires Inv(w)
    ensures w.log <= Run(w, actions).log && Inv(Run(w, actions))
  {
    hide Inv, Apply;
    if actions != [] {
      LogOnlyGrows(w, actions[..|actions| - 1]);
      ApplyKeeps(Run(w, actions[..|actions| - 1]), actions[|actions| - 1]);
    }
  }
}
