# A verified model of the Lore auth service

The service answers three kinds of question, and this project models each in Dafny and proves
what the code promises about it.

* **Who may do what.** Users belong to groups, groups nest in groups, and grants give a user or a
  group a role on a repository. The code answers from pruned per-user tuple snapshots, from a
  fixpoint over tuples, from recursive SQL queries, from two breadth-first explainers and from
  evidence lists. One inductive definition of reachability (`Reach`) stands behind all of them:
  every algorithm is proved equal to it, with cycles allowed in the data that is read.
* **What a credential can do.** Device codes, CLI sign-in sessions and tokens go through several
  store calls each. Every store call is one atomic step, any number of callers interleave, the
  clock, accounts, grants and repositories change between steps, and the theorems hold in every
  state of every run.
* **Small algorithms with exact promises.** The civil calendar, the fixed-window rate limiter, LIKE
  escaping and HTML escaping.

| file | contents |
|---|---|
| Text, CoreModel, History | strings, orders, sorting; errors, roles, resource ids; histories of events |
| Reach | chains, reachability, least closures, acyclicity |
| GroupNesting, GroupTables | the cycle check and every run of nesting calls, in memory and over rows |
| Tuples, Resolver | tuples, tables, filter pushdown; the depth-bounded relation check and pruning |
| GroupClosure, GroupPaths | the closure loops and queries; the two path explainers |
| Access, AccessList, MemoryAccess, Evidence | the decision, the listing, the memory store's answer and the evidence |
| DeviceStore, DeviceFlow, DeviceNames, DeviceAnswers | device authorizations, as a store and under interleaving; which repository a token is for; what each caller is told |
| AuthSessions, SessionAnswers | sign-in sessions under interleaving; what each caller is told |
| AuthnTokens, TokenAnswers | token life under interleaving; what each caller is told |
| LoginBinding | accounts, identities, invitations and login resolution |
| RateLimit, Calendar, LikeSearch, HtmlEscape | the self-contained algorithms |

How to read it. Where the source updates state, a class with the same fields is proved to follow a
specification function, and the theorems are about that function over all runs. Tables are
sequences in the order in which the queries return their rows, or maps keyed by primary key. A
recursive common table expression is evaluated as SQL defines it, by a queue of rows. Hashing is
injective, so trimmed text stands for its hash; signing is ideal, so the texts that verify are the
texts that were signed. Generated ids, codes, nonces and token ids are fresh. Times are parameters
of the steps, and the clock never runs backwards. The resolver library is not part of this model:
it appears as a recursive check that reads tuples by object and relation, in order,
with its depth limit as a parameter, and every result is stated for every limit.

Results worth knowing before reading the table:

* Filter pushdown is exact for filters that name a resource by its full `urc-` id, and for no
  others (`Tuples.PushdownExactlyForPrefixedObjects`).
* Only one `urc-` is stripped from a resource id, so the round trip fails exactly for ids that carry
  the prefix themselves (`CoreModel.RepositoryIdRoundTrip`); stored ids are assumed canonical where
  that matters.
* An unknown role makes `can_access` fail exactly when it sorts before every role of the user that
  decides the action (`Access.CanAccess`).
* On the same groups and grants the memory store gives the tuple engine's decision, as it is without
  the depth limit, exactly when the repository is active, no unknown role of the user sorts before
  every deciding one, and the action is known, or the id is unprefixed, or the user is no admin
  there (`MemoryAccess.MemoryAgreesExactly`). One-grant stores show each way to part, a deleted repository
  that stays open among them.
* Both group stores stay in step exactly until a taken name is added again, which SQLite refuses and
  the memory store does not (`GroupTables.StoresStayInStep`).
* Evidence has a deciding row exactly when `can_access` allows, but for an unknown role that sorts
  first, which makes `can_access` fail, and for ids given without the prefix, which are explained and
  never allowed (`Evidence.EvidenceMatchesExactly`).
* The list of accessible resources agrees with `can_access` exactly when no stored id that carries
  the prefix stands beside one with a prefix more and grants what its stripped form does not
  (`AccessList.ListingIsExact`).
* The device flow mints by repository name: the token is for the repository requested exactly when
  the name still leads to it at the lookup (`DeviceNames.TokenIsForTheRequestedRepositoryExactly`,
  and, in terms of the tables, `DeviceNames.TokenFollowsItsName`), which unique, unchanging names
  guarantee and a rename can break, as a run shows (`DeviceNames.NamesMayPass`). An approved device code does not expire
  (`DeviceNames.ApprovedDeviceRedeems`).
* In the interleaved flows every answer is tied to its caller: success to the caller's own event in
  the history, both ways (`DeviceAnswers.AnswersMatchTheHistory`,
  `SessionAnswers.AnswersMatchTheHistory`), and each answer to what that call was given, read and
  checked (`EveryAnswerIsEarned` of the three modules).
* Tokens are signed and recorded before the code or session is consumed, so "at most once" is about
  the tokens returned to callers.

## Model

| member | source | states |
|---|---|---|
| CoreModel.RepositoryIdRoundTrip | crates/lore-auth-core/src/model.rs:102-119 | The conversions between repository id and resource id are inverse exactly on ids that do not themselves begin with `urc-` |
| CoreModel.CanonicalIdsAreDistinct | crates/lore-auth-core/src/model.rs:102-119 | Canonical repository ids have distinct resource ids, and each is recovered from its resource id |
| Reach.ClosedAndReachableIsClosure | crates/lore-auth-adapters/src/sqlite/grants.rs:299-323 | The closure the recursive query asks for is the one closed set of reachable nodes |
| Reach.AddEdgeKeepsAcyclic | crates/lore-auth-adapters/src/memory/mod.rs:349-366 | A new edge keeps an acyclic graph acyclic exactly when its head does not already reach its tail |
| Reach.AcyclicWalksAreShort | crates/lore-auth-adapters/src/memory/mod.rs:349-366 | In an acyclic nesting no walk is longer than the number of nested groups plus one |
| GroupNesting.ResolutionIsExact | crates/lore-auth-adapters/src/memory/mod.rs:334-347 | A reference resolves exactly to the id of a stored group: the group with that id, or the group of that name while no group has it as its id; it fails exactly when there is neither |
| GroupNesting.GroupGroupWouldCycle | crates/lore-auth-adapters/src/memory/mod.rs:349-366 | The depth-first search terminates and reports a cycle exactly when the member already reaches the parent |
| GroupNesting.NestingIsExact | crates/lore-auth-adapters/src/memory/groups.rs:55-86 | Nesting adds exactly the edge between the two groups that are named when that keeps the graph acyclic, changes nothing for a present edge, and otherwise is refused, with the error for each case |
| GroupNesting.UnnestingRemovesTheEdge | crates/lore-auth-adapters/src/memory/groups.rs:88-108 | Un-nesting succeeds exactly for a present edge between the two groups that are named, removes that edge and no other, and keeps the nesting safe |
| GroupNesting.UnnestUndoesNest | crates/lore-auth-adapters/src/memory/groups.rs:55-108 | Nesting a pair and then un-nesting it restores the edges |
| GroupNesting.EveryRunIsSafe | crates/lore-auth-adapters/src/memory/groups.rs:16-108 | In every state reached by adding, nesting and un-nesting groups the nesting is acyclic and has no duplicate edge |
| GroupNesting.EveryEdgeWasAskedFor | crates/lore-auth-adapters/src/memory/groups.rs:55-86 | Over every run each edge joins the ids of two groups that some nesting call named |
| GroupNesting.EveryRunKeepsNames | crates/lore-auth-adapters/src/memory/groups.rs:16-29 | In every reachable state each group is kept under its own, trimmed and nonempty, name |
| GroupNesting.GroupStore.AddGroup | crates/lore-auth-adapters/src/memory/groups.rs:16-29 | Replaces the group of that trimmed name in place, or refuses an empty name |
| GroupNesting.GroupStore.AddGroupGroup | crates/lore-auth-adapters/src/memory/groups.rs:55-86 | The update in place is the specified nesting step |
| GroupNesting.GroupStore.RemoveGroupGroup | crates/lore-auth-adapters/src/memory/groups.rs:88-108 | The update in place is the specified un-nesting step |
| GroupTables.Descendants | crates/lore-auth-adapters/src/sqlite/groups.rs:308-317 | Evaluating the recursive query by a queue of rows yields exactly what the root reaches |
| GroupTables.GroupGroupWouldCycleTx | crates/lore-auth-adapters/src/sqlite/groups.rs:301-322 | The query evaluated over the rows reports a cycle exactly when the member already reaches the parent |
| GroupTables.GroupTable.AddGroupGroup | crates/lore-auth-adapters/src/sqlite/groups.rs:114-149 | The update in place, guarded by the evaluated query, is the specified insertion |
| GroupTables.InsertIsExact | crates/lore-auth-adapters/src/sqlite/groups.rs:114-149 | The transaction stores the edge between the two groups that are named exactly when the rows with it are acyclic, and otherwise is rolled back, with the error for each case |
| GroupTables.DeletionIsExact | crates/lore-auth-adapters/src/sqlite/groups.rs:151-172 | Deletion succeeds exactly for a present edge between the two groups that are named, and removes that edge and no other |
| GroupTables.EveryRunKeepsRowsSafe | crates/lore-auth-adapters/src/sqlite/groups.rs:42-172 | Over every run of the SQLite store the nesting rows are acyclic and no row is stored twice |
| GroupTables.EveryRowJoinsGroups | crates/lore-auth-adapters/src/sqlite/groups.rs:42-172 | Over every run of the SQLite store both ends of every row are ids of stored groups |
| GroupTables.NestingMirrors | crates/lore-auth-adapters/src/sqlite/groups.rs:114-149 | From the same groups and edges both stores answer a nesting call alike, so the recursive query and the depth-first search give one verdict, and they stay in step |
| GroupTables.UnnestingMirrors | crates/lore-auth-adapters/src/sqlite/groups.rs:151-172 | From the same groups and edges both stores answer an un-nesting call alike and stay in step |
| GroupTables.StoresStayInStep | crates/lore-auth-adapters/src/sqlite/groups.rs:42-172 | Over every run with fresh ids, the memory store and the tables hold the same groups and edges exactly when no group name was added twice |
| GroupTables.PartedForGood | crates/lore-auth-adapters/src/memory/groups.rs:16-29 | Once a taken name is added again, the stores hold different ids under some name after every further run |
| GroupTables.TakenNamesPartTheStores | crates/lore-auth-adapters/src/sqlite/groups.rs:42-70 | Two calls that add the same name: the tables keep the first group, the memory store holds the second |
| Tuples.FilteredElements | crates/lore-auth-adapters/src/authz.rs:92-98 | The in-memory reader returns exactly the snapshot tuples that match the filter |
| Tuples.PushdownPreservesMeaning | crates/lore-auth-adapters/src/authz.rs:465-710 | For canonical ids and subject types user or group, the pushed-down read returns, in order, exactly the tuples of the unfiltered read that match the filter |
| Tuples.PushdownExactlyForPrefixedObjects | crates/lore-auth-adapters/src/authz.rs:475-533 | Pushdown is exact on every database exactly for the filters that name resources by prefixed ids or cannot read grants |
| Resolver.RelatedGroups | crates/lore-auth-adapters/src/authz.rs:861-867 | Being a member of a group, as the check sees it, is reaching the group from a direct group |
| Resolver.CheckMeaning | crates/lore-auth-adapters/src/authz.rs:146-202 | For every tuple list, cycles included, and every depth limit, an answer allow or deny is right about reachability |
| Resolver.AcyclicNestingIsDeepEnough | crates/lore-auth-adapters/src/authz.rs:146-202 | With acyclic nesting a limit above the number of nested groups is never met |
| Resolver.PruningIsSound | crates/lore-auth-adapters/src/authz.rs:861-867 | Whenever the check answers over all tuples, it gives the same answer, at the same depth limit, over the tuples pruned to the user's upward closure |
| Resolver.CheckReadsRows | crates/lore-auth-adapters/src/authz.rs:391-463 | Two tuple lists with the same rows, in order, for the object and for every group give the same answer at every depth limit |
| Resolver.SnapshotKeepsUserGroups | crates/lore-auth-adapters/src/authz.rs:856-926 | Pruning to the upward closure loses none of the user's groups |
| GroupClosure.ReachableGroupIdsFromTuples | crates/lore-auth-adapters/src/authz.rs:965-995 | The loop terminates with exactly the least set that holds the direct groups and is closed under parents |
| GroupClosure.PassOverTuples | crates/lore-auth-adapters/src/authz.rs:974-993 | A pass that changes something finds a new group of the user; a pass that changes nothing leaves a set closed under parents |
| GroupClosure.RecursiveUserGroups | crates/lore-auth-adapters/src/sqlite/grants.rs:299-323 | The recursive query evaluates to the closure of the direct membership rows |
| GroupClosure.TuplesAndTablesAgree | crates/lore-auth-adapters/src/authz.rs:534-645 | The closure over membership tuples is the closure over the tables |
| GroupClosure.DirectGroupsAreNamed | crates/lore-auth-adapters/src/memory/mod.rs:324-332 | The direct groups of a user are exactly the ids of the stored groups that the user's entries name |
| GroupClosure.GrantSubjectKeysForUser | crates/lore-auth-adapters/src/memory/mod.rs:266-288 | The keys are the user first, then each group of the closure exactly once |
| GroupClosure.PassOnce | crates/lore-auth-adapters/src/memory/mod.rs:266-280 | A pass over the nesting lists finds a new group or settles every list |
| Access.SnapshotGroups | crates/lore-auth-adapters/src/authz.rs:856-926 | Inside a snapshot the user's groups are the user's groups in the tables |
| Access.RelatedIsHasRole | crates/lore-auth-adapters/src/authz.rs:835-854 | In a snapshot, being related to a resource id is holding the role, in person or through a reachable group, on a repository of the snapshot with that id |
| Access.ReadGrantTuplesOn | crates/lore-auth-adapters/src/authz.rs:740-814 | Reads exactly the grants on the given active repositories, in row order |
| Access.ReadUserReachableGroupMemberTuples | crates/lore-auth-adapters/src/authz.rs:856-926 | Reads exactly the user's memberships and then the nestings of reachable groups, in row order |
| Access.ReadSnapshot | crates/lore-auth-adapters/src/authz.rs:712-738 | The snapshot is those rows in that order: every grant on its repositories and the user's part of the group graph |
| Access.PrunedTables | crates/lore-auth-adapters/src/authz.rs:856-926 | Pruning all tuples for the user leaves every grant and exactly the membership rows that the queries read, in order |
| Access.SnapshotRows | crates/lore-auth-adapters/src/authz.rs:740-926 | The rows of every group, and of every covered resource, are the same, in order, in the snapshot read and in all tuples pruned for the user |
| Access.ReadSnapshotIsSound | crates/lore-auth-adapters/src/authz.rs:712-738 | At every depth limit at which a check over all tuples answers, the check over the snapshot read gives the same answer, whenever the snapshot covers the grants on the resource id |
| Access.AnyRelationOverAllTuples | crates/lore-auth-adapters/src/authz.rs:176-200 | The same for any repositories that cover the grants on the resource id |
| Access.CanonicalRelationsOverAllTuples | crates/lore-auth-adapters/src/authz.rs:176-226 | With canonical ids, whenever the relations asked by `can_access` answer over all tuples, they answer the same over the snapshot it reads |
| Access.FirstRoleIsValid | crates/lore-auth-adapters/src/authz.rs:948-961 | Scanning the sorted roles fails exactly when an unknown role precedes every role that decides the action |
| Access.ValidateSnapshotCanAccessRoles | crates/lore-auth-adapters/src/authz.rs:928-963 | Validation looks at the applicable roles only and fails exactly when an unknown one sorts first |
| Access.CheckAnyRelation | crates/lore-auth-adapters/src/authz.rs:176-200 | The first relation that does not deny answers; an answer says whether some relation holds; an error is the depth limit, met on one of them |
| Access.RelationsFor | crates/lore-auth-adapters/src/authz.rs:214-223 | The relations checked for an action are exactly the roles that decide it |
| Access.CanAccess | crates/lore-auth-adapters/src/authz.rs:204-226 | Not found without an active repository; an error exactly when an unknown applicable role sorts before every deciding one; otherwise allow exactly when some role of the user is admin or allows the action; or the depth limit, and then only when a chain of nested groups as long as the limit hangs below a granted group; past the validation, what the relations answer over the snapshot |
| Access.TooDeepIsDeep | crates/lore-auth-adapters/src/authz.rs:146-202 | A check that meets the limit has met a chain of nested groups exactly as long as it, the user's groups below a granted group |
| Access.DepthNeedsNesting | crates/lore-auth-adapters/src/authz.rs:204-226 | A limit above the number of nested groups is beyond every such chain of an acyclic nesting |
| Access.NestingRunsAreDeepEnough | crates/lore-auth-adapters/src/sqlite/groups.rs:114-172 | Whatever calls of the SQLite store built the nesting rows, a limit above the number of nested groups is never met |
| AccessList.CandidateResourceIds | crates/lore-auth-adapters/src/authz.rs:997-1046 | Strictly sorted, exactly the ids under the prefix with a grant that reaches the user; an unknown role among them is an error |
| AccessList.ResourcePermissions | crates/lore-auth-adapters/src/authz.rs:252-300 | The permissions are those of the strongest role related to the resource |
| AccessList.ListAccessible | crates/lore-auth-adapters/src/authz.rs:228-248 | An error exactly for an unknown applicable role; otherwise strictly sorted, exactly the active repositories under the prefix where `can_access` allows read, with write and admin exactly where it allows them, exactly when no stored id that itself carries the prefix lends its grants; or the depth limit, as for `can_access` |
| AccessList.ListingIsExact | crates/lore-auth-adapters/src/authz.rs:228-248 | The entries computed from the snapshot agree with `can_access` exactly when nothing is lent |
| AccessList.CanonicalStoreBorrowsNothing | crates/lore-auth-adapters/src/authz.rs:228-248 | With canonical stored ids nothing is lent, so that the list agrees |
| AccessList.ChainedIdsBorrow | crates/lore-auth-adapters/src/authz.rs:772-814 | Stored ids `urc-y` and `urc-urc-y` side by side make the list and `can_access` disagree |
| MemoryAccess.MemoryCanAccess | crates/lore-auth-adapters/src/memory/grants.rs:20-32 | Allows exactly when a role granted on the very resource id to the user or a reachable group allows the action |
| MemoryAccess.MemoryAgreesExactly | crates/lore-auth-adapters/src/memory/grants.rs:20-32 | On the same groups and grants the memory store gives the tuple engine's decision, which is its answer wherever it does not report the depth limit, exactly when the repository is active, no unknown role of the user sorts before every deciding one, and the action is known, or the id is unprefixed, or the user is no admin there |
| MemoryAccess.MemoryAllowsWhatIsDecided | crates/lore-auth-adapters/src/memory/grants.rs:20-32 | Under that condition the memory store allows exactly what the tuple engine allows |
| MemoryAccess.CanonicalIdsNameTheirRepositories | crates/lore-auth-core/src/model.rs:102-119 | Unique canonical ids give every repository its own resource id, which strips back to it |
| MemoryAccess.DeletedRepositoryStaysOpen | crates/lore-auth-adapters/src/memory/grants.rs:20-32 | Stores with the same groups and the same reader grant, on a deleted repository: the memory store allows reading, the tuple engine finds no repository |
| MemoryAccess.UnknownRoleIsPassedOver | crates/lore-auth-adapters/src/memory/grants.rs:20-32 | Stores with the same grant of an unknown role: the memory store denies, the tuple engine fails |
| MemoryAccess.UnknownActionNeedsAnAdmin | crates/lore-auth-adapters/src/memory/grants.rs:20-32 | Stores with the same admin grant, asked for an unknown action: the memory store denies, the tuple engine allows |
| GroupPaths.Exhausted | crates/lore-auth-adapters/src/memory/mod.rs:290-313 | An exhausted breadth-first search has found exactly the reachable groups, each by a shortest chain |
| GroupPaths.RenderFromTheFront | crates/lore-auth-adapters/src/memory/mod.rs:290-322 | A path text lists the groups of a chain in order, each by its name or else its id, joined by arrows |
| GroupPaths.GroupPathsForUser | crates/lore-auth-adapters/src/memory/mod.rs:290-313 | The keys are exactly the user's groups, and each path spells out a shortest membership chain from a direct group |
| GroupPaths.ParentsByMember | crates/lore-auth-adapters/src/sqlite/grants.rs:369-388 | The index lists exactly the parents of each member group |
| GroupPaths.SearchConn | crates/lore-auth-adapters/src/sqlite/grants.rs:390-410 | The queue loop, given the index, ends with exactly the reachable groups and a shortest explanation for each |
| GroupPaths.GroupPathsConn | crates/lore-auth-adapters/src/sqlite/grants.rs:325-411 | The keys are exactly the reachable groups, so no lookup of a path falls back to a label, and each path is a shortest chain |
| Evidence.EvidenceOrder | crates/lore-auth-adapters/src/sqlite/grants.rs:258-271 | The comparison the evidence is sorted by is a total preorder |
| Evidence.EvidenceOrderIsLexicographic | crates/lore-auth-adapters/src/sqlite/grants.rs:258-271 | Rows are compared by path, subject type, subject id and role, the first that differs deciding |
| Evidence.DirectEvidence | crates/lore-auth-adapters/src/sqlite/grants.rs:183-209 | One row for each direct grant of the user on the repository, under the user's label |
| Evidence.RowsOfGroup | crates/lore-auth-adapters/src/sqlite/grants.rs:213-254 | One row for each grant of the group, under the group's name, with its shortest path |
| Evidence.EvidenceFor | crates/lore-auth-adapters/src/sqlite/grants.rs:174-273 | For a user that is not deleted and an active repository: sorted, exactly one row per applicable grant, each path a shortest explanation; the error cases exactly |
| Evidence.RolesAreRows | crates/lore-auth-adapters/src/sqlite/grants.rs:174-273 | The roles a user holds on an active repository are exactly the roles of its evidence rows |
| Evidence.EvidenceMatchesExactly | crates/lore-auth-adapters/src/authz.rs:204-226 | For a trimmed id, the decision is whether some evidence row decides, exactly when no row with an unknown role sorts before every deciding row, and the id carries its prefix or no row decides |
| Evidence.EvidenceExplainsDecision | crates/lore-auth-adapters/src/authz.rs:204-226 | So with known roles and a trimmed id that carries its prefix, the decision is to allow exactly when some evidence row's role is admin or allows the action |
| Evidence.UnprefixedIdsAreExplainedButDenied | crates/lore-auth-adapters/src/authz.rs:113-130 | A store in which an id without its prefix has the evidence of a reader and reading is denied |
| Evidence.UntrimmedIdsAreNotFound | crates/lore-auth-adapters/src/sqlite/grants.rs:274-297 | The evidence trims its id and `can_access` does not: when stored ids are trimmed, the decision on an untrimmed id is not found |
| DeviceStore.CodesMatchExactly | crates/lore-auth-adapters/src/sqlite/mod.rs:257-259 | Two codes have one key exactly when they are the same, surrounding white space and the case of letters aside |
| DeviceStore.DeviceTable.ApproveDeviceAuthorization | crates/lore-auth-adapters/src/sqlite/devices.rs:116-134 | Approves exactly a pending unexpired device for the user, keeping its request and every other device |
| DeviceStore.DeviceTable.ConsumeDeviceAuthorization | crates/lore-auth-adapters/src/sqlite/devices.rs:136-152 | Consumes exactly an approved device, whatever the time, keeping its approval and every other device |
| DeviceStore.DeviceTable.ExpireDeviceAuthorization | crates/lore-auth-adapters/src/sqlite/devices.rs:154-170 | Leaves no pending device under the id and every other device as it was |
| DeviceFlow.ApplyKeeps | crates/lore-auth-core/src/service/device.rs:87-191 | One step of any caller, or a change of clock, grants, accounts or repositories, keeps the agreement between devices, pending calls and history |
| DeviceFlow.EveryRunKeepsInv | crates/lore-auth-core/src/service/device.rs:87-191 | That agreement holds in every state of every interleaving |
| DeviceFlow.TokensAreReturnedOnce | crates/lore-auth-core/src/service/device.rs:147-191 | In every interleaving the history returns "ok" at most once for each device and device code, and a device is consumed exactly when it does |
| DeviceFlow.EveryTokenIsAccountedFor | crates/lore-auth-core/src/service/device.rs:126-191 | Before every token, in this order: the device was started for its repository; write access to it was checked for the user; that user approved, before the expiry; write access to the token's repository was checked again |
| DeviceFlow.EveryApprovalIsInTime | crates/lore-auth-core/src/service/device.rs:126-145 | Every approval of every run happened once, before the device expired, after the device was started and write access was checked |
| DeviceFlow.ApprovedDevicesWereApprovedInTime | crates/lore-auth-adapters/src/sqlite/devices.rs:116-134 | In every reachable state a device is approved or consumed exactly when the history approved it, by its user, before its expiry, with write access checked |
| DeviceFlow.StatusesMoveForward | crates/lore-auth-adapters/src/memory/devices.rs:77-116 | A device keeps its repository and expiry; its status moves only from pending to approved to consumed, or from pending to expired |
| DeviceNames.TokenIsForTheRequestedRepository | crates/lore-auth-core/src/service/device.rs:87-191 | With unique and stable names, a token is for the repository named at the start, the one on which approval checked access |
| DeviceNames.TokenIsForTheRequestedRepositoryExactly | crates/lore-auth-core/src/service/device.rs:174-182 | Over every run, whatever happens to names: a token is for the repository its device was started for exactly when, at its call's lookup, the name led to that repository |
| DeviceNames.TokenFollowsItsName | crates/lore-auth-core/src/service/device.rs:174-182 | With unique names at the lookup, a token is for the repository its device was started for exactly when that repository is active there and still bears the name that the call read at one earlier step |
| DeviceNames.LookupUsesTheName | crates/lore-auth-core/src/service/device.rs:174-182 | The name looked up is the one that the call read from its device's repository at an earlier step |
| DeviceNames.EveryTokenWasMinted | crates/lore-auth-core/src/service/token.rs:167-181 | Every token is for the repository that its call's lookup found under the name |
| DeviceNames.MintsOnce | crates/lore-auth-core/src/service/device.rs:147-191 | Each call looks a repository up by name at most once |
| DeviceNames.NamesMayPass | crates/lore-auth-core/src/service/device.rs:174-182 | A run with unique names at every moment in which a device started for one repository is returned a token for another that has taken its name |
| DeviceNames.ApprovedDeviceRedeems | crates/lore-auth-core/src/service/device.rs:147-191 | Undisturbed, an approved device redeems its code at any time, for its user and repository |
| DeviceAnswers.EveryAnswerIsEarned | crates/lore-auth-core/src/service/device.rs:87-251 | Over every run, what a caller is told goes back to its own call: which code it presented and which device it read under it, at which times and statuses, which accounts, repositories and accesses it checked; for a poll, the answer for the status it read; for a start, the codes and expiry of the device; for a refusal by code or status, the code or status |
| DeviceAnswers.AnswersMatchTheHistory | crates/lore-auth-core/src/service/device.rs:126-191 | Over every run a caller holds a token for a user and repository exactly when the history has its return to that caller, and is told of an approval exactly when the history has it |
| DeviceAnswers.HoldersRedeemApart | crates/lore-auth-core/src/service/device.rs:147-191 | Two callers that hold tokens redeemed different devices with different codes |
| DeviceAnswers.UndisturbedStart | crates/lore-auth-core/src/service/device.rs:87-111 | Undisturbed, a start succeeds exactly for the name of an active repository and codes that are not blank, and leaves a pending device with its expiry |
| DeviceAnswers.UndisturbedPreview | crates/lore-auth-core/src/service/device.rs:113-124 | Undisturbed, a preview succeeds exactly for a pending, unexpired device of an active repository |
| DeviceAnswers.UndisturbedApproval | crates/lore-auth-core/src/service/device.rs:126-145 | Undisturbed, an approval succeeds exactly for such a device on whose repository the user, with an active account, has write access, and the device is then approved by the user |
| DeviceAnswers.UndisturbedPoll | crates/lore-auth-core/src/service/device.rs:147-172 | Undisturbed, a poll of a device that is not approved is told its status, and a pending device whose time is up expires |
| DeviceAnswers.UnknownCodesAreRefused | crates/lore-auth-core/src/service/device.rs:193-211 | A code that leads to no device is refused as invalid |
| AuthSessions.SessionTable.GetAuthSessionByNonce | crates/lore-auth-adapters/src/memory/state.rs:55-63 | The search over the sessions finds the one with the nonce, if unexpired |
| AuthSessions.SessionTable.CompleteAuthSession | crates/lore-auth-adapters/src/sqlite/state.rs:80-98 | Completes exactly a pending unexpired session for the user, keeping its secrets and every other session |
| AuthSessions.SessionTable.ConsumeAuthSession | crates/lore-auth-adapters/src/sqlite/state.rs:100-117 | Consumes exactly a completed unexpired session, keeping its user and every other session |
| AuthSessions.ApplyKeeps | crates/lore-auth-core/src/service/login.rs:113-235 | Every step of every caller keeps the agreement between sessions, pending calls and history |
| AuthSessions.EveryRunKeepsInv | crates/lore-auth-core/src/service/login.rs:113-235 | That agreement holds in every state of every interleaving |
| AuthSessions.TokensAreReturnedOnce | crates/lore-auth-core/src/service/login.rs:133-161 | In every interleaving the history returns a token at most once for each session and session code, and a session is consumed exactly when it does |
| AuthSessions.EveryTokenIsAccountedFor | crates/lore-auth-core/src/service/login.rs:133-161 | Before every token, in order: its session was started with that client state; its user signed in with the session's nonce; that user, and nobody else ever, completed the session; and the token precedes the expiry |
| AuthSessions.EveryCompletionIsAccountedFor | crates/lore-auth-core/src/service/login.rs:206-220 | Every completion happened once, before the expiry, after its user signed in with the session's nonce |
| AuthSessions.SessionsMoveForward | crates/lore-auth-adapters/src/sqlite/state.rs:80-117 | A session keeps its client state, nonce and expiry, never moves back, and never changes the user who completed it |
| AuthSessions.UndisturbedRedemption | crates/lore-auth-core/src/service/login.rs:133-161 | Undisturbed, redemption returns a token for a user exactly for an unexpired session completed by that user, with matching client state and active account |
| SessionAnswers.EveryAnswerIsEarned | crates/lore-auth-core/src/service/login.rs:113-235 | Over every run, what a caller is told goes back to its own call: a token to the unexpired session of its code, with the client state it presented, completed by a user active at the minting; "not ready" to such a session that is not completed; a completed sign-in to the user its login resolved to and the session of its nonce; a browser session to a login without one; an unknown user to a login that resolves to nobody |
| SessionAnswers.AnswersMatchTheHistory | crates/lore-auth-core/src/service/login.rs:133-235 | Over every run a caller holds a token for a user exactly when the history has its return to that caller, and is told of a completed sign-in exactly when the history has the completion |
| SessionAnswers.ReadyCallersRedeemApart | crates/lore-auth-core/src/service/login.rs:133-161 | Two callers that hold tokens redeemed different sessions with different codes, so each session has at most one |
| SessionAnswers.UndisturbedStart | crates/lore-auth-core/src/service/login.rs:113-131 | Starting creates a pending session with the client state, nonce and expiry |
| SessionAnswers.UndisturbedLogin | crates/lore-auth-core/src/service/login.rs:204-234 | Undisturbed, a resolved login completes the pending session of its nonce, or opens a browser session when there is no nonce or no unexpired session of it |
| SessionAnswers.UnresolvedLogin | crates/lore-auth-core/src/service/login.rs:189-203 | A login that resolves to nobody is an unknown user, and one that fails is told why |
| AuthnTokens.TokenLog.RevokeIssuedToken | crates/lore-auth-adapters/src/sqlite/issued_tokens.rs:21-35 | Revokes exactly the row of the token id, if there is one, and changes nothing else in any row |
| AuthnTokens.ApplyKeeps | crates/lore-auth-core/src/service/token.rs:50-225 | Every step of every caller keeps the agreement between signed tokens, log rows, pending calls and history |
| AuthnTokens.EveryRunKeepsInv | crates/lore-auth-core/src/service/token.rs:50-225 | That agreement holds in every state of every interleaving |
| AuthnTokens.AcceptsExactlyLiveTokens | crates/lore-auth-core/src/service/token.rs:77-112 | Over every run, verification accepts a token for a user exactly when minting signed and recorded it for that user, it is before its expiry, it was never revoked, and the user is active |
| AuthnTokens.SignatureCheckIsExact | crates/lore-auth-adapters/src/rs256.rs:729-743 | A presented token passes the first check exactly when it is signed, bears an id, is before its expiry, and matches the issuer and the audience where they are configured, whatever else the key has signed |
| AuthnTokens.AuthzTokensAreNeverAccepted | crates/lore-auth-core/src/service/token.rs:77-112 | An authz token is never accepted, whatever its audience |
| AuthnTokens.SplitVerificationIsAtomic | crates/lore-auth-core/src/service/token.rs:87-105 | Whatever happens between the signature check and the log lookup, the verdict is that of a verification at the lookup, and the subject is the account's own |
| AuthnTokens.RefusalIsFinal | crates/lore-auth-adapters/src/rs256.rs:729-743 | Once expired or revoked, a token is refused along every further run |
| AuthnTokens.RevocationRefuses | crates/lore-auth-adapters/src/sqlite/issued_tokens.rs:21-35 | Revoking a recorded token refuses it at once and along every further run |
| AuthnTokens.AuthzTokensAreChecked | crates/lore-auth-core/src/service/token.rs:114-199 | Every authz token ever signed names an account for which write access to each of its resources was checked |
| AuthnTokens.MintingNeedsAnAudience | crates/lore-auth-core/src/service/token.rs:227-235 | Minting can sign exactly when an issuer and some audience are configured, and what it signs passes the configured checks |
| AuthnTokens.CompactRoundTrip | crates/lore-auth-core/src/service/token.rs:77-86 | A signed text is found again, bare or behind "Bearer " |
| TokenAnswers.EveryAnswerIsEarned | crates/lore-auth-core/src/service/token.rs:50-225 | Over every run, what a caller is told goes back to its own call: a minted token to its user, active when asked, and the lifetime asked for or configured; a verified user to the token presented, alive at the lookup; an authz token to what was asked for, checked, signed and recorded |
| TokenAnswers.ExchangedTokensCarryWhatWasAsked | crates/lore-auth-core/src/service/token.rs:114-199 | Over every run, an authz token returned to a call names the user of the token that the call presented, or the user an operator named, and carries exactly one resource for each id asked for, in order, found under that id and writable for the user; manual minting asks for the one resource of the named repository |
| TokenAnswers.EveryMintedTokenWasAskedFor | crates/lore-auth-core/src/service/token.rs:50-75 | Every authn token was minted in some call for its user, whose account was active, for the lifetime asked for or configured |
| TokenAnswers.MintedTokensSay | crates/lore-auth-core/src/service/token.rs:50-75 | A minted token carries its user, the configured issuer and audience, no resource, and times rounded to seconds that end its lifetime, an hour if that is zero |
| TokenAnswers.UndisturbedExchange | crates/lore-auth-core/src/service/token.rs:114-165 | Undisturbed, an exchange succeeds exactly when the presented token is alive, some id is given, every id exists and is writable for the user, and the signer is configured; the token then carries the resource of every id, in order |
| TokenAnswers.UndisturbedManualMint | crates/lore-auth-core/src/service/token.rs:167-199 | Undisturbed, manual minting succeeds exactly for a writer role, an active account and a named repository whose resource exists and is writable, and carries exactly that resource |
| TokenAnswers.UndisturbedMint | crates/lore-auth-core/src/service/token.rs:50-75 | Undisturbed, minting succeeds exactly for an active account with an issuer and some audience configured |
| TokenAnswers.UndisturbedVerification | crates/lore-auth-core/src/service/token.rs:77-112 | Undisturbed, verification accepts exactly a live token, for its user |
| LoginBinding.AccountTables.ResolveLogin | crates/lore-auth-adapters/src/sqlite/accounts.rs:292-471 | The transaction is the specified resolution, and a login that fails leaves every table as it was |
| LoginBinding.AccountTables.TouchExisting | crates/lore-auth-adapters/src/sqlite/accounts.rs:321-345 | A known identity resolves to its active account, or rolls the time stamps back |
| LoginBinding.AccountTables.AcceptInvitation | crates/lore-auth-adapters/src/sqlite/accounts.rs:383-471 | Identity, invitation and account change together or not at all |
| LoginBinding.AccountTables.DisableUser | crates/lore-auth-adapters/src/sqlite/accounts.rs:266-277 | Changes the status of exactly the given account, unless it is deleted or missing, and nothing else |
| LoginBinding.AccountTables.EnableUser | crates/lore-auth-adapters/src/sqlite/accounts.rs:279-290 | The same, to active |
| LoginBinding.AfterLast | crates/lore-auth-adapters/src/sqlite/mod.rs:175-183 | The domain is what follows the last "@" |
| LoginBinding.DomainTestIsExact | crates/lore-auth-adapters/src/sqlite/mod.rs:163-183 | The test passes exactly without a list, or when what follows the last "@" is on it, letters of either case alike |
| LoginBinding.AddUserIsExact | crates/lore-auth-adapters/src/sqlite/accounts.rs:152-179 | An active account with the trimmed email is added exactly for an email with an at sign and no white space that no other account holds |
| LoginBinding.InvitationIsExact | crates/lore-auth-adapters/src/sqlite/accounts.rs:191-264 | A pending account and invitation are added exactly for a provider, an issuer and such an email that no account holds and no pending invitation of the provider names; what is written |
| LoginBinding.EveryRunKeepsInv | crates/lore-auth-adapters/src/sqlite/accounts.rs:152-471 | In every reachable state each triple has at most one identity, pending invitations and emails do not clash, and identities and accepted invitations correspond one to one with matching account, provider and email |
| LoginBinding.RunExtends | crates/lore-auth-adapters/src/sqlite/accounts.rs:292-471 | Along every run identities keep account and triple, and an invitation is accepted at most once, for good |
| LoginBinding.BoundLoginIsStable | crates/lore-auth-adapters/src/sqlite/accounts.rs:307-345 | Once bound, every later login of the triple resolves to the same account, whatever its email, policy or invitations, and succeeds exactly while the account is active |
| LoginBinding.LoginBindsItsTriple | crates/lore-auth-adapters/src/sqlite/accounts.rs:292-471 | A successful login leaves its triple bound to the account it returned |
| LoginBinding.UnboundLoginNeedsInvitation | crates/lore-auth-adapters/src/sqlite/accounts.rs:347-381 | An unbound triple is admitted exactly with a verified, nonblank email of an allowed domain, a pending, unexpired invitation for it at the provider, a policy of binding by verified email on both sides, and no other account holding the email |
| LoginBinding.LoginLeavesAccountActive | crates/lore-auth-adapters/src/sqlite/accounts.rs:292-471 | After a successful login the account it returned is active and was last seen now, and no other account has changed |
| LoginBinding.AcceptanceWritesTheAccount | crates/lore-auth-adapters/src/sqlite/accounts.rs:383-471 | Accepting an invitation writes the verified email, trimmed and normalized, and the given name, or else the invited email, to the invited account, the triple to a new identity, and the identity to the invitation |
| LoginBinding.ActiveUntilDisabled | crates/lore-auth-adapters/src/sqlite/accounts.rs:152-471 | Along every run an active account stays active until it is disabled |
| LoginBinding.LoginsSucceedUntilDisabled | crates/lore-auth-adapters/src/sqlite/accounts.rs:292-471 | After a successful login every later login of its triple succeeds for the same account and identity, whatever happens in between, until the account is disabled |
| LoginBinding.InvitedLoginBinds | crates/lore-auth-adapters/src/sqlite/accounts.rs:191-471 | After an invitation, a login that answers it binds to exactly the invited account |
| RateLimit.Limiter.Admit | crates/lore-auth-inbound/src/ratelimit.rs:42-71 | The update in place is the specified step |
| RateLimit.DisabledAdmitsEverything | crates/lore-auth-inbound/src/ratelimit.rs:42-45 | Without a limit or a window every request of every run is admitted |
| RateLimit.OpeningAWindowPrunes | crates/lore-auth-inbound/src/ratelimit.rs:42-71 | A request never touches another key's open window, and none whose window is over stays behind when it opens one |
| RateLimit.KeysAreIndependent | crates/lore-auth-inbound/src/ratelimit.rs:132-134 | The verdicts for a key are those of a limiter of its own that never prunes |
| RateLimit.FreshLimiterMatchesReference | crates/lore-auth-inbound/src/httpserver/middleware.rs:90-120 | A fresh limiter matches that reference on every key |
| RateLimit.IntervalBound | crates/lore-auth-inbound/src/ratelimit.rs:42-71 | The reference admits at most k + 1 limits in any interval of k windows |
| RateLimit.AnyIntervalIsBounded | crates/lore-auth-inbound/src/ratelimit.rs:42-71 | The limiter itself, with all keys and pruning, admits at most k + 1 limits per key in any interval of k windows |
| RateLimit.RefusedOnlyAtTheLimit | crates/lore-auth-inbound/src/ratelimit.rs:64-66 | From any buckets, a refusal lies in a window in which the key has used its whole limit |
| RateLimit.RefusalIsDeserved | crates/lore-auth-inbound/src/ratelimit.rs:64-66 | For a fresh limiter, a refusal comes only after limit admissions in the current window |
| Calendar.CivilFollowsTheCalendar | crates/lore-auth-inbound/src/admin/mod.rs:149-161 | Every day number gives a valid date, and the next number the next day |
| Calendar.EpochIsDayZero | crates/lore-auth-inbound/src/admin/mod.rs:149-161 | Day 0 is 1970-01-01 |
| Calendar.CivilInvertsDayNumber | crates/lore-auth-inbound/src/admin/mod.rs:149-161 | Counting the days to the computed date gives the day number back |
| Calendar.DayNumberInvertsCivil | crates/lore-auth-inbound/src/admin/mod.rs:149-161 | Every valid date is the date of its day count |
| Calendar.CivilIncreases | crates/lore-auth-inbound/src/admin/mod.rs:149-161 | Later day numbers give later dates |
| Calendar.NothingElseOverflows | crates/lore-auth-inbound/src/admin/mod.rs:149-161 | No intermediate value leaves i64 unless one of the first two sums does |
| Calendar.FormatUnixRoundTrip | crates/lore-auth-inbound/src/admin/mod.rs:135-147 | Reading a formatted timestamp back gives the seconds it was made from |
| LikeSearch.EscapeLike | crates/lore-auth-adapters/src/sqlite/mod.rs:214-223 | The loop puts a backslash before each special character and no other |
| LikeSearch.LikeIsContains | crates/lore-auth-adapters/src/sqlite/accounts.rs:502-524 | The pattern matches exactly the texts that contain the query, letters of either case alike |
| LikeSearch.SearchesAgree | crates/lore-auth-adapters/src/memory/accounts.rs:251-281 | The SQLite and the memory search find the same users for every query |
| HtmlEscape.ChainIsSinglePass | crates/lore-auth-inbound/src/httpserver/response.rs:13-20 | The five chained replacements equal one escape per character |
| HtmlEscape.DecodeRecovers | crates/lore-auth-inbound/src/httpserver/response.rs:13-20 | Decoding an escaped text gives the original |
| HtmlEscape.EscapingIsInjective | crates/lore-auth-inbound/src/httpserver/response.rs:13-20 | Distinct texts escape to distinct texts |
| HtmlEscape.EscapedIsInert | crates/lore-auth-inbound/src/httpserver/response.rs:13-20 | Escaped text has no markup or quote character, and every ampersand begins an entity |

## Left out

- Access.CanAccess: the depth limit is reported without saying at which limit the resolver library stops, because that library is not part of this model; unknown roles give one fixed error text in place of the role's name.
- MemoryAccess.MemoryAgreesExactly: compares stores that hold the same grants, so at most one role per subject and repository; stored ids must name their repositories, as unique canonical ids do. The memory listing and evidence are not modelled.
- Tuples.PushdownPreservesMeaning: assumes stored subject types user and group, which the add-grant path enforces, and canonical repository ids, which nothing enforces.
- GroupNesting.EveryRunIsSafe: group membership of users is not part of the state; it does not touch nesting.
- GroupTables.StoresStayInStep: assumes that generated group ids are fresh.
- DeviceFlow.EveryRunKeepsInv: signing and logging the authz token is part of the access step, since nothing in this flow reads it back; remote URLs and preview details are not carried. The memory store reads the clock twice while approving; the single reading of the SQLite statement is followed.
- AuthnTokens.AcceptsExactlyLiveTokens: a service without a token log (which then accepts nothing) and the memory signer, which ignores audience and revocation, are not modelled; group names and the identity provider claim are not carried; times do not overflow.
- AuthSessions.EveryTokenIsAccountedFor: the identity provider exchange before a login is a parameter: each identity resolves to a user, to nobody, or to an error, changing freely over time.
- LoginBinding.AccountTables.ResolveLogin: subject strategy, picture and hosted domain of an identity are not carried; accounts are disabled and enabled by id, without the lookup by email; constraint errors share one text.
- RateLimit.AnyIntervalIsBounded: stated for a nonzero limit and window, since otherwise the limiter admits everything (`RateLimit.DisabledAdmitsEverything`); the HTTP and the gRPC limiter are one algorithm and are modelled once.
- LikeSearch.SearchesAgree: result order and limit are not modelled, nor SQLite's limit on the length of a LIKE pattern, nor that SQLite stops reading a text at a NUL character.
- Browser sessions, CSRF tokens and login transactions: each is one conditional update, with the shape of consuming a sign-in session.
- Adding, listing and removing grants, resource rows, group membership, previews and user listing order: single-row operations.
- Audited wrappers: one log row appended in the same transaction.
- OIDC discovery and exchange, RSA, SHA-256, base64, JSON, PEM files: external or ideal here.
- HTTP and gRPC handlers, cookies, templates, admin pages, configuration, command line tools: wiring.
