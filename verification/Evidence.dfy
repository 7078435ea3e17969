/** The grant evidence shown for a decision: one row per grant that reaches the user,
    each with a path that explains it. */
module Evidence {
  import opened Text
  import opened CoreModel
  import opened Reach
  import opened Tuples
  import opened GroupClosure
  import opened GroupPaths
  import opened Access

  datatype GrantEvidence = GrantEvidence(subjectType: string, subjectId: Id, subjectName: string, role: string,
                                         path: string)

  /** Rows of the grants table on one repository whose subject is the user or one of
      these groups. */
  predicate OnRepository(g: GrantRow, repositoryId: Id, userId: Id, groups: set<Id>) {
    && g.repositoryId == repositoryId
    && ((g.subjectType == "user" && g.subjectId == userId) || (g.subjectType == "group" && g.subjectId in groups))
  }

  function GrantsReaching(rows: seq<GrantRow>, repositoryId: Id, userId: Id, groups: set<Id>): seq<GrantRow> {
    if rows == [] then []
    else if OnRepository(rows[0], repositoryId, userId, groups)
    then [rows[0]] + GrantsReaching(rows[1..], repositoryId, userId, groups)
    else GrantsReaching(rows[1..], repositoryId, userId, groups)
  }

  function GrantsOfGroup(rows: seq<GrantRow>, repositoryId: Id, group: Id): seq<GrantRow> {
    if rows == [] then []
    else if rows[0].repositoryId == repositoryId && rows[0].subjectType == "group" && rows[0].subjectId == group
    then [rows[0]] + GrantsOfGroup(rows[1..], repositoryId, group)
    else GrantsOfGroup(rows[1..], repositoryId, group)
  }

  lemma {:induction false} OneMoreGroup(rows: seq<GrantRow>, repositoryId: Id, userId: Id, groups: set<Id>, group: Id)
    requires group !in groups
    ensures multiset(GrantsReaching(rows, repositoryId, userId, groups + {group}))
         == multiset(GrantsReaching(rows, repositoryId, userId, groups))
            + multiset(GrantsOfGroup(rows, repositoryId, group))
  {
    if rows != [] {
      OneMoreGroup(rows[1..], repositoryId, userId, groups, group);
    }
  }

  lemma {:induction false} ReachingElements(rows: seq<GrantRow>, repositoryId: Id, userId: Id, groups: set<Id>,
                                            g: GrantRow)
    ensures g in GrantsReaching(rows, repositoryId, userId, groups)
       <==> g in rows && OnRepository(g, repositoryId, userId, groups)
  {
    if rows != [] {
      ReachingElements(rows[1..], repositoryId, userId, groups, g);
      assert g in rows <==> g == rows[0] || g in rows[1..];
    }
  }

  /** The grant row that an evidence row stands for. */
  function GrantOf(repositoryId: Id, e: GrantEvidence): GrantRow {
    GrantRow(e.subjectType, e.subjectId, repositoryId, e.role)
  }

  function GrantsOf(repositoryId: Id, rows: seq<GrantEvidence>): seq<GrantRow> {
    if rows == [] then [] else [GrantOf(repositoryId, rows[0])] + GrantsOf(repositoryId, rows[1..])
  }

  lemma {:induction false} GrantsOfElements(repositoryId: Id, rows: seq<GrantEvidence>, g: GrantRow)
    ensures g in GrantsOf(repositoryId, rows) <==> exists e :: e in rows && GrantOf(repositoryId, e) == g
  {
    if rows != [] {
      GrantsOfElements(repositoryId, rows[1..], g);
      assert forall e :: e in rows <==> e == rows[0] || e in rows[1..];
    }
  }

  lemma {:induction false} GrantsOfAppend(repositoryId: Id, rows: seq<GrantEvidence>, e: GrantEvidence)
    ensures GrantsOf(repositoryId, rows + [e]) == GrantsOf(repositoryId, rows) + [GrantOf(repositoryId, e)]
  {
    if rows != [] {
      GrantsOfAppend(repositoryId, rows[1..], e);
      assert (rows + [e])[1..] == rows[1..] + [e];
    }
  }

  lemma GrantsOfCons(repositoryId: Id, e: GrantEvidence, rows: seq<GrantEvidence>)
    ensures multiset(GrantsOf(repositoryId, [e] + rows))
         == multiset(GrantsOf(repositoryId, rows)) + multiset{GrantOf(repositoryId, e)}
  {
    assert ([e] + rows)[1..] == rows;
  }

  lemma {:induction false} GrantsOfInserted(repositoryId: Id, le: (GrantEvidence, GrantEvidence) -> bool,
                                            e: GrantEvidence, rows: seq<GrantEvidence>)
    ensures multiset(GrantsOf(repositoryId, InsertBy(le, e, rows)))
         == multiset(GrantsOf(repositoryId, rows)) + multiset{GrantOf(repositoryId, e)}
  {
    if rows == [] || le(e, rows[0]) {
      assert InsertBy(le, e, rows) == [e] + rows;
      GrantsOfCons(repositoryId, e, rows);
    } else {
      GrantsOfInserted(repositoryId, le, e, rows[1..]);
      KeepHead(repositoryId, rows[0], rows[1..], InsertBy(le, e, rows[1..]), GrantOf(repositoryId, e));
      assert rows == [rows[0]] + rows[1..];
    }
  }

  lemma KeepHead(repositoryId: Id, head: GrantEvidence, rest: seq<GrantEvidence>, longer: seq<GrantEvidence>,
                 g: GrantRow)
    requires multiset(GrantsOf(repositoryId, longer)) == multiset(GrantsOf(repositoryId, rest)) + multiset{g}
    ensures multiset(GrantsOf(repositoryId, [head] + longer))
         == multiset(GrantsOf(repositoryId, [head] + rest)) + multiset{g}
  {
    GrantsOfCons(repositoryId, head, rest);
    GrantsOfCons(repositoryId, head, longer);
  }

  lemma {:induction false} GrantsOfSorted(repositoryId: Id, le: (GrantEvidence, GrantEvidence) -> bool,
                                          rows: seq<GrantEvidence>)
    ensures multiset(GrantsOf(repositoryId, SortBy(le, rows))) == multiset(GrantsOf(repositoryId, rows))
  {
    if rows != [] {
      GrantsOfSorted(repositoryId, le, rows[1..]);
      GrantsOfInserted(repositoryId, le, rows[0], SortBy(le, rows[1..]));
      GrantsOfCons(repositoryId, rows[0], rows[1..]);
      assert [rows[0]] + rows[1..] == rows;
    }
  }

  // ---- the order of the rows ----------------------------------------------------------

  /** By path, then subject type, subject id and role. */
  predicate EvidenceLe(a: GrantEvidence, b: GrantEvidence) {
    if a.path != b.path then LexLe(a.path, b.path)
    else if a.subjectType != b.subjectType then LexLe(a.subjectType, b.subjectType)
    else if a.subjectId != b.subjectId then LexLe(a.subjectId, b.subjectId)
    else LexLe(a.role, b.role)
  }

  function SortKeys(e: GrantEvidence): seq<string> {
    [e.path, e.subjectType, e.subjectId, e.role]
  }

  /** The first key that differs decides. */
  ghost predicate KeysLe(a: seq<string>, b: seq<string>)
    requires |a| == |b|
  {
    forall i :: 0 <= i < |a| && a[i] != b[i] && a[..i] == b[..i] ==> LexLe(a[i], b[i])
  }

  lemma EvidenceOrderIsLexicographic(a: GrantEvidence, b: GrantEvidence)
    ensures EvidenceLe(a, b) <==> KeysLe(SortKeys(a), SortKeys(b))
  {
    hide LexLe;
    var k, l := SortKeys(a), SortKeys(b);
    assert k[..0] == l[..0];
    assert k[..1] == l[..1] <==> k[0] == l[0];
    assert k[..2] == l[..2] <==> k[0] == l[0] && k[1] == l[1];
    assert k[..3] == l[..3] <==> k[0] == l[0] && k[1] == l[1] && k[2] == l[2];
    LexReflexive(a.role);
  }

  lemma EvidenceOrder()
    ensures TotalPreorder(EvidenceLe)
  {
    forall a, b ensures EvidenceLe(a, b) || EvidenceLe(b, a) {
      LexTotal(a.path, b.path);
      LexTotal(a.subjectType, b.subjectType);
      LexTotal(a.subjectId, b.subjectId);
      LexTotal(a.role, b.role);
    }
    forall a, b, c | EvidenceLe(a, b) && EvidenceLe(b, c) ensures EvidenceLe(a, c) {
      EvidenceTransitive(a, b, c);
    }
  }

  lemma EvidenceTransitive(a: GrantEvidence, b: GrantEvidence, c: GrantEvidence)
    requires EvidenceLe(a, b) && EvidenceLe(b, c)
    ensures EvidenceLe(a, c)
  {
    LexTotal(a.path, b.path);
    LexTotal(a.subjectType, b.subjectType);
    LexTotal(a.subjectId, b.subjectId);
    if a.path != b.path && b.path != c.path {
      LexTransitive(a.path, b.path, c.path);
    } else if a.path == b.path == c.path {
      if a.subjectType != b.subjectType && b.subjectType != c.subjectType {
        LexTransitive(a.subjectType, b.subjectType, c.subjectType);
      } else if a.subjectType == b.subjectType == c.subjectType {
        if a.subjectId != b.subjectId && b.subjectId != c.subjectId {
          LexTransitive(a.subjectId, b.subjectId, c.subjectId);
        } else if a.subjectId == b.subjectId == c.subjectId {
          LexTransitive(a.role, b.role, c.role);
        }
      }
    }
  }

  // ---- grant_evidence_conn ----------------------------------------------------------------

  /** A row carries the label of its subject, and its path text names the grant directly or
      through a shortest chain of groups. */
  ghost predicate RowExplains(db: Db, labels: Labels, userId: Id, userLabel: string, e: GrantEvidence) {
    if e.subjectType == "user" then
      e.subjectName == userLabel && e.path == "user:" + userLabel + " -> grant"
    else
      && e.subjectName == (if e.subjectId in labels then labels[e.subjectId] else e.subjectId)
      && exists p :: Explains(NestEdges(db), DirectRows(db, userId), labels, e.subjectId, p)
                  && e.path == "user:" + userLabel + " -> " + p + " -> grant"
  }

  ghost predicate IsEvidence(db: Db, labels: Labels, userId: Id, userLabel: string, repositoryId: Id, groups: set<Id>,
                             rows: seq<GrantEvidence>)
  {
    && multiset(GrantsOf(repositoryId, rows)) == multiset(GrantsReaching(db.grants, repositoryId, userId, groups))
    && forall e :: e in rows ==> RowExplains(db, labels, userId, userLabel, e)
  }

  /** The rows so far, extended by the next one. */
  lemma OneMoreGrant(rows: seq<GrantRow>, i: nat, repositoryId: Id, userId: Id)
    requires i < |rows|
    ensures GrantsReaching(rows[..i + 1], repositoryId, userId, {})
         == GrantsReaching(rows[..i], repositoryId, userId, {}) + GrantsReaching([rows[i]], repositoryId, userId, {})
  {
    hide GrantsReaching;
    assert rows[..i + 1] == rows[..i] + [rows[i]];
    ReachingConcat(rows[..i], [rows[i]], repositoryId, userId, {});
  }

  lemma ReachingOne(g: GrantRow, repositoryId: Id, userId: Id)
    ensures GrantsReaching([g], repositoryId, userId, {})
         == if g.repositoryId == repositoryId && g.subjectType == "user" && g.subjectId == userId then [g] else []
  {
  }

  /** The rows for the first grants. */
  ghost predicate DirectSoFar(db: Db, labels: Labels, userId: Id, userLabel: string, repositoryId: Id, i: nat,
                              out: seq<GrantEvidence>)
    requires i <= |db.grants|
  {
    && multiset(GrantsOf(repositoryId, out)) == multiset(GrantsReaching(db.grants[..i], repositoryId, userId, {}))
    && forall e :: e in out ==> RowExplains(db, labels, userId, userLabel, e)
  }

  lemma NextDirect(db: Db, labels: Labels, userId: Id, userLabel: string, repositoryId: Id, i: nat,
                   out: seq<GrantEvidence>, e: GrantEvidence)
    requires i < |db.grants| && DirectSoFar(db, labels, userId, userLabel, repositoryId, i, out)
    requires GrantOf(repositoryId, e) == db.grants[i].(repositoryId := repositoryId)
    requires e.subjectType == "user" ==> RowExplains(db, labels, userId, userLabel, e)
    ensures
      var g := db.grants[i];
      var direct := g.repositoryId == repositoryId && g.subjectType == "user" && g.subjectId == userId;
      DirectSoFar(db, labels, userId, userLabel, repositoryId, i + 1, if direct then out + [e] else out)
  {
    hide RowExplains, GrantsReaching, GrantsOf;
    OneMoreGrant(db.grants, i, repositoryId, userId);
    ReachingOne(db.grants[i], repositoryId, userId);
    GrantsOfAppend(repositoryId, out, e);
  }

  method DirectEvidence(db: Db, labels: Labels, userId: Id, userLabel: string, repositoryId: Id)
      returns (out: seq<GrantEvidence>)
    ensures IsEvidence(db, labels, userId, userLabel, repositoryId, {}, out)
  {
    out := [];
    for i := 0 to |db.grants|
      invariant DirectSoFar(db, labels, userId, userLabel, repositoryId, i, out)
    {
      hide DirectSoFar, Explains;
      var g := db.grants[i];
      var e := GrantEvidence(g.subjectType, g.subjectId, userLabel, g.role, "user:" + userLabel + " -> grant");
      NextDirect(db, labels, userId, userLabel, repositoryId, i, out, e);
      if g.repositoryId == repositoryId && g.subjectType == "user" && g.subjectId == userId {
        out := out + [e];
      }
    }
    assert db.grants[..|db.grants|] == db.grants;
  }

  lemma {:induction false} ReachingConcat(a: seq<GrantRow>, b: seq<GrantRow>, repositoryId: Id, userId: Id,
                                          groups: set<Id>)
    ensures GrantsReaching(a + b, repositoryId, userId, groups)
         == GrantsReaching(a, repositoryId, userId, groups) + GrantsReaching(b, repositoryId, userId, groups)
  {
    if a == [] {
      assert a + b == b;
    } else {
      assert (a + b)[1..] == a[1..] + b;
      ReachingConcat(a[1..], b, repositoryId, userId, groups);
    }
  }

  /** The evidence for the grants of one group. */
  method RowsOfGroup(db: Db, labels: Labels, userId: Id, userLabel: string, repositoryId: Id, group: Id, path: string)
      returns (out: seq<GrantEvidence>)
    requires Explains(NestEdges(db), DirectRows(db, userId), labels, group, path)
    ensures GrantsOf(repositoryId, out) == GrantsOfGroup(db.grants, repositoryId, group)
    ensures forall e :: e in out ==> RowExplains(db, labels, userId, userLabel, e)
  {
    hide Explains;
    out := [];
    var grants := GrantsOfGroup(db.grants, repositoryId, group);
    GroupGrants(db.grants, repositoryId, group);
    for i := 0 to |grants|
      invariant GrantsOf(repositoryId, out) == grants[..i]
      invariant forall e :: e in out ==> RowExplains(db, labels, userId, userLabel, e)
    {
      var g := grants[i];
      assert g in grants;
      var e := GrantEvidence(g.subjectType, g.subjectId, Label(labels, g.subjectId), g.role,
                             "user:" + userLabel + " -> " + path + " -> grant");
      GrantsOfAppend(repositoryId, out, e);
      out := out + [e];
    }
  }

  lemma {:induction false} GrantsOfConcat(repositoryId: Id, a: seq<GrantEvidence>, b: seq<GrantEvidence>)
    ensures GrantsOf(repositoryId, a + b) == GrantsOf(repositoryId, a) + GrantsOf(repositoryId, b)
  {
    if a == [] {
      assert a + b == b;
    } else {
      assert (a + b)[1..] == a[1..] + b;
      GrantsOfConcat(repositoryId, a[1..], b);
    }
  }

  lemma AppendGroup(db: Db, labels: Labels, userId: Id, userLabel: string, repositoryId: Id, groups: set<Id>, group: Id,
                    rows: seq<GrantEvidence>, more: seq<GrantEvidence>)
    requires IsEvidence(db, labels, userId, userLabel, repositoryId, groups, rows) && group !in groups
    requires GrantsOf(repositoryId, more) == GrantsOfGroup(db.grants, repositoryId, group)
    requires forall e :: e in more ==> RowExplains(db, labels, userId, userLabel, e)
    ensures IsEvidence(db, labels, userId, userLabel, repositoryId, groups + {group}, rows + more)
  {
    OneMoreGroup(db.grants, repositoryId, userId, groups, group);
    GrantsOfConcat(repositoryId, rows, more);
  }

  lemma {:induction false} GroupGrants(rows: seq<GrantRow>, repositoryId: Id, group: Id)
    ensures forall g :: g in GrantsOfGroup(rows, repositoryId, group) ==>
              g.repositoryId == repositoryId && g.subjectType == "group" && g.subjectId == group
  {
    if rows != [] {
      GroupGrants(rows[1..], repositoryId, group);
    }
  }

  predicate IsRepositoryOf(db: Db, resourceId: string, id: Id) {
    ActiveRepository(db, id) && db.repositories[id].loreId == RepositoryIdFromResourceId(Trim(resourceId))
  }

  const EMPTY_RESOURCE := InvalidArgument("resource_id must not be empty")

  /** For an active repository and a user that is not deleted (whose label is given):
      one row per grant that reaches the user, explained and in order. */
  method EvidenceFor(db: Db, labels: Labels, userId: Id, userLabel: Option<string>, resourceId: string)
      returns (r: Result<seq<GrantEvidence>>)
    ensures r.Ok? <==> userLabel.Some? && RepositoryIdFromResourceId(Trim(resourceId)) != ""
                       && exists id :: IsRepositoryOf(db, resourceId, id)
    ensures r.Err? ==>
          r.error == if RepositoryIdFromResourceId(Trim(resourceId)) == "" then EMPTY_RESOURCE else NotFound
    ensures r.Ok? ==> Ordered(EvidenceLe, r.value)
    ensures r.Ok? ==>
      exists id :: IsRepositoryOf(db, resourceId, id)
                && IsEvidence(db, labels, userId, userLabel.value, id, DbUserGroups(db, userId), r.value)
  {
    if RepositoryIdFromResourceId(Trim(resourceId)) == "" {
      return Err(EMPTY_RESOURCE);
    }
    if !(exists id :: id in db.repositories && IsRepositoryOf(db, resourceId, id)) {
      return Err(NotFound);
    }
    if userLabel.None? {
      return Err(NotFound);
    }
    var repositoryId :| repositoryId in db.repositories && IsRepositoryOf(db, resourceId, repositoryId);
    var out := DirectEvidence(db, labels, userId, userLabel.value, repositoryId);
    var groups := RecursiveUserGroups(db, userId);
    var paths := GroupPathsConn(db, labels, userId, groups);
    var rest := groups;
    assert groups - rest == {};
    while rest != {}
      invariant rest <= groups
      invariant IsEvidence(db, labels, userId, userLabel.value, repositoryId, groups - rest, out)
    {
      var group :| group in rest;
      var more := RowsOfGroup(db, labels, userId, userLabel.value, repositoryId, group, paths[group]);
      AppendGroup(db, labels, userId, userLabel.value, repositoryId, groups - rest, group, out, more);
      out := out + more;
      assert groups - (rest - {group}) == groups - rest + {group};
      rest := rest - {group};
    }
    assert groups - rest == groups;
    EvidenceOrder();
    GrantsOfSorted(repositoryId, EvidenceLe, out);
    SortByOrdered(EvidenceLe, out);
    var sorted := SortBy(EvidenceLe, out);
    forall e | e in sorted ensures RowExplains(db, labels, userId, userLabel.value, e) {
      SortByKeepsElements(EvidenceLe, out, e);
    }
    assert IsEvidence(db, labels, userId, userLabel.value, repositoryId, groups, sorted);
    return Ok(sorted);
  }

  // ---- the evidence and the decision ----------------------------------------------------------

  /** The roles the user holds on a repository are the roles of its evidence rows. */
  lemma RolesAreRows(db: Db, labels: Labels, userId: Id, userLabel: string, repositoryId: Id, rows: seq<GrantEvidence>,
                     role: string)
    requires UniqueLoreIds(db) && ActiveRepository(db, repositoryId)
    requires IsEvidence(db, labels, userId, userLabel, repositoryId, DbUserGroups(db, userId), rows)
    ensures HasRole(db, userId, db.repositories[repositoryId].loreId, role) <==> exists e :: e in rows && e.role == role
  {
    hide RowExplains, DbUserGroups, GrantsReaching, GrantsOf;
    var loreId := db.repositories[repositoryId].loreId;
    var groups := DbUserGroups(db, userId);
    var reaching := GrantsReaching(db.grants, repositoryId, userId, groups);
    if HasRole(db, userId, loreId, role) {
      var g :| g in db.grants && IsOn(db, g, loreId) && Applies(db, userId, g) && g.role == role;
      assert g.repositoryId == repositoryId;
      ReachingElements(db.grants, repositoryId, userId, groups, g);
      assert g in multiset(reaching);
      assert g in multiset(GrantsOf(repositoryId, rows));
      GrantsOfElements(repositoryId, rows, g);
    }
    if e :| e in rows && e.role == role {
      var g := GrantOf(repositoryId, e);
      GrantsOfElements(repositoryId, rows, g);
      assert g in multiset(GrantsOf(repositoryId, rows));
      assert g in multiset(reaching);
      ReachingElements(db.grants, repositoryId, userId, groups, g);
      assert IsOn(db, g, loreId) && Applies(db, userId, g);
    }
  }

  ghost predicate SomeRowDecides(rows: seq<GrantEvidence>, action: string) {
    exists e :: e in rows && Decides(e.role, action)
  }

  /** No row with an unknown role sorts before every row that decides. */
  ghost predicate UnknownRowsLast(rows: seq<GrantEvidence>, action: string) {
    forall u :: u in rows && !IsKnownRole(u.role) ==>
      exists d :: d in rows && Decides(d.role, action) && !LexLt(u.role, d.role)
  }

  /** What the decision looks at, read off the evidence. */
  lemma DecisionFromRows(db: Db, labels: Labels, userId: Id, userLabel: string, repositoryId: Id,
                         rows: seq<GrantEvidence>, action: string)
    requires UniqueLoreIds(db) && ActiveRepository(db, repositoryId)
    requires IsEvidence(db, labels, userId, userLabel, repositoryId, DbUserGroups(db, userId), rows)
    ensures Decided(db, userId, db.repositories[repositoryId].loreId, action) <==> SomeRowDecides(rows, action)
    ensures UnknownRoleFirst(db, userId, db.repositories[repositoryId].loreId, action)
         <==> !UnknownRowsLast(rows, action)
  {
    var loreId := db.repositories[repositoryId].loreId;
    forall role ensures HasRole(db, userId, loreId, role) <==> exists e :: e in rows && e.role == role {
      RolesAreRows(db, labels, userId, userLabel, repositoryId, rows, role);
    }
    hide HasRole, IsEvidence, Decides, IsKnownRole, LexLt;
  }

  /** The evidence shows a deciding row exactly when `can_access` allows, but for two cases: a
      row with an unknown role that sorts before every deciding one makes `can_access` fail, and
      an id given without its prefix is looked up but never allowed. */
  lemma EvidenceMatchesExactly(db: Db, labels: Labels, userId: Id, userLabel: string, resourceId: string,
                               action: string, repositoryId: Id, rows: seq<GrantEvidence>)
    requires UniqueLoreIds(db) && IsRepositoryOf(db, resourceId, repositoryId) && Trim(resourceId) == resourceId
    requires IsEvidence(db, labels, userId, userLabel, repositoryId, DbUserGroups(db, userId), rows)
    ensures Decision(db, userId, resourceId, action) == Ok(SomeRowDecides(rows, action))
       <==> && UnknownRowsLast(rows, action)
            && (resourceId == ResourceIdOf(RepositoryIdFromResourceId(resourceId)) || !SomeRowDecides(rows, action))
  {
    DecisionFromRows(db, labels, userId, userLabel, repositoryId, rows, action);
    hide IsEvidence, UnknownRoleFirst, UnknownRowsLast, Decided, SomeRowDecides, ResourceIdOf;
  }

  /** With known roles and a full id, evidence explains the decision. */
  lemma EvidenceExplainsDecision(db: Db, labels: Labels, userId: Id, userLabel: string, resourceId: string,
                                 action: string, repositoryId: Id, rows: seq<GrantEvidence>)
    requires UniqueLoreIds(db) && IsRepositoryOf(db, resourceId, repositoryId)
    requires Trim(resourceId) == resourceId == ResourceIdOf(RepositoryIdFromResourceId(resourceId))
    requires IsEvidence(db, labels, userId, userLabel, repositoryId, DbUserGroups(db, userId), rows)
    requires forall e :: e in rows ==> IsKnownRole(e.role)
    ensures Decision(db, userId, resourceId, action) == Ok(exists e :: e in rows && Decides(e.role, action))
  {
    EvidenceMatchesExactly(db, labels, userId, userLabel, resourceId, action, repositoryId, rows);
  }

  const READER_ON_X := Db(map["r" := Repository("x", "x", "active")], [GrantRow("user", "u", "r", "reader")], [], [])
  const READER_ROW := GrantEvidence("user", "u", "u", "reader", "user:u -> grant")

  lemma ReaderRowIsEvidence(labels: Labels)
    ensures IsEvidence(READER_ON_X, labels, "u", "u", "r", DbUserGroups(READER_ON_X, "u"), [READER_ROW])
  {
    hide DbUserGroups;
    var groups := DbUserGroups(READER_ON_X, "u");
    assert READER_ON_X.grants[1..] == [] && [READER_ROW][1..] == [];
    assert GrantsReaching(READER_ON_X.grants, "r", "u", groups) == READER_ON_X.grants;
    assert GrantsOf("r", [READER_ROW]) == READER_ON_X.grants;
  }

  lemma UnprefixedX()
    ensures RepositoryIdFromResourceId("x") == Trim("x") == "x" != ResourceIdOf("x")
  {
    assert ResourceIdOf("x") == URC + "x";
    assert TrimStart("x") == "x";
  }

  /** The second case: evidence of a reader, asked for without the prefix, and no access. */
  lemma UnprefixedIdsAreExplainedButDenied(labels: Labels)
    ensures UniqueLoreIds(READER_ON_X) && IsRepositoryOf(READER_ON_X, "x", "r") && Trim("x") == "x"
    ensures IsEvidence(READER_ON_X, labels, "u", "u", "r", DbUserGroups(READER_ON_X, "u"), [READER_ROW])
    ensures SomeRowDecides([READER_ROW], "read") && Decision(READER_ON_X, "u", "x", "read") == Ok(false)
  {
    UnprefixedX();
    ReaderRowIsEvidence(labels);
    hide IsEvidence, DbUserGroups, Trim, RepositoryIdFromResourceId, ResourceIdOf;
    DecisionFromRows(READER_ON_X, labels, "u", "u", "r", [READER_ROW], "read");
    hide UnknownRoleFirst, Decided;
    assert Decides(READER_ROW.role, "read");
  }

  // ---- ids with white space around them ---------------------------------------------------------

  /** The evidence trims its resource id and `can_access` does not: as long as stored ids are
      trimmed, the decision on any other spelling is that there is no such repository. */
  lemma UntrimmedIdsAreNotFound(db: Db, userId: Id, resourceId: string, action: string)
    requires forall id :: id in db.repositories ==> Trim(db.repositories[id].loreId) == db.repositories[id].loreId
    requires Trim(resourceId) != resourceId
    ensures Decision(db, userId, resourceId, action) == Err(NotFound)
  {
    var loreId := RepositoryIdFromResourceId(resourceId);
    TrimmedExactly(resourceId);
    TrimmedExactly(loreId);
    hide Trim;
    if HasPrefix(resourceId, URC) {
      assert resourceId[0] == URC[0] && resourceId[3] == URC[3];
    }
    assert Trim(loreId) != loreId;
  }
}
