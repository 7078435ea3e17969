/** Group nesting in the SQLite store: rows of `group_groups`, the recursive descendants
    query that guards every insertion, and agreement with the memory store. */
module GroupTables {
  import opened Text
  import opened CoreModel
  import opened Reach
  import opened GroupNesting
  import opened Tuples
  import opened GroupClosure

  type Rows = seq<NestRow>

  /** Edges from a parent group to its member groups. */
  function RowEdges(rows: Rows): Edges {
    set n | n in rows :: (n.groupId, n.memberGroupId)
  }

  /** The primary key. */
  ghost predicate DistinctRows(rows: Rows) {
    forall i, j :: 0 <= i < j < |rows| ==> rows[i] != rows[j]
  }

  // ---- the recursive query ------------------------------------------------------------------

  /** The members that the join adds for one descendant. */
  function JoinedMembers(rows: Rows, group: Id): (members: set<Id>)
    ensures forall m :: m in members <==> (group, m) in RowEdges(rows)
  {
    set n | n in rows && n.groupId == group :: n.memberGroupId
  }

  /** Evaluates `WITH RECURSIVE descendants` as SQL defines it: rows wait in a queue, and
      UNION admits a row only once. */
  method Descendants(rows: Rows, root: Id) returns (found: set<Id>)
    ensures found == Closure(RowEdges(rows), {root})
  {
    ghost var edges := RowEdges(rows);
    SeedsExpanding(edges, {root});
    hide Expanding, Targets, Closure, RowEdges;
    found := {root};
    var queue := found;
    ghost var missing := Targets(edges) - found;
    while queue != {}
      invariant Expanding(edges, {root}, found, queue)
      invariant missing == Targets(edges) - found
      decreases missing, queue
    {
      var g :| g in queue;
      var joined := JoinedMembers(rows, g);
      Expand(edges, {root}, found, queue, g, joined);
      var added := joined - found;
      found := found + added;
      queue := queue - {g} + added;
      if added == {} {
        assert queue + {g} > queue;
      }
      missing := missing - added;
    }
    ExhaustedIsClosure(edges, {root}, found);
  }

  /** `group_group_would_cycle_tx`: the verdict of the memory store's search. */
  method GroupGroupWouldCycleTx(rows: Rows, parent: Id, member: Id) returns (cycle: bool)
    ensures cycle <==> Reaches(RowEdges(rows), {member}, parent)
  {
    var descendants := Descendants(rows, member);
    InClosure(RowEdges(rows), {member}, parent);
    return parent in descendants;
  }

  // ---- what one administrative call does to the tables -----------------------------------------

  datatype Tables = Tables(groups: Groups, rows: Rows)

  const NAME_TAKEN := InvalidArgument("sqlite: UNIQUE constraint failed: groups.name")

  function InsertGroup(t: Tables, name: string, description: string, freshId: Id): (Tables, Result<Group>) {
    if Trim(name) == "" then (t, Err(EMPTY_NAME))
    else if Trim(name) in t.groups then (t, Err(NAME_TAKEN))
    else
      var group := Group(freshId, Trim(name), description);
      (t.(groups := t.groups[group.name := group]), Ok(group))
  }

  ghost function InsertNest(t: Tables, parent: string, member: string): (Tables, Result<()>) {
    match (ResolveGroupId(t.groups, parent), ResolveGroupId(t.groups, member))
    case (Some(p), Some(m)) =>
      if p == m then (t, Err(SELF_NEST))
      else if NestRow(p, m) in t.rows then (t, Ok(()))
      else if Reaches(RowEdges(t.rows), {m}, p) then (t, Err(CYCLE))
      else (t.(rows := t.rows + [NestRow(p, m)]), Ok(()))
    case _ => (t, Err(NotFound))
  }

  function WithoutRow(rows: Rows, row: NestRow): Rows {
    if rows == [] then []
    else if rows[0] == row then WithoutRow(rows[1..], row)
    else [rows[0]] + WithoutRow(rows[1..], row)
  }

  function DeleteNest(t: Tables, parent: string, member: string): (Tables, Result<()>) {
    match (ResolveGroupId(t.groups, parent), ResolveGroupId(t.groups, member))
    case (Some(p), Some(m)) =>
      if NestRow(p, m) in t.rows then (t.(rows := WithoutRow(t.rows, NestRow(p, m))), Ok(())) else (t, Err(NotFound))
    case _ => (t, Err(NotFound))
  }

  ghost function ApplySql(t: Tables, op: Op): Tables {
    match op
    case AddGroup(name, description, freshId) => InsertGroup(t, name, description, freshId).0
    case Nest(parent, member) => InsertNest(t, parent, member).0
    case Unnest(parent, member) => DeleteNest(t, parent, member).0
  }

  ghost function RunSql(t: Tables, ops: seq<Op>): Tables {
    if ops == [] then t else ApplySql(RunSql(t, ops[..|ops| - 1]), ops[|ops| - 1])
  }

  const EMPTY_TABLES := Tables(map[], [])

  // ---- what every call keeps --------------------------------------------------------------------

  ghost predicate SafeRows(rows: Rows) {
    Acyclic(RowEdges(rows)) && DistinctRows(rows)
  }

  lemma AppendedRow(rows: Rows, row: NestRow)
    ensures RowEdges(rows + [row]) == RowEdges(rows) + {(row.groupId, row.memberGroupId)}
  {
    assert forall n :: n in rows + [row] <==> n in rows || n == row;
  }

  lemma {:induction false} WithoutRowElements(rows: Rows, row: NestRow)
    ensures forall n :: n in WithoutRow(rows, row) <==> n in rows && n != row
    ensures DistinctRows(rows) ==> DistinctRows(WithoutRow(rows, row))
  {
    if rows != [] {
      WithoutRowElements(rows[1..], row);
      assert forall n :: n in rows <==> n == rows[0] || n in rows[1..];
      if DistinctRows(rows) && rows[0] != row {
        var rest := WithoutRow(rows[1..], row);
        forall j | 0 <= j < |rest| ensures rows[0] != rest[j] {
          assert rest[j] in rest;
        }
      }
    }
  }

  /** The transaction joins the two groups that are named exactly when the rows stay acyclic,
      and otherwise is rolled back. */
  lemma InsertIsExact(t: Tables, parent: string, member: string)
    requires SafeRows(t.rows)
    ensures
      var (after, r) := InsertNest(t, parent, member);
      && SafeRows(after.rows) && after.groups == t.groups
      && (!r.Ok? ==> after == t)
      && (r == Err(NotFound) || exists p, m :: NamesBoth(t.groups, parent, member, p, m))
      && forall p, m :: NamesBoth(t.groups, parent, member, p, m) ==>
           && r == NestingAnswer(RowEdges(t.rows), p, m)
           && (r.Ok? ==> RowEdges(after.rows) == RowEdges(t.rows) + {(p, m)})
  {
    ResolutionIsExact(t.groups, parent);
    ResolutionIsExact(t.groups, member);
    hide ResolveGroupId, Acyclic, Reaches, Names;
    match (ResolveGroupId(t.groups, parent), ResolveGroupId(t.groups, member))
    case (Some(p), Some(m)) =>
      var edges := RowEdges(t.rows);
      AddEdgeKeepsAcyclic(edges, p, m);
      AppendedRow(t.rows, NestRow(p, m));
      if p == m {
        SeedReaches(edges, {m}, p);
      } else if NestRow(p, m) in t.rows {
        assert (p, m) in edges;
        assert edges + {(p, m)} == edges;
      }
      assert NamesBoth(t.groups, parent, member, p, m);
    case _ =>
  }

  /** Deletion removes the edge between the two groups that are named, if there is one. */
  lemma DeletionIsExact(t: Tables, parent: string, member: string)
    requires SafeRows(t.rows)
    ensures
      var (after, r) := DeleteNest(t, parent, member);
      && SafeRows(after.rows) && after.groups == t.groups
      && (!r.Ok? ==> after == t && r == Err(NotFound))
      && (r.Ok? ==> exists p, m :: NamesBoth(t.groups, parent, member, p, m))
      && forall p, m :: NamesBoth(t.groups, parent, member, p, m) ==>
           && (r.Ok? <==> (p, m) in RowEdges(t.rows))
           && (r.Ok? ==> RowEdges(after.rows) == RowEdges(t.rows) - {(p, m)})
  {
    ResolutionIsExact(t.groups, parent);
    ResolutionIsExact(t.groups, member);
    hide ResolveGroupId, SafeRows, RowEdges, Names;
    match (ResolveGroupId(t.groups, parent), ResolveGroupId(t.groups, member))
    case (Some(p), Some(m)) =>
      assert NamesBoth(t.groups, parent, member, p, m);
      RowOfEdge(t.rows, (p, m));
      if NestRow(p, m) in t.rows { WithoutItsRow(t.rows, p, m); }
    case _ =>
  }

  lemma WithoutItsRow(rows: Rows, p: Id, m: Id)
    requires SafeRows(rows)
    ensures SafeRows(WithoutRow(rows, NestRow(p, m)))
    ensures RowEdges(WithoutRow(rows, NestRow(p, m))) == RowEdges(rows) - {(p, m)}
  {
    var row := NestRow(p, m);
    WithoutRowElements(rows, row);
    forall e ensures e in RowEdges(WithoutRow(rows, row)) <==> e in RowEdges(rows) - {(p, m)} {
      RowOfEdge(rows, e);
      RowOfEdge(WithoutRow(rows, row), e);
    }
    FewerEdgesStayAcyclic(RowEdges(rows) - {(p, m)}, RowEdges(rows));
  }

  lemma RowOfEdge(rows: Rows, e: (Id, Id))
    ensures e in RowEdges(rows) <==> NestRow(e.0, e.1) in rows
  {
    if e in RowEdges(rows) {
      var n :| n in rows && (n.groupId, n.memberGroupId) == e;
      assert n == NestRow(e.0, e.1);
    }
  }

  /** Over every run of the SQLite store the nesting is acyclic and no row is stored twice. */
  lemma {:induction false} EveryRunKeepsRowsSafe(ops: seq<Op>)
    ensures SafeRows(RunSql(EMPTY_TABLES, ops).rows)
  {
    if ops != [] {
      var before := RunSql(EMPTY_TABLES, ops[..|ops| - 1]);
      EveryRunKeepsRowsSafe(ops[..|ops| - 1]);
      match ops[|ops| - 1]
      case AddGroup(_, _, _) =>
      case Nest(p, m) => InsertIsExact(before, p, m);
      case Unnest(p, m) => DeletionIsExact(before, p, m);
    } else {
      EmptyIsSafe();
      assert RowEdges([]) == EdgesOf(map[]);
    }
  }

  ghost predicate RowsJoinGroups(t: Tables) {
    forall n :: n in t.rows ==> IsGroupId(t.groups, n.groupId) && IsGroupId(t.groups, n.memberGroupId)
  }

  /** Over every run of the SQLite store both ends of every row are stored groups. */
  lemma {:induction false} EveryRowJoinsGroups(ops: seq<Op>)
    ensures RowsJoinGroups(RunSql(EMPTY_TABLES, ops))
  {
    if ops != [] {
      var before, op := RunSql(EMPTY_TABLES, ops[..|ops| - 1]), ops[|ops| - 1];
      EveryRowJoinsGroups(ops[..|ops| - 1]);
      EveryRunKeepsRowsSafe(ops[..|ops| - 1]);
      NextStates(ops);
      hide RunSql;
      match op
      case AddGroup(name, description, freshId) => GroupsStay(before, name, description, freshId);
      case Nest(p, m) => NestKeepsEnds(before, p, m);
      case Unnest(p, m) => UnnestKeepsEnds(before, p, m);
    }
  }

  lemma GroupsStay(t: Tables, name: string, description: string, freshId: Id)
    ensures forall id :: IsGroupId(t.groups, id) ==> IsGroupId(InsertGroup(t, name, description, freshId).0.groups, id)
  {
    var after := InsertGroup(t, name, description, freshId).0.groups;
    forall id | IsGroupId(t.groups, id) ensures IsGroupId(after, id) {
      var n :| n in t.groups && t.groups[n].id == id;
      assert after[n] == t.groups[n];
    }
  }

  lemma NestKeepsEnds(t: Tables, parent: string, member: string)
    requires RowsJoinGroups(t)
    ensures RowsJoinGroups(InsertNest(t, parent, member).0)
  {
    ResolutionIsExact(t.groups, parent);
    ResolutionIsExact(t.groups, member);
    hide ResolveGroupId, Reaches;
  }

  lemma UnnestKeepsEnds(t: Tables, parent: string, member: string)
    requires RowsJoinGroups(t)
    ensures RowsJoinGroups(DeleteNest(t, parent, member).0)
  {
    match (ResolveGroupId(t.groups, parent), ResolveGroupId(t.groups, member))
    case (Some(p), Some(m)) => WithoutRowElements(t.rows, NestRow(p, m));
    case _ =>
  }

  // ---- the two stores agree -----------------------------------------------------------------------

  /** The same groups and the same edges. */
  ghost predicate Mirrors(s: State, t: Tables) {
    s.groups == t.groups && EdgesOf(s.nests) == RowEdges(t.rows)
  }

  /** Both stores answer a nesting call alike and stay in step. */
  lemma NestingMirrors(s: State, t: Tables, parent: string, member: string)
    requires Mirrors(s, t)
    ensures NestGroups(s, parent, member).1 == InsertNest(t, parent, member).1
    ensures Mirrors(NestGroups(s, parent, member).0, InsertNest(t, parent, member).0)
  {
    match (ResolveGroupId(s.groups, parent), ResolveGroupId(s.groups, member))
    case (Some(p), Some(m)) =>
      RowOfEdge(t.rows, (p, m));
      AppendedEdges(s.nests, p, m);
      AppendedRow(t.rows, NestRow(p, m));
    case _ =>
  }

  lemma UnnestingMirrors(s: State, t: Tables, parent: string, member: string)
    requires Mirrors(s, t) && Safe(s.nests) && SafeRows(t.rows)
    ensures UnnestGroups(s, parent, member).1 == DeleteNest(t, parent, member).1
    ensures Mirrors(UnnestGroups(s, parent, member).0, DeleteNest(t, parent, member).0)
  {
    UnnestingRemovesTheEdge(s, parent, member);
    DeletionIsExact(t, parent, member);
    match (ResolveGroupId(s.groups, parent), ResolveGroupId(s.groups, member))
    case (Some(p), Some(m)) => RowOfEdge(t.rows, (p, m));
    case _ =>
  }

  /** No group is added under a name already taken, where the memory store would replace it
      and SQLite refuses. */
  ghost predicate NamesAddedOnce(ops: seq<Op>) {
    if ops == [] then true
    else
      var op := ops[|ops| - 1];
      && NamesAddedOnce(ops[..|ops| - 1])
      && (op.AddGroup? ==> Trim(op.name) !in Run(EMPTY, ops[..|ops| - 1]).groups)
  }

  /** Over every run that adds no name twice, the stores stay in step. */
  lemma {:induction false} InStepWhileNamesAreNew(ops: seq<Op>)
    requires NamesAddedOnce(ops)
    ensures Mirrors(Run(EMPTY, ops), RunSql(EMPTY_TABLES, ops))
  {
    if ops != [] {
      var before := ops[..|ops| - 1];
      InStepWhileNamesAreNew(before);
      EveryRunIsSafe(before);
      EveryRunKeepsRowsSafe(before);
      match ops[|ops| - 1]
      case AddGroup(_, _, _) =>
      case Nest(p, m) => NestingMirrors(Run(EMPTY, before), RunSql(EMPTY_TABLES, before), p, m);
      case Unnest(p, m) => UnnestingMirrors(Run(EMPTY, before), RunSql(EMPTY_TABLES, before), p, m);
    } else {
      assert RowEdges([]) == EdgesOf(map[]);
    }
  }

  /** The generated ids are fresh. */
  ghost predicate DistinctIds(ops: seq<Op>) {
    forall i, j :: 0 <= i < j < |ops| && ops[i].AddGroup? && ops[j].AddGroup? ==> ops[i].freshId != ops[j].freshId
  }

  ghost predicate UsedId(ops: seq<Op>, id: Id) {
    exists i :: 0 <= i < |ops| && ops[i].AddGroup? && ops[i].freshId == id
  }

  lemma NestingKeepsGroups(s: State, t: Tables, parent: string, member: string)
    ensures NestGroups(s, parent, member).0.groups == s.groups == UnnestGroups(s, parent, member).0.groups
    ensures InsertNest(t, parent, member).0.groups == t.groups == DeleteNest(t, parent, member).0.groups
  {
  }

  /** Even where they part, both stores know the same names, and the tables hold no id that
      was not generated for some call. */
  lemma {:induction false} SameNames(ops: seq<Op>)
    ensures Run(EMPTY, ops).groups.Keys == RunSql(EMPTY_TABLES, ops).groups.Keys
    ensures "" !in Run(EMPTY, ops).groups
    ensures forall n :: n in RunSql(EMPTY_TABLES, ops).groups ==> UsedId(ops, RunSql(EMPTY_TABLES, ops).groups[n].id)
  {
    if ops != [] {
      var before := ops[..|ops| - 1];
      var op := ops[|ops| - 1];
      var s, t := Run(EMPTY, before), RunSql(EMPTY_TABLES, before);
      SameNames(before);
      hide Run, RunSql, NestGroups, UnnestGroups, InsertNest, DeleteNest;
      assert forall id :: UsedId(before, id) ==> UsedId(ops, id);
      match op
      case AddGroup(_, _, freshId) =>
        assert UsedId(ops, freshId);
        NextStates(ops);
      case Nest(p, m) =>
        NestingKeepsGroups(s, t, p, m);
        NextStates(ops);
      case Unnest(p, m) =>
        NestingKeepsGroups(s, t, p, m);
        NextStates(ops);
    }
  }

  lemma NextStates(ops: seq<Op>)
    requires ops != []
    ensures Run(EMPTY, ops) == Apply(Run(EMPTY, ops[..|ops| - 1]), ops[|ops| - 1])
    ensures RunSql(EMPTY_TABLES, ops) == ApplySql(RunSql(EMPTY_TABLES, ops[..|ops| - 1]), ops[|ops| - 1])
  {
  }

  ghost predicate IdsDiffer(s: State, t: Tables) {
    exists n :: n in s.groups && n in t.groups && s.groups[n].id != t.groups[n].id
  }

  lemma PartedStayParted(s: State, t: Tables, op: Op)
    requires s.groups.Keys == t.groups.Keys && "" !in s.groups
    requires op.AddGroup? ==> forall n :: n in t.groups ==> t.groups[n].id != op.freshId
    requires IdsDiffer(s, t) || (op.AddGroup? && Trim(op.name) in s.groups)
    ensures IdsDiffer(Apply(s, op), ApplySql(t, op))
  {
    match op
    case AddGroup(name, _, _) =>
      var after, afterSql := Apply(s, op), ApplySql(t, op);
      if Trim(name) in s.groups {
        assert after.groups[Trim(name)].id != afterSql.groups[Trim(name)].id;
      } else {
        var n :| n in s.groups && n in t.groups && s.groups[n].id != t.groups[n].id;
        assert after.groups[n].id != afterSql.groups[n].id;
      }
    case Nest(p, m) => NestingKeepsGroups(s, t, p, m);
    case Unnest(p, m) => NestingKeepsGroups(s, t, p, m);
  }

  /** Once a name is added again, the stores hold different ids under it for good. */
  lemma {:induction false} PartedForGood(ops: seq<Op>)
    requires DistinctIds(ops) && !NamesAddedOnce(ops)
    ensures IdsDiffer(Run(EMPTY, ops), RunSql(EMPTY_TABLES, ops))
  {
    var before := ops[..|ops| - 1];
    var s, t := Run(EMPTY, before), RunSql(EMPTY_TABLES, before);
    if !NamesAddedOnce(before) {
      PartedForGood(before);
    }
    SameNames(before);
    PartedStayParted(s, t, ops[|ops| - 1]);
  }

  /** Over every run the stores are in step exactly when no name was added twice, so that until
      then the next nesting call has one answer. */
  lemma StoresStayInStep(ops: seq<Op>)
    requires DistinctIds(ops)
    ensures Mirrors(Run(EMPTY, ops), RunSql(EMPTY_TABLES, ops)) <==> NamesAddedOnce(ops)
  {
    if NamesAddedOnce(ops) {
      InStepWhileNamesAreNew(ops);
    } else {
      PartedForGood(ops);
    }
  }

  /** Two calls part the stores: the second is refused by SQLite and replaces the group in memory. */
  lemma TakenNamesPartTheStores()
    ensures
      var ops := [AddGroup("a", "", "1"), AddGroup("a", "", "2")];
      && DistinctIds(ops)
      && Run(EMPTY, ops).groups == map["a" := Group("2", "a", "")]
      && RunSql(EMPTY_TABLES, ops).groups == map["a" := Group("1", "a", "")]
  {
    var ops := [AddGroup("a", "", "1"), AddGroup("a", "", "2")];
    assert TrimStart("a") == "a" == Trim("a");
    assert ops[..1] == [ops[0]] && ops[..1][..0] == [];
    assert Run(EMPTY, ops[..1]).groups == map["a" := Group("1", "a", "")];
    assert RunSql(EMPTY_TABLES, ops[..1]).groups == map["a" := Group("1", "a", "")];
  }

  // ---- the tables, updated in place -----------------------------------------------------------------

  class GroupTable {
    var groups: Groups
    var groupGroups: Rows

    ghost function Contents(): Tables
      reads this
    {
      Tables(groups, groupGroups)
    }

    ghost predicate Valid()
      reads this
    {
      SafeRows(groupGroups)
    }

    constructor ()
      ensures Valid() && Contents() == EMPTY_TABLES
    {
      groups, groupGroups := map[], [];
      new;
      EveryRunKeepsRowsSafe([]);
    }

    method AddGroup(name: string, description: string, freshId: Id) returns (r: Result<Group>)
      requires Valid()
      modifies this`groups
      ensures Valid()
      ensures (Contents(), r) == InsertGroup(old(Contents()), name, description, freshId)
    {
      var trimmed := Trim(name);
      if trimmed == "" {
        return Err(EMPTY_NAME);
      }
      if trimmed in groups {
        return Err(NAME_TAKEN);
      }
      var group := Group(freshId, trimmed, description);
      groups := groups[trimmed := group];
      return Ok(group);
    }

    /** The transaction: the query is evaluated over the rows, and errors roll back. */
    method AddGroupGroup(parent: string, member: string) returns (r: Result<()>)
      requires Valid()
      modifies this`groupGroups
      ensures Valid()
      ensures (Contents(), r) == InsertNest(old(Contents()), parent, member)
    {
      InsertIsExact(Contents(), parent, member);
      var p := ResolveGroupId(groups, parent);
      if p.None? {
        return Err(NotFound);
      }
      var m := ResolveGroupId(groups, member);
      if m.None? {
        return Err(NotFound);
      }
      if p == m {
        return Err(SELF_NEST);
      }
      if NestRow(p.value, m.value) in groupGroups {
        return Ok(());
      }
      var cycle := GroupGroupWouldCycleTx(groupGroups, p.value, m.value);
      if cycle {
        return Err(CYCLE);
      }
      groupGroups := groupGroups + [NestRow(p.value, m.value)];
      return Ok(());
    }

    method RemoveGroupGroup(parent: string, member: string) returns (r: Result<()>)
      requires Valid()
      modifies this`groupGroups
      ensures Valid()
      ensures (Contents(), r) == DeleteNest(old(Contents()), parent, member)
    {
      DeletionIsExact(Contents(), parent, member);
      var p := ResolveGroupId(groups, parent);
      if p.None? {
        return Err(NotFound);
      }
      var m := ResolveGroupId(groups, member);
      if m.None? {
        return Err(NotFound);
      }
      var row := NestRow(p.value, m.value);
      if row !in groupGroups {
        return Err(NotFound);
      }
      groupGroups := WithoutRow(groupGroups, row);
      return Ok(());
    }
  }
}
