/** The relation check of the ReBAC engine, bounded in depth, over an immutable
    list of tuples; and why the per-user snapshot may stand in for all tuples. */
module Resolver {
  import opened Text
  import opened Reach
  import opened Tuples

  datatype Answer = Allowed | Denied | TooDeep

  function ObjectFilter(objectType: string, objectId: string, relation: string): TupleFilter {
    TupleFilter(Some(objectType), Some(objectId), Some(relation), None, None)
  }

  /** Is the user in this relation to the object? Reads the tuples of the object and
      relation, takes the first branch that does not deny, and gives up at depth 0. */
  function Check(ts: seq<Tuple>, user: string, objectType: string, objectId: string, relation: string,
                 fuel: nat): Answer
    decreases fuel, 1, 0
  {
    if fuel == 0 then TooDeep
    else Scan(ts, user, FilteredTuples(ts, ObjectFilter(objectType, objectId, relation)), fuel)
  }

  function Scan(ts: seq<Tuple>, user: string, rows: seq<Tuple>, fuel: nat): Answer
    requires fuel > 0
    decreases fuel, 0, |rows|
  {
    if rows == [] then Denied
    else match Branch(ts, user, rows[0], fuel)
      case Denied => Scan(ts, user, rows[1..], fuel)
      case answer => answer
  }

  function Branch(ts: seq<Tuple>, user: string, row: Tuple, fuel: nat): Answer
    requires fuel > 0
    decreases fuel, 0, 0
  {
    if row.subjectType == "user" && row.subjectId == user then Allowed
    else match UsersetGroup(row)
      case Some(group) => Check(ts, user, "group", group, "member", fuel - 1)
      case None => Denied
  }

  // ---- what the check means --------------------------------------------------------

  /** A tuple that includes the user, directly or through a group. */
  ghost predicate Includes(ts: seq<Tuple>, user: string, row: Tuple) {
    || (row.subjectType == "user" && row.subjectId == user)
    || (UsersetGroup(row).Some? && UsersetGroup(row).value in UserGroups(ts, user))
  }

  predicate IsAbout(row: Tuple, objectType: string, objectId: string, relation: string) {
    row.objectType == objectType && row.objectId == objectId && row.relation == relation
  }

  ghost predicate Related(ts: seq<Tuple>, user: string, objectType: string, objectId: string, relation: string) {
    exists row :: row in ts && IsAbout(row, objectType, objectId, relation) && Includes(ts, user, row)
  }

  lemma RowsOf(ts: seq<Tuple>, objectType: string, objectId: string, relation: string)
    ensures forall row :: row in FilteredTuples(ts, ObjectFilter(objectType, objectId, relation))
                     <==> row in ts && IsAbout(row, objectType, objectId, relation)
  {
    var f := ObjectFilter(objectType, objectId, relation);
    forall row ensures row in FilteredTuples(ts, f) <==> row in ts && IsAbout(row, objectType, objectId, relation) {
      FilteredElements(ts, f, row);
    }
  }

  /** For groups, being related is being reachable. */
  lemma RelatedGroups(ts: seq<Tuple>, user: string, group: Id)
    ensures Related(ts, user, "group", group, "member") <==> group in UserGroups(ts, user)
  {
    if Related(ts, user, "group", group, "member") { RelatedGroupIsReached(ts, user, group); }
    if group in UserGroups(ts, user) { ReachedGroupIsRelated(ts, user, group); }
  }

  lemma RelatedGroupIsReached(ts: seq<Tuple>, user: string, group: Id)
    requires Related(ts, user, "group", group, "member")
    ensures group in UserGroups(ts, user)
  {
    var edges, seeds := UpEdges(ts), DirectGroups(ts, user);
    ClosureIsClosed(edges, seeds);
    var row :| row in ts && IsAbout(row, "group", group, "member") && Includes(ts, user, row);
    if IsDirectMember(row, user) {
      assert group in seeds;
    } else {
      assert (UsersetGroup(row).value, group) in edges;
    }
  }

  lemma ReachedGroupIsRelated(ts: seq<Tuple>, user: string, group: Id)
    requires group in UserGroups(ts, user)
    ensures Related(ts, user, "group", group, "member")
  {
    var edges, seeds := UpEdges(ts), DirectGroups(ts, user);
    var p :| ChainTo(edges, seeds, group, p);
    if |p| == 1 {
      var row :| row in ts && IsDirectMember(row, user) && row.objectId == group;
      assert IsAbout(row, "group", group, "member") && Includes(ts, user, row);
    } else {
      var from := p[|p| - 2];
      assert (from, group) in edges;
      SubChain(edges, p, 0, |p| - 1);
      assert ChainTo(edges, seeds, from, p[0..|p| - 1]);
      InClosure(edges, seeds, from);
      var row :| row in ts && IsMemberTuple(row) && UsersetGroup(row) == Some(from) && row.objectId == group;
      assert IsAbout(row, "group", group, "member") && Includes(ts, user, row);
    }
  }

  lemma {:induction false} ScanMeaning(ts: seq<Tuple>, user: string, rows: seq<Tuple>, fuel: nat)
    requires fuel > 0
    ensures Scan(ts, user, rows, fuel) == Allowed ==> exists row :: row in rows && Includes(ts, user, row)
    ensures Scan(ts, user, rows, fuel) == Denied ==> forall row :: row in rows ==> !Includes(ts, user, row)
    decreases fuel, 0, |rows|
  {
    if rows != [] {
      BranchMeaning(ts, user, rows[0], fuel);
      ScanMeaning(ts, user, rows[1..], fuel);
      if Branch(ts, user, rows[0], fuel) == Allowed {
        assert rows[0] in rows && Includes(ts, user, rows[0]);
      }
      assert forall row :: row in rows <==> row == rows[0] || row in rows[1..];
    }
  }

  lemma {:induction false} BranchMeaning(ts: seq<Tuple>, user: string, row: Tuple, fuel: nat)
    requires fuel > 0
    ensures Branch(ts, user, row, fuel) == Allowed ==> Includes(ts, user, row)
    ensures Branch(ts, user, row, fuel) == Denied ==> !Includes(ts, user, row)
    decreases fuel, 0, 0
  {
    if !(row.subjectType == "user" && row.subjectId == user) && UsersetGroup(row).Some? {
      var group := UsersetGroup(row).value;
      CheckMeaning(ts, user, "group", group, "member", fuel - 1);
      RelatedGroups(ts, user, group);
    }
  }

  /** Whatever the tuples (cycles included) and the depth limit: a check that
      answers at all answers reachability. */
  lemma {:induction false} CheckMeaning(ts: seq<Tuple>, user: string, objectType: string, objectId: string,
                                        relation: string, fuel: nat)
    ensures Check(ts, user, objectType, objectId, relation, fuel) == Allowed ==>
          Related(ts, user, objectType, objectId, relation)
    ensures Check(ts, user, objectType, objectId, relation, fuel) == Denied ==>
          !Related(ts, user, objectType, objectId, relation)
    decreases fuel, 1, 0
  {
    if fuel > 0 {
      var rows := FilteredTuples(ts, ObjectFilter(objectType, objectId, relation));
      RowsOf(ts, objectType, objectId, relation);
      ScanMeaning(ts, user, rows, fuel);
      if Scan(ts, user, rows, fuel) == Allowed {
        var row :| row in rows && Includes(ts, user, row);
        assert IsAbout(row, objectType, objectId, relation);
      }
    }
  }

  // ---- when the depth limit is not reached ---------------------------------------

  /** Edges from a group down to the groups it contains. */
  function DownEdges(ts: seq<Tuple>): Edges {
    Reversed(UpEdges(ts))
  }

  lemma {:induction false} TooDeepGroup(ts: seq<Tuple>, user: string, group: Id, fuel: nat) returns (p: seq<Id>)
    requires Check(ts, user, "group", group, "member", fuel) == TooDeep
    ensures Chain(DownEdges(ts), p) && p[0] == group && |p| == fuel + 1
    decreases fuel, 1, 0
  {
    if fuel == 0 {
      p := [group];
    } else {
      var rows := FilteredTuples(ts, ObjectFilter("group", group, "member"));
      RowsOf(ts, "group", group, "member");
      var row, rest := TooDeepScan(ts, user, rows, fuel);
      assert (UsersetGroup(row).value, group) in UpEdges(ts);
      assert (group, rest[0]) in DownEdges(ts);
      p := [group] + rest;
      assert Chain(DownEdges(ts), p) by {
        forall i | 0 <= i < |p| - 1 ensures (p[i], p[i + 1]) in DownEdges(ts) {
          if i > 0 { assert (rest[i - 1], rest[i]) in DownEdges(ts); }
        }
      }
    }
  }

  lemma {:induction false} TooDeepScan(ts: seq<Tuple>, user: string, rows: seq<Tuple>, fuel: nat)
      returns (row: Tuple, p: seq<Id>)
    requires fuel > 0 && Scan(ts, user, rows, fuel) == TooDeep
    ensures row in rows && UsersetGroup(row).Some?
    ensures Chain(DownEdges(ts), p) && p[0] == UsersetGroup(row).value && |p| == fuel
    decreases fuel, 0, |rows|
  {
    if Branch(ts, user, rows[0], fuel) == TooDeep {
      row := rows[0];
      p := TooDeepGroup(ts, user, UsersetGroup(row).value, fuel - 1);
    } else {
      row, p := TooDeepScan(ts, user, rows[1..], fuel);
    }
  }

  /** Group nesting never forms a cycle (module GroupNesting), so a limit that
      exceeds the number of nested groups is never reached. */
  lemma AcyclicNestingIsDeepEnough(ts: seq<Tuple>, user: string, objectType: string, objectId: string, relation: string,
                                   fuel: nat)
    requires Acyclic(UpEdges(ts)) && fuel >= |Targets(DownEdges(ts))| + 2
    ensures Check(ts, user, objectType, objectId, relation, fuel)
         == if Related(ts, user, objectType, objectId, relation) then Allowed else Denied
  {
    CheckMeaning(ts, user, objectType, objectId, relation, fuel);
    if Check(ts, user, objectType, objectId, relation, fuel) == TooDeep {
      var row, p := TooDeepScan(ts, user, FilteredTuples(ts, ObjectFilter(objectType, objectId, relation)), fuel);
      ReversedStaysAcyclic(UpEdges(ts));
      AcyclicWalksAreShort(DownEdges(ts), p);
    }
  }

  // ---- pruning ---------------------------------------------------------------------

  /** The membership tuples a snapshot keeps: the user's own, and those whose member
      group is in the user's upward closure. Other tuples are all kept. */
  ghost predicate Kept(ts: seq<Tuple>, user: string, t: Tuple) {
    || !IsMemberTuple(t)
    || IsDirectMember(t, user)
    || (UsersetGroup(t).Some? && UsersetGroup(t).value in UserGroups(ts, user))
  }

  ghost function Pruned(ts: seq<Tuple>, user: string, rows: seq<Tuple>): seq<Tuple> {
    if rows == [] then []
    else if Kept(ts, user, rows[0]) then [rows[0]] + Pruned(ts, user, rows[1..])
    else Pruned(ts, user, rows[1..])
  }

  ghost function Snapshot(ts: seq<Tuple>, user: string): seq<Tuple> {
    Pruned(ts, user, ts)
  }

  lemma {:induction false} PrunedElements(ts: seq<Tuple>, user: string, rows: seq<Tuple>, t: Tuple)
    ensures t in Pruned(ts, user, rows) <==> t in rows && Kept(ts, user, t)
  {
    if rows != [] {
      PrunedElements(ts, user, rows[1..], t);
      assert t in rows <==> t == rows[0] || t in rows[1..];
    }
  }

  lemma {:induction false} PruneCommutesWithRead(ts: seq<Tuple>, user: string, rows: seq<Tuple>, f: TupleFilter)
    ensures FilteredTuples(Pruned(ts, user, rows), f) == Pruned(ts, user, FilteredTuples(rows, f))
  {
    if rows != [] {
      PruneCommutesWithRead(ts, user, rows[1..], f);
      if Kept(ts, user, rows[0]) {
        assert Pruned(ts, user, rows)[1..] == Pruned(ts, user, rows[1..]);
      }
      if TupleMatchesFilter(rows[0], f) {
        assert FilteredTuples(rows, f)[1..] == FilteredTuples(rows[1..], f);
      }
    }
  }

  lemma {:induction false} PrunedScan(ts: seq<Tuple>, user: string, rows: seq<Tuple>, fuel: nat)
    requires fuel > 0 && Scan(ts, user, rows, fuel) != TooDeep
    ensures Scan(Snapshot(ts, user), user, Pruned(ts, user, rows), fuel) == Scan(ts, user, rows, fuel)
    decreases fuel, 0, |rows|
  {
    if rows != [] {
      var row, snapshot := rows[0], Snapshot(ts, user);
      BranchMeaning(ts, user, row, fuel);
      if Branch(ts, user, row, fuel) == Denied {
        PrunedScan(ts, user, rows[1..], fuel);
      }
      if Kept(ts, user, row) {
        assert ([row] + Pruned(ts, user, rows[1..]))[1..] == Pruned(ts, user, rows[1..]);
        if UsersetGroup(row).Some? && !(row.subjectType == "user" && row.subjectId == user) {
          PruningIsSound(ts, user, "group", UsersetGroup(row).value, "member", fuel - 1);
        }
      }
    }
  }

  /** The per-user snapshot gives the answer that all tuples give, for any tuples
      (cycles included), user, object and depth limit for which they give one. */
  lemma {:induction false} PruningIsSound(ts: seq<Tuple>, user: string, objectType: string, objectId: string,
                                          relation: string, fuel: nat)
    requires Check(ts, user, objectType, objectId, relation, fuel) != TooDeep
    ensures Check(Snapshot(ts, user), user, objectType, objectId, relation, fuel)
         == Check(ts, user, objectType, objectId, relation, fuel)
    decreases fuel, 1, 0
  {
    var f := ObjectFilter(objectType, objectId, relation);
    PruneCommutesWithRead(ts, user, ts, f);
    PrunedScan(ts, user, FilteredTuples(ts, f), fuel);
  }

  /** Two lists that hold, for every group, the same rows in the same order. */
  ghost predicate SameGroupRows(ts: seq<Tuple>, us: seq<Tuple>) {
    forall group: Id ::
      FilteredTuples(ts, ObjectFilter("group", group, "member"))
        == FilteredTuples(us, ObjectFilter("group", group, "member"))
  }

  /** A check reads nothing but the rows of its object and of groups. */
  lemma {:induction false} ScanReadsRows(ts: seq<Tuple>, us: seq<Tuple>, user: string, rows: seq<Tuple>, fuel: nat)
    requires fuel > 0 && SameGroupRows(ts, us)
    ensures Scan(ts, user, rows, fuel) == Scan(us, user, rows, fuel)
    decreases fuel, |rows|
  {
    if rows != [] {
      var row := rows[0];
      if fuel > 1 && UsersetGroup(row).Some? {
        var group := UsersetGroup(row).value;
        var f := ObjectFilter("group", group, "member");
        assert FilteredTuples(ts, f) == FilteredTuples(us, f);
        ScanReadsRows(ts, us, user, FilteredTuples(ts, f), fuel - 1);
      }
      assert Branch(ts, user, row, fuel) == Branch(us, user, row, fuel);
      ScanReadsRows(ts, us, user, rows[1..], fuel);
    }
  }

  /** ... so lists that agree on those rows, in order, give one answer at every limit. */
  lemma CheckReadsRows(ts: seq<Tuple>, us: seq<Tuple>, user: string, objectType: string, objectId: string,
                       relation: string, fuel: nat)
    requires SameGroupRows(ts, us)
    requires FilteredTuples(ts, ObjectFilter(objectType, objectId, relation))
         == FilteredTuples(us, ObjectFilter(objectType, objectId, relation))
    ensures Check(ts, user, objectType, objectId, relation, fuel)
         == Check(us, user, objectType, objectId, relation, fuel)
  {
    if fuel > 0 {
      ScanReadsRows(ts, us, user, FilteredTuples(ts, ObjectFilter(objectType, objectId, relation)), fuel);
    }
  }

  lemma SnapshotGraph(ts: seq<Tuple>, user: string)
    ensures DirectGroups(Snapshot(ts, user), user) == DirectGroups(ts, user)
    ensures UpEdges(Snapshot(ts, user)) <= UpEdges(ts)
    ensures forall e :: e in UpEdges(ts) && e.0 in UserGroups(ts, user) ==> e in UpEdges(Snapshot(ts, user))
  {
    forall t ensures t in Snapshot(ts, user) <==> t in ts && Kept(ts, user, t) {
      PrunedElements(ts, user, ts, t);
    }
    forall e | e in UpEdges(ts) && e.0 in UserGroups(ts, user) ensures e in UpEdges(Snapshot(ts, user)) {
      var t :| t in ts && IsMemberTuple(t) && UsersetGroup(t) == Some(e.0) && t.objectId == e.1;
      assert t in Snapshot(ts, user);
    }
  }

  /** Pruning loses no group of the user. */
  lemma SnapshotKeepsUserGroups(ts: seq<Tuple>, user: string)
    ensures UserGroups(Snapshot(ts, user), user) == UserGroups(ts, user)
  {
    SnapshotGraph(ts, user);
    SameClosure(UpEdges(ts), UpEdges(Snapshot(ts, user)), DirectGroups(ts, user));
  }

  lemma SameClosure(edges: Edges, fewer: Edges, seeds: set<Id>)
    requires fewer <= edges
    requires forall e :: e in edges && e.0 in Closure(edges, seeds) ==> e in fewer
    ensures Closure(fewer, seeds) == Closure(edges, seeds)
  {
    hide Closure;
    ClosureIsClosed(edges, seeds);
    ClosureIsClosed(fewer, seeds);
    ClosureIsLeast(fewer, seeds, Closure(edges, seeds));
    forall e | e in edges && e.0 in Closure(fewer, seeds) ensures e.1 in Closure(fewer, seeds) {
      assert e in fewer;
    }
    ClosureIsLeast(edges, seeds, Closure(fewer, seeds));
  }
}
