/** Relation tuples, the tables they are read from, and filter pushdown. */
module Tuples {
  import opened Text
  import opened CoreModel
  import opened Reach

  datatype Tuple = Tuple(objectType: string, objectId: string, relation: string,
                         subjectType: string, subjectId: string)

  datatype TupleFilter = TupleFilter(objectType: Option<string>, objectId: Option<string>,
                                     relation: Option<string>, subjectType: Option<string>,
                                     subjectId: Option<string>)

  const MEMBER_SUFFIX := "#member"
  const NO_FILTER := TupleFilter(None, None, None, None, None)

  predicate MatchesFilterValue(value: string, expected: Option<string>) {
    expected.None? || expected.value == value
  }

  predicate TupleMatchesFilter(t: Tuple, f: TupleFilter) {
    && MatchesFilterValue(t.objectType, f.objectType)
    && MatchesFilterValue(t.objectId, f.objectId)
    && MatchesFilterValue(t.relation, f.relation)
    && MatchesFilterValue(t.subjectType, f.subjectType)
    && MatchesFilterValue(t.subjectId, f.subjectId)
  }

  /** `SnapshotTupleReader::filtered_tuples`. */
  function FilteredTuples(tuples: seq<Tuple>, f: TupleFilter): seq<Tuple> {
    if tuples == [] then []
    else if TupleMatchesFilter(tuples[0], f) then [tuples[0]] + FilteredTuples(tuples[1..], f)
    else FilteredTuples(tuples[1..], f)
  }

  lemma {:induction false} FilteredConcat(a: seq<Tuple>, b: seq<Tuple>, f: TupleFilter)
    ensures FilteredTuples(a + b, f) == FilteredTuples(a, f) + FilteredTuples(b, f)
  {
    if a == [] {
      assert a + b == b;
    } else {
      FilteredConcat(a[1..], b, f);
      assert (a + b)[1..] == a[1..] + b;
    }
  }

  lemma {:induction false} FilteredElements(tuples: seq<Tuple>, f: TupleFilter, t: Tuple)
    ensures t in FilteredTuples(tuples, f) <==> t in tuples && TupleMatchesFilter(t, f)
  {
    if tuples != [] {
      FilteredElements(tuples[1..], f, t);
      assert t in tuples <==> t == tuples[0] || t in tuples[1..];
    }
  }

  // ---- the group graph inside a list of tuples ---------------------------------

  predicate IsMemberTuple(t: Tuple) {
    t.objectType == "group" && t.relation == "member"
  }

  predicate IsDirectMember(t: Tuple, userId: string) {
    IsMemberTuple(t) && t.subjectType == "user" && t.subjectId == userId
  }

  /** The group whose members a tuple includes, if its subject is a group. */
  function UsersetGroup(t: Tuple): Option<Id> {
    if t.subjectType == "group" then StripSuffix(t.subjectId, MEMBER_SUFFIX) else None
  }

  /** Edges from a member group up to the group that contains it. */
  function UpEdges(tuples: seq<Tuple>): Edges {
    set t | t in tuples && IsMemberTuple(t) && UsersetGroup(t).Some? :: (UsersetGroup(t).value, t.objectId)
  }

  function DirectGroups(tuples: seq<Tuple>, userId: string): set<Id> {
    set t | t in tuples && IsDirectMember(t, userId) :: t.objectId
  }

  ghost function UserGroups(tuples: seq<Tuple>, userId: string): set<Id> {
    Closure(UpEdges(tuples), DirectGroups(tuples, userId))
  }

  // ---- the tables -----------------------------------------------------------------

  datatype Repository = Repository(name: string, loreId: string, status: string)
  datatype GrantRow = GrantRow(subjectType: string, subjectId: string, repositoryId: Id, role: string)
  datatype MemberRow = MemberRow(groupId: Id, userId: Id)
  datatype NestRow = NestRow(groupId: Id, memberGroupId: Id)

  /** Tables are held in the order in which the tuple queries return their rows. */
  datatype Db = Db(repositories: map<Id, Repository>, grants: seq<GrantRow>,
                   members: seq<MemberRow>, nests: seq<NestRow>)

  predicate ActiveRepository(db: Db, id: Id) {
    id in db.repositories && db.repositories[id].status == "active"
  }

  function GrantTuple(loreId: string, g: GrantRow): Tuple {
    Tuple("resource", ResourceIdOf(loreId), g.role, g.subjectType,
          if g.subjectType == "group" then g.subjectId + MEMBER_SUFFIX else g.subjectId)
  }

  function MemberTuple(m: MemberRow): Tuple {
    Tuple("group", m.groupId, "member", "user", m.userId)
  }

  function NestTuple(n: NestRow): Tuple {
    Tuple("group", n.groupId, "member", "group", n.memberGroupId + MEMBER_SUFFIX)
  }

  // ---- reads with the filter pushed into the query -------------------------------

  /** `push_grant_subject_filter`: false when no row can match at all. */
  predicate GrantSubjectPossible(f: TupleFilter) {
    match (f.subjectType, f.subjectId)
    case (Some(kind), Some(id)) => kind == "user" || (kind == "group" && StripSuffix(id, MEMBER_SUFFIX).Some?)
    case (Some(kind), None) => kind == "user" || kind == "group"
    case (None, _) => true
  }

  predicate GrantSubjectClause(f: TupleFilter, g: GrantRow)
    requires GrantSubjectPossible(f)
  {
    match (f.subjectType, f.subjectId)
    case (Some(kind), Some(id)) =>
      g.subjectType == kind && g.subjectId == (if kind == "user" then id else StripSuffix(id, MEMBER_SUFFIX).value)
    case (Some(kind), None) => g.subjectType == kind
    case (None, Some(id)) =>
      (match StripSuffix(id, MEMBER_SUFFIX)
       case Some(group) => (g.subjectType == "group" && g.subjectId == group)
                           || (g.subjectType == "user" && g.subjectId == id)
       case None => g.subjectType == "user" && g.subjectId == id)
    case (None, None) => true
  }

  predicate GrantWhere(db: Db, f: TupleFilter, g: GrantRow)
    requires GrantSubjectPossible(f)
  {
    && ActiveRepository(db, g.repositoryId)
    && (f.objectId.Some? ==> db.repositories[g.repositoryId].loreId == RepositoryIdFromResourceId(f.objectId.value))
    && (f.relation.Some? ==> g.role == f.relation.value)
    && GrantSubjectClause(f, g)
  }

  function SelectGrants(db: Db, rows: seq<GrantRow>, f: TupleFilter): seq<Tuple>
    requires GrantSubjectPossible(f)
  {
    if rows == [] then []
    else if GrantWhere(db, f, rows[0])
    then [GrantTuple(db.repositories[rows[0].repositoryId].loreId, rows[0])] + SelectGrants(db, rows[1..], f)
    else SelectGrants(db, rows[1..], f)
  }

  function ReadGrantTuples(db: Db, f: TupleFilter): seq<Tuple> {
    if MatchesFilterValue("resource", f.objectType) && GrantSubjectPossible(f)
    then SelectGrants(db, db.grants, f) else []
  }

  function SelectMembers(rows: seq<MemberRow>, f: TupleFilter): seq<Tuple> {
    if rows == [] then []
    else if MatchesFilterValue(rows[0].groupId, f.objectId) && MatchesFilterValue(rows[0].userId, f.subjectId)
    then [MemberTuple(rows[0])] + SelectMembers(rows[1..], f)
    else SelectMembers(rows[1..], f)
  }

  function SelectNests(rows: seq<NestRow>, f: TupleFilter, memberGroup: Option<Id>): seq<Tuple> {
    if rows == [] then []
    else if MatchesFilterValue(rows[0].groupId, f.objectId) && MatchesFilterValue(rows[0].memberGroupId, memberGroup)
    then [NestTuple(rows[0])] + SelectNests(rows[1..], f, memberGroup)
    else SelectNests(rows[1..], f, memberGroup)
  }

  function ReadUserMemberTuples(db: Db, f: TupleFilter): seq<Tuple> {
    if MatchesFilterValue("user", f.subjectType) then SelectMembers(db.members, f) else []
  }

  function ReadGroupMemberTuples(db: Db, f: TupleFilter): seq<Tuple> {
    if !MatchesFilterValue("group", f.subjectType) then []
    else match f.subjectId
      case None => SelectNests(db.nests, f, None)
      case Some(id) =>
        (match StripSuffix(id, MEMBER_SUFFIX)
         case Some(group) => SelectNests(db.nests, f, Some(group))
         case None => [])
  }

  /** `read_tuples_conn`. */
  function ReadTuples(db: Db, f: TupleFilter): seq<Tuple> {
    ReadGrantTuples(db, f)
    + (if MatchesFilterValue("group", f.objectType) && MatchesFilterValue("member", f.relation)
       then ReadUserMemberTuples(db, f) + ReadGroupMemberTuples(db, f) else [])
  }

  // ---- pushdown preserves meaning ---------------------------------------------------

  ghost predicate StoredAsExpected(db: Db) {
    && (forall id :: id in db.repositories ==> CanonicalRepositoryId(db.repositories[id].loreId))
    && (forall g :: g in db.grants ==> g.subjectType == "user" || g.subjectType == "group")
  }

  /** Filters that name a resource by its full resource id, or cannot read grants. */
  predicate PrefixedObject(f: TupleFilter) {
    || f.objectId.None?
    || !MatchesFilterValue("resource", f.objectType)
    || !GrantSubjectPossible(f)
    || f.objectId.value == ""
    || HasPrefix(f.objectId.value, URC)
  }

  lemma GrantRowPushdown(db: Db, f: TupleFilter, g: GrantRow)
    requires ActiveRepository(db, g.repositoryId)
    requires CanonicalRepositoryId(db.repositories[g.repositoryId].loreId)
    requires g.subjectType == "user" || g.subjectType == "group"
    requires PrefixedObject(f) && MatchesFilterValue("resource", f.objectType)
    ensures
      TupleMatchesFilter(GrantTuple(db.repositories[g.repositoryId].loreId, g), f)
      <==> GrantSubjectPossible(f) && GrantWhere(db, f, g)
  {
    var loreId := db.repositories[g.repositoryId].loreId;
    var t := GrantTuple(loreId, g);
    if f.subjectId.Some? {
      StripSuffixOfConcat(g.subjectId, MEMBER_SUFFIX);
    }
    if GrantSubjectPossible(f) && f.objectId.Some? {
      var id := f.objectId.value;
      assert t.objectId == URC + loreId;
      if id != "" {
        assert id == URC + id[4..];
        assert (URC + loreId)[4..] == loreId;
      }
    }
  }

  lemma {:induction false} GrantPushdown(db: Db, rows: seq<GrantRow>, f: TupleFilter)
    requires forall g :: g in rows ==> g.subjectType == "user" || g.subjectType == "group"
    requires forall id :: id in db.repositories ==> CanonicalRepositoryId(db.repositories[id].loreId)
    requires PrefixedObject(f)
    ensures FilteredTuples(SelectGrants(db, rows, NO_FILTER), f)
         == if MatchesFilterValue("resource", f.objectType) && GrantSubjectPossible(f)
            then SelectGrants(db, rows, f) else []
  {
    if rows != [] {
      var g := rows[0];
      GrantPushdown(db, rows[1..], f);
      if ActiveRepository(db, g.repositoryId) {
        var t := GrantTuple(db.repositories[g.repositoryId].loreId, g);
        assert SelectGrants(db, rows, NO_FILTER)[1..] == SelectGrants(db, rows[1..], NO_FILTER);
        if MatchesFilterValue("resource", f.objectType) {
          GrantRowPushdown(db, f, g);
        }
      }
    }
  }

  lemma {:induction false} MemberPushdown(rows: seq<MemberRow>, f: TupleFilter)
    ensures FilteredTuples(SelectMembers(rows, NO_FILTER), f)
         == if MatchesFilterValue("group", f.objectType) && MatchesFilterValue("member", f.relation)
               && MatchesFilterValue("user", f.subjectType)
            then SelectMembers(rows, f) else []
  {
    if rows != [] {
      MemberPushdown(rows[1..], f);
      assert SelectMembers(rows, NO_FILTER)[1..] == SelectMembers(rows[1..], NO_FILTER);
    }
  }

  lemma {:induction false} NestPushdown(rows: seq<NestRow>, f: TupleFilter)
    ensures FilteredTuples(SelectNests(rows, NO_FILTER, None), f)
         == if !MatchesFilterValue("group", f.objectType) || !MatchesFilterValue("member", f.relation)
               || !MatchesFilterValue("group", f.subjectType)
            then []
            else if f.subjectId.None? then SelectNests(rows, f, None)
            else if StripSuffix(f.subjectId.value, MEMBER_SUFFIX).None? then []
            else SelectNests(rows, f, StripSuffix(f.subjectId.value, MEMBER_SUFFIX))
  {
    if rows != [] {
      NestPushdown(rows[1..], f);
      assert SelectNests(rows, NO_FILTER, None)[1..] == SelectNests(rows[1..], NO_FILTER, None);
      StripSuffixOfConcat(rows[0].memberGroupId, MEMBER_SUFFIX);
    }
  }

  /** The pushed-down read returns, in order, exactly the tuples of the unfiltered
      read that pass the filter. */
  lemma PushdownPreservesMeaning(db: Db, f: TupleFilter)
    requires StoredAsExpected(db) && PrefixedObject(f)
    ensures ReadTuples(db, f) == FilteredTuples(ReadTuples(db, NO_FILTER), f)
  {
    var grants := SelectGrants(db, db.grants, NO_FILTER);
    var members := SelectMembers(db.members, NO_FILTER);
    var nests := SelectNests(db.nests, NO_FILTER, None);
    assert ReadTuples(db, NO_FILTER) == grants + (members + nests);
    FilteredConcat(grants, members + nests, f);
    FilteredConcat(members, nests, f);
    GrantPushdown(db, db.grants, f);
    MemberPushdown(db.members, f);
    NestPushdown(db.nests, f);
  }

  /** A database on which a filter that names a resource without the prefix reads
      a tuple it should have rejected. */
  function Misread(f: TupleFilter): Db
    requires GrantSubjectPossible(f) && f.objectId.Some?
  {
    var role := if f.relation.Some? then f.relation.value else "reader";
    var grant :=
      match (f.subjectType, f.subjectId)
      case (Some(kind), Some(id)) =>
        GrantRow(kind, if kind == "user" then id else StripSuffix(id, MEMBER_SUFFIX).value, "1", role)
      case (Some(kind), None) => GrantRow(kind, "", "1", role)
      case (None, Some(id)) => GrantRow("user", id, "1", role)
      case (None, None) => GrantRow("user", "", "1", role);
    Db(map["1" := Repository("r", f.objectId.value, "active")], [grant], [], [])
  }

  /** Pushdown is exact for the filters with a prefixed object, and for no others. */
  lemma PushdownExactlyForPrefixedObjects(f: TupleFilter)
    ensures (forall db :: StoredAsExpected(db) ==> ReadTuples(db, f) == FilteredTuples(ReadTuples(db, NO_FILTER), f))
       <==> PrefixedObject(f)
  {
    if PrefixedObject(f) {
      forall db | StoredAsExpected(db)
        ensures ReadTuples(db, f) == FilteredTuples(ReadTuples(db, NO_FILTER), f)
      {
        PushdownPreservesMeaning(db, f);
      }
    } else {
      var db := Misread(f);
      var t := GrantTuple(f.objectId.value, db.grants[0]);
      assert SelectGrants(db, db.grants[1..], f) == [];
      assert ReadTuples(db, f)[0] == t;
      assert t.objectId == URC + f.objectId.value;
      FilteredElements(ReadTuples(db, NO_FILTER), f, t);
      assert !TupleMatchesFilter(t, f);
      assert StoredAsExpected(db);
    }
  }
}
