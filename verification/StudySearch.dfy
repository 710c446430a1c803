/** `_search_studies`: the query it builds, and the plain predicate that the query means. */
module StudySearch {
  import opened Options
  import opened Text
  import opened Permissions
  import opened LikePattern
  import opened StudyQuery

  datatype AccessPermissions = AccessPermissions(isAdmin: bool, userId: Option<int>, userGroups: seq<string>)

  datatype StudyFilter = StudyFilter(
    name: string,
    managed: Option<bool>,
    archived: Option<bool>,
    variant: Option<bool>,
    versions: seq<string>,
    users: seq<int>,
    groups: seq<string>,
    tags: seq<string>,
    upper: string -> string,  // what Python's `upper` makes of a tag
    studyIds: seq<string>,
    exists_: Option<bool>,
    workspace: string,
    folder: string,
    access: AccessPermissions)

  /** `AccessPermissions.from_params`; no user at all is `None`. */
  function FromParams(user: Option<JWTUser>): AccessPermissions {
    if user.Some? then
      var u := user.value;
      var groups := seq(|u.groups|, i requires 0 <= i < |u.groups| => u.groups[i].id);
      AccessPermissions(u.IsSiteAdmin() || u.IsAdminToken(), Some(u.id), groups)
    else AccessPermissions(false, None, [])
  }

  function NoFilter(a: AccessPermissions): StudyFilter {
    StudyFilter("", None, None, None, [], [], [], [], Upper, [], None, "", "", a)
  }

  // ----------------------------------------------------------------------- the query

  function When(b: bool, c: Condition): seq<Condition> {
    if b then [c] else []
  }

  function Strs(s: seq<string>): seq<Value> {
    seq(|s|, i requires 0 <= i < |s| => Str(s[i]))
  }

  function Nums(s: seq<int>): seq<Value> {
    seq(|s|, i requires 0 <= i < |s| => Num(s[i]))
  }

  function Uppers(f: StudyFilter): seq<string> {
    seq(|f.tags|, i requires 0 <= i < |f.tags| => f.upper(f.tags[i]))
  }

  function ExistsFilter(f: StudyFilter): seq<Condition> {
    if f.exists_.None? then []
    else if f.exists_.value then [IsNull(RawMissing)]
    else [Negated(IsNull(RawMissing))]
  }

  function ManagedFilter(f: StudyFilter): seq<Condition> {
    if f.managed.None? then []
    else if f.managed.value then
      [Either(Equals(Type, Str("variantstudy")), Equals(RawWorkspace, Str(DEFAULT_WORKSPACE_NAME)))]
    else [Equals(Type, Str("rawstudy")), Differs(RawWorkspace, Str(DEFAULT_WORKSPACE_NAME))]
  }

  function VariantFilter(f: StudyFilter): seq<Condition> {
    if f.variant.None? then []
    else if f.variant.value then [Equals(Type, Str("variantstudy"))]
    else [Equals(Type, Str("rawstudy"))]
  }

  function FiltersBeforeTags(f: StudyFilter): seq<Condition> {
    ExistsFilter(f) + ManagedFilter(f)
    + When(f.studyIds != [], OneOf(Id, Strs(f.studyIds)))
    + When(f.users != [], OneOf(OwnerId, Nums(f.users)))
  }

  function FiltersAfterTags(f: StudyFilter): seq<Condition> {
    (if f.archived.Some? then [Equals(Archived, Flag(f.archived.value))] else [])
    + When(f.name != "", Matching(Name, NamePattern(f.name)))
    + When(f.folder != "", Matching(Folder, FolderPattern(f.folder)))
    + When(f.workspace != "", Equals(RawWorkspace, Str(f.workspace)))
    + VariantFilter(f)
    + When(f.versions != [], OneOf(Version, Strs(f.versions)))
  }

  function TagFilter(f: StudyFilter, q: Query): Query {
    if f.tags != [] then Where(JoinTags(q), OneOf(UpperTagLabel, Strs(Uppers(f)))) else q
  }

  function BaseQuery(f: StudyFilter): Query {
    Filtered(TagFilter(f, Filtered(Table, FiltersBeforeTags(f))), FiltersAfterTags(f))
  }

  function GroupIn(groups: seq<string>): Condition {
    OneOf(GroupId, Strs(groups))
  }

  /** Public, or owned by the user. */
  function OpenTo(userId: int): Condition {
    Either(Differs(PublicModeColumn, Mode(NONE)), Equals(OwnerId, Num(userId)))
  }

  function Search(f: StudyFilter): Query {
    var q := BaseQuery(f);
    if !f.access.isAdmin && f.access.userId.Some? then
      var q1 := Where(JoinGroups(q), GroupIn(f.access.userGroups));
      var open := OpenTo(f.access.userId.value);
      if f.groups != [] then
        var q2 := Where(JoinGroups(q), GroupIn(f.groups));
        Union(Intersect(q1, q2), Where(JoinGroups(q), Both(open, GroupIn(f.groups))))
      else Union(q1, Where(q, open))
    else if !f.access.isAdmin then Where(Table, Never)
    else if f.groups != [] then Where(JoinGroups(q), GroupIn(f.groups))
    else q
  }

  // --------------------------------------------------------------------- its meaning

  predicate TagWanted(f: StudyFilter, t: string) {
    f.upper(t) in Uppers(f)
  }

  predicate PassesBeforeTags(f: StudyFilter, s: Study) {
    && (f.exists_.Some? ==> (f.exists_.value <==> !(s.kind.RawStudy? && s.kind.missing.Some?)))
    && (f.managed.Some? ==>
          if f.managed.value
          then s.kind.VariantStudy? || (s.kind.RawStudy? && s.kind.workspace == "default")
          else s.kind.RawStudy? && s.kind.workspace != "default")
    && (f.studyIds != [] ==> s.id in f.studyIds)
    && (f.users != [] ==> s.ownerId.Some? && s.ownerId.value in f.users)
  }

  predicate PassesAfterTags(f: StudyFilter, s: Study) {
    && (f.archived.Some? ==> s.archived == f.archived)
    && (f.name != "" ==> s.name.Some? && Contains(Lower(s.name.value), Lower(f.name)))
    && (f.folder != "" ==> s.folder.Some? && Lower(f.folder) <= Lower(s.folder.value))
    && (f.workspace != "" ==> s.kind.RawStudy? && s.kind.workspace == f.workspace)
    && (f.variant.Some? ==> if f.variant.value then s.kind.VariantStudy? else s.kind.RawStudy?)
    && (f.versions != [] ==> s.version.Some? && s.version.value in f.versions)
  }

  predicate PassesTags(f: StudyFilter, s: Study) {
    f.tags != [] ==> exists t :: t in s.tags && TagWanted(f, t)
  }

  /** Every filter except groups and permissions. */
  predicate PassesBase(f: StudyFilter, s: Study) {
    PassesBeforeTags(f, s) && PassesTags(f, s) && PassesAfterTags(f, s)
  }

  predicate SharesGroup(s: Study, groups: seq<string>) {
    exists g :: g in s.groups && g in groups
  }

  predicate PassesGroups(f: StudyFilter, s: Study) {
    f.groups != [] ==> SharesGroup(s, f.groups)
  }

  predicate IsOpen(s: Study, userId: int) {
    (s.publicMode.Some? && s.publicMode.value != NONE) || s.ownerId == Some(userId)
  }

  predicate Visible(a: AccessPermissions, s: Study) {
    a.isAdmin || (a.userId.Some? && (IsOpen(s, a.userId.value) || SharesGroup(s, a.userGroups)))
  }

  /** The database escapes with a backslash, or there is nothing to escape. */
  predicate LikeIsRight(f: StudyFilter, sql: Dialect) {
    sql.PostgreSQL? || (Plain(f.name) && Plain(f.folder))
  }

  /** What the database compares. */
  predicate TagFound(f: StudyFilter, t: string, sql: Dialect) {
    sql.upper(t) in Uppers(f)
  }

  /** The database and Python agree on which labels are asked for. */
  ghost predicate CaseIsRight(f: StudyFilter, sql: Dialect) {
    forall t :: TagFound(f, t, sql) <==> TagWanted(f, t)
  }

  ghost predicate TextIsRight(f: StudyFilter, sql: Dialect) {
    LikeIsRight(f, sql) && CaseIsRight(f, sql)
  }

  // ------------------------------------------------------------- conditions, one by one

  lemma AllHoldConcat(a: seq<Condition>, b: seq<Condition>, r: Row, sql: Dialect)
    ensures AllHold(a + b, r, sql) <==> AllHold(a, r, sql) && AllHold(b, r, sql)
  {
    if AllHold(a + b, r, sql) {
      forall i | 0 <= i < |a| ensures Holds(a[i], r, sql) == Yes {
        assert (a + b)[i] == a[i];
      }
      forall i | 0 <= i < |b| ensures Holds(b[i], r, sql) == Yes {
        assert (a + b)[|a| + i] == b[i];
      }
    }
  }

  lemma WhenHolds(b: bool, c: Condition, r: Row, sql: Dialect)
    ensures AllHold(When(b, c), r, sql) <==> (b ==> Holds(c, r, sql) == Yes)
  {
    if b && AllHold(When(b, c), r, sql) {
      assert When(b, c)[0] == c;
    }
  }

  lemma OneHolds(c: Condition, r: Row, sql: Dialect)
    ensures AllHold([c], r, sql) <==> Holds(c, r, sql) == Yes
  {
    WhenHolds(true, c, r, sql);
  }

  lemma StrsMember(x: string, s: seq<string>)
    ensures Str(x) in Strs(s) <==> x in s
  {
    if x in s {
      var i :| 0 <= i < |s| && s[i] == x;
      assert Strs(s)[i] == Str(x);
    }
  }

  lemma NumsMember(x: int, s: seq<int>)
    ensures Num(x) in Nums(s) <==> x in s
  {
    if x in s {
      var i :| 0 <= i < |s| && s[i] == x;
      assert Nums(s)[i] == Num(x);
    }
  }

  lemma ExistsMeans(f: StudyFilter, r: Row, sql: Dialect)
    ensures AllHold(ExistsFilter(f), r, sql) <==>
            (f.exists_.Some? ==> (f.exists_.value <==> !(r.study.kind.RawStudy? && r.study.kind.missing.Some?)))
  {
    if f.exists_.Some? {
      OneHolds(ExistsFilter(f)[0], r, sql);
    }
  }

  lemma ManagedMeans(f: StudyFilter, r: Row, sql: Dialect)
    ensures AllHold(ManagedFilter(f), r, sql) <==>
            (f.managed.Some? ==>
               var s := r.study;
               if f.managed.value
               then s.kind.VariantStudy? || (s.kind.RawStudy? && s.kind.workspace == DEFAULT_WORKSPACE_NAME)
               else s.kind.RawStudy? && s.kind.workspace != DEFAULT_WORKSPACE_NAME)
  {
    if f.managed.Some? {
      var cs := ManagedFilter(f);
      if f.managed.value {
        OneHolds(cs[0], r, sql);
      } else {
        assert AllHold(cs, r, sql) <==> Holds(cs[0], r, sql) == Yes && Holds(cs[1], r, sql) == Yes;
      }
    }
  }

  lemma VariantMeans(f: StudyFilter, r: Row, sql: Dialect)
    ensures AllHold(VariantFilter(f), r, sql) <==>
            (f.variant.Some? ==> if f.variant.value then r.study.kind.VariantStudy? else r.study.kind.RawStudy?)
  {
    if f.variant.Some? {
      OneHolds(VariantFilter(f)[0], r, sql);
    }
  }

  lemma BeforeTagsMeans(f: StudyFilter, r: Row, sql: Dialect)
    ensures AllHold(FiltersBeforeTags(f), r, sql) <==> PassesBeforeTags(f, r.study)
  {
    var a, b := ExistsFilter(f), ManagedFilter(f);
    var c := When(f.studyIds != [], OneOf(Id, Strs(f.studyIds)));
    var d := When(f.users != [], OneOf(OwnerId, Nums(f.users)));
    AllHoldConcat(a + b + c, d, r, sql);
    AllHoldConcat(a + b, c, r, sql);
    AllHoldConcat(a, b, r, sql);
    ExistsMeans(f, r, sql);
    ManagedMeans(f, r, sql);
    IdsMean(f, r, sql);
    UsersMean(f, r, sql);
  }

  lemma IdsMean(f: StudyFilter, r: Row, sql: Dialect)
    ensures AllHold(When(f.studyIds != [], OneOf(Id, Strs(f.studyIds))), r, sql) <==>
              (f.studyIds != [] ==> r.study.id in f.studyIds)
  {
    WhenHolds(f.studyIds != [], OneOf(Id, Strs(f.studyIds)), r, sql);
    StrsMember(r.study.id, f.studyIds);
  }

  lemma UsersMean(f: StudyFilter, r: Row, sql: Dialect)
    ensures AllHold(When(f.users != [], OneOf(OwnerId, Nums(f.users))), r, sql) <==>
            (f.users != [] ==> r.study.ownerId.Some? && r.study.ownerId.value in f.users)
  {
    WhenHolds(f.users != [], OneOf(OwnerId, Nums(f.users)), r, sql);
    if r.study.ownerId.Some? {
      NumsMember(r.study.ownerId.value, f.users);
    }
  }

  lemma VersionsMean(f: StudyFilter, r: Row, sql: Dialect)
    ensures AllHold(When(f.versions != [], OneOf(Version, Strs(f.versions))), r, sql) <==>
            (f.versions != [] ==> r.study.version.Some? && r.study.version.value in f.versions)
  {
    WhenHolds(f.versions != [], OneOf(Version, Strs(f.versions)), r, sql);
    if r.study.version.Some? {
      StrsMember(r.study.version.value, f.versions);
    }
  }

  lemma NameFilterMeans(n: string, s: string, sql: Dialect)
    requires sql.PostgreSQL? || Plain(n)
    ensures ILike(NamePattern(n), s, DefaultEscape(sql)) <==> Contains(Lower(s), Lower(n))
  {
    if sql.PostgreSQL? {
      NameFilterIsContains(n, s);
    } else {
      PlainNameFilter(n, s);
    }
  }

  lemma FolderFilterMeans(n: string, s: string, sql: Dialect)
    requires sql.PostgreSQL? || Plain(n)
    ensures ILike(FolderPattern(n), s, DefaultEscape(sql)) <==> Lower(n) <= Lower(s)
  {
    if sql.PostgreSQL? {
      FolderFilterIsPrefix(n, s);
    } else {
      PlainFolderFilter(n, s);
    }
  }

  lemma NameMeans(f: StudyFilter, r: Row, sql: Dialect)
    requires LikeIsRight(f, sql)
    ensures AllHold(When(f.name != "", Matching(Name, NamePattern(f.name))), r, sql) <==>
            (f.name != "" ==> r.study.name.Some? && Contains(Lower(r.study.name.value), Lower(f.name)))
  {
    WhenHolds(f.name != "", Matching(Name, NamePattern(f.name)), r, sql);
    if r.study.name.Some? {
      NameFilterMeans(f.name, r.study.name.value, sql);
    }
  }

  lemma FolderMeans(f: StudyFilter, r: Row, sql: Dialect)
    requires LikeIsRight(f, sql)
    ensures AllHold(When(f.folder != "", Matching(Folder, FolderPattern(f.folder))), r, sql) <==>
            (f.folder != "" ==> r.study.folder.Some? && Lower(f.folder) <= Lower(r.study.folder.value))
  {
    WhenHolds(f.folder != "", Matching(Folder, FolderPattern(f.folder)), r, sql);
    if r.study.folder.Some? {
      FolderFilterMeans(f.folder, r.study.folder.value, sql);
    }
  }

  lemma ArchivedMeans(f: StudyFilter, r: Row, sql: Dialect)
    ensures AllHold(if f.archived.Some? then [Equals(Archived, Flag(f.archived.value))] else [], r, sql) <==>
            (f.archived.Some? ==> r.study.archived == f.archived)
  {
    if f.archived.Some? {
      OneHolds(Equals(Archived, Flag(f.archived.value)), r, sql);
    }
  }

  lemma WorkspaceMeans(f: StudyFilter, r: Row, sql: Dialect)
    ensures AllHold(When(f.workspace != "", Equals(RawWorkspace, Str(f.workspace))), r, sql) <==>
            (f.workspace != "" ==> r.study.kind.RawStudy? && r.study.kind.workspace == f.workspace)
  {
    WhenHolds(f.workspace != "", Equals(RawWorkspace, Str(f.workspace)), r, sql);
  }

  lemma AfterTagsMeans(f: StudyFilter, r: Row, sql: Dialect)
    requires LikeIsRight(f, sql)
    ensures AllHold(FiltersAfterTags(f), r, sql) <==> PassesAfterTags(f, r.study)
  {
    var a: seq<Condition> := if f.archived.Some? then [Equals(Archived, Flag(f.archived.value))] else [];
    var b := When(f.name != "", Matching(Name, NamePattern(f.name)));
    var c := When(f.folder != "", Matching(Folder, FolderPattern(f.folder)));
    var d := When(f.workspace != "", Equals(RawWorkspace, Str(f.workspace)));
    var e := VariantFilter(f);
    var g := When(f.versions != [], OneOf(Version, Strs(f.versions)));
    SixHold(a, b, c, d, e, g, r, sql);
    ArchivedMeans(f, r, sql);
    NameMeans(f, r, sql);
    FolderMeans(f, r, sql);
    WorkspaceMeans(f, r, sql);
    VariantMeans(f, r, sql);
    VersionsMean(f, r, sql);
  }

  lemma SixHold(a: seq<Condition>, b: seq<Condition>, c: seq<Condition>, d: seq<Condition>, e: seq<Condition>,
      g: seq<Condition>, r: Row, sql: Dialect)
    ensures AllHold(a + b + c + d + e + g, r, sql) <==>
            AllHold(a, r, sql) && AllHold(b, r, sql) && AllHold(c, r, sql) && AllHold(d, r, sql) && AllHold(e, r, sql)
                && AllHold(g, r, sql)
  {
    AllHoldConcat(a + b + c + d + e, g, r, sql);
    AllHoldConcat(a + b + c + d, e, r, sql);
    AllHoldConcat(a + b + c, d, r, sql);
    AllHoldConcat(a + b, c, r, sql);
    AllHoldConcat(a, b, r, sql);
  }

  // ---------------------------------------------------------------- the base query

  lemma TableRows(db: seq<Study>, r: Row)
    ensures r in Rows(db) <==> r == Row(r.study, None, None) && r.study in db
  {
    if r == Row(r.study, None, None) && r.study in db {
      var i :| 0 <= i < |db| && db[i] == r.study;
      assert Rows(db)[i] == r;
    }
  }

  lemma BeforeTagsRows(f: StudyFilter, db: seq<Study>, r: Row, sql: Dialect)
    ensures r in Eval(Filtered(Table, FiltersBeforeTags(f)), db, sql) <==>
            r == Row(r.study, None, None) && r.study in db && PassesBeforeTags(f, r.study)
  {
    FilteredMembers(Table, FiltersBeforeTags(f), db, r, sql);
    BeforeTagsMeans(f, r, sql);
    TableRows(db, r);
  }

  /** The tag a row of the base query has been joined with. */
  predicate TagOfRow(f: StudyFilter, r: Row, sql: Dialect) {
    if f.tags == [] then r.tag == None
    else r.tag.Some? && r.tag.value in r.study.tags && TagFound(f, r.tag.value, sql)
  }

  lemma TagHolds(f: StudyFilter, r: Row, sql: Dialect)
    ensures Holds(OneOf(UpperTagLabel, Strs(Uppers(f))), r, sql) == Yes <==>
            r.tag.Some? && TagFound(f, r.tag.value, sql)
  {
    if r.tag.Some? {
      StrsMember(sql.upper(r.tag.value), Uppers(f));
    }
  }

  lemma TagRows(f: StudyFilter, db: seq<Study>, r: Row, sql: Dialect)
    ensures r in Eval(TagFilter(f, Filtered(Table, FiltersBeforeTags(f))), db, sql) <==>
            r.group == None && TagOfRow(f, r, sql) && r.study in db && PassesBeforeTags(f, r.study)
  {
    if f.tags == [] {
      BeforeTagsRows(f, db, r, sql);
    } else {
      JoinedOnTag(Filtered(Table, FiltersBeforeTags(f)), OneOf(UpperTagLabel, Strs(Uppers(f))), db, r, sql);
      TagHolds(f, r, sql);
      if r.group == None && TagOfRow(f, r, sql) && r.study in db && PassesBeforeTags(f, r.study) {
        TagRowComes(f, db, r, sql);
      }
      if r in Eval(TagFilter(f, Filtered(Table, FiltersBeforeTags(f))), db, sql) {
        TagRowOrigin(f, db, r, sql);
        BeforeTagsRows(f, db, Row(r.study, None, None), sql);
      }
    }
  }

  lemma TagRowComes(f: StudyFilter, db: seq<Study>, r: Row, sql: Dialect)
    requires r.study in db && PassesBeforeTags(f, r.study)
    requires r.group == None && r.tag.Some? && r.tag.value in r.study.tags
    ensures exists b, t ::
              b in Eval(Filtered(Table, FiltersBeforeTags(f)), db, sql) && t in b.study.tags && r == b.(tag := Some(t))
  {
    var plain := Row(r.study, None, None);
    BeforeTagsRows(f, db, plain, sql);
    assert r == plain.(tag := Some(r.tag.value));
  }

  lemma TagRowOrigin(f: StudyFilter, db: seq<Study>, r: Row, sql: Dialect)
    requires exists b, t ::
             b in Eval(Filtered(Table, FiltersBeforeTags(f)), db, sql) && t in b.study.tags && r == b.(tag := Some(t))
    ensures r.group == None && r.tag.Some? && r.tag.value in r.study.tags
    ensures Row(r.study, None, None) in Eval(Filtered(Table, FiltersBeforeTags(f)), db, sql)
  {
    var b, t :| b in Eval(Filtered(Table, FiltersBeforeTags(f)), db, sql) && t in b.study.tags
        && r == b.(tag := Some(t));
    BeforeTagsRows(f, db, b, sql);
  }

  lemma BaseRows(f: StudyFilter, db: seq<Study>, r: Row, sql: Dialect)
    requires LikeIsRight(f, sql)
    ensures r in Eval(BaseQuery(f), db, sql) <==>
            r.group == None && TagOfRow(f, r, sql) && r.study in db && PassesBeforeTags(f, r.study)
                && PassesAfterTags(f, r.study)
  {
    FilteredMembers(TagFilter(f, Filtered(Table, FiltersBeforeTags(f))), FiltersAfterTags(f), db, r, sql);
    TagRows(f, db, r, sql);
    AfterTagsMeans(f, r, sql);
  }

  /** The base query finds exactly the studies that pass the base filters. */
  lemma BaseStudies(f: StudyFilter, db: seq<Study>, s: Study, sql: Dialect)
    requires TextIsRight(f, sql)
    ensures s in Studies(Eval(BaseQuery(f), db, sql)) <==> s in db && PassesBase(f, s)
  {
    StudiesOf(Eval(BaseQuery(f), db, sql), s);
    if s in Studies(Eval(BaseQuery(f), db, sql)) {
      var r :| r in Eval(BaseQuery(f), db, sql) && r.study == s;
      BaseRows(f, db, r, sql);
    }
    if s in db && PassesBase(f, s) {
      var r := BaseRowOf(f, db, s, sql);
    }
  }

  lemma BaseRowOf(f: StudyFilter, db: seq<Study>, s: Study, sql: Dialect) returns (r: Row)
    requires TextIsRight(f, sql)
    requires s in db && PassesBase(f, s)
    ensures r in Eval(BaseQuery(f), db, sql) && r.study == s
  {
    if f.tags == [] {
      r := Row(s, None, None);
    } else {
      var t :| t in s.tags && TagWanted(f, t);
      r := Row(s, Some(t), None);
    }
    BaseRows(f, db, r, sql);
  }

  // ------------------------------------------------------------ groups and permissions

  lemma GroupHolds(groups: seq<string>, r: Row, g: string, sql: Dialect)
    ensures Holds(GroupIn(groups), r.(group := Some(g)), sql) == Yes <==> g in groups
  {
    StrsMember(g, groups);
  }

  lemma OpenHolds(userId: int, r: Row, sql: Dialect)
    ensures Holds(OpenTo(userId), r, sql) == Yes <==> IsOpen(r.study, userId)
  {
  }

  lemma GroupAsks(s: Study, groups: seq<string>, sql: Dialect)
    ensures AsksGroup(GroupIn(groups), s, true, groups, sql)
  {
    forall r: Row, g: string | r.study == s
      ensures Holds(GroupIn(groups), r.(group := Some(g)), sql) == Yes <==> g in groups
    {
      GroupHolds(groups, r, g, sql);
    }
  }

  lemma BothAsk(s: Study, userId: int, groups: seq<string>, sql: Dialect)
    ensures AsksGroup(Both(OpenTo(userId), GroupIn(groups)), s, IsOpen(s, userId), groups, sql)
  {
    forall r: Row, g: string | r.study == s
      ensures Holds(Both(OpenTo(userId), GroupIn(groups)), r.(group := Some(g)), sql) == Yes <==>
              IsOpen(s, userId) && g in groups
    {
      BothHold(groups, userId, r, g, sql);
    }
  }

  lemma InGroups(f: StudyFilter, db: seq<Study>, groups: seq<string>, s: Study, sql: Dialect)
    requires TextIsRight(f, sql)
    ensures s in Studies(Eval(Where(JoinGroups(BaseQuery(f)), GroupIn(groups)), db, sql)) <==>
            s in db && PassesBase(f, s) && SharesGroup(s, groups)
  {
    BaseStudies(f, db, s, sql);
    GroupAsks(s, groups, sql);
    JoinedOnGroups(BaseQuery(f), GroupIn(groups), db, s, true, groups, sql);
  }

  lemma OpenInGroups(f: StudyFilter, db: seq<Study>, userId: int, s: Study, sql: Dialect)
    requires TextIsRight(f, sql)
    ensures s in Studies(Eval(Where(JoinGroups(BaseQuery(f)), Both(OpenTo(userId), GroupIn(f.groups))), db, sql)) <==>
            s in db && PassesBase(f, s) && IsOpen(s, userId) && SharesGroup(s, f.groups)
  {
    var c := Both(OpenTo(userId), GroupIn(f.groups));
    BaseStudies(f, db, s, sql);
    BothAsk(s, userId, f.groups, sql);
    JoinedOnGroups(BaseQuery(f), c, db, s, IsOpen(s, userId), f.groups, sql);
  }

  lemma BothHold(groups: seq<string>, userId: int, r: Row, g: string, sql: Dialect)
    ensures Holds(Both(OpenTo(userId), GroupIn(groups)), r.(group := Some(g)), sql) == Yes <==>
              IsOpen(r.study, userId) && g in groups
  {
    GroupHolds(groups, r, g, sql);
    OpenHolds(userId, r.(group := Some(g)), sql);
    BothMeans(OpenTo(userId), GroupIn(groups), r.(group := Some(g)), sql);
  }

  lemma BothMeans(a: Condition, b: Condition, r: Row, sql: Dialect)
    ensures Holds(Both(a, b), r, sql) == Yes <==> Holds(a, r, sql) == Yes && Holds(b, r, sql) == Yes
  {
  }

  lemma OpenStudies(f: StudyFilter, db: seq<Study>, userId: int, s: Study, sql: Dialect)
    requires TextIsRight(f, sql)
    ensures s in Studies(Eval(Where(BaseQuery(f), OpenTo(userId)), db, sql)) <==>
              s in db && PassesBase(f, s) && IsOpen(s, userId)
  {
    var q := BaseQuery(f);
    StudiesOf(Eval(Where(q, OpenTo(userId)), db, sql), s);
    StudiesOf(Eval(q, db, sql), s);
    BaseStudies(f, db, s, sql);
    forall r: Row ensures Holds(OpenTo(userId), r, sql) == Yes <==> IsOpen(r.study, userId) {
      OpenHolds(userId, r, sql);
    }
  }

  lemma UnionStudies(a: Query, b: Query, db: seq<Study>, s: Study, sql: Dialect)
    ensures s in Studies(Eval(Union(a, b), db, sql)) <==>
              s in Studies(Eval(a, db, sql)) || s in Studies(Eval(b, db, sql))
  {
    StudiesOfRows(Unique(Studies(Eval(a, db, sql)) + Studies(Eval(b, db, sql))));
  }

  lemma IntersectStudies(a: Query, b: Query, db: seq<Study>, s: Study, sql: Dialect)
    ensures s in Studies(Eval(Intersect(a, b), db, sql)) <==>
              s in Studies(Eval(a, db, sql)) && s in Studies(Eval(b, db, sql))
  {
    StudiesOfRows(Unique(Common(Studies(Eval(a, db, sql)), Studies(Eval(b, db, sql)))));
  }

  /** The built query, with its joins, intersections and unions over nullable columns, finds
      exactly the studies that pass the base filters, share a group with the group filter if there
      is one, and are visible to the user. */
  lemma SearchMeansPredicate(f: StudyFilter, db: seq<Study>, s: Study, sql: Dialect)
    requires TextIsRight(f, sql)
    ensures s in Studies(Eval(Search(f), db, sql)) <==>
            s in db && PassesBase(f, s) && PassesGroups(f, s) && Visible(f.access, s)
  {
    if f.access.isAdmin {
      AdminSearch(f, db, s, sql);
    } else if f.access.userId.Some? {
      NonAdminSearch(f, db, f.access.userId.value, s, sql);
    } else {
      NobodySearch(f, db, s, sql);
    }
  }

  lemma NobodySearch(f: StudyFilter, db: seq<Study>, s: Study, sql: Dialect)
    requires !f.access.isAdmin && f.access.userId.None?
    ensures Studies(Eval(Search(f), db, sql)) == []
  {
    NeverSelects(Rows(db), sql);
  }

  lemma AdminSearch(f: StudyFilter, db: seq<Study>, s: Study, sql: Dialect)
    requires TextIsRight(f, sql) && f.access.isAdmin
    ensures s in Studies(Eval(Search(f), db, sql)) <==> s in db && PassesBase(f, s) && PassesGroups(f, s)
  {
    if f.groups != [] {
      InGroups(f, db, f.groups, s, sql);
    } else {
      BaseStudies(f, db, s, sql);
    }
  }

  lemma NonAdminSearch(f: StudyFilter, db: seq<Study>, userId: int, s: Study, sql: Dialect)
    requires TextIsRight(f, sql)
    requires !f.access.isAdmin && f.access.userId == Some(userId)
    ensures s in Studies(Eval(Search(f), db, sql)) <==>
            s in db && PassesBase(f, s) && PassesGroups(f, s)
                && (IsOpen(s, userId) || SharesGroup(s, f.access.userGroups))
  {
    var q := BaseQuery(f);
    var q1 := Where(JoinGroups(q), GroupIn(f.access.userGroups));
    InGroups(f, db, f.access.userGroups, s, sql);
    if f.groups != [] {
      var q2 := Where(JoinGroups(q), GroupIn(f.groups));
      var q3 := Where(JoinGroups(q), Both(OpenTo(userId), GroupIn(f.groups)));
      InGroups(f, db, f.groups, s, sql);
      OpenInGroups(f, db, userId, s, sql);
      IntersectStudies(q1, q2, db, s, sql);
      UnionStudies(Intersect(q1, q2), q3, db, s, sql);
    } else {
      OpenStudies(f, db, userId, s, sql);
      UnionStudies(q1, Where(q, OpenTo(userId)), db, s, sql);
    }
  }

  lemma UnionHasNoRepeats(a: Query, b: Query, db: seq<Study>, sql: Dialect)
    ensures Distinctive(Studies(Eval(Union(a, b), db, sql)))
  {
    StudiesOfRows(Unique(Studies(Eval(a, db, sql)) + Studies(Eval(b, db, sql))));
  }

  /** For anybody but an admin, the query gives every study once, whatever its joins repeat. */
  lemma NonAdminSearchHasNoRepeats(f: StudyFilter, db: seq<Study>, sql: Dialect)
    requires !f.access.isAdmin
    ensures Distinctive(Studies(Eval(Search(f), db, sql)))
  {
    if f.access.userId.Some? {
      var q := Search(f);
      assert q.Union?;
      UnionHasNoRepeats(q.left, q.right, db, sql);
    } else {
      NeverSelects(Rows(db), sql);
    }
  }

  // ------------------------------------------- what the database compares otherwise than Python

  /** A search by name, folder and tags alone, by an admin. */
  function ByText(name: string, folder: string, tags: seq<string>, upper: string -> string): StudyFilter {
    NoFilter(AccessPermissions(true, None, [])).(name := name, folder := folder, tags := tags, upper := upper)
  }

  /** The search lists `s` exactly when it is in the table and passes the plain predicate. */
  predicate FoundRightly(f: StudyFilter, db: seq<Study>, s: Study, sql: Dialect) {
    s in Studies(Eval(Search(f), db, sql)) <==>
    s in db && PassesBase(f, s) && PassesGroups(f, s) && Visible(f.access, s)
  }

  /** ... on all data. */
  ghost predicate FindsRight(f: StudyFilter, sql: Dialect) {
    forall db: seq<Study>, s: Study :: FoundRightly(f, db, s, sql)
  }

  /** A study with the name and the folder that are asked for, and the given tags. */
  function Sought(f: StudyFilter, tags: seq<string>): Study {
    Study("id", VariantStudy, Some(f.name), None, Some(f.folder), None, None, None, [], tags)
  }

  lemma SoughtPasses(f: StudyFilter, tags: seq<string>)
    requires f == ByText(f.name, f.folder, f.tags, f.upper)
    ensures PassesBeforeTags(f, Sought(f, tags)) && PassesAfterTags(f, Sought(f, tags))
  {
    assert Lower(f.name)[0..] == Lower(f.name);
  }

  lemma OwnTagsPass(f: StudyFilter, s: Study)
    requires s.tags == f.tags
    ensures PassesTags(f, s)
  {
    if f.tags != [] {
      assert Uppers(f)[0] == f.upper(f.tags[0]);
      assert TagWanted(f, s.tags[0]);
    }
  }

  /** On SQLite a study whose name or folder has a special character is not found by its own name,
      folder and tags. */
  lemma SpecialSearchMisses(f: StudyFilter, sql: Dialect)
    requires f == ByText(f.name, f.folder, f.tags, f.upper) && sql.SQLite? && (!Plain(f.name) || !Plain(f.folder))
    ensures !FoundRightly(f, [Sought(f, f.tags)], Sought(f, f.tags), sql)
  {
    var s := Sought(f, f.tags);
    SoughtPasses(f, f.tags);
    OwnTagsPass(f, s);
    StudiesOf(Eval(Search(f), [s], sql), s);
    if s in Studies(Eval(Search(f), [s], sql)) {
      var r :| r in Eval(Search(f), [s], sql) && r.study == s;
      FilteredMembers(TagFilter(f, Filtered(Table, FiltersBeforeTags(f))), FiltersAfterTags(f), [s], r, sql);
      SpecialConditionFails(f, r, sql);
    }
    assert s in [s] && PassesGroups(f, s) && Visible(f.access, s);
  }

  lemma SpecialConditionFails(f: StudyFilter, r: Row, sql: Dialect)
    requires sql.SQLite? && (!Plain(f.name) || !Plain(f.folder))
    requires r.study.name == Some(f.name) && r.study.folder == Some(f.folder)
    ensures !AllHold(FiltersAfterTags(f), r, sql)
  {
    WhenHolds(f.name != "", Matching(Name, NamePattern(f.name)), r, sql);
    WhenHolds(f.folder != "", Matching(Folder, FolderPattern(f.folder)), r, sql);
    if !Plain(f.name) {
      SpecialNameMisses(f.name);
    } else {
      SpecialFolderMisses(f.folder);
    }
    AfterTagsParts(f, r, sql);
  }

  lemma AfterTagsParts(f: StudyFilter, r: Row, sql: Dialect)
    ensures AllHold(FiltersAfterTags(f), r, sql) ==>
            && AllHold(When(f.name != "", Matching(Name, NamePattern(f.name))), r, sql)
            && AllHold(When(f.folder != "", Matching(Folder, FolderPattern(f.folder))), r, sql)
  {
    var a: seq<Condition> := if f.archived.Some? then [Equals(Archived, Flag(f.archived.value))] else [];
    SixHold(a, When(f.name != "", Matching(Name, NamePattern(f.name))),
            When(f.folder != "", Matching(Folder, FolderPattern(f.folder))),
            When(f.workspace != "", Equals(RawWorkspace, Str(f.workspace))), VariantFilter(f),
            When(f.versions != [], OneOf(Version, Strs(f.versions))), r, sql);
  }

  /** Where the two upper-case functions disagree on whether `t` is asked for, a study with this one
      tag is missed, or found without being asked for. */
  lemma ForeignCaseMisses(f: StudyFilter, t: string, sql: Dialect)
    requires f == ByText(f.name, f.folder, f.tags, f.upper) && LikeIsRight(f, sql)
    requires TagFound(f, t, sql) != TagWanted(f, t)
    ensures !FoundRightly(f, [Sought(f, [t])], Sought(f, [t]), sql)
  {
    var s := Sought(f, [t]);
    SoughtPasses(f, [t]);
    assert f.tags != [];
    assert PassesTags(f, s) <==> TagWanted(f, t) by {
      assert t in s.tags;
    }
    OneTagFound(f, s, t, sql);
    assert s in [s] && PassesGroups(f, s) && Visible(f.access, s);
  }

  lemma OneTagFound(f: StudyFilter, s: Study, t: string, sql: Dialect)
    requires f == ByText(f.name, f.folder, f.tags, f.upper) && LikeIsRight(f, sql) && f.tags != []
    requires s == Sought(f, [t])
    ensures s in Studies(Eval(Search(f), [s], sql)) <==> TagFound(f, t, sql)
  {
    assert Search(f) == BaseQuery(f);
    StudiesOf(Eval(BaseQuery(f), [s], sql), s);
    if TagFound(f, t, sql) {
      SoughtPasses(f, [t]);
      BaseRows(f, [s], Row(s, Some(t), None), sql);
    }
    if s in Studies(Eval(BaseQuery(f), [s], sql)) {
      var r :| r in Eval(BaseQuery(f), [s], sql) && r.study == s;
      BaseRows(f, [s], r, sql);
    }
  }

  lemma SearchFindsRight(f: StudyFilter, sql: Dialect)
    requires TextIsRight(f, sql)
    ensures FindsRight(f, sql)
  {
    forall db: seq<Study>, s: Study ensures FoundRightly(f, db, s, sql) {
      SearchMeansPredicate(f, db, s, sql);
    }
  }

  /** The condition is exact: the search by name, folder and tags is right on all data exactly when
      the database escapes with a backslash or there is nothing to escape, and it agrees with Python
      on the labels that are asked for. */
  lemma WhereTextIsRight(name: string, folder: string, tags: seq<string>, upper: string -> string, sql: Dialect)
    ensures var f := ByText(name, folder, tags, upper); FindsRight(f, sql) <==> TextIsRight(f, sql)
  {
    var f := ByText(name, folder, tags, upper);
    if TextIsRight(f, sql) {
      SearchFindsRight(f, sql);
    } else if !LikeIsRight(f, sql) {
      SpecialSearchMisses(f, sql);
    } else {
      var t :| TagFound(f, t, sql) != TagWanted(f, t);
      ForeignCaseMisses(f, t, sql);
    }
  }

  /** On SQLite a study tagged with an accented label is not found by that label. */
  lemma AccentedTagIsMissed()
    ensures var f, sql := ByText("", "", ["\U{e9}"], PythonUpper), SQLite(Upper);
            var s := Sought(f, ["\U{e9}"]);
            PassesBase(f, s) && s !in Studies(Eval(Search(f), [s], sql))
  {
    var f, sql := ByText("", "", ["\U{e9}"], PythonUpper), SQLite(Upper);
    var s := Sought(f, ["\U{e9}"]);
    SoughtPasses(f, s.tags);
    OwnTagsPass(f, s);
    OneTagFound(f, s, "\U{e9}", sql);
    assert Upper("\U{e9}")[0] == '\U{e9}' && PythonUpper("\U{e9}")[0] == '\U{c9}';
    assert Uppers(f) == [PythonUpper("\U{e9}")];
  }
}
