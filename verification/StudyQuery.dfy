/** The part of SQL that the study search uses: three-valued conditions over nullable columns,
    joins that repeat rows, and set operations that do not. */
module StudyQuery {
  import opened Options
  import opened Text
  import opened Permissions
  import opened LikePattern

  // -------------------------------------------------------------------------- tables

  const DEFAULT_WORKSPACE_NAME := "default"

  /** The `type` discriminator, with the columns of the joined `rawstudy` table. */
  datatype Kind = AnyStudy | RawStudy(missing: Option<int>, workspace: string) | VariantStudy

  /** A study row with the groups and the tag labels that the link tables give it. */
  datatype Study = Study(
    id: string,
    kind: Kind,
    name: Option<string>,
    version: Option<string>,
    folder: Option<string>,
    archived: Option<bool>,
    publicMode: Option<PublicMode>,
    ownerId: Option<int>,
    groups: seq<string>,
    tags: seq<string>)

  predicate Distinctive<T(==)>(s: seq<T>) {
    forall i, j :: 0 <= i < j < |s| ==> s[i] != s[j]
  }

  /** The primary keys of the study and link tables. */
  ghost predicate Keys(db: seq<Study>) {
    && (forall i, j :: 0 <= i < j < |db| ==> db[i].id != db[j].id)
    && (forall s :: s in db ==> Distinctive(s.groups) && Distinctive(s.tags))
  }

  // ---------------------------------------------------------------------- conditions

  /** The databases that are supported, each with the letters its `upper` knows; the query names no
      escape character for LIKE, so the database's own default applies. */
  datatype Dialect = PostgreSQL(upper: string -> string) | SQLite(upper: string -> string)

  datatype Value = Null | Str(s: string) | Num(n: int) | Flag(b: bool) | Mode(m: PublicMode)

  datatype Column =
    | Id | Type | Name | Version | Folder | Archived | PublicModeColumn | OwnerId
    | RawMissing | RawWorkspace | UpperTagLabel | GroupId

  /** A row of a query: a study, and the tag and the group it was joined with. */
  datatype Row = Row(study: Study, tag: Option<string>, group: Option<string>)

  function StrOrNull(s: Option<string>): Value {
    if s.Some? then Str(s.value) else Null
  }

  function Get(r: Row, c: Column, sql: Dialect): Value {
    var s := r.study;
    match c
    case Id => Str(s.id)
    case Type =>
      Str(match s.kind case AnyStudy => "study" case RawStudy(_, _) => "rawstudy" case VariantStudy => "variantstudy")
    case Name => StrOrNull(s.name)
    case Version => StrOrNull(s.version)
    case Folder => StrOrNull(s.folder)
    case Archived => if s.archived.Some? then Flag(s.archived.value) else Null
    case PublicModeColumn => if s.publicMode.Some? then Mode(s.publicMode.value) else Null
    case OwnerId => if s.ownerId.Some? then Num(s.ownerId.value) else Null
    case RawMissing => if s.kind.RawStudy? && s.kind.missing.Some? then Num(s.kind.missing.value) else Null
    case RawWorkspace => if s.kind.RawStudy? then Str(s.kind.workspace) else Null
    case UpperTagLabel => if r.tag.Some? then Str(sql.upper(r.tag.value)) else Null
    case GroupId => StrOrNull(r.group)
  }

  function DefaultEscape(sql: Dialect): Option<char> {
    if sql.PostgreSQL? then Some(BACKSLASH) else None
  }

  datatype Truth = Yes | No | Unknown

  function Known(b: bool): Truth {
    if b then Yes else No
  }

  datatype Condition =
    | IsNull(col: Column)
    | Equals(col: Column, value: Value)
    | Differs(col: Column, value: Value)
    | OneOf(col: Column, values: seq<Value>)
    | Matching(col: Column, pattern: string)
    | Either(left: Condition, right: Condition)
    | Both(left: Condition, right: Condition)
    | Negated(inner: Condition)
    | Never

  function Holds(c: Condition, r: Row, sql: Dialect): Truth {
    match c
    case IsNull(col) => Known(Get(r, col, sql) == Null)
    case Equals(col, v) => if Get(r, col, sql) == Null || v == Null then Unknown else Known(Get(r, col, sql) == v)
    case Differs(col, v) => if Get(r, col, sql) == Null || v == Null then Unknown else Known(Get(r, col, sql) != v)
    case OneOf(col, vs) =>
      if vs == [] then No else if Get(r, col, sql) == Null then Unknown else Known(Get(r, col, sql) in vs)
    case Matching(col, p) =>
      var v := Get(r, col, sql);
      if v.Str? then Known(ILike(p, v.s, DefaultEscape(sql))) else Unknown
    case Either(a, b) =>
      if Holds(a, r, sql) == Yes || Holds(b, r, sql) == Yes then Yes
      else if Holds(a, r, sql) == No && Holds(b, r, sql) == No then No else Unknown
    case Both(a, b) =>
      if Holds(a, r, sql) == No || Holds(b, r, sql) == No then No
      else if Holds(a, r, sql) == Yes && Holds(b, r, sql) == Yes then Yes else Unknown
    case Negated(a) => if Holds(a, r, sql) == Yes then No else if Holds(a, r, sql) == No then Yes else Unknown
    case Never => No
  }

  /** A comparison with NULL is neither true nor false; any other is one of them, and so is its
      opposite. */
  lemma NullComparesUnknown(col: Column, v: Value, r: Row, sql: Dialect)
    ensures Get(r, col, sql) == Null || v == Null ==>
              Holds(Equals(col, v), r, sql) == Unknown && Holds(Differs(col, v), r, sql) == Unknown
    ensures Get(r, col, sql) != Null && v != Null ==>
              && (Holds(Equals(col, v), r, sql) == Yes <==> Get(r, col, sql) == v)
              && (Holds(Equals(col, v), r, sql) == No <==> Get(r, col, sql) != v)
              && Holds(Differs(col, v), r, sql) == Holds(Negated(Equals(col, v)), r, sql)
  {
  }

  /** The connectives: negation swaps true and false, "or" is true when a side is and false when both
      are, and "and" is its dual. */
  lemma ThreeValued(a: Condition, b: Condition, r: Row, sql: Dialect)
    ensures Holds(Negated(a), r, sql) == Yes <==> Holds(a, r, sql) == No
    ensures Holds(Negated(a), r, sql) == No <==> Holds(a, r, sql) == Yes
    ensures Holds(Either(a, b), r, sql) == Yes <==> Holds(a, r, sql) == Yes || Holds(b, r, sql) == Yes
    ensures Holds(Either(a, b), r, sql) == No <==> Holds(a, r, sql) == No && Holds(b, r, sql) == No
    ensures Holds(Negated(Either(a, b)), r, sql) == Holds(Both(Negated(a), Negated(b)), r, sql)
  {
  }

  // ------------------------------------------------------------------------- queries

  datatype Query =
    | Table
    | Where(from: Query, condition: Condition)
    | JoinTags(from: Query)
    | JoinGroups(from: Query)
    | Union(left: Query, right: Query)
    | Intersect(left: Query, right: Query)

  function Rows(studies: seq<Study>): seq<Row> {
    seq(|studies|, i requires 0 <= i < |studies| => Row(studies[i], None, None))
  }

  function Studies(rows: seq<Row>): seq<Study> {
    seq(|rows|, i requires 0 <= i < |rows| => rows[i].study)
  }

  function Select(rows: seq<Row>, c: Condition, sql: Dialect): (out: seq<Row>)
    ensures forall r :: r in out <==> r in rows && Holds(c, r, sql) == Yes
  {
    if rows == [] then []
    else (if Holds(c, rows[0], sql) == Yes then [rows[0]] else []) + Select(rows[1..], c, sql)
  }

  function PerTag(r: Row): seq<Row> {
    seq(|r.study.tags|, i requires 0 <= i < |r.study.tags| => r.(tag := Some(r.study.tags[i])))
  }

  function PerGroup(r: Row): seq<Row> {
    seq(|r.study.groups|, i requires 0 <= i < |r.study.groups| => r.(group := Some(r.study.groups[i])))
  }

  function TagJoin(rows: seq<Row>): (out: seq<Row>)
    ensures forall x :: x in out <==> exists r :: r in rows && x in PerTag(r)
  {
    if rows == [] then [] else PerTag(rows[0]) + TagJoin(rows[1..])
  }

  function GroupJoin(rows: seq<Row>): (out: seq<Row>)
    ensures forall x :: x in out <==> exists r :: r in rows && x in PerGroup(r)
  {
    if rows == [] then [] else PerGroup(rows[0]) + GroupJoin(rows[1..])
  }

  /** First occurrences only. */
  function Unique(s: seq<Study>): (u: seq<Study>)
    ensures Distinctive(u) && |u| <= |s|
    ensures forall x :: x in u <==> x in s
    ensures Distinctive(s) <==> |u| == |s|
  {
    if s == [] then []
    else
      var before := Unique(s[..|s| - 1]);
      var last := s[|s| - 1];
      assert s == s[..|s| - 1] + [last];
      if last in before then before else before + [last]
  }

  function Common(a: seq<Study>, b: seq<Study>): (c: seq<Study>)
    ensures forall x :: x in c <==> x in a && x in b
  {
    if a == [] then [] else (if a[0] in b then [a[0]] else []) + Common(a[1..], b)
  }

  /** The rows of a query, in some order the database picks; UNION and INTERSECT drop repetitions. */
  function Eval(q: Query, db: seq<Study>, sql: Dialect): seq<Row> {
    match q
    case Table => Rows(db)
    case Where(from, c) => Select(Eval(from, db, sql), c, sql)
    case JoinTags(from) => TagJoin(Eval(from, db, sql))
    case JoinGroups(from) => GroupJoin(Eval(from, db, sql))
    case Union(a, b) => Rows(Unique(Studies(Eval(a, db, sql)) + Studies(Eval(b, db, sql))))
    case Intersect(a, b) => Rows(Unique(Common(Studies(Eval(a, db, sql)), Studies(Eval(b, db, sql)))))
  }

  // ------------------------------------------------------------ reading off the rows

  lemma StudiesOf(rows: seq<Row>, s: Study)
    ensures s in Studies(rows) <==> exists r :: r in rows && r.study == s
  {
    if s in Studies(rows) {
      var i :| 0 <= i < |rows| && Studies(rows)[i] == s;
      assert rows[i] in rows;
    }
    if r :| r in rows && r.study == s {
      var i :| 0 <= i < |rows| && rows[i] == r;
      assert Studies(rows)[i] == s;
    }
  }

  lemma StudiesOfRows(studies: seq<Study>)
    ensures Studies(Rows(studies)) == studies
  {
  }

  /** Successive filters. */
  function Filtered(q: Query, cs: seq<Condition>): Query {
    if cs == [] then q else Where(Filtered(q, cs[..|cs| - 1]), cs[|cs| - 1])
  }

  predicate AllHold(cs: seq<Condition>, r: Row, sql: Dialect) {
    forall i :: 0 <= i < |cs| ==> Holds(cs[i], r, sql) == Yes
  }

  lemma AllHoldLast(cs: seq<Condition>, r: Row, sql: Dialect)
    requires cs != []
    ensures AllHold(cs, r, sql) <==> AllHold(cs[..|cs| - 1], r, sql) && Holds(cs[|cs| - 1], r, sql) == Yes
  {
  }

  lemma {:induction false} FilteredMembers(q: Query, cs: seq<Condition>, db: seq<Study>, r: Row, sql: Dialect)
    ensures r in Eval(Filtered(q, cs), db, sql) <==> r in Eval(q, db, sql) && AllHold(cs, r, sql)
    decreases |cs|
  {
    if cs != [] {
      var n := |cs| - 1;
      FilteredMembers(q, cs[..n], db, r, sql);
      AllHoldLast(cs, r, sql);
      assert Eval(Filtered(q, cs), db, sql) == Select(Eval(Filtered(q, cs[..n]), db, sql), cs[n], sql);
    }
  }

  lemma GroupJoinMember(rows: seq<Row>, r: Row, g: string)
    requires r in rows && g in r.study.groups
    ensures r.(group := Some(g)) in GroupJoin(rows)
  {
    var i :| 0 <= i < |r.study.groups| && r.study.groups[i] == g;
    assert PerGroup(r)[i] == r.(group := Some(g));
  }

  lemma GroupJoinOrigin(rows: seq<Row>, x: Row) returns (r: Row, g: string)
    requires x in GroupJoin(rows)
    ensures r in rows && g in r.study.groups && x == r.(group := Some(g))
  {
    r :| r in rows && x in PerGroup(r);
    var i :| 0 <= i < |r.study.groups| && x == r.(group := Some(r.study.groups[i]));
    g := r.study.groups[i];
  }

  lemma GroupJoinSelects(rows: seq<Row>, c: Condition, s: Study, r: Row, g: string, sql: Dialect)
    requires r in rows && r.study == s && g in s.groups && Holds(c, r.(group := Some(g)), sql) == Yes
    ensures s in Studies(Select(GroupJoin(rows), c, sql))
  {
    GroupJoinMember(rows, r, g);
    StudiesOf(Select(GroupJoin(rows), c, sql), s);
  }

  lemma GroupSelectOrigin(rows: seq<Row>, c: Condition, s: Study, sql: Dialect) returns (r: Row, g: string)
    requires s in Studies(Select(GroupJoin(rows), c, sql))
    ensures r in rows && r.study == s && g in s.groups && Holds(c, r.(group := Some(g)), sql) == Yes
  {
    StudiesOf(Select(GroupJoin(rows), c, sql), s);
    var x :| x in Select(GroupJoin(rows), c, sql) && x.study == s;
    r, g := GroupJoinOrigin(rows, x);
  }

  /** On rows of `s` the condition asks `asked` of the study and membership in `groups` of the group. */
  ghost predicate AsksGroup(c: Condition, s: Study, asked: bool, groups: seq<string>, sql: Dialect) {
    forall r: Row, g: string :: r.study == s ==>
      (Holds(c, r.(group := Some(g)), sql) == Yes <==> asked && g in groups)
  }

  lemma AskedOf(c: Condition, r: Row, g: string, asked: bool, groups: seq<string>, sql: Dialect)
    requires AsksGroup(c, r.study, asked, groups, sql)
    ensures Holds(c, r.(group := Some(g)), sql) == Yes <==> asked && g in groups
  {
  }

  lemma SelectedAnswers(rows: seq<Row>, c: Condition, s: Study, asked: bool, groups: seq<string>, sql: Dialect)
    requires AsksGroup(c, s, asked, groups, sql) && s in Studies(Select(GroupJoin(rows), c, sql))
    ensures s in Studies(rows) && asked && exists g :: g in s.groups && g in groups
  {
    var r, g := GroupSelectOrigin(rows, c, s, sql);
    AskedOf(c, r, g, asked, groups, sql);
    StudiesOf(rows, s);
  }

  lemma AnswersSelected(rows: seq<Row>, c: Condition, s: Study, asked: bool, groups: seq<string>, sql: Dialect)
    requires AsksGroup(c, s, asked, groups, sql)
    requires s in Studies(rows) && asked && exists g :: g in s.groups && g in groups
    ensures s in Studies(Select(GroupJoin(rows), c, sql))
  {
    StudiesOf(rows, s);
    var r :| r in rows && r.study == s;
    var g :| g in s.groups && g in groups;
    AskedOf(c, r, g, asked, groups, sql);
    GroupJoinSelects(rows, c, s, r, g, sql);
  }

  /** A join with groups under a condition that asks something of the study and something of the
      group finds the studies that answer and have such a group. */
  lemma JoinedOnGroups(q: Query, c: Condition, db: seq<Study>, s: Study, asked: bool, groups: seq<string>, sql: Dialect)
    requires AsksGroup(c, s, asked, groups, sql)
    ensures s in Studies(Eval(Where(JoinGroups(q), c), db, sql)) <==>
            s in Studies(Eval(q, db, sql)) && asked && exists g :: g in s.groups && g in groups
  {
    var rows := Eval(q, db, sql);
    if s in Studies(Select(GroupJoin(rows), c, sql)) {
      SelectedAnswers(rows, c, s, asked, groups, sql);
    }
    if s in Studies(rows) && asked && exists g :: g in s.groups && g in groups {
      AnswersSelected(rows, c, s, asked, groups, sql);
    }
  }

  lemma {:induction false} NeverSelects(rows: seq<Row>, sql: Dialect)
    ensures Select(rows, Never, sql) == []
  {
    if rows != [] {
      NeverSelects(rows[1..], sql);
    }
  }

  lemma TagRowOf(rows: seq<Row>, x: Row)
    ensures x in TagJoin(rows) <==> exists r, t :: r in rows && t in r.study.tags && x == r.(tag := Some(t))
  {
    if x in TagJoin(rows) {
      var r :| r in rows && x in PerTag(r);
      var i :| 0 <= i < |r.study.tags| && x == r.(tag := Some(r.study.tags[i]));
      assert r.study.tags[i] in r.study.tags;
    }
    if r, t :| r in rows && t in r.study.tags && x == r.(tag := Some(t)) {
      var i :| 0 <= i < |r.study.tags| && r.study.tags[i] == t;
      assert PerTag(r)[i] == x;
    }
  }

  lemma JoinedOnTag(q: Query, c: Condition, db: seq<Study>, x: Row, sql: Dialect)
    ensures x in Eval(Where(JoinTags(q), c), db, sql) <==>
            Holds(c, x, sql) == Yes && exists r, t ::
                r in Eval(q, db, sql) && t in r.study.tags && x == r.(tag := Some(t))
  {
    TagRowOf(Eval(q, db, sql), x);
  }
}
