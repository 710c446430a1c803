/** How often a query gives the same study: `get_all` shows it once, `count_studies` counts rows. */
module StudySearchCount {
  import opened Options
  import opened Sequences
  import opened Text
  import opened StudyQuery
  import opened StudySearch

  /** The number of rows of a study. */
  function Times(rows: seq<Row>, s: Study): nat {
    if rows == [] then 0 else (if rows[0].study == s then 1 else 0) + Times(rows[1..], s)
  }

  /** What `get_all` lists, in the order of the query, and what `count_studies` returns. */
  function Listing(f: StudyFilter, db: seq<Study>, sql: Dialect): seq<Study> {
    Unique(Studies(Eval(Search(f), db, sql)))
  }

  function CountStudies(f: StudyFilter, db: seq<Study>, sql: Dialect): nat {
    |Eval(Search(f), db, sql)|
  }

  function Wanted(tags: seq<string>, f: StudyFilter): nat {
    if tags == [] then 0 else (if TagWanted(f, tags[0]) then 1 else 0) + Wanted(tags[1..], f)
  }

  function Shared(groups: seq<string>, wanted: seq<string>): nat {
    if groups == [] then 0 else (if groups[0] in wanted then 1 else 0) + Shared(groups[1..], wanted)
  }

  /** The number of (tag, group) pairs through which the joins reach a study. */
  function Ways(f: StudyFilter, s: Study): nat {
    TagWays(f, s) * (if f.groups == [] then 1 else Shared(s.groups, f.groups))
  }

  /** `k` added up `n` times. */
  function Copies(n: nat, k: nat): nat {
    if n == 0 then 0 else k + Copies(n - 1, k)
  }

  lemma {:induction false} CopiesIsProduct(n: nat, k: nat)
    ensures Copies(n, k) == n * k
  {
    if n > 0 {
      CopiesIsProduct(n - 1, k);
    }
  }

  lemma CopiesOfOne(n: nat)
    ensures Copies(n, 1) == n
  {
    CopiesIsProduct(n, 1);
  }

  // ------------------------------------------------------------------- concatenations

  lemma {:induction false} TimesConcat(a: seq<Row>, b: seq<Row>, s: Study)
    ensures Times(a + b, s) == Times(a, s) + Times(b, s)
  {
    if a == [] {
      assert a + b == b;
    } else {
      assert (a + b)[1..] == a[1..] + b;
      TimesConcat(a[1..], b, s);
    }
  }

  lemma SelectStep(r: Row, rows: seq<Row>, c: Condition, sql: Dialect)
    ensures Select([r] + rows, c, sql) == (if Holds(c, r, sql) == Yes then [r] else []) + Select(rows, c, sql)
  {
    assert ([r] + rows)[1..] == rows;
  }

  lemma {:induction false} SelectConcat(a: seq<Row>, b: seq<Row>, c: Condition, sql: Dialect)
    ensures Select(a + b, c, sql) == Select(a, c, sql) + Select(b, c, sql)
    decreases |a|
  {
    if a == [] {
      assert a + b == b;
    } else {
      assert a + b == [a[0]] + (a[1..] + b) && a == [a[0]] + a[1..];
      SelectStep(a[0], a[1..] + b, c, sql);
      SelectStep(a[0], a[1..], c, sql);
      SelectConcat(a[1..], b, c, sql);
      Associative(if Holds(c, a[0], sql) == Yes then [a[0]] else [], Select(a[1..], c, sql), Select(b, c, sql));
    }
  }

  lemma TimesSelectConcat(a: seq<Row>, b: seq<Row>, c: Condition, s: Study, sql: Dialect)
    ensures Times(Select(a + b, c, sql), s) == Times(Select(a, c, sql), s) + Times(Select(b, c, sql), s)
  {
    SelectConcat(a, b, c, sql);
    TimesConcat(Select(a, c, sql), Select(b, c, sql), s);
  }

  /** One pass with all the conditions. */
  function SelectAll(rows: seq<Row>, cs: seq<Condition>, sql: Dialect): seq<Row> {
    if rows == [] then []
    else (if AllHold(cs, rows[0], sql) then [rows[0]] else []) + SelectAll(rows[1..], cs, sql)
  }

  lemma {:induction false} SelectMore(rows: seq<Row>, cs: seq<Condition>, sql: Dialect)
    requires cs != []
    ensures Select(SelectAll(rows, cs[..|cs| - 1], sql), cs[|cs| - 1], sql) == SelectAll(rows, cs, sql)
    decreases |rows|
  {
    if rows != [] {
      var before := cs[..|cs| - 1];
      SelectMore(rows[1..], cs, sql);
      AllHoldLast(cs, rows[0], sql);
      var first := if AllHold(before, rows[0], sql) then [rows[0]] else [];
      SelectConcat(first, SelectAll(rows[1..], before, sql), cs[|cs| - 1], sql);
    }
  }

  lemma {:induction false} SelectNone(rows: seq<Row>, sql: Dialect)
    ensures SelectAll(rows, [], sql) == rows
  {
    if rows != [] {
      SelectNone(rows[1..], sql);
    }
  }

  lemma {:induction false} FilteredAtOnce(q: Query, cs: seq<Condition>, db: seq<Study>, sql: Dialect)
    ensures Eval(Filtered(q, cs), db, sql) == SelectAll(Eval(q, db, sql), cs, sql)
    decreases |cs|
  {
    if cs == [] {
      SelectNone(Eval(q, db, sql), sql);
    } else {
      FilteredAtOnce(q, cs[..|cs| - 1], db, sql);
      SelectMore(Eval(q, db, sql), cs, sql);
    }
  }

  lemma {:induction false} TimesSelected(rows: seq<Row>, cs: seq<Condition>, s: Study, keep: bool, sql: Dialect)
    requires forall r: Row :: r.study == s ==> (AllHold(cs, r, sql) <==> keep)
    ensures Times(SelectAll(rows, cs, sql), s) == if keep then Times(rows, s) else 0
  {
    if rows != [] {
      TimesSelected(rows[1..], cs, s, keep, sql);
      TimesConcat(if AllHold(cs, rows[0], sql) then [rows[0]] else [], SelectAll(rows[1..], cs, sql), s);
    }
  }

  // --------------------------------------------------------------------------- joins

  function Tagged(r: Row, tags: seq<string>): seq<Row> {
    seq(|tags|, i requires 0 <= i < |tags| => r.(tag := Some(tags[i])))
  }

  function Grouped(r: Row, groups: seq<string>): seq<Row> {
    seq(|groups|, i requires 0 <= i < |groups| => r.(group := Some(groups[i])))
  }

  function WantedTag(f: StudyFilter): Condition {
    OneOf(UpperTagLabel, Strs(Uppers(f)))
  }

  lemma WantedHolds(f: StudyFilter, r: Row, t: string, sql: Dialect)
    requires CaseIsRight(f, sql)
    ensures Holds(WantedTag(f), r.(tag := Some(t)), sql) == Yes <==> TagWanted(f, t)
  {
    TagHolds(f, r.(tag := Some(t)), sql);
  }

  lemma {:induction false} TimesTagged(f: StudyFilter, r: Row, tags: seq<string>, s: Study, sql: Dialect)
    requires CaseIsRight(f, sql)
    ensures Times(Select(Tagged(r, tags), WantedTag(f), sql), s) == if r.study == s then Wanted(tags, f) else 0
    decreases |tags|
  {
    if tags != [] {
      var first := r.(tag := Some(tags[0]));
      assert Tagged(r, tags)[0] == first && Tagged(r, tags)[1..] == Tagged(r, tags[1..]);
      WantedHolds(f, r, tags[0], sql);
      TimesTagged(f, r, tags[1..], s, sql);
      TimesConcat(if TagWanted(f, tags[0]) then [first] else [], Select(Tagged(r, tags[1..]), WantedTag(f), sql), s);
    }
  }

  lemma {:induction false} TimesGrouped(groups: seq<string>, r: Row, has: seq<string>, s: Study, sql: Dialect)
    ensures Times(Select(Grouped(r, has), GroupIn(groups), sql), s) == if r.study == s then Shared(has, groups) else 0
    decreases |has|
  {
    if has != [] {
      var first := r.(group := Some(has[0]));
      assert Grouped(r, has)[0] == first && Grouped(r, has)[1..] == Grouped(r, has[1..]);
      GroupHolds(groups, r, has[0], sql);
      TimesGrouped(groups, r, has[1..], s, sql);
      TimesConcat(if has[0] in groups then [first] else [], Select(Grouped(r, has[1..]), GroupIn(groups), sql), s);
    }
  }

  lemma OneMore(rows: seq<Row>, s: Study, k: nat)
    requires rows != []
    ensures Copies(Times(rows, s), k) == (if rows[0].study == s then k else 0) + Copies(Times(rows[1..], s), k)
  {
  }

  lemma {:induction false} TimesTagJoin(f: StudyFilter, rows: seq<Row>, s: Study, sql: Dialect)
    requires CaseIsRight(f, sql)
    ensures Times(Select(TagJoin(rows), WantedTag(f), sql), s) == Copies(Times(rows, s), Wanted(s.tags, f))
    decreases |rows|
  {
    if rows != [] {
      var head := PerTag(rows[0]);
      assert head == Tagged(rows[0], rows[0].study.tags);
      TimesSelectConcat(head, TagJoin(rows[1..]), WantedTag(f), s, sql);
      TimesTagged(f, rows[0], rows[0].study.tags, s, sql);
      TimesTagJoin(f, rows[1..], s, sql);
      OneMore(rows, s, Wanted(s.tags, f));
    }
  }

  lemma {:induction false} TimesGroupJoin(groups: seq<string>, rows: seq<Row>, s: Study, sql: Dialect)
    ensures Times(Select(GroupJoin(rows), GroupIn(groups), sql), s) == Copies(Times(rows, s), Shared(s.groups, groups))
    decreases |rows|
  {
    if rows != [] {
      var head := PerGroup(rows[0]);
      assert head == Grouped(rows[0], rows[0].study.groups);
      TimesSelectConcat(head, GroupJoin(rows[1..]), GroupIn(groups), s, sql);
      TimesGrouped(groups, rows[0], rows[0].study.groups, s, sql);
      TimesGroupJoin(groups, rows[1..], s, sql);
      OneMore(rows, s, Shared(s.groups, groups));
    }
  }

  // ---------------------------------------------------------------------- the search

  lemma {:induction false} TimesTable(db: seq<Study>, s: Study)
    requires forall i, j :: 0 <= i < j < |db| ==> db[i].id != db[j].id
    ensures Times(Rows(db), s) == if s in db then 1 else 0
    decreases |db|
  {
    if db != [] {
      assert Rows(db)[1..] == Rows(db[1..]);
      TimesTable(db[1..], s);
    }
  }

  lemma TimesBeforeTags(f: StudyFilter, q: Query, db: seq<Study>, s: Study, sql: Dialect)
    ensures Times(Eval(Filtered(q, FiltersBeforeTags(f)), db, sql), s)
              == if PassesBeforeTags(f, s) then Times(Eval(q, db, sql), s) else 0
  {
    forall r: Row | r.study == s ensures AllHold(FiltersBeforeTags(f), r, sql) <==> PassesBeforeTags(f, s) {
      BeforeTagsMeans(f, r, sql);
    }
    TimesFiltered(q, FiltersBeforeTags(f), db, s, PassesBeforeTags(f, s), sql);
  }

  lemma TimesAfterTags(f: StudyFilter, q: Query, db: seq<Study>, s: Study, sql: Dialect)
    requires TextIsRight(f, sql)
    ensures Times(Eval(Filtered(q, FiltersAfterTags(f)), db, sql), s)
              == if PassesAfterTags(f, s) then Times(Eval(q, db, sql), s) else 0
  {
    forall r: Row | r.study == s ensures AllHold(FiltersAfterTags(f), r, sql) <==> PassesAfterTags(f, s) {
      AfterTagsMeans(f, r, sql);
    }
    TimesFiltered(q, FiltersAfterTags(f), db, s, PassesAfterTags(f, s), sql);
  }

  function TagWays(f: StudyFilter, s: Study): nat {
    if f.tags == [] then 1 else Wanted(s.tags, f)
  }

  lemma TimesUpToTags(f: StudyFilter, db: seq<Study>, s: Study, sql: Dialect)
    requires CaseIsRight(f, sql)
    requires Keys(db)
    ensures Times(Eval(TagFilter(f, Filtered(Table, FiltersBeforeTags(f))), db, sql), s) ==
            if s in db && PassesBeforeTags(f, s) then TagWays(f, s) else 0
  {
    var q := Filtered(Table, FiltersBeforeTags(f));
    TimesTable(db, s);
    TimesBeforeTags(f, Table, db, s, sql);
    var n := Times(Eval(q, db, sql), s);
    assert n == if s in db && PassesBeforeTags(f, s) then 1 else 0;
    TimesTagFilter(f, q, db, s, sql);
  }

  lemma TimesBase(f: StudyFilter, db: seq<Study>, s: Study, sql: Dialect)
    requires TextIsRight(f, sql)
    requires Keys(db)
    ensures Times(Eval(BaseQuery(f), db, sql), s) ==
            if s in db && PassesBeforeTags(f, s) && PassesAfterTags(f, s) then TagWays(f, s) else 0
  {
    TimesUpToTags(f, db, s, sql);
    TimesAfterTags(f, TagFilter(f, Filtered(Table, FiltersBeforeTags(f))), db, s, sql);
  }

  lemma TimesFiltered(q: Query, cs: seq<Condition>, db: seq<Study>, s: Study, keep: bool, sql: Dialect)
    requires forall r: Row :: r.study == s ==> (AllHold(cs, r, sql) <==> keep)
    ensures Times(Eval(Filtered(q, cs), db, sql), s) == if keep then Times(Eval(q, db, sql), s) else 0
  {
    FilteredAtOnce(q, cs, db, sql);
    TimesSelected(Eval(q, db, sql), cs, s, keep, sql);
  }

  lemma TimesTagFilter(f: StudyFilter, q: Query, db: seq<Study>, s: Study, sql: Dialect)
    requires CaseIsRight(f, sql)
    ensures Times(Eval(TagFilter(f, q), db, sql), s) == Copies(Times(Eval(q, db, sql), s), TagWays(f, s))
  {
    if f.tags != [] {
      TimesTagJoin(f, Eval(q, db, sql), s, sql);
    } else {
      CopiesOfOne(Times(Eval(q, db, sql), s));
    }
  }

  /** For an admin the query repeats a study once per matching tag and matching group. */
  lemma AdminRepeats(f: StudyFilter, db: seq<Study>, s: Study, sql: Dialect)
    requires TextIsRight(f, sql)
    requires Keys(db) && f.access.isAdmin
    ensures Times(Eval(Search(f), db, sql), s) ==
            if s in db && PassesBeforeTags(f, s) && PassesAfterTags(f, s) then Ways(f, s) else 0
  {
    if f.groups == [] {
      UngroupedRepeats(f, db, s, sql);
    } else {
      GroupedRepeats(f, db, s, sql);
      CopiesIsProduct(TagWays(f, s), Shared(s.groups, f.groups));
    }
  }

  lemma UngroupedRepeats(f: StudyFilter, db: seq<Study>, s: Study, sql: Dialect)
    requires TextIsRight(f, sql) && Keys(db) && f.access.isAdmin && f.groups == []
    ensures Times(Eval(Search(f), db, sql), s) ==
            if s in db && PassesBeforeTags(f, s) && PassesAfterTags(f, s) then TagWays(f, s) else 0
  {
    assert Search(f) == BaseQuery(f);
    TimesBase(f, db, s, sql);
  }

  lemma SearchInGroups(f: StudyFilter)
    requires f.access.isAdmin && f.groups != []
    ensures Search(f) == Where(JoinGroups(BaseQuery(f)), GroupIn(f.groups))
  {
  }

  lemma GroupedRepeats(f: StudyFilter, db: seq<Study>, s: Study, sql: Dialect)
    requires TextIsRight(f, sql) && Keys(db) && f.access.isAdmin && f.groups != []
    ensures Times(Eval(Search(f), db, sql), s) ==
            Copies(if s in db && PassesBeforeTags(f, s) && PassesAfterTags(f, s) then TagWays(f, s) else 0,
                   Shared(s.groups, f.groups))
  {
    SearchInGroups(f);
    TimesBase(f, db, s, sql);
    TimesGroupJoin(f.groups, Eval(BaseQuery(f), db, sql), s, sql);
  }

  lemma {:induction false} TimesMember(rows: seq<Row>, s: Study)
    ensures Times(rows, s) > 0 <==> s in Studies(rows)
  {
    if rows != [] {
      TimesMember(rows[1..], s);
      assert Studies(rows) == [rows[0].study] + Studies(rows[1..]);
    }
  }

  lemma {:induction false} OnceEach(rows: seq<Row>)
    ensures Distinctive(Studies(rows)) <==> forall s :: s in Studies(rows) ==> Times(rows, s) == 1
    decreases |rows|
  {
    if rows != [] {
      var first, rest := rows[0].study, rows[1..];
      OnceEach(rest);
      TimesMember(rest, first);
      assert Studies(rows) == [first] + Studies(rest);
      assert Distinctive(Studies(rows)) <==> first !in Studies(rest) && Distinctive(Studies(rest)) by {
        DistinctiveStep(first, Studies(rest));
      }
      if Distinctive(Studies(rows)) {
        forall s | s in Studies(rows) ensures Times(rows, s) == 1 {
          TimesMember(rest, s);
        }
      }
      if forall s :: s in Studies(rows) ==> Times(rows, s) == 1 {
        assert Times(rows, first) == 1;
        forall s | s in Studies(rest) ensures Times(rest, s) == 1 {
          TimesMember(rest, s);
          assert Times(rows, s) == 1;
        }
      }
    }
  }

  lemma DistinctiveStep(x: Study, rest: seq<Study>)
    ensures Distinctive([x] + rest) <==> x !in rest && Distinctive(rest)
  {
    var all := [x] + rest;
    if Distinctive(all) {
      forall i, j | 0 <= i < j < |rest| ensures rest[i] != rest[j] {
        assert all[i + 1] != all[j + 1];
      }
      forall i | 0 <= i < |rest| ensures rest[i] != x {
        assert all[0] != all[i + 1];
      }
    }
  }

  /** For anybody but an admin, `count_studies` is the length of the list. */
  lemma CountIsExactForUsers(f: StudyFilter, db: seq<Study>, sql: Dialect)
    requires !f.access.isAdmin
    ensures CountStudies(f, db, sql) == |Listing(f, db, sql)|
  {
    NonAdminSearchHasNoRepeats(f, db, sql);
  }

  /** For an admin it is so exactly when no study that passes the filters has two of the tags, or
      two of the groups, that are asked for. */
  lemma CountIsExactForAdmins(f: StudyFilter, db: seq<Study>, sql: Dialect)
    requires TextIsRight(f, sql)
    requires Keys(db) && f.access.isAdmin
    ensures CountStudies(f, db, sql) == |Listing(f, db, sql)| <==>
            forall s :: s in db && PassesBase(f, s) && PassesGroups(f, s) ==> Ways(f, s) == 1
  {
    var rows := Eval(Search(f), db, sql);
    OnceEach(rows);
    forall s ensures s in Studies(rows) <==> s in db && PassesBase(f, s) && PassesGroups(f, s) {
      SearchMeansPredicate(f, db, s, sql);
    }
    forall s | s in Studies(rows) ensures Times(rows, s) == Ways(f, s) {
      AdminRepeats(f, db, s, sql);
      TimesMember(rows, s);
    }
  }

  /** A filter on two tags, and a study that has both. */
  function TwoTags(upper: string -> string): StudyFilter {
    NoFilter(AccessPermissions(true, None, [])).(tags := ["a", "b"], upper := upper)
  }

  const TWICE_TAGGED := Study("id", VariantStudy, None, None, None, None, None, None, [], ["a", "b"])

  lemma TwoWays(upper: string -> string)
    ensures Ways(TwoTags(upper), TWICE_TAGGED) == 2 && PassesTags(TwoTags(upper), TWICE_TAGGED)
  {
    var f, s := TwoTags(upper), TWICE_TAGGED;
    assert Uppers(f)[0] == upper("a") && Uppers(f)[1] == upper("b");
    assert TagWanted(f, "a") && TagWanted(f, "b");
    assert s.tags[1..] == ["b"] && s.tags[1..][1..] == [];
    assert s.tags[0] == "a" && Wanted(s.tags[1..], f) == 1;
  }

  lemma TwiceTaggedPasses(sql: Dialect)
    ensures PassesBase(TwoTags(sql.upper), TWICE_TAGGED) && PassesGroups(TwoTags(sql.upper), TWICE_TAGGED)
    ensures TextIsRight(TwoTags(sql.upper), sql) && Keys([TWICE_TAGGED])
  {
    TwoWays(sql.upper);
  }

  /** It is listed once and counted twice, even where Python and the database agree. */
  lemma TwoTagsCountTwice(sql: Dialect)
    ensures var f := TwoTags(sql.upper); CountStudies(f, [TWICE_TAGGED], sql) != |Listing(f, [TWICE_TAGGED], sql)|
  {
    TwoWays(sql.upper);
    TwiceTaggedPasses(sql);
    CountIsExactForAdmins(TwoTags(sql.upper), [TWICE_TAGGED], sql);
    assert TWICE_TAGGED in [TWICE_TAGGED];
  }
}
