/** What a synchronisation does to the table as a whole: the two loops settle every row by itself
    and then create what is missing. */
module DiskSyncProofs {
  import opened Options
  import opened DiskSync

  // -------------------------------------------------------------------------- paths

  /** The ancestors of a path are its parent and the ancestors of that, up to the root, which is its
      own parent; so a scan of one level covers the children that a recursive one covers first. */
  lemma AncestorsAreParents(d: Path, p: Path)
    ensures IsAncestor(d, p) <==> Parent(p) != p && (d == Parent(p) || IsAncestor(d, Parent(p)))
  {
    if Parent(p) != p {
      assert Parent(p) == p[..|p| - 1];
    }
  }

  // ------------------------------------------------------------------- flat maps

  function FlatMap(rows: seq<Row>, g: Row -> seq<Row>): seq<Row> {
    if rows == [] then [] else g(rows[0]) + FlatMap(rows[1..], g)
  }

  lemma {:induction false} ReplacedConcat(a: seq<Row>, b: seq<Row>, id: string, out: seq<Row>)
    ensures Replaced(a + b, id, out) == Replaced(a, id, out) + Replaced(b, id, out)
  {
    if a == [] {
      assert a + b == b;
    } else {
      assert (a + b)[1..] == a[1..] + b;
      ReplacedConcat(a[1..], b, id, out);
    }
  }

  lemma {:induction false} ReplacedNone(rows: seq<Row>, id: string, out: seq<Row>)
    requires forall r :: r in rows ==> r.id != id
    ensures Replaced(rows, id, out) == rows
  {
    if rows != [] {
      ReplacedNone(rows[1..], id, out);
    }
  }

  lemma ReplacedOne(r: Row, id: string, out: seq<Row>)
    ensures Replaced([r], id, out) == if r.id == id then out else [r]
  {
    assert Replaced([r][1..], id, out) == [];
  }

  lemma {:induction false} FlatMapReplaced(rows: seq<Row>, g: Row -> seq<Row>, h: Row -> seq<Row>, id: string,
      out: seq<Row>)
    requires forall r :: r in rows ==> Replaced(g(r), id, out) == h(r)
    ensures Replaced(FlatMap(rows, g), id, out) == FlatMap(rows, h)
  {
    if rows != [] {
      ReplacedConcat(g(rows[0]), FlatMap(rows[1..], g), id, out);
      FlatMapReplaced(rows[1..], g, h, id, out);
    }
  }

  lemma {:induction false} FlatMapSame(rows: seq<Row>, g: Row -> seq<Row>, h: Row -> seq<Row>)
    requires forall r :: r in rows ==> g(r) == h(r)
    ensures FlatMap(rows, g) == FlatMap(rows, h)
  {
    if rows != [] {
      FlatMapSame(rows[1..], g, h);
    }
  }

  lemma {:induction false} FlatMapIdentity(rows: seq<Row>, g: Row -> seq<Row>)
    requires forall r :: r in rows ==> g(r) == [r]
    ensures FlatMap(rows, g) == rows
  {
    if rows != [] {
      FlatMapIdentity(rows[1..], g);
    }
  }

  lemma {:induction false} FlatMapMember(rows: seq<Row>, g: Row -> seq<Row>, x: Row)
    ensures x in FlatMap(rows, g) <==> exists r :: r in rows && x in g(r)
  {
    if rows != [] {
      FlatMapMember(rows[1..], g, x);
    }
  }

  // --------------------------------------------------------------------- no twins

  /** Ids are the primary key; paths are kept distinct by the application. */
  ghost predicate NoTwins(rows: seq<Row>) {
    forall i, j :: 0 <= i < j < |rows| ==> rows[i].id != rows[j].id && rows[i].path != rows[j].path
  }

  lemma NoTwinsTail(rows: seq<Row>)
    requires NoTwins(rows) && rows != []
    ensures NoTwins(rows[1..])
    ensures forall r :: r in rows[1..] ==> r.id != rows[0].id && r.path != rows[0].path
  {
  }

  lemma NoTwinsConcat(a: seq<Row>, b: seq<Row>)
    requires NoTwins(a) && NoTwins(b)
    requires forall x, y :: x in a && y in b ==> x.id != y.id && x.path != y.path
    ensures NoTwins(a + b)
  {
  }

  lemma OnlyOne(rows: seq<Row>, x: Row, y: Row)
    requires NoTwins(rows) && x in rows && y in rows && (x.id == y.id || x.path == y.path)
    ensures x == y
  {
    var i :| 0 <= i < |rows| && rows[i] == x;
    var j :| 0 <= j < |rows| && rows[j] == y;
    assert i == j;
  }

  /** The row itself, or its successor, or nothing. */
  ghost predicate Successor(r: Row, out: seq<Row>) {
    out == [] || (|out| == 1 && out[0].id == r.id && out[0].path == r.path)
  }

  lemma {:induction false} FlatMapKeepsNoTwins(rows: seq<Row>, g: Row -> seq<Row>)
    requires NoTwins(rows) && forall r :: r in rows ==> Successor(r, g(r))
    ensures NoTwins(FlatMap(rows, g))
    ensures forall x :: x in FlatMap(rows, g) ==> exists r :: r in rows && r.id == x.id && r.path == x.path
  {
    if rows != [] {
      NoTwinsTail(rows);
      FlatMapKeepsNoTwins(rows[1..], g);
      var a, b := g(rows[0]), FlatMap(rows[1..], g);
      assert Successor(rows[0], a);
      NoTwinsConcat(a, b);
    }
  }

  // ------------------------------------------------------------------ the first loop

  function Kept(r: Row, paths: set<Path>, now: int): seq<Row> {
    if !Unseen(r, paths) then [r]
    else if r.missing.None? then [r.(missing := Some(now))]
    else if Expired(r, paths, now) then []
    else [r]
  }

  function Ids(rows: seq<Row>): set<string> {
    set r | r in rows :: r.id
  }

  /** The table when the first loop is through with the rows in `done`. */
  function PassOn(rows: seq<Row>, done: set<string>, paths: set<Path>, now: int): seq<Row> {
    FlatMap(rows, (r: Row) => if r.id in done then Kept(r, paths, now) else [r])
  }

  lemma KeptReplaced(r: Row, id: string, out: seq<Row>, paths: set<Path>, now: int)
    requires r.id != id
    ensures Replaced(Kept(r, paths, now), id, out) == Kept(r, paths, now)
  {
    ReplacedNone(Kept(r, paths, now), id, out);
  }

  lemma MarkOneStep(rows: seq<Row>, done: set<string>, r: Row, paths: set<Path>, now: int)
    requires NoTwins(rows) && r in rows && r.id !in done
    ensures MarkOne(PassOn(rows, done, paths, now), r, paths, now) == PassOn(rows, done + {r.id}, paths, now)
  {
    var g := (x: Row) => if x.id in done then Kept(x, paths, now) else [x];
    var h := (x: Row) => if x.id in done + {r.id} then Kept(x, paths, now) else [x];
    if Kept(r, paths, now) == [r] {
      forall x | x in rows ensures g(x) == h(x) {
        if x.id == r.id {
          OnlyOne(rows, x, r);
        }
      }
      FlatMapSame(rows, g, h);
    } else {
      forall x | x in rows ensures Replaced(g(x), r.id, Kept(r, paths, now)) == h(x) {
        if x.id == r.id {
          OnlyOne(rows, x, r);
          ReplacedOne(x, r.id, Kept(r, paths, now));
        } else if x.id in done {
          KeptReplaced(x, r.id, Kept(r, paths, now), paths, now);
        } else {
          ReplacedOne(x, r.id, Kept(r, paths, now));
        }
      }
      FlatMapReplaced(rows, g, h, r.id, Kept(r, paths, now));
    }
  }

  lemma IdsOfMore(rows: seq<Row>)
    requires NoTwins(rows) && rows != []
    ensures rows[|rows| - 1].id !in Ids(rows[..|rows| - 1])
    ensures Ids(rows) == Ids(rows[..|rows| - 1]) + {rows[|rows| - 1].id}
  {
    assert rows == rows[..|rows| - 1] + [rows[|rows| - 1]];
  }

  lemma {:induction false} MarkAllIsPass(rows: seq<Row>, studies: seq<Row>, paths: set<Path>, now: int)
    requires NoTwins(rows) && NoTwins(studies) && forall r :: r in studies ==> r in rows
    ensures MarkAll(rows, studies, paths, now) == PassOn(rows, Ids(studies), paths, now)
    decreases |studies|
  {
    if studies == [] {
      FlatMapIdentity(rows, (r: Row) => if r.id in Ids([]) then Kept(r, paths, now) else [r]);
    } else {
      var before, last := studies[..|studies| - 1], studies[|studies| - 1];
      MarkAllIsPass(rows, before, paths, now);
      IdsOfMore(studies);
      MarkOneStep(rows, Ids(before), last, paths, now);
    }
  }

  lemma {:induction false} ScopedRows(rows: seq<Row>, s: Scope)
    requires NoTwins(rows)
    ensures NoTwins(Scoped(rows, s))
    ensures forall r :: r in Scoped(rows, s) <==> r in rows && InScope(s, r.path)
  {
    if rows != [] {
      NoTwinsTail(rows);
      ScopedRows(rows[1..], s);
      NoTwinsConcat(if InScope(s, rows[0].path) then [rows[0]] else [], Scoped(rows[1..], s));
    }
  }

  // ------------------------------------------------------------------ both loops

  /** What becomes of a row: left alone outside the scope, revived when its folder was listed,
      marked, dropped or left alone when it was not. `listed` is the part of `paths` that the
      second loop has seen. */
  function Settled(r: Row, s: Scope, paths: set<Path>, listed: set<Path>, now: int): seq<Row> {
    if !InScope(s, r.path) then [r]
    else if r.path in listed then [r.(missing := None)]
    else Kept(r, paths, now)
  }

  function SettleAll(rows: seq<Row>, s: Scope, paths: set<Path>, listed: set<Path>, now: int): seq<Row> {
    FlatMap(rows, (r: Row) => Settled(r, s, paths, listed, now))
  }

  /** One new row for each folder that no row stands for. */
  function Created(rows: seq<Row>, folders: seq<StudyFolder>, ids: seq<string>): seq<Row>
    requires |ids| == |folders|
  {
    if folders == [] then []
    else
      var n := |folders| - 1;
      Created(rows, folders[..n], ids[..n])
      + (if exists r :: r in rows && r.path == folders[n].path then [] else [NewRow(ids[n], folders[n])])
  }

  lemma FirstLoopSettles(rows: seq<Row>, s: Scope, paths: set<Path>, now: int)
    requires NoTwins(rows)
    ensures MarkAll(rows, Scoped(rows, s), paths, now) == SettleAll(rows, s, paths, {}, now)
  {
    var studies := Scoped(rows, s);
    ScopedRows(rows, s);
    MarkAllIsPass(rows, studies, paths, now);
    var g := (r: Row) => if r.id in Ids(studies) then Kept(r, paths, now) else [r];
    var h := (r: Row) => Settled(r, s, paths, {}, now);
    forall r | r in rows ensures g(r) == h(r) {
      if r.id in Ids(studies) {
        var x :| x in studies && x.id == r.id;
        OnlyOne(rows, x, r);
      }
    }
    FlatMapSame(rows, g, h);
  }

  /** The loaded studies after the first loop, at the path of a listed folder. */
  lemma LoadedAt(rows: seq<Row>, s: Scope, paths: set<Path>, now: int, x: Row)
    requires NoTwins(rows) && x.path in paths
    ensures x in MarkStudies(Scoped(rows, s), paths, now) <==> x in rows && InScope(s, x.path)
  {
    var studies := Scoped(rows, s);
    var after := MarkStudies(studies, paths, now);
    ScopedRows(rows, s);
    if x in after {
      var i :| 0 <= i < |after| && after[i] == x;
      assert studies[i].path in paths;
      assert studies[i] in studies;
    }
    if x in studies {
      var i :| 0 <= i < |studies| && studies[i] == x;
      assert after[i] == x;
    }
  }

  lemma {:induction false} MissingMeans(studies: seq<Row>)
    ensures forall p :: p in Missing(studies) ==>
              Missing(studies)[p] in studies && Missing(studies)[p].path == p && Missing(studies)[p].missing.Some?
    ensures forall r :: r in studies && r.missing.Some? ==> r.path in Missing(studies)
    decreases |studies|
  {
    if studies != [] {
      assert studies == studies[..|studies| - 1] + [studies[|studies| - 1]];
      MissingMeans(studies[..|studies| - 1]);
    }
  }

  /** At a listed path in scope there is one row, present or missing, or none. */
  lemma LookUp(rows: seq<Row>, s: Scope, paths: set<Path>, now: int, p: Path)
    requires NoTwins(rows) && p in paths && InScope(s, p)
    ensures var after := MarkStudies(Scoped(rows, s), paths, now);
            && (p in Present(after) <==> exists r :: r in rows && r.path == p && r.missing.None?)
            && (p in Missing(after) <==> exists r :: r in rows && r.path == p && r.missing.Some?)
            && (p in Missing(after) ==> Missing(after)[p] in rows && Missing(after)[p].path == p)
  {
    var after := MarkStudies(Scoped(rows, s), paths, now);
    MissingMeans(after);
    forall x: Row | x.path == p ensures x in after <==> x in rows {
      LoadedAt(rows, s, paths, now, x);
    }
  }

  /** Fresh ids, as `uuid4` draws them. */
  ghost predicate Fresh(rows: seq<Row>, ids: seq<string>) {
    && (forall i, j :: 0 <= i < j < |ids| ==> ids[i] != ids[j])
    && (forall id, r :: id in ids && r in rows ==> r.id != id)
  }

  lemma {:induction false} CreatedRows(rows: seq<Row>, folders: seq<StudyFolder>, ids: seq<string>, x: Row)
    requires |ids| == |folders| && x in Created(rows, folders, ids)
    ensures x.id in ids && x.path in PathsOf(folders) && x.missing.None?
    ensures forall r :: r in rows ==> r.path != x.path
    decreases |folders|
  {
    var n := |folders| - 1;
    assert folders[n] in folders && ids[n] in ids;
    if x in Created(rows, folders[..n], ids[..n]) {
      CreatedRows(rows, folders[..n], ids[..n], x);
    }
  }

  lemma CreatedNotReplaced(rows: seq<Row>, folders: seq<StudyFolder>, ids: seq<string>, id: string, out: seq<Row>)
    requires |ids| == |folders| && id !in ids
    ensures Replaced(Created(rows, folders, ids), id, out) == Created(rows, folders, ids)
  {
    forall x | x in Created(rows, folders, ids) ensures x.id != id {
      CreatedRows(rows, folders, ids, x);
    }
    ReplacedNone(Created(rows, folders, ids), id, out);
  }

  /** Reviving a missing row settles it. */
  lemma ReviveStep(rows: seq<Row>, s: Scope, paths: set<Path>, listed: set<Path>, now: int, r: Row)
    requires NoTwins(rows) && r in rows && InScope(s, r.path) && r.path in paths && r.path !in listed
    ensures Replaced(SettleAll(rows, s, paths, listed, now), r.id, [r.(missing := None)])
            == SettleAll(rows, s, paths, listed + {r.path}, now)
  {
    var g := (x: Row) => Settled(x, s, paths, listed, now);
    var h := (x: Row) => Settled(x, s, paths, listed + {r.path}, now);
    forall x | x in rows ensures Replaced(g(x), r.id, [r.(missing := None)]) == h(x) {
      if x.id == r.id || x.path == r.path {
        OnlyOne(rows, x, r);
        ReplacedOne(x, r.id, [r.(missing := None)]);
      } else {
        ReplacedNone(g(x), r.id, [r.(missing := None)]);
      }
    }
    FlatMapReplaced(rows, g, h, r.id, [r.(missing := None)]);
  }

  /** At the path of a row that is present, or of no row, there is nothing to settle. */
  lemma NothingToSettle(rows: seq<Row>, s: Scope, paths: set<Path>, listed: set<Path>, now: int, p: Path)
    requires p in paths && forall r :: r in rows && r.path == p ==> r.missing.None?
    ensures SettleAll(rows, s, paths, listed, now) == SettleAll(rows, s, paths, listed + {p}, now)
  {
    var g := (x: Row) => Settled(x, s, paths, listed, now);
    var h := (x: Row) => Settled(x, s, paths, listed + {p}, now);
    forall x | x in rows ensures g(x) == h(x) {
      if x.path == p {
        assert x.(missing := None) == x;
      }
    }
    FlatMapSame(rows, g, h);
  }

  ghost predicate DistinctFolders(folders: seq<StudyFolder>) {
    forall i, j :: 0 <= i < j < |folders| ==> folders[i].path != folders[j].path
  }

  ghost predicate FoldersIn(folders: seq<StudyFolder>, s: Scope) {
    forall f :: f in folders ==> InScope(s, f.path)
  }

  /** The table when the second loop is through with `folders`. */
  function Table(rows: seq<Row>, s: Scope, paths: set<Path>, folders: seq<StudyFolder>, ids: seq<string>,
      now: int): seq<Row>
    requires |ids| == |folders|
  {
    SettleAll(rows, s, paths, PathsOf(folders), now) + Created(rows, folders, ids)
  }

  lemma FreshPart(rows: seq<Row>, ids: seq<string>, n: nat)
    requires n <= |ids| && Fresh(rows, ids)
    ensures Fresh(rows, ids[..n])
  {
    forall id | id in ids[..n] ensures id in ids {
    }
  }

  lemma PathsOfMore(before: seq<StudyFolder>, f: StudyFolder)
    ensures PathsOf(before + [f]) == PathsOf(before) + {f.path}
  {
    assert f in before + [f];
  }

  lemma NotYetListed(all: seq<StudyFolder>, n: nat)
    requires DistinctFolders(all) && n < |all|
    ensures all[n].path !in PathsOf(all[..n])
  {
  }

  lemma {:induction false} SecondLoopSettles(rows: seq<Row>, s: Scope, all: seq<StudyFolder>, now: int, n: nat,
      ids: seq<string>)
    requires NoTwins(rows) && FoldersIn(all, s) && DistinctFolders(all)
    requires n <= |all| && |ids| == n && Fresh(rows, ids)
    ensures var after := MarkStudies(Scoped(rows, s), PathsOf(all), now);
            AddAll(SettleAll(rows, s, PathsOf(all), {}, now), all[..n], Present(after), Missing(after), ids)
            == Table(rows, s, PathsOf(all), all[..n], ids, now)
    decreases n
  {
    if n == 0 {
      assert PathsOf(all[..0]) == {};
    } else {
      var before, f := all[..n - 1], all[n - 1];
      assert all[..n] == before + [f] && all[..n][..n - 1] == before;
      FreshPart(rows, ids, n - 1);
      SecondLoopSettles(rows, s, all, now, n - 1, ids[..n - 1]);
      NotYetListed(all, n - 1);
      assert f in all;
      SecondLoopStep(rows, s, all, now, before, ids, f);
    }
  }

  /** One folder: the table so far is settled for `before`, and afterwards for one path more. */
  lemma SecondLoopStep(rows: seq<Row>, s: Scope, all: seq<StudyFolder>, now: int, before: seq<StudyFolder>,
      ids: seq<string>, f: StudyFolder)
    requires NoTwins(rows) && Fresh(rows, ids) && |ids| == |before| + 1
    requires f in all && InScope(s, f.path) && f.path !in PathsOf(before)
    ensures var after := MarkStudies(Scoped(rows, s), PathsOf(all), now);
            var table := Table(rows, s, PathsOf(all), before, ids[..|before|], now);
            (if f.path in Present(after) then table
             else if f.path in Missing(after)
             then Replaced(table, Missing(after)[f.path].id, [Missing(after)[f.path].(missing := None)])
             else table + [NewRow(ids[|before|], f)])
            == Table(rows, s, PathsOf(all), before + [f], ids, now)
  {
    var paths := PathsOf(all);
    var after := MarkStudies(Scoped(rows, s), paths, now);
    LookUp(rows, s, paths, now, f.path);
    if f.path in Present(after) {
      StepPresent(rows, s, paths, now, before, ids, f);
    } else if f.path in Missing(after) {
      StepMissing(rows, s, paths, now, before, ids, f, Missing(after)[f.path]);
    } else {
      StepNew(rows, s, paths, now, before, ids, f);
    }
  }

  lemma StepPresent(rows: seq<Row>, s: Scope, paths: set<Path>, now: int, before: seq<StudyFolder>, ids: seq<string>,
      f: StudyFolder)
    requires NoTwins(rows) && |ids| == |before| + 1 && f.path in paths
    requires exists r :: r in rows && r.path == f.path && r.missing.None?
    ensures Table(rows, s, paths, before, ids[..|before|], now) == Table(rows, s, paths, before + [f], ids, now)
  {
    var x :| x in rows && x.path == f.path && x.missing.None?;
    forall r | r in rows && r.path == f.path ensures r.missing.None? {
      OnlyOne(rows, x, r);
    }
    NothingToSettle(rows, s, paths, PathsOf(before), now, f.path);
    CreatedOneMore(rows, before, ids, f);
    PathsOfMore(before, f);
  }

  lemma StepNew(rows: seq<Row>, s: Scope, paths: set<Path>, now: int, before: seq<StudyFolder>, ids: seq<string>,
      f: StudyFolder)
    requires |ids| == |before| + 1 && f.path in paths
    requires forall r :: r in rows ==> r.path != f.path
    ensures Table(rows, s, paths, before, ids[..|before|], now) + [NewRow(ids[|before|], f)]
            == Table(rows, s, paths, before + [f], ids, now)
  {
    NothingToSettle(rows, s, paths, PathsOf(before), now, f.path);
    CreatedOneMore(rows, before, ids, f);
    PathsOfMore(before, f);
  }

  lemma StepMissing(rows: seq<Row>, s: Scope, paths: set<Path>, now: int, before: seq<StudyFolder>, ids: seq<string>,
      f: StudyFolder, r: Row)
    requires NoTwins(rows) && Fresh(rows, ids) && |ids| == |before| + 1
    requires r in rows && r.path == f.path && f.path in paths && InScope(s, f.path) && f.path !in PathsOf(before)
    ensures Replaced(Table(rows, s, paths, before, ids[..|before|], now), r.id, [r.(missing := None)])
            == Table(rows, s, paths, before + [f], ids, now)
  {
    var settled, created := SettleAll(rows, s, paths, PathsOf(before), now), Created(rows, before, ids[..|before|]);
    ReviveStep(rows, s, paths, PathsOf(before), now, r);
    ReplacedConcat(settled, created, r.id, [r.(missing := None)]);
    FreshPart(rows, ids, |before|);
    CreatedNotReplaced(rows, before, ids[..|before|], r.id, [r.(missing := None)]);
    CreatedOneMore(rows, before, ids, f);
    PathsOfMore(before, f);
  }

  lemma CreatedOneMore(rows: seq<Row>, before: seq<StudyFolder>, ids: seq<string>, f: StudyFolder)
    requires |ids| == |before| + 1
    ensures Created(rows, before + [f], ids) ==
            Created(rows, before, ids[..|before|])
            + (if exists r :: r in rows && r.path == f.path then [] else [NewRow(ids[|before|], f)])
  {
    assert (before + [f])[..|before|] == before;
  }

  /** What a caller of the synchronisation guarantees. */
  ghost predicate Proper(rows: seq<Row>, folders: seq<StudyFolder>, s: Scope, ids: seq<string>) {
    NoTwins(rows) && DistinctFolders(folders) && FoldersIn(folders, s) && |ids| == |folders| && Fresh(rows, ids)
  }

  /** The two loops together settle every row by itself and create a row for every other folder. */
  lemma SyncSettles(rows: seq<Row>, folders: seq<StudyFolder>, s: Scope, now: int, ids: seq<string>)
    requires Proper(rows, folders, s, ids)
    ensures Sync(rows, folders, s, now, ids) ==
            SettleAll(rows, s, PathsOf(folders), PathsOf(folders), now) + Created(rows, folders, ids)
  {
    FirstLoopSettles(rows, s, PathsOf(folders), now);
    SecondLoopSettles(rows, s, folders, now, |folders|, ids);
    assert folders[..|folders|] == folders;
  }
}
