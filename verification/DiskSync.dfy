/** `sync_studies_on_disk`: the watcher's list of folders against the raw studies of the database. */
module DiskSync {
  import opened Options

  /** Path components as `pathlib` splits them; an absolute path starts with "/". */
  type Path = seq<string>

  predicate IsAbsolute(p: Path) {
    p != [] && p[0] == "/"
  }

  function Parent(p: Path): Path {
    if p == [] || p == ["/"] then p else p[..|p| - 1]
  }

  /** `d in p.parents`. */
  predicate IsAncestor(d: Path, p: Path) {
    d < p && (IsAbsolute(p) ==> d != [])
  }

  const DEFAULT_WORKSPACE_NAME := "default"

  /** Two days, in seconds. */
  const MAX_MISSING_STUDY_TIMEOUT := 172800

  /** A raw study, as far as the synchronisation reads and writes it. */
  datatype Row = Row(
    id: string,
    path: Path,
    workspace: string,
    archived: bool,
    missing: Option<int>,
    groups: seq<string>,
    isPublic: bool)

  datatype StudyFolder = StudyFolder(path: Path, workspace: string, groups: seq<string>)

  /** The directory a scan was limited to. */
  datatype Scope = Everything | Below(directory: Path, recursive: bool)

  predicate InScope(s: Scope, p: Path) {
    match s
    case Everything => true
    case Below(d, recursive) => if recursive then IsAncestor(d, p) else d == Parent(p)
  }

  function PathsOf(folders: seq<StudyFolder>): set<Path> {
    set f | f in folders :: f.path
  }

  // --------------------------------------------------------------------- the table

  /** Put `out` in the place of the row `id`: an update, or with `[]` a deletion. */
  function Replaced(rows: seq<Row>, id: string, out: seq<Row>): seq<Row> {
    if rows == [] then [] else (if rows[0].id == id then out else [rows[0]]) + Replaced(rows[1..], id, out)
  }

  function Scoped(rows: seq<Row>, s: Scope): seq<Row> {
    if rows == [] then [] else (if InScope(s, rows[0].path) then [rows[0]] else []) + Scoped(rows[1..], s)
  }

  // ------------------------------------------------------------------ missing studies

  /** An external study that is not archived and whose folder was not seen. */
  predicate Unseen(r: Row, paths: set<Path>) {
    !r.archived && r.workspace != DEFAULT_WORKSPACE_NAME && r.path !in paths
  }

  function Marked(r: Row, paths: set<Path>, now: int): Row {
    if Unseen(r, paths) && r.missing.None? then r.(missing := Some(now)) else r
  }

  predicate Expired(r: Row, paths: set<Path>, now: int) {
    Unseen(r, paths) && r.missing.Some? && r.missing.value < now - MAX_MISSING_STUDY_TIMEOUT
  }

  /** What the first loop does with the table for one loaded study: nothing, a save or a deletion. */
  function MarkOne(rows: seq<Row>, r: Row, paths: set<Path>, now: int): seq<Row> {
    if !Unseen(r, paths) then rows
    else if r.missing.None? then Replaced(rows, r.id, [Marked(r, paths, now)])
    else if Expired(r, paths, now) then Replaced(rows, r.id, [])
    else rows
  }

  /** The first loop, over the loaded studies. */
  function MarkAll(rows: seq<Row>, studies: seq<Row>, paths: set<Path>, now: int): seq<Row> {
    if studies == [] then rows
    else MarkOne(MarkAll(rows, studies[..|studies| - 1], paths, now), studies[|studies| - 1], paths, now)
  }

  // ---------------------------------------------------------------------- seen folders

  function NewRow(id: string, f: StudyFolder): Row {
    Row(id, f.path, f.workspace, false, None, f.groups, |f.groups| == 0)
  }

  /** `study_paths` and `missing_studies`, from the loaded studies as the first loop left them. */
  function Present(studies: seq<Row>): set<Path> {
    set r | r in studies && r.missing.None? :: r.path
  }

  function Missing(studies: seq<Row>): map<Path, Row> {
    if studies == [] then map[]
    else
      var r := studies[|studies| - 1];
      var m := Missing(studies[..|studies| - 1]);
      if r.missing.Some? then m[r.path := r] else m
  }

  /** The second loop; `ids[k]` is the fresh id drawn for the k-th folder. */
  function AddAll(rows: seq<Row>, folders: seq<StudyFolder>, present: set<Path>, missing: map<Path, Row>,
      ids: seq<string>): seq<Row>
    requires |ids| == |folders|
  {
    if folders == [] then rows
    else
      var n := |folders| - 1;
      var f := folders[n];
      var before := AddAll(rows, folders[..n], present, missing, ids[..n]);
      if f.path in present then before
      else if f.path in missing then Replaced(before, missing[f.path].id, [missing[f.path].(missing := None)])
      else before + [NewRow(ids[n], f)]
  }

  function MarkStudies(studies: seq<Row>, paths: set<Path>, now: int): seq<Row> {
    seq(|studies|, i requires 0 <= i < |studies| => Marked(studies[i], paths, now))
  }

  function Sync(rows: seq<Row>, folders: seq<StudyFolder>, s: Scope, now: int, ids: seq<string>): seq<Row>
    requires |ids| == |folders|
  {
    var paths := PathsOf(folders);
    var studies := Scoped(rows, s);
    var after := MarkStudies(studies, paths, now);
    AddAll(MarkAll(rows, studies, paths, now), folders, Present(after), Missing(after), ids)
  }

  class StudyService {
    var rows: seq<Row>

    constructor (rows: seq<Row>)
      ensures this.rows == rows
    {
      this.rows := rows;
    }

    method SyncStudiesOnDisk(folders: seq<StudyFolder>, s: Scope, now: int, ids: seq<string>)
      requires |ids| == |folders|
      modifies this
      ensures rows == Sync(old(rows), folders, s, now, ids)
    {
      var paths := PathsOf(folders);
      var studies := Scoped(rows, s);
      var after := MarkMissing(studies, paths, now);
      AddFolders(folders, after, ids);
    }

    /** `studies` are the loaded objects: a deleted one lives on in the list. */
    method MarkMissing(studies: seq<Row>, paths: set<Path>, now: int) returns (after: seq<Row>)
      modifies this
      ensures rows == MarkAll(old(rows), studies, paths, now)
      ensures after == MarkStudies(studies, paths, now)
    {
      after := [];
      for i := 0 to |studies|
        invariant rows == MarkAll(old(rows), studies[..i], paths, now)
        invariant after == MarkStudies(studies[..i], paths, now)
      {
        var study := studies[i];
        if !study.archived && study.workspace != DEFAULT_WORKSPACE_NAME && study.path !in paths {
          if study.missing.None? {
            study := study.(missing := Some(now));
            rows := Replaced(rows, study.id, [study]);
          }
          if study.missing.value < now - MAX_MISSING_STUDY_TIMEOUT {
            rows := Replaced(rows, study.id, []);
          }
        }
        after := after + [study];
        assert studies[..i + 1][..i] == studies[..i];
      }
      assert studies[..|studies|] == studies;
    }

    method AddFolders(folders: seq<StudyFolder>, studies: seq<Row>, ids: seq<string>)
      requires |ids| == |folders|
      modifies this
      ensures rows == AddAll(old(rows), folders, Present(studies), Missing(studies), ids)
    {
      var present, missing := Present(studies), Missing(studies);
      for i := 0 to |folders|
        invariant rows == AddAll(old(rows), folders[..i], present, missing, ids[..i])
      {
        var f := folders[i];
        if f.path !in present {
          if f.path !in missing {
            rows := rows + [NewRow(ids[i], f)];
          } else {
            var study := missing[f.path].(missing := None);
            rows := Replaced(rows, study.id, [study]);
          }
        }
        assert folders[..i + 1][..i] == folders[..i] && ids[..i + 1][..i] == ids[..i];
      }
      assert folders[..|folders|] == folders && ids[..|folders|] == ids;
    }
  }
}
