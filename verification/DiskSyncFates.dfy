/** What becomes of every row, in terms of path components, the workspace named "default" and two
    days of 24 hours, and that there is nothing else in the table afterwards. */
module DiskSyncFates {
  import opened Options
  import opened DiskSync
  import opened DiskSyncProofs
  import opened DiskSyncResults

  /** The scan looked at the path: at any depth below its directory, or directly below it. The root
      counts as its own parent, and so does the empty path. */
  predicate Reached(s: Scope, p: Path) {
    match s
    case Everything => true
    case Below(d, true) => |d| < |p| && p[..|d|] == d && (d == [] ==> p[0] != "/")
    case Below(d, false) =>
      || (|p| == |d| + 1 && p[..|d|] == d && p != ["/"])
      || (p == d && (p == ["/"] || p == []))
  }

  lemma ScopeMeans(s: Scope, p: Path)
    ensures InScope(s, p) <==> Reached(s, p)
  {
    if s.Below? && !s.recursive {
      assert Parent(p) == if p == [] || p == ["/"] then p else p[..|p| - 1];
    }
  }

  predicate Listed(folders: seq<StudyFolder>, p: Path) {
    exists f :: f in folders && f.path == p
  }

  /** A listed study is there, not missing. Another one that the scan reached, in a workspace other
      than "default" and not archived, is marked, stays marked for two days, and is dropped then. Every
      other row is as it was. */
  lemma WhatBecomesOfARow(rows: seq<Row>, folders: seq<StudyFolder>, s: Scope, now: int, ids: seq<string>, r: Row)
    requires Proper(rows, folders, s, ids) && r in rows
    ensures var after, listed := Sync(rows, folders, s, now, ids), Listed(folders, r.path);
            var checked := Reached(s, r.path) && !r.archived && r.workspace != "default";
            && (listed ==> r.(missing := None) in after)
            && (!listed && !checked ==> r in after)
            && (!listed && checked && r.missing.None? ==> r.(missing := Some(now)) in after)
            && (!listed && checked && r.missing.Some? ==>
                  if now - r.missing.value <= 2 * 24 * 3600 then r in after
                  else forall x :: x in after ==> x.id != r.id)
  {
    ScopeMeans(s, r.path);
    var out := Outcome(r, folders, s, now);
    OutcomeIsSuccessor(r, folders, s, now);
    if out != [] {
      EveryRowHasItsOutcome(rows, folders, s, now, ids, r, out[0]);
    }
    forall x | out == [] && x in Sync(rows, folders, s, now, ids) ensures x.id != r.id {
      if x.id == r.id {
        EveryRowHasItsOutcome(rows, folders, s, now, ids, r, x);
      }
    }
    if f :| f in folders && f.path == r.path {
      assert r.path in PathsOf(folders);
    }
  }

  /** Every row of the result is an old one, with at most the mark changed, or new, under the id drawn
      for a listed folder that no old row stood for. */
  lemma NothingElse(rows: seq<Row>, folders: seq<StudyFolder>, s: Scope, now: int, ids: seq<string>, x: Row)
    requires Proper(rows, folders, s, ids) && x in Sync(rows, folders, s, now, ids)
    ensures || (exists r :: r in rows && x == r.(missing := x.missing))
            || (Listed(folders, x.path) && x.id in ids && x.missing.None? && forall r :: r in rows ==> r.path != x.path)
  {
    SyncMember(rows, folders, s, now, ids, x);
    if x in Created(rows, folders, ids) {
      CreatedRows(rows, folders, ids, x);
    } else {
      var r :| r in rows && x in Outcome(r, folders, s, now);
      OutcomeChangesMark(r, folders, s, now, x);
    }
  }

  lemma OutcomeChangesMark(r: Row, folders: seq<StudyFolder>, s: Scope, now: int, x: Row)
    requires x in Outcome(r, folders, s, now)
    ensures x == r.(missing := x.missing)
  {
  }

  /** An external study that is not archived, not listed and not marked yet. */
  predicate Missed(folders: seq<StudyFolder>, r: Row) {
    !Listed(folders, r.path) && !r.archived && r.workspace != "default" && r.missing.None?
  }

  /** A scan of one level leaves everything alone that is not directly below its directory, and marks
      what it misses there. */
  lemma OneLevelScan(rows: seq<Row>, folders: seq<StudyFolder>, d: Path, now: int, ids: seq<string>, r: Row)
    requires Proper(rows, folders, Below(d, false), ids) && r in rows && r.path != ["/"] && d != []
    ensures var after := Sync(rows, folders, Below(d, false), now, ids);
            && (|r.path| != |d| + 1 || r.path[..|d|] != d ==> r in after)
            && (|r.path| == |d| + 1 && r.path[..|d|] == d && Missed(folders, r) ==> r.(missing := Some(now)) in after)
  {
    WhatBecomesOfARow(rows, folders, Below(d, false), now, ids, r);
    ScopeMeans(Below(d, false), r.path);
    ListedIsReached(rows, folders, Below(d, false), ids, r.path);
  }

  /** A recursive scan does so for everything below its directory, at any depth. */
  lemma RecursiveScan(rows: seq<Row>, folders: seq<StudyFolder>, d: Path, now: int, ids: seq<string>, r: Row)
    requires Proper(rows, folders, Below(d, true), ids) && r in rows && d != []
    ensures var after := Sync(rows, folders, Below(d, true), now, ids);
            && (!(d < r.path) ==> r in after)
            && (d < r.path && Missed(folders, r) ==> r.(missing := Some(now)) in after)
  {
    WhatBecomesOfARow(rows, folders, Below(d, true), now, ids, r);
    ScopeMeans(Below(d, true), r.path);
    ListedIsReached(rows, folders, Below(d, true), ids, r.path);
  }

  lemma ListedIsReached(rows: seq<Row>, folders: seq<StudyFolder>, s: Scope, ids: seq<string>, p: Path)
    requires Proper(rows, folders, s, ids)
    ensures Listed(folders, p) ==> Reached(s, p)
  {
    if f :| f in folders && f.path == p {
      ScopeMeans(s, f.path);
    }
  }
}
