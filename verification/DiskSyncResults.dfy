/** One synchronisation, read off as a whole: what becomes of every folder and every row. */
module DiskSyncResults {
  import opened Options
  import opened DiskSync
  import opened DiskSyncProofs

  /** What the synchronisation leaves of one row. */
  function Outcome(r: Row, folders: seq<StudyFolder>, s: Scope, now: int): seq<Row> {
    Settled(r, s, PathsOf(folders), PathsOf(folders), now)
  }

  lemma OutcomeIsSuccessor(r: Row, folders: seq<StudyFolder>, s: Scope, now: int)
    ensures Successor(r, Outcome(r, folders, s, now))
  {
  }

  lemma SyncMember(rows: seq<Row>, folders: seq<StudyFolder>, s: Scope, now: int, ids: seq<string>, x: Row)
    requires Proper(rows, folders, s, ids)
    ensures x in Sync(rows, folders, s, now, ids) <==>
            (exists r :: r in rows && x in Outcome(r, folders, s, now)) || x in Created(rows, folders, ids)
  {
    SyncSettles(rows, folders, s, now, ids);
    FlatMapMember(rows, (r: Row) => Settled(r, s, PathsOf(folders), PathsOf(folders), now), x);
  }

  // ----------------------------------------------------------------- no twins, again

  lemma {:induction false} CreatedNoTwins(rows: seq<Row>, folders: seq<StudyFolder>, ids: seq<string>)
    requires |ids| == |folders| && DistinctFolders(folders) && Fresh(rows, ids)
    ensures NoTwins(Created(rows, folders, ids))
    decreases |folders|
  {
    if folders != [] {
      var n := |folders| - 1;
      FreshPart(rows, ids, n);
      CreatedNoTwins(rows, folders[..n], ids[..n]);
      NotYetListed(folders, n);
      var before := Created(rows, folders[..n], ids[..n]);
      forall x | x in before ensures x.id != ids[n] && x.path != folders[n].path {
        CreatedRows(rows, folders[..n], ids[..n], x);
      }
      var new_ := if exists r :: r in rows && r.path == folders[n].path then [] else [NewRow(ids[n], folders[n])];
      NoTwinsConcat(before, new_);
    }
  }

  lemma SettledNoTwins(rows: seq<Row>, folders: seq<StudyFolder>, s: Scope, now: int)
    requires NoTwins(rows)
    ensures var settled := SettleAll(rows, s, PathsOf(folders), PathsOf(folders), now);
            NoTwins(settled) && forall x :: x in settled ==> exists r :: r in rows && r.id == x.id && r.path == x.path
  {
    var g := (r: Row) => Settled(r, s, PathsOf(folders), PathsOf(folders), now);
    forall r | r in rows ensures Successor(r, g(r)) {
      OutcomeIsSuccessor(r, folders, s, now);
    }
    FlatMapKeepsNoTwins(rows, g);
  }

  lemma SettledAndCreated(rows: seq<Row>, folders: seq<StudyFolder>, s: Scope, now: int, ids: seq<string>)
    requires Proper(rows, folders, s, ids)
    ensures NoTwins(SettleAll(rows, s, PathsOf(folders), PathsOf(folders), now) + Created(rows, folders, ids))
  {
    SettledNoTwins(rows, folders, s, now);
    CreatedNoTwins(rows, folders, ids);
    var settled := SettleAll(rows, s, PathsOf(folders), PathsOf(folders), now);
    CreatedApart(rows, folders, ids, settled);
    NoTwinsConcat(settled, Created(rows, folders, ids));
  }

  /** Ids and paths stay distinct. */
  lemma SyncKeepsNoTwins(rows: seq<Row>, folders: seq<StudyFolder>, s: Scope, now: int, ids: seq<string>)
    requires Proper(rows, folders, s, ids)
    ensures NoTwins(Sync(rows, folders, s, now, ids))
  {
    SettledAndCreated(rows, folders, s, now, ids);
    SyncSettles(rows, folders, s, now, ids);
  }

  lemma CreatedApart(rows: seq<Row>, folders: seq<StudyFolder>, ids: seq<string>, settled: seq<Row>)
    requires |ids| == |folders| && Fresh(rows, ids)
    requires forall x :: x in settled ==> exists r :: r in rows && r.id == x.id && r.path == x.path
    ensures forall x, y :: x in settled && y in Created(rows, folders, ids) ==> x.id != y.id && x.path != y.path
  {
    forall x, y | x in settled && y in Created(rows, folders, ids) ensures x.id != y.id && x.path != y.path {
      CreatedRows(rows, folders, ids, y);
      var r :| r in rows && r.id == x.id && r.path == x.path;
    }
  }

  // ------------------------------------------------------------------------- results

  lemma {:induction false} CreatedFor(rows: seq<Row>, folders: seq<StudyFolder>, ids: seq<string>, k: nat)
    requires |ids| == |folders| && k < |folders| && forall r :: r in rows ==> r.path != folders[k].path
    ensures NewRow(ids[k], folders[k]) in Created(rows, folders, ids)
    decreases |folders|
  {
    var n := |folders| - 1;
    if k < n {
      CreatedFor(rows, folders[..n], ids[..n], k);
    }
  }

  /** Every listed folder ends up with exactly one row, which is not missing: the row it had, under
      its old id, or a new one, public exactly when the folder brings no group. */
  lemma EveryFolderHasItsRow(rows: seq<Row>, folders: seq<StudyFolder>, s: Scope, now: int, ids: seq<string>, k: nat)
    requires Proper(rows, folders, s, ids) && k < |folders|
    ensures exists x :: x in Sync(rows, folders, s, now, ids) && x.path == folders[k].path && x.missing.None?
    ensures forall x :: x in Sync(rows, folders, s, now, ids) && x.path == folders[k].path ==>
              || (exists r :: r in rows && r.path == folders[k].path && x == r.(missing := None))
              || ((forall r :: r in rows ==> r.path != folders[k].path)
                  && x.id == ids[k] && x.workspace == folders[k].workspace && !x.archived
                  && x.groups == folders[k].groups && (x.isPublic <==> folders[k].groups == []))
  {
    var f, after := folders[k], Sync(rows, folders, s, now, ids);
    var x0: Row;
    assert f in folders;
    if r :| r in rows && r.path == f.path {
      x0 := r.(missing := None);
      assert x0 in Outcome(r, folders, s, now);
    } else {
      x0 := NewRow(ids[k], f);
      CreatedFor(rows, folders, ids, k);
    }
    SyncMember(rows, folders, s, now, ids, x0);
    SyncKeepsNoTwins(rows, folders, s, now, ids);
    forall x | x in after && x.path == f.path ensures x == x0 {
      OnlyOne(after, x, x0);
    }
  }

  lemma OutcomeIsSingle(r: Row, folders: seq<StudyFolder>, s: Scope, now: int, x: Row)
    ensures x in Outcome(r, folders, s, now) <==> Outcome(r, folders, s, now) == [x]
    ensures x in Outcome(r, folders, s, now) ==> x.id == r.id && x.path == r.path
  {
    OutcomeIsSuccessor(r, folders, s, now);
  }

  lemma OutcomeOfItsRow(rows: seq<Row>, folders: seq<StudyFolder>, s: Scope, now: int, ids: seq<string>, r: Row, x: Row)
    requires Proper(rows, folders, s, ids) && r in rows && x.id == r.id && x in Sync(rows, folders, s, now, ids)
    ensures x in Outcome(r, folders, s, now)
  {
    SyncMember(rows, folders, s, now, ids, x);
    OldIdIsNotNew(rows, folders, ids, r, x);
    var q :| q in rows && x in Outcome(q, folders, s, now);
    OutcomeIsSingle(q, folders, s, now, x);
    OnlyOne(rows, q, r);
  }

  /** Every row has the outcome that belongs to it, under its own id, whatever the other rows are. */
  lemma EveryRowHasItsOutcome(rows: seq<Row>, folders: seq<StudyFolder>, s: Scope, now: int, ids: seq<string>, r: Row,
      x: Row)
    requires Proper(rows, folders, s, ids) && r in rows && x.id == r.id
    ensures x in Sync(rows, folders, s, now, ids) <==> Outcome(r, folders, s, now) == [x]
  {
    OutcomeIsSingle(r, folders, s, now, x);
    if x in Sync(rows, folders, s, now, ids) {
      OutcomeOfItsRow(rows, folders, s, now, ids, r, x);
    } else {
      SyncMember(rows, folders, s, now, ids, x);
    }
  }

  lemma OldIdIsNotNew(rows: seq<Row>, folders: seq<StudyFolder>, ids: seq<string>, r: Row, x: Row)
    requires |ids| == |folders| && Fresh(rows, ids) && r in rows && x.id == r.id
    ensures x !in Created(rows, folders, ids)
  {
    if x in Created(rows, folders, ids) {
      CreatedRows(rows, folders, ids, x);
    }
  }

  /** A study that reappears keeps its id and its row. */
  lemma ReappearingStudyKeepsItsId(rows: seq<Row>, folders: seq<StudyFolder>, s: Scope, now: int, ids: seq<string>,
      r: Row)
    requires Proper(rows, folders, s, ids) && r in rows && r.path in PathsOf(folders)
    ensures r.(missing := None) in Sync(rows, folders, s, now, ids)
  {
    EveryRowHasItsOutcome(rows, folders, s, now, ids, r, r.(missing := None));
  }

  /** Default-workspace and archived studies are never marked and never dropped. */
  lemma ProtectedStudiesStay(rows: seq<Row>, folders: seq<StudyFolder>, s: Scope, now: int, ids: seq<string>, r: Row)
    requires Proper(rows, folders, s, ids) && r in rows && (r.archived || r.workspace == DEFAULT_WORKSPACE_NAME)
    ensures (if r.path in PathsOf(folders) then r.(missing := None) else r) in Sync(rows, folders, s, now, ids)
  {
    var x := if r.path in PathsOf(folders) then r.(missing := None) else r;
    EveryRowHasItsOutcome(rows, folders, s, now, ids, r, x);
  }

  /** After the synchronisation, an external unarchived study of the scope that was not listed is
      marked missing, since at most the grace period. */
  lemma UnseenStudiesAreMarked(rows: seq<Row>, folders: seq<StudyFolder>, s: Scope, now: int, ids: seq<string>, x: Row)
    requires Proper(rows, folders, s, ids) && x in Sync(rows, folders, s, now, ids)
    requires InScope(s, x.path) && Unseen(x, PathsOf(folders))
    ensures x.missing.Some? && x.missing.value >= now - MAX_MISSING_STUDY_TIMEOUT
  {
    SyncMember(rows, folders, s, now, ids, x);
    NewRowsAreListed(rows, folders, ids, x);
    var r :| r in rows && x in Outcome(r, folders, s, now);
    UnseenOutcome(r, folders, s, now, x);
  }

  lemma NewRowsAreListed(rows: seq<Row>, folders: seq<StudyFolder>, ids: seq<string>, x: Row)
    requires |ids| == |folders|
    ensures x in Created(rows, folders, ids) ==> x.path in PathsOf(folders) && x.missing.None?
  {
    if x in Created(rows, folders, ids) {
      CreatedRows(rows, folders, ids, x);
    }
  }

  lemma UnseenOutcome(r: Row, folders: seq<StudyFolder>, s: Scope, now: int, x: Row)
    requires x in Outcome(r, folders, s, now) && InScope(s, x.path) && Unseen(x, PathsOf(folders))
    ensures x.missing.Some? && x.missing.value >= now - MAX_MISSING_STUDY_TIMEOUT
  {
    OutcomeIsSuccessor(r, folders, s, now);
  }

  lemma OutcomeSettled(r: Row, folders: seq<StudyFolder>, s: Scope, now: int, x: Row)
    requires x in Outcome(r, folders, s, now)
    ensures Outcome(x, folders, s, now) == [x]
  {
  }

  lemma NewRowSettled(folders: seq<StudyFolder>, s: Scope, now: int, x: Row)
    requires x.path in PathsOf(folders) && x.missing.None?
    ensures Outcome(x, folders, s, now) == [x]
  {
    assert x.(missing := None) == x;
  }

  lemma {:induction false} NothingCreated(rows: seq<Row>, folders: seq<StudyFolder>, ids: seq<string>)
    requires |ids| == |folders| && forall f :: f in folders ==> exists r :: r in rows && r.path == f.path
    ensures Created(rows, folders, ids) == []
    decreases |folders|
  {
    if folders != [] {
      forall f | f in folders[..|folders| - 1] ensures f in folders {
      }
      assert folders[|folders| - 1] in folders;
      NothingCreated(rows, folders[..|folders| - 1], ids[..|folders| - 1]);
    }
  }

  /** Repeating the synchronisation with the same folders and clock changes nothing. */
  lemma SyncTwiceIsOnce(rows: seq<Row>, folders: seq<StudyFolder>, s: Scope, now: int, ids: seq<string>,
      ids2: seq<string>)
    requires Proper(rows, folders, s, ids)
    requires |ids2| == |folders| && Fresh(Sync(rows, folders, s, now, ids), ids2)
    ensures Sync(Sync(rows, folders, s, now, ids), folders, s, now, ids2) == Sync(rows, folders, s, now, ids)
  {
    var after := Sync(rows, folders, s, now, ids);
    SyncKeepsNoTwins(rows, folders, s, now, ids);
    SyncSettles(after, folders, s, now, ids2);
    var g := (r: Row) => Settled(r, s, PathsOf(folders), PathsOf(folders), now);
    forall x | x in after ensures g(x) == [x] {
      SyncMember(rows, folders, s, now, ids, x);
      if x in Created(rows, folders, ids) {
        CreatedRows(rows, folders, ids, x);
        NewRowSettled(folders, s, now, x);
      } else {
        var r :| r in rows && x in Outcome(r, folders, s, now);
        OutcomeSettled(r, folders, s, now, x);
      }
    }
    FlatMapIdentity(after, g);
    forall f | f in folders ensures exists r :: r in after && r.path == f.path {
      var k :| 0 <= k < |folders| && folders[k] == f;
      EveryFolderHasItsRow(rows, folders, s, now, ids, k);
    }
    NothingCreated(after, folders, ids2);
  }
}
