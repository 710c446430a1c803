/** Whole histories of the table: synchronisations of any scope at any time, with studies created,
    removed, archived and restored in between. */
module DiskSyncHistory {
  import opened Options
  import opened DiskSync
  import opened DiskSyncProofs
  import opened DiskSyncResults
  import opened DiskSyncFates

  datatype Op =
    | Synced(folders: seq<StudyFolder>, scope: Scope, now: int, ids: seq<string>)
    | Added(row: Row)
    | Removed(id: string)
    | Archived(id: string, flag: bool)

  function WithFlag(r: Row, id: string, flag: bool): Row {
    if r.id == id then r.(archived := flag) else r
  }

  ghost predicate Steps(rows: seq<Row>, op: Op, rows': seq<Row>) {
    match op
    case Synced(folders, s, now, ids) => Proper(rows, folders, s, ids) && rows' == Sync(rows, folders, s, now, ids)
    case Added(x) => x.missing.None? && (forall r :: r in rows ==> r.id != x.id && r.path != x.path)
        && rows' == rows + [x]
    case Removed(id) => rows' == FlatMap(rows, (r: Row) => if r.id == id then [] else [r])
    case Archived(id, flag) => rows' == FlatMap(rows, (r: Row) => [WithFlag(r, id, flag)])
  }

  /** Nothing is missing at the start. */
  ghost predicate Run(tables: seq<seq<Row>>, ops: seq<Op>) {
    && |tables| == |ops| + 1
    && NoTwins(tables[0]) && (forall r :: r in tables[0] ==> r.missing.None?)
    && forall i :: 0 <= i < |ops| ==> Steps(tables[i], ops[i], tables[i + 1])
  }

  /** A synchronisation that covers the path has not listed it. */
  predicate Unlisted(op: Op, p: Path) {
    op.Synced? && InScope(op.scope, p) ==> p !in PathsOf(op.folders)
  }

  lemma StepKeepsNoTwins(rows: seq<Row>, op: Op, rows': seq<Row>)
    requires NoTwins(rows) && Steps(rows, op, rows')
    ensures NoTwins(rows')
  {
    match op
    case Synced(folders, s, now, ids) => SyncKeepsNoTwins(rows, folders, s, now, ids);
    case Added(x) => NoTwinsConcat(rows, [x]);
    case Removed(id) => FlatMapKeepsNoTwins(rows, (r: Row) => if r.id == id then [] else [r]);
    case Archived(id, flag) => FlatMapKeepsNoTwins(rows, (r: Row) => [WithFlag(r, id, flag)]);
  }

  /** In every history, ids and paths stay distinct. */
  lemma {:induction false} RunKeepsNoTwins(tables: seq<seq<Row>>, ops: seq<Op>, n: nat)
    requires Run(tables, ops) && n <= |ops|
    ensures NoTwins(tables[n])
    decreases n
  {
    if n > 0 {
      RunKeepsNoTwins(tables, ops, n - 1);
      assert Steps(tables[n - 1], ops[n - 1], tables[n - 1 + 1]);
      StepKeepsNoTwins(tables[n - 1], ops[n - 1], tables[n]);
    }
  }

  /** A missing row was missing since the same time before the step, or the step marked it. */
  ghost predicate CameFrom(rows: seq<Row>, op: Op, x: Row, r: Row) {
    && r in rows && r.id == x.id && r.path == x.path && Unlisted(op, x.path)
    && (r.missing == x.missing || (r.missing.None? && op.Synced? && x.missing == Some(op.now)))
  }

  lemma SyncOrigin(rows: seq<Row>, op: Op, x: Row) returns (r: Row)
    requires op.Synced? && Proper(rows, op.folders, op.scope, op.ids)
    requires x in Sync(rows, op.folders, op.scope, op.now, op.ids) && x.missing.Some?
    ensures CameFrom(rows, op, x, r)
  {
    SyncMember(rows, op.folders, op.scope, op.now, op.ids, x);
    NewRowsAreListed(rows, op.folders, op.ids, x);
    r :| r in rows && x in Outcome(r, op.folders, op.scope, op.now);
    MissingOutcome(r, op, x);
  }

  lemma MissingOutcome(r: Row, op: Op, x: Row)
    requires op.Synced? && x in Outcome(r, op.folders, op.scope, op.now) && x.missing.Some?
    ensures CameFrom([r], op, x, r)
  {
    OutcomeIsSuccessor(r, op.folders, op.scope, op.now);
  }

  lemma Origin(rows: seq<Row>, op: Op, rows': seq<Row>, x: Row) returns (r: Row)
    requires Steps(rows, op, rows') && x in rows' && x.missing.Some?
    ensures CameFrom(rows, op, x, r)
  {
    match op
    case Synced(folders, s, now, ids) => r := SyncOrigin(rows, op, x);
    case Added(y) => r := x;
    case Removed(id) =>
      FlatMapMember(rows, (y: Row) => if y.id == id then [] else [y], x);
      r := x;
    case Archived(id, flag) =>
      FlatMapMember(rows, (y: Row) => [WithFlag(y, id, flag)], x);
      r :| r in rows && x in [WithFlag(r, id, flag)];
  }

  /** Step `m` is the synchronisation that marked the study of `x`; from there to table `n` it
      stayed marked and no synchronisation of its path listed it. */
  ghost predicate MarkedBy(tables: seq<seq<Row>>, ops: seq<Op>, m: nat, n: nat, x: Row)
    requires |tables| == |ops| + 1
  {
    && m < n <= |ops| && ops[m].Synced? && x.missing == Some(ops[m].now)
    && (exists r :: r in tables[m] && r.id == x.id && r.path == x.path && r.missing.None?)
    && (forall k :: m < k <= n ==> exists r ::
        r in tables[k] && r.id == x.id && r.path == x.path && r.missing == x.missing)
    && (forall k :: m <= k < n ==> Unlisted(ops[k], x.path))
  }

  lemma Previous(tables: seq<seq<Row>>, ops: seq<Op>, n: nat, x: Row) returns (r: Row)
    requires Run(tables, ops) && n <= |ops| && x in tables[n] && x.missing.Some?
    ensures n > 0 && CameFrom(tables[n - 1], ops[n - 1], x, r)
  {
    StartsUnmarked(tables, ops, n, x);
    assert Steps(tables[n - 1], ops[n - 1], tables[n - 1 + 1]);
    r := Origin(tables[n - 1], ops[n - 1], tables[n], x);
  }

  lemma {:induction false} MarkOrigin(tables: seq<seq<Row>>, ops: seq<Op>, n: nat, x: Row) returns (m: nat)
    requires Run(tables, ops) && n <= |ops| && x in tables[n] && x.missing.Some?
    ensures MarkedBy(tables, ops, m, n, x)
    decreases n
  {
    var r := Previous(tables, ops, n, x);
    if r.missing == x.missing {
      m := MarkOrigin(tables, ops, n - 1, r);
      StaysMarked(tables, ops, m, n, r, x);
    } else {
      m := n - 1;
      MarkedHere(tables, ops, n, r, x);
    }
  }

  lemma StaysMarked(tables: seq<seq<Row>>, ops: seq<Op>, m: nat, n: nat, r: Row, x: Row)
    requires |tables| == |ops| + 1 && 0 < n <= |ops| && MarkedBy(tables, ops, m, n - 1, r)
    requires x in tables[n] && CameFrom(tables[n - 1], ops[n - 1], x, r) && r.missing == x.missing
    ensures MarkedBy(tables, ops, m, n, x)
  {
  }

  lemma MarkedHere(tables: seq<seq<Row>>, ops: seq<Op>, n: nat, r: Row, x: Row)
    requires |tables| == |ops| + 1 && 0 < n <= |ops|
    requires x in tables[n] && CameFrom(tables[n - 1], ops[n - 1], x, r) && r.missing != x.missing
    ensures MarkedBy(tables, ops, n - 1, n, x)
  {
  }

  lemma StartsUnmarked(tables: seq<seq<Row>>, ops: seq<Op>, n: nat, x: Row)
    requires Run(tables, ops) && n <= |ops| && x in tables[n] && x.missing.Some?
    ensures n > 0
  {
  }

  /** Over every history: a synchronisation drops a study at time T only if an earlier one marked it
      at some t more than two days before T and it has stayed marked since, none of the
      synchronisations from then on, the dropping one included, having listed its path. */
  lemma DroppedOnlyAfterGrace(tables: seq<seq<Row>>, ops: seq<Op>, n: nat, x: Row) returns (m: nat)
    requires Run(tables, ops) && n < |ops| && ops[n].Synced?
    requires x in tables[n] && forall y :: y in tables[n + 1] ==> y.id != x.id
    ensures MarkedBy(tables, ops, m, n, x)
    ensures ops[n].now - ops[m].now > 2 * 24 * 3600
    ensures !x.archived && x.workspace != "default" && Reached(ops[n].scope, x.path)
    ensures forall k :: m <= k <= n && ops[k].Synced? && Reached(ops[k].scope, x.path) ==>
              !Listed(ops[k].folders, x.path)
  {
    assert Steps(tables[n], ops[n], tables[n + 1]);
    DroppedIsExpired(tables[n], ops[n], tables[n + 1], x);
    m := MarkOrigin(tables, ops, n, x);
    forall k | m <= k <= n && ops[k].Synced? && Reached(ops[k].scope, x.path)
      ensures !Listed(ops[k].folders, x.path)
    {
      ScopeMeans(ops[k].scope, x.path);
      assert Unlisted(ops[k], x.path);
      UnlistedMeans(ops[k], x.path);
    }
    ScopeMeans(ops[n].scope, x.path);
  }

  lemma UnlistedMeans(op: Op, p: Path)
    requires Unlisted(op, p) && op.Synced? && InScope(op.scope, p)
    ensures !Listed(op.folders, p)
  {
    forall f | f in op.folders ensures f.path != p {
      assert f.path in PathsOf(op.folders);
    }
  }

  lemma DroppedIsExpired(rows: seq<Row>, op: Op, rows': seq<Row>, x: Row)
    requires op.Synced? && Steps(rows, op, rows') && x in rows && forall y :: y in rows' ==> y.id != x.id
    ensures InScope(op.scope, x.path) && Expired(x, PathsOf(op.folders), op.now)
  {
    var out := Outcome(x, op.folders, op.scope, op.now);
    OutcomeIsSuccessor(x, op.folders, op.scope, op.now);
    if out != [] {
      EveryRowHasItsOutcome(rows, op.folders, op.scope, op.now, op.ids, x, out[0]);
    }
  }

  /** And it drops one that qualifies: marked long enough, external, unarchived, unseen again. */
  lemma DroppedAfterGrace(rows: seq<Row>, folders: seq<StudyFolder>, s: Scope, now: int, ids: seq<string>, x: Row)
    requires Proper(rows, folders, s, ids) && x in rows && InScope(s, x.path) && Expired(x, PathsOf(folders), now)
    ensures forall y :: y in Sync(rows, folders, s, now, ids) ==> y.id != x.id
  {
    forall y | y in Sync(rows, folders, s, now, ids) ensures y.id != x.id {
      if y.id == x.id {
        EveryRowHasItsOutcome(rows, folders, s, now, ids, x, y);
      }
    }
  }
}
