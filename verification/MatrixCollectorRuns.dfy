/** A clean while others work: the collector lists the files, then reads what is used, then deletes
    one matrix after the other; creations and changes of use fall in between. */
module MatrixCollectorRuns {
  import opened Sequences
  import opened MatrixStore
  import opened MatrixCollector

  datatype Collector = Resting | Listed(saved: set<string>) | Deleting(unused: set<string>)

  datatype World = World(store: Store, used: set<string>, collector: Collector)

  datatype Step =
    | Create(m: Matrix) | Use(id: string) | Release(id: string)  // by others
    | List | Collect | DropOne(id: string) | Finish              // by the collector

  predicate Enabled(w: World, s: Step) {
    match s
    case Create(_) => true
    case Use(_) => true
    case Release(_) => true
    case List => w.collector.Resting?
    case Collect => w.collector.Listed?
    case DropOne(id) => w.collector.Deleting? && id in w.collector.unused
    case Finish => w.collector == Deleting({})
  }

  function Next(w: World, hash: seq<int> -> string, s: Step): World
    requires Enabled(w, s)
  {
    match s
    case Create(m) => w.(store := CreatedIn(w.store, hash, m))
    case Use(id) => w.(used := w.used + {id})
    case Release(id) => w.(used := w.used - {id})
    case List => w.(collector := Listed(SavedIds(w.store.files)))
    case Collect => w.(collector := Deleting(w.collector.saved - w.used))
    case DropOne(id) => w.(store := DeletedFrom(w.store, id), collector := Deleting(w.collector.unused - {id}))
    case Finish => w.(collector := Resting)
  }

  ghost predicate Steps(w: World, hash: seq<int> -> string, s: Step, w': World) {
    // bound to a name, so that it is proved as one goal and not conjunct by conjunct
    var follows := Enabled(w, s) && w' == Next(w, hash, s);
    follows
  }

  ghost predicate Continues(ws: seq<World>, hash: seq<int> -> string, steps: seq<Step>) {
    && |ws| == |steps| + 1
    && forall i {:trigger steps[i]} :: 0 <= i < |steps| ==> Steps(ws[i], hash, steps[i], ws[i + 1])
  }

  lemma StepOf(ws: seq<World>, hash: seq<int> -> string, steps: seq<Step>, n: nat)
    requires Continues(ws, hash, steps) && n < |steps|
    ensures Steps(ws[n], hash, steps[n], ws[n + 1])
  {
  }

  /** No matrix is put on the list of the deletions while it is in use. */
  ghost predicate UsedWhenCollected(ws: seq<World>, steps: seq<Step>, id: string)
    requires |ws| == |steps| + 1
  {
    forall i {:trigger steps[i]} :: 0 <= i < |steps| && steps[i] == Collect ==> id in ws[i].used
  }

  /** The file of `id` and its row are there, and no deletion of it is due. */
  ghost predicate Safe(w: World, hash: seq<int> -> string, id: string, f: File) {
    // bound to a name, so that it is proved as one goal and not conjunct by conjunct
    var all := Inv(w.store.files, hash) && Exists(w.store, id) && w.store.files[TsvName(id)] == f
               && (w.collector.Deleting? ==> id !in w.collector.unused);
    all
  }

  lemma StepKeepsSafe(w: World, hash: seq<int> -> string, s: Step, w': World, id: string, f: File)
    requires Safe(w, hash, id, f) && Steps(w, hash, s, w') && (s == Collect ==> id in w.used)
    ensures Safe(w', hash, id, f)
  {
    match s
    case Create(m) =>
      SaveKeepsInv(w.store.files, hash, m);
      SaveAltersNothing(w.store.files, hash, m, id);
    case DropOne(other) =>
      DeleteKeepsInv(w.store.files, hash, other);
      DeleteSpares(w.store.files, id, other);
    case _ =>
  }

  /** Whatever the others do, a matrix that no collection finds unused keeps its file, as it was, and
      its row. */
  lemma {:induction false} UsedMatrixSurvivesCleans(ws: seq<World>, hash: seq<int> -> string, steps: seq<Step>,
      n: nat, id: string, f: File)
    requires Continues(ws, hash, steps) && n <= |steps|
    requires Safe(ws[0], hash, id, f) && UsedWhenCollected(ws, steps, id)
    ensures Safe(ws[n], hash, id, f)
    decreases n
  {
    if n > 0 {
      UsedMatrixSurvivesCleans(ws, hash, steps, n - 1, id, f);
      StepOf(ws, hash, steps, n - 1);
      StepKeepsSafe(ws[n - 1], hash, steps[n - 1], ws[n], id, f);
    }
  }

  /** The collector does not look again: during its deletions a matrix is safe, whatever becomes of
      its use, exactly when it is not on the list. */
  lemma SafeExactlyWhenNotListed(w: World, hash: seq<int> -> string, id: string)
    requires Inv(w.store.files, hash) && Exists(w.store, id) && w.collector.Deleting?
    ensures (forall ws: seq<World>, steps: seq<Step> ::
               Continues(ws, hash, steps) && ws[0] == w && Collect !in steps ==> Exists(ws[|steps|].store, id))
       <==> id !in w.collector.unused
  {
    if id in w.collector.unused {
      var ws, steps := [w, Next(w, hash, DropOne(id))], [DropOne(id)];
      assert Continues(ws, hash, steps) && ws[0] == w && Collect !in steps;
    } else {
      forall ws: seq<World>, steps: seq<Step> | Continues(ws, hash, steps) && ws[0] == w && Collect !in steps
        ensures Exists(ws[|steps|].store, id)
      {
        UsedMatrixSurvivesCleans(ws, hash, steps, |steps|, id, w.store.files[TsvName(id)]);
      }
    }
  }

  /** A matrix created, or created again, during the deletions: once they are done it is there
      exactly when it was not on the list. */
  lemma CreatedDuringClean(s: Store, hash: seq<int> -> string, m: Matrix, unused: set<string>)
    requires GoodHash(hash) && Inv(s.files, hash)
    ensures Exists(Cleaned(CreatedIn(s, hash, m), unused), hash(Cells(m))) <==> hash(Cells(m)) !in unused
  {
    var id := hash(Cells(m));
    if id !in unused {
      StillThere(CreatedIn(s, hash, m), unused, id);
    }
  }

  lemma Extended(ws: seq<World>, hash: seq<int> -> string, steps: seq<Step>, s: Step)
    returns (ws': seq<World>, steps': seq<Step>)
    requires Continues(ws, hash, steps) && Enabled(ws[|steps|], s)
    ensures Continues(ws', hash, steps') && ws'[0] == ws[0] && |steps'| == |steps| + 1
    ensures ws'[|steps'|] == Next(ws[|steps|], hash, s)
  {
    var w' := Next(ws[|steps|], hash, s);
    RunSnoc(ws, steps, s, w', (a, b, c) => Steps(a, hash, b, c));
    ws', steps' := ws + [w'], steps + [s];
  }

  /** From an empty store: a matrix that nobody used when the uses were collected, and that was
      created again and used before its deletion came, is in use and gone. */
  lemma UsedMatrixIsLost(hash: seq<int> -> string, m: Matrix) returns (ws: seq<World>, steps: seq<Step>)
    requires GoodHash(hash)
    ensures Continues(ws, hash, steps) && ws[0] == World(Store(map[], map[]), {}, Resting)
    ensures var w, id := ws[|steps|], hash(Cells(m));
            w.collector == Deleting({}) && id in w.used && !Exists(w.store, id)
  {
    var id := hash(Cells(m));
    ws, steps := [World(Store(map[], map[]), {}, Resting)], [];
    ws, steps := Extended(ws, hash, steps, Create(m));
    ws, steps := Extended(ws, hash, steps, List);
    OnlyOneSaved(hash, m);
    ws, steps := Extended(ws, hash, steps, Collect);
    ws, steps := Extended(ws, hash, steps, Create(m));
    ws, steps := Extended(ws, hash, steps, Use(id));
    ws, steps := Extended(ws, hash, steps, DropOne(id));
  }

  lemma OnlyOneSaved(hash: seq<int> -> string, m: Matrix)
    requires GoodHash(hash)
    ensures SavedIds(CreatedIn(Store(map[], map[]), hash, m).files) == {hash(Cells(m))}
  {
    var id := hash(Cells(m));
    var files := CreatedIn(Store(map[], map[]), hash, m).files;
    StemOf(id, ".tsv");
    StemOf(id, ".tsv.lock");
    assert files.Keys == {TsvName(id), LockName(id)};
    assert TsvName(id) in files;
  }
}
