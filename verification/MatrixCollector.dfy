/** The matrix service, which ties table rows to files, and the garbage collector. */
module MatrixCollector {
  import opened Options
  import opened MatrixStore

  // ---------------------------------------------------------------- used matrices

  predicate IsWord(c: char) {
    'a' <= c <= 'z' || 'A' <= c <= 'Z' || '0' <= c <= '9' || c == '_'
  }

  /** The length of the longest prefix of word characters. */
  function WordLength(s: string): (n: nat)
    ensures n <= |s|
  {
    if s != [] && IsWord(s[0]) then 1 + WordLength(s[1..]) else 0
  }

  /** `re.match` of `^(\w+)://(.+)$`: a word, the separator, and something without a line break up to
      the end of the text or to its final line break. */
  function ExtractId(uri: string): Option<string> {
    var n := WordLength(uri);
    if n == 0 || |uri| < n + 3 || uri[n..n + 3] != "://" then None
    else
      var rest := uri[n + 3..];
      var body := if rest != [] && rest[|rest| - 1] == '\n' then rest[..|rest| - 1] else rest;
      if body == [] || '\n' in body then None else Some(body)
  }

  function BuildMatrixUri(id: string): string {
    "matrix://" + id
  }

  /** Where matrix ids are looked for; a command block that cannot be parsed is `None`. */
  datatype Sources = Sources(
    links: seq<string>,
    blocks: seq<Option<set<string>>>,
    datasets: seq<set<string>>,
    constants: set<string>)

  function LinkIds(links: seq<string>): set<string> {
    set l | l in links && ExtractId(l).Some? :: ExtractId(l).value
  }

  function BlockIds(blocks: seq<Option<set<string>>>): set<string> {
    set b, id | b in blocks && b.Some? && id in b.value :: id
  }

  function DatasetIds(datasets: seq<set<string>>): set<string> {
    set d, id | d in datasets && id in d :: id
  }

  function Used(s: Sources): set<string> {
    LinkIds(s.links) + BlockIds(s.blocks) + DatasetIds(s.datasets) + s.constants
  }

  /** A matrix is used by a link file, by a command block that can be parsed, by a dataset, or as one
      of the constants. */
  lemma UsedMeans(s: Sources, id: string)
    ensures id in Used(s) <==>
            || (exists l :: l in s.links && ExtractId(l) == Some(id))
            || (exists b :: b in s.blocks && b.Some? && id in b.value)
            || (exists d :: d in s.datasets && id in d)
            || id in s.constants
  {
  }

  /** A letter, a digit or an underscore, by its code. */
  predicate WordCode(n: int) {
    97 <= n <= 122 || 65 <= n <= 90 || 48 <= n <= 57 || n == 95
  }

  /** The text is `w://id`, with a word before the separator and an `id` of one line behind it, up to
      the end or to a final line break. */
  ghost predicate IsUri(uri: string, w: string, id: string) {
    && w != [] && (forall i :: 0 <= i < |w| ==> WordCode(w[i] as int))
    && id != [] && '\n' !in id
    && (uri == w + "://" + id || uri == w + "://" + id + "\n")
  }

  lemma {:induction false} WordEnds(w: string, rest: string)
    requires forall i :: 0 <= i < |w| ==> IsWord(w[i])
    requires rest == [] || !IsWord(rest[0])
    ensures WordLength(w + rest) == |w|
  {
    if w != [] {
      assert (w + rest)[1..] == w[1..] + rest;
      WordEnds(w[1..], rest);
    } else {
      assert w + rest == rest;
    }
  }

  lemma {:induction false} WordOfWordCharacters(s: string)
    ensures forall i :: 0 <= i < WordLength(s) ==> IsWord(s[i])
  {
    if s != [] && IsWord(s[0]) {
      WordOfWordCharacters(s[1..]);
    }
  }

  lemma Separated(w: string, body: string)
    requires forall i :: 0 <= i < |w| ==> IsWord(w[i])
    ensures var uri := w + "://" + body;
            WordLength(uri) == |w| && uri[|w|..|w| + 3] == "://" && uri[|w| + 3..] == body
  {
    WordEnds(w, "://" + body);
    assert w + "://" + body == w + ("://" + body);
  }

  lemma UriIsExtracted(uri: string, w: string, id: string)
    requires IsUri(uri, w, id)
    ensures ExtractId(uri) == Some(id)
  {
    if uri == w + "://" + id {
      Separated(w, id);
      assert id[|id| - 1] in id;
    } else {
      Separated(w, id + "\n");
      assert w + "://" + (id + "\n") == uri;
      assert (id + "\n")[..|id|] == id;
    }
  }

  lemma InThreeParts(uri: string, n: nat)
    requires n + 3 <= |uri|
    ensures uri == uri[..n] + uri[n..n + 3] + uri[n + 3..]
  {
  }

  lemma ExtractedIsUri(uri: string, id: string)
    requires ExtractId(uri) == Some(id)
    ensures IsUri(uri, uri[..WordLength(uri)], id)
  {
    var n := WordLength(uri);
    var rest := uri[n + 3..];
    WordOfWordCharacters(uri);
    InThreeParts(uri, n);
    if rest != id {
      assert rest == id + "\n";
      assert uri[..n] + "://" + (id + "\n") == uri[..n] + "://" + id + "\n";
    }
  }

  /** `extract_id` finds the id of such a text, and nothing in any other. */
  lemma ExtractMeans(uri: string, id: string)
    ensures ExtractId(uri) == Some(id) <==> exists w :: IsUri(uri, w, id)
  {
    if w :| IsUri(uri, w, id) {
      UriIsExtracted(uri, w, id);
    }
    if ExtractId(uri) == Some(id) {
      ExtractedIsUri(uri, id);
    }
  }

  // --------------------------------------------------------------------- service

  datatype Shape = Shape(height: nat, width: nat)

  datatype Store = Store(files: Bucket, records: map<string, Shape>)

  predicate Exists(s: Store, id: string) {
    TsvName(id) in s.files && id in s.records
  }

  function ShapeOf(m: Matrix): Shape {
    Shape(|m|, if m == [] then 0 else |m[0]|)
  }

  function CreatedIn(s: Store, hash: seq<int> -> string, m: Matrix): Store {
    Store(Saved(s.files, hash, m), s.records[hash(Cells(m)) := ShapeOf(m)])
  }

  /** Both deletions ignore what is not there. */
  function DeletedFrom(s: Store, id: string): Store {
    Store(Deleted(s.files, id), s.records - {id})
  }

  // ------------------------------------------------------------------- collector

  /** `name.split(".")[0]`. */
  function Stem(name: string): string {
    if name == [] || name[0] == '.' then [] else [name[0]] + Stem(name[1..])
  }

  function SavedIds(files: Bucket): set<string> {
    set name | name in files :: Stem(name)
  }

  /** The matrix file or the lock file of an id of `ids` whose matrix file is there. */
  predicate Belongs(s: Store, ids: set<string>, name: string) {
    exists id :: id in ids && TsvName(id) in s.files && (name == TsvName(id) || name == LockName(id))
  }

  /** Drop every id of `ids`. */
  function Cleaned(s: Store, ids: set<string>): Store {
    Store(
      map name | name in s.files && !Belongs(s, ids, name) :: s.files[name],
      s.records - ids)
  }

  function Clean(s: Store, used: set<string>, dryRun: bool): Store {
    if dryRun then s else Cleaned(s, SavedIds(s.files) - used)
  }

  class MatrixService {
    const content: MatrixContentRepository
    var records: map<string, Shape>

    ghost predicate Valid()
      reads this, content
    {
      content.Valid()
    }

    ghost function Model(): Store
      reads this, content
    {
      Store(content.files, records)
    }

    constructor (content: MatrixContentRepository)
      requires content.Valid()
      ensures this.content == content && Valid() && Model() == Store(content.files, map[])
    {
      this.content := content;
      records := map[];
    }

    method Create(m: Matrix) returns (id: string)
      requires Valid()
      modifies this, content
      ensures Valid() && Model() == CreatedIn(old(Model()), content.hash, m)
      ensures id == content.hash(Cells(m)) && Exists(Model(), id)
      ensures records[id].height == |m| && (m != [] ==> records[id].width == |m[0]|)
    {
      id := content.Save(m);
      records := records[id := Shape(|m|, if m == [] then 0 else |m[0]|)];
    }

    /** `get`: the row's height and width with the file's data; a row without a file is an error. */
    method Get(id: string) returns (r: Option<(Shape, Fetched)>)
      requires Valid()
      ensures r.Some? <==> id in records
      ensures r.Some? ==> r.value.0 == records[id] && (r.value.1.Found? <==> TsvName(id) in content.files)
      ensures r.Some? && r.value.1.Found? ==>
                content.files[TsvName(id)].Tsv? && r.value.1.matrix == Loaded(content.files[TsvName(id)])
    {
      if id !in records {
        return None;
      }
      var fetched := content.Get(id);
      return Some((records[id], fetched));
    }

    /** `exists`: both a row and a file. */
    method HasMatrix(id: string) returns (r: bool)
      requires Valid()
      ensures r <==> Exists(Model(), id)
    {
      var file := content.Exists(id);
      r := file && id in records;
    }

    method Delete(id: string)
      requires Valid()
      modifies this, content
      ensures Valid() && Model() == DeletedFrom(old(Model()), id)
      ensures records == old(records) - {id} && id + ".tsv" !in content.files
      ensures forall name :: name in content.files <==>
                name in old(content.files)
                    && !(id + ".tsv" in old(content.files) && name in {id + ".tsv", id + ".tsv.lock"})
    {
      records := records - {id};
      var ok := content.Delete(id);
    }
  }

  class MatrixGarbageCollector {
    const service: MatrixService
    const dryRun: bool

    constructor (service: MatrixService, dryRun: bool)
      ensures this.service == service && this.dryRun == dryRun
    {
      this.service := service;
      this.dryRun := dryRun;
    }

    method CleanMatrices(sources: Sources)
      requires service.Valid()
      modifies service, service.content
      ensures service.Valid() && service.Model() == Clean(old(service.Model()), Used(sources), dryRun)
      ensures dryRun ==> service.Model() == old(service.Model())
      ensures !dryRun ==> forall id :: Exists(service.Model(), id) <==>
                && Exists(old(service.Model()), id)
                && (|| (exists l :: l in sources.links && ExtractId(l) == Some(id))
                    || (exists b :: b in sources.blocks && b.Some? && id in b.value)
                    || (exists d :: d in sources.datasets && id in d)
                    || id in sources.constants)
    {
      if !dryRun {
        CleanLeaves(service.Model(), service.content.hash, sources);
      }
      var saved := set name | name in service.content.files :: Stem(name);
      var unused := saved - Used(sources);
      DeleteUnusedSavedMatrices(unused);
    }

    method DeleteUnusedSavedMatrices(unused: set<string>)
      requires service.Valid()
      modifies service, service.content
      ensures service.Valid()
      ensures service.Model() == if dryRun then old(service.Model()) else Cleaned(old(service.Model()), unused)
    {
      var todo, done: set<string> := unused, {};
      CleanedNothing(service.Model());
      while todo != {}
        invariant service.Valid() && done + todo == unused && done !! todo
        invariant service.Model() == if dryRun then old(service.Model()) else Cleaned(old(service.Model()), done)
        decreases |todo|
      {
        var id :| id in todo;
        if !dryRun {
          CleanedOneMore(old(service.Model()), done, id);
          service.Delete(id);
        }
        todo, done := todo - {id}, done + {id};
      }
      assert done == unused;
    }
  }

  lemma CleanedNothing(s: Store)
    ensures Cleaned(s, {}) == s
  {
    assert Cleaned(s, {}).files == s.files;
  }

  lemma CleanedOneMore(s: Store, done: set<string>, id: string)
    requires id !in done
    ensures DeletedFrom(Cleaned(s, done), id) == Cleaned(s, done + {id})
  {
    StillThere(s, done, id);
    var a, b := DeletedFrom(Cleaned(s, done), id), Cleaned(s, done + {id});
    assert a.records == b.records;
    assert a.files == b.files;
  }

  lemma StillThere(s: Store, done: set<string>, id: string)
    requires id !in done
    ensures TsvName(id) in Cleaned(s, done).files <==> TsvName(id) in s.files
  {
    forall other | other in done ensures TsvName(id) != TsvName(other) && TsvName(id) != LockName(other) {
      TsvIsNoLock(id, other);
      if TsvName(id) == TsvName(other) {
        SameTsv(id, other);
      }
    }
  }

  // --------------------------------------------------------------------- results

  lemma {:induction false} StemOf(id: string, rest: string)
    requires '.' !in id && rest != [] && rest[0] == '.'
    ensures Stem(id + rest) == id
  {
    if id != [] {
      assert (id + rest)[1..] == id[1..] + rest;
      StemOf(id[1..], rest);
    } else {
      assert id + rest == rest;
    }
  }

  /** Which matrix files are left: those that were there and are used. */
  lemma CleanKeepsUsedFiles(s: Store, hash: seq<int> -> string, used: set<string>, id: string)
    requires GoodHash(hash) && Inv(s.files, hash)
    ensures TsvName(id) in Clean(s, used, false).files <==> TsvName(id) in s.files && id in used
  {
    if TsvName(id) in s.files {
      TsvIsMatrix(s.files, hash, id);
      assert '.' !in id;
      StemOf(id, ".tsv");
      assert id in SavedIds(s.files);
      if id in used {
        StillThere(s, SavedIds(s.files) - used, id);
      }
    }
  }

  /** After a clean that is not a dry run, a matrix exists exactly if it did before and is used. */
  lemma CleanKeepsExactlyUsed(s: Store, hash: seq<int> -> string, used: set<string>, id: string)
    requires GoodHash(hash) && Inv(s.files, hash)
    ensures Exists(Clean(s, used, false), id) <==> Exists(s, id) && id in used
  {
    CleanKeepsUsedFiles(s, hash, used, id);
  }

  lemma CleanLeaves(s: Store, hash: seq<int> -> string, sources: Sources)
    requires GoodHash(hash) && Inv(s.files, hash)
    ensures forall id :: Exists(Clean(s, Used(sources), false), id) <==>
              && Exists(s, id)
              && (|| (exists l :: l in sources.links && ExtractId(l) == Some(id))
                  || (exists b :: b in sources.blocks && b.Some? && id in b.value)
                  || (exists d :: d in sources.datasets && id in d)
                  || id in sources.constants)
  {
    forall id ensures Exists(Clean(s, Used(sources), false), id) <==> Exists(s, id) && id in Used(sources) {
      CleanKeepsExactlyUsed(s, hash, Used(sources), id);
    }
    forall id {
      UsedMeans(sources, id);
    }
  }

  lemma CleanKeepsInv(s: Store, hash: seq<int> -> string, used: set<string>)
    requires Inv(s.files, hash)
    ensures Inv(Clean(s, used, false).files, hash)
  {
  }

  /** A second clean changes nothing at all, even when lock files without a matrix are left over. */
  lemma CleanTwiceIsOnce(s: Store, hash: seq<int> -> string, used: set<string>)
    requires GoodHash(hash) && Inv(s.files, hash)
    ensures Clean(Clean(s, used, false), used, false) == Clean(s, used, false)
  {
    var once := Clean(s, used, false);
    var unused := SavedIds(once.files) - used;
    forall id | id in unused ensures TsvName(id) !in once.files {
      CleanKeepsUsedFiles(s, hash, used, id);
    }
    NothingToClean(once, unused);
  }

  lemma NothingToClean(s: Store, ids: set<string>)
    requires forall id :: id in ids ==> TsvName(id) !in s.files && id !in s.records
    ensures Cleaned(s, ids) == s
  {
    assert Cleaned(s, ids).files == s.files;
    assert Cleaned(s, ids).records == s.records;
  }

  datatype Op = CreateOp(m: Matrix) | CleanOp(used: set<string>, dryRun: bool)

  function Apply(s: Store, hash: seq<int> -> string, op: Op): Store {
    match op
    case CreateOp(m) => CreatedIn(s, hash, m)
    case CleanOp(used, dryRun) => Clean(s, used, dryRun)
  }

  function Run(s: Store, hash: seq<int> -> string, ops: seq<Op>): Store {
    if ops == [] then s else Apply(Run(s, hash, ops[..|ops| - 1]), hash, ops[|ops| - 1])
  }

  lemma {:induction false} RunKeepsFiles(s: Store, hash: seq<int> -> string, ops: seq<Op>)
    requires Inv(s.files, hash)
    ensures Inv(Run(s, hash, ops).files, hash)
    decreases |ops|
  {
    if ops != [] {
      var before := Run(s, hash, ops[..|ops| - 1]);
      RunKeepsFiles(s, hash, ops[..|ops| - 1]);
      match ops[|ops| - 1]
      case CreateOp(m) => SaveKeepsInv(before.files, hash, m);
      case CleanOp(used, dryRun) => CleanKeepsInv(before, hash, used);
    }
  }

  /** However often the collector runs, a matrix that every run sees in use keeps its file and its
      row, while other matrices come and go. */
  lemma {:induction false} UsedMatrixSurvives(s: Store, hash: seq<int> -> string, ops: seq<Op>, id: string)
    requires GoodHash(hash) && Inv(s.files, hash) && Exists(s, id)
    requires forall i :: 0 <= i < |ops| && ops[i].CleanOp? ==> id in ops[i].used
    ensures Exists(Run(s, hash, ops), id) && Run(s, hash, ops).files[TsvName(id)] == s.files[TsvName(id)]
    decreases |ops|
  {
    if ops != [] {
      var before := Run(s, hash, ops[..|ops| - 1]);
      UsedMatrixSurvives(s, hash, ops[..|ops| - 1], id);
      RunKeepsFiles(s, hash, ops[..|ops| - 1]);
      match ops[|ops| - 1]
      case CreateOp(m) => SaveAltersNothing(before.files, hash, m, id);
      case CleanOp(used, dryRun) => CleanKeepsExactlyUsed(before, hash, used, id);
    }
  }

  // --------------------------------------------------------------- rows against files

  /** Every row has a file. */
  ghost predicate RowsHaveFiles(s: Store) {
    forall id :: id in s.records ==> TsvName(id) in s.files
  }

  lemma CreateKeepsRowsHaveFiles(s: Store, hash: seq<int> -> string, m: Matrix)
    requires RowsHaveFiles(s)
    ensures RowsHaveFiles(CreatedIn(s, hash, m))
  {
  }

  lemma CleanKeepsRowsHaveFiles(s: Store, used: set<string>, dryRun: bool)
    requires RowsHaveFiles(s)
    ensures RowsHaveFiles(Clean(s, used, dryRun))
  {
    var unused := SavedIds(s.files) - used;
    forall id | id in s.records && id !in unused ensures TsvName(id) in Cleaned(s, unused).files {
      StillThere(s, unused, id);
    }
  }

  /** Over any run of creations and cleans no row is left without its file, so `get` never fails on
      a row: the collector drops both or neither. */
  lemma {:induction false} RunKeepsRowsHaveFiles(s: Store, hash: seq<int> -> string, ops: seq<Op>)
    requires RowsHaveFiles(s)
    ensures RowsHaveFiles(Run(s, hash, ops))
    decreases |ops|
  {
    if ops != [] {
      var before := Run(s, hash, ops[..|ops| - 1]);
      RunKeepsRowsHaveFiles(s, hash, ops[..|ops| - 1]);
      match ops[|ops| - 1]
      case CreateOp(m) => CreateKeepsRowsHaveFiles(before, hash, m);
      case CleanOp(used, dryRun) => CleanKeepsRowsHaveFiles(before, used, dryRun);
    }
  }

  /** The row of `id` gives the shape of the data that is read with it. */
  ghost predicate ShapeIsRight(s: Store, id: string) {
    Exists(s, id) && s.files[TsvName(id)].Tsv? ==> s.records[id] == ShapeOf(Loaded(s.files[TsvName(id)]))
  }

  /** The creation of `m` finds no file of another shape, or `m` is the one empty row. */
  predicate Fits(s: Store, hash: seq<int> -> string, m: Matrix) {
    var name := TsvName(hash(Cells(m)));
    if Cells(m) == [] then ShapeOf(m) == Shape(1, 0)
    else name in s.files && s.files[name].Tsv? ==> ShapeOf(s.files[name].lines) == ShapeOf(m)
  }

  /** A creation leaves the right shape in the row exactly when it fits: the row is overwritten, an
      existing file is not. */
  lemma CreateShapeIsRightIffFits(s: Store, hash: seq<int> -> string, m: Matrix)
    requires GoodHash(hash) && Inv(s.files, hash)
    ensures ShapeIsRight(CreatedIn(s, hash, m), hash(Cells(m))) <==> Fits(s, hash, m)
  {
    var id := hash(Cells(m));
    var after := CreatedIn(s, hash, m);
    SaveKeepsInv(s.files, hash, m);
    TsvIsMatrix(after.files, hash, id);
    LoadedCells(after.files[TsvName(id)]);
    if TsvName(id) in s.files {
      TsvIsMatrix(s.files, hash, id);
    }
  }

  lemma CreateSparesShapes(s: Store, hash: seq<int> -> string, m: Matrix, id: string)
    requires GoodHash(hash) && Inv(s.files, hash) && id != hash(Cells(m))
    requires ShapeIsRight(s, id)
    ensures ShapeIsRight(CreatedIn(s, hash, m), id)
  {
    TsvIsNoLock(id, hash(Cells(m)));
    if TsvName(id) == TsvName(hash(Cells(m))) {
      SameTsv(id, hash(Cells(m)));
    }
  }

  /** All creations of a run fit. */
  ghost predicate AllFit(s: Store, hash: seq<int> -> string, ops: seq<Op>) {
    forall i :: 0 <= i < |ops| && ops[i].CreateOp? ==> Fits(Run(s, hash, ops[..i]), hash, ops[i].m)
  }

  lemma AllFitBefore(s: Store, hash: seq<int> -> string, ops: seq<Op>)
    requires ops != [] && AllFit(s, hash, ops)
    ensures AllFit(s, hash, ops[..|ops| - 1])
  {
    var before := ops[..|ops| - 1];
    forall i | 0 <= i < |before| && before[i].CreateOp? ensures Fits(Run(s, hash, before[..i]), hash, before[i].m) {
      assert before[..i] == ops[..i] && before[i] == ops[i];
    }
  }

  /** Over any run of fitting creations and of cleans, rows and data agree on the shape. */
  lemma {:induction false} RunKeepsShapes(s: Store, hash: seq<int> -> string, ops: seq<Op>, id: string)
    requires GoodHash(hash) && Inv(s.files, hash) && ShapeIsRight(s, id) && AllFit(s, hash, ops)
    ensures ShapeIsRight(Run(s, hash, ops), id)
    decreases |ops|
  {
    if ops != [] {
      var before := Run(s, hash, ops[..|ops| - 1]);
      AllFitBefore(s, hash, ops);
      RunKeepsShapes(s, hash, ops[..|ops| - 1], id);
      RunKeepsFiles(s, hash, ops[..|ops| - 1]);
      match ops[|ops| - 1]
      case CreateOp(m) =>
        if id == hash(Cells(m)) {
          CreateShapeIsRightIffFits(before, hash, m);
        } else {
          CreateSparesShapes(before, hash, m, id);
        }
      case CleanOp(used, dryRun) =>
    }
  }

  /** Without fitting they disagree: a row of two cells, then a column of the same two. */
  lemma ReshapedMatrixDisagrees(hash: seq<int> -> string)
    requires GoodHash(hash)
    ensures var s := Run(Store(map[], map[]), hash, [CreateOp([[1, 2]]), CreateOp([[1], [2]])]);
            !ShapeIsRight(s, hash([1, 2]))
  {
    var first := CreateOp([[1, 2]]);
    var second := CreateOp([[1], [2]]);
    assert Cells([[1, 2]]) == [1, 2] && Cells([[1], [2]]) == [1, 2] by {
      assert [[1, 2]][1..] == [] && [[1], [2]][1..] == [[2]] && [[2]][1..] == [];
    }
    var s1 := CreatedIn(Store(map[], map[]), hash, [[1, 2]]);
    assert [first, second][..1] == [first] && [first][..0] == [];
    assert Run(Store(map[], map[]), hash, [first]) == s1;
    SaveKeepsInv(map[], hash, [[1, 2]]);
    CreateShapeIsRightIffFits(s1, hash, [[1], [2]]);
  }

  /** A link file written for a matrix makes it used. */
  lemma LinkedMatrixIsUsed(s: Sources, id: string)
    requires BuildMatrixUri(id) in s.links && id != [] && '\n' !in id
    ensures id in Used(s)
  {
    ExtractBuilt(id);
    assert ExtractId(BuildMatrixUri(id)).value in LinkIds(s.links);
  }

  lemma ExtractBuilt(id: string)
    requires id != [] && '\n' !in id
    ensures ExtractId(BuildMatrixUri(id)) == Some(id)
  {
    var uri := BuildMatrixUri(id);
    WordThenColon("matrix", "//" + id);
    assert uri == "matrix" + ":" + ("//" + id);
    assert uri[9..] == id;
  }

  lemma {:induction false} WordThenColon(w: string, rest: string)
    requires forall i :: 0 <= i < |w| ==> IsWord(w[i])
    ensures WordLength(w + ":" + rest) == |w|
  {
    if w != [] {
      assert (w + ":" + rest)[1..] == w[1..] + ":" + rest;
      WordThenColon(w[1..], rest);
    } else {
      assert w + ":" + rest == ":" + rest;
    }
  }
}
