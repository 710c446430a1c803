/** The content-addressed matrix store: files named by the hash of their cells, and a table row for
    each matrix. A cell is a number in units of the eighteenth decimal, which is what a file keeps. */
module MatrixStore {
  /** Rows of equal length; the cells of a matrix are the rows one after the other. */
  type Matrix = seq<seq<int>>

  function Cells(m: Matrix): seq<int> {
    if m == [] then [] else m[0] + Cells(m[1..])
  }

  datatype File = Tsv(lines: Matrix) | LockFile

  function TsvName(id: string): string {
    id + ".tsv"
  }

  function LockName(id: string): string {
    id + ".tsv.lock"
  }

  /** The digest of the buffer: no two buffers share one, and it is a hexadecimal text. */
  ghost predicate GoodHash(hash: seq<int> -> string) {
    && (forall a, b :: hash(a) == hash(b) ==> a == b)
    && (forall a :: '.' !in hash(a))
  }

  /** What is written: nothing at all for a matrix without cells. */
  function Written(m: Matrix): File {
    Tsv(if Cells(m) == [] then [] else m)
  }

  /** What is read back: a file without cells is read as one empty row. */
  function Loaded(f: File): Matrix
    requires f.Tsv?
  {
    if Cells(f.lines) == [] then [[]] else f.lines
  }

  type Bucket = map<string, File>

  function Saved(files: Bucket, hash: seq<int> -> string, m: Matrix): Bucket {
    var id := hash(Cells(m));
    if TsvName(id) in files then files else files[LockName(id) := LockFile][TsvName(id) := Written(m)]
  }

  /** Without the file, `unlink` raises before the lock file is looked at. */
  function Deleted(files: Bucket, id: string): Bucket {
    if TsvName(id) in files then files - {TsvName(id), LockName(id)} else files
  }

  /** Every matrix file holds cells that hash to its name, and the rest are lock files. */
  ghost predicate Inv(files: Bucket, hash: seq<int> -> string) {
    forall name :: name in files ==>
      match files[name]
      case Tsv(lines) => name == TsvName(hash(Cells(lines)))
      case LockFile => exists c :: name == LockName(hash(c))
  }

  datatype Fetched = Found(matrix: Matrix) | FileNotFound

  class MatrixContentRepository {
    const hash: seq<int> -> string
    var files: Bucket

    ghost predicate Valid()
      reads this
    {
      GoodHash(hash) && Inv(files, hash)
    }

    constructor (hash: seq<int> -> string)
      requires GoodHash(hash)
      ensures Valid() && this.hash == hash && files == map[]
    {
      this.hash := hash;
      files := map[];
    }

    method Get(id: string) returns (r: Fetched)
      requires Valid()
      ensures r.Found? <==> TsvName(id) in files
      ensures r.Found? ==> files[TsvName(id)].Tsv? && r.matrix == Loaded(files[TsvName(id)])
      ensures r.Found? ==> hash(Cells(r.matrix)) == id
    {
      if TsvName(id) !in files {
        return FileNotFound;
      }
      TsvIsMatrix(files, hash, id);
      LoadedCells(files[TsvName(id)]);
      var lines := files[TsvName(id)].lines;
      return Found(if Cells(lines) == [] then [[]] else lines);
    }

    method Exists(id: string) returns (r: bool)
      ensures r <==> TsvName(id) in files
    {
      r := TsvName(id) in files;
    }

    method Save(m: Matrix) returns (id: string)
      requires Valid()
      modifies this
      ensures Valid() && files == Saved(old(files), hash, m)
      ensures id == hash(Cells(m)) && id + ".tsv" in files
      ensures id + ".tsv" in old(files) ==> files == old(files)
      ensures id + ".tsv" !in old(files) ==>
                files == old(files)[id + ".tsv.lock" := LockFile][id + ".tsv" := files[id + ".tsv"]]
    {
      SaveKeepsInv(files, hash, m);
      id := hash(Cells(m));
      if TsvName(id) !in files {
        files := files[LockName(id) := LockFile];
        if Cells(m) == [] {
          files := files[TsvName(id) := Tsv([])];
        } else {
          files := files[TsvName(id) := Tsv(m)];
        }
      }
    }

    method Delete(id: string) returns (ok: bool)
      requires Valid()
      modifies this
      ensures Valid() && files == Deleted(old(files), id)
      ensures ok <==> id + ".tsv" in old(files)
      ensures files == if ok then old(files) - {id + ".tsv", id + ".tsv.lock"} else old(files)
    {
      DeleteKeepsInv(files, hash, id);
      if TsvName(id) !in files {
        return false;
      }
      files := files - {TsvName(id)};
      files := files - {LockName(id)};
      assert files == old(files) - {TsvName(id), LockName(id)};
      return true;
    }
  }

  // ---------------------------------------------------------------------- names

  lemma SameTsv(a: string, b: string)
    requires TsvName(a) == TsvName(b)
    ensures a == b
  {
    assert a == TsvName(a)[..|TsvName(a)| - 4];
    assert b == TsvName(b)[..|TsvName(b)| - 4];
  }

  lemma TsvIsNoLock(a: string, b: string)
    ensures TsvName(a) != LockName(b)
  {
    assert TsvName(a)[|TsvName(a)| - 1] == 'v' && LockName(b)[|LockName(b)| - 1] == 'k';
  }

  lemma TsvIsMatrix(files: Bucket, hash: seq<int> -> string, id: string)
    requires Inv(files, hash) && TsvName(id) in files
    ensures files[TsvName(id)].Tsv? && hash(Cells(files[TsvName(id)].lines)) == id
  {
    match files[TsvName(id)]
    case Tsv(lines) => SameTsv(id, hash(Cells(lines)));
    case LockFile =>
      var c :| TsvName(id) == LockName(hash(c));
      TsvIsNoLock(id, hash(c));
  }

  // ------------------------------------------------------------------------- cells

  ghost predicate Rectangular(m: Matrix, width: nat) {
    forall i :: 0 <= i < |m| ==> |m[i]| == width
  }

  /** The cells of a rectangular matrix, row by row: there are height times width of them, and the cell
      in row `i` and column `j` is number `i * width + j`. */
  lemma {:induction false} CellsAreRowMajor(m: Matrix, width: nat, i: nat, j: nat)
    requires Rectangular(m, width) && i < |m| && j < width
    ensures |Cells(m)| == |m| * width
    ensures i * width + j < |Cells(m)| && Cells(m)[i * width + j] == m[i][j]
  {
    CellCount(m, width);
    RowBefore(i, |m|, width, j);
    if i > 0 {
      assert Rectangular(m[1..], width);
      CellsAreRowMajor(m[1..], width, i - 1, j);
      assert i * width + j == width + ((i - 1) * width + j);
    }
  }

  lemma {:induction false} CellCount(m: Matrix, width: nat)
    requires Rectangular(m, width)
    ensures |Cells(m)| == |m| * width
  {
    if m != [] {
      CellCount(m[1..], width);
    }
  }

  lemma RowBefore(i: nat, height: nat, width: nat, j: nat)
    requires i < height && j < width
    ensures i * width + j < height * width
  {
    assert (i + 1) * width <= height * width;
  }

  // ------------------------------------------------------------------ save and get

  lemma LoadedCells(f: File)
    requires f.Tsv?
    ensures Cells(Loaded(f)) == Cells(f.lines)
  {
    assert Cells([[]]) == [];
  }

  lemma WrittenCells(m: Matrix)
    ensures Cells(Written(m).lines) == Cells(m)
  {
  }

  lemma SaveKeepsInv(files: Bucket, hash: seq<int> -> string, m: Matrix)
    requires Inv(files, hash)
    ensures Inv(Saved(files, hash, m), hash)
  {
    WrittenCells(m);
  }

  lemma DeleteKeepsInv(files: Bucket, hash: seq<int> -> string, id: string)
    requires Inv(files, hash)
    ensures Inv(Deleted(files, id), hash)
  {
  }

  /** A save never alters a file that exists: not its cells, not its shape. */
  lemma SaveAltersNothing(files: Bucket, hash: seq<int> -> string, m: Matrix, id: string)
    requires Inv(files, hash) && TsvName(id) in files
    ensures TsvName(id) in Saved(files, hash, m) && Saved(files, hash, m)[TsvName(id)] == files[TsvName(id)]
  {
    TsvIsNoLock(id, hash(Cells(m)));
  }

  /** After a save, the matrix is found under the returned id with the same row-major cells; it is
      the saved matrix itself exactly when it has cells and no matrix of another shape with the same
      cells was there before, or is the one empty row. */
  lemma SaveThenGet(files: Bucket, hash: seq<int> -> string, m: Matrix)
    requires GoodHash(hash) && Inv(files, hash)
    ensures var name := TsvName(hash(Cells(m)));
            var after := Saved(files, hash, m);
            && name in after && after[name].Tsv?
            && Cells(Loaded(after[name])) == Cells(m)
            && (Loaded(after[name]) == m <==>
                  if Cells(m) == [] then m == [[]] else name !in files || files[name] == Tsv(m))
  {
    var id := hash(Cells(m));
    var after := Saved(files, hash, m);
    SaveKeepsInv(files, hash, m);
    TsvIsMatrix(after, hash, id);
    LoadedCells(after[TsvName(id)]);
  }

  // ------------------------------------------------------------------------ runs

  datatype Op = SaveOp(m: Matrix) | DeleteOp(id: string)

  function Apply(files: Bucket, hash: seq<int> -> string, op: Op): Bucket {
    match op
    case SaveOp(m) => Saved(files, hash, m)
    case DeleteOp(id) => Deleted(files, id)
  }

  function Run(files: Bucket, hash: seq<int> -> string, ops: seq<Op>): Bucket {
    if ops == [] then files else Apply(Run(files, hash, ops[..|ops| - 1]), hash, ops[|ops| - 1])
  }

  /** In every run of saves and deletions, each stored file's cells hash to its name. */
  lemma {:induction false} RunKeepsInv(files: Bucket, hash: seq<int> -> string, ops: seq<Op>)
    requires Inv(files, hash)
    ensures Inv(Run(files, hash, ops), hash)
    decreases |ops|
  {
    if ops != [] {
      var before := Run(files, hash, ops[..|ops| - 1]);
      RunKeepsInv(files, hash, ops[..|ops| - 1]);
      match ops[|ops| - 1]
      case SaveOp(m) => SaveKeepsInv(before, hash, m);
      case DeleteOp(id) => DeleteKeepsInv(before, hash, id);
    }
  }

  lemma DeleteSpares(files: Bucket, id: string, other: string)
    requires TsvName(id) in files && other != id
    ensures TsvName(id) in Deleted(files, other) && Deleted(files, other)[TsvName(id)] == files[TsvName(id)]
  {
    TsvIsNoLock(id, other);
    if TsvName(id) == TsvName(other) {
      SameTsv(id, other);
    }
  }

  /** A saved matrix stays readable, with its cells and its shape, for as long as it is not deleted. */
  lemma {:induction false} StaysUntilDeleted(files: Bucket, hash: seq<int> -> string, ops: seq<Op>, id: string)
    requires Inv(files, hash) && TsvName(id) in files && forall i :: 0 <= i < |ops| ==> ops[i] != DeleteOp(id)
    ensures TsvName(id) in Run(files, hash, ops) && Run(files, hash, ops)[TsvName(id)] == files[TsvName(id)]
    decreases |ops|
  {
    if ops != [] {
      var before := Run(files, hash, ops[..|ops| - 1]);
      StaysUntilDeleted(files, hash, ops[..|ops| - 1], id);
      RunKeepsInv(files, hash, ops[..|ops| - 1]);
      match ops[|ops| - 1]
      case SaveOp(m) => SaveAltersNothing(before, hash, m, id);
      case DeleteOp(other) => DeleteSpares(before, id, other);
    }
  }
}
