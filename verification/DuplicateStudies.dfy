/** `list_duplicates` and `remove_duplicates`: one study per path. */
module DuplicateStudies {
  import opened Options

  /** A study row; the path column is nullable, and SQL never matches a NULL path. A table is listed
      in the order in which the database answers: the query asks for none, and what is first at a
      path is first in that answer. */
  datatype Entry = Entry(id: string, path: Option<string>)

  /** The ids at a path, in the order of the answer. */
  function IdsAt(rows: seq<Entry>, p: string): seq<string> {
    if rows == [] then []
    else
      var last := rows[|rows| - 1];
      IdsAt(rows[..|rows| - 1], p) + (if last.path == Some(p) then [last.id] else [])
  }

  /** The rows whose path occurs more than once in `all`. */
  function Repeated(rows: seq<Entry>, all: seq<Entry>): seq<Entry> {
    if rows == [] then []
    else
      var last := rows[|rows| - 1];
      Repeated(rows[..|rows| - 1], all)
      + (if last.path.Some? && |IdsAt(all, last.path.value)| > 1 then [last] else [])
  }

  function ListDuplicates(rows: seq<Entry>): seq<Entry> {
    Repeated(rows, rows)
  }

  function Without(rows: seq<Entry>, ids: set<string>): seq<Entry> {
    if rows == [] then []
    else
      var last := rows[|rows| - 1];
      Without(rows[..|rows| - 1], ids) + (if last.id in ids then [] else [last])
  }

  predicate HasPath(rows: seq<Entry>, p: string) {
    exists r :: r in rows && r.path == Some(p)
  }

  /** The first row of every path, and every row without a path. */
  function KeepFirst(rows: seq<Entry>): seq<Entry> {
    if rows == [] then []
    else
      var before, last := rows[..|rows| - 1], rows[|rows| - 1];
      KeepFirst(before) + (if last.path.Some? && HasPath(before, last.path.value) then [] else [last])
  }

  /** The primary key. */
  ghost predicate DistinctIds(rows: seq<Entry>) {
    forall i, j :: 0 <= i < j < |rows| ==> rows[i].id != rows[j].id
  }

  /** The rows that come second or later at their path. */
  ghost predicate Later(rows: seq<Entry>, id: string) {
    exists i, j :: 0 <= j < i < |rows| && rows[i].id == id && rows[i].path.Some? && rows[j].path == rows[i].path
  }

  class StudyService {
    var rows: seq<Entry>

    ghost predicate Valid()
      reads this
    {
      DistinctIds(rows)
    }

    constructor (rows: seq<Entry>)
      requires DistinctIds(rows)
      ensures Valid() && this.rows == rows
    {
      this.rows := rows;
    }

    method RemoveDuplicates()
      requires Valid()
      modifies this
      ensures Valid() && rows == KeepFirst(old(rows))
    {
      var duplicates := ListDuplicates(rows);
      RepeatedHavePaths(rows, rows);
      var byPath := GroupByPath(duplicates);
      var ids := AllButFirst(byPath);
      forall id ensures id in ids <==> Later(rows, id) {
        CollectedAreLater(rows, byPath, ids, id);
      }
      WithoutLater(rows, set id | id in ids);
      KeepFirstDistinct(rows);
      if ids != [] {
        rows := Without(rows, set id | id in ids);
      } else {
        WithoutNobody(rows);
        assert (set id | id in ids) == {};
      }
    }

    /** The dictionary of lists. */
    method GroupByPath(duplicates: seq<Entry>) returns (byPath: map<string, seq<string>>)
      requires forall e :: e in duplicates ==> e.path.Some?
      ensures forall p :: p in byPath ==> byPath[p] == IdsAt(duplicates, p) && byPath[p] != []
      ensures forall p :: p !in byPath ==> IdsAt(duplicates, p) == []
    {
      byPath := map[];
      for i := 0 to |duplicates|
        invariant forall p :: p in byPath ==> byPath[p] == IdsAt(duplicates[..i], p) && byPath[p] != []
        invariant forall p :: p !in byPath ==> IdsAt(duplicates[..i], p) == []
      {
        var e := duplicates[i];
        assert duplicates[..i + 1][..i] == duplicates[..i];
        assert e in duplicates;
        var p := e.path.value;
        byPath := byPath[p := (if p in byPath then byPath[p] else []) + [e.id]];
      }
      assert duplicates[..|duplicates|] == duplicates;
    }

    method AllButFirst(byPath: map<string, seq<string>>) returns (ids: seq<string>)
      requires forall p :: p in byPath ==> byPath[p] != []
      ensures forall id :: id in ids <==> exists p :: p in byPath && id in byPath[p][1..]
    {
      ids := [];
      var todo, done: set<string> := byPath.Keys, {};
      while todo != {}
        invariant todo + done == byPath.Keys
        invariant forall id :: id in ids <==> exists p :: p in done && id in byPath[p][1..]
        decreases |todo|
      {
        var p :| p in todo;
        ids := ids + byPath[p][1..];
        todo, done := todo - {p}, done + {p};
      }
      assert done == byPath.Keys;
    }
  }

  // ------------------------------------------------------------ why it keeps the first

  lemma {:induction false} RepeatedHavePaths(rows: seq<Entry>, all: seq<Entry>)
    ensures forall e :: e in Repeated(rows, all) ==> e.path.Some?
    decreases |rows|
  {
    if rows != [] {
      RepeatedHavePaths(rows[..|rows| - 1], all);
    }
  }

  lemma IdsAtOneMore(rows: seq<Entry>, e: Entry, p: string)
    ensures IdsAt(rows + [e], p) == IdsAt(rows, p) + (if e.path == Some(p) then [e.id] else [])
  {
    assert (rows + [e])[..|rows|] == rows;
  }

  lemma {:induction false} IdsAtRepeated(rows: seq<Entry>, all: seq<Entry>, p: string)
    ensures IdsAt(Repeated(rows, all), p) == if |IdsAt(all, p)| > 1 then IdsAt(rows, p) else []
    decreases |rows|
  {
    if rows != [] {
      var before, last := rows[..|rows| - 1], rows[|rows| - 1];
      IdsAtRepeated(before, all, p);
      IdsAtOneMore(Repeated(before, all), last, p);
      assert Repeated(before, all) + [] == Repeated(before, all);
    }
  }

  lemma {:induction false} IdsAtEmpty(rows: seq<Entry>, p: string)
    ensures IdsAt(rows, p) == [] <==> !HasPath(rows, p)
    decreases |rows|
  {
    if rows != [] {
      assert rows == rows[..|rows| - 1] + [rows[|rows| - 1]];
      IdsAtEmpty(rows[..|rows| - 1], p);
    }
  }

  /** `id` stands at a row with path `p` that is not the first one. */
  ghost predicate LaterAt(rows: seq<Entry>, p: string, id: string) {
    exists i, j :: 0 <= j < i < |rows| && rows[i].id == id && rows[i].path == Some(p) && rows[j].path == Some(p)
  }

  lemma LaterAtOneMore(rows: seq<Entry>, e: Entry, p: string, id: string)
    ensures LaterAt(rows + [e], p, id) <==>
              LaterAt(rows, p, id) || (e.id == id && e.path == Some(p) && HasPath(rows, p))
  {
    var all := rows + [e];
    if LaterAt(rows, p, id) {
      var i, j :| 0 <= j < i < |rows| && rows[i].id == id && rows[i].path == Some(p) && rows[j].path == Some(p);
      assert all[i].id == id && all[i].path == Some(p) && all[j].path == Some(p);
    }
    if e.id == id && e.path == Some(p) && HasPath(rows, p) {
      var r :| r in rows && r.path == Some(p);
      var j :| 0 <= j < |rows| && rows[j] == r;
      assert all[|rows|].id == id && all[|rows|].path == Some(p) && all[j].path == Some(p);
    }
  }

  lemma {:induction false} IdsAtTail(rows: seq<Entry>, p: string, id: string)
    requires IdsAt(rows, p) != []
    ensures id in IdsAt(rows, p)[1..] <==> LaterAt(rows, p, id)
    decreases |rows|
  {
    var before, last := rows[..|rows| - 1], rows[|rows| - 1];
    assert rows == before + [last];
    IdsAtEmpty(before, p);
    LaterAtOneMore(before, last, p, id);
    if IdsAt(before, p) == [] {
      NotLaterAt(before, p, id);
    } else {
      IdsAtTail(before, p, id);
      assert IdsAt(rows, p)[1..] == IdsAt(before, p)[1..] + (if last.path == Some(p) then [last.id] else []);
    }
  }

  lemma NotLaterAt(rows: seq<Entry>, p: string, id: string)
    requires !HasPath(rows, p)
    ensures !LaterAt(rows, p, id)
  {
  }

  lemma CollectedAreLater(rows: seq<Entry>, byPath: map<string, seq<string>>, ids: seq<string>, id: string)
    requires forall p :: p in byPath ==> byPath[p] == IdsAt(ListDuplicates(rows), p) && byPath[p] != []
    requires forall p :: p !in byPath ==> IdsAt(ListDuplicates(rows), p) == []
    requires forall id :: id in ids <==> exists p :: p in byPath && id in byPath[p][1..]
    ensures id in ids <==> Later(rows, id)
  {
    if id in ids {
      var p :| p in byPath && id in byPath[p][1..];
      IdsAtRepeated(rows, rows, p);
      IdsAtTail(rows, p, id);
    }
    if Later(rows, id) {
      var i, j :| 0 <= j < i < |rows| && rows[i].id == id && rows[i].path.Some? && rows[j].path == rows[i].path;
      var p := rows[i].path.value;
      LaterIsListed(rows, p, id);
    }
  }

  lemma LaterIsListed(rows: seq<Entry>, p: string, id: string)
    requires LaterAt(rows, p, id)
    ensures IdsAt(ListDuplicates(rows), p) != [] && id in IdsAt(ListDuplicates(rows), p)[1..]
  {
    IdsAtEmpty(rows, p);
    IdsAtTail(rows, p, id);
    IdsAtRepeated(rows, rows, p);
  }

  lemma LaterAtLast(rows: seq<Entry>, n: nat)
    requires DistinctIds(rows) && n < |rows|
    ensures Later(rows, rows[n].id) <==> rows[n].path.Some? && HasPath(rows[..n], rows[n].path.value)
  {
    if Later(rows, rows[n].id) {
      var i, j :| 0 <= j < i < |rows| && rows[i].id == rows[n].id && rows[i].path.Some? && rows[j].path == rows[i].path;
      assert i == n;
      assert rows[..n][j] in rows[..n];
    }
    if rows[n].path.Some? && HasPath(rows[..n], rows[n].path.value) {
      var r :| r in rows[..n] && r.path == rows[n].path;
      var j :| 0 <= j < n && rows[j] == r;
    }
  }

  lemma {:induction false} WithoutLaterUpTo(rows: seq<Entry>, ids: set<string>, n: nat)
    requires DistinctIds(rows) && n <= |rows| && forall id :: id in ids <==> Later(rows, id)
    ensures Without(rows[..n], ids) == KeepFirst(rows[..n])
    decreases n
  {
    if n > 0 {
      assert rows[..n][..n - 1] == rows[..n - 1];
      WithoutLaterUpTo(rows, ids, n - 1);
      LaterAtLast(rows, n - 1);
    }
  }

  lemma WithoutLater(rows: seq<Entry>, ids: set<string>)
    requires DistinctIds(rows) && forall id :: id in ids <==> Later(rows, id)
    ensures Without(rows, ids) == KeepFirst(rows)
  {
    WithoutLaterUpTo(rows, ids, |rows|);
    assert rows[..|rows|] == rows;
  }

  lemma {:induction false} WithoutNobody(rows: seq<Entry>)
    ensures Without(rows, {}) == rows
    decreases |rows|
  {
    if rows != [] {
      WithoutNobody(rows[..|rows| - 1]);
      assert rows == rows[..|rows| - 1] + [rows[|rows| - 1]];
    }
  }

  // -------------------------------------------------------------------------- results

  lemma {:induction false} KeepFirstMembers(rows: seq<Entry>)
    ensures forall r :: r in KeepFirst(rows) ==> r in rows
    ensures forall p :: HasPath(KeepFirst(rows), p) <==> HasPath(rows, p)
    decreases |rows|
  {
    if rows != [] {
      var before, last := rows[..|rows| - 1], rows[|rows| - 1];
      assert rows == before + [last];
      KeepFirstMembers(before);
      forall p ensures HasPath(KeepFirst(rows), p) <==> HasPath(rows, p) {
        PathOneMore(before, last, p);
        PathOneMore(KeepFirst(before), last, p);
      }
    }
  }

  lemma PathOneMore(rows: seq<Entry>, e: Entry, p: string)
    ensures HasPath(rows + [e], p) <==> HasPath(rows, p) || e.path == Some(p)
  {
    assert e in rows + [e];
    if HasPath(rows, p) {
      var r :| r in rows && r.path == Some(p);
      assert r in rows + [e];
    }
  }

  lemma {:induction false} KeepFirstDistinct(rows: seq<Entry>)
    requires DistinctIds(rows)
    ensures DistinctIds(KeepFirst(rows))
    decreases |rows|
  {
    if rows != [] {
      var before, last := rows[..|rows| - 1], rows[|rows| - 1];
      KeepFirstDistinct(before);
      KeepFirstMembers(before);
      forall r | r in before ensures r.id != last.id {
        var i :| 0 <= i < |before| && before[i] == r;
        assert rows[i].id != rows[|rows| - 1].id;
      }
    }
  }

  /** At most one row per path, and the same paths as before. */
  lemma {:induction false} OneRowPerPath(rows: seq<Entry>)
    ensures forall i, j :: 0 <= i < j < |KeepFirst(rows)| && KeepFirst(rows)[i].path.Some? ==>
              KeepFirst(rows)[i].path != KeepFirst(rows)[j].path
    ensures forall p :: HasPath(KeepFirst(rows), p) <==> HasPath(rows, p)
    decreases |rows|
  {
    KeepFirstMembers(rows);
    if rows != [] {
      var before := rows[..|rows| - 1];
      OneRowPerPath(before);
      KeepFirstMembers(before);
      forall k | 0 <= k < |KeepFirst(before)| && KeepFirst(before)[k].path.Some?
        ensures HasPath(before, KeepFirst(before)[k].path.value)
      {
        assert KeepFirst(before)[k] in KeepFirst(before);
      }
    }
  }

  /** A row stays exactly when it has no path or is the first of its path: rows that were alone at
      their path are not touched. */
  lemma {:induction false} StaysIffFirst(rows: seq<Entry>, i: nat)
    requires DistinctIds(rows) && i < |rows|
    ensures rows[i] in KeepFirst(rows) <==> rows[i].path.None? || !HasPath(rows[..i], rows[i].path.value)
    decreases |rows|
  {
    var n := |rows| - 1;
    var before := rows[..n];
    KeepFirstMembers(before);
    if i < n {
      assert before[i] == rows[i] && before[..i] == rows[..i];
      StaysIffFirst(before, i);
      assert rows[i].id != rows[n].id;
    } else if rows[n] in KeepFirst(before) {
      NotEarlier(rows);
    }
  }

  lemma NotEarlier(rows: seq<Entry>)
    requires DistinctIds(rows) && rows != []
    ensures rows[|rows| - 1] !in rows[..|rows| - 1]
  {
  }
}
