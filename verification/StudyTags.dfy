/** `update_tags`: an index of tags that is shared by all studies and ignores case. */
module StudyTags {
  import opened Text

  /** The `upper` of Python and that of the database, which may know fewer letters. */
  datatype Casing = Casing(python: string -> string, database: string -> string)

  /** Of two spellings of a label the database finds each one under its upper form. */
  ghost predicate FindsSpellings(c: Casing, labels: iset<string>) {
    forall x, y :: x in labels && y in labels && x != y && c.python(x) == c.python(y) ==>
      c.database(x) == c.python(x)
  }

  /** The database finds no label under the upper form of another. */
  ghost predicate FindsNoOther(c: Casing, labels: iset<string>) {
    forall x, y :: x in labels && y in labels && c.database(x) == c.python(y) ==> c.python(x) == c.python(y)
  }

  /** The `tag` table (label to color) and the `study_tag` table (study, label). */
  datatype Tables = Tables(colors: map<string, string>, links: set<(string, string)>)

  function LabelsOf(t: Tables, study: string): set<string> {
    set p | p in t.links && p.0 == study :: p.1
  }

  function UpperSet(c: Casing, labels: set<string>): set<string> {
    set l | l in labels :: c.python(l)
  }

  function Requested(c: Casing, tags: seq<string>): set<string> {
    set t | t in tags :: c.python(t)
  }

  /** The dictionary built from the request: of two spellings, the later one. */
  function Spellings(c: Casing, tags: seq<string>): (m: map<string, string>)
    ensures m.Keys == Requested(c, tags)
    ensures forall u :: u in m ==> m[u] in tags && c.python(m[u]) == u
  {
    if tags == [] then map[]
    else
      var last := tags[|tags| - 1];
      assert tags == tags[..|tags| - 1] + [last];
      Spellings(c, tags[..|tags| - 1])[c.python(last) := last]
  }

  /** The tags of the table that match the request, as the database sees it. */
  function Existing(c: Casing, colors: map<string, string>, wanted: set<string>): set<string> {
    set l | l in colors && c.database(l) in wanted
  }

  /** What is left of the dictionary once the existing tags are popped. */
  function Left(c: Casing, spellings: map<string, string>, existing: set<string>): map<string, string> {
    map u | u in spellings && u !in UpperSet(c, existing) :: spellings[u]
  }

  /** The labels the study ends up with. */
  function NewLabels(c: Casing, t: Tables, tags: seq<string>): set<string> {
    var existing := Existing(c, t.colors, Requested(c, tags));
    existing + Left(c, Spellings(c, tags), existing).Values
  }

  function Relinked(links: set<(string, string)>, study: string, labels: set<string>): set<(string, string)> {
    (set p | p in links && p.0 != study) + (set l | l in labels :: (study, l))
  }

  /** Rows for the new tags, each with the color that the column default picks. */
  function WithNewTags(colors: map<string, string>, labels: set<string>, color: string -> string): map<string, string> {
    map l | l in colors.Keys + labels :: if l in colors then colors[l] else color(l)
  }

  function WithoutOrphans(colors: map<string, string>, links: set<(string, string)>): map<string, string> {
    map l | l in colors && (exists p :: p in links && p.1 == l) :: colors[l]
  }

  function Update(c: Casing, t: Tables, study: string, tags: seq<string>, color: string -> string): Tables {
    var labels := NewLabels(c, t, tags);
    var links := Relinked(t.links, study, labels);
    Tables(WithoutOrphans(WithNewTags(t.colors, labels, color), links), links)
  }

  class StudyMetadataRepository {
    const c: Casing
    var colors: map<string, string>
    var links: set<(string, string)>

    ghost function Model(): Tables
      reads this
    {
      Tables(colors, links)
    }

    constructor (c: Casing)
      ensures this.c == c && Model() == Tables(map[], {})
    {
      this.c := c;
      colors, links := map[], {};
    }

    method UpdateTags(study: string, tags: seq<string>, color: string -> string)
      modifies this
      ensures Model() == Update(c, old(Model()), study, tags, color)
    {
      var spellings := LearnSpellings(tags);
      var existing := set l | l in colors && c.database(l) in spellings;
      assert existing == Existing(c, colors, Requested(c, tags));
      var left := PopExisting(spellings, existing);
      var labels := existing + left.Values;
      links := Relinked(links, study, labels);
      colors := WithNewTags(colors, labels, color);
      colors := WithoutOrphans(colors, links);
    }

    /** The dictionary comprehension. */
    method LearnSpellings(tags: seq<string>) returns (spellings: map<string, string>)
      ensures spellings == Spellings(c, tags)
    {
      spellings := map[];
      for i := 0 to |tags|
        invariant spellings == Spellings(c, tags[..i])
      {
        assert tags[..i + 1][..i] == tags[..i];
        spellings := spellings[c.python(tags[i]) := tags[i]];
      }
      assert tags[..|tags|] == tags;
    }

    /** The loop over the existing tags; two of them may share an upper form. */
    method PopExisting(spellings: map<string, string>, existing: set<string>) returns (left: map<string, string>)
      ensures left == Left(c, spellings, existing)
    {
      left := spellings;
      var todo, done: set<string> := existing, {};
      while todo != {}
        invariant existing == done + todo
        invariant left == Left(c, spellings, done)
        decreases |todo|
      {
        var tag :| tag in todo;
        PopOne(c, spellings, done, tag);
        if c.python(tag) in left {
          left := left - {c.python(tag)};
        }
        todo, done := todo - {tag}, done + {tag};
      }
      assert done == existing;
    }
  }

  lemma PopOne(c: Casing, spellings: map<string, string>, done: set<string>, tag: string)
    ensures Left(c, spellings, done + {tag}) == Left(c, spellings, done) - {c.python(tag)}
  {
    assert UpperSet(c, done + {tag}) == UpperSet(c, done) + {c.python(tag)} by {
      assert c.python(tag) in UpperSet(c, done + {tag});
    }
  }

  // -------------------------------------------------------------------- one call

  ghost predicate UniqueUpToCase(c: Casing, labels: set<string>) {
    forall l, m :: l in labels && m in labels && c.python(l) == c.python(m) ==> l == m
  }

  /** Links point to tags, and every tag is in use. */
  ghost predicate Linked(t: Tables) {
    && (forall p :: p in t.links ==> p.1 in t.colors)
    && (forall l :: l in t.colors ==> exists p :: p in t.links && p.1 == l)
  }

  ghost predicate Drawn(labels: set<string>, from: iset<string>) {
    forall l :: l in labels ==> l in from
  }

  function TagSet(tags: seq<string>): set<string> {
    set t | t in tags
  }

  /** A new label is a requested one: the spelling that the dictionary has for it. */
  lemma NewLabelOrigin(c: Casing, t: Tables, tags: seq<string>, l: string)
    requires l in NewLabels(c, t, tags) && l !in Existing(c, t.colors, Requested(c, tags))
    ensures l in tags && c.python(l) !in UpperSet(c, Existing(c, t.colors, Requested(c, tags)))
    ensures c.python(l) in Requested(c, tags) && Spellings(c, tags)[c.python(l)] == l
  {
    var existing := Existing(c, t.colors, Requested(c, tags));
    var u :| u in Left(c, Spellings(c, tags), existing) && Spellings(c, tags)[u] == l;
  }

  /** A label that is not among those found has no other spelling in the table. */
  lemma NewLabelIsNew(c: Casing, t: Tables, tags: seq<string>, l: string, m: string, all: iset<string>)
    requires FindsSpellings(c, all) && Drawn(t.colors.Keys, all) && Drawn(TagSet(tags), all)
    requires l in NewLabels(c, t, tags) && l !in Existing(c, t.colors, Requested(c, tags)) && m in t.colors && l != m
    ensures c.python(l) != c.python(m)
  {
    NewLabelOrigin(c, t, tags, l);
    assert l in TagSet(tags);
    if c.database(m) == c.python(m) && c.python(m) in Requested(c, tags) {
      assert m in Existing(c, t.colors, Requested(c, tags));
    }
  }

  lemma TwoNewLabels(c: Casing, t: Tables, tags: seq<string>, l: string, m: string)
    requires l in NewLabels(c, t, tags) && l !in t.colors && m in NewLabels(c, t, tags) && m !in t.colors
    ensures c.python(l) == c.python(m) ==> l == m
  {
    NewLabelOrigin(c, t, tags, l);
    NewLabelOrigin(c, t, tags, m);
  }

  lemma UpdateKeepsUnique(c: Casing, t: Tables, study: string, tags: seq<string>, color: string -> string,
      all: iset<string>)
    requires UniqueUpToCase(c, t.colors.Keys)
    requires FindsSpellings(c, all) && Drawn(t.colors.Keys, all) && Drawn(TagSet(tags), all)
    ensures UniqueUpToCase(c, Update(c, t, study, tags, color).colors.Keys)
  {
    var after := Update(c, t, study, tags, color).colors.Keys;
    assert after <= t.colors.Keys + NewLabels(c, t, tags);
    forall l, m | l in after && m in after && c.python(l) == c.python(m) ensures l == m {
      if l !in t.colors && m !in t.colors {
        TwoNewLabels(c, t, tags, l, m);
      } else if l !in t.colors {
        NewLabelIsNew(c, t, tags, l, m, all);
      } else if m !in t.colors {
        NewLabelIsNew(c, t, tags, m, l, all);
      }
    }
  }

  /** The table holds labels that were requested, and no others. */
  lemma UpdateKeepsDrawn(c: Casing, t: Tables, study: string, tags: seq<string>, color: string -> string,
      all: iset<string>)
    requires Drawn(t.colors.Keys, all) && Drawn(TagSet(tags), all)
    ensures Drawn(Update(c, t, study, tags, color).colors.Keys, all)
  {
    forall l | l in Update(c, t, study, tags, color).colors ensures l in all {
      if l !in t.colors {
        NewLabelOrigin(c, t, tags, l);
        assert l in TagSet(tags);
      }
    }
  }

  lemma UpdateKeepsLinked(c: Casing, t: Tables, study: string, tags: seq<string>, color: string -> string)
    requires Linked(t)
    ensures Linked(Update(c, t, study, tags, color))
  {
    var t' := Update(c, t, study, tags, color);
    forall p | p in t'.links ensures p.1 in t'.colors {
    }
  }

  lemma UpdatedLabels(c: Casing, t: Tables, study: string, tags: seq<string>, color: string -> string)
    ensures LabelsOf(Update(c, t, study, tags, color), study) == NewLabels(c, t, tags)
  {
    var labels := NewLabels(c, t, tags);
    var links := Relinked(t.links, study, labels);
    forall l | l in labels ensures l in LabelsOf(Update(c, t, study, tags, color), study) {
      assert (study, l) in links;
    }
  }

  /** Among the tags of the table the database finds requested ones only. */
  ghost predicate FindsRequested(c: Casing, t: Tables, tags: seq<string>) {
    forall l :: l in t.colors && c.database(l) in Requested(c, tags) ==> c.python(l) in Requested(c, tags)
  }

  lemma OnlyRequested(c: Casing, t: Tables, tags: seq<string>)
    requires FindsRequested(c, t, tags)
    ensures UpperSet(c, NewLabels(c, t, tags)) <= Requested(c, tags)
  {
    forall l | l in NewLabels(c, t, tags) ensures c.python(l) in Requested(c, tags) {
      if l !in Existing(c, t.colors, Requested(c, tags)) {
        NewLabelOrigin(c, t, tags, l);
      }
    }
  }

  lemma AnotherIsLinked(c: Casing, t: Tables, tags: seq<string>)
    requires !FindsRequested(c, t, tags)
    ensures !(UpperSet(c, NewLabels(c, t, tags)) <= Requested(c, tags))
  {
    var l :| l in t.colors && c.database(l) in Requested(c, tags) && c.python(l) !in Requested(c, tags);
    assert l in Existing(c, t.colors, Requested(c, tags));
    assert c.python(l) in UpperSet(c, NewLabels(c, t, tags));
  }

  /** The study gets the requested tags, up to case: none missing, whatever the database knows, and
      none added, as far as it takes no label for another. */
  lemma UpdateGivesRequested(c: Casing, t: Tables, study: string, tags: seq<string>, color: string -> string)
    ensures var labels := LabelsOf(Update(c, t, study, tags, color), study);
            && Requested(c, tags) <= UpperSet(c, labels)
            && (UpperSet(c, labels) == Requested(c, tags) <==> FindsRequested(c, t, tags))
  {
    UpdatedLabels(c, t, study, tags, color);
    forall u | u in Requested(c, tags) ensures u in UpperSet(c, NewLabels(c, t, tags)) {
      RequestedIsThere(c, t, tags, u);
    }
    if FindsRequested(c, t, tags) {
      OnlyRequested(c, t, tags);
    } else {
      AnotherIsLinked(c, t, tags);
    }
  }

  lemma RequestedIsThere(c: Casing, t: Tables, tags: seq<string>, u: string)
    requires u in Requested(c, tags)
    ensures u in UpperSet(c, NewLabels(c, t, tags))
  {
    var existing := Existing(c, t.colors, Requested(c, tags));
    var labels := NewLabels(c, t, tags);
    if u in UpperSet(c, existing) {
      var l :| l in existing && c.python(l) == u;
      assert l in labels;
    } else {
      var left := Left(c, Spellings(c, tags), existing);
      assert u in left && left[u] in left.Values;
      assert left[u] in labels;
    }
  }

  /** A requested tag that the table has in some spelling, and no request for its upper form misses,
      is linked in that spelling. */
  lemma UpdateKeepsSpelling(c: Casing, t: Tables, study: string, tags: seq<string>, color: string -> string, l: string,
      tag: string, all: iset<string>)
    requires UniqueUpToCase(c, t.colors.Keys)
    requires FindsSpellings(c, all) && Drawn(t.colors.Keys, all) && Drawn(TagSet(tags), all)
    requires l in t.colors && tag in tags && c.python(tag) == c.python(l)
    ensures l in LabelsOf(Update(c, t, study, tags, color), study)
    ensures tag != l ==> tag !in LabelsOf(Update(c, t, study, tags, color), study)
    ensures Update(c, t, study, tags, color).colors[l] == t.colors[l]
  {
    UpdatedLabels(c, t, study, tags, color);
    KnownSpelling(c, t, tags, l, tag, all);
    var t' := Update(c, t, study, tags, color);
    assert (study, l) in t'.links;
    if tag != l && tag in NewLabels(c, t, tags) {
      if tag !in t.colors {
        NewLabelIsNew(c, t, tags, tag, l, all);
      }
    }
  }

  lemma KnownSpelling(c: Casing, t: Tables, tags: seq<string>, l: string, tag: string, all: iset<string>)
    requires UniqueUpToCase(c, t.colors.Keys)
    requires FindsSpellings(c, all) && Drawn(t.colors.Keys, all) && Drawn(TagSet(tags), all)
    requires l in t.colors && tag in tags && c.python(tag) == c.python(l)
    ensures l in NewLabels(c, t, tags)
  {
    var u := c.python(l);
    assert u in Requested(c, tags);
    RequestedIsThere(c, t, tags, u);
    var m :| m in NewLabels(c, t, tags) && c.python(m) == u;
    if m != l && m !in Existing(c, t.colors, Requested(c, tags)) {
      NewLabelIsNew(c, t, tags, m, l, all);
    }
  }

  lemma {:induction false} LastSpellingWins(c: Casing, tags: seq<string>, i: nat)
    requires i < |tags| && forall j :: i < j < |tags| ==> c.python(tags[j]) != c.python(tags[i])
    ensures Spellings(c, tags)[c.python(tags[i])] == tags[i]
    decreases |tags|
  {
    var n := |tags| - 1;
    var before := tags[..n];
    if i < n {
      assert c.python(tags[n]) != c.python(tags[i]);
      assert before[i] == tags[i] && forall j :: i < j < n ==> before[j] == tags[j];
      LastSpellingWins(c, before, i);
    }
  }

  /** A requested tag that is found in no spelling is linked in its last requested spelling; when it
      is not in the table it is created, in a color of its own. */
  lemma UpdateCreatesTag(c: Casing, t: Tables, study: string, tags: seq<string>, color: string -> string, i: nat)
    requires i < |tags| && forall j :: i < j < |tags| ==> c.python(tags[j]) != c.python(tags[i])
    requires c.python(tags[i]) !in UpperSet(c, Existing(c, t.colors, Requested(c, tags)))
    ensures tags[i] in LabelsOf(Update(c, t, study, tags, color), study)
    ensures tags[i] in Update(c, t, study, tags, color).colors
    ensures Update(c, t, study, tags, color).colors[tags[i]] ==
            if tags[i] in t.colors then t.colors[tags[i]] else color(tags[i])
  {
    LastSpellingWins(c, tags, i);
    UpdatedLabels(c, t, study, tags, color);
    var left := Left(c, Spellings(c, tags), Existing(c, t.colors, Requested(c, tags)));
    assert c.python(tags[i]) in left && left[c.python(tags[i])] in left.Values;
    assert (study, tags[i]) in Update(c, t, study, tags, color).links;
  }

  /** The tags of every other study stay, with their colors. */
  lemma UpdateSparesOthers(c: Casing, t: Tables, study: string, tags: seq<string>, color: string -> string,
      other: string)
    requires Linked(t) && other != study
    ensures LabelsOf(Update(c, t, study, tags, color), other) == LabelsOf(t, other)
    ensures forall l :: l in LabelsOf(t, other) ==>
              l in Update(c, t, study, tags, color).colors && Update(c, t, study, tags, color).colors[l] == t.colors[l]
  {
    var t' := Update(c, t, study, tags, color);
    forall p | p in t.links && p.0 == other ensures p in t'.links && p.1 in t'.colors {
    }
    forall l | l in LabelsOf(t, other) ensures (other, l) in t.links {
    }
  }

  // ------------------------------------------------------------------------- runs

  datatype Call = Call(study: string, tags: seq<string>)

  const Empty := Tables(map[], {})

  function Run(c: Casing, t: Tables, calls: seq<Call>, color: string -> string): Tables {
    if calls == [] then t
    else
      var last := calls[|calls| - 1];
      Update(c, Run(c, t, calls[..|calls| - 1], color), last.study, last.tags, color)
  }

  /** Every requested label is among `all`. */
  ghost predicate Within(calls: seq<Call>, all: iset<string>) {
    forall call :: call in calls ==> Drawn(TagSet(call.tags), all)
  }

  lemma WithinBefore(calls: seq<Call>, all: iset<string>)
    requires Within(calls, all) && calls != []
    ensures Within(calls[..|calls| - 1], all) && Drawn(TagSet(calls[|calls| - 1].tags), all)
  {
    assert calls[|calls| - 1] in calls;
    assert forall call :: call in calls[..|calls| - 1] ==> call in calls;
  }

  /** Over any sequence of calls links stay valid and every tag stays in use; the table holds
      requested labels only. */
  lemma {:induction false} RunKeepsLinked(c: Casing, t: Tables, calls: seq<Call>, color: string -> string,
      all: iset<string>)
    requires Linked(t) && Drawn(t.colors.Keys, all) && Within(calls, all)
    ensures Linked(Run(c, t, calls, color)) && Drawn(Run(c, t, calls, color).colors.Keys, all)
    decreases |calls|
  {
    if calls != [] {
      var before, last := calls[..|calls| - 1], calls[|calls| - 1];
      WithinBefore(calls, all);
      RunKeepsLinked(c, t, before, color, all);
      UpdateKeepsLinked(c, Run(c, t, before, color), last.study, last.tags, color);
      UpdateKeepsDrawn(c, Run(c, t, before, color), last.study, last.tags, color, all);
    }
  }

  lemma {:induction false} RunKeepsUnique(c: Casing, t: Tables, calls: seq<Call>, color: string -> string,
      all: iset<string>)
    requires Linked(t) && UniqueUpToCase(c, t.colors.Keys) && Drawn(t.colors.Keys, all)
    requires Within(calls, all) && FindsSpellings(c, all)
    ensures UniqueUpToCase(c, Run(c, t, calls, color).colors.Keys)
    decreases |calls|
  {
    if calls != [] {
      var before, last := calls[..|calls| - 1], calls[|calls| - 1];
      WithinBefore(calls, all);
      RunKeepsUnique(c, t, before, color, all);
      RunKeepsLinked(c, t, before, color, all);
      UpdateKeepsUnique(c, Run(c, t, before, color), last.study, last.tags, color, all);
    }
  }

  /** What a study holds, up to case, after a sequence of calls: its last request, or what it had. */
  function Expected(c: Casing, t: Tables, calls: seq<Call>, study: string): set<string> {
    if calls == [] then UpperSet(c, LabelsOf(t, study))
    else if calls[|calls| - 1].study == study then Requested(c, calls[|calls| - 1].tags)
    else Expected(c, t, calls[..|calls| - 1], study)
  }

  lemma {:induction false} LastRequestWins(c: Casing, t: Tables, calls: seq<Call>, color: string -> string,
      study: string, all: iset<string>)
    requires Linked(t) && Drawn(t.colors.Keys, all) && Within(calls, all) && FindsNoOther(c, all)
    ensures UpperSet(c, LabelsOf(Run(c, t, calls, color), study)) == Expected(c, t, calls, study)
    decreases |calls|
  {
    if calls != [] {
      var before, last := calls[..|calls| - 1], calls[|calls| - 1];
      WithinBefore(calls, all);
      RunKeepsLinked(c, t, before, color, all);
      LastRequestWins(c, t, before, color, study, all);
      if last.study == study {
        FindsOnlyRequested(c, Run(c, t, before, color), last.tags, all);
        UpdateGivesRequested(c, Run(c, t, before, color), study, last.tags, color);
      } else {
        UpdateSparesOthers(c, Run(c, t, before, color), last.study, last.tags, color, study);
      }
    }
  }

  lemma FindsOnlyRequested(c: Casing, t: Tables, tags: seq<string>, all: iset<string>)
    requires FindsNoOther(c, all) && Drawn(t.colors.Keys, all) && Drawn(TagSet(tags), all)
    ensures FindsRequested(c, t, tags)
  {
    forall l | l in t.colors && c.database(l) in Requested(c, tags) ensures c.python(l) in Requested(c, tags) {
      var y :| y in tags && c.python(y) == c.database(l);
      assert y in TagSet(tags);
    }
  }

  // ------------------------------------------------------------ repeating a request

  /** Both requests are for the same labels of `all`, up to case. */
  ghost predicate Respells(c: Casing, tags: seq<string>, again: seq<string>, all: iset<string>) {
    Drawn(TagSet(tags), all) && Drawn(TagSet(again), all) && Requested(c, again) == Requested(c, tags)
  }

  /** Repeating a request, in whatever spelling, changes nothing. */
  lemma UpdateIsIdempotent(c: Casing, t: Tables, study: string, tags: seq<string>, again: seq<string>,
      color: string -> string, all: iset<string>)
    requires Linked(t) && FindsSpellings(c, all) && Drawn(t.colors.Keys, all)
    requires Respells(c, tags, again, all)
    ensures Update(c, Update(c, t, study, tags, color), study, again, color) == Update(c, t, study, tags, color)
  {
    var t1 := Update(c, t, study, tags, color);
    UpdateKeepsLinked(c, t, study, tags, color);
    UpdatedLabels(c, t, study, tags, color);
    forall l ensures l in NewLabels(c, t1, again) <==> l in NewLabels(c, t, tags) {
      SameLabelAgain(c, t, study, tags, again, color, all, l);
    }
    UpdateWithOwnLabels(c, t1, study, again, color);
  }

  /** What the repeated request finds is what the study has and the database finds. */
  lemma FoundAgain(c: Casing, t: Tables, study: string, tags: seq<string>, color: string -> string, l: string)
    ensures var wanted := Requested(c, tags);
            l in Existing(c, Update(c, t, study, tags, color).colors, wanted) <==>
            l in NewLabels(c, t, tags) && c.database(l) in wanted
  {
    var t1 := Update(c, t, study, tags, color);
    if l in NewLabels(c, t, tags) {
      UpdatedLabels(c, t, study, tags, color);
      assert l in LabelsOf(t1, study);
      assert (study, l) in t1.links;
    }
  }

  lemma SameLabelAgain(c: Casing, t: Tables, study: string, tags: seq<string>, again: seq<string>,
      color: string -> string, all: iset<string>, l: string)
    requires FindsSpellings(c, all) && Drawn(t.colors.Keys, all)
    requires Respells(c, tags, again, all)
    ensures l in NewLabels(c, Update(c, t, study, tags, color), again) <==> l in NewLabels(c, t, tags)
  {
    var t1, wanted := Update(c, t, study, tags, color), Requested(c, tags);
    FoundAgain(c, t, study, tags, color, l);
    if l in NewLabels(c, t1, again) && l !in Existing(c, t1.colors, wanted) {
      NewAgainWasThere(c, t, study, tags, again, color, all, l);
    }
    if l in NewLabels(c, t, tags) && l !in Existing(c, t1.colors, wanted) {
      UnfoundComesAgain(c, t, study, tags, again, color, all, l);
    }
  }

  lemma NewAgainWasThere(c: Casing, t: Tables, study: string, tags: seq<string>, again: seq<string>,
      color: string -> string, all: iset<string>, l: string)
    requires FindsSpellings(c, all) && Drawn(t.colors.Keys, all)
    requires Respells(c, tags, again, all)
    requires var t1 := Update(c, t, study, tags, color);
             l in NewLabels(c, t1, again) && l !in Existing(c, t1.colors, Requested(c, tags))
    ensures l in NewLabels(c, t, tags)
  {
    var t1 := Update(c, t, study, tags, color);
    NewLabelOrigin(c, t1, again, l);
    RequestedIsThere(c, t, tags, c.python(l));
    var m :| m in NewLabels(c, t, tags) && c.python(m) == c.python(l);
    UpdatedLabels(c, t, study, tags, color);
    assert m in LabelsOf(t1, study);
    UpdateKeepsDrawn(c, t, study, tags, color, all);
    if l != m {
      NewLabelIsNew(c, t1, again, l, m, all);
    }
  }

  lemma UnfoundComesAgain(c: Casing, t: Tables, study: string, tags: seq<string>, again: seq<string>,
      color: string -> string, all: iset<string>, l: string)
    requires FindsSpellings(c, all) && Drawn(t.colors.Keys, all)
    requires Respells(c, tags, again, all)
    requires var t1 := Update(c, t, study, tags, color);
             l in NewLabels(c, t, tags) && l !in Existing(c, t1.colors, Requested(c, tags))
    ensures l in NewLabels(c, Update(c, t, study, tags, color), again)
  {
    var t1, wanted := Update(c, t, study, tags, color), Requested(c, tags);
    FoundAgain(c, t, study, tags, color, l);
    assert l !in Existing(c, t.colors, wanted);
    NewLabelOrigin(c, t, tags, l);
    RequestedIsThere(c, t1, again, c.python(l));
    var m :| m in NewLabels(c, t1, again) && c.python(m) == c.python(l);
    UpdatedLabels(c, t, study, tags, color);
    assert l in LabelsOf(t1, study);
    UpdateKeepsDrawn(c, t, study, tags, color, all);
    if m != l {
      if m in Existing(c, t1.colors, wanted) {
        FoundAgain(c, t, study, tags, color, m);
        OneSpellingLeft(c, t, tags, l, m);
      } else {
        NewLabelIsNew(c, t1, again, m, l, all);
      }
    }
  }

  lemma OneSpellingLeft(c: Casing, t: Tables, tags: seq<string>, l: string, m: string)
    requires l in NewLabels(c, t, tags) && l !in Existing(c, t.colors, Requested(c, tags))
    requires m in NewLabels(c, t, tags) && c.python(m) == c.python(l)
    ensures m == l
  {
    NewLabelOrigin(c, t, tags, l);
    if m !in Existing(c, t.colors, Requested(c, tags)) {
      NewLabelOrigin(c, t, tags, m);
    }
  }

  lemma UpdateWithOwnLabels(c: Casing, t: Tables, study: string, tags: seq<string>, color: string -> string)
    requires Linked(t) && NewLabels(c, t, tags) == LabelsOf(t, study)
    ensures Update(c, t, study, tags, color) == t
  {
    var labels := LabelsOf(t, study);
    RelinkSame(t, study);
    assert forall l :: l in labels ==> (study, l) in t.links;
    assert WithNewTags(t.colors, labels, color) == t.colors;
    assert WithoutOrphans(t.colors, t.links) == t.colors;
  }

  lemma RelinkSame(t: Tables, study: string)
    ensures Relinked(t.links, study, LabelsOf(t, study)) == t.links
  {
    var links := Relinked(t.links, study, LabelsOf(t, study));
    forall p | p in t.links ensures p in links {
      if p.0 == study {
        assert p.1 in LabelsOf(t, study);
        assert p == (study, p.1);
      }
    }
  }

  // ------------------------------------------------------------- when exactly it is right

  function Single(x: string, color: string -> string): Tables {
    Tables(map[x := color(x)], {("a", x)})
  }

  lemma SingleStays(c: Casing, x: string, y: string, color: string -> string)
    ensures x in Update(c, Single(x, color), "b", [y], color).colors
  {
    var t := Single(x, color);
    assert x in LabelsOf(t, "a") by {
      assert ("a", x) in t.links;
    }
    assert Linked(t) by {
      assert ("a", x) in t.links;
    }
    UpdateSparesOthers(c, t, "b", [y], color, "a");
  }

  /** The first label of an empty table. */
  lemma FirstLabel(c: Casing, x: string, color: string -> string)
    ensures Update(c, Empty, "a", [x], color) == Single(x, color)
  {
    LastSpellingWins(c, [x], 0);
    UpdateCreatesTag(c, Empty, "a", [x], color, 0);
    UpdatedLabels(c, Empty, "a", [x], color);
    forall l | l in NewLabels(c, Empty, [x]) ensures l == x {
      NewLabelOrigin(c, Empty, [x], l);
    }
    var after := Update(c, Empty, "a", [x], color);
    assert after.links == {("a", x)};
    assert after.colors == map[x := color(x)];
  }

  function TwoCalls(x: string, y: string): seq<Call> {
    [Call("a", [x]), Call("b", [y])]
  }

  lemma RunTwoCalls(c: Casing, x: string, y: string, color: string -> string)
    ensures Run(c, Empty, TwoCalls(x, y), color)
         == Update(c, Single(x, color), "b", [y], color)
  {
    var calls := TwoCalls(x, y);
    FirstLabel(c, x, color);
    assert calls[..1] == [Call("a", [x])];
    assert calls[..1][..0] == [];
    assert Run(c, Empty, calls[..1], color) == Update(c, Empty, "a", [x], color);
  }

  lemma OneRequested(c: Casing, y: string)
    ensures Requested(c, [y]) == {c.python(y)}
  {
    assert y in [y];
  }

  lemma MissedIsCreated(c: Casing, t: Tables, study: string, x: string, y: string, color: string -> string)
    requires t.colors.Keys == {x} && c.database(x) != c.python(y)
    ensures var after := Update(c, t, study, [y], color); y in LabelsOf(after, study) && y in after.colors
  {
    OneRequested(c, y);
    assert Existing(c, t.colors, Requested(c, [y])) == {};
    UpdateCreatesTag(c, t, study, [y], color, 0);
  }

  /** A label that the database does not find under its upper form, and then another spelling of it:
      two tags arise that differ by case only. */
  lemma TwinsArise(c: Casing, x: string, y: string, color: string -> string)
    requires x != y && c.python(x) == c.python(y) && c.database(x) != c.python(x)
    ensures !UniqueUpToCase(c, Run(c, Empty, TwoCalls(x, y), color).colors.Keys)
  {
    RunTwoCalls(c, x, y, color);
    MissedIsCreated(c, Single(x, color), "b", x, y, color);
    SingleStays(c, x, y, color);
  }

  /** Labels stay unique up to case in every run whose requests lie in `all`, exactly when the
      database finds each label of `all` that has another spelling in `all`. */
  lemma UniqueExactlyWhen(c: Casing, all: iset<string>, color: string -> string)
    ensures (forall calls :: Within(calls, all) ==> UniqueUpToCase(c, Run(c, Empty, calls, color).colors.Keys))
       <==> FindsSpellings(c, all)
  {
    if FindsSpellings(c, all) {
      forall calls | Within(calls, all) ensures UniqueUpToCase(c, Run(c, Empty, calls, color).colors.Keys) {
        RunKeepsUnique(c, Empty, calls, color, all);
      }
    } else {
      var x, y :| x in all && y in all && x != y && c.python(x) == c.python(y) && c.database(x) != c.python(x);
      TwoCallsWithin(x, y, all);
      TwinsArise(c, x, y, color);
    }
  }

  lemma TwoCallsWithin(x: string, y: string, all: iset<string>)
    requires x in all && y in all
    ensures Within(TwoCalls(x, y), all)
  {
  }

  /** A label found under the upper form of another is linked in its place. */
  lemma OtherIsTaken(c: Casing, x: string, y: string, color: string -> string)
    requires c.database(x) == c.python(y) && c.python(x) != c.python(y)
    ensures UpperSet(c, LabelsOf(Run(c, Empty, TwoCalls(x, y), color), "b"))
         != Expected(c, Empty, TwoCalls(x, y), "b")
  {
    var t := Single(x, color);
    RunTwoCalls(c, x, y, color);
    OneRequested(c, y);
    UpdateGivesRequested(c, t, "b", [y], color);
    assert x in t.colors;
  }

  /** Every study ends with its last request, up to case, in every run whose requests lie in `all`,
      exactly when the database finds no label of `all` under the upper form of another. */
  lemma LastRequestWinsExactlyWhen(c: Casing, all: iset<string>, color: string -> string)
    ensures (forall calls, study :: Within(calls, all) ==>
               UpperSet(c, LabelsOf(Run(c, Empty, calls, color), study)) == Expected(c, Empty, calls, study))
       <==> FindsNoOther(c, all)
  {
    if FindsNoOther(c, all) {
      forall calls, study | Within(calls, all)
        ensures UpperSet(c, LabelsOf(Run(c, Empty, calls, color), study)) == Expected(c, Empty, calls, study)
      {
        LastRequestWins(c, Empty, calls, color, study, all);
      }
    } else {
      var x, y :| x in all && y in all && c.database(x) == c.python(y) && c.python(x) != c.python(y);
      TwoCallsWithin(x, y, all);
      OtherIsTaken(c, x, y, color);
    }
  }

  /** After the calls, the request repeated in other spellings changes nothing. */
  ghost predicate Repeatable(c: Casing, calls: seq<Call>, study: string, tags: seq<string>, again: seq<string>,
      color: string -> string)
  {
    var once := Update(c, Run(c, Empty, calls, color), study, tags, color);
    Update(c, once, study, again, color) == once
  }

  lemma SpellingsRepeat(c: Casing, calls: seq<Call>, study: string, tags: seq<string>, again: seq<string>,
      color: string -> string, all: iset<string>)
    requires FindsSpellings(c, all) && Within(calls, all) && Respells(c, tags, again, all)
    ensures Repeatable(c, calls, study, tags, again, color)
  {
    RunKeepsLinked(c, Empty, calls, color, all);
    UpdateIsIdempotent(c, Run(c, Empty, calls, color), study, tags, again, color, all);
  }

  lemma TwoRespelled(c: Casing, x: string, y: string, all: iset<string>)
    requires x in all && y in all && c.python(x) == c.python(y)
    ensures Respells(c, [x], [y], all)
  {
    OneRequested(c, x);
    OneRequested(c, y);
  }

  ghost predicate AlwaysRepeatable(c: Casing, all: iset<string>, color: string -> string) {
    forall calls, study, tags, again :: Within(calls, all) && Respells(c, tags, again, all) ==>
      Repeatable(c, calls, study, tags, again, color)
  }

  lemma SpellingsAlwaysRepeat(c: Casing, all: iset<string>, color: string -> string)
    requires FindsSpellings(c, all)
    ensures AlwaysRepeatable(c, all, color)
  {
    forall calls, study, tags, again | Within(calls, all) && Respells(c, tags, again, all)
      ensures Repeatable(c, calls, study, tags, again, color)
    {
      SpellingsRepeat(c, calls, study, tags, again, color, all);
    }
  }

  lemma MissedSpelling(c: Casing, all: iset<string>, x: string, y: string, color: string -> string)
    requires x in all && y in all && x != y && c.python(x) == c.python(y) && c.database(x) != c.python(x)
    ensures !AlwaysRepeatable(c, all, color)
  {
    TwoRespelled(c, x, y, all);
    NotRepeatable(c, x, y, color);
    if AlwaysRepeatable(c, all, color) {
      OneOfAll(c, all, color, [], "a", [x], [y]);
    }
  }

  lemma OneOfAll(c: Casing, all: iset<string>, color: string -> string, calls: seq<Call>, study: string,
      tags: seq<string>, again: seq<string>)
    requires AlwaysRepeatable(c, all, color) && Within(calls, all) && Respells(c, tags, again, all)
    ensures Repeatable(c, calls, study, tags, again, color)
  {
  }

  /** Repeating a request in another spelling never changes anything, under the same condition. */
  lemma RepeatableExactlyWhen(c: Casing, all: iset<string>, color: string -> string)
    ensures AlwaysRepeatable(c, all, color) <==> FindsSpellings(c, all)
  {
    if FindsSpellings(c, all) {
      SpellingsAlwaysRepeat(c, all, color);
    } else {
      var x, y :| x in all && y in all && x != y && c.python(x) == c.python(y) && c.database(x) != c.python(x);
      MissedSpelling(c, all, x, y, color);
    }
  }

  lemma NotRepeatable(c: Casing, x: string, y: string, color: string -> string)
    requires x != y && c.python(x) == c.python(y) && c.database(x) != c.python(x)
    ensures !Repeatable(c, [], "a", [x], [y], color)
  {
    var t := Single(x, color);
    FirstLabel(c, x, color);
    MissedIsCreated(c, t, "a", x, y, color);
    assert y !in LabelsOf(t, "a");
  }

  // ------------------------------------------------------- letters the database misses

  const OnSQLite := Casing(PythonUpper, Upper)

  /** So an accented label and then its upper form make twins... */
  lemma AccentsMakeTwins(color: string -> string)
    ensures !UniqueUpToCase(OnSQLite, Run(OnSQLite, Empty, TwoCalls("\U{e9}", "\U{c9}"), color).colors.Keys)
  {
    var x, y := "\U{e9}", "\U{c9}";
    assert PythonUpper(x) == y && PythonUpper(y) == y;
    assert Upper(x)[0] == x[0];
    TwinsArise(OnSQLite, x, y, color);
  }

  /** ... but a study still ends with what was last requested, whatever the letters: a database that
      changes nothing but case, to an upper form that stays, takes no label for another. */
  lemma CaseOnlyFindsNoOther(c: Casing, all: iset<string>)
    requires forall s :: c.python(c.database(s)) == c.python(s)
    requires forall s :: c.python(c.python(s)) == c.python(s)
    ensures FindsNoOther(c, all)
  {
    forall x, y | x in all && y in all && c.database(x) == c.python(y) ensures c.python(x) == c.python(y) {
      assert c.python(c.database(x)) == c.python(x) && c.python(c.python(y)) == c.python(y);
    }
  }

  lemma AccentsAreGivenAsRequested(calls: seq<Call>, study: string, color: string -> string, all: iset<string>)
    requires Within(calls, all)
    ensures UpperSet(OnSQLite, LabelsOf(Run(OnSQLite, Empty, calls, color), study))
         == Expected(OnSQLite, Empty, calls, study)
  {
    forall s ensures PythonUpper(Upper(s)) == PythonUpper(s) && PythonUpper(PythonUpper(s)) == PythonUpper(s) {
    }
    CaseOnlyFindsNoOther(OnSQLite, all);
    LastRequestWins(OnSQLite, Empty, calls, color, study, all);
  }
}
