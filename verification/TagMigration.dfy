/** The migration that moves study tags from JSON patches to the tag tables, and back. */
module TagMigration {
  import opened Options
  import opened Text

  // ---------------------------------------------------------------------- patches

  /** The decoded JSON: the tags of the `study` part, and everything else. */
  datatype StudyPart = StudyPart(tags: Option<seq<string>>, rest: map<string, string>)

  datatype Patch = Patch(study: Option<StudyPart>, rest: map<string, string>)

  /** The position of a spelling of `tag` in a list, or the length of the list. */
  function Find(list: seq<string>, tag: string): (i: nat)
    ensures i <= |list|
    ensures i < |list| ==> Upper(list[i]) == Upper(tag)
    ensures forall j :: 0 <= j < i ==> Upper(list[j]) != Upper(tag)
  {
    if list == [] || Upper(list[0]) == Upper(tag) then 0 else 1 + Find(list[1..], tag)
  }

  /** Assign to a dictionary keyed by upper forms, kept as the list of its values: an old key keeps
      its place and takes the new spelling. */
  function Put(list: seq<string>, tag: string): seq<string> {
    var i := Find(list, tag);
    if i < |list| then list[i := tag] else list + [tag]
  }

  function AvoidDuplicates(tags: seq<string>): seq<string> {
    if tags == [] then [] else Put(AvoidDuplicates(tags[..|tags| - 1]), tags[|tags| - 1])
  }

  function LoadPatch(patch: Option<Patch>): (p: Patch)
    ensures p.study.Some? && p.study.value.tags.Some?
  {
    var obj := if patch.Some? then patch.value else Patch(None, map[]);
    var study := if obj.study.Some? then obj.study.value else StudyPart(None, map[]);
    var tags := if study.tags.Some? then study.tags.value else [];
    obj.(study := Some(study.(tags := Some(AvoidDuplicates(tags)))))
  }

  function WithTags(p: Patch, tags: seq<string>): Patch
    requires p.study.Some?
  {
    p.(study := Some(p.study.value.(tags := Some(tags))))
  }

  /** The tags that a patch column stands for. */
  function TagsOf(patch: Option<Patch>): seq<string> {
    LoadPatch(patch).study.value.tags.value
  }

  // ----------------------------------------------------------------------- tables

  /** A row of `study_additional_data`. */
  datatype Additional = Additional(studyId: string, patch: Option<Patch>)

  datatype Tables = Tables(
    additional: seq<Additional>,
    tags: map<string, string>,          // label to color
    studyTags: seq<(string, string)>)   // study id and tag label

  /** `all_labels`: of the spellings of a tag over all studies, the last one. */
  function LabelsOfList(labels: map<string, string>, tags: seq<string>): map<string, string> {
    if tags == [] then labels
    else
      var last := tags[|tags| - 1];
      LabelsOfList(labels, tags[..|tags| - 1])[Upper(last) := last]
  }

  function AllLabels(rows: seq<Additional>): map<string, string> {
    if rows == [] then map[] else LabelsOfList(AllLabels(rows[..|rows| - 1]), TagsOf(rows[|rows| - 1].patch))
  }

  function Linked(id: string, tags: seq<string>, labels: map<string, string>): seq<(string, string)>
    requires forall t :: t in tags ==> Upper(t) in labels
  {
    seq(|tags|, i requires 0 <= i < |tags| => (id, labels[Upper(tags[i])]))
  }

  /** Every tag of every row is in the dictionary. */
  predicate Covered(rows: seq<Additional>, labels: map<string, string>) {
    forall r, t :: r in rows && t in TagsOf(r.patch) ==> Upper(t) in labels
  }

  function Links(rows: seq<Additional>, labels: map<string, string>): seq<(string, string)>
    requires Covered(rows, labels)
  {
    if rows == [] then []
    else
      var last := rows[|rows| - 1];
      assert last in rows;
      assert forall r :: r in rows[..|rows| - 1] ==> r in rows;
      Links(rows[..|rows| - 1], labels) + Linked(last.studyId, TagsOf(last.patch), labels)
  }

  function TagRows(labels: map<string, string>, color: string -> string): map<string, string> {
    map l | l in labels.Values :: color(l)
  }

  lemma {:induction false} LabelsCover(labels: map<string, string>, tags: seq<string>)
    ensures forall t :: t in tags ==> Upper(t) in LabelsOfList(labels, tags)
    ensures forall u :: u in labels ==> u in LabelsOfList(labels, tags)
    decreases |tags|
  {
    if tags != [] {
      assert tags == tags[..|tags| - 1] + [tags[|tags| - 1]];
      LabelsCover(labels, tags[..|tags| - 1]);
    }
  }

  lemma {:induction false} AllCovered(rows: seq<Additional>)
    ensures Covered(rows, AllLabels(rows))
    decreases |rows|
  {
    if rows != [] {
      assert rows == rows[..|rows| - 1] + [rows[|rows| - 1]];
      AllCovered(rows[..|rows| - 1]);
      LabelsCover(AllLabels(rows[..|rows| - 1]), TagsOf(rows[|rows| - 1].patch));
    }
  }

  function Upgraded(d: Tables, color: string -> string): Tables {
    AllCovered(d.additional);
    var labels := AllLabels(d.additional);
    Tables(d.additional, TagRows(labels, color), Links(d.additional, labels))
  }

  /** The labels that the link table gives to a study. */
  function LabelsAt(links: seq<(string, string)>, id: string): set<string> {
    set p | p in links && p.0 == id :: p.1
  }

  function SetOf(s: seq<string>): set<string> {
    set x | x in s
  }

  /** `listing` is the order in which a set happens to be iterated. */
  function Merged(r: Additional, links: seq<(string, string)>, listing: set<string> -> seq<string>): Additional {
    var obj := LoadPatch(r.patch);
    r.(patch := Some(WithTags(obj, AvoidDuplicates(listing(LabelsAt(links, r.studyId) + SetOf(TagsOf(r.patch)))))))
  }

  function MergeAll(rows: seq<Additional>, links: seq<(string, string)>,
      listing: set<string> -> seq<string>): seq<Additional> {
    seq(|rows|, i requires 0 <= i < |rows| => Merged(rows[i], links, listing))
  }

  function Downgraded(d: Tables, listing: set<string> -> seq<string>): Tables {
    Tables(MergeAll(d.additional, d.studyTags, listing), map[], [])
  }

  class Database {
    var additional: seq<Additional>
    var tags: map<string, string>
    var studyTags: seq<(string, string)>

    ghost function Model(): Tables
      reads this
    {
      Tables(additional, tags, studyTags)
    }

    constructor (additional: seq<Additional>)
      ensures Model() == Tables(additional, map[], [])
    {
      this.additional, tags, studyTags := additional, map[], [];
    }

    method Upgrade(color: string -> string)
      modifies this
      ensures Model() == Upgraded(old(Model()), color)
    {
      AllCovered(additional);
      var labels := CollectLabels();
      tags := TagRows(labels, color);
      studyTags := CollectLinks(labels);
    }

    method CollectLabels() returns (labels: map<string, string>)
      ensures labels == AllLabels(additional)
    {
      labels := map[];
      for i := 0 to |additional|
        invariant labels == AllLabels(additional[..i])
      {
        assert additional[..i + 1][..i] == additional[..i];
        var tags := TagsOf(additional[i].patch);
        ghost var before := labels;
        for j := 0 to |tags|
          invariant labels == LabelsOfList(before, tags[..j])
        {
          assert tags[..j + 1][..j] == tags[..j];
          labels := labels[Upper(tags[j]) := tags[j]];
        }
        assert tags[..|tags|] == tags;
      }
      assert additional[..|additional|] == additional;
    }

    method CollectLinks(labels: map<string, string>) returns (links: seq<(string, string)>)
      requires Covered(additional, labels)
      ensures links == Links(additional, labels)
    {
      links := [];
      for i := 0 to |additional|
        invariant Covered(additional[..i], labels)
        invariant links == Links(additional[..i], labels)
      {
        assert additional[..i + 1][..i] == additional[..i];
        assert Covered(additional[..i + 1], labels);
        links := links + Linked(additional[i].studyId, TagsOf(additional[i].patch), labels);
      }
      assert additional[..|additional|] == additional;
    }

    method Downgrade(listing: set<string> -> seq<string>)
      modifies this
      ensures Model() == Downgraded(old(Model()), listing)
    {
      var byIds := GroupLabels();
      var objects: seq<Additional> := [];
      for i := 0 to |additional|
        invariant objects == MergeAll(additional[..i], studyTags, listing)
      {
        var r := additional[i];
        var obj := LoadPatch(r.patch);
        var labels := if r.studyId in byIds then byIds[r.studyId] else {};
        var merged := AvoidDuplicates(listing(labels + SetOf(obj.study.value.tags.value)));
        objects := objects + [Additional(r.studyId, Some(WithTags(obj, merged)))];
      }
      assert additional[..|additional|] == additional;
      additional := objects;
      studyTags := [];
      tags := map[];
    }

    /** The `defaultdict(set)`. */
    method GroupLabels() returns (byIds: map<string, set<string>>)
      ensures forall id :: (if id in byIds then byIds[id] else {}) == LabelsAt(studyTags, id)
    {
      byIds := map[];
      for i := 0 to |studyTags|
        invariant forall id :: (if id in byIds then byIds[id] else {}) == LabelsAt(studyTags[..i], id)
      {
        var id, tagLabel := studyTags[i].0, studyTags[i].1;
        LabelsAtMore(studyTags[..i], id, tagLabel);
        assert studyTags[..i + 1] == studyTags[..i] + [(id, tagLabel)];
        byIds := byIds[id := (if id in byIds then byIds[id] else {}) + {tagLabel}];
      }
      assert studyTags[..|studyTags|] == studyTags;
    }
  }

  lemma LabelsAtMore(links: seq<(string, string)>, id: string, tagLabel: string)
    ensures forall other ::
              LabelsAt(links + [(id, tagLabel)], other)
                  == LabelsAt(links, other) + (if other == id then {tagLabel} else {})
  {
    forall other ensures LabelsAt(links + [(id, tagLabel)], other)
        == LabelsAt(links, other) + (if other == id then {tagLabel} else {}) {
      assert (id, tagLabel) in links + [(id, tagLabel)];
      assert forall p :: p in links + [(id, tagLabel)] <==> p in links || p == (id, tagLabel);
    }
  }

  // ------------------------------------------------------------- without duplicates

  ghost predicate UniqueUpToCase(tags: seq<string>) {
    forall i, j :: 0 <= i < j < |tags| ==> Upper(tags[i]) != Upper(tags[j])
  }

  function UpperSet(tags: set<string>): set<string> {
    set t | t in tags :: Upper(t)
  }

  lemma PutKeepsUnique(list: seq<string>, tag: string)
    requires UniqueUpToCase(list)
    ensures UniqueUpToCase(Put(list, tag))
  {
  }

  lemma PutMembers(list: seq<string>, tag: string)
    ensures UpperSet(SetOf(Put(list, tag))) == UpperSet(SetOf(list)) + {Upper(tag)}
    ensures tag in Put(list, tag)
    ensures forall x :: x in Put(list, tag) ==> x == tag || x in list
  {
    var i := Find(list, tag);
    var after := Put(list, tag);
    assert after[i] == tag;
    forall x | x in list ensures Upper(x) in UpperSet(SetOf(after)) {
      var j :| 0 <= j < |list| && list[j] == x;
      if j != i {
        assert after[j] == x;
      }
    }
    assert UpperSet(SetOf(after)) >= UpperSet(SetOf(list)) + {Upper(tag)};
  }

  /** The list comes out with the same tags up to case, each once. */
  lemma {:induction false} AvoidsDuplicates(tags: seq<string>)
    ensures UniqueUpToCase(AvoidDuplicates(tags))
    ensures UpperSet(SetOf(AvoidDuplicates(tags))) == UpperSet(SetOf(tags))
    ensures forall x :: x in AvoidDuplicates(tags) ==> x in tags
    decreases |tags|
  {
    if tags != [] {
      var before, last := tags[..|tags| - 1], tags[|tags| - 1];
      AvoidsDuplicates(before);
      PutKeepsUnique(AvoidDuplicates(before), last);
      PutMembers(AvoidDuplicates(before), last);
      assert tags == before + [last];
      assert SetOf(tags) == SetOf(before) + {last};
    }
  }

  /** Of the spellings of a tag, the list keeps the last one. */
  lemma {:induction false} KeepsLastSpelling(tags: seq<string>, i: nat)
    requires i < |tags| && forall j :: i < j < |tags| ==> Upper(tags[j]) != Upper(tags[i])
    ensures tags[i] in AvoidDuplicates(tags)
    decreases |tags|
  {
    var n := |tags| - 1;
    if i < n {
      KeepsLastSpelling(tags[..n], i);
      PutSpares(AvoidDuplicates(tags[..n]), tags[n], tags[i]);
    } else {
      PutMembers(AvoidDuplicates(tags[..n]), tags[n]);
    }
  }

  lemma PutSpares(list: seq<string>, tag: string, x: string)
    requires x in list && Upper(x) != Upper(tag)
    ensures x in Put(list, tag)
  {
    var j :| 0 <= j < |list| && list[j] == x;
    assert Put(list, tag)[j] == x;
  }

  // --------------------------------------------------------------------- the upgrade

  /** The primary key of `study_additional_data`. */
  ghost predicate DistinctStudies(rows: seq<Additional>) {
    forall i, j :: 0 <= i < j < |rows| ==> rows[i].studyId != rows[j].studyId
  }

  lemma {:induction false} LabelsSpell(labels: map<string, string>, tags: seq<string>)
    requires forall u :: u in labels ==> Upper(labels[u]) == u
    ensures forall u :: u in LabelsOfList(labels, tags) ==> Upper(LabelsOfList(labels, tags)[u]) == u
    ensures forall u :: u in LabelsOfList(labels, tags) ==> u in labels || u in UpperSet(SetOf(tags))
    decreases |tags|
  {
    if tags != [] {
      var before, last := tags[..|tags| - 1], tags[|tags| - 1];
      LabelsSpell(labels, before);
      assert tags == before + [last];
      assert SetOf(tags) == SetOf(before) + {last};
    }
  }

  /** Each key of `all_labels` is the upper form of its label, and some study has such a tag. */
  lemma {:induction false} AllLabelsSpell(rows: seq<Additional>)
    ensures forall u :: u in AllLabels(rows) ==> Upper(AllLabels(rows)[u]) == u
    ensures forall u :: u in AllLabels(rows) ==> exists r :: r in rows && u in UpperSet(SetOf(TagsOf(r.patch)))
    decreases |rows|
  {
    if rows != [] {
      var before, last := rows[..|rows| - 1], rows[|rows| - 1];
      AllLabelsSpell(before);
      LabelsSpell(AllLabels(before), TagsOf(last.patch));
      assert rows == before + [last];
      assert last in rows;
    }
  }

  lemma {:induction false} LinkMember(rows: seq<Additional>, labels: map<string, string>, p: (string, string))
    requires Covered(rows, labels)
    ensures p in Links(rows, labels) <==>
            exists r, t :: r in rows && t in TagsOf(r.patch) && p == (r.studyId, labels[Upper(t)])
    decreases |rows|
  {
    if rows != [] {
      var before, last := rows[..|rows| - 1], rows[|rows| - 1];
      assert rows == before + [last];
      assert Covered(before, labels);
      LinkMember(before, labels, p);
      LinkedMember(last, labels, p);
    }
  }

  lemma LinkedMember(r: Additional, labels: map<string, string>, p: (string, string))
    requires forall t :: t in TagsOf(r.patch) ==> Upper(t) in labels
    ensures p in Linked(r.studyId, TagsOf(r.patch), labels) <==>
            exists t :: t in TagsOf(r.patch) && p == (r.studyId, labels[Upper(t)])
  {
    var tags := TagsOf(r.patch);
    if t :| t in tags && p == (r.studyId, labels[Upper(t)]) {
      var i :| 0 <= i < |tags| && tags[i] == t;
      assert Linked(r.studyId, tags, labels)[i] == p;
    }
  }

  lemma LinkedDistinct(r: Additional, labels: map<string, string>)
    requires forall t :: t in TagsOf(r.patch) ==> Upper(t) in labels
    requires forall u :: u in labels ==> Upper(labels[u]) == u
    ensures Distinct(Linked(r.studyId, TagsOf(r.patch), labels))
  {
    var obj := if r.patch.Some? then r.patch.value else Patch(None, map[]);
    var study := if obj.study.Some? then obj.study.value else StudyPart(None, map[]);
    AvoidsDuplicates(if study.tags.Some? then study.tags.value else []);
    var tags := TagsOf(r.patch);
    var links := Linked(r.studyId, tags, labels);
    forall i, j | 0 <= i < j < |links| ensures links[i] != links[j] {
      assert Upper(labels[Upper(tags[i])]) == Upper(tags[i]) && Upper(labels[Upper(tags[j])]) == Upper(tags[j]);
    }
  }

  ghost predicate Distinct(links: seq<(string, string)>) {
    forall i, j :: 0 <= i < j < |links| ==> links[i] != links[j]
  }

  lemma DistinctConcat(a: seq<(string, string)>, b: seq<(string, string)>)
    requires Distinct(a) && Distinct(b) && forall p, q :: p in a && q in b ==> p.0 != q.0
    ensures Distinct(a + b)
  {
  }

  lemma {:induction false} LinksDistinct(rows: seq<Additional>, labels: map<string, string>)
    requires Covered(rows, labels) && DistinctStudies(rows)
    requires forall u :: u in labels ==> Upper(labels[u]) == u
    ensures Distinct(Links(rows, labels))
    ensures forall p :: p in Links(rows, labels) ==> exists r :: r in rows && r.studyId == p.0
    decreases |rows|
  {
    if rows != [] {
      var before, last := rows[..|rows| - 1], rows[|rows| - 1];
      assert rows == before + [last];
      assert Covered(before, labels);
      LinksDistinct(before, labels);
      LinkedDistinct(last, labels);
      forall p | p in Links(before, labels) ensures p.0 != last.studyId {
        var r :| r in before && r.studyId == p.0;
        var i :| 0 <= i < |before| && before[i] == r;
        assert rows[i].studyId != rows[|rows| - 1].studyId;
      }
      DistinctConcat(Links(before, labels), Linked(last.studyId, TagsOf(last.patch), labels));
    }
  }

  /** What a patch column holds: the tags of its study part, and the rest of that part and of the patch;
      nothing when there is no patch or no study part. */
  function ColumnTags(patch: Option<Patch>): seq<string> {
    match patch
    case Some(Patch(Some(StudyPart(Some(tags), _)), _)) => tags
    case _ => []
  }

  function StudyRest(patch: Option<Patch>): map<string, string> {
    match patch
    case Some(Patch(Some(StudyPart(_, rest)), _)) => rest
    case _ => map[]
  }

  function PatchRest(patch: Option<Patch>): map<string, string> {
    match patch
    case Some(Patch(_, rest)) => rest
    case None => map[]
  }

  /** Loading a patch avoids duplicates among its tags and changes nothing else. */
  lemma LoadPatchMeans(patch: Option<Patch>)
    ensures var p := LoadPatch(patch);
            && UniqueUpToCase(p.study.value.tags.value)
            && UpperSet(SetOf(p.study.value.tags.value)) == UpperSet(SetOf(ColumnTags(patch)))
            && (forall x :: x in p.study.value.tags.value ==> x in ColumnTags(patch))
            && p.study.value.rest == StudyRest(patch) && p.rest == PatchRest(patch)
  {
    AvoidsDuplicates(ColumnTags(patch));
  }

  /** After the upgrade the inserted rows respect both primary keys and the foreign key: the
      (study, tag) pairs are distinct, each points to a tag, no two tags differ by case only, and
      every tag is used. */
  lemma UpgradeIsWellFormed(d: Tables, color: string -> string)
    requires DistinctStudies(d.additional)
    ensures var u := Upgraded(d, color);
            && Distinct(u.studyTags)
            && (forall p :: p in u.studyTags ==> p.1 in u.tags)
            && (forall l, m :: l in u.tags && m in u.tags && Upper(l) == Upper(m) ==> l == m)
            && (forall l :: l in u.tags ==> exists p :: p in u.studyTags && p.1 == l)
  {
    var rows, labels := d.additional, AllLabels(d.additional);
    var u := Upgraded(d, color);
    AllCovered(rows);
    AllLabelsSpell(rows);
    LinksDistinct(rows, labels);
    forall p | p in u.studyTags ensures p.1 in u.tags {
      LinkMember(rows, labels, p);
    }
    forall l | l in u.tags ensures exists p :: p in u.studyTags && p.1 == l {
      LabelIsLinked(rows, labels, l);
    }
  }

  lemma LabelIsLinked(rows: seq<Additional>, labels: map<string, string>, l: string)
    requires Covered(rows, labels) && l in labels.Values
    requires forall u :: u in labels ==> Upper(labels[u]) == u
    requires forall u :: u in labels ==> exists r :: r in rows && u in UpperSet(SetOf(TagsOf(r.patch)))
    ensures exists p :: p in Links(rows, labels) && p.1 == l
  {
    var u :| u in labels && labels[u] == l;
    var r :| r in rows && u in UpperSet(SetOf(TagsOf(r.patch)));
    var t :| t in SetOf(TagsOf(r.patch)) && Upper(t) == u;
    LinkMember(rows, labels, (r.studyId, l));
  }

  /** The upgrade links every study to exactly the tags of its patch, up to case. */
  lemma UpgradeLinksPatchTags(d: Tables, color: string -> string, r: Additional)
    requires DistinctStudies(d.additional) && r in d.additional
    ensures UpperSet(LabelsAt(Upgraded(d, color).studyTags, r.studyId)) == UpperSet(SetOf(ColumnTags(r.patch)))
  {
    LoadPatchMeans(r.patch);
    var rows, labels := d.additional, AllLabels(d.additional);
    AllCovered(rows);
    AllLabelsSpell(rows);
    var here := LabelsAt(Links(rows, labels), r.studyId);
    forall l | l in here ensures Upper(l) in UpperSet(SetOf(TagsOf(r.patch))) {
      LinkMember(rows, labels, (r.studyId, l));
      var q, t :| q in rows && t in TagsOf(q.patch) && (r.studyId, l) == (q.studyId, labels[Upper(t)]);
      OnlyRow(rows, q, r);
      assert t in SetOf(TagsOf(r.patch));
    }
    forall t | t in SetOf(TagsOf(r.patch)) ensures Upper(t) in UpperSet(here) {
      LinkMember(rows, labels, (r.studyId, labels[Upper(t)]));
      assert labels[Upper(t)] in here;
    }
  }

  lemma OnlyRow(rows: seq<Additional>, q: Additional, r: Additional)
    requires DistinctStudies(rows) && q in rows && r in rows && q.studyId == r.studyId
    ensures q == r
  {
    var i :| 0 <= i < |rows| && rows[i] == q;
    var j :| 0 <= j < |rows| && rows[j] == r;
    assert i == j;
  }

  // ------------------------------------------------------------------- the downgrade

  ghost predicate Lists(listing: set<string> -> seq<string>) {
    forall s :: SetOf(listing(s)) == s
  }

  lemma UpperSetUnion(a: set<string>, b: set<string>)
    ensures UpperSet(a + b) == UpperSet(a) + UpperSet(b)
  {
  }

  /** The downgrade writes into each patch the tags of the link table and of the patch, up to case,
      each once, and leaves the rest of the patch alone. */
  lemma DowngradeMerges(d: Tables, listing: set<string> -> seq<string>, i: nat)
    requires Lists(listing) && i < |d.additional|
    ensures var r, r' := d.additional[i], Downgraded(d, listing).additional[i];
            && r'.studyId == r.studyId && r'.patch.Some? && r'.patch.value.study.Some?
                && r'.patch.value.study.value.tags.Some?
            && r'.patch.value.rest == PatchRest(r.patch)
            && r'.patch.value.study.value.rest == StudyRest(r.patch)
            && var tags, linked := r'.patch.value.study.value.tags.value, LabelsAt(d.studyTags, r.studyId);
               UniqueUpToCase(tags)
               && UpperSet(SetOf(tags)) == UpperSet(linked) + UpperSet(SetOf(ColumnTags(r.patch)))
  {
    var r := d.additional[i];
    var all := LabelsAt(d.studyTags, r.studyId) + SetOf(TagsOf(r.patch));
    LoadPatchMeans(r.patch);
    AvoidsDuplicates(listing(all));
    UpperSetUnion(LabelsAt(d.studyTags, r.studyId), SetOf(TagsOf(r.patch)));
  }

  /** Down after up: each patch gets back the tags it had, up to case, each once; the rest of the
      patch is as it was, and the tag tables are empty. */
  lemma RoundTrip(d: Tables, color: string -> string, listing: set<string> -> seq<string>, i: nat)
    requires DistinctStudies(d.additional) && Lists(listing) && i < |d.additional|
    ensures var back := Downgraded(Upgraded(d, color), listing);
            && |back.additional| == |d.additional| && back.tags == map[] && back.studyTags == []
            && var r, r' := d.additional[i], back.additional[i];
               && r'.studyId == r.studyId && r'.patch.Some? && r'.patch.value.study.Some?
               && r'.patch.value.rest == PatchRest(r.patch) && r'.patch.value.study.value.rest == StudyRest(r.patch)
               && r'.patch.value.study.value.tags.Some?
               && var tags := r'.patch.value.study.value.tags.value;
                  UniqueUpToCase(tags) && UpperSet(SetOf(tags)) == UpperSet(SetOf(ColumnTags(r.patch)))
  {
    var r := d.additional[i];
    var u := Upgraded(d, color);
    UpgradeLinksPatchTags(d, color, r);
    DowngradeMerges(u, listing, i);
  }
}
