/** The section editor: adding, removing and updating sections, the
    per-section type and difficulty checkboxes, the totals and the count
    box.  Every operation returns the new list handed to
    `onSectionsChange`. */
module SectionConfiguration {
  import opened Outcomes
  import opened Text
  import opened Collections
  import opened Types
  import opened NumberInput

  /** A `Partial<Section>`: the fields the editor changes. */
  datatype SectionUpdate = SectionUpdate(
    name: Option<string>,
    questionTypes: Option<seq<string>>,
    marks: Option<Value>,
    questionCount: Option<int>,
    difficulty: Option<seq<string>>)

  const NoUpdate := SectionUpdate(None, None, None, None, None)

  /** `{ ...s, ...updates }`. */
  function Merge(s: Section, u: SectionUpdate): (r: Section)
    ensures r.id == s.id
    ensures r.name == (if u.name.Some? then u.name.value else s.name)
    ensures r.questionTypes == (if u.questionTypes.Some? then u.questionTypes.value else s.questionTypes)
    ensures r.marks == (if u.marks.Some? then u.marks.value else s.marks)
    ensures r.questionCount == (if u.questionCount.Some? then u.questionCount.value else s.questionCount)
    ensures r.difficulty == (if u.difficulty.Some? then u.difficulty.value else s.difficulty)
  {
    Section(s.id,
            if u.name.Some? then u.name.value else s.name,
            if u.questionTypes.Some? then u.questionTypes.value else s.questionTypes,
            if u.marks.Some? then u.marks.value else s.marks,
            if u.questionCount.Some? then u.questionCount.value else s.questionCount,
            if u.difficulty.Some? then u.difficulty.value else s.difficulty)
  }

  /** Applying the same updates twice is applying them once. */
  lemma MergeIdempotent(s: Section, u: SectionUpdate)
    ensures Merge(Merge(s, u), u) == Merge(s, u)
  {
  }

  /** The name of the section added after `n` others: `Section A`,
      `Section B`, ... */
  function SectionName(n: nat): string
  {
    "Section " + [FromCharCode(65 + n)]
  }

  /** `addSection`: one empty section appended, the others untouched; its id
      is `section_` and the current time. */
  function AddSection(sections: seq<Section>, now: nat): (r: seq<Section>)
    ensures |r| == |sections| + 1 && r[..|sections|] == sections
    ensures r[|sections|].name == SectionName(|sections|)
    ensures r[|sections|].questionTypes == [] && r[|sections|].difficulty == []
    ensures r[|sections|].marks == Num(0) && r[|sections|].questionCount == 0
  {
    sections + [Section("section_" + NatToString(now), SectionName(|sections|), [], Num(0), 0, [])]
  }

  /** The first 26 sections are lettered A to Z, each letter once. */
  lemma SectionNamesLettered(m: nat, n: nat)
    requires m < 26 && n < 26
    ensures SectionName(n)[8] as int == 'A' as int + n
    ensures m != n ==> SectionName(m) != SectionName(n)
  {
    assert SectionName(m)[8] as int == 65 + m;
    assert SectionName(n)[8] as int == 65 + n;
  }

  function OtherId(id: string): Section -> bool
  {
    (s: Section) => s.id != id
  }

  function SameId(id: string): Section -> bool
  {
    (s: Section) => s.id == id
  }

  /** `removeSection`: every section with the id dropped, the rest kept in order. */
  function RemoveSection(sections: seq<Section>, id: string): (r: seq<Section>)
    ensures forall s :: s in r <==> s in sections && s.id != id
  {
    Filter(sections, OtherId(id))
  }

  /** Removing an id no section has changes nothing. */
  lemma {:induction false} RemoveAbsent(sections: seq<Section>, id: string)
    requires forall k :: 0 <= k < |sections| ==> sections[k].id != id
    ensures RemoveSection(sections, id) == sections
    decreases |sections|
  {
    if sections != [] {
      var init := sections[..|sections| - 1];
      assert sections == init + [sections[|sections| - 1]];
      RemoveAbsent(init, id);
      FilterSnoc(init, sections[|sections| - 1], OtherId(id));
    }
  }

  /** `updateSection`: the updates merged into the sections with the id,
      every other section left as it is. */
  function UpdateSection(sections: seq<Section>, id: string, u: SectionUpdate): (r: seq<Section>)
    ensures |r| == |sections|
    ensures forall k :: 0 <= k < |r| ==> r[k].id == sections[k].id
    ensures forall k :: 0 <= k < |r| && sections[k].id != id ==> r[k] == sections[k]
    ensures forall k :: 0 <= k < |r| && sections[k].id == id ==> r[k] == Merge(sections[k], u)
  {
    seq(|sections|, k requires 0 <= k < |sections| =>
      if sections[k].id == id then Merge(sections[k], u) else sections[k])
  }

  /** `sections.find(s => s.id === id)`. */
  function Find(sections: seq<Section>, id: string): (r: Option<Section>)
    ensures r.None? <==> forall k :: 0 <= k < |sections| ==> sections[k].id != id
    ensures r.Some? ==> r.value in sections && r.value.id == id
  {
    if sections == [] then None
    else if sections[0].id == id then Some(sections[0])
    else Find(sections[1..], id)
  }

  predicate UniqueIds(sections: seq<Section>)
  {
    forall i, j :: 0 <= i < j < |sections| ==> sections[i].id != sections[j].id
  }

  /** With unique ids the section found is the one at its index. */
  lemma FindUnique(sections: seq<Section>, k: nat)
    requires UniqueIds(sections) && k < |sections|
    ensures Find(sections, sections[k].id) == Some(sections[k])
  {
    var r := Find(sections, sections[k].id);
    var j :| 0 <= j < |sections| && sections[j] == r.value;
    assert sections[j].id == sections[k].id;
  }

  /** The per-section type checkbox: an unknown id changes nothing;
      otherwise the list of the section found is toggled and written, with
      `updateSection`, to every section with that id. */
  function ToggleType(sections: seq<Section>, id: string, t: string, checked: bool): seq<Section>
  {
    match Find(sections, id)
    case None => sections
    case Some(s) => UpdateSection(sections, id, NoUpdate.(questionTypes := Some(Toggled(s.questionTypes, t, checked))))
  }

  /** The per-section difficulty checkbox, alike. */
  function ToggleDifficulty(sections: seq<Section>, id: string, d: string, checked: bool): seq<Section>
  {
    match Find(sections, id)
    case None => sections
    case Some(s) => UpdateSection(sections, id, NoUpdate.(difficulty := Some(Toggled(s.difficulty, d, checked))))
  }

  /** With unique ids, a type toggle changes only the types of the section
      it names: checking appends the type, unchecking removes every copy,
      and the other types keep their counts. */
  lemma ToggleTypeEffect(sections: seq<Section>, k: nat, t: string, checked: bool)
    requires UniqueIds(sections) && k < |sections|
    ensures |ToggleType(sections, sections[k].id, t, checked)| == |sections|
    ensures ToggleType(sections, sections[k].id, t, checked)[k]
            == sections[k].(questionTypes := Toggled(sections[k].questionTypes, t, checked))
    ensures forall j :: 0 <= j < |sections| && j != k ==>
              ToggleType(sections, sections[k].id, t, checked)[j] == sections[j]
  {
    FindUnique(sections, k);
  }

  /** The difficulty toggle, alike. */
  lemma ToggleDifficultyEffect(sections: seq<Section>, k: nat, d: string, checked: bool)
    requires UniqueIds(sections) && k < |sections|
    ensures |ToggleDifficulty(sections, sections[k].id, d, checked)| == |sections|
    ensures ToggleDifficulty(sections, sections[k].id, d, checked)[k]
            == sections[k].(difficulty := Toggled(sections[k].difficulty, d, checked))
    ensures forall j :: 0 <= j < |sections| && j != k ==>
              ToggleDifficulty(sections, sections[k].id, d, checked)[j] == sections[j]
  {
    FindUnique(sections, k);
  }

  /** A toggle naming no section changes nothing. */
  lemma ToggleUnknown(sections: seq<Section>, id: string, v: string, checked: bool)
    requires forall k :: 0 <= k < |sections| ==> sections[k].id != id
    ensures ToggleType(sections, id, v, checked) == sections
    ensures ToggleDifficulty(sections, id, v, checked) == sections
  {
  }

  /** Checking and then unchecking a type a section did not have restores
      the sections. */
  lemma ToggleTypeRoundTrip(sections: seq<Section>, k: nat, t: string)
    requires UniqueIds(sections) && k < |sections| && t !in sections[k].questionTypes
    ensures ToggleType(ToggleType(sections, sections[k].id, t, true), sections[k].id, t, false) == sections
  {
    var id := sections[k].id;
    var types := sections[k].questionTypes;
    FindUnique(sections, k);
    var once := UpdateSection(sections, id, NoUpdate.(questionTypes := Some(types + [t])));
    assert ToggleType(sections, id, t, true) == once;
    assert UniqueIds(once);
    FindUnique(once, k);
    assert once[k].questionTypes == types + [t];
    ToggleRoundTrip(types, t);
    var twice := UpdateSection(once, id, NoUpdate.(questionTypes := Some(types)));
    assert ToggleType(once, id, t, false) == twice;
    forall j | 0 <= j < |sections|
      ensures twice[j] == sections[j]
    {
      if j != k {
        assert sections[j].id != id;
      }
    }
  }

  // ---------------------------------------------------------------------
  // Totals

  /** The marks of a section are a number. */
  predicate Marked(s: Section)
  {
    NumberOf(s.marks).Some?
  }

  /** The section total shown beside each section: marks × count. */
  function SectionMarks(s: Section): (r: Option<int>)
    ensures r.Some? <==> Marked(s)
  {
    Times(NumberOf(s.marks), s.questionCount)
  }

  /** `getTotalQuestions`: the sum of the counts. */
  function TotalQuestions(sections: seq<Section>): int
  {
    if sections == [] then 0
    else TotalQuestions(sections[..|sections| - 1]) + sections[|sections| - 1].questionCount
  }

  /** `getTotalMarks`: the sum of the section totals. */
  function TotalMarks(sections: seq<Section>): (r: Option<int>)
    ensures r.Some? <==> forall k :: 0 <= k < |sections| ==> Marked(sections[k])
  {
    if sections == [] then Some(0)
    else
      AllSnoc(sections, sections[..|sections| - 1], Marked);
      Plus(TotalMarks(sections[..|sections| - 1]), SectionMarks(sections[|sections| - 1]))
  }

  lemma {:induction false} TotalsAppend(a: seq<Section>, b: seq<Section>)
    ensures TotalQuestions(a + b) == TotalQuestions(a) + TotalQuestions(b)
    ensures TotalMarks(a + b) == Plus(TotalMarks(a), TotalMarks(b))
    decreases |b|
  {
    if b == [] {
      assert a + b == a;
    } else {
      var init := b[..|b| - 1];
      var last := b[|b| - 1];
      AppendInit(a, b);
      TotalsAppend(a, init);
      PlusAssoc(TotalMarks(a), TotalMarks(init), SectionMarks(last));
    }
  }

  /** Dropping the last section of `a + b` drops the last of `b`. */
  lemma AppendInit(a: seq<Section>, b: seq<Section>)
    requires b != []
    ensures (a + b)[..|a + b| - 1] == a + b[..|b| - 1]
    ensures (a + b)[|a + b| - 1] == b[|b| - 1]
  {
  }

  lemma PlusAssoc(x: Option<int>, y: Option<int>, z: Option<int>)
    ensures Plus(Plus(x, y), z) == Plus(x, Plus(y, z))
  {
  }

  /** A new section adds nothing to either total. */
  lemma AddSectionTotals(sections: seq<Section>, now: nat)
    ensures TotalQuestions(AddSection(sections, now)) == TotalQuestions(sections)
    ensures TotalMarks(AddSection(sections, now)) == TotalMarks(sections)
  {
    var r := AddSection(sections, now);
    assert r[..|r| - 1] == sections;
  }

  lemma TotalsSnoc(a: seq<Section>, s: Section)
    ensures TotalQuestions(a + [s]) == TotalQuestions(a) + s.questionCount
  {
    assert (a + [s])[..|a|] == a;
  }

  /** Removing a section takes its count off the total: the kept sections
      and the removed ones add up to the old total. */
  lemma {:induction false} RemoveSectionTotals(sections: seq<Section>, id: string)
    ensures TotalQuestions(sections)
            == TotalQuestions(RemoveSection(sections, id)) + TotalQuestions(Filter(sections, SameId(id)))
    decreases |sections|
  {
    if sections != [] {
      var init := sections[..|sections| - 1];
      var last := sections[|sections| - 1];
      assert sections == init + [last];
      RemoveSectionTotals(init, id);
      TotalsSnoc(init, last);
      FilterSnoc(init, last, OtherId(id));
      FilterSnoc(init, last, SameId(id));
      if last.id == id {
        assert SameId(id)(last) && !OtherId(id)(last);
        assert Filter(sections, SameId(id)) == Filter(init, SameId(id)) + [last];
        assert RemoveSection(sections, id) == RemoveSection(init, id);
        TotalsSnoc(Filter(init, SameId(id)), last);
      } else {
        assert !SameId(id)(last) && OtherId(id)(last);
        assert Filter(sections, SameId(id)) == Filter(init, SameId(id));
        assert RemoveSection(sections, id) == RemoveSection(init, id) + [last];
        TotalsSnoc(RemoveSection(init, id), last);
      }
    }
  }

  /** The count box: typed text stored through the numeric-input rule. */
  function SetCount(sections: seq<Section>, id: string, text: string): (r: seq<Section>)
    ensures |r| == |sections|
    ensures forall k :: 0 <= k < |r| ==>
      r[k] == if sections[k].id == id then sections[k].(questionCount := Typed(text)) else sections[k]
  {
    UpdateSection(sections, id, NoUpdate.(questionCount := Some(Typed(text))))
  }

  /** Retyping the count a section shows leaves the sections as they are. */
  lemma SetCountShown(sections: seq<Section>, k: nat)
    requires UniqueIds(sections) && k < |sections|
    ensures SetCount(sections, sections[k].id, Shown(Num(sections[k].questionCount))) == sections
  {
    var id := sections[k].id;
    ShownTypedRoundTrip(sections[k].questionCount);
    var r := SetCount(sections, id, Shown(Num(sections[k].questionCount)));
    assert r == UpdateSection(sections, id, NoUpdate.(questionCount := Some(sections[k].questionCount)));
    assert r[k] == sections[k];
    forall j | 0 <= j < |sections|
      ensures r[j] == sections[j]
    {
      if j != k {
        assert sections[j].id != id;
      }
    }
  }
}
