/** The question list on screen: the questions grouped under their sections
    (or one numbered list when none has a section), the "Section X:" prefix
    stripped from grouped questions, and the inline edit state. */
module QuestionDisplay {
  import opened Outcomes
  import opened Text
  import opened Collections
  import opened Types

  const Unsectioned: string := "Unsectioned"

  /** `q.section || 'Unsectioned'`. */
  function GroupKey(q: Question): (key: string)
    ensures key != ""
    ensures Named(q.section) ==> key == q.section.value
    ensures !Named(q.section) ==> key == Unsectioned
  {
    if Named(q.section) then q.section.value else Unsectioned
  }

  function GroupKeys(qs: seq<Question>): (r: seq<string>)
    ensures |r| == |qs| && forall k :: 0 <= k < |qs| ==> r[k] == GroupKey(qs[k])
  {
    seq(|qs|, k requires 0 <= k < |qs| => GroupKey(qs[k]))
  }

  function InGroup(key: string): Question -> bool
  {
    (q: Question) => GroupKey(q) == key
  }

  /** The keys of `sectioned` in insertion order: each group key once, in
      first-appearance order. */
  ghost predicate KeysInOrder(qs: seq<Question>, keys: seq<string>)
  {
    keys == Distinct(GroupKeys(qs))
  }

  ghost predicate SameKeys(keys: seq<string>, groups: map<string, seq<Question>>)
  {
    forall key :: key in groups <==> key in keys
  }

  /** Each group holds the questions carrying its key, in input order. */
  ghost predicate GroupContents(qs: seq<Question>, groups: map<string, seq<Question>>)
  {
    forall key :: key in groups ==> groups[key] == Filter(qs, InGroup(key))
  }

  /** The `sectioned` dictionary and the order of its keys. */
  ghost predicate Grouped(qs: seq<Question>, keys: seq<string>, groups: map<string, seq<Question>>)
  {
    KeysInOrder(qs, keys) && SameKeys(keys, groups) && GroupContents(qs, groups)
  }

  /** A key no question carries has an empty group. */
  lemma AbsentKeyEmpty(qs: seq<Question>, key: string)
    requires key !in GroupKeys(qs)
    ensures Filter(qs, InGroup(key)) == []
  {
  }

  /** What `sectioned[key]` holds before the push: its group so far, or the
      `[]` created for a new key. */
  function Current(groups: map<string, seq<Question>>, key: string): seq<Question>
  {
    if key in groups then groups[key] else []
  }

  lemma KeysPush(qs: seq<Question>, q: Question, keys: seq<string>, groups: map<string, seq<Question>>)
    requires KeysInOrder(qs, keys) && SameKeys(keys, groups)
    ensures KeysInOrder(qs + [q], if GroupKey(q) in groups then keys else keys + [GroupKey(q)])
    ensures SameKeys(if GroupKey(q) in groups then keys else keys + [GroupKey(q)],
                     groups[GroupKey(q) := Current(groups, GroupKey(q)) + [q]])
  {
    var key := GroupKey(q);
    GroupKeysSnoc(qs, q);
    DistinctSnoc(GroupKeys(qs), key);
    assert key in groups <==> key in GroupKeys(qs);
  }

  lemma GroupKeysSnoc(qs: seq<Question>, q: Question)
    ensures GroupKeys(qs + [q]) == GroupKeys(qs) + [GroupKey(q)]
  {
  }

  lemma ContentsPush(qs: seq<Question>, q: Question, keys: seq<string>, groups: map<string, seq<Question>>)
    requires Grouped(qs, keys, groups)
    ensures GroupContents(qs + [q], groups[GroupKey(q) := Current(groups, GroupKey(q)) + [q]])
  {
    var key := GroupKey(q);
    var groups' := groups[key := Current(groups, key) + [q]];
    forall other | other in groups'
      ensures groups'[other] == Filter(qs + [q], InGroup(other))
    {
      FilterSnoc(qs, q, InGroup(other));
      if other == key && key !in groups {
        AbsentKeyEmpty(qs, key);
      }
    }
  }

  /** One turn of the `forEach`. */
  lemma GroupStep(qs: seq<Question>, i: nat, keys: seq<string>, groups: map<string, seq<Question>>)
    requires i < |qs| && Grouped(qs[..i], keys, groups)
    ensures Grouped(qs[..i + 1],
                    if GroupKey(qs[i]) in groups then keys else keys + [GroupKey(qs[i])],
                    groups[GroupKey(qs[i]) := Current(groups, GroupKey(qs[i])) + [qs[i]]])
  {
    assert qs[..i + 1] == qs[..i] + [qs[i]];
    KeysPush(qs[..i], qs[i], keys, groups);
    ContentsPush(qs[..i], qs[i], keys, groups);
  }

  /** The `forEach` that fills `sectioned`: a missing key first gets `[]`,
      then the question is pushed onto its group. */
  method GroupBySection(qs: seq<Question>) returns (keys: seq<string>, groups: map<string, seq<Question>>)
    ensures Grouped(qs, keys, groups)
  {
    keys := [];
    groups := map[];
    var i := 0;
    while i < |qs|
      invariant 0 <= i <= |qs|
      invariant Grouped(qs[..i], keys, groups)
    {
      var key := GroupKey(qs[i]);
      GroupStep(qs, i, keys, groups);
      var current := Current(groups, key);
      if key !in groups {
        keys := keys + [key];
      }
      groups := groups[key := current + [qs[i]]];
      i := i + 1;
    }
    assert qs[..|qs|] == qs;
  }

  /** A group holds as many questions as carry its key. */
  lemma {:induction false} GroupSize(qs: seq<Question>, key: string)
    ensures |Filter(qs, InGroup(key))| == Count(GroupKeys(qs), key)
    decreases |qs|
  {
    if qs != [] {
      var init := qs[..|qs| - 1];
      var q := qs[|qs| - 1];
      assert qs == init + [q];
      assert GroupKeys(qs) == GroupKeys(init) + [GroupKey(q)];
      GroupSize(init, key);
      FilterSnoc(init, q, InGroup(key));
      CountSnoc(GroupKeys(init), GroupKey(q), key);
    }
  }

  /** The sizes of the groups `keys` name, added up. */
  function GroupSizes(keys: seq<string>, groups: map<string, seq<Question>>): nat
    requires forall key :: key in keys ==> key in groups
  {
    if keys == [] then 0 else GroupSizes(keys[..|keys| - 1], groups) + |groups[keys[|keys| - 1]]|
  }

  lemma {:induction false} GroupSizesCount(qs: seq<Question>, keys: seq<string>, groups: map<string, seq<Question>>)
    requires forall key :: key in keys ==> key in groups && groups[key] == Filter(qs, InGroup(key))
    ensures GroupSizes(keys, groups) == SumCounts(keys, GroupKeys(qs))
    decreases |keys|
  {
    if keys != [] {
      var init := keys[..|keys| - 1];
      assert forall key :: key in init ==> key in keys;
      GroupSizesCount(qs, init, groups);
      GroupSize(qs, keys[|keys| - 1]);
    }
  }

  /** Every question lands in exactly one group: the one its own key names,
      and the groups together hold every question once. */
  lemma GroupsPartition(qs: seq<Question>, keys: seq<string>, groups: map<string, seq<Question>>)
    requires Grouped(qs, keys, groups)
    ensures forall k :: 0 <= k < |qs| ==> GroupKey(qs[k]) in groups && qs[k] in groups[GroupKey(qs[k])]
    ensures forall key, q :: key in groups && q in groups[key] ==> q in qs && GroupKey(q) == key
    ensures GroupSizes(keys, groups) == |qs|
  {
    forall k | 0 <= k < |qs|
      ensures GroupKey(qs[k]) in groups && qs[k] in groups[GroupKey(qs[k])]
    {
      assert GroupKeys(qs)[k] == GroupKey(qs[k]);
    }
    GroupSizesCount(qs, keys, groups);
    SumCountsDistinct(GroupKeys(qs));
  }

  // ---------------------------------------------------------------------
  // The "Section X:" prefix strip

  predicate IsLetter(c: char) { 'a' <= c <= 'z' || 'A' <= c <= 'Z' }

  /** The end of the run of white space starting at `j`. */
  function SkipSpaces(s: string, j: nat): (r: nat)
    requires j <= |s|
    ensures j <= r <= |s|
    ensures forall k :: j <= k < r ==> IsSpace(s[k])
    ensures r == |s| || !IsSpace(s[r])
    decreases |s| - j
  {
    if j < |s| && IsSpace(s[j]) then SkipSpaces(s, j + 1) else j
  }

  /** Where the prefix pattern (the word `section` in any case, white space,
      one ASCII letter, white space, an optional colon, white space) ends
      when matched at `i`, if it matches there.  Every part is greedy and
      white space is never a letter or a colon, so the first way to match
      is the longest. */
  function MatchEnd(s: string, i: nat): (r: Option<nat>)
    requires i <= |s|
    ensures r.Some? ==> i + 8 <= r.value <= |s|
  {
    if i + 7 <= |s| && Lower(s[i..i + 7]) == "section" then
      var j := SkipSpaces(s, i + 7);
      if j < |s| && IsLetter(s[j]) then
        var k := SkipSpaces(s, j + 1);
        var l := if k < |s| && s[k] == ':' then k + 1 else k;
        Some(SkipSpaces(s, l))
      else None
    else None
  }

  /** The leftmost match at or after `i` (the pattern is not anchored). */
  function FirstMatch(s: string, i: nat): (r: Option<(nat, nat)>)
    requires i <= |s|
    ensures r.Some? ==> i <= r.value.0 && r.value.0 + 8 <= r.value.1 <= |s|
    ensures r.Some? ==> MatchEnd(s, r.value.0) == Some(r.value.1)
    decreases |s| - i
  {
    match MatchEnd(s, i)
    case Some(e) => Some((i, e))
    case None => if i == |s| then None else FirstMatch(s, i + 1)
  }

  /** The match found is the leftmost one, and none is found only when
      there is none. */
  lemma {:induction false} FirstMatchLeftmost(s: string, i: nat, k: nat)
    requires i <= k <= |s|
    ensures FirstMatch(s, i).Some? && k < FirstMatch(s, i).value.0 ==> MatchEnd(s, k).None?
    ensures FirstMatch(s, i).None? ==> MatchEnd(s, k).None?
    decreases |s| - i
  {
    if MatchEnd(s, i).None? && i < |s| && i < k {
      FirstMatchLeftmost(s, i + 1, k);
    }
  }

  /** `cleanText`: the first match removed, then the text trimmed. */
  function CleanText(s: string): (r: string)
    ensures |r| <= |s| && Unpadded(r)
  {
    match FirstMatch(s, 0)
    case None => Trim(s)
    case Some((i, e)) => Trim(s[..i] + s[e..])
  }

  /** No match can start where the lower-cased text has no `section`. */
  lemma {:induction false} NoSectionWord(s: string, i: nat)
    requires i <= |s|
    requires !Contains(Lower(s[i..]), "section")
    ensures FirstMatch(s, i).None?
    decreases |s| - i
  {
    var t := Lower(s[i..]);
    assert i + 7 <= |s| ==> t[..7] == Lower(s[i..i + 7]);
    if i < |s| {
      assert Lower(s[i + 1..]) == t[1..];
      assert !Contains(t[1..], "section");
      NoSectionWord(s, i + 1);
    }
  }

  /** A question without the word "section" (in any case) is only trimmed. */
  lemma CleanTextPlain(s: string)
    requires !Contains(Lower(s), "section")
    ensures CleanText(s) == Trim(s)
  {
    assert s[0..] == s;
    NoSectionWord(s, 0);
  }

  /** "Section C: " before a question is removed with the spaces around it. */
  lemma CleanTextPrefix(c: char, body: string)
    requires IsLetter(c)
    requires body == [] || !IsSpace(body[0])
    ensures CleanText("Section " + [c] + ": " + body) == Trim(body)
  {
    var s := "Section " + [c] + ": " + body;
    assert s[..7] == "Section";
    assert Lower(s[0..7]) == "section";
    assert SkipSpaces(s, 7) == 8 by {
      assert s[7] == ' ' && s[8] == c;
    }
    assert SkipSpaces(s, 9) == 9 by {
      assert s[9] == ':';
    }
    assert SkipSpaces(s, 10) == 11 by {
      assert s[10] == ' ';
      assert |s| == 11 || s[11] == body[0];
    }
    assert MatchEnd(s, 0) == Some(11);
    assert s[..0] + s[11..] == body;
  }

  // ---------------------------------------------------------------------
  // What the list shows

  /** One line of the list: its number, its text (`None` for the blank line
      drawn for an empty question) and its marks. */
  datatype Row = Row(number: nat, text: Option<string>, marks: Option<int>)

  datatype Group = Group(heading: string, rows: seq<Row>)

  datatype View = Nothing | Flat(rows: seq<Row>) | Sectioned(groups: seq<Group>)

  /** The list without sections: numbered from 1, the text shown as given
      unless it is blank. */
  function FlatRows(qs: seq<Question>): (r: seq<Row>)
    ensures |r| == |qs|
    ensures forall k :: 0 <= k < |qs| ==> r[k].number == k + 1 && r[k].marks == qs[k].marks
    ensures forall k :: 0 <= k < |qs| ==> (r[k].text.None? <==> AllSpace(qs[k].question))
    ensures forall k :: 0 <= k < |qs| && r[k].text.Some? ==> r[k].text.value == qs[k].question
  {
    seq(|qs|, k requires 0 <= k < |qs| =>
      Row(k + 1, if Trim(qs[k].question) != [] then Some(qs[k].question) else None, qs[k].marks))
  }

  /** One section's list: numbered from 1 again, the text with its prefix
      stripped, blank when nothing is left. */
  function SectionRows(qs: seq<Question>): (r: seq<Row>)
    ensures |r| == |qs|
    ensures forall k :: 0 <= k < |qs| ==> r[k].number == k + 1 && r[k].marks == qs[k].marks
    ensures forall k :: 0 <= k < |qs| ==> (r[k].text.None? <==> CleanText(qs[k].question) == [])
  {
    seq(|qs|, k requires 0 <= k < |qs| =>
      var t := CleanText(qs[k].question);
      Row(k + 1, if t != [] then Some(t) else None, qs[k].marks))
  }

  function Heading(key: string): string { "Section " + key }

  function GroupsOf(keys: seq<string>, groups: map<string, seq<Question>>): (r: seq<Group>)
    requires forall key :: key in keys ==> key in groups
    ensures |r| == |keys|
    ensures forall k :: 0 <= k < |keys| ==> r[k] == Group(Heading(keys[k]), SectionRows(groups[keys[k]]))
  {
    seq(|keys|, k requires 0 <= k < |keys| => Group(Heading(keys[k]), SectionRows(groups[keys[k]])))
  }

  function RowCount(gs: seq<Group>): nat
  {
    if gs == [] then 0 else RowCount(gs[..|gs| - 1]) + |gs[|gs| - 1].rows|
  }

  lemma {:induction false} RowCountSizes(keys: seq<string>, groups: map<string, seq<Question>>)
    requires forall key :: key in keys ==> key in groups
    ensures RowCount(GroupsOf(keys, groups)) == GroupSizes(keys, groups)
    decreases |keys|
  {
    if keys != [] {
      var init := keys[..|keys| - 1];
      assert forall key :: key in init ==> key in keys;
      assert GroupsOf(keys, groups)[..|keys| - 1] == GroupsOf(init, groups);
      RowCountSizes(init, groups);
    }
  }

  /** The sections shown: one per key in first-appearance order, each
      listing its own questions, every question shown once overall. */
  lemma SectionedView(qs: seq<Question>, keys: seq<string>, groups: map<string, seq<Question>>)
    requires Grouped(qs, keys, groups)
    ensures forall key :: key in keys ==> key in groups
    ensures |GroupsOf(keys, groups)| == |Distinct(GroupKeys(qs))|
    ensures RowCount(GroupsOf(keys, groups)) == |qs|
    ensures forall k :: 0 <= k < |keys| ==>
      GroupsOf(keys, groups)[k] == Group(Heading(Distinct(GroupKeys(qs))[k]),
                                         SectionRows(Filter(qs, InGroup(Distinct(GroupKeys(qs))[k]))))
  {
    GroupsPartition(qs, keys, groups);
    RowCountSizes(keys, groups);
  }

  /** The component's output: nothing for an empty list, the sections when
      any question has one, the plain list otherwise. */
  method ShowQuestions(qs: seq<Question>) returns (v: View)
    ensures qs == [] <==> v == Nothing
    ensures qs != [] && !HasSections(qs) ==> v == Flat(FlatRows(qs))
    ensures qs != [] && HasSections(qs) ==> v.Sectioned?
    ensures v.Sectioned? ==> |v.groups| == |Distinct(GroupKeys(qs))| && RowCount(v.groups) == |qs|
    ensures v.Sectioned? ==> forall k :: 0 <= k < |v.groups| ==>
      v.groups[k] == Group(Heading(Distinct(GroupKeys(qs))[k]),
                           SectionRows(Filter(qs, InGroup(Distinct(GroupKeys(qs))[k]))))
  {
    if |qs| == 0 {
      return Nothing;
    }
    if HasSections(qs) {
      var keys, groups := GroupBySection(qs);
      SectionedView(qs, keys, groups);
      v := Sectioned(GroupsOf(keys, groups));
    } else {
      v := Flat(FlatRows(qs));
    }
  }

  /** With sections present, a question without one is shown under
      "Section Unsectioned". */
  lemma UnsectionedShown(qs: seq<Question>, k: nat)
    requires k < |qs| && !Named(qs[k].section)
    ensures Unsectioned in Distinct(GroupKeys(qs))
    ensures qs[k] in Filter(qs, InGroup(Unsectioned))
  {
    assert GroupKeys(qs)[k] == Unsectioned;
    assert InGroup(Unsectioned)(qs[k]);
  }

  // ---------------------------------------------------------------------
  // Editing

  /** The `onEdit(index, {question, marks})` call a save makes. */
  datatype EditCall = EditCall(index: nat, question: string, marks: Option<int>)

  /** `editIndex`, `editText`, `editMarks` and `original`. */
  class EditState {
    var editIndex: Option<nat>
    var editText: string
    var editMarks: string
    var original: Option<(string, string)>

    predicate Idle()
      reads this
    {
      editIndex == None && editText == "" && editMarks == "" && original == None
    }

    constructor()
      ensures Idle()
    {
      editIndex := None;
      editText := "";
      editMarks := "";
      original := None;
    }

    /** `handleEdit`: the question's text and marks become the edited values. */
    method Edit(index: nat, q: Question)
      modifies this
      ensures editIndex == Some(index)
      ensures editText == q.question && editMarks == NumberText(q.marks)
      ensures original == Some((q.question, NumberText(q.marks)))
    {
      editIndex := Some(index);
      editText := q.question;
      editMarks := NumberText(q.marks);
      original := Some((q.question, NumberText(q.marks)));
    }

    /** `handleSave`: report the edited values when there is a listener,
        then clear the state. */
    method Save(index: nat, hasListener: bool) returns (call: Option<EditCall>)
      modifies this
      ensures call == if hasListener then Some(EditCall(index, old(editText), NumberOf(Str(old(editMarks))))) else None
      ensures Idle()
    {
      if hasListener {
        call := Some(EditCall(index, editText, NumberOf(Str(editMarks))));
      } else {
        call := None;
      }
      editIndex := None;
      editText := "";
      editMarks := "";
      original := None;
    }

    /** `handleCancel`: clear the state without reporting anything. */
    method Cancel()
      modifies this
      ensures Idle()
    {
      editIndex := None;
      editText := "";
      editMarks := "";
      original := None;
    }
  }

  /** Saving an edit that changed nothing reports the question's own text
      and marks. */
  lemma SaveUnchanged(q: Question)
    ensures NumberOf(Str(NumberText(q.marks))) == q.marks
  {
    NumberTextRoundTrip(q.marks);
  }
}
