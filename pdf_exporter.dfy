/** The question-paper exporter: the plain-text paper (`generateContent`)
    and the section listing the PDF and Word writers share (distinct section
    names in first-appearance order, numbering restarting in each section).
    The page layout itself is the writers' business and is not modelled. */
module PdfExporter {
  import opened Outcomes
  import opened Text
  import opened Collections
  import opened Types

  /** `'='.repeat(50)`. */
  const Rule: string := "=================================================="
  const AnswerLine: string := "   Answer: ________________________________\n"
  const ExtraLine: string := "   _______________________________________\n"
  const TrueFalseLines: string := "   A. True\n   B. False\n"

  /** `${topic}` for an optional text. */
  function TopicText(t: Option<string>): string
  {
    if t.Some? then t.value else "undefined"
  }

  /** `${marks} mark${marks !== 1 ? 's' : ''}`. */
  function MarksLabel(m: Option<int>): string
  {
    NumberText(m) + " mark" + (if m != Some(1) then "s" else "")
  }

  /** The label is singular exactly for one mark. */
  lemma MarksLabelSingular(m: Option<int>)
    ensures EndsWith(MarksLabel(m), "s") <==> m != Some(1)
  {
    var l := MarksLabel(m);
    if m == Some(1) {
      assert l[|l| - 1] == 'k';
    } else {
      assert l[|l| - 1] == 's';
    }
  }

  /** `String.fromCharCode(65 + i)`: the letters for the first 26 options. */
  function OptionLetter(i: nat): (c: char)
    ensures i < 26 ==> 'A' <= c <= 'Z' && c as int - 'A' as int == i
  {
    FromCharCode(65 + i)
  }

  function OptionLine(i: nat, option: string): string
  {
    "   " + [OptionLetter(i)] + ". " + option + "\n"
  }

  /** The lines written for the question at position `i` (numbered `i + 1`):
      number and text, marks, difficulty and topic, the options of a
      multiple-choice question, the two choices of a true-false one, answer
      rules for written answers, and a blank line. */
  function BlockParts(i: nat, q: Question): seq<string>
  {
    [NatToString(i + 1) + ". " + q.question + "\n",
     "   [" + MarksLabel(q.marks) + "] - ",
     q.difficulty + " - " + TopicText(q.topic) + "\n",
     if q.questionType == "multiple-choice" && q.options.Some? then Listed(q.options.value, OptionLine) else "",
     if q.questionType == "true-false" then TrueFalseLines else "",
     if q.questionType == "short-answer" || q.questionType == "long-answer" then AnswerLine else "",
     if q.questionType == "long-answer" then ExtraLine + ExtraLine else "",
     "\n"]
  }

  function QuestionBlock(i: nat, q: Question): string
  {
    Concat(BlockParts(i, q))
  }

  /** `items.forEach((x, i) => content += f(i, x))`. */
  function Listed<T>(items: seq<T>, f: (nat, T) -> string): string
  {
    if items == [] then ""
    else Listed(items[..|items| - 1], f) + f(|items| - 1, items[|items| - 1])
  }

  lemma ListedPrefix<T>(items: seq<T>, i: nat, f: (nat, T) -> string)
    requires i < |items|
    ensures Listed(items[..i + 1], f) == Listed(items[..i], f) + f(i, items[i])
  {
    assert items[..i + 1][..i] == items[..i];
  }

  /** The entry of position `k` sits between the entries before it and the
      ones after it, so entries appear in input order. */
  lemma {:induction false} ListedAt<T>(items: seq<T>, k: nat, f: (nat, T) -> string)
    requires k < |items|
    ensures exists rest :: Listed(items, f) == Listed(items[..k], f) + f(k, items[k]) + rest
    decreases |items|
  {
    if k == |items| - 1 {
      assert items[..|items| - 1] == items[..k];
      assert Listed(items, f) == Listed(items[..k], f) + f(k, items[k]) + "";
    } else {
      var init := items[..|items| - 1];
      ListedAt(init, k, f);
      assert init[..k] == items[..k];
      var rest :| Listed(init, f) == Listed(init[..k], f) + f(k, init[k]) + rest;
      assert Listed(items, f) == Listed(items[..k], f) + f(k, items[k]) + (rest + f(|items| - 1, items[|items| - 1]));
    }
  }

  /** The header lines. The duration is the setting as stored, a number or
      the empty text of a cleared box; the total marks may also be NaN
      (`None`), when a section's marks are not a number. */
  function HeaderParts(subject: string, duration: Value, totalMarks: Option<Value>, count: nat): seq<string>
  {
    [Upper(subject) + " - QUESTION PAPER\n",
     Rule + "\n\n",
     "Duration: " + ValueText(duration) + " minutes\n",
     "Total Marks: " + Interpolated(totalMarks) + "\n",
     "Number of Questions: " + NatToString(count) + "\n",
     "\nINSTRUCTIONS:\n",
     "• Read all questions carefully before answering\n",
     "• Answer all questions within the given time limit\n",
     "• For multiple choice questions, select the best answer\n",
     "• Write clearly and legibly for written answers\n\n",
     Rule + "\n\n"]
  }

  function Header(subject: string, duration: Value, totalMarks: Option<Value>, count: nat): string
  {
    Concat(HeaderParts(subject, duration, totalMarks, count))
  }

  /** The header opens with the subject in upper case and states the
      duration, the total marks and the number of questions. */
  lemma HeaderFields(subject: string, duration: Value, totalMarks: Option<Value>, count: nat)
    ensures StartsWith(Header(subject, duration, totalMarks, count), Upper(subject) + " - QUESTION PAPER\n")
    ensures Contains(Header(subject, duration, totalMarks, count), "Duration: " + ValueText(duration) + " minutes\n")
    ensures Contains(Header(subject, duration, totalMarks, count), "Total Marks: " + Interpolated(totalMarks) + "\n")
    ensures Contains(Header(subject, duration, totalMarks, count), "Number of Questions: " + NatToString(count) + "\n")
  {
    var parts := HeaderParts(subject, duration, totalMarks, count);
    ConcatOpens(parts, |parts|);
    assert parts[..|parts|] == parts;
    ConcatHolds(parts, 2);
    ConcatHolds(parts, 3);
    ConcatHolds(parts, 4);
  }

  /** Numbers are printed in decimal. */
  lemma HeaderNumbers(subject: string, count: nat, d: int, m: int)
    ensures Contains(Header(subject, Num(d), Some(Num(m)), count), "Duration: " + IntToString(d) + " minutes\n")
    ensures Contains(Header(subject, Num(d), Some(Num(m)), count), "Total Marks: " + IntToString(m) + "\n")
  {
    HeaderFields(subject, Num(d), Some(Num(m)), count);
  }

  /** A cleared duration box leaves the gap empty, and a NaN total is
      printed as `NaN`. */
  lemma HeaderUnset(subject: string, count: nat)
    ensures Contains(Header(subject, Str(""), None, count), "Duration:  minutes\n")
    ensures Contains(Header(subject, Str(""), None, count), "Total Marks: NaN\n")
  {
    HeaderFields(subject, Str(""), None, count);
    assert ValueText(Str("")) == "" && Interpolated(None) == "NaN";
    assert "Duration: " + "" + " minutes\n" == "Duration:  minutes\n";
    assert "Total Marks: " + "NaN" + "\n" == "Total Marks: NaN\n";
  }

  /** Each question's entry opens with its number and text, gives the marks
      label, and holds the lines its type calls for. */
  lemma QuestionBlockParts(i: nat, q: Question)
    ensures StartsWith(QuestionBlock(i, q), NatToString(i + 1) + ". " + q.question + "\n")
    ensures Contains(QuestionBlock(i, q), "   [" + MarksLabel(q.marks) + "] - ")
    ensures q.questionType == "true-false" ==> Contains(QuestionBlock(i, q), TrueFalseLines)
    ensures q.questionType == "short-answer" || q.questionType == "long-answer" ==> Contains(QuestionBlock(i, q), AnswerLine)
    ensures q.questionType == "long-answer" ==> Contains(QuestionBlock(i, q), ExtraLine + ExtraLine)
    ensures q.questionType == "multiple-choice" && q.options.Some? ==>
      Contains(QuestionBlock(i, q), Listed(q.options.value, OptionLine))
  {
    var parts := BlockParts(i, q);
    ConcatOpens(parts, |parts|);
    assert parts[..|parts|] == parts;
    ConcatHolds(parts, 1);
    ConcatHolds(parts, 3);
    ConcatHolds(parts, 4);
    ConcatHolds(parts, 5);
    ConcatHolds(parts, 6);
  }

  lemma AppendAssoc(a: string, b: string, c: string)
    ensures (a + b) + c == a + (b + c)
  {
  }

  /** `generateContent`: the header, then every question's entry in input
      order, numbered from 1. */
  method GenerateContent(questions: seq<Question>, subject: string, duration: Value, totalMarks: Option<Value>)
    returns (content: string)
    ensures content == Header(subject, duration, totalMarks, |questions|) + Listed(questions, QuestionBlock)
  {
    content := AppendBlocks(Header(subject, duration, totalMarks, |questions|), questions);
  }

  /** The question loop: each question's entry appended in turn. */
  method AppendBlocks(header: string, questions: seq<Question>) returns (content: string)
    ensures content == header + Listed(questions, QuestionBlock)
  {
    content := header;
    var i := 0;
    while i < |questions|
      invariant 0 <= i <= |questions|
      invariant content == header + Listed(questions[..i], QuestionBlock)
    {
      var entry := QuestionBlock(i, questions[i]);
      ListedPrefix(questions, i, QuestionBlock);
      AppendAssoc(header, Listed(questions[..i], QuestionBlock), entry);
      content := content + entry;
      i := i + 1;
    }
    assert questions[..i] == questions;
  }

  // ---------------------------------------------------------------------
  // The section listing of the PDF and Word writers

  function Names(sections: seq<Option<string>>): (r: seq<string>)
    requires forall o :: o in sections ==> o.Some?
    ensures |r| == |sections| && forall k :: 0 <= k < |r| ==> sections[k] == Some(r[k])
  {
    assert forall k :: 0 <= k < |sections| ==> sections[k] in sections;
    seq(|sections|, k requires 0 <= k < |sections| => sections[k].value)
  }

  /** `Array.from(new Set(questions.map(q => q.section))).filter(Boolean)`. */
  function SectionOrder(qs: seq<Question>): seq<string>
  {
    Names(Filter(Distinct(SectionsOf(qs)), Named))
  }

  /** The order lists every nonblank section name once, and nothing else. */
  lemma SectionOrderMembers(qs: seq<Question>)
    ensures NoDups(SectionOrder(qs))
    ensures forall name :: name in SectionOrder(qs) <==> name != "" && Some(name) in SectionsOf(qs)
  {
    var kept := Filter(Distinct(SectionsOf(qs)), Named);
    DistinctFilterCommute(SectionsOf(qs), Named);
    NamesOf(kept);
    forall name ensures Some(name) in kept <==> name != "" && Some(name) in SectionsOf(qs) {
      assert Named(Some(name)) <==> name != "";
    }
  }

  /** The names of present sections: one per section, in order. */
  lemma NamesOf(sections: seq<Option<string>>)
    requires forall o :: o in sections ==> o.Some?
    ensures forall name :: name in Names(sections) <==> Some(name) in sections
    ensures NoDups(sections) ==> NoDups(Names(sections))
  {
    var names := Names(sections);
    forall name ensures name in names <==> Some(name) in sections {
      if Some(name) in sections {
        var k :| 0 <= k < |sections| && sections[k] == Some(name);
        assert names[k] == name;
      }
    }
  }

  /** `questions.filter(q => q.section === section)`. */
  function InSection(name: string): Question -> bool
  {
    (q: Question) => q.section == Some(name)
  }

  datatype Entry = Entry(number: nat, question: Question)
  datatype SectionBlock = SectionBlock(name: string, entries: seq<Entry>)

  function Numbered(qs: seq<Question>): (r: seq<Entry>)
    ensures |r| == |qs| && forall k :: 0 <= k < |r| ==> r[k] == Entry(k + 1, qs[k])
  {
    seq(|qs|, k requires 0 <= k < |qs| => Entry(k + 1, qs[k]))
  }

  /** The sectioned listing: one block per name of the order, holding that
      section's questions in input order, numbered from 1. */
  function SectionedListing(qs: seq<Question>): (r: seq<SectionBlock>)
    ensures |r| == |SectionOrder(qs)|
    ensures forall g :: 0 <= g < |r| ==>
      r[g].name == SectionOrder(qs)[g] && r[g].entries == Numbered(Filter(qs, InSection(SectionOrder(qs)[g])))
  {
    seq(|SectionOrder(qs)|, g requires 0 <= g < |SectionOrder(qs)| =>
      SectionBlock(SectionOrder(qs)[g], Numbered(Filter(qs, InSection(SectionOrder(qs)[g])))))
  }

  /** A question with a nonblank section is listed in exactly one block, the
      one of its section; a question without one is listed in none. */
  lemma SectionedListingPlaces(qs: seq<Question>, q: Question)
    requires q in qs
    ensures Named(q.section) ==>
      exists g :: 0 <= g < |SectionOrder(qs)| && SectionOrder(qs)[g] == q.section.value
        && q in Filter(qs, InSection(SectionOrder(qs)[g]))
        && forall h :: 0 <= h < |SectionOrder(qs)| && q in Filter(qs, InSection(SectionOrder(qs)[h])) ==> h == g
    ensures !Named(q.section) ==>
      forall h :: 0 <= h < |SectionOrder(qs)| ==> q !in Filter(qs, InSection(SectionOrder(qs)[h]))
  {
    var order := SectionOrder(qs);
    SectionOrderMembers(qs);
    if Named(q.section) {
      var k :| 0 <= k < |qs| && qs[k] == q;
      assert SectionsOf(qs)[k] == q.section;
      assert q.section.value in order;
      var g :| 0 <= g < |order| && order[g] == q.section.value;
      assert InSection(order[g])(q);
      forall h | 0 <= h < |order| && q in Filter(qs, InSection(order[h])) ensures h == g {
        assert InSection(order[h])(q);
      }
    } else {
      forall h | 0 <= h < |order| ensures q !in Filter(qs, InSection(order[h])) {
        assert order[h] in order;
      }
    }
  }
}
