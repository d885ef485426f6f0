/** The paper analytics panel: the counts and distributions of
    `calculateAnalytics` and the label formatter of the type bars.  The time
    estimate and the percentages are floating point and are not modelled. */
module Analytics {
  import opened Outcomes
  import opened Text
  import opened Collections
  import opened Types
  import opened Ranking

  datatype PaperAnalytics = PaperAnalytics(
    totalQuestions: nat,
    totalMarks: Option<int>,
    averageMarks: Option<real>,
    easy: nat,
    medium: nat,
    hard: nat,
    typeDistribution: map<string, nat>,
    topicCoverage: seq<Option<string>>)

  function Difficulties(qs: seq<Question>): (r: seq<string>)
    ensures |r| == |qs| && forall k :: 0 <= k < |qs| ==> r[k] == qs[k].difficulty
  {
    seq(|qs|, k requires 0 <= k < |qs| => qs[k].difficulty)
  }

  function QuestionTypes(qs: seq<Question>): (r: seq<string>)
    ensures |r| == |qs| && forall k :: 0 <= k < |qs| ==> r[k] == qs[k].questionType
  {
    seq(|qs|, k requires 0 <= k < |qs| => qs[k].questionType)
  }

  function Topics(qs: seq<Question>): (r: seq<Option<string>>)
    ensures |r| == |qs| && forall k :: 0 <= k < |qs| ==> r[k] == qs[k].topic
  {
    seq(|qs|, k requires 0 <= k < |qs| => qs[k].topic)
  }

  /** `questions.reduce((sum, q) => sum + q.marks, 0)`; a NaN mark makes the
      total NaN. */
  function TotalMarks(qs: seq<Question>): (r: Option<int>)
    ensures r.Some? <==> forall k :: 0 <= k < |qs| ==> qs[k].marks.Some?
  {
    if qs == [] then Some(0)
    else Plus(TotalMarks(qs[..|qs| - 1]), qs[|qs| - 1].marks)
  }

  /** `totalQuestions > 0 ? totalMarks / totalQuestions : 0`. */
  function AverageMarks(totalMarks: Option<int>, n: nat): (r: Option<real>)
    ensures n == 0 ==> r == Some(0.0)
    ensures n > 0 ==> (r.Some? <==> totalMarks.Some?)
    ensures n > 0 && totalMarks.Some? ==> r.value * (n as real) == totalMarks.value as real
  {
    if n > 0 then
      if totalMarks.Some? then Some(totalMarks.value as real / n as real) else None
    else Some(0.0)
  }

  /** The `{easy, medium, hard}` tally, question by question; any other
      difficulty adds a key of its own and leaves the three counts alone. */
  datatype Tally = Tally(easy: nat, medium: nat, hard: nat)

  function DifficultyTally(qs: seq<Question>): Tally
  {
    if qs == [] then Tally(0, 0, 0)
    else Bump(DifficultyTally(qs[..|qs| - 1]), qs[|qs| - 1].difficulty)
  }

  /** `acc[d]++` on the tally. */
  function Bump(t: Tally, d: string): (r: Tally)
    ensures r.easy == t.easy + (if d == "easy" then 1 else 0)
    ensures r.medium == t.medium + (if d == "medium" then 1 else 0)
    ensures r.hard == t.hard + (if d == "hard" then 1 else 0)
  {
    if d == "easy" then t.(easy := t.easy + 1)
    else if d == "medium" then t.(medium := t.medium + 1)
    else if d == "hard" then t.(hard := t.hard + 1)
    else t
  }

  lemma DifficultiesSnoc(qs: seq<Question>)
    requires qs != []
    ensures Difficulties(qs) == Difficulties(qs[..|qs| - 1]) + [qs[|qs| - 1].difficulty]
  {
  }

  predicate KnownLevel(d: string) { d == "easy" || d == "medium" || d == "hard" }

  /** Each count is the number of questions at that level. */
  lemma {:induction false} DifficultyTallyCounts(qs: seq<Question>)
    ensures DifficultyTally(qs).easy == Count(Difficulties(qs), "easy")
    ensures DifficultyTally(qs).medium == Count(Difficulties(qs), "medium")
    ensures DifficultyTally(qs).hard == Count(Difficulties(qs), "hard")
    decreases |qs|
  {
    if qs != [] {
      var init := qs[..|qs| - 1];
      var d := qs[|qs| - 1].difficulty;
      DifficultyTallyCounts(init);
      DifficultiesSnoc(qs);
      CountSnoc(Difficulties(init), d, "easy");
      CountSnoc(Difficulties(init), d, "medium");
      CountSnoc(Difficulties(init), d, "hard");
    }
  }

  /** The three level counts together count exactly the entries at one of
      the three levels. */
  lemma {:induction false} KnownLevelsCounted(levels: seq<string>)
    ensures Count(levels, "easy") + Count(levels, "medium") + Count(levels, "hard")
            == |Filter(levels, KnownLevel)|
    decreases |levels|
  {
    if levels != [] {
      var init := levels[..|levels| - 1];
      var d := levels[|levels| - 1];
      assert levels == init + [d];
      KnownLevelsCounted(init);
      CountSnoc(init, d, "easy");
      CountSnoc(init, d, "medium");
      CountSnoc(init, d, "hard");
      FilterSnoc(init, d, KnownLevel);
    }
  }

  /** The tally's three counts add up to the questions at a known level; a
      question at any other level is in none of them. */
  lemma DifficultyTallyTotal(qs: seq<Question>)
    ensures DifficultyTally(qs).easy + DifficultyTally(qs).medium + DifficultyTally(qs).hard
            == |Filter(Difficulties(qs), KnownLevel)|
  {
    DifficultyTallyCounts(qs);
    KnownLevelsCounted(Difficulties(qs));
  }

  /** The values a map holds for `keys`, added up. */
  function SumValues(keys: seq<string>, m: map<string, nat>): nat
    requires forall k :: k in keys ==> k in m
  {
    if keys == [] then 0 else SumValues(keys[..|keys| - 1], m) + m[keys[|keys| - 1]]
  }

  lemma {:induction false} SumValuesCounts(keys: seq<string>, s: seq<string>)
    requires forall k :: k in keys ==> k in s
    ensures forall k :: k in keys ==> k in Frequencies(s)
    ensures SumValues(keys, Frequencies(s)) == SumCounts(keys, s)
    decreases |keys|
  {
    forall k | k in keys ensures k in Frequencies(s) {
      FrequenciesKeys(s, k);
    }
    if keys != [] {
      var init := keys[..|keys| - 1];
      assert forall k :: k in init ==> k in keys;
      SumValuesCounts(init, s);
      FrequenciesCount(s, keys[|keys| - 1]);
    }
  }

  /** `typeDistribution` (the same `(acc[k] || 0) + 1` fold as the topic
      frequency table): a key for every type present and no other, each
      holding the number of questions of that type, and the counts adding up
      to the number of questions. */
  lemma TypeDistributionCounts(qs: seq<Question>)
    ensures forall t :: t in Frequencies(QuestionTypes(qs)) <==> t in QuestionTypes(qs)
    ensures forall t :: t in Frequencies(QuestionTypes(qs)) ==>
      Frequencies(QuestionTypes(qs))[t] == Count(QuestionTypes(qs), t)
    ensures SumValues(Distinct(QuestionTypes(qs)), Frequencies(QuestionTypes(qs))) == |qs|
  {
    var ts := QuestionTypes(qs);
    forall t ensures t in Frequencies(ts) <==> t in ts {
      FrequenciesKeys(ts, t);
    }
    forall t | t in Frequencies(ts) ensures Frequencies(ts)[t] == Count(ts, t) {
      FrequenciesCount(ts, t);
    }
    SumValuesCounts(Distinct(ts), ts);
    SumCountsDistinct(ts);
  }

  /** `calculateAnalytics` without the time estimate. */
  function CalculateAnalytics(qs: seq<Question>): (a: PaperAnalytics)
    ensures a.totalQuestions == |qs|
    ensures a.totalQuestions == 0 ==> a.averageMarks == Some(0.0)
    ensures NoDups(a.topicCoverage)
    ensures forall k :: 0 <= k < |qs| ==> qs[k].topic in a.topicCoverage
    ensures forall t :: t in a.topicCoverage ==> t in Topics(qs)
    ensures a.easy == Count(Difficulties(qs), "easy") && a.medium == Count(Difficulties(qs), "medium")
    ensures a.hard == Count(Difficulties(qs), "hard")
    ensures a.easy + a.medium + a.hard == |Filter(Difficulties(qs), KnownLevel)|
    ensures forall t :: t in a.typeDistribution <==> t in QuestionTypes(qs)
    ensures forall t :: t in a.typeDistribution ==> a.typeDistribution[t] == Count(QuestionTypes(qs), t)
    ensures SumValues(Distinct(QuestionTypes(qs)), a.typeDistribution) == |qs|
  {
    var total := TotalMarks(qs);
    var tally := DifficultyTally(qs);
    DifficultyTallyCounts(qs);
    DifficultyTallyTotal(qs);
    TypeDistributionCounts(qs);
    PaperAnalytics(|qs|, total, AverageMarks(total, |qs|), tally.easy, tally.medium, tally.hard,
                   Frequencies(QuestionTypes(qs)), Distinct(Topics(qs)))
  }

  // ---------------------------------------------------------------------
  // Type labels

  /** `word.charAt(0).toUpperCase() + word.slice(1)`. */
  function Capitalised(word: string): string
  {
    if word == [] then [] else [UpperChar(word[0])] + word[1..]
  }

  function CapitaliseAll(words: seq<string>): (r: seq<string>)
    ensures |r| == |words| && forall k :: 0 <= k < |r| ==> r[k] == Capitalised(words[k])
  {
    seq(|words|, k requires 0 <= k < |words| => Capitalised(words[k]))
  }

  predicate IsHyphen(c: char) { c == '-' }

  /** `formatLabel`: split on `-`, capitalise every part, join with spaces. */
  function FormatLabel(tag: string): string
  {
    Join(CapitaliseAll(Split(tag, IsHyphen)), " ")
  }

  /** The label character by character: hyphens become spaces and the
      character after a hyphen (or the first one) is upper-cased. */
  function Titled(tag: string, atStart: bool): (r: string)
    ensures |r| == |tag|
  {
    if tag == [] then []
    else
      [if tag[0] == '-' then ' ' else if atStart then UpperChar(tag[0]) else tag[0]]
      + Titled(tag[1..], tag[0] == '-')
  }

  /** Joining a list at its front. */
  lemma {:induction false} JoinFront(a: string, rest: seq<string>, sep: string)
    requires rest != []
    ensures Join([a] + rest, sep) == a + sep + Join(rest, sep)
    decreases |rest|
  {
    var all := [a] + rest;
    if |rest| > 1 {
      var init := rest[..|rest| - 1];
      JoinFront(a, init, sep);
      assert all[..|all| - 1] == [a] + init;
    }
  }

  /** The words after the first, each preceded by a space. */
  function Tail(words: seq<string>): string
    requires words != []
  {
    if |words| == 1 then "" else " " + Join(CapitaliseAll(words[1..]), " ")
  }

  lemma JoinSplit(words: seq<string>)
    requires words != []
    ensures Join(CapitaliseAll(words), " ") == Capitalised(words[0]) + Tail(words)
  {
    var caps := CapitaliseAll(words);
    if |words| > 1 {
      var rest := CapitaliseAll(words[1..]);
      CapitaliseAllTail(words);
      assert caps == [caps[0]] + rest;
      JoinFront(caps[0], rest, " ");
      AppendAssoc3(caps[0], " ", Join(rest, " "));
    }
  }

  lemma CapitaliseAllTail(words: seq<string>)
    requires words != []
    ensures CapitaliseAll(words)[1..] == CapitaliseAll(words[1..])
  {
  }

  /** A leading hyphen opens an empty first word; the spaced rest is the
      title of the remainder. */
  lemma TitledHyphen(tag: string)
    requires tag != [] && tag[0] == '-'
    requires Titled(tag[1..], true) == Capitalised(Split(tag[1..], IsHyphen)[0]) + Tail(Split(tag[1..], IsHyphen))
    ensures Split(tag, IsHyphen)[0] == []
    ensures Titled(tag, true) == Tail(Split(tag, IsHyphen))
    ensures Titled(tag, false) == Tail(Split(tag, IsHyphen))
  {
    var rest := Split(tag[1..], IsHyphen);
    var pieces := Split(tag, IsHyphen);
    assert pieces == [""] + rest;
    assert pieces[1..] == rest;
    JoinSplit(rest);
  }

  /** Any other first character joins the first word. */
  lemma TitledLetter(tag: string)
    requires tag != [] && tag[0] != '-'
    requires Titled(tag[1..], false) == Split(tag[1..], IsHyphen)[0] + Tail(Split(tag[1..], IsHyphen))
    ensures Titled(tag, true) == Capitalised(Split(tag, IsHyphen)[0]) + Tail(Split(tag, IsHyphen))
    ensures Titled(tag, false) == Split(tag, IsHyphen)[0] + Tail(Split(tag, IsHyphen))
  {
    var rest := Split(tag[1..], IsHyphen);
    var pieces := Split(tag, IsHyphen);
    var t := Titled(tag[1..], false);
    assert pieces == [[tag[0]] + rest[0]] + rest[1..];
    TailSame(pieces, rest);
    assert Titled(tag, true) == [UpperChar(tag[0])] + t;
    assert Titled(tag, false) == [tag[0]] + t;
    assert Capitalised(pieces[0]) == [UpperChar(tag[0])] + rest[0];
    AppendAssoc3([UpperChar(tag[0])], rest[0], Tail(rest));
    AppendAssoc3([tag[0]], rest[0], Tail(rest));
  }

  /** Word lists that differ only in their first word have the same tail. */
  lemma TailSame(a: seq<string>, b: seq<string>)
    requires |a| == |b| > 0 && a[1..] == b[1..]
    ensures Tail(a) == Tail(b)
  {
  }

  lemma AppendAssoc3(a: string, b: string, c: string)
    ensures a + (b + c) == (a + b) + c
  {
  }

  lemma {:induction false} TitledSplit(tag: string)
    ensures Titled(tag, true) == Capitalised(Split(tag, IsHyphen)[0]) + Tail(Split(tag, IsHyphen))
    ensures Titled(tag, false) == Split(tag, IsHyphen)[0] + Tail(Split(tag, IsHyphen))
    decreases |tag|
  {
    if tag == [] {
      assert Split(tag, IsHyphen) == [""];
    } else if tag[0] == '-' {
      TitledSplit(tag[1..]);
      TitledHyphen(tag);
    } else {
      TitledSplit(tag[1..]);
      TitledLetter(tag);
    }
  }

  /** `formatLabel` maps `-` to a space, upper-cases the first character
      and every character after a hyphen, keeps the rest and the length. */
  lemma FormatLabelTitled(tag: string)
    ensures FormatLabel(tag) == Titled(tag, true)
    ensures |FormatLabel(tag)| == |tag|
  {
    TitledSplit(tag);
    JoinSplit(Split(tag, IsHyphen));
  }
}
