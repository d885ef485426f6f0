/** Question synthesis in the offline generator: the candidate pool, the
    stem templates and their fallbacks, the options of a multiple-choice
    question and the record that `createMeaningfulQuestion` returns.

    Every `sort(() => Math.random() - 0.5)` is an arbitrary reordering chosen
    by a `Shuffler`: the caller names, for each place the generator shuffles,
    the order it wants.  An answer that is not a rearrangement of the input
    is ignored, so the properties below hold for every rearrangement. */
module Synthesis {
  import opened Outcomes
  import opened Text
  import opened Collections
  import opened Types
  import opened Extraction

  // ---------------------------------------------------------------------
  // Shuffles

  /** The places the generator shuffles a pool: the scheduler's content for
      a section (flat mode uses section 0), and for the n-th call of
      `createMeaningfulQuestion` the stem pool, the options pool and the
      topic pool. */
  datatype ShuffleSite =
    | ContentOrder(section: nat)
    | StemOrder(call: nat)
    | OptionOrder(call: nat)
    | TopicOrder(call: nat)

  type Shuffler = ShuffleSite -> seq<string>

  /** The pool in the order the shuffler picks for `site`. */
  function Shuffled(s: seq<string>, site: ShuffleSite, sh: Shuffler): (r: seq<string>)
    ensures multiset(r) == multiset(s)
  {
    if multiset(sh(site)) == multiset(s) then sh(site) else s
  }

  /** A shuffle keeps the length and the members of the pool. */
  lemma ShuffledMembers(s: seq<string>, site: ShuffleSite, sh: Shuffler)
    ensures |Shuffled(s, site, sh)| == |s|
    ensures forall x :: x in Shuffled(s, site, sh) <==> x in s
  {
    var r := Shuffled(s, site, sh);
    assert |multiset(r)| == |multiset(s)|;
    forall x ensures x in r <==> x in s {
      assert x in r <==> x in multiset(r);
      assert x in s <==> x in multiset(s);
    }
  }

  // ---------------------------------------------------------------------
  // The candidate pool

  /** `item && item.length > 3`. */
  predicate Usable(item: string) { |item| > 3 }

  /** All eight pools, one after another. */
  function Concatenated(p: Pools): seq<string>
  {
    p.topics + p.concepts + p.skills + p.technologies + p.keyPoints + p.names + p.places + p.definitions
  }

  /** The items of every pool longer than three characters, pool by pool. */
  function CandidatePool(p: Pools): seq<string>
  {
    Filter(Concatenated(p), Usable)
  }

  lemma CandidatePoolMembers(p: Pools)
    ensures forall x :: x in CandidatePool(p) <==> x in Concatenated(p) && |x| > 3
  {
  }

  /** `{ ...extractedContent, topics: [content] }`; an `undefined` content is
      dropped by the pool filter, so it is modelled by an empty topic list. */
  function WithTopic(p: Pools, content: Option<string>): (r: Pools)
    ensures content.Some? ==> r.topics == [content.value]
    ensures content.None? ==> r.topics == []
    ensures r.concepts == p.concepts && r.skills == p.skills && r.technologies == p.technologies
    ensures r.keyPoints == p.keyPoints && r.names == p.names && r.places == p.places
    ensures r.definitions == p.definitions
  {
    p.(topics := if content.Some? then [content.value] else [])
  }

  /** A pool whose topic list is one usable item starts with that item. */
  lemma WithTopicPool(p: Pools, c: string)
    requires Usable(c)
    ensures CandidatePool(WithTopic(p, Some(c))) != []
    ensures CandidatePool(WithTopic(p, Some(c)))[0] == c
  {
    var q := WithTopic(p, Some(c));
    var rest := q.concepts + q.skills + q.technologies + q.keyPoints + q.names + q.places + q.definitions;
    assert Concatenated(q) == [c] + rest;
    FilterAppend([c], rest, Usable);
    assert Filter([c], Usable) == [c] by {
      FilterSnoc([], c, Usable);
    }
  }

  // ---------------------------------------------------------------------
  // Templates

  const MultipleChoice: string := "multiple-choice"
  const ShortAnswer: string := "short-answer"

  /** A template literal `before${selectedContent}after`. */
  datatype Template = Template(before: string, after: string)

  function Fill(t: Template, content: string): string
  {
    t.before + content + t.after
  }

  const MultipleChoiceEasy: seq<Template> := [
    Template("What is ", "?"),
    Template("Which of the following best describes ", "?"),
    Template("", " is primarily used for:"),
    Template("The main purpose of ", " is to:"),
    Template("In the context of the syllabus, ", " refers to:"),
    Template("Which statement about ", " is correct?"),
    Template("Select the best definition of ", "."),
    Template("Which of these is most related to ", "?")]

  const MultipleChoiceMedium: seq<Template> := [
    Template("How does ", " contribute to the overall understanding of the subject?"),
    Template("What are the key applications of ", " in practice?"),
    Template("Which principle best explains the functionality of ", "?"),
    Template("What distinguishes ", " from similar concepts?"),
    Template("In what scenarios would you apply ", "?"),
    Template("Why is ", " important in this context?"),
    Template("What is a real-world example of ", "?")]

  /** The hard tier; both question types list these same seven templates. */
  const HardTemplates: seq<Template> := [
    Template("Analyze the relationship between ", " and other key concepts in the syllabus."),
    Template("What are the critical challenges associated with implementing ", "?"),
    Template("How would you evaluate the effectiveness of ", " in advanced applications?"),
    Template("What are the theoretical foundations underlying ", "?"),
    Template("Under what conditions would ", " be most beneficial?"),
    Template("Discuss the limitations of ", "."),
    Template("How could ", " be improved or extended?")]

  const ShortAnswerEasy: seq<Template> := [
    Template("Define ", " and explain its basic purpose."),
    Template("List three key characteristics of ", "."),
    Template("Explain the importance of ", " in the given context."),
    Template("Describe the main features of ", "."),
    Template("What role does ", " play in the subject matter?"),
    Template("Summarize the main idea of ", "."),
    Template("What is the function of ", "?")]

  const ShortAnswerMedium: seq<Template> := [
    Template("Explain how ", " is applied in real-world scenarios."),
    Template("Discuss the advantages and limitations of ", "."),
    Template("Compare ", " with related concepts from the syllabus."),
    Template("Analyze the significance of ", " in modern applications."),
    Template("Evaluate the impact of ", " on current practices."),
    Template("How does ", " differ from similar ideas?"),
    Template("What are the consequences of ", "?")]

  predicate TemplatedType(t: string) { t == MultipleChoice || t == ShortAnswer }

  predicate KnownDifficulty(d: string) { d == "easy" || d == "medium" || d == "hard" }

  /** `templates[type][difficulty]`; `None` when either lookup misses. */
  function Tier(t: string, d: string): (r: Option<seq<Template>>)
    ensures r.Some? <==> TemplatedType(t) && KnownDifficulty(d)
    ensures r.Some? ==> |r.value| >= 7
  {
    if t == MultipleChoice then
      if d == "easy" then Some(MultipleChoiceEasy)
      else if d == "medium" then Some(MultipleChoiceMedium)
      else if d == "hard" then Some(HardTemplates)
      else None
    else if t == ShortAnswer then
      if d == "easy" then Some(ShortAnswerEasy)
      else if d == "medium" then Some(ShortAnswerMedium)
      else if d == "hard" then Some(HardTemplates)
      else None
    else None
  }

  /** The first entry of each fallback tier; `getFallbackQuestion` only ever
      reads entry 0. */
  function FallbackFirst(t: string, d: string): string
  {
    if t == MultipleChoice then
      if d == "easy" then "What is a concept?"
      else if d == "medium" then "How does a concept contribute to the overall understanding?"
      else "Analyze the relationship between a concept and other key concepts."
    else
      if d == "easy" then "Define a concept and explain its basic purpose."
      else if d == "medium" then "Explain how a concept is applied in real-world scenarios."
      else "Analyze the relationship between a concept and other key concepts."
  }

  function TypeNotFound(t: string): string
  {
    "Question type \"" + t + "\" not found."
  }

  function DifficultyNotFound(t: string, d: string): string
  {
    "Difficulty level \"" + d + "\" not found for question type \"" + t + "\"."
  }

  /** `getFallbackQuestion`: the type is looked up first, then the difficulty. */
  function FallbackQuestion(t: string, d: string): string
  {
    if !TemplatedType(t) then TypeNotFound(t)
    else if !KnownDifficulty(d) then DifficultyNotFound(t, d)
    else FallbackFirst(t, d)
  }

  /** The three outcomes of the fallback lookup. */
  lemma FallbackQuestionCases(t: string, d: string)
    ensures !TemplatedType(t) ==> FallbackQuestion(t, d) == "Question type \"" + t + "\" not found."
    ensures TemplatedType(t) && !KnownDifficulty(d) ==>
      FallbackQuestion(t, d) == "Difficulty level \"" + d + "\" not found for question type \"" + t + "\"."
    ensures TemplatedType(t) && KnownDifficulty(d) ==> FallbackQuestion(t, d) == FallbackFirst(t, d)
  {
  }

  /** The text `${selectedContent}` that the stem is passed through
      `replace` with; it only occurs when the content itself holds it. */
  const Marker: string := "${selectedContent}"

  /** `generateMeaningfulQuestionText`: the pool is reshuffled, an empty pool
      falls back, otherwise the content at `n mod |pool|` fills the template
      at `n mod |tier|`. */
  function QuestionText(t: string, d: string, p: Pools, n: nat, call: nat, sh: Shuffler): string
  {
    var pool := Shuffled(CandidatePool(p), StemOrder(call), sh);
    if |pool| == 0 then FallbackQuestion(t, d)
    else
      var content := pool[n % |pool|];
      match Tier(t, d)
      case None => FallbackQuestion(t, d)
      case Some(tier) => ReplaceFirst(Fill(tier[n % |tier|], content), Marker, content)
  }

  /** Long-answer and true-false questions (any type without templates) get
      the not-found text, whatever the pool, the number and the shuffles. */
  lemma UntemplatedTypeText(t: string, d: string, p: Pools, n: nat, call: nat, sh: Shuffler)
    requires !TemplatedType(t)
    ensures QuestionText(t, d, p, n, call, sh) == "Question type \"" + t + "\" not found."
  {
  }

  /** An empty pool gives the fallback text of the tier. */
  lemma EmptyPoolText(t: string, d: string, p: Pools, n: nat, call: nat, sh: Shuffler)
    requires CandidatePool(p) == []
    ensures QuestionText(t, d, p, n, call, sh) == FallbackQuestion(t, d)
  {
    ShuffledMembers(CandidatePool(p), StemOrder(call), sh);
  }

  /** With a nonempty pool and a known tier, the stem is the template at
      `n mod |tier|` filled with a member of the pool, passed through
      `replace`, which changes nothing unless the filled text holds the
      marker. */
  lemma TemplateText(t: string, d: string, p: Pools, n: nat, call: nat, sh: Shuffler)
    requires CandidatePool(p) != [] && Tier(t, d).Some?
    ensures exists c :: (c in CandidatePool(p)
      && QuestionText(t, d, p, n, call, sh)
         == ReplaceFirst(Fill(Tier(t, d).value[n % |Tier(t, d).value|], c), Marker, c)
      && (!Contains(Fill(Tier(t, d).value[n % |Tier(t, d).value|], c), Marker) ==>
            QuestionText(t, d, p, n, call, sh) == Fill(Tier(t, d).value[n % |Tier(t, d).value|], c)))
  {
    var pool := Shuffled(CandidatePool(p), StemOrder(call), sh);
    ShuffledMembers(CandidatePool(p), StemOrder(call), sh);
    var c := pool[n % |pool|];
    var tier := Tier(t, d).value;
    var s := Fill(tier[n % |tier|], c);
    if !Contains(s, Marker) {
      ReplaceFirstAbsent(s, Marker, c);
    }
    assert c in CandidatePool(p);
  }

  // ---------------------------------------------------------------------
  // Options, topic and the question record

  /** `generateMeaningfulOptions`: the first four items of a reshuffled pool. */
  function Options(p: Pools, call: nat, sh: Shuffler): (r: seq<string>)
    ensures |r| == if |CandidatePool(p)| < 4 then |CandidatePool(p)| else 4
    ensures forall x :: x in r ==> x in CandidatePool(p) && |x| > 3
  {
    var pool := Shuffled(CandidatePool(p), OptionOrder(call), sh);
    ShuffledMembers(CandidatePool(p), OptionOrder(call), sh);
    Cap(pool, 4)
  }

  /** `selectRelevantTopic`: the first item of a reshuffled pool, `undefined`
      (`None`) when the pool is empty. */
  function RelevantTopic(p: Pools, call: nat, sh: Shuffler): (r: Option<string>)
    ensures r.None? <==> CandidatePool(p) == []
    ensures r.Some? ==> r.value in CandidatePool(p)
  {
    var pool := Shuffled(CandidatePool(p), TopicOrder(call), sh);
    ShuffledMembers(CandidatePool(p), TopicOrder(call), sh);
    if |pool| > 0 then Some(pool[0]) else None
  }

  function QuestionId(n: nat): string
  {
    "q_" + NatToString(n)
  }

  /** `createMeaningfulQuestion` for question number `n`, the `call`-th call. */
  function ComposeQuestion(t: string, d: string, marks: Option<int>, p: Pools,
                           section: Option<string>, n: nat, call: nat, sh: Shuffler): Question
  {
    var text := QuestionText(t, d, p, n, call, sh);
    var topic := RelevantTopic(p, call, sh);
    var sec := if section.Some? && section.value != "" then section else None;
    if t == MultipleChoice then
      var options := Options(p, call, sh);
      Question(QuestionId(n), t, text, Some(options), if options != [] then Some(options[0]) else None,
               marks, d, topic, sec)
    else
      Question(QuestionId(n), t, text, None, None, marks, d, topic, sec)
  }

  /** The shape of a composed question: its id, fields taken from the
      arguments, a section only when the name is nonempty, and options with
      the first one as answer exactly for multiple choice. */
  lemma ComposeQuestionShape(t: string, d: string, marks: Option<int>, p: Pools,
                             section: Option<string>, n: nat, call: nat, sh: Shuffler)
    ensures var q := ComposeQuestion(t, d, marks, p, section, n, call, sh);
      q.id == "q_" + NatToString(n) && q.questionType == t && q.difficulty == d && q.marks == marks
      && q.question == QuestionText(t, d, p, n, call, sh)
      && (q.section.Some? <==> section.Some? && section.value != "")
      && (q.section.Some? ==> q.section == section)
      && (q.topic.Some? ==> q.topic.value in CandidatePool(p))
      && (q.options.Some? <==> t == MultipleChoice)
      && (q.options.Some? ==>
            |q.options.value| == (if |CandidatePool(p)| < 4 then |CandidatePool(p)| else 4)
            && (forall x :: x in q.options.value ==> x in CandidatePool(p))
            && (q.correctAnswer.Some? <==> q.options.value != [])
            && (q.correctAnswer.Some? ==> q.correctAnswer.value == q.options.value[0]))
      && (q.options.None? ==> q.correctAnswer.None?)
  {
  }

  /** Question ids are distinct for distinct numbers. */
  lemma QuestionIdInjective(m: nat, n: nat)
    requires QuestionId(m) == QuestionId(n)
    ensures m == n
  {
    assert QuestionId(m)[2..] == NatToString(m);
    assert QuestionId(n)[2..] == NatToString(n);
    NatToStringInjective(m, n);
  }
}
