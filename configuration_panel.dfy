/** The settings panel of a whole paper: each control builds a new
    configuration from the old one, changing one field only. */
module ConfigurationPanel {
  import opened Outcomes
  import opened Collections
  import opened Types
  import opened NumberInput
  import opened Text
  import opened Scheduler

  /** The marks options offered as checkboxes. */
  const MarksOptions: seq<int> := [2, 4, 5, 6, 7, 8, 10, 12, 15, 16]

  /** Checking a question type appends it; unchecking removes every copy. */
  function ToggleQuestionType(c: GenerationConfig, t: string, checked: bool): (r: GenerationConfig)
    ensures checked ==> r.questionTypes == c.questionTypes + [t]
    ensures !checked ==> t !in r.questionTypes
    ensures forall u :: u != t ==> Count(r.questionTypes, u) == Count(c.questionTypes, u)
    ensures r == c.(questionTypes := r.questionTypes)
  {
    c.(questionTypes := Toggled(c.questionTypes, t, checked))
  }

  /** The difficulty checkboxes behave the same way on `difficulty`. */
  function ToggleDifficulty(c: GenerationConfig, level: string, checked: bool): (r: GenerationConfig)
    ensures checked ==> r.difficulty == c.difficulty + [level]
    ensures !checked ==> level !in r.difficulty
    ensures forall u :: u != level ==> Count(r.difficulty, u) == Count(c.difficulty, u)
    ensures r == c.(difficulty := r.difficulty)
  {
    c.(difficulty := Toggled(c.difficulty, level, checked))
  }

  /** A marks checkbox appends or removes the number `m`; a stored string
      such as "4" is not the number 4 and survives unchecking 4. */
  function ToggleMarks(c: GenerationConfig, m: int, checked: bool): (r: GenerationConfig)
    ensures checked ==> r.marksDistribution == c.marksDistribution + [Num(m)]
    ensures !checked ==> Num(m) !in r.marksDistribution
    ensures forall v :: v != Num(m) ==> Count(r.marksDistribution, v) == Count(c.marksDistribution, v)
    ensures r == c.(marksDistribution := r.marksDistribution)
  {
    c.(marksDistribution := Toggled(c.marksDistribution, Num(m), checked))
  }

  /** The subject box stores the text as typed. */
  function SetSubject(c: GenerationConfig, text: string): (r: GenerationConfig)
    ensures r.subject == text && r == c.(subject := text)
  {
    c.(subject := text)
  }

  /** The total-questions box stores the number read from the typed text. */
  function SetTotalQuestions(c: GenerationConfig, text: string): (r: GenerationConfig)
    ensures r == c.(totalQuestions := Num(Typed(text)))
  {
    c.(totalQuestions := Num(Typed(text)))
  }

  /** The total-marks box: the same reading of the text, into `totalMarks`. */
  function SetTotalMarks(c: GenerationConfig, text: string): (r: GenerationConfig)
    ensures r == c.(totalMarks := Num(Typed(text)))
  {
    c.(totalMarks := Num(Typed(text)))
  }

  /** The duration box: the same reading of the text, into `duration`. */
  function SetDuration(c: GenerationConfig, text: string): (r: GenerationConfig)
    ensures r == c.(duration := Num(Typed(text)))
  {
    c.(duration := Num(Typed(text)))
  }

  /** Each number box stores what `parseInt` reads from the typed text, or 0
      when it reads nothing: the leading zeros it strips first ("007",
      "000") never change the number stored. */
  lemma NumberBoxesParse(c: GenerationConfig, text: string)
    requires NumberInputText(text)
    ensures SetTotalQuestions(c, text).totalQuestions == Num(OrZero(ParseInt(text)))
    ensures SetTotalMarks(c, text).totalMarks == Num(OrZero(ParseInt(text)))
    ensures SetDuration(c, text).duration == Num(OrZero(ParseInt(text)))
    ensures ParseInt(text).None? ==> SetTotalQuestions(c, text).totalQuestions == Num(0)
  {
    TypedIgnoresLeadingZeros(text);
  }

  /** A checkbox is shown ticked exactly when the value is present, so it
      only offers to check an absent value; checking and then unchecking it
      gives back the configuration it started from. */
  lemma ToggleTypeRoundTrip(c: GenerationConfig, t: string)
    requires t !in c.questionTypes
    ensures ToggleQuestionType(ToggleQuestionType(c, t, true), t, false) == c
  {
    Collections.ToggleRoundTrip(c.questionTypes, t);
  }

  lemma ToggleDifficultyRoundTrip(c: GenerationConfig, level: string)
    requires level !in c.difficulty
    ensures ToggleDifficulty(ToggleDifficulty(c, level, true), level, false) == c
  {
    Collections.ToggleRoundTrip(c.difficulty, level);
  }

  lemma ToggleMarksRoundTrip(c: GenerationConfig, m: int)
    requires Num(m) !in c.marksDistribution
    ensures ToggleMarks(ToggleMarks(c, m, true), m, false) == c
  {
    Collections.ToggleRoundTrip(c.marksDistribution, Num(m));
  }

  /** Retyping the number a box shows leaves the stored number as it was;
      an empty stored value is shown as 0 and stores 0 when retyped. */
  lemma NumberBoxesRoundTrip(c: GenerationConfig, n: int)
    ensures SetTotalQuestions(c, Shown(Num(n))).totalQuestions == Num(n)
    ensures SetTotalMarks(c, Shown(Num(n))).totalMarks == Num(n)
    ensures SetDuration(c, Shown(Num(n))).duration == Num(n)
    ensures c.totalQuestions == Str("") ==> SetTotalQuestions(c, Shown(c.totalQuestions)).totalQuestions == Num(0)
  {
    ShownTypedRoundTrip(n);
    ShownTypedRoundTrip(0);
  }

  /** Unchecking the only selected question type of an unsectioned paper
      makes generation refuse with the question-type message. */
  lemma UncheckLastType(c: GenerationConfig, t: string)
    requires c.sections == [] && forall u :: u in c.questionTypes ==> u == t
    ensures ValidateConfig(ToggleQuestionType(c, t, false)) == Some(TypesMessage)
  {
    RemoveAllOnly(c.questionTypes, t);
  }
}
