/** The records the question-paper generator passes around: questions,
    sections and the generation settings.  A JavaScript `number` is modelled
    as an `Option<int>` in which `None` stands for NaN; fractional numbers are
    not modelled. */
module Types {
  import opened Outcomes
  import opened Text

  /** A settings field typed `number | string`: a number, or the raw text of
      an input box (the application starts `totalQuestions` as `''`). */
  datatype Value = Num(n: int) | Str(s: string)

  /** One generated question.  `marks` is `None` when it is NaN, and the
      optional fields of the record are `None` when absent (`undefined`). */
  datatype Question = Question(
    id: string,
    questionType: string,
    question: string,
    options: Option<seq<string>>,
    correctAnswer: Option<string>,
    marks: Option<int>,
    difficulty: string,
    topic: Option<string>,
    section: Option<string>)

  /** One section of a sectioned paper. */
  datatype Section = Section(
    id: string,
    name: string,
    questionTypes: seq<string>,
    marks: Value,
    questionCount: int,
    difficulty: seq<string>)

  /** The generation settings chosen in the configuration panel. */
  datatype GenerationConfig = GenerationConfig(
    questionTypes: seq<string>,
    difficulty: seq<string>,
    marksDistribution: seq<Value>,
    totalQuestions: Value,
    totalMarks: Value,
    duration: Value,
    subject: string,
    sections: seq<Section>)

  /** `Number(v)`; `None` is NaN. */
  function NumberOf(v: Value): (r: Option<int>)
    ensures v.Num? ==> r == Some(v.n)
    ensures v.Str? && AllSpace(v.s) ==> r == Some(0)
  {
    match v
    case Num(n) => Some(n)
    case Str(s) => ToNumber(s)
  }

  /** JavaScript truthiness of a `number | string` value: `0` and `''` are falsy. */
  predicate Truthy(v: Value)
  {
    match v
    case Num(n) => n != 0
    case Str(s) => s != ""
  }

  /** `a <= 0` on numbers, where a comparison with NaN is false. */
  predicate AtMostZero(a: Option<int>)
  {
    a.Some? && a.value <= 0
  }

  /** `a * b` on numbers, NaN absorbing. */
  function Times(a: Option<int>, b: int): (r: Option<int>)
    ensures r.Some? <==> a.Some?
  {
    if a.Some? then Some(a.value * b) else None
  }

  /** `a + b` on numbers, NaN absorbing. */
  function Plus(a: Option<int>, b: Option<int>): (r: Option<int>)
    ensures r.Some? <==> a.Some? && b.Some?
  {
    if a.Some? && b.Some? then Some(a.value + b.value) else None
  }

  /** `q.section` is truthy. */
  predicate Named(section: Option<string>)
  {
    section.Some? && section.value != ""
  }

  function SectionsOf(qs: seq<Question>): (r: seq<Option<string>>)
    ensures |r| == |qs| && forall k :: 0 <= k < |qs| ==> r[k] == qs[k].section
  {
    seq(|qs|, k requires 0 <= k < |qs| => qs[k].section)
  }

  /** `questions.some(q => q.section)`. */
  predicate HasSections(qs: seq<Question>)
  {
    exists k :: 0 <= k < |qs| && Named(qs[k].section)
  }

  /** `String(n)` (and `${n}`) for a number, NaN included. */
  function NumberText(m: Option<int>): string
  {
    if m.Some? then IntToString(m.value) else "NaN"
  }

  /** `String(v)` (and `${v}`) for a `number | string` setting. */
  function ValueText(v: Value): string
  {
    match v
    case Num(n) => IntToString(n)
    case Str(s) => s
  }

  /** `${v}` for a value that is a number, a text or NaN (`None`). */
  function Interpolated(v: Option<Value>): string
  {
    if v.Some? then ValueText(v.value) else NumberText(None)
  }

  /** `Number(String(n))` gives back `n`, NaN included. */
  lemma NumberTextRoundTrip(m: Option<int>)
    ensures NumberOf(Str(NumberText(m))) == m
  {
    if m.Some? {
      IntToStringNumber(m.value);
    } else {
      NaNText();
    }
  }
}
