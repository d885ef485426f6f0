/** The remote generator: up to three attempts at asking the hosted model,
    the friendlier texts for its well-known failures, and the reading of
    its reply into questions. The network call and `JSON.parse` are
    parameters. */
module Gemini {
  import opened Outcomes
  import opened Text
  import opened Collections
  import opened Types
  import SectionConfiguration

  const MaxRetries: nat := 3

  const InvalidKeyMessage: string := "Invalid API key. Please check your Gemini API key."
  const QuotaMessage: string := "API quota exceeded. Please check your Gemini API usage limits."
  const PermissionMessage: string := "Permission denied. Please ensure your API key has the required permissions."
  const ParseFailedMessage: string := "Failed to parse generated questions. Please try again."
  const NoQuestionsMessage: string := "No valid questions were generated. Please try again."

  /** The question text a record receives when it has none. */
  const Placeholder: string := "Question not provided"

  // ---------------------------------------------------------------------
  // Errors

  /** The text finally shown for a failure, keyed on what the message
      contains and checked in this order; any other message is kept. */
  function MapError(message: string): (r: string)
    ensures Contains(message, "API_KEY_INVALID") ==> r == InvalidKeyMessage
    ensures !Contains(message, "API_KEY_INVALID") && Contains(message, "QUOTA_EXCEEDED") ==> r == QuotaMessage
    ensures !Contains(message, "API_KEY_INVALID") && !Contains(message, "QUOTA_EXCEEDED") ==>
      (Contains(message, "PERMISSION_DENIED") ==> r == PermissionMessage) &&
      (!Contains(message, "PERMISSION_DENIED") ==> r == message)
  {
    if Contains(message, "API_KEY_INVALID") then InvalidKeyMessage
    else if Contains(message, "QUOTA_EXCEEDED") then QuotaMessage
    else if Contains(message, "PERMISSION_DENIED") then PermissionMessage
    else message
  }

  /** A code anywhere in a longer message is recognised, and the earlier
      code wins when a message carries two. */
  lemma MapErrorEmbedded(before: string, after: string)
    ensures MapError(before + "API_KEY_INVALID" + after) == InvalidKeyMessage
    ensures MapError(before + "QUOTA_EXCEEDED" + after + "PERMISSION_DENIED") != PermissionMessage
  {
    ContainsMiddle(before, "API_KEY_INVALID", after);
    ContainsMiddle(before, "QUOTA_EXCEEDED", after + "PERMISSION_DENIED");
    assert before + "QUOTA_EXCEEDED" + after + "PERMISSION_DENIED"
      == before + "QUOTA_EXCEEDED" + (after + "PERMISSION_DENIED");
  }

  // ---------------------------------------------------------------------
  // Cleaning the reply

  /** The first position holding `c`. */
  function FirstIndex(s: string, c: char): (r: Option<nat>)
    ensures r.Some? ==> r.value < |s| && s[r.value] == c && c !in s[..r.value]
    ensures r.None? <==> c !in s
  {
    if s == [] then None
    else if s[0] == c then Some(0)
    else
      var rest := FirstIndex(s[1..], c);
      assert s == [s[0]] + s[1..];
      if rest.Some? then
        assert s[..rest.value + 1] == [s[0]] + s[1..][..rest.value];
        Some(rest.value + 1)
      else None
  }

  /** The last position holding `c`. */
  function LastIndex(s: string, c: char): (r: Option<nat>)
    ensures r.Some? ==> r.value < |s| && s[r.value] == c && c !in s[r.value + 1..]
    ensures r.None? <==> c !in s
  {
    if s == [] then None
    else if s[|s| - 1] == c then Some(|s| - 1)
    else
      var init := s[..|s| - 1];
      assert s == init + [s[|s| - 1]];
      var rest := LastIndex(init, c);
      if rest.Some? then
        assert s[rest.value + 1..] == init[rest.value + 1..] + [s[|s| - 1]];
        rest
      else None
  }

  /** A global replace of `fence` and the white space after it. */
  function RemoveFences(s: string, fence: string): (r: string)
    decreases |s|
  {
    if s == [] then []
    else if fence != [] && StartsWith(s, fence) then RemoveFences(TrimStart(s[|fence|..]), fence)
    else [s[0]] + RemoveFences(s[1..], fence)
  }

  /** Text that cannot begin a fence passes through unchanged. */
  lemma {:induction false} RemoveFencesFront(a: string, b: string, fence: string)
    requires fence != [] && fence[0] !in a
    ensures RemoveFences(a + b, fence) == a + RemoveFences(b, fence)
    decreases |a|
  {
    if a != [] {
      HeadTail(a, b);
      KeptHead(a + b, fence);
      RemoveFencesFront(a[1..], b, fence);
      HeadTail(a, RemoveFences(b, fence));
    } else {
      assert a + b == b;
    }
  }

  /** A text whose first character cannot begin the fence keeps that character. */
  lemma KeptHead(s: string, fence: string)
    requires s != [] && fence != [] && s[0] != fence[0]
    ensures RemoveFences(s, fence) == [s[0]] + RemoveFences(s[1..], fence)
  {
    assert !StartsWith(s, fence) by {
      if |fence| <= |s| { assert s[..|fence|][0] == s[0]; }
    }
  }

  /** The span from the first `[ to the last `]`, when the first comes
      before the last: what the greedy match of a bracketed array finds. */
  function ArraySpan(s: string): (r: Option<string>)
    ensures r.Some? ==> |r.value| >= 2 && r.value[0] == '[' && r.value[|r.value| - 1] == ']'
    ensures r.None? <==> ('[' !in s || ']' !in s || LastIndex(s, ']').value < FirstIndex(s, '[').value)
  {
    var i := FirstIndex(s, '[');
    var j := LastIndex(s, ']');
    if i.Some? && j.Some? && i.value < j.value then Some(s[i.value..j.value + 1]) else None
  }

  /** The reply trimmed, with its json and plain code fences removed. */
  function Unfenced(text: string): string
  {
    RemoveFences(RemoveFences(Trim(text), "```json"), "```")
  }

  /** The array span of an unfenced reply; an error when there is none. */
  function SpanOrError(unfenced: string): (r: Result<string>)
    ensures r.Ok? ==> |r.value| >= 2 && r.value[0] == '[' && r.value[|r.value| - 1] == ']'
    ensures r.Err? <==> ArraySpan(unfenced).None?
  {
    var span := ArraySpan(unfenced);
    if span.Some? then Ok(span.value) else Err("Invalid response format from AI")
  }

  /** The reply trimmed and unfenced, then its array span. */
  function Clean(text: string): Result<string>
  {
    SpanOrError(Unfenced(text))
  }

  /** The opening fence and the line break after it go. */
  lemma DropJsonFence(body: string)
    requires body != [] && !IsSpace(body[0])
    ensures RemoveFences("```json\n" + body, "```json") == RemoveFences(body, "```json")
  {
    var text := "```json\n" + body;
    assert StartsWith(text, "```json");
    var tail := text[7..];
    assert tail == "\n" + body;
    assert tail[1..] == body;
    assert TrimStart(tail) == body;
  }

  /** A closing fence is not an opening json fence: it stays. */
  lemma ClosingFenceKept(body: string)
    requires '`' !in body
    ensures RemoveFences(body + "\n```", "```json") == body + "\n```"
  {
    RemoveFencesFront(body + "\n", "```", "```json");
    assert body + "\n```" == (body + "\n") + "```";
    BareFenceKept();
  }

  /** A bare closing fence is too short to be a json fence. */
  lemma BareFenceKept()
    ensures RemoveFences("```", "```json") == "```"
  {
    assert !StartsWith("```", "```json");
    assert "```"[1..] == "``" && "``"[1..] == "`";
  }

  /** The closing fence goes, leaving the line break before it. */
  lemma ClosingFenceGone(body: string)
    requires '`' !in body
    ensures RemoveFences(body + "\n```", "```") == body + "\n"
  {
    RemoveFencesFront(body + "\n", "```", "```");
    assert body + "\n```" == (body + "\n") + "```";
    assert StartsWith("```", "```");
    assert "```"[3..] == [];
    assert RemoveFences("```", "```") == [];
  }

  /** A bracketed text followed by a line break spans itself. */
  lemma SpanOfArray(inner: string)
    ensures ArraySpan("[" + inner + "]\n") == Some("[" + inner + "]")
  {
    var body := "[" + inner + "]";
    var s := "[" + inner + "]\n";
    assert s == body + "\n";
    assert FirstIndex(s, '[') == Some(0);
    assert s[..|s| - 1] == body;
    assert LastIndex(body, ']') == Some(|body| - 1);
    assert LastIndex(s, ']') == Some(|body| - 1);
    assert s[0..|body|] == body;
  }

  /** A reply that starts and ends with a fence has nothing to trim. */
  lemma TrimFenced(text: string)
    requires text != [] && text[0] == '`' && text[|text| - 1] == '`'
    ensures Trim(text) == text
  {
    VisibleNotSpace(text[0]);
    VisibleNotSpace(text[|text| - 1]);
    assert Unpadded(text);
  }

  /** Both fences of a fenced reply go, leaving the line break before the
      closing one. */
  lemma Unfence(body: string)
    requires body != [] && body[0] == '[' && '`' !in body
    ensures RemoveFences(RemoveFences("```json\n" + (body + "\n```"), "```json"), "```") == body + "\n"
  {
    var rest := body + "\n```";
    assert rest[0] == '[';
    DropJsonFence(rest);
    ClosingFenceKept(body);
    ClosingFenceGone(body);
  }

  /** A reply wrapped in a json code fence gives back the array inside. */
  lemma FencedArray(inner: string)
    requires '`' !in inner
    ensures Clean("```json\n[" + inner + "]\n```") == Ok("[" + inner + "]")
  {
    var body := "[" + inner + "]";
    var text := "```json\n" + (body + "\n```");
    assert "```json\n[" + inner + "]\n```" == text;
    UnfencedReply(body);
    assert body + "\n" == "[" + inner + "]\n";
    SpanOfArray(inner);
  }

  /** Trimming and unfencing a fenced reply leaves its body and a line break. */
  lemma UnfencedReply(body: string)
    requires body != [] && body[0] == '[' && '`' !in body
    ensures Unfenced("```json\n" + (body + "\n```")) == body + "\n"
  {
    var text := "```json\n" + (body + "\n```");
    TrimFenced(text);
    Unfence(body);
  }

  // ---------------------------------------------------------------------
  // Normalising the records

  /** One element of the parsed array as far as the reader looks at it;
      `None` fields are missing, `null` or not strings. */
  datatype Record = Record(
    id: Option<string>,
    questionType: Option<string>,
    question: Option<string>,
    options: Option<seq<string>>,
    correctAnswer: Option<string>,
    marks: Option<Value>,
    difficulty: Option<string>,
    topic: Option<string>,
    section: Option<string>)

  /** `field || fallback` on a text field. */
  function OrElse(field: Option<string>, fallback: string): (r: string)
    ensures Named(field) ==> r == field.value
    ensures !Named(field) ==> r == fallback
  {
    if Named(field) then field.value else fallback
  }

  /** The id given to the record at `index` when it has none. */
  function DefaultId(index: nat): (r: string)
    ensures StartsWith(r, "q_")
  {
    "q_" + NatToString(index + 1)
  }

  /** Records without ids never share a default one. */
  lemma DefaultIdsDistinct(i: nat, j: nat)
    requires i != j
    ensures DefaultId(i) != DefaultId(j)
  {
    if DefaultId(i) == DefaultId(j) {
      assert NatToString(i + 1) == DefaultId(i)[2..] == DefaultId(j)[2..] == NatToString(j + 1);
      NatToStringInjective(i + 1, j + 1);
    }
  }

  /** A record made into a question: missing fields take their defaults,
      marks that are not a number become 1, and no section is carried. */
  function Normalise(rec: Record, index: nat): (q: Question)
    ensures q.id == OrElse(rec.id, DefaultId(index)) && q.id != ""
    ensures q.questionType == OrElse(rec.questionType, "short-answer")
    ensures q.question == OrElse(rec.question, Placeholder)
    ensures q.difficulty == OrElse(rec.difficulty, "medium")
    ensures q.topic == Some(OrElse(rec.topic, "General"))
    ensures q.marks == (if rec.marks.Some? && rec.marks.value.Num? then Some(rec.marks.value.n) else Some(1))
    ensures q.options == rec.options && q.correctAnswer == rec.correctAnswer
    ensures q.section == None
  {
    Question(
      OrElse(rec.id, DefaultId(index)),
      OrElse(rec.questionType, "short-answer"),
      OrElse(rec.question, Placeholder),
      rec.options,
      rec.correctAnswer,
      if rec.marks.Some? && rec.marks.value.Num? then Some(rec.marks.value.n) else Some(1),
      OrElse(rec.difficulty, "medium"),
      Some(OrElse(rec.topic, "General")),
      None)
  }

  /** The filter after normalising: a real question text. */
  predicate Kept(q: Question)
  {
    q.question != "" && q.question != Placeholder
  }

  /** A record carries a question the reader keeps. */
  predicate HasQuestion(rec: Record)
  {
    Named(rec.question) && rec.question.value != Placeholder
  }

  /** Every record normalised with its position. */
  function NormaliseAll(records: seq<Record>): (qs: seq<Question>)
    ensures |qs| == |records|
    ensures forall i :: 0 <= i < |records| ==> qs[i] == Normalise(records[i], i)
  {
    seq(|records|, i requires 0 <= i < |records| => Normalise(records[i], i))
  }

  /** The questions read from the records of the array. */
  function Questions(records: seq<Record>): seq<Question>
  {
    Filter(NormaliseAll(records), Kept)
  }

  /** A record survives exactly when it has a question of its own. */
  lemma KeptIff(rec: Record, index: nat)
    ensures Kept(Normalise(rec, index)) <==> HasQuestion(rec)
  {
  }

  /** Normalising one more record appends its question. */
  lemma NormaliseAllSnoc(records: seq<Record>)
    requires records != []
    ensures NormaliseAll(records)
      == NormaliseAll(records[..|records| - 1]) + [Normalise(records[|records| - 1], |records| - 1)]
  {
  }

  /** As many questions as records with a question of their own. */
  lemma {:induction false} QuestionsCount(records: seq<Record>)
    ensures |Questions(records)| == |Filter(records, HasQuestion)|
    decreases |records|
  {
    if records != [] {
      var init := records[..|records| - 1];
      var last := records[|records| - 1];
      assert records == init + [last];
      NormaliseAllSnoc(records);
      FilterSnoc(NormaliseAll(init), Normalise(last, |init|), Kept);
      FilterSnoc(init, last, HasQuestion);
      KeptIff(last, |init|);
      QuestionsCount(init);
    }
  }

  /** Exactly the records with a question of their own become questions,
      none of them with a section and all of them with marks. */
  lemma QuestionsOfRecords(records: seq<Record>)
    ensures |Questions(records)| == |Filter(records, HasQuestion)|
    ensures forall q :: q in Questions(records) ==> q.section == None && Kept(q) && q.marks.Some?
  {
    QuestionsCount(records);
    forall q | q in Questions(records)
      ensures q.section == None && Kept(q) && q.marks.Some?
    {
      assert q in NormaliseAll(records);
      var i :| 0 <= i < |records| && NormaliseAll(records)[i] == q;
    }
  }

  /** Every element of the parsed array is a record (none is `null`). */
  predicate AllRecords(elements: seq<Option<Record>>)
  {
    forall k :: 0 <= k < |elements| ==> elements[k].Some?
  }

  /** The records of an array whose elements are all records. */
  function Records(elements: seq<Option<Record>>): (rs: seq<Record>)
    requires AllRecords(elements)
    ensures |rs| == |elements|
    ensures forall k :: 0 <= k < |elements| ==> elements[k] == Some(rs[k])
  {
    seq(|elements|, k requires 0 <= k < |elements| => elements[k].value)
  }

  /** `parseQuestions`: any failure while cleaning, parsing or reading
      becomes one fixed message. `parse` stands for `JSON.parse` followed
      by the array check; a `null` element makes the reading fail. */
  function ParseQuestions(text: string, parse: string -> Option<seq<Option<Record>>>): (r: Result<seq<Question>>)
    ensures r.Err? ==> r.message == ParseFailedMessage
    ensures r.Ok? <==> Clean(text).Ok? && parse(Clean(text).value).Some?
                       && AllRecords(parse(Clean(text).value).value)
    ensures r.Ok? ==> r.value == Questions(Records(parse(Clean(text).value).value))
    ensures r.Ok? ==> forall q :: q in r.value ==> Kept(q) && q.section == None
  {
    match Clean(text)
    case Err(_) => Err(ParseFailedMessage)
    case Ok(json) =>
      match parse(json)
      case None => Err(ParseFailedMessage)
      case Some(elements) =>
        if !AllRecords(elements) then Err(ParseFailedMessage)
        else
          var records := Records(elements);
          QuestionsOfRecords(records);
          Ok(Questions(records))
  }

  /** `attemptGeneration` given the network's answer: a reply with no
      question left is a failure too. */
  function Attempt(reply: Result<string>, parse: string -> Option<seq<Option<Record>>>): (r: Result<seq<Question>>)
    ensures r.Ok? ==> r.value != [] && reply.Ok? && r == ParseQuestions(reply.value, parse)
    ensures reply.Err? ==> r == Err(reply.message)
    ensures reply.Ok? && ParseQuestions(reply.value, parse).Err? ==> r == ParseQuestions(reply.value, parse)
    ensures reply.Ok? && ParseQuestions(reply.value, parse) == Ok([]) ==> r == Err(NoQuestionsMessage)
  {
    match reply
    case Err(m) => Err(m)
    case Ok(text) =>
      match ParseQuestions(text, parse)
      case Err(m) => Err(m)
      case Ok(qs) => if qs == [] then Err(NoQuestionsMessage) else Ok(qs)
  }

  // ---------------------------------------------------------------------
  // Retrying

  /** `generateQuestions`: attempt `k` (from 1) has the outcome
      `attempt(k)`, which is `Attempt(reply, parse)` for the network's reply
      to that attempt. The first success is returned at once; after
      three failures the last error is raised, under its friendlier text
      when it has one. Returns the outcome and the number of attempts made. */
  method GenerateQuestions(attempt: nat -> Result<seq<Question>>) returns (r: Result<seq<Question>>, attempts: nat)
    ensures 1 <= attempts <= MaxRetries
    ensures forall k :: 1 <= k < attempts ==> attempt(k).Err?
    ensures attempt(attempts).Ok? ==> r == attempt(attempts)
    ensures attempt(attempts).Err? ==> attempts == MaxRetries && r == Err(MapError(attempt(attempts).message))
  {
    attempts := 1;
    var outcome := attempt(1);
    while outcome.Err? && attempts < MaxRetries
      invariant 1 <= attempts <= MaxRetries
      invariant outcome == attempt(attempts)
      invariant forall k :: 1 <= k < attempts ==> attempt(k).Err?
      decreases MaxRetries - attempts
    {
      attempts := attempts + 1;
      outcome := attempt(attempts);
    }
    match outcome {
      case Ok(qs) => r := Ok(qs);
      case Err(m) => r := Err(MapError(m));
    }
  }

  // ---------------------------------------------------------------------
  // Section totals

  /** With the same marks in every section, the paper's marks are those
      marks times its question count. */
  lemma {:induction false} UniformSectionMarks(sections: seq<Section>, m: int)
    requires forall k :: 0 <= k < |sections| ==> sections[k].marks == Num(m)
    ensures SectionConfiguration.TotalMarks(sections) == Some(m * SectionConfiguration.TotalQuestions(sections))
    decreases |sections|
  {
    if sections != [] {
      var init := sections[..|sections| - 1];
      UniformSectionMarks(init, m);
      var last := sections[|sections| - 1];
      assert m * SectionConfiguration.TotalQuestions(sections)
        == m * SectionConfiguration.TotalQuestions(init) + m * last.questionCount;
    }
  }
}
