/** Demand scheduling in the offline generator: the configuration checks,
    the flat round-robin loop, the section-by-section loop, and the guards
    of `generateQuestions` around them. */
module Scheduler {
  import opened Outcomes
  import opened Text
  import opened Collections
  import opened Types
  import opened Extraction
  import opened ExtractionPasses
  import opened Synthesis

  // ---------------------------------------------------------------------
  // Configuration checks

  const SectionTypesMessage: string := "Please select at least one question type for each section."
  const SectionDifficultyMessage: string := "Please select at least one difficulty level for each section."
  const SectionCountMessage: string := "Please set a valid number of questions for each section."
  const SectionMarksMessage: string := "Please set valid marks for each section."
  const TypesMessage: string := "Please select at least one question type."
  const DifficultyMessage: string := "Please select at least one difficulty level."
  const MarksMessage: string := "Please select at least one marks option."
  const TotalMessage: string := "Please set a valid number of total questions."

  /** `s.marks <= 0` on a `number | string`: a blank text counts as 0, a
      non-numeric text is NaN and passes. */
  predicate NonPositiveMarks(s: Section)
  {
    AtMostZero(NumberOf(s.marks))
  }

  /** `!config.totalQuestions || Number(config.totalQuestions) <= 0`. */
  predicate BadTotal(v: Value)
  {
    !Truthy(v) || AtMostZero(NumberOf(v))
  }

  /** `validateConfig`: the message of the first check that fails. */
  function ValidateConfig(c: GenerationConfig): Option<string>
  {
    if |c.sections| > 0 then
      if exists s :: s in c.sections && s.questionTypes == [] then Some(SectionTypesMessage)
      else if exists s :: s in c.sections && s.difficulty == [] then Some(SectionDifficultyMessage)
      else if exists s :: s in c.sections && s.questionCount <= 0 then Some(SectionCountMessage)
      else if exists s :: s in c.sections && NonPositiveMarks(s) then Some(SectionMarksMessage)
      else None
    else if c.questionTypes == [] then Some(TypesMessage)
    else if c.difficulty == [] then Some(DifficultyMessage)
    else if c.marksDistribution == [] then Some(MarksMessage)
    else if BadTotal(c.totalQuestions) then Some(TotalMessage)
    else None
  }

  /** Everything the section loop needs of an accepted sectioned configuration. */
  predicate SectionsReady(sections: seq<Section>)
  {
    forall s :: s in sections ==> s.questionTypes != [] && s.difficulty != [] && s.questionCount > 0
  }

  /** `Number(config.totalQuestions) || 10`: NaN and 0 give 10. */
  function Target(v: Value): int
  {
    match NumberOf(v)
    case None => 10
    case Some(n) => if n == 0 then 10 else n
  }

  /** First failure wins, in the order the checks are written; an accepted
      configuration is ready for its scheduler, and in flat mode its target
      is positive. */
  lemma ValidateConfigOrder(c: GenerationConfig)
    ensures |c.sections| > 0 ==>
      (ValidateConfig(c) == Some(SectionTypesMessage) <==> exists s :: s in c.sections && s.questionTypes == [])
      && (ValidateConfig(c) == Some(SectionDifficultyMessage) <==>
            (forall s :: s in c.sections ==> s.questionTypes != [])
            && exists s :: s in c.sections && s.difficulty == [])
      && (ValidateConfig(c) == Some(SectionCountMessage) <==>
            (forall s :: s in c.sections ==> s.questionTypes != [] && s.difficulty != [])
            && exists s :: s in c.sections && s.questionCount <= 0)
      && (ValidateConfig(c) == Some(SectionMarksMessage) <==>
            SectionsReady(c.sections) && exists s :: s in c.sections && NonPositiveMarks(s))
      && (ValidateConfig(c).None? <==>
            SectionsReady(c.sections) && forall s :: s in c.sections ==> !NonPositiveMarks(s))
    ensures |c.sections| == 0 ==>
      (ValidateConfig(c) == Some(TypesMessage) <==> c.questionTypes == [])
      && (ValidateConfig(c) == Some(DifficultyMessage) <==> c.questionTypes != [] && c.difficulty == [])
      && (ValidateConfig(c) == Some(MarksMessage) <==>
            c.questionTypes != [] && c.difficulty != [] && c.marksDistribution == [])
      && (ValidateConfig(c) == Some(TotalMessage) <==>
            c.questionTypes != [] && c.difficulty != [] && c.marksDistribution != [] && BadTotal(c.totalQuestions))
      && (ValidateConfig(c).None? ==>
            c.questionTypes != [] && c.difficulty != [] && c.marksDistribution != []
            && Target(c.totalQuestions) > 0)
  {
  }

  /** A total written as a word passes the check (`NaN <= 0` is false)
      and the target then falls back to 10. */
  lemma NonNumericTotal(c: GenerationConfig, word: string)
    requires c.sections == [] && c.questionTypes != [] && c.difficulty != [] && c.marksDistribution != []
    requires c.totalQuestions == Str(word) && IsWord(word)
    ensures ValidateConfig(c) == None
    ensures Target(c.totalQuestions) == 10
  {
    WordIsNaN(word);
    assert !BadTotal(c.totalQuestions);
  }

  /** Non-empty text of lower-case letters only. */
  predicate IsWord(word: string)
  {
    word != [] && forall i :: 0 <= i < |word| ==> 'a' <= word[i] <= 'z'
  }

  /** `Number` of a word is NaN. */
  lemma WordIsNaN(word: string)
    requires IsWord(word)
    ensures NumberOf(Str(word)) == None
  {
    WordTrimmed(word);
    NotANumber(word);
  }

  /** A word has no white space to trim. */
  lemma WordTrimmed(word: string)
    requires IsWord(word)
    ensures Trim(word) == word
  {
    VisibleNotSpace(word[0]);
    VisibleNotSpace(word[|word| - 1]);
    assert Unpadded(word);
  }

  // ---------------------------------------------------------------------
  // What both schedulers promise

  function Texts(qs: seq<Question>): (r: seq<string>)
    ensures |r| == |qs|
    ensures forall k :: 0 <= k < |qs| ==> r[k] == qs[k].question
  {
    seq(|qs|, k requires 0 <= k < |qs| => qs[k].question)
  }

  lemma TextsPush(qs: seq<Question>, q: Question)
    ensures Texts(qs + [q]) == Texts(qs) + [q.question]
  {
  }

  /** `questions.some(q => q.question === text)`. */
  predicate TextUsed(qs: seq<Question>, text: string)
  {
    text in Texts(qs)
  }

  /** Ids `q_1 .. q_n` in output order. */
  predicate ConsecutiveIds(qs: seq<Question>)
  {
    forall k :: 0 <= k < |qs| ==> qs[k].id == QuestionId(k + 1)
  }

  lemma ConsecutiveIdsPush(qs: seq<Question>, q: Question)
    requires ConsecutiveIds(qs) && q.id == QuestionId(|qs| + 1)
    ensures ConsecutiveIds(qs + [q])
  {
  }

  /** Consecutive ids are pairwise distinct. */
  lemma ConsecutiveIdsDistinct(qs: seq<Question>, j: nat, k: nat)
    requires ConsecutiveIds(qs) && j < k < |qs|
    ensures qs[j].id != qs[k].id
  {
    if qs[j].id == qs[k].id {
      QuestionIdInjective(j + 1, k + 1);
    }
  }

  // ---------------------------------------------------------------------
  // Flat mode

  /** Question `k` of a flat run takes type, difficulty and marks round-robin
      from the settings, and has no section. */
  predicate RoundRobinAt(q: Question, k: nat, c: GenerationConfig)
    requires c.questionTypes != [] && c.difficulty != [] && c.marksDistribution != []
  {
    q.questionType == c.questionTypes[k % |c.questionTypes|]
    && q.difficulty == c.difficulty[k % |c.difficulty|]
    && q.marks == NumberOf(c.marksDistribution[k % |c.marksDistribution|])
    && q.section.None?
  }

  predicate RoundRobin(qs: seq<Question>, c: GenerationConfig)
    requires c.questionTypes != [] && c.difficulty != [] && c.marksDistribution != []
  {
    forall k :: 0 <= k < |qs| ==> RoundRobinAt(qs[k], k, c)
  }

  lemma RoundRobinPush(qs: seq<Question>, q: Question, c: GenerationConfig)
    requires c.questionTypes != [] && c.difficulty != [] && c.marksDistribution != []
    requires RoundRobin(qs, c) && RoundRobinAt(q, |qs|, c)
    ensures RoundRobin(qs + [q], c)
  {
    forall k | 0 <= k < |qs| + 1 ensures RoundRobinAt((qs + [q])[k], k, c) {
      if k < |qs| {
        assert (qs + [q])[k] == qs[k];
      }
    }
  }

  /** What the flat loop keeps of its output: ids in order, settings
      round-robin, and (when the pool is large enough) distinct texts. */
  predicate FlatSoFar(qs: seq<Question>, c: GenerationConfig, distinct: bool)
    requires c.questionTypes != [] && c.difficulty != [] && c.marksDistribution != []
  {
    ConsecutiveIds(qs) && RoundRobin(qs, c) && (distinct ==> NoDups(Texts(qs)))
  }

  lemma FlatPush(qs: seq<Question>, q: Question, c: GenerationConfig, distinct: bool)
    requires c.questionTypes != [] && c.difficulty != [] && c.marksDistribution != []
    requires FlatSoFar(qs, c, distinct)
    requires q.id == QuestionId(|qs| + 1) && RoundRobinAt(q, |qs|, c)
    requires distinct ==> !TextUsed(qs, q.question)
    ensures FlatSoFar(qs + [q], c, distinct)
  {
    ConsecutiveIdsPush(qs, q);
    RoundRobinPush(qs, q, c);
    TextsPush(qs, q);
  }

  /** The question the flat loop builds on pass `i` with `k` questions kept. */
  function FlatQuestion(p: Pools, c: GenerationConfig, pool: seq<string>, i: nat, k: nat, sh: Shuffler): (q: Question)
    requires c.questionTypes != [] && c.difficulty != [] && c.marksDistribution != []
    ensures q.id == QuestionId(k + 1) && RoundRobinAt(q, k, c)
    ensures !TemplatedType(c.questionTypes[k % |c.questionTypes|]) ==>
      q.question == TypeNotFound(c.questionTypes[k % |c.questionTypes|])
  {
    var content := if |pool| > 0 then Some(pool[i % |pool|]) else None;
    var t := c.questionTypes[k % |c.questionTypes|];
    var d := c.difficulty[k % |c.difficulty|];
    var marks := NumberOf(c.marksDistribution[k % |c.marksDistribution|]);
    ComposeQuestionShape(t, d, marks, WithTopic(p, content), None, k + 1, i, sh);
    var q := ComposeQuestion(t, d, marks, WithTopic(p, content), None, k + 1, i, sh);
    assert !TemplatedType(t) ==> q.question == TypeNotFound(t) by {
      if !TemplatedType(t) {
        UntemplatedTypeText(t, d, WithTopic(p, content), k + 1, i, sh);
      }
    }
    q
  }

  /** `generateSimpleQuestions`, run for at most `fuel` passes; `None` when
      the loop has not finished by then (it need not finish at all). */
  method GenerateSimple(p: Pools, c: GenerationConfig, sh: Shuffler, fuel: nat) returns (r: Option<seq<Question>>)
    requires c.questionTypes != [] && c.difficulty != [] && c.marksDistribution != []
    ensures r.Some? ==> |r.value| == (if Target(c.totalQuestions) > 0 then Target(c.totalQuestions) else 0)
    ensures r.Some? ==> ConsecutiveIds(r.value) && RoundRobin(r.value, c)
    ensures r.Some? && |CandidatePool(p)| >= Target(c.totalQuestions) ==> NoDups(Texts(r.value))
    ensures |CandidatePool(p)| < Target(c.totalQuestions) <= fuel ==> r.Some?
    ensures (|c.questionTypes| == 1 && !TemplatedType(c.questionTypes[0])
             && |CandidatePool(p)| >= Target(c.totalQuestions) >= 2) ==> r.None?
  {
    var pool := Shuffled(CandidatePool(p), ContentOrder(0), sh);
    ShuffledMembers(CandidatePool(p), ContentOrder(0), sh);
    r := FlatLoop(p, c, pool, Target(c.totalQuestions), sh, fuel);
  }

  /** The question of pass `i` with `k` questions kept, as the flat loop
      sees it. */
  method NextFlatQuestion(p: Pools, c: GenerationConfig, pool: seq<string>, i: nat, k: nat, sh: Shuffler) returns (q: Question)
    requires c.questionTypes != [] && c.difficulty != [] && c.marksDistribution != []
    ensures q.id == QuestionId(k + 1) && RoundRobinAt(q, k, c)
    ensures |c.questionTypes| == 1 && !TemplatedType(c.questionTypes[0]) ==>
      q.question == TypeNotFound(c.questionTypes[0])
  {
    q := FlatQuestion(p, c, pool, i, k, sh);
    assert |c.questionTypes| == 1 ==> k % |c.questionTypes| == 0;
  }

  /** The flat loop's invariant after `i` passes: at most one question per
      pass and no more than the target; every pass keeps its question while
      the pool is smaller than the target; with one untemplated type (`stuck`)
      at most the first question is ever kept. */
  predicate FlatLoopInv(qs: seq<Question>, i: nat, c: GenerationConfig, poolSize: nat, target: int, stuck: bool)
    requires c.questionTypes != [] && c.difficulty != [] && c.marksDistribution != []
  {
    |qs| <= i && |qs| <= (if target > 0 then target else 0)
    && FlatSoFar(qs, c, poolSize >= target)
    && (poolSize < target ==> |qs| == i)
    && (stuck ==> |qs| <= 1 && (|qs| == 1 ==> qs[0].question == TypeNotFound(c.questionTypes[0])))
  }

  /** One pass of the flat loop keeps its invariant. */
  lemma FlatLoopStep(qs: seq<Question>, q: Question, i: nat, c: GenerationConfig, poolSize: nat, target: int, stuck: bool)
    requires c.questionTypes != [] && c.difficulty != [] && c.marksDistribution != []
    requires FlatLoopInv(qs, i, c, poolSize, target, stuck) && |qs| < target
    requires q.id == QuestionId(|qs| + 1) && RoundRobinAt(q, |qs|, c)
    requires stuck ==> poolSize >= target && q.question == TypeNotFound(c.questionTypes[0])
    ensures FlatLoopInv(if !TextUsed(qs, q.question) || poolSize < target then qs + [q] else qs,
                        i + 1, c, poolSize, target, stuck)
  {
    if stuck && |qs| == 1 {
      StuckRepeat(qs, q, TypeNotFound(c.questionTypes[0]));
    }
    if !TextUsed(qs, q.question) || poolSize < target {
      FlatPush(qs, q, c, poolSize >= target);
    }
  }

  /** The flat loop's invariant at its exit gives its promises. */
  lemma FlatLoopDone(qs: seq<Question>, i: nat, c: GenerationConfig, poolSize: nat, target: int, stuck: bool)
    requires c.questionTypes != [] && c.difficulty != [] && c.marksDistribution != []
    requires FlatLoopInv(qs, i, c, poolSize, target, stuck) && |qs| >= target
    ensures |qs| == (if target > 0 then target else 0)
    ensures ConsecutiveIds(qs) && RoundRobin(qs, c)
    ensures poolSize >= target ==> NoDups(Texts(qs))
    ensures stuck ==> target < 2
  {
  }

  /** With one untemplated type every question has the same text, so a
      second one is always a repeat. */
  lemma StuckRepeat(qs: seq<Question>, q: Question, text: string)
    requires |qs| == 1 && qs[0].question == text && q.question == text
    ensures TextUsed(qs, q.question)
  {
    assert Texts(qs)[0] == text;
  }

  /** The flat loop over the shuffled pool: one question per pass, a
      repeated text dropped while the pool has enough distinct items, at
      most `fuel` passes. */
  method FlatLoop(p: Pools, c: GenerationConfig, pool: seq<string>, target: int, sh: Shuffler, fuel: nat)
    returns (r: Option<seq<Question>>)
    requires c.questionTypes != [] && c.difficulty != [] && c.marksDistribution != []
    ensures r.Some? ==> |r.value| == (if target > 0 then target else 0)
    ensures r.Some? ==> ConsecutiveIds(r.value) && RoundRobin(r.value, c)
    ensures r.Some? && |pool| >= target ==> NoDups(Texts(r.value))
    ensures |pool| < target <= fuel ==> r.Some?
    ensures (|c.questionTypes| == 1 && !TemplatedType(c.questionTypes[0]) && |pool| >= target >= 2) ==> r.None?
  {
    var stuck := |c.questionTypes| == 1 && !TemplatedType(c.questionTypes[0]) && |pool| >= target >= 2;
    var qs: seq<Question> := [];
    var i := 0;
    while |qs| < target
      invariant i <= fuel
      invariant FlatLoopInv(qs, i, c, |pool|, target, stuck)
      decreases fuel - i
    {
      if i == fuel {
        return None;
      }
      var q := NextFlatQuestion(p, c, pool, i, |qs|, sh);
      FlatLoopStep(qs, q, i, c, |pool|, target, stuck);
      if !TextUsed(qs, q.question) || |pool| < target {
        qs := qs + [q];
      }
      i := i + 1;
    }
    FlatLoopDone(qs, i, c, |pool|, target, stuck);
    return Some(qs);
  }
}

module SectionScheduler {
  import opened Outcomes
  import opened Collections
  import opened Types
  import opened Extraction
  import opened Synthesis
  import opened Scheduler

  /** The distinct items of the candidate pool. */
  function PoolSet(p: Pools): set<string>
  {
    set x | x in CandidatePool(p)
  }

  function Max0(n: int): nat
  {
    if n > 0 then n else 0
  }

  function Min(a: int, b: int): int
  {
    if a < b then a else b
  }

  /** How many attempts the sections ask for in all: the counts, negative
      ones contributing nothing. */
  function Requested(sections: seq<Section>): nat
  {
    if sections == [] then 0
    else Requested(sections[..|sections| - 1]) + Max0(sections[|sections| - 1].questionCount)
  }

  lemma RequestedPrefix(sections: seq<Section>, i: nat)
    requires i < |sections|
    ensures Requested(sections[..i + 1]) == Requested(sections[..i]) + Max0(sections[i].questionCount)
  {
    assert sections[..i + 1][..i] == sections[..i];
  }

  /** `availableContent.find(c => !usedContents.has(c))`. */
  function FirstUnused(pool: seq<string>, used: set<string>): (r: Option<string>)
    ensures r.None? <==> forall x :: x in pool ==> x in used
    ensures r.Some? ==> r.value in pool && r.value !in used
  {
    if pool == [] then None
    else if pool[0] !in used then Some(pool[0])
    else FirstUnused(pool[1..], used)
  }

  /** A question section `s` produced: type and difficulty among the
      section's, the section's marks, and its name unless it is blank. */
  predicate SectionQuestion(q: Question, s: Section)
  {
    q.questionType in s.questionTypes
    && q.difficulty in s.difficulty
    && q.marks == NumberOf(s.marks)
    && q.section == (if s.name != "" then Some(s.name) else None)
  }

  /** Questions `lo .. hi-1` of `qs` all come from section `s`, and there are
      no more of them than the section asks for. */
  predicate BlockOk(qs: seq<Question>, s: Section, lo: nat, hi: nat)
  {
    lo <= hi <= |qs| && hi - lo <= Max0(s.questionCount)
    && forall k :: lo <= k < hi ==> SectionQuestion(qs[k], s)
  }

  /** The output splits into consecutive blocks, one per section (of the
      first `n`), in section order. */
  predicate Blocks(qs: seq<Question>, sections: seq<Section>, bounds: seq<nat>, n: nat)
  {
    n <= |sections| && |bounds| == n + 1 && bounds[0] == 0 && bounds[n] == |qs|
    && forall si :: 0 <= si < n ==> BlockOk(qs, sections[si], bounds[si], bounds[si + 1])
  }

  /** Questions kept so far: ids in order and distinct texts. */
  predicate Kept(qs: seq<Question>)
  {
    ConsecutiveIds(qs) && NoDups(Texts(qs))
  }

  /** Appending leaves earlier blocks as they were. */
  predicate Extends(qs: seq<Question>, qs0: seq<Question>)
  {
    |qs0| <= |qs| && forall k :: 0 <= k < |qs0| ==> qs[k] == qs0[k]
  }

  lemma BlockOkExtends(qs: seq<Question>, qs0: seq<Question>, s: Section, lo: nat, hi: nat)
    requires BlockOk(qs0, s, lo, hi) && Extends(qs, qs0)
    ensures BlockOk(qs, s, lo, hi)
  {
    forall k | lo <= k < hi ensures SectionQuestion(qs[k], s) {
      assert qs[k] == qs0[k];
    }
  }

  lemma BlocksStep(qs: seq<Question>, qs0: seq<Question>, sections: seq<Section>, bounds: seq<nat>, n: nat)
    requires Blocks(qs0, sections, bounds, n) && n < |sections| && Extends(qs, qs0)
    requires BlockOk(qs, sections[n], |qs0|, |qs|)
    ensures Blocks(qs, sections, bounds + [|qs|], n + 1)
  {
    var b := bounds + [|qs|];
    forall si | 0 <= si < n + 1 ensures BlockOk(qs, sections[si], b[si], b[si + 1]) {
      if si < n {
        BlockOkExtends(qs, qs0, sections[si], bounds[si], bounds[si + 1]);
      }
    }
  }

  /** Questions from index `lo` on come from section `s`. */
  predicate FromSection(qs: seq<Question>, lo: nat, s: Section)
  {
    forall k :: lo <= k < |qs| ==> SectionQuestion(qs[k], s)
  }

  /** Pushing a question of section `s` with the next id and a new text. */
  lemma KeptPush(qs: seq<Question>, qs0: seq<Question>, q: Question, s: Section)
    requires Kept(qs) && q.id == QuestionId(|qs| + 1) && !TextUsed(qs, q.question)
    requires Extends(qs, qs0) && FromSection(qs, |qs0|, s) && SectionQuestion(q, s)
    ensures Kept(qs + [q]) && Extends(qs + [q], qs0) && FromSection(qs + [q], |qs0|, s)
  {
    ConsecutiveIdsPush(qs, q);
    TextsPush(qs, q);
  }

  /** Attempt `j` of a section takes its type and difficulty round-robin
      from the section's lists. */
  predicate CycledAt(q: Question, s: Section, j: nat)
  {
    s.questionTypes != [] && s.difficulty != []
    && q.questionType == s.questionTypes[j % |s.questionTypes|]
    && q.difficulty == s.difficulty[j % |s.difficulty|]
  }

  /** The questions from index `lo` on are the kept attempts `picks` of
      section `s`, in increasing attempt order, each within the count. */
  predicate CycledBlock(qs: seq<Question>, lo: nat, s: Section, picks: seq<nat>)
  {
    lo <= |qs| && |picks| == |qs| - lo
    && (forall m :: 0 <= m < |picks| ==> picks[m] < s.questionCount && CycledAt(qs[lo + m], s, picks[m]))
    && (forall m, m' :: 0 <= m < m' < |picks| ==> picks[m] < picks[m'])
  }

  /** Keeping attempt `j`, later than every earlier kept attempt, extends the cycle. */
  lemma CycledPush(qs: seq<Question>, lo: nat, s: Section, picks: seq<nat>, q: Question, j: nat)
    requires CycledBlock(qs, lo, s, picks) && (forall m :: 0 <= m < |picks| ==> picks[m] < j)
    requires j < s.questionCount && CycledAt(q, s, j)
    ensures CycledBlock(qs + [q], lo, s, picks + [j])
  {
    var qs', picks' := qs + [q], picks + [j];
    forall m | 0 <= m < |picks'|
      ensures picks'[m] < s.questionCount && CycledAt(qs'[lo + m], s, picks'[m])
    {
      if m < |picks| {
        assert qs'[lo + m] == qs[lo + m];
      }
    }
  }

  /** The question attempt `j` of section `s` builds around `content`. */
  function SectionAttempt(p: Pools, s: Section, j: nat, content: string, n: nat, call: nat, sh: Shuffler): (q: Question)
    requires s.questionTypes != [] && s.difficulty != []
    ensures q.id == QuestionId(n) && SectionQuestion(q, s)
    ensures q.questionType == s.questionTypes[j % |s.questionTypes|]
    ensures q.difficulty == s.difficulty[j % |s.difficulty|]
  {
    ComposeQuestionShape(s.questionTypes[j % |s.questionTypes|], s.difficulty[j % |s.difficulty|],
                         NumberOf(s.marks), WithTopic(p, Some(content)), Some(s.name), n, call, sh);
    ComposeQuestion(s.questionTypes[j % |s.questionTypes|], s.difficulty[j % |s.difficulty|],
                    NumberOf(s.marks), WithTopic(p, Some(content)), Some(s.name), n, call, sh)
  }

  /** Taking the first unused item of a reshuffled pool: none is left
      exactly when every distinct item is used, and otherwise one more
      distinct item is used. */
  lemma TakeUnused(pool: seq<string>, p: Pools, used: set<string>)
    requires forall x :: x in pool <==> x in CandidatePool(p)
    requires used <= PoolSet(p)
    ensures FirstUnused(pool, used).None? <==> |used| == |PoolSet(p)|
    ensures FirstUnused(pool, used).Some? ==>
      var next := used + {FirstUnused(pool, used).value};
      next <= PoolSet(p) && |next| == |used| + 1 <= |PoolSet(p)|
  {
    SubsetCard(used, PoolSet(p));
    match FirstUnused(pool, used) {
      case None =>
        assert used == PoolSet(p);
      case Some(x) =>
        SubsetCard(used + {x}, PoolSet(p));
    }
  }

  /** One section's loop: up to `questionCount` attempts, each taking the
      first unused item of the reshuffled pool, and stopping when there is
      none; a question is kept when its text is new. */
  method FillSection(p: Pools, s: Section, si: nat, qs0: seq<Question>, used0: set<string>,
                     call0: nat, sh: Shuffler)
    returns (qs: seq<Question>, used: set<string>, call: nat, ghost picks: seq<nat>)
    requires s.questionTypes != [] && s.difficulty != []
    requires Kept(qs0) && used0 <= PoolSet(p)
    ensures Kept(qs) && Extends(qs, qs0)
    ensures BlockOk(qs, s, |qs0|, |qs|)
    ensures used0 <= used <= PoolSet(p)
    ensures |used| == Min(|used0| + Max0(s.questionCount), |PoolSet(p)|)
    ensures |qs| - |qs0| <= |used| - |used0|
    ensures call == call0 + (|used| - |used0|)
    ensures qs0 == [] && |used| > |used0| ==> |qs| > 0
    ensures CycledBlock(qs, |qs0|, s, picks)
  {
    var pool := Shuffled(CandidatePool(p), ContentOrder(si), sh);
    ShuffledMembers(CandidatePool(p), ContentOrder(si), sh);
    SubsetCard(used0, PoolSet(p));
    qs, used, call := qs0, used0, call0;
    picks := [];
    var j := 0;
    while j < s.questionCount
      invariant used0 <= used <= PoolSet(p)
      invariant |used| == |used0| + j <= |PoolSet(p)|
      invariant Kept(qs) && Extends(qs, qs0)
      invariant |qs| - |qs0| <= j <= Max0(s.questionCount)
      invariant FromSection(qs, |qs0|, s)
      invariant call == call0 + j
      invariant qs0 == [] && j > 0 ==> |qs| > 0
      invariant CycledBlock(qs, |qs0|, s, picks) && forall m :: 0 <= m < |picks| ==> picks[m] < j
    {
      var content := FirstUnused(pool, used);
      TakeUnused(pool, p, used);
      if content.None? {
        break;
      }
      used := used + {content.value};
      var q := SectionAttempt(p, s, j, content.value, |qs| + 1, call, sh);
      call := call + 1;
      if !TextUsed(qs, q.question) {
        KeptPush(qs, qs0, q, s);
        CycledPush(qs, |qs0|, s, picks, q, j);
        qs, picks := qs + [q], picks + [j];
      }
      j := j + 1;
    }
  }

  /** `generateSectionWiseQuestions`: the sections in order, each with its
      own reshuffled pool, sharing one set of used items.  Every item is used
      at most once, so the run stops short of the requested counts exactly
      when the pool holds fewer distinct items than requested; `bounds` splits
      the output into the sections' blocks, and `used` is the final set of
      used items. */
  method GenerateSectionWise(p: Pools, sections: seq<Section>, sh: Shuffler)
    returns (qs: seq<Question>, ghost bounds: seq<nat>, ghost used: set<string>)
    requires forall s :: s in sections ==> s.questionTypes != [] && s.difficulty != []
    ensures Kept(qs)
    ensures Blocks(qs, sections, bounds, |sections|)
    ensures used <= PoolSet(p)
    ensures |used| == Min(Requested(sections), |PoolSet(p)|)
    ensures |qs| <= |used|
    ensures |qs| == 0 <==> Requested(sections) == 0 || PoolSet(p) == {}
  {
    qs, bounds := [], [0];
    var usedContents: set<string> := {};
    var call := 0;
    var i := 0;
    while i < |sections|
      invariant i <= |sections|
      invariant SectionWiseInv(p, sections, i, qs, bounds, usedContents)
    {
      assert sections[i] in sections;
      var qs', used', call', _ := FillSection(p, sections[i], i, qs, usedContents, call, sh);
      SectionWiseStep(p, sections, i, qs, bounds, usedContents, qs', used');
      qs, bounds, usedContents, call := qs', bounds + [|qs'|], used', call';
      i := i + 1;
    }
    assert sections[..i] == sections;
    used := usedContents;
    NoneTaken(|qs|, |used|, Requested(sections), |PoolSet(p)|);
  }

  /** The section loop's invariant after `i` sections: the blocks so far,
      and as many used items as requested so far, as far as the pool allows. */
  ghost predicate SectionWiseInv(p: Pools, sections: seq<Section>, i: nat, qs: seq<Question>,
                                 bounds: seq<nat>, used: set<string>)
  {
    i <= |sections| && Kept(qs) && Blocks(qs, sections, bounds, i)
    && used <= PoolSet(p)
    && |used| == Min(Requested(sections[..i]), |PoolSet(p)|)
    && |qs| <= |used|
    && (|used| > 0 ==> |qs| > 0)
  }

  /** Filling one more section keeps the invariant. */
  lemma SectionWiseStep(p: Pools, sections: seq<Section>, i: nat, qs: seq<Question>, bounds: seq<nat>,
                        used: set<string>, qs': seq<Question>, used': set<string>)
    requires SectionWiseInv(p, sections, i, qs, bounds, used) && i < |sections|
    requires Kept(qs') && Extends(qs', qs) && BlockOk(qs', sections[i], |qs|, |qs'|)
    requires used <= used' <= PoolSet(p)
    requires |used'| == Min(|used| + Max0(sections[i].questionCount), |PoolSet(p)|)
    requires |qs'| - |qs| <= |used'| - |used|
    requires qs == [] && |used'| > |used| ==> |qs'| > 0
    ensures SectionWiseInv(p, sections, i + 1, qs', bounds + [|qs'|], used')
  {
    BlocksStep(qs', qs, sections, bounds, i);
    RequestedPrefix(sections, i);
    MinStep(|used|, |used'|, Requested(sections[..i]), Max0(sections[i].questionCount), |PoolSet(p)|);
  }

  /** No question comes out exactly when nothing was requested or the pool
      is empty. */
  lemma NoneTaken(count: nat, used: nat, requested: nat, poolSize: nat)
    requires used == Min(requested, poolSize) && count <= used && (used > 0 ==> count > 0)
    ensures count == 0 <==> requested == 0 || poolSize == 0
  {
  }

  /** Taking `c` more items, as far as the pool allows, after `r` requested. */
  lemma MinStep(u0: nat, u: nat, r: nat, c: nat, total: nat)
    requires u0 == Min(r, total) && u == Min(u0 + c, total)
    ensures u == Min(r + c, total)
  {
  }

  /** An accepted sectioned configuration asks for at least one question. */
  lemma RequestedPositive(sections: seq<Section>)
    requires sections != [] && SectionsReady(sections)
    ensures Requested(sections) > 0
  {
    assert sections[|sections| - 1] in sections;
  }
}

/** `generateQuestions`: the guards in the order they are written, then the
    extraction and the scheduler the configuration selects. */
module Generator {
  import opened Outcomes
  import opened Text
  import opened Collections
  import opened Types
  import opened Extraction
  import opened ExtractionPasses
  import opened Synthesis
  import opened Scheduler
  import opened SectionScheduler

  const ImageMessage: string := "Local AI does not support image processing. Please use Cloud API for image files."
  const BlankMessage: string := "Please provide syllabus content to generate questions."
  const NoQuestionsMessage: string := "No questions could be generated. Please check your configuration and try again."

  /** What a call settles to: the questions, the message of the error it
      throws, or (flat mode only) a loop that ran out of fuel. */
  datatype Generated = Questions(questions: seq<Question>) | Failure(message: string) | OutOfFuel

  method GenerateQuestions(content: string, c: GenerationConfig, isImage: bool, o: Oracles,
                           sh: Shuffler, fuel: nat) returns (r: Generated)
    ensures isImage ==> r == Failure(ImageMessage)
    ensures !isImage && Trim(content) == [] ==> r == Failure(BlankMessage)
    ensures !isImage && Trim(content) != [] && ValidateConfig(c).Some? ==> r == Failure(ValidateConfig(c).value)
    ensures !isImage && Trim(content) != [] && ValidateConfig(c).None? && Extracted(content, o).Err? ==>
      r == Failure(Extracted(content, o).message)
    ensures r.Questions? ==> r.questions != [] && ConsecutiveIds(r.questions)
    ensures r.Questions? && |c.sections| == 0 ==>
      |r.questions| == Target(c.totalQuestions) && RoundRobin(r.questions, c)
    ensures r.Questions? && |c.sections| > 0 ==>
      NoDups(Texts(r.questions)) && |r.questions| <= Requested(c.sections)
    ensures r.OutOfFuel? ==> |c.sections| == 0
    ensures !isImage && Trim(content) != [] && ValidateConfig(c).None? && Extracted(content, o).Ok? ==>
      if |c.sections| > 0 then
        (r == Failure(NoQuestionsMessage) <==> PoolSet(Extracted(content, o).value) == {})
        && (r.Questions? || r == Failure(NoQuestionsMessage))
      else r.Questions? || r.OutOfFuel?
  {
    if isImage {
      return Failure(ImageMessage);
    }
    if Trim(content) == [] {
      return Failure(BlankMessage);
    }
    ValidateConfigOrder(c);
    var problem := ValidateConfig(c);
    if problem.Some? {
      return Failure(problem.value);
    }
    var pools := ExtractContent(content, o);
    if pools.Err? {
      return Failure(pools.message);
    }
    if |c.sections| > 0 {
      var qs, bounds, used := GenerateSectionWise(pools.value, c.sections, sh);
      RequestedPositive(c.sections);
      if |qs| == 0 {
        return Failure(NoQuestionsMessage);
      }
      return Questions(qs);
    } else {
      var qs := GenerateSimple(pools.value, c, sh, fuel);
      if qs.None? {
        return OutOfFuel;
      }
      if |qs.value| == 0 {
        return Failure(NoQuestionsMessage);
      }
      return Questions(qs.value);
    }
  }
}
