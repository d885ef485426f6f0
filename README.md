# Question-paper generator: a verified model

This project models the core of a browser application that builds question
papers from a syllabus. The main part is the offline generator
(`LocalLLMService`). It works in four stages:

1. It checks the paper's configuration.
2. It extracts eight pools of phrases from the syllabus: topics, concepts,
   skills, technologies, key points, names, places and definitions.
3. It schedules the questions, either as one flat run or section by
   section.
4. It writes each question from templates.

Around the generator sit smaller parts, each modelled here as well:

- the subscription quota kept in browser storage;
- the plain-text paper exporter and its section ordering;
- the analytics panel;
- the question list with its section grouping and edit state;
- the section and configuration editors with their number boxes;
- the upload box's file validation and drag highlight;
- the remote generator's retry loop, error mapping and reply cleaning;
- the first-run tour.

The model is written in Dafny, one module per source file plus shared
modules for the JavaScript built-ins the code relies on:

- `Text`: `String(n)`, `trim`, case mapping, `parseInt`, `Number` and the
  leading-zero strip.
- `Collections`: `[...new Set(xs)]`, `slice`, `filter` and the checkbox
  toggle.
- `Types`: the records of `src/types/index.ts`.

## How the model follows the program

- **Values versus objects.** Code that builds new values (validation,
  extraction results, templates, section lists, analytics) is written as
  functions. Code that changes state step by step is written as methods
  with loops or as classes:
  - the extraction loops, the flat `while` loop and the nested section
    loop;
  - the `+=` string builder of the exporter;
  - the `forEach` that fills the `sectioned` dictionary;
  - the subscription store, the edit state, the upload box and the tour.
- **Methods and their specifications.** Each such method is proved to
  compute a function of its inputs or old state. The properties the
  program promises are then proved about those functions.
- **Randomness.** The random shuffles (`sort(() => Math.random() - 0.5)`)
  are a caller-supplied `Shuffler`. Its answer is used only when it is a
  permutation of the pool, so every property holds for every order the
  shuffle could produce.
- **Text analysis and pattern matches.** The text-analysis library and the
  regular-expression matches of the extraction passes are a caller-supplied
  `Oracles` value. Where the program runs the library or a pattern, the
  model asks the oracle.
- **JavaScript numbers.** A NaN is `None`. A `number | string` setting is
  `Value = Num | Str`. `parseInt(x) || 0` is `OrZero(ParseInt(x))`, and
  `Number(s)` is `NumberOf`.
- **Clocks and storage.**
  - "Today" and `Date.now()` are parameters.
  - The browser storage keys are fields of `Subscription.SubscriptionStore`.
  - `Infinity` is the `Unlimited` limit.
- **The network.** The remote model's reply and `JSON.parse` are
  parameters of the remote generator.

### Where the code and its design notes part ways (the model follows the code)

- **Technologies.** `extractTechnologies` keeps every word of the
  lower-cased text that is a listed keyword *or longer than three
  characters*. It does not keep only the listed keywords
  (src/services/localLLMService.ts:215-225).
- **Skills.** The three label patterns of `extractSkills` have no capture
  group. A syllabus they match makes `match[1].trim()` throw, so generation
  fails with the runtime's message instead of producing questions
  (src/services/localLLMService.ts:186-197).
- **Parse errors.** Every error inside `parseQuestions` is replaced by the
  single "Failed to parse generated questions" message. The "Invalid
  response format from AI" message never reaches the caller
  (src/services/geminiService.ts:218-243).
- **Untemplated question types.** Long-answer and true-false questions
  always get the text `Question type "<t>" not found.`, because the
  template table has no entry for them
  (src/services/localLLMService.ts:496-507).
- **Flat mode can fail to terminate.** An untemplated type always gets
  the same text. Once that text is in the list, the loop keeps no further
  question of that type unless the pool is smaller than the target
  (src/services/localLLMService.ts:349-368). The position only advances
  when a question is kept, so with untemplated types only and a pool at
  least as large as the target, the loop finishes exactly when the first
  `target` positions of the type cycle all name different types. Types
  [long-answer, true-false] with target 2, or one such type with target 1,
  finish. Once the target exceeds the number of distinct untemplated types
  in the list, the loop spins forever at the first position whose type
  repeats an earlier one. `Scheduler.GenerateSimple` proves this divergence
  for a single untemplated type and a target of at least 2, whatever the
  fuel.

## Model

| member | source | states |
|---|---|---|
| Scheduler.ValidateConfigOrder | src/services/localLLMService.ts:52-82 | The message is the first failing check in the order the program writes them. With sections: a section without types, then without difficulty, then a count ≤ 0, then marks ≤ 0. Without sections: types, difficulty, marks list, then a falsy or non-positive total. An accepted configuration satisfies every check. |
| Scheduler.NonNumericTotal | src/services/localLLMService.ts:78 | A total question count written as a word is NaN, so it passes validation (`NaN <= 0` is false), and the flat target then defaults to 10. |
| Scheduler.ConsecutiveIdsPush | src/services/localLLMService.ts:358 | A question numbered `questions.length + 1` extends the ids `q_1..q_n` by one. |
| Scheduler.ConsecutiveIdsDistinct | src/services/localLLMService.ts:358 | Ids `q_1..q_n` are pairwise distinct. |
| Scheduler.RoundRobinPush | src/services/localLLMService.ts:349-366 | Appending the question for position `k` keeps every position's type, difficulty and marks at `list[k mod length]`. |
| Scheduler.FlatPush | src/services/localLLMService.ts:349-368 | Each kept question preserves the flat loop's invariant: consecutive ids, round-robin settings, and distinct texts when the pool is large enough. |
| Scheduler.FlatQuestion | src/services/localLLMService.ts:351-359 | The question built with `k` questions kept has id `q_{k+1}`, its settings taken round-robin at `k`, and the untemplated-type text when its type has no template. |
| Scheduler.GenerateSimple | src/services/localLLMService.ts:333-370 | The flat scheduler returns exactly the target number of questions (`Number(total) \|\| 10`) with ids `q_1..q_n` and round-robin settings. Their texts are distinct when the candidate pool covers the target. With a pool smaller than the target it returns within the fuel. With one untemplated type, a pool at least as large as the target, and a target of at least 2, it never returns, whatever the fuel. |
| Scheduler.FlatLoop | src/services/localLLMService.ts:348-369 | The same promises for the loop over an already shuffled pool and a given target. |
| SectionScheduler.RequestedPrefix | src/services/localLLMService.ts:311 | The number of attempts requested grows by each section's count, with negative counts adding nothing. |
| SectionScheduler.FirstUnused | src/services/localLLMService.ts:313 | `find(c => !used.has(c))`: none exactly when every pool item is used; otherwise an unused pool item. |
| SectionScheduler.BlockOkExtends | src/services/localLLMService.ts:299-329 | Appending questions leaves a finished section's block as it was. |
| SectionScheduler.BlocksStep | src/services/localLLMService.ts:299-329 | Closing a section's loop adds its block after the earlier sections' blocks. |
| SectionScheduler.KeptPush | src/services/localLLMService.ts:322-327 | Pushing a question with the next id and a new text keeps the ids consecutive and the texts distinct. |
| SectionScheduler.SectionAttempt | src/services/localLLMService.ts:316-323 | Attempt `j` of a section carries the next id, the section's name, marks `Number(section.marks)`, and the type and difficulty taken round-robin: `questionTypes[j mod length]` and `difficulty[j mod length]`. |
| SectionScheduler.CycledPush | src/services/localLLMService.ts:316-327 | Keeping attempt `j`, later than every attempt kept before it, extends the section's round-robin block. |
| SectionScheduler.TakeUnused | src/services/localLLMService.ts:310-315 | Taking from the reshuffled pool finds nothing exactly when every distinct pool item is used; otherwise it takes an item not used before. |
| SectionScheduler.FillSection | src/services/localLLMService.ts:310-328 | One section uses `min(count, items left)` new pool items and emits at most that many questions, all of that section, with the next ids and new texts. Each emitted question is the kept attempt `j` of a strictly increasing series of attempts below the count, with type and difficulty `list[j mod length]`. Earlier questions stay as they were. |
| SectionScheduler.GenerateSectionWise | src/services/localLLMService.ts:296-331 | Sections in order, one block each. The shared used set holds `min(requested, distinct pool items)` items. There are no more questions than items used, ids run `q_1..q_n` with distinct texts, and the result is empty exactly when nothing is requested or the pool is empty. |
| SectionScheduler.RequestedPositive | src/services/localLLMService.ts:53-66 | An accepted sectioned configuration asks for at least one question. |
| Generator.GenerateQuestions | src/services/localLLMService.ts:13-50 | Guards in order: the image error, the blank-syllabus error, the validation message, the extraction error. Returned questions are non-empty with ids `q_1..q_n`, produced by the flat or the sectioned scheduler. An empty result becomes the "No questions could be generated" error. |
| Extraction.RankedProperties | src/services/localLLMService.ts:144-149 | The frequency-sorted topics hold every distinct candidate once, and the topic pool is its first 20. |
| Extraction.RankedCounts | src/services/localLLMService.ts:144-148 | Every ranked topic's table entry is its number of occurrences among the candidates. |
| Extraction.RankTopicsProperties | src/services/localLLMService.ts:120-150 | Topics are at most 20 distinct candidates, ordered by count, highest first. No topic left out occurs more often than one kept. All candidates are kept when at most 20 are distinct. |
| Extraction.TopPrefix | src/services/localLLMService.ts:149 | The first `n` of a duplicate-free count-sorted list are the `n` most frequent. |
| Extraction.ConceptsProperties | src/services/localLLMService.ts:152-181 | Concepts are at most 15 distinct candidates of 4 to 49 characters. Removing duplicates before or after the length filter gives the same list. |
| Extraction.KeywordCopiesMember | src/services/localLLMService.ts:165-175 | A clause is collected exactly when some keyword occurs in the lower-cased sentence. |
| Extraction.FallbackConceptsMember | src/services/localLLMService.ts:159-178 | Without the library, a concept candidate is exactly a trimmed clause of 11 to 99 characters of a sentence holding a concept keyword. |
| Extraction.SkillsProperties | src/services/localLLMService.ts:183-205 | The skills pass fails exactly when a label pattern matches, with the `undefined.trim()` error. Otherwise it returns at most 10 distinct trimmed captures of 6 to 99 characters. |
| Extraction.SkillLabelThrows | src/services/localLLMService.ts:186-197 | A syllabus mentioning "skills: 0" makes the skills pass throw, whatever else it holds. |
| Extraction.TechnologiesProperties | src/services/localLLMService.ts:207-226 | At most 15 distinct word-character words of the lower-cased text, each a listed keyword or longer than three characters. |
| Extraction.KeyPointListMember | src/services/localLLMService.ts:228-243 | A key point candidate is exactly a trimmed sentence of 21 to 199 characters with an importance word or a definition shape. |
| Extraction.KeyPointsProperties | src/services/localLLMService.ts:228-246 | Key points are at most 12 distinct such sentences, and all are kept when there are at most 12. |
| Extraction.NamesProperties | src/services/localLLMService.ts:248-260 | Names are at most 10 distinct capitalised runs of 4 to 49 characters outside the stoplist. |
| Extraction.PlacesProperties | src/services/localLLMService.ts:262-275 | Places are at most 8 distinct phrases, each matched by one of the nine place keywords; when the matches hold at most 8 distinct phrases, every one is kept. |
| Extraction.DefinitionsProperties | src/services/localLLMService.ts:277-294 | Definitions are at most 10 distinct trimmed sentences of 16 to 199 characters that match a definition pattern. |
| Extraction.DefinitionListMember | src/services/localLLMService.ts:279-291 | Every definition candidate is such a sentence. |
| Extraction.ExtractedProperties | src/services/localLLMService.ts:84-118 | Extraction fails exactly when the lower-cased syllabus matches a skills label pattern. Otherwise every pool is duplicate-free and within its cap. |
| ExtractionPasses.Gather | src/services/localLLMService.ts:254-258 | The loop keeps exactly the items that pass the test, in order. |
| ExtractionPasses.GatherTrimmed | src/services/localLLMService.ts:168-173 | The loop trims each item and keeps exactly the trimmed items that pass the test, in order. |
| ExtractionPasses.GatherFallbackTopics | src/services/localLLMService.ts:128-143 | The fallback topic loop computes the fallback topic list. |
| ExtractionPasses.CountFrequencies | src/services/localLLMService.ts:144-148 | The frequency loop computes the frequency table, and its keys in insertion order. |
| ExtractionPasses.ExtractTopics | src/services/localLLMService.ts:120-150 | `extractTopics` computes `Extraction.Topics`. |
| ExtractionPasses.GatherKeywordCopies | src/services/localLLMService.ts:166-175 | The keyword loop for one sentence computes its clause copies. |
| ExtractionPasses.GatherFallbackConcepts | src/services/localLLMService.ts:159-178 | The fallback concept loop computes the fallback concept list. |
| ExtractionPasses.ExtractConcepts | src/services/localLLMService.ts:152-181 | `extractConcepts` computes `Extraction.Concepts`. |
| ExtractionPasses.ExtractSkills | src/services/localLLMService.ts:183-205 | `extractSkills` computes `Extraction.Skills`, including the thrown error. |
| ExtractionPasses.ExtractTechnologies | src/services/localLLMService.ts:207-226 | `extractTechnologies` computes `Extraction.Technologies`. |
| ExtractionPasses.ExtractKeyPoints | src/services/localLLMService.ts:228-246 | `extractKeyPoints` computes `Extraction.KeyPoints`. |
| ExtractionPasses.ExtractNames | src/services/localLLMService.ts:248-260 | `extractNames` computes `Extraction.Names`. |
| ExtractionPasses.ExtractPlaces | src/services/localLLMService.ts:262-275 | The loop over the nine place keywords, pushing each keyword's matches in order, computes `Extraction.Places`. |
| ExtractionPasses.ExtractDefinitions | src/services/localLLMService.ts:277-294 | `extractDefinitions` computes `Extraction.Definitions`. |
| ExtractionPasses.ExtractContent | src/services/localLLMService.ts:84-118 | The eight passes, in order, compute the extracted pools. Every pool is duplicate-free and capped. |
| Ranking.Frequencies | src/services/localLLMService.ts:144-148 | The `(freq[t] \|\| 0) + 1` table has an entry for each counted candidate. |
| Ranking.FrequenciesKeys | src/services/localLLMService.ts:144-148 | The table has an entry exactly for the candidates that occur. |
| Ranking.FrequenciesCount | src/services/localLLMService.ts:144-148 | Each entry is the number of occurrences of its key. |
| Ranking.Insert | src/services/localLLMService.ts:146-148 | Insertion places the candidate after every entry whose count is at least its own. |
| Ranking.InsertMultiset | src/services/localLLMService.ts:146-148 | Insertion adds exactly the one candidate. |
| Ranking.InsertDescending | src/services/localLLMService.ts:146-148 | Insertion into a list sorted by count keeps it sorted. |
| Ranking.SortDesc | src/services/localLLMService.ts:146-148 | The sort by `freq[b] - freq[a]` is a permutation of the keys, sorted by count, highest first. |
| Ranking.WithCountInsert | src/services/localLLMService.ts:146-148 | Insertion appends the candidate to the entries of its own count and leaves the other counts' entries as they were. |
| Ranking.WithCountBelow | src/services/localLLMService.ts:146-148 | A list sorted by count and headed below `c` has no entry with count `c`. |
| Ranking.WithCountSnoc | src/services/localLLMService.ts:146-148 | Appending an entry extends its own count's entries. |
| Ranking.SortDescStable | src/services/localLLMService.ts:146-148 | The sort is stable: entries with equal counts keep their first-appearance order. |
| Synthesis.Shuffled | src/services/localLLMService.ts:310 | A shuffled pool is a permutation of the pool. |
| Synthesis.ShuffledMembers | src/services/localLLMService.ts:428 | A shuffle keeps the pool's length and members. |
| Synthesis.CandidatePoolMembers | src/services/localLLMService.ts:418-427 | The candidate pool is exactly the items of all eight pools longer than three characters. |
| Synthesis.WithTopic | src/services/localLLMService.ts:356 | The pools with the scheduler's content as the only topic: the other pools stay as they were. |
| Synthesis.WithTopicPool | src/services/localLLMService.ts:418-427 | When the only topic is usable, the candidate pool starts with it. |
| Synthesis.Tier | src/services/localLLMService.ts:434-495 | A template tier exists exactly for multiple-choice and short-answer at a known difficulty, and it holds at least seven templates. |
| Synthesis.FallbackQuestionCases | src/services/localLLMService.ts:572-583 | The fallback lookup gives the type-not-found message for an unknown type, then the difficulty-not-found message, and otherwise the tier's first entry. |
| Synthesis.UntemplatedTypeText | src/services/localLLMService.ts:496-507 | Long-answer, true-false and any other untemplated type get the constant text `Question type "<t>" not found.`. |
| Synthesis.EmptyPoolText | src/services/localLLMService.ts:429-431 | An empty pool gives the tier's fallback text. |
| Synthesis.TemplateText | src/services/localLLMService.ts:496-507 | With a pool and a tier, the stem is template `n mod tier length` filled with a pool item, and the later `replace` leaves it unchanged. |
| Synthesis.Options | src/services/localLLMService.ts:586-600 | The options are the first four of the reshuffled pool: as many as the pool holds up to four, each a pool item longer than three characters. |
| Synthesis.RelevantTopic | src/services/localLLMService.ts:602-616 | The relevant topic is a pool item, and `undefined` exactly when the pool is empty. |
| Synthesis.ComposeQuestionShape | src/services/localLLMService.ts:372-408 | A composed question has id `q_n`, the given type, difficulty, marks and section. Only multiple-choice questions get options, with `correctAnswer = options[0]`. |
| Synthesis.QuestionIdInjective | src/services/localLLMService.ts:388 | Ids `q_m` and `q_n` are equal only when `m == n`. |
| Subscription.Loaded | src/services/subscriptionService.ts:15-37 | A missing record reads as the free plan: 0 calls used, a limit of 5, active. A stored record reads as itself. |
| Subscription.AfterReset | src/services/subscriptionService.ts:47-60 | On a new day a free plan's count goes back to 0. A paid plan and the same day change nothing. |
| Subscription.Permits | src/services/subscriptionService.ts:62-74 | Never when inactive, always on a paid plan, and `used < limit` on an active free plan. |
| Subscription.Charged | src/services/subscriptionService.ts:76-86 | A permitted call adds exactly one to a free plan's count and changes nothing else. A paid plan is unchanged. |
| Subscription.Remaining | src/services/subscriptionService.ts:88-97 | `max(0, limit - used)` on the free plan, unlimited on paid plans. |
| Subscription.Upgraded | src/services/subscriptionService.ts:100-147 | The new plan, with no limit, active, calls used kept, ending thirty days on, subscription id `pro_<now>` for Pro and `ent_<now>` for Enterprise, and customer id `cust_<now>`. |
| Subscription.Cancelled | src/services/subscriptionService.ts:149-172 | Back to the default free plan: limit 5, 0 used, active, no end date or ids. |
| Subscription.KeepLast | src/services/subscriptionService.ts:210-212 | The log keeps its last 100 events, oldest dropped first, in order. |
| Subscription.UserIdOf | src/services/subscriptionService.ts:204 | The customer id when set and non-empty, otherwise "anonymous". |
| Subscription.Bumped | src/services/subscriptionService.ts:245-253 | Only the named counter grows, by one. |
| Subscription.QuotaPreserved | src/services/subscriptionService.ts:47-172 | Reset, a permitted call, an upgrade and a cancel all keep a free plan's count within its limit. |
| Subscription.ResetIdempotent | src/services/subscriptionService.ts:47-60 | A second reset on the same day changes nothing. |
| Subscription.DailyQuota | src/services/subscriptionService.ts:62-86 | Of `n` calls on one day, `min(n, limit - used)` succeed. The count grows by that many and stays within the limit. |
| Subscription.PaidUnlimited | src/services/subscriptionService.ts:62-86 | On a paid active plan every call succeeds and nothing is counted. |
| Subscription.RemainingAgrees | src/services/subscriptionService.ts:62-97 | A call is permitted exactly when the remaining calls are not 0. |
| Subscription.UpgradeThenCancel | src/services/subscriptionService.ts:100-172 | Cancelling after an upgrade restores exactly the default plan. |
| Subscription.SubscriptionStore.constructor | src/services/subscriptionService.ts:15-37 | An empty store reads as the default plan. |
| Subscription.SubscriptionStore.CheckDailyReset | src/services/subscriptionService.ts:47-60 | Saves the reset record, records today's date, and leaves the log and stats unchanged. |
| Subscription.SubscriptionStore.CanUseAPI | src/services/subscriptionService.ts:62-74 | Resets, then answers `Permits` of the stored plan. |
| Subscription.SubscriptionStore.UseAPICall | src/services/subscriptionService.ts:76-86 | Resets, then charges a permitted call and returns true. A refused call returns false and changes nothing more. |
| Subscription.SubscriptionStore.GetRemainingAPICalls | src/services/subscriptionService.ts:88-97 | Resets, then returns `Remaining` of the stored plan. |
| Subscription.SubscriptionStore.TrackEvent | src/services/subscriptionService.ts:196-219 | Appends the event with the current user id and keeps the last 100. |
| Subscription.SubscriptionStore.Upgrade | src/services/subscriptionService.ts:100-147 | Stores the upgraded plan, logs the upgrade event and returns true. |
| Subscription.SubscriptionStore.UpgradeToPro | src/services/subscriptionService.ts:100-123 | The upgrade to Pro. |
| Subscription.SubscriptionStore.UpgradeToEnterprise | src/services/subscriptionService.ts:125-147 | The upgrade to Enterprise. |
| Subscription.SubscriptionStore.CancelSubscription | src/services/subscriptionService.ts:149-172 | Stores the default plan, logs the cancel event under "anonymous" and returns true. |
| Subscription.SubscriptionStore.IncrementUsageStats | src/services/subscriptionService.ts:245-253 | Bumps the named counter and changes nothing else. |
| PdfExporter.MarksLabelSingular | src/services/pdfExporter.ts:434 | The label reads "mark" exactly for one mark, and "marks" otherwise, NaN included. |
| PdfExporter.OptionLetter | src/services/pdfExporter.ts:438 | `String.fromCharCode(65 + i)` is letter number `i` for the first 26 options. |
| PdfExporter.ListedAt | src/services/pdfExporter.ts:432-455 | Question `k`'s entry follows the entries of the questions before it. |
| PdfExporter.HeaderFields | src/services/pdfExporter.ts:418-430 | The header opens with the upper-cased subject and states the duration, total marks and number of questions, each printed as a template literal prints it. |
| PdfExporter.HeaderNumbers | src/services/pdfExporter.ts:420-421 | A numeric duration and total are printed in decimal. |
| PdfExporter.HeaderUnset | src/services/pdfExporter.ts:420-421 | A cleared duration box prints as "Duration:  minutes", and a NaN total (a section whose marks are not a number) as "Total Marks: NaN". |
| PdfExporter.QuestionBlockParts | src/services/pdfExporter.ts:432-455 | Each entry opens with its number and text and gives the marks label. Multiple-choice options come lettered A onward. True-false gets the two fixed lines. Short and long answers get answer lines, long answers two more. |
| PdfExporter.GenerateContent | src/services/pdfExporter.ts:412-458 | The `+=` loop builds the header followed by every question's entry, in input order. |
| PdfExporter.Names | src/services/pdfExporter.ts:78 | `.filter(Boolean)`: the non-empty section names, in order. |
| PdfExporter.SectionOrderMembers | src/services/pdfExporter.ts:158 | The section order lists every non-empty section name once, and nothing else. |
| PdfExporter.Numbered | src/services/pdfExporter.ts:87-95 | Numbering restarts at 1 and follows the input order. |
| PdfExporter.SectionedListing | src/services/pdfExporter.ts:76-98 | One block per section name in first-appearance order, holding that section's questions numbered from 1. |
| PdfExporter.SectionedListingPlaces | src/services/pdfExporter.ts:76-98 | A question with a section is listed in exactly one block. A question without one is left out. |
| Analytics.TotalMarks | src/components/ui/analytics.tsx:236 | The sum of the marks, NaN when any mark is NaN. |
| Analytics.AverageMarks | src/components/ui/analytics.tsx:237 | 0 with no questions; otherwise the average times the count is the total. |
| Analytics.DifficultyTallyCounts | src/components/ui/analytics.tsx:240-243 | Each level's count is the number of questions at that level. |
| Analytics.KnownLevelsCounted | src/components/ui/analytics.tsx:240-243 | The three level counts together count exactly the entries at a known level. |
| Analytics.DifficultyTallyTotal | src/components/ui/analytics.tsx:240-243 | easy + medium + hard is the number of questions at one of those levels. |
| Analytics.SumValuesCounts | src/components/ui/analytics.tsx:246-249 | A count table's values for given keys add up to those keys' occurrences. |
| Analytics.TypeDistributionCounts | src/components/ui/analytics.tsx:246-249 | The type distribution has an entry exactly for the types that occur, each its number of questions, and the entries add up to the number of questions. |
| Analytics.CalculateAnalytics | src/components/ui/analytics.tsx:234-252 | The total is the list length and the average is 0 for an empty list. Each of easy, medium and hard counts its questions, and the three add up to the questions at a known level. The type distribution has a key exactly for each type present, holding its number of questions, and the counts add up to the length. The topic coverage lists each question's topic once. |
| Analytics.CapitaliseAll | src/components/ui/analytics.tsx:217 | Every word capitalised, in order. |
| Analytics.Titled | src/components/ui/analytics.tsx:216-218 | The label keeps the tag's length. |
| Analytics.JoinSplit | src/components/ui/analytics.tsx:217 | Joining capitalised words with spaces is the first capitalised word followed by the spaced rest. |
| Analytics.TitledHyphen | src/components/ui/analytics.tsx:217 | A leading hyphen opens an empty first word. |
| Analytics.TitledLetter | src/components/ui/analytics.tsx:217 | Any other first character joins the first word. |
| Analytics.TitledSplit | src/components/ui/analytics.tsx:216-218 | The character-by-character label equals split, capitalise and join. |
| Analytics.FormatLabelTitled | src/components/ui/analytics.tsx:216-218 | `formatLabel` maps each `-` to a space, upper-cases the first letter of each part, and keeps the tag's length. |
| QuestionDisplay.GroupKey | src/components/QuestionDisplay.tsx:51 | The section when it is set and non-empty, otherwise "Unsectioned". |
| QuestionDisplay.AbsentKeyEmpty | src/components/QuestionDisplay.tsx:49-54 | A key no question carries has an empty group. |
| QuestionDisplay.KeysPush | src/components/QuestionDisplay.tsx:52 | A new key is added at the end, a known key adds nothing, and the keys stay in first-appearance order. |
| QuestionDisplay.ContentsPush | src/components/QuestionDisplay.tsx:53 | The question joins the end of its own group, and the other groups stay as they were. |
| QuestionDisplay.GroupStep | src/components/QuestionDisplay.tsx:50-54 | One turn of the `forEach` keeps the grouping invariant. |
| QuestionDisplay.GroupBySection | src/components/QuestionDisplay.tsx:48-55 | The loop builds one group per key, in first-appearance order, each holding its questions in input order. |
| QuestionDisplay.GroupSize | src/components/QuestionDisplay.tsx:49-54 | A group holds as many questions as carry its key. |
| QuestionDisplay.GroupSizesCount | src/components/QuestionDisplay.tsx:49-54 | The group sizes add up to the keys' occurrences. |
| QuestionDisplay.GroupsPartition | src/components/QuestionDisplay.tsx:49-54 | Every question lands in the group of its own key and in no other, and the sizes add up to the number of questions. |
| QuestionDisplay.SkipSpaces | src/components/QuestionDisplay.tsx:73 | `\s*` matches the whole run of white space. |
| QuestionDisplay.MatchEnd | src/components/QuestionDisplay.tsx:73 | A match of the prefix pattern covers at least "section" and one letter. |
| QuestionDisplay.FirstMatch | src/components/QuestionDisplay.tsx:73 | The unanchored pattern's match starts at or after the given position. |
| QuestionDisplay.FirstMatchLeftmost | src/components/QuestionDisplay.tsx:73 | The match found is the leftmost, and none is found only when no position matches. |
| QuestionDisplay.CleanText | src/components/QuestionDisplay.tsx:73 | The cleaned text is no longer than the question and has no white space at either end. |
| QuestionDisplay.NoSectionWord | src/components/QuestionDisplay.tsx:73 | Without the word "section" in any case, nothing matches. |
| QuestionDisplay.CleanTextPlain | src/components/QuestionDisplay.tsx:73 | A question without the word "section" is only trimmed. |
| QuestionDisplay.CleanTextPrefix | src/components/QuestionDisplay.tsx:73 | A leading "Section C: " is removed together with the spaces around it. |
| QuestionDisplay.FlatRows | src/components/QuestionDisplay.tsx:92-104 | The flat list is numbered index + 1, with the marks and the text as given, and a blank line for a blank text. |
| QuestionDisplay.SectionRows | src/components/QuestionDisplay.tsx:71-86 | A section's list is numbered from 1, with the cleaned text, and a blank line when nothing is left. |
| QuestionDisplay.GroupsOf | src/components/QuestionDisplay.tsx:62-89 | One heading "Section <key>" per key, each with its rows. |
| QuestionDisplay.RowCountSizes | src/components/QuestionDisplay.tsx:62-89 | The rows shown are as many as the groups hold. |
| QuestionDisplay.SectionedView | src/components/QuestionDisplay.tsx:47-89 | One section per distinct key in first-appearance order, showing every question once. |
| QuestionDisplay.ShowQuestions | src/components/QuestionDisplay.tsx:44-105 | Nothing exactly for an empty list. The flat list when no question has a section. Otherwise the sections, one per distinct key, with every question shown once. |
| QuestionDisplay.UnsectionedShown | src/components/QuestionDisplay.tsx:51 | With sections present, a question without one is shown under "Unsectioned". |
| QuestionDisplay.EditState.constructor | src/components/QuestionDisplay.tsx:15-18 | Starts with nothing being edited. |
| QuestionDisplay.EditState.Edit | src/components/QuestionDisplay.tsx:20-25 | Sets the index, the question's text, `String(marks)`, and the original pair. |
| QuestionDisplay.EditState.Save | src/components/QuestionDisplay.tsx:27-35 | Reports `(index, text, Number(marks))` only when there is a listener, then clears the state. |
| QuestionDisplay.EditState.Cancel | src/components/QuestionDisplay.tsx:37-42 | Clears the state without reporting. |
| QuestionDisplay.SaveUnchanged | src/components/QuestionDisplay.tsx:23-29 | Saving an unchanged edit reports the question's own marks, NaN included. |
| SectionConfiguration.Merge | src/components/SectionConfiguration.tsx:55 | `{...s, ...updates}`: each field set in the update replaces the section's, and the id is kept. |
| SectionConfiguration.MergeIdempotent | src/components/SectionConfiguration.tsx:55 | Applying the same update twice is applying it once. |
| SectionConfiguration.AddSection | src/components/SectionConfiguration.tsx:37-47 | Appends one section named after the count, with empty types and difficulty and 0 marks and count. The others are untouched. |
| SectionConfiguration.SectionNamesLettered | src/components/SectionConfiguration.tsx:40 | The first 26 sections are lettered A to Z, each letter once. |
| SectionConfiguration.RemoveSection | src/components/SectionConfiguration.tsx:49-51 | Exactly the sections with other ids remain. |
| SectionConfiguration.RemoveAbsent | src/components/SectionConfiguration.tsx:49-51 | Removing an id no section has changes nothing. |
| SectionConfiguration.UpdateSection | src/components/SectionConfiguration.tsx:53-57 | The update is merged into the sections with the id; all others stay identical. |
| SectionConfiguration.Find | src/components/SectionConfiguration.tsx:60 | `find`: none exactly when no section has the id; otherwise a section with that id. |
| SectionConfiguration.FindUnique | src/components/SectionConfiguration.tsx:60 | With unique ids, the section found is the one at its index. |
| SectionConfiguration.ToggleTypeEffect | src/components/SectionConfiguration.tsx:59-68 | With unique ids, a type toggle changes only that section's types, appending or removing every copy. |
| SectionConfiguration.ToggleDifficultyEffect | src/components/SectionConfiguration.tsx:70-79 | The same for difficulties. |
| SectionConfiguration.ToggleUnknown | src/components/SectionConfiguration.tsx:60-72 | A toggle naming no section changes nothing. |
| SectionConfiguration.ToggleTypeRoundTrip | src/components/SectionConfiguration.tsx:59-68 | Checking, then unchecking, a type the section did not have restores the sections. |
| SectionConfiguration.SectionMarks | src/components/SectionConfiguration.tsx:318 | Marks × count, NaN exactly when the marks are not a number. |
| SectionConfiguration.TotalMarks | src/components/SectionConfiguration.tsx:82 | The sum of the section totals, NaN exactly when some section's marks are not a number. |
| SectionConfiguration.TotalsAppend | src/components/SectionConfiguration.tsx:81-82 | Both totals add up over a split list of sections. |
| SectionConfiguration.AddSectionTotals | src/components/SectionConfiguration.tsx:37-47 | A new section adds nothing to either total. |
| SectionConfiguration.TotalsSnoc | src/components/SectionConfiguration.tsx:81 | One more section adds its count. |
| SectionConfiguration.RemoveSectionTotals | src/components/SectionConfiguration.tsx:49-51 | Removing a section takes its count off the total. |
| SectionConfiguration.SetCount | src/components/SectionConfiguration.tsx:283-286 | A section with the id gets the count read from the text (leading zeros stripped, `parseInt`, 0 when nothing is read) and keeps every other field. Sections with other ids stay identical, in order. |
| SectionConfiguration.SetCountShown | src/components/SectionConfiguration.tsx:282-285 | Retyping the count a section shows leaves the sections as they are. |
| ConfigurationPanel.ToggleQuestionType | src/components/ConfigurationPanel.tsx:23-29 | Checking appends the type. Unchecking removes every copy. Other types' counts and every other field are unchanged. |
| ConfigurationPanel.ToggleDifficulty | src/components/ConfigurationPanel.tsx:31-37 | The same on `difficulty`. |
| ConfigurationPanel.ToggleMarks | src/components/ConfigurationPanel.tsx:141-150 | The same on `marksDistribution` with the number `m`. The text "4" is not the number 4. |
| ConfigurationPanel.SetSubject | src/components/ConfigurationPanel.tsx:57 | The subject becomes the typed text; nothing else changes. |
| ConfigurationPanel.SetTotalQuestions | src/components/ConfigurationPanel.tsx:68-71 | The total becomes the number `Typed(text)`: leading zeros stripped, `parseInt`, 0 when nothing is read. No other field changes. |
| ConfigurationPanel.SetTotalMarks | src/components/ConfigurationPanel.tsx:87-90 | The total marks become the number `Typed(text)`, read the same way. No other field changes. |
| ConfigurationPanel.SetDuration | src/components/ConfigurationPanel.tsx:105-108 | The duration becomes the number `Typed(text)`, read the same way. No other field changes. |
| ConfigurationPanel.ToggleTypeRoundTrip | src/components/ConfigurationPanel.tsx:23-29 | Checking, then unchecking, an unselected type restores the configuration. |
| ConfigurationPanel.ToggleDifficultyRoundTrip | src/components/ConfigurationPanel.tsx:31-37 | The same for a difficulty. |
| ConfigurationPanel.ToggleMarksRoundTrip | src/components/ConfigurationPanel.tsx:141-150 | The same for a marks value. |
| ConfigurationPanel.NumberBoxesParse | src/components/ConfigurationPanel.tsx:68-71 | For text the number boxes accept, each box stores `parseInt(text) \|\| 0`: stripping the leading zeros first never changes the number, and text with no digits stores 0. |
| ConfigurationPanel.NumberBoxesRoundTrip | src/components/ConfigurationPanel.tsx:68-71 | Retyping the number a box shows stores it again. An empty value shows as 0 and stores 0. |
| ConfigurationPanel.UncheckLastType | src/components/ConfigurationPanel.tsx:23-29 | Unchecking the only selected type of an unsectioned paper makes generation refuse with the question-type message. |
| NumberInput.Shown | src/components/ConfigurationPanel.tsx:68 | An empty value is shown as "0". |
| NumberInput.ShownTypedRoundTrip | src/components/SectionConfiguration.tsx:282-285 | Retyping what a box shows for a number stores that number. |
| NumberInput.TypedIgnoresLeadingZeros | src/components/SectionConfiguration.tsx:284-285 | Leading zeros never change the stored number, and text without digits stores 0. |
| Text.StripLeadingZeros | src/components/ConfigurationPanel.tsx:68-70 | `replace(/^0+(?!$)/, '')` drops only leading zeros, keeps a lone zero, and never empties a non-empty text. |
| Text.StripLeadingZerosKeepsValue | src/components/SectionConfiguration.tsx:284-285 | Stripping leading zeros before `parseInt(...) \|\| 0` never changes the result. |
| Text.IntToStringParse | src/components/SectionConfiguration.tsx:282-285 | `parseInt(String(i))` is `i`. |
| Text.IntToStringNumber | src/components/QuestionDisplay.tsx:23-29 | `Number(String(i))` is `i`. |
| Text.NatToString | src/services/localLLMService.ts:388 | Decimal digits, with a leading zero only for 0. |
| Text.NatToStringInjective | src/services/localLLMService.ts:388 | Distinct numbers have distinct decimal texts. |
| Text.Trim | src/services/localLLMService.ts:22 | `trim()` is empty exactly for blank text and leaves no white space at either end. |
| Text.FromCharCode | src/components/SectionConfiguration.tsx:40 | `String.fromCharCode` is the code modulo 2^16 outside the surrogate range. |
| Text.Split | src/components/ui/analytics.tsx:217 | `split` gives at least one piece. |
| Text.SplitPieces | src/components/ui/analytics.tsx:217 | No piece holds a separator. |
| Text.ToNumber | src/components/QuestionDisplay.tsx:29 | `Number` of blank text is 0, and of digits is their value. |
| Types.NumberOf | src/types/index.ts:27-39 | `Number` of a setting: a number is itself, blank text is 0. |
| Types.Times | src/components/SectionConfiguration.tsx:82 | A product is NaN exactly when the marks are. |
| Types.Plus | src/components/SectionConfiguration.tsx:82 | A sum is NaN exactly when a term is. |
| Types.NumberTextRoundTrip | src/components/QuestionDisplay.tsx:23-29 | `Number(String(m))` is `m`, NaN included. |
| Collections.Filter | src/components/SectionConfiguration.tsx:50 | `filter` keeps exactly the elements that pass, in order. |
| Collections.Distinct | src/services/localLLMService.ts:149 | `[...new Set(s)]` holds each value of `s` once. |
| Collections.DistinctPrefix | src/components/ui/analytics.tsx:252 | `[...new Set(s)]` keeps first-appearance order. |
| Collections.DistinctFilterCommute | src/services/localLLMService.ts:180 | Filtering commutes with removing duplicates. |
| Collections.Cap | src/services/localLLMService.ts:149 | `slice(0, n)` is the first `min(n, length)` elements. |
| Collections.CappedDistinct | src/services/localLLMService.ts:149 | `[...new Set(s)].slice(0, cap)` is duplicate-free, at most `cap` long, drawn from `s`, and all of `s` when few enough values are distinct. |
| Collections.SumCountsDistinct | src/components/ui/analytics.tsx:246-249 | Every element is counted once under its own key. |
| Collections.RemoveAll | src/components/ConfigurationPanel.tsx:26 | `filter(y => y !== x)` removes every `x` and keeps every other value. |
| Collections.RemoveAllKeepsOthers | src/components/ConfigurationPanel.tsx:26 | Every other value keeps its number of copies. |
| Collections.RemoveAllAbsent | src/components/SectionConfiguration.tsx:65 | Removing an absent value changes nothing. |
| Collections.RemoveAllOnly | src/components/ConfigurationPanel.tsx:26 | Removing the only value a list holds empties it. |
| Collections.Toggled | src/components/ConfigurationPanel.tsx:24-26 | Checking appends a copy and unchecking removes every copy; other values are untouched. |
| Collections.ToggleRoundTrip | src/components/ConfigurationPanel.tsx:24-26 | Checking, then unchecking, an absent value restores the list. |
| FileUpload.Validation | src/components/FileUpload.tsx:13-43 | No error exactly for an accepted type within 10 MiB. A wrong type gets the type message whatever the size. |
| FileUpload.SizeBoundary | src/components/FileUpload.tsx:36-39 | Exactly 10 MiB is accepted; one byte more is refused with the size message. |
| FileUpload.SmallerAccepted | src/components/FileUpload.tsx:31-42 | A smaller copy of an accepted file is accepted. |
| FileUpload.ExtensionCaseIgnored | src/components/FileUpload.tsx:27-29 | A listed extension in any case is accepted under any MIME type. |
| FileUpload.Uploader.constructor | src/components/FileUpload.tsx:10-11 | No highlight and no error. |
| FileUpload.Uploader.ValidateFile | src/components/FileUpload.tsx:13-43 | Records the file's error, clearing it on acceptance, and answers whether it is accepted. |
| FileUpload.Uploader.Drag | src/components/FileUpload.tsx:45-53 | Enter and over light the box, leave turns it off, and any other event changes nothing. |
| FileUpload.Uploader.Pick | src/components/FileUpload.tsx:60-74 | Only the first file is validated, and it is handed on exactly when accepted. |
| FileUpload.Uploader.Drop | src/components/FileUpload.tsx:55-66 | The highlight always goes off; then the first dropped file is picked. |
| FileUpload.Uploader.FileInput | src/components/FileUpload.tsx:68-75 | The first chosen file is picked; the highlight is left as it was. |
| Gemini.MapError | src/services/geminiService.ts:40-49 | The invalid-key, quota and permission codes are checked in that order and replaced by their fixed texts. Any other message passes through. |
| Gemini.MapErrorEmbedded | src/services/geminiService.ts:40-49 | A code anywhere in the message is found, and an earlier check wins over a later one. |
| Gemini.FirstIndex | src/services/geminiService.ts:217 | The first position holding the character; none exactly when it is absent. |
| Gemini.LastIndex | src/services/geminiService.ts:217 | The last position holding the character; none exactly when it is absent. |
| Gemini.RemoveFencesFront | src/services/geminiService.ts:214 | Text that cannot start a fence passes through the global replace unchanged. |
| Gemini.ArraySpan | src/services/geminiService.ts:217-221 | `/\[[\s\S]*\]/` runs from the first `[` to the last `]`. There is no match exactly when either is missing or the last `]` comes before the first `[`. |
| Gemini.SpanOrError | src/services/geminiService.ts:217-221 | A match starts with `[` and ends with `]`. The "Invalid response format" error comes exactly when the text has no array span. |
| Gemini.DropJsonFence | src/services/geminiService.ts:214 | The opening json fence and the line break after it go. |
| Gemini.ClosingFenceKept | src/services/geminiService.ts:214 | A closing fence survives the json-fence replace. |
| Gemini.ClosingFenceGone | src/services/geminiService.ts:214 | The plain-fence replace removes the closing fence. |
| Gemini.SpanOfArray | src/services/geminiService.ts:217 | A bracketed text followed by a line break spans itself. |
| Gemini.TrimFenced | src/services/geminiService.ts:211 | A fenced reply has nothing to trim. |
| Gemini.Unfence | src/services/geminiService.ts:214 | Both replaces remove the fences of a fenced reply. |
| Gemini.FencedArray | src/services/geminiService.ts:211-221 | A reply wrapped in a json code fence cleans to the array inside. |
| Gemini.OrElse | src/services/geminiService.ts:230-237 | `field \|\| fallback` on a text field. |
| Gemini.DefaultId | src/services/geminiService.ts:230 | The default id starts with `q_`. |
| Gemini.DefaultIdsDistinct | src/services/geminiService.ts:230 | Records at different positions never share a default id. |
| Gemini.Normalise | src/services/geminiService.ts:229-237 | Missing fields take their defaults: `q_<i+1>`, short-answer, the placeholder text, marks 1 unless a number, medium, General. No section is carried over. |
| Gemini.NormaliseAll | src/services/geminiService.ts:229-237 | Every record is normalised with its own position. |
| Gemini.KeptIff | src/services/geminiService.ts:238 | A normalised record survives the filter exactly when it has a question of its own. |
| Gemini.QuestionsOfRecords | src/services/geminiService.ts:229-238 | Exactly the records with a question become questions. Each has no section and a numeric mark. |
| Gemini.ParseQuestions | src/services/geminiService.ts:208-244 | Succeeds exactly when the reply cleans to an array span, that span parses, and every element is a record. The result is then the normalised records with a question of their own (`Questions`). Any failure gives the single "Failed to parse" message. The questions kept have a real text and no section. |
| Gemini.Attempt | src/services/geminiService.ts:54-76 | A network error passes through. A parse failure surfaces as `ParseQuestions`' fixed "Failed to parse" error. An empty list gives "No valid questions were generated". A success is the parsed, non-empty list. |
| Gemini.GenerateQuestions | src/services/geminiService.ts:13-52 | At most three attempts. Every attempt before the last one made failed. The first success is returned. After three failures the last error is returned, mapped. |
| Gemini.UniformSectionMarks | src/services/geminiService.ts:79-80 | With the same marks `m` in every section, the prompt's total marks are `m` × total questions. |
| Onboarding.NextStep | src/components/ui/onboarding.tsx:55-61 | Below the last step Next advances by one. On the last step it stays and asks to close. |
| Onboarding.PreviousStep | src/components/ui/onboarding.tsx:63-67 | One back, never below the first step. |
| Onboarding.NextPreviousRoundTrip | src/components/ui/onboarding.tsx:55-67 | Previous undoes a Next that moved, and Next undoes a Previous that moved. |
| Onboarding.PressNextSteps | src/components/ui/onboarding.tsx:55-61 | `n` presses from a step end at `min(step + n, 4)` and ask to close once for every press beyond the last step. |
| Onboarding.Tour.constructor | src/components/ui/onboarding.tsx:51 | The tour starts on step 0. |
| Onboarding.Tour.Current | src/components/ui/onboarding.tsx:12-43 | The step shown is one of the five defined steps. |
| Onboarding.Tour.Next | src/components/ui/onboarding.tsx:55-61 | `handleNext`, keeping the step within 0..4. |
| Onboarding.Tour.Previous | src/components/ui/onboarding.tsx:63-67 | `handlePrevious`, keeping the step within 0..4. |
| Onboarding.Tour.Skip | src/components/ui/onboarding.tsx:69-71 | Skip asks to close and leaves the step alone. |
| Onboarding.Tour.PreviousEnabled | src/components/ui/onboarding.tsx:159 | The Previous button is enabled exactly off the first step. |
| Onboarding.Tour.NextCaption | src/components/ui/onboarding.tsx:177 | "Get Started" exactly on the last step, where Next closes the tour; "Next" otherwise. |

## Left out

- **The random shuffles.** They are a caller-supplied permutation
  (`Shuffler`). The model claims nothing about their distribution.
- **Which item a stem uses.** The stem is written around an item of a
  pool reshuffled per question. It is not written around the content the
  scheduler picked, and the model does not claim it is.
- **The text-analysis library and regular expressions.** The library's
  noun, verb and capitalised-run results and the skill, place and
  definition pattern matches are the `Oracles` parameter.
  - Regular-expression semantics are modelled only for the
    sentence/clause splits, `\W+` word splitting, the "Section X:"
    prefix strip and the reply cleaning.
  - The library's fallbacks run only when it throws (oracle `None`).
- **`$` patterns in `replace`.** `replace` with `$&` or other `$`
  patterns in template text is not modelled. `Synthesis.TemplateText`
  states the replace only for stems without the `${selectedContent}`
  marker.
- Scheduler.GenerateSimple: bounded by a `fuel` count of loop passes, and
  returns `None` when the fuel runs out. The unbounded `while` loop can
  run forever (proved for one untemplated type), so the model cannot
  claim it terminates.
- **JavaScript object details.** Prototype keys such as `__proto__` in the
  frequency and distribution tables are not modelled, nor is the order
  `Object.entries` gives integer-like keys. Both tables are modelled as
  maps with an explicit key order, and the display groups are kept in
  insertion order.
- **Floating point:**
  - Analytics.AverageMarks: an exact real quotient, not an IEEE double.
  - The estimated-time formulas, bar percentages and duration-ratio
    thresholds.
  - Decimal and exponent text in `Number()`/`parseInt`. Only integer text
    is read exactly; other text may read as NaN where JavaScript reads a
    fraction.
- **Text handling limits.**
  - Case mapping covers ASCII letters only.
  - Extraction.ConceptsProperties, Extraction.SkillsProperties,
    Extraction.KeyPointListMember, Extraction.NamesProperties,
    Extraction.DefinitionsProperties, Extraction.RankTopicsProperties and
    Synthesis.CandidatePoolMembers: text lengths are counted in code points
    (one `char` each), not in UTF-16 code units as JavaScript's `.length`
    counts them. The length bounds of the extraction filters (topics 5–50
    and 10–150, concepts 3–50 and 10–100, skills 5–100, key points 20–200,
    names 3–50, definitions 15–200, pool items over 3) therefore differ
    from the program's for text holding characters outside the Basic
    Multilingual Plane, such as emoji.
  - `String.fromCharCode` shows a lone surrogate unit as `?`.
- **Subscription details.**
  - `getSubscriptionStatus`, `daysLeft` and `getRevenue` are left out:
    they are date arithmetic and display text.
  - The payment payload is left out: the upgrade functions never read it.
  - The clock is an input: `now` stands for `Date.now()`.
  - A storage record that fails to parse is treated as missing.
- **Presentation.** I/O and rendering are not modelled: file decoding,
  jsPDF, docx, html2canvas, the clipboard and sharing, React rendering,
  toasts and styling. So are the `generatePDF` and `generateDocx` page
  layout; only their section order and per-section numbering are
  modelled.
- **Question editing.** The question list renders no edit box and never
  wires `handleEdit`, `handleSave` or `handleCancel` to a control
  (src/components/QuestionDisplay.tsx:44-108). Only an outside caller of
  the handlers can reach the edit state, and nothing types into it. So
  `QuestionDisplay.EditState` has no typing operation: the edited marks
  are always `String(marks)` or empty, and `SaveUnchanged` covers the only
  report a save can make.
- **The remote generator.**
  - The network call, the prompt texts and `JSON.parse` are parameters
    (`attempt`, `parse`).
  - The retry backoff timers are left out.
  - Only string fields of a parsed record are modelled, so a non-string
    value in a text field is not.
  - An error that is not an `Error`, which gives "Failed to generate
    questions", is not modelled.
- **The marks selects.** The per-section marks select and the
  configuration marks select store `parseInt` of a listed option. Setting
  them is `SectionConfiguration.UpdateSection` with a number, and no
  separate member models them.
- SectionConfiguration.Merge: a `Partial<Section>` whose field holds an
  explicit `undefined` (which the spread copies) is not modelled. An
  update either sets a field or leaves it alone.
- **App-level code.** `src/App.tsx` (mode dispatch, its duplicate
  validation, the asynchronous dual-mode flow) is not part of this model.
  Nor are the remaining presentation components: templates, pricing, the
  subscription modal, tooltips, the theme toggle, the skeleton and the
  usage indicator.
