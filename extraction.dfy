/** The eight extraction passes of the offline generator.  Each pass collects
    candidate strings from the syllabus, removes duplicates (keeping the first
    occurrence) and keeps at most a fixed number of them.  The natural-language
    library and the regular-expression matchers are inputs (`Oracles`): the
    model states what each pass does with whatever they return. */
module Extraction {
  import opened Outcomes
  import opened Text
  import opened Collections
  import opened Ranking

  /** What the text-analysis library and the pattern matchers report. */
  datatype Oracles = Oracles(
    /** The library's noun phrases of a text; `None` when the library throws. */
    nouns: string -> Option<seq<string>>,
    /** The library's noun phrases followed by its verbs; `None` when it throws. */
    nounsAndVerbs: string -> Option<seq<string>>,
    /** The runs of capitalised words in a text, in order. */
    capitalised: string -> seq<string>,
    /** The captured clauses after "can", "able to" and "learn to", pattern by pattern. */
    skillClauses: string -> seq<string>,
    /** Whether a sentence holds an importance word ("important", "key", "main", ...). */
    important: string -> bool,
    /** Whether a sentence reads "is a/an/the" or "refer(s) to". */
    definitional: string -> bool,
    /** The phrases a text matches for one place keyword, `<Words> <keyword>`
        read case-insensitively, in order of appearance. */
    placeMatches: (string, string) -> seq<string>,
    /** Whether a sentence matches one of the definition patterns ("is defined as", "means", ...). */
    defines: string -> bool)

  /** The extracted content, pool by pool. */
  datatype Pools = Pools(
    topics: seq<string>,
    concepts: seq<string>,
    skills: seq<string>,
    technologies: seq<string>,
    keyPoints: seq<string>,
    names: seq<string>,
    places: seq<string>,
    definitions: seq<string>)

  const TopicCap: nat := 20
  const ConceptCap: nat := 15
  const SkillCap: nat := 10
  const TechnologyCap: nat := 15
  const KeyPointCap: nat := 12
  const NameCap: nat := 10
  const PlaceCap: nat := 8
  const DefinitionCap: nat := 10

  predicate IsSentenceEnd(c: char) { c == '.' || c == '!' || c == '?' }

  predicate IsClauseSep(c: char) { c == ',' || c == ';' }

  /** A character of `\w`. */
  predicate IsWordChar(c: char)
  {
    ('a' <= c <= 'z') || ('A' <= c <= 'Z') || ('0' <= c <= '9') || c == '_'
  }

  predicate IsNonWordChar(c: char) { !IsWordChar(c) }

  predicate LongSentence(s: string) { |Trim(s)| > 10 }

  /** `text.split(/[.!?]+/).filter(s => s.trim().length > 10)`; splitting on
      single terminators only adds empty pieces, which the filter drops. */
  function SentencesOf(text: string): seq<string>
  {
    Filter(Split(text, IsSentenceEnd), LongSentence)
  }

  // ---------------------------------------------------------------------
  // Topics

  predicate TopicPhrase(p: string) { 5 < |p| < 50 }

  /** The capitalised phrases one sentence contributes to the fallback topics. */
  function SentenceTopics(piece: string, o: Oracles): seq<string>
  {
    var t := Trim(piece);
    if 10 < |t| < 150 then Filter(o.capitalised(t), TopicPhrase) else []
  }

  function TopicsOfSentence(o: Oracles): string -> seq<string>
  {
    piece => SentenceTopics(piece, o)
  }

  function FallbackTopics(pieces: seq<string>, o: Oracles): seq<string>
  {
    FlatMap(pieces, TopicsOfSentence(o))
  }

  /** The topic candidates before ranking: the library's nouns, or the
      capitalised phrases of the sentences when the library throws. */
  function TopicCandidates(text: string, o: Oracles): seq<string>
  {
    match o.nouns(text)
    case Some(t) => t
    case None => FallbackTopics(Split(text, IsSentenceEnd), o)
  }

  /** The distinct candidates ranked by frequency, highest first, ties in
      first-appearance order, at most 20. */
  function RankTopics(cands: seq<string>): seq<string>
  {
    Cap(Distinct(SortDesc(Distinct(cands), Frequencies(cands))), TopicCap)
  }

  function Topics(text: string, o: Oracles): seq<string>
  {
    RankTopics(TopicCandidates(text, o))
  }

  // ---------------------------------------------------------------------
  // Concepts

  const ConceptKeywords: seq<string> := [
    "concept", "principle", "theory", "method", "approach", "technique",
    "process", "system", "framework", "model", "algorithm", "strategy"]

  predicate ConceptPart(t: string) { 10 < |t| < 100 }

  predicate ConceptLength(c: string) { 3 < |c| < 50 }

  /** The trimmed clauses of a sentence that are long enough to be a concept. */
  function ConceptParts(sentence: string): seq<string>
  {
    Filter(Trims(Split(sentence, IsClauseSep)), ConceptPart)
  }

  /** One copy of `parts` for every keyword the lower-cased sentence contains. */
  function KeywordCopies(lowered: string, keywords: seq<string>, parts: seq<string>): seq<string>
  {
    if keywords == [] then []
    else
      KeywordCopies(lowered, keywords[..|keywords| - 1], parts)
      + (if Contains(lowered, keywords[|keywords| - 1]) then parts else [])
  }

  /** The concept candidates one sentence contributes without the library. */
  function SentenceConcepts(sentence: string): seq<string>
  {
    KeywordCopies(Lower(sentence), ConceptKeywords, ConceptParts(sentence))
  }

  function FallbackConcepts(sentences: seq<string>): seq<string>
  {
    FlatMap(sentences, SentenceConcepts)
  }

  function ConceptCandidates(sentences: seq<string>, o: Oracles): seq<string>
  {
    match o.nounsAndVerbs(Join(sentences, ". "))
    case Some(c) => c
    case None => FallbackConcepts(sentences)
  }

  /** Duplicates removed first, then the length filter, then at most 15. */
  function Concepts(sentences: seq<string>, o: Oracles): seq<string>
  {
    Cap(Filter(Distinct(ConceptCandidates(sentences, o)), ConceptLength), ConceptCap)
  }

  // ---------------------------------------------------------------------
  // Skills

  /** The texts the three label patterns (`skills?`, `abilities?`,
      `competenc(y|ies)`, each followed by `\s*:? 0`) start with. */
  const LabelWords: seq<string> := ["skill", "skills", "abilitie", "abilities", "competency", "competencies"]

  /** What a label pattern needs after its word: white space, an optional
      colon, then " 0". */
  predicate LabelTail(t: string)
  {
    exists k :: 0 <= k <= |t| && AllSpace(t[..k]) && (StartsWith(t[k..], " 0") || StartsWith(t[k..], ": 0"))
  }

  /** Whether one of the label patterns matches somewhere in `s`. */
  predicate LabelPatternMatches(s: string)
  {
    exists p, w :: 0 <= p <= |s| && w in LabelWords && StartsWith(s[p..], w) && LabelTail(s[p + |w|..])
  }

  /** The label patterns have no capture group, so reading `match[1].trim()`
      throws this TypeError. */
  const UndefinedTrim: string := "Cannot read properties of undefined (reading 'trim')"

  predicate SkillLength(s: string) { 5 < |s| < 100 }

  function Skills(lowered: string, o: Oracles): Result<seq<string>>
  {
    if LabelPatternMatches(lowered) then Err(UndefinedTrim)
    else Ok(Cap(Distinct(Filter(Trims(o.skillClauses(lowered)), SkillLength)), SkillCap))
  }

  // ---------------------------------------------------------------------
  // Technologies

  const TechKeywords: seq<string> := [
    "javascript", "python", "java", "react", "node", "html", "css", "sql",
    "database", "api", "framework", "library", "tool", "software", "platform",
    "technology", "programming", "development", "web", "mobile", "cloud"]

  predicate TechWord(w: string) { w in TechKeywords || |w| > 3 }

  /** Every word of the lower-cased text that is a listed keyword or longer
      than three letters.  The word is then looked up again in the text with
      `\b<word>\b` (case-insensitively); as the text is already lower-case, the
      match found is the word itself. */
  function Technologies(lowered: string): seq<string>
  {
    Cap(Distinct(Filter(Split(Lower(lowered), IsNonWordChar), TechWord)), TechnologyCap)
  }

  // ---------------------------------------------------------------------
  // Key points

  /** A sentence of 21 to 199 characters after trimming is kept once for an
      importance word and once more for a definition phrase. */
  function SentenceKeyPoints(sentence: string, o: Oracles): seq<string>
  {
    var t := Trim(sentence);
    if 20 < |t| < 200 then
      (if o.important(t) then [t] else []) + (if o.definitional(t) then [t] else [])
    else []
  }

  function KeyPointsOfSentence(o: Oracles): string -> seq<string>
  {
    sentence => SentenceKeyPoints(sentence, o)
  }

  function KeyPointList(sentences: seq<string>, o: Oracles): seq<string>
  {
    FlatMap(sentences, KeyPointsOfSentence(o))
  }

  function KeyPoints(sentences: seq<string>, o: Oracles): seq<string>
  {
    Cap(Distinct(KeyPointList(sentences, o)), KeyPointCap)
  }

  // ---------------------------------------------------------------------
  // Names, places and definitions

  const NameStoplist: seq<string> := ["The", "This", "That", "When", "Where", "What", "How", "Why"]

  predicate NameCandidate(n: string) { 3 < |n| < 50 && n !in NameStoplist }

  function Names(text: string, o: Oracles): seq<string>
  {
    Cap(Distinct(Filter(o.capitalised(text), NameCandidate)), NameCap)
  }

  const PlaceKeywords: seq<string> :=
    ["university", "college", "school", "institute", "center", "department", "city", "country", "region"]

  function PlaceMatchesOf(lowered: string, o: Oracles): string -> seq<string>
  {
    keyword => o.placeMatches(lowered, keyword)
  }

  /** Every keyword's matches, keyword by keyword. */
  function PlaceMatches(lowered: string, o: Oracles): seq<string>
  {
    FlatMap(PlaceKeywords, PlaceMatchesOf(lowered, o))
  }

  function Places(lowered: string, o: Oracles): seq<string>
  {
    Cap(Distinct(PlaceMatches(lowered, o)), PlaceCap)
  }

  /** A trimmed sentence of 16 to 199 characters matching a definition pattern. */
  function SentenceDefinition(sentence: string, o: Oracles): seq<string>
  {
    var t := Trim(sentence);
    if o.defines(t) && 15 < |t| < 200 then [t] else []
  }

  function DefinitionOfSentence(o: Oracles): string -> seq<string>
  {
    sentence => SentenceDefinition(sentence, o)
  }

  function DefinitionList(sentences: seq<string>, o: Oracles): seq<string>
  {
    FlatMap(sentences, DefinitionOfSentence(o))
  }

  function Definitions(sentences: seq<string>, o: Oracles): seq<string>
  {
    Cap(Distinct(DefinitionList(sentences, o)), DefinitionCap)
  }

  // ---------------------------------------------------------------------
  // All passes

  /** The extracted content of a syllabus, or the error the skills pass throws. */
  function Extracted(text: string, o: Oracles): Result<Pools>
  {
    var lowered := Lower(text);
    var sentences := SentencesOf(text);
    match Skills(lowered, o)
    case Err(m) => Err(m)
    case Ok(skills) =>
      Ok(Pools(Topics(text, o), Concepts(sentences, o), skills, Technologies(lowered),
               KeyPoints(sentences, o), Names(text, o), Places(lowered, o), Definitions(sentences, o)))
  }

  // ---------------------------------------------------------------------
  // Properties of the passes

  /** The candidates sorted by frequency, each once. */
  function Ranked(cands: seq<string>): seq<string>
  {
    SortDesc(Distinct(cands), Frequencies(cands))
  }

  lemma RankedProperties(cands: seq<string>)
    ensures NoDups(Ranked(cands))
    ensures RankTopics(cands) == Cap(Ranked(cands), TopicCap)
    ensures |Ranked(cands)| == |Distinct(cands)|
    ensures forall x :: x in Ranked(cands) <==> x in cands
  {
    var keys := Distinct(cands);
    var sorted := Ranked(cands);
    NoDupsPermutation(keys, sorted);
    DistinctOfNoDups(sorted);
    assert |sorted| == |keys| by {
      assert |multiset(sorted)| == |multiset(keys)|;
    }
    forall x ensures x in sorted <==> x in keys {
      assert x in sorted <==> x in multiset(sorted);
      assert x in keys <==> x in multiset(keys);
    }
  }

  lemma RankedCounts(cands: seq<string>)
    ensures Keyed(Ranked(cands), Frequencies(cands))
    ensures forall x :: x in Ranked(cands) ==> Frequencies(cands)[x] == Count(cands, x)
  {
    RankedProperties(cands);
    forall x | x in Ranked(cands) ensures Frequencies(cands)[x] == Count(cands, x) {
      FrequenciesCount(cands, x);
    }
  }

  /** The ranked topics: at most 20 distinct candidates, sorted by how often
      they occur, and no candidate left out occurs more often than one kept. */
  lemma RankTopicsProperties(cands: seq<string>)
    ensures NoDups(RankTopics(cands)) && |RankTopics(cands)| <= TopicCap
    ensures forall x :: x in RankTopics(cands) ==> x in cands
    ensures forall i, j :: 0 <= i < j < |RankTopics(cands)| ==>
      Count(cands, RankTopics(cands)[i]) >= Count(cands, RankTopics(cands)[j])
    ensures forall x, y :: x in cands && x !in RankTopics(cands) && y in RankTopics(cands) ==>
      Count(cands, y) >= Count(cands, x)
    ensures |Distinct(cands)| <= TopicCap ==> forall x :: x in cands ==> x in RankTopics(cands)
  {
    var sorted := Ranked(cands);
    RankedProperties(cands);
    RankedCounts(cands);
    TopPrefix(sorted, cands, Frequencies(cands), TopicCap);
  }

  /** The first `n` entries of a duplicate-free list sorted by count. */
  lemma TopPrefix(sorted: seq<string>, cands: seq<string>, freq: map<string, nat>, n: nat)
    requires NoDups(sorted) && Keyed(sorted, freq) && Descending(sorted, freq)
    requires forall x :: x in sorted ==> freq[x] == Count(cands, x)
    ensures NoDups(Cap(sorted, n)) && |Cap(sorted, n)| <= n
    ensures forall i, j :: 0 <= i < j < |Cap(sorted, n)| ==>
      Count(cands, Cap(sorted, n)[i]) >= Count(cands, Cap(sorted, n)[j])
    ensures forall x, y :: x in sorted && x !in Cap(sorted, n) && y in Cap(sorted, n) ==>
      Count(cands, y) >= Count(cands, x)
  {
    var r := Cap(sorted, n);
    forall i, j | 0 <= i < j < |r| ensures Count(cands, r[i]) >= Count(cands, r[j]) && r[i] != r[j] {
      assert r[i] == sorted[i] && r[j] == sorted[j];
    }
    forall x, y | x in sorted && x !in r && y in r ensures Count(cands, y) >= Count(cands, x) {
      var i :| 0 <= i < |r| && r[i] == y;
      var j :| 0 <= j < |sorted| && sorted[j] == x;
      assert sorted[i] == y;
      assert forall k :: 0 <= k < |r| ==> r[k] == sorted[k];
      assert i < j;
    }
  }

  /** Removing duplicates before or after the length filter gives the same
      concepts, so the pool holds the first 15 distinct candidates of the
      right length. */
  lemma ConceptsProperties(sentences: seq<string>, o: Oracles)
    ensures Concepts(sentences, o)
         == Cap(Distinct(Filter(ConceptCandidates(sentences, o), ConceptLength)), ConceptCap)
    ensures NoDups(Concepts(sentences, o)) && |Concepts(sentences, o)| <= ConceptCap
    ensures forall c :: c in Concepts(sentences, o) ==> ConceptLength(c) && c in ConceptCandidates(sentences, o)
  {
    var cands := ConceptCandidates(sentences, o);
    DistinctFilterCommute(cands, ConceptLength);
    CappedDistinct(Filter(cands, ConceptLength), ConceptCap);
  }

  lemma {:induction false} KeywordCopiesMember(lowered: string, keywords: seq<string>, parts: seq<string>, x: string)
    ensures x in KeywordCopies(lowered, keywords, parts)
        <==> x in parts && exists k :: k in keywords && Contains(lowered, k)
    decreases |keywords|
  {
    if keywords != [] {
      var ks := keywords[..|keywords| - 1];
      var k := keywords[|keywords| - 1];
      assert keywords == ks + [k];
      KeywordCopiesMember(lowered, ks, parts, x);
      if exists k' :: k' in ks && Contains(lowered, k') {
        var k' :| k' in ks && Contains(lowered, k');
        assert k' in keywords;
      }
      if exists k' :: k' in keywords && Contains(lowered, k') {
        var k' :| k' in keywords && Contains(lowered, k');
        if k' != k {
          assert k' in ks;
        }
      }
    }
  }

  /** Without the library, a concept candidate is exactly a trimmed clause
      (10 to 100 characters exclusive) of a sentence that mentions one of the
      concept keywords. */
  lemma FallbackConceptsMember(sentences: seq<string>, x: string)
    ensures x in FallbackConcepts(sentences)
        <==> exists i :: 0 <= i < |sentences| && x in ConceptParts(sentences[i])
                        && exists k :: k in ConceptKeywords && Contains(Lower(sentences[i]), k)
  {
    FlatMapMember(sentences, SentenceConcepts, x);
    forall i | 0 <= i < |sentences|
      ensures x in SentenceConcepts(sentences[i])
          <==> x in ConceptParts(sentences[i]) && exists k :: k in ConceptKeywords && Contains(Lower(sentences[i]), k)
    {
      KeywordCopiesMember(Lower(sentences[i]), ConceptKeywords, ConceptParts(sentences[i]), x);
    }
  }

  /** The skills pass fails exactly when a label pattern matches; otherwise
      it keeps at most 10 distinct trimmed clauses of 6 to 99 characters. */
  lemma SkillsProperties(lowered: string, o: Oracles)
    ensures Skills(lowered, o).Err? <==> LabelPatternMatches(lowered)
    ensures Skills(lowered, o).Err? ==> Skills(lowered, o).message == UndefinedTrim
    ensures Skills(lowered, o).Ok? ==>
      var r := Skills(lowered, o).value;
      NoDups(r) && |r| <= SkillCap
      && (forall x :: x in r ==> SkillLength(x) && x in Trims(o.skillClauses(lowered)))
  {
    CappedDistinct(Filter(Trims(o.skillClauses(lowered)), SkillLength), SkillCap);
  }

  /** A syllabus mentioning "skills: 0" makes the skills pass throw, whatever
      the other matchers report. */
  lemma SkillLabelThrows(o: Oracles)
    ensures Skills("core skills: 0 years", o) == Err(UndefinedTrim)
  {
    var s := "core skills: 0 years";
    assert StartsWith(s[5..], "skills");
    var t := s[11..];
    assert AllSpace(t[..0]) && StartsWith(t[0..], ": 0");
    assert LabelTail(t);
    assert "skills" in LabelWords;
  }

  /** Technologies are distinct words of the lower-cased text, each a listed
      keyword or longer than three characters, at most 15. */
  lemma TechnologiesProperties(lowered: string)
    ensures NoDups(Technologies(lowered)) && |Technologies(lowered)| <= TechnologyCap
    ensures forall w :: w in Technologies(lowered) ==>
      TechWord(w) && w in Split(Lower(lowered), IsNonWordChar)
      && forall k :: 0 <= k < |w| ==> IsWordChar(w[k])
  {
    var words := Split(Lower(lowered), IsNonWordChar);
    SplitPieces(Lower(lowered), IsNonWordChar);
    var kept := Filter(words, TechWord);
    CappedDistinct(kept, TechnologyCap);
    forall w | w in Technologies(lowered)
      ensures TechWord(w) && w in words && forall k :: 0 <= k < |w| ==> IsWordChar(w[k])
    {
      assert w in kept;
      var i :| 0 <= i < |words| && words[i] == w;
      forall k | 0 <= k < |w| ensures IsWordChar(w[k]) {
        assert !IsNonWordChar(words[i][k]);
      }
    }
  }

  /** The key points one sentence contributes. */
  predicate KeyPointOf(sentence: string, x: string, o: Oracles)
  {
    x == Trim(sentence) && 20 < |x| < 200 && (o.important(x) || o.definitional(x))
  }

  lemma KeyPointListMember(sentences: seq<string>, o: Oracles, x: string)
    ensures x in KeyPointList(sentences, o) <==> exists i :: 0 <= i < |sentences| && KeyPointOf(sentences[i], x, o)
  {
    FlatMapMember(sentences, KeyPointsOfSentence(o), x);
    forall i | 0 <= i < |sentences|
      ensures x in KeyPointsOfSentence(o)(sentences[i]) <==> KeyPointOf(sentences[i], x, o)
    {
      assert KeyPointsOfSentence(o)(sentences[i]) == SentenceKeyPoints(sentences[i], o);
      SentenceKeyPointsMember(sentences[i], o, x);
    }
  }

  lemma SentenceKeyPointsMember(sentence: string, o: Oracles, x: string)
    ensures x in SentenceKeyPoints(sentence, o) <==> KeyPointOf(sentence, x, o)
  {
    var t := Trim(sentence);
    if 20 < |t| < 200 {
      var a := if o.important(t) then [t] else [];
      var b := if o.definitional(t) then [t] else [];
      assert SentenceKeyPoints(sentence, o) == a + b;
      assert x in a + b <==> x in a || x in b;
    }
  }

  /** A key point is a trimmed sentence of 21 to 199 characters holding an
      importance word or a definition phrase; every such sentence is found
      when there are at most 12 of them. */
  lemma KeyPointsProperties(sentences: seq<string>, o: Oracles)
    ensures NoDups(KeyPoints(sentences, o)) && |KeyPoints(sentences, o)| <= KeyPointCap
    ensures forall x :: x in KeyPoints(sentences, o) ==>
      exists i :: 0 <= i < |sentences| && KeyPointOf(sentences[i], x, o)
    ensures |Distinct(KeyPointList(sentences, o))| <= KeyPointCap ==>
      forall i, x :: 0 <= i < |sentences| && KeyPointOf(sentences[i], x, o) ==> x in KeyPoints(sentences, o)
  {
    var l := KeyPointList(sentences, o);
    CappedDistinct(l, KeyPointCap);
    forall x | x in l
      ensures exists i :: 0 <= i < |sentences| && KeyPointOf(sentences[i], x, o)
    {
      KeyPointListMember(sentences, o, x);
    }
    forall i, x | 0 <= i < |sentences| && KeyPointOf(sentences[i], x, o)
      ensures x in l
    {
      KeyPointListMember(sentences, o, x);
    }
  }

  /** Names are distinct capitalised runs of 4 to 49 characters outside the
      stop list, at most 10. */
  lemma NamesProperties(text: string, o: Oracles)
    ensures NoDups(Names(text, o)) && |Names(text, o)| <= NameCap
    ensures forall n :: n in Names(text, o) ==> NameCandidate(n) && n in o.capitalised(text)
    ensures |Distinct(Filter(o.capitalised(text), NameCandidate))| <= NameCap ==>
      forall n :: n in o.capitalised(text) && NameCandidate(n) ==> n in Names(text, o)
  {
    CappedDistinct(Filter(o.capitalised(text), NameCandidate), NameCap);
  }

  lemma PlacesProperties(lowered: string, o: Oracles)
    ensures NoDups(Places(lowered, o)) && |Places(lowered, o)| <= PlaceCap
    ensures forall p :: p in Places(lowered, o) ==> PlaceFound(lowered, o, p)
    ensures |Distinct(PlaceMatches(lowered, o))| <= PlaceCap ==>
      forall p :: PlaceFound(lowered, o, p) ==> p in Places(lowered, o)
  {
    CappedDistinct(PlaceMatches(lowered, o), PlaceCap);
    forall p ensures p in PlaceMatches(lowered, o) <==> PlaceFound(lowered, o, p) {
      PlaceMatchMember(lowered, o, p);
    }
  }

  /** Some place keyword matches the phrase `p`. */
  predicate PlaceFound(lowered: string, o: Oracles, p: string)
  {
    exists k :: 0 <= k < |PlaceKeywords| && p in o.placeMatches(lowered, PlaceKeywords[k])
  }

  lemma PlaceMatchMember(lowered: string, o: Oracles, p: string)
    ensures p in PlaceMatches(lowered, o) <==> PlaceFound(lowered, o, p)
  {
    FlatMapMember(PlaceKeywords, PlaceMatchesOf(lowered, o), p);
  }

  /** A definition is a trimmed sentence of 16 to 199 characters that matches
      a definition pattern; at most 10, without duplicates. */
  lemma DefinitionsProperties(sentences: seq<string>, o: Oracles)
    ensures NoDups(Definitions(sentences, o)) && |Definitions(sentences, o)| <= DefinitionCap
    ensures forall x :: x in Definitions(sentences, o) ==>
      o.defines(x) && 15 < |x| < 200 && exists i :: 0 <= i < |sentences| && Trim(sentences[i]) == x
  {
    var l := DefinitionList(sentences, o);
    CappedDistinct(l, DefinitionCap);
    forall x | x in l
      ensures o.defines(x) && 15 < |x| < 200 && exists i :: 0 <= i < |sentences| && Trim(sentences[i]) == x
    {
      DefinitionListMember(sentences, o, x);
    }
  }

  lemma DefinitionListMember(sentences: seq<string>, o: Oracles, x: string)
    requires x in DefinitionList(sentences, o)
    ensures o.defines(x) && 15 < |x| < 200 && exists i :: 0 <= i < |sentences| && Trim(sentences[i]) == x
  {
    FlatMapMember(sentences, DefinitionOfSentence(o), x);
    var i :| 0 <= i < |sentences| && x in DefinitionOfSentence(o)(sentences[i]);
    assert DefinitionOfSentence(o)(sentences[i]) == SentenceDefinition(sentences[i], o);
    SentenceDefinitionMember(sentences[i], o, x);
  }

  lemma SentenceDefinitionMember(sentence: string, o: Oracles, x: string)
    requires x in SentenceDefinition(sentence, o)
    ensures x == Trim(sentence) && o.defines(x) && 15 < |x| < 200
  {
  }

  // ---------------------------------------------------------------------
  // One step of each pass's loop, stated on the prefix the loop has walked

  lemma FallbackTopicsPrefix(pieces: seq<string>, i: nat, o: Oracles)
    requires i < |pieces|
    ensures FallbackTopics(pieces[..i + 1], o) == FallbackTopics(pieces[..i], o) + SentenceTopics(pieces[i], o)
  {
    assert pieces[..i + 1] == pieces[..i] + [pieces[i]];
    FlatMapSnoc(pieces[..i], pieces[i], TopicsOfSentence(o));
  }

  lemma KeywordCopiesPrefix(lowered: string, keywords: seq<string>, j: nat, parts: seq<string>)
    requires j < |keywords|
    ensures KeywordCopies(lowered, keywords[..j + 1], parts)
         == KeywordCopies(lowered, keywords[..j], parts) + (if Contains(lowered, keywords[j]) then parts else [])
  {
    assert keywords[..j + 1][..j] == keywords[..j];
  }

  lemma KeywordCopiesWhole(lowered: string, keywords: seq<string>, parts: seq<string>)
    ensures KeywordCopies(lowered, keywords[..|keywords|], parts) == KeywordCopies(lowered, keywords, parts)
  {
    assert keywords[..|keywords|] == keywords;
  }

  lemma FallbackConceptsPrefix(sentences: seq<string>, i: nat)
    requires i < |sentences|
    ensures FallbackConcepts(sentences[..i + 1]) == FallbackConcepts(sentences[..i]) + SentenceConcepts(sentences[i])
  {
    assert sentences[..i + 1] == sentences[..i] + [sentences[i]];
    FlatMapSnoc(sentences[..i], sentences[i], SentenceConcepts);
  }

  /** Trimming one more clause and keeping it when it passes `keep`. */
  lemma TrimKeepPrefix(parts: seq<string>, i: nat, keep: string -> bool)
    requires i < |parts|
    ensures Filter(Trims(parts[..i + 1]), keep)
         == Filter(Trims(parts[..i]), keep) + (if keep(Trim(parts[i])) then [Trim(parts[i])] else [])
  {
    assert parts[..i + 1] == parts[..i] + [parts[i]];
    TrimsSnoc(parts[..i], parts[i]);
    FilterSnoc(Trims(parts[..i]), Trim(parts[i]), keep);
  }

  lemma KeyPointListPrefix(sentences: seq<string>, i: nat, o: Oracles)
    requires i < |sentences|
    ensures KeyPointList(sentences[..i + 1], o) == KeyPointList(sentences[..i], o) + SentenceKeyPoints(sentences[i], o)
  {
    assert sentences[..i + 1] == sentences[..i] + [sentences[i]];
    FlatMapSnoc(sentences[..i], sentences[i], KeyPointsOfSentence(o));
  }

  lemma DefinitionListPrefix(sentences: seq<string>, i: nat, o: Oracles)
    requires i < |sentences|
    ensures DefinitionList(sentences[..i + 1], o) == DefinitionList(sentences[..i], o) + SentenceDefinition(sentences[i], o)
  {
    assert sentences[..i + 1] == sentences[..i] + [sentences[i]];
    FlatMapSnoc(sentences[..i], sentences[i], DefinitionOfSentence(o));
  }

  /** Every pool is duplicate-free and within its cap. */
  predicate PoolsBounded(p: Pools)
  {
    NoDups(p.topics) && |p.topics| <= TopicCap
    && NoDups(p.concepts) && |p.concepts| <= ConceptCap
    && NoDups(p.skills) && |p.skills| <= SkillCap
    && NoDups(p.technologies) && |p.technologies| <= TechnologyCap
    && NoDups(p.keyPoints) && |p.keyPoints| <= KeyPointCap
    && NoDups(p.names) && |p.names| <= NameCap
    && NoDups(p.places) && |p.places| <= PlaceCap
    && NoDups(p.definitions) && |p.definitions| <= DefinitionCap
  }

  /** Extraction fails only through the skills pass, and otherwise yields
      duplicate-free pools within their caps. */
  lemma ExtractedProperties(text: string, o: Oracles)
    ensures Extracted(text, o).Err? <==> LabelPatternMatches(Lower(text))
    ensures Extracted(text, o).Ok? ==> PoolsBounded(Extracted(text, o).value)
  {
    var lowered := Lower(text);
    var sentences := SentencesOf(text);
    SkillsProperties(lowered, o);
    if Extracted(text, o).Ok? {
      RankTopicsProperties(TopicCandidates(text, o));
      ConceptsProperties(sentences, o);
      TechnologiesProperties(lowered);
      KeyPointsProperties(sentences, o);
      NamesProperties(text, o);
      PlacesProperties(lowered, o);
      DefinitionsProperties(sentences, o);
    }
  }
}
