/** The extraction passes as the generator runs them: each walks its matches
    or sentences once, pushing the candidates it keeps onto a local list, and
    then removes duplicates and cuts the list to its cap.  Each method is
    proved to compute the corresponding function of `Extraction`. */
module ExtractionPasses {
  import opened Outcomes
  import opened Text
  import opened Collections
  import opened Ranking
  import opened Extraction

  /** Keeps the elements of `items` that pass `keep`, in order. */
  method Gather(items: seq<string>, keep: string -> bool) returns (acc: seq<string>)
    ensures acc == Filter(items, keep)
  {
    acc := [];
    var i := 0;
    while i < |items|
      invariant 0 <= i <= |items|
      invariant acc == Filter(items[..i], keep)
    {
      FilterPrefix(items, i, keep);
      if keep(items[i]) {
        acc := acc + [items[i]];
      }
      i := i + 1;
    }
    assert items[..i] == items;
  }

  /** Trims every element of `items` and keeps the results that pass `keep`. */
  method GatherTrimmed(items: seq<string>, keep: string -> bool) returns (acc: seq<string>)
    ensures acc == Filter(Trims(items), keep)
  {
    acc := [];
    var i := 0;
    while i < |items|
      invariant 0 <= i <= |items|
      invariant acc == Filter(Trims(items[..i]), keep)
    {
      var t := Trim(items[i]);
      TrimKeepPrefix(items, i, keep);
      if keep(t) {
        acc := acc + [t];
      }
      i := i + 1;
    }
    assert items[..i] == items;
  }

  /** The fallback topic loop: every sentence piece of 11 to 149 characters
      after trimming contributes its capitalised phrases of 6 to 49 characters. */
  method GatherFallbackTopics(pieces: seq<string>, o: Oracles) returns (acc: seq<string>)
    ensures acc == FallbackTopics(pieces, o)
  {
    acc := [];
    var i := 0;
    while i < |pieces|
      invariant 0 <= i <= |pieces|
      invariant acc == FallbackTopics(pieces[..i], o)
    {
      var t := Trim(pieces[i]);
      var found: seq<string> := [];
      if 10 < |t| < 150 {
        found := Gather(o.capitalised(t), TopicPhrase);
      }
      FallbackTopicsPrefix(pieces, i, o);
      acc := acc + found;
      i := i + 1;
    }
    assert pieces[..i] == pieces;
  }

  /** The frequency loop: the table and its keys in insertion order. */
  method CountFrequencies(cands: seq<string>) returns (freq: map<string, nat>, keys: seq<string>)
    ensures freq == Frequencies(cands)
    ensures keys == Distinct(cands)
  {
    freq := map[];
    keys := [];
    var i := 0;
    while i < |cands|
      invariant 0 <= i <= |cands|
      invariant freq == Frequencies(cands[..i])
      invariant keys == Distinct(cands[..i])
    {
      var t := cands[i];
      FrequenciesPrefix(cands, i);
      if t !in freq {
        keys := keys + [t];
      }
      freq := freq[t := (if t in freq then freq[t] else 0) + 1];
      i := i + 1;
    }
    assert cands[..i] == cands;
  }

  method ExtractTopics(text: string, o: Oracles) returns (topics: seq<string>)
    ensures topics == Topics(text, o)
  {
    var cands: seq<string>;
    match o.nouns(text) {
      case Some(t) =>
        cands := t;
      case None =>
        cands := GatherFallbackTopics(Split(text, IsSentenceEnd), o);
    }
    var freq, keys := CountFrequencies(cands);
    topics := Cap(Distinct(SortDesc(keys, freq)), TopicCap);
  }

  /** The keyword loop for one sentence: its clauses once for every keyword
      the lower-cased sentence contains. */
  method GatherKeywordCopies(sentence: string, keywords: seq<string>) returns (acc: seq<string>)
    ensures acc == KeywordCopies(Lower(sentence), keywords, ConceptParts(sentence))
  {
    var lowered := Lower(sentence);
    acc := [];
    var j := 0;
    while j < |keywords|
      invariant 0 <= j <= |keywords|
      invariant acc == KeywordCopies(lowered, keywords[..j], ConceptParts(sentence))
    {
      KeywordCopiesPrefix(lowered, keywords, j, ConceptParts(sentence));
      if Contains(lowered, keywords[j]) {
        var parts := GatherTrimmed(Split(sentence, IsClauseSep), ConceptPart);
        acc := acc + parts;
      }
      j := j + 1;
    }
    KeywordCopiesWhole(lowered, keywords, ConceptParts(sentence));
  }

  /** The concept copies of one sentence. */
  method GatherSentenceConcepts(sentence: string) returns (found: seq<string>)
    ensures found == SentenceConcepts(sentence)
  {
    found := GatherKeywordCopies(sentence, ConceptKeywords);
  }

  /** The fallback concept loop, sentence by sentence. */
  method GatherFallbackConcepts(sentences: seq<string>) returns (acc: seq<string>)
    ensures acc == FallbackConcepts(sentences)
  {
    acc := [];
    var i := 0;
    while i < |sentences|
      invariant 0 <= i <= |sentences|
      invariant acc == FallbackConcepts(sentences[..i])
    {
      var found := GatherSentenceConcepts(sentences[i]);
      FallbackConceptsPrefix(sentences, i);
      acc := acc + found;
      i := i + 1;
    }
    assert sentences[..i] == sentences;
  }

  method ExtractConcepts(sentences: seq<string>, o: Oracles) returns (concepts: seq<string>)
    ensures concepts == Concepts(sentences, o)
  {
    var cands: seq<string>;
    match o.nounsAndVerbs(Join(sentences, ". ")) {
      case Some(c) =>
        cands := c;
      case None =>
        cands := GatherFallbackConcepts(sentences);
    }
    concepts := Cap(Filter(Distinct(cands), ConceptLength), ConceptCap);
  }

  /** The skill loop over the clause matches; a label-pattern match throws first. */
  method ExtractSkills(lowered: string, o: Oracles) returns (skills: Result<seq<string>>)
    ensures skills == Skills(lowered, o)
  {
    if LabelPatternMatches(lowered) {
      return Err(UndefinedTrim);
    }
    var acc := GatherTrimmed(o.skillClauses(lowered), SkillLength);
    skills := Ok(Cap(Distinct(acc), SkillCap));
  }

  method ExtractTechnologies(lowered: string) returns (technologies: seq<string>)
    ensures technologies == Technologies(lowered)
  {
    var words := Split(Lower(lowered), IsNonWordChar);
    var acc := Gather(words, TechWord);
    technologies := Cap(Distinct(acc), TechnologyCap);
  }

  method ExtractKeyPoints(sentences: seq<string>, o: Oracles) returns (keyPoints: seq<string>)
    ensures keyPoints == KeyPoints(sentences, o)
  {
    var acc := [];
    var i := 0;
    while i < |sentences|
      invariant 0 <= i <= |sentences|
      invariant acc == KeyPointList(sentences[..i], o)
    {
      var t := Trim(sentences[i]);
      KeyPointListPrefix(sentences, i, o);
      if 20 < |t| < 200 {
        if o.important(t) {
          acc := acc + [t];
        }
        if o.definitional(t) {
          acc := acc + [t];
        }
      }
      i := i + 1;
    }
    assert sentences[..i] == sentences;
    keyPoints := Cap(Distinct(acc), KeyPointCap);
  }

  method ExtractNames(text: string, o: Oracles) returns (names: seq<string>)
    ensures names == Names(text, o)
  {
    var acc := Gather(o.capitalised(text), NameCandidate);
    names := Cap(Distinct(acc), NameCap);
  }

  /** The place loop pushes, keyword by keyword, every phrase that keyword matches. */
  method ExtractPlaces(lowered: string, o: Oracles) returns (places: seq<string>)
    ensures places == Places(lowered, o)
  {
    var acc := [];
    var i := 0;
    while i < |PlaceKeywords|
      invariant 0 <= i <= |PlaceKeywords|
      invariant acc == FlatMap(PlaceKeywords[..i], PlaceMatchesOf(lowered, o))
    {
      PlaceKeywordStep(lowered, o, i);
      acc := acc + o.placeMatches(lowered, PlaceKeywords[i]);
      i := i + 1;
    }
    assert PlaceKeywords[..i] == PlaceKeywords;
    places := Cap(Distinct(acc), PlaceCap);
  }

  lemma PlaceKeywordStep(lowered: string, o: Oracles, i: nat)
    requires i < |PlaceKeywords|
    ensures FlatMap(PlaceKeywords[..i + 1], PlaceMatchesOf(lowered, o))
         == FlatMap(PlaceKeywords[..i], PlaceMatchesOf(lowered, o)) + o.placeMatches(lowered, PlaceKeywords[i])
  {
    assert PlaceKeywords[..i + 1] == PlaceKeywords[..i] + [PlaceKeywords[i]];
    FlatMapSnoc(PlaceKeywords[..i], PlaceKeywords[i], PlaceMatchesOf(lowered, o));
  }

  method ExtractDefinitions(sentences: seq<string>, o: Oracles) returns (definitions: seq<string>)
    ensures definitions == Definitions(sentences, o)
  {
    var acc := [];
    var i := 0;
    while i < |sentences|
      invariant 0 <= i <= |sentences|
      invariant acc == DefinitionList(sentences[..i], o)
    {
      var t := Trim(sentences[i]);
      DefinitionListPrefix(sentences, i, o);
      if o.defines(t) && 15 < |t| < 200 {
        acc := acc + [t];
      }
      i := i + 1;
    }
    assert sentences[..i] == sentences;
    definitions := Cap(Distinct(acc), DefinitionCap);
  }

  /** All eight passes over one syllabus, in the generator's order. */
  method ExtractContent(text: string, o: Oracles) returns (r: Result<Pools>)
    ensures r == Extracted(text, o)
    ensures r.Ok? ==> PoolsBounded(r.value)
  {
    ExtractedProperties(text, o);
    var lowered := Lower(text);
    var sentences := SentencesOf(text);
    var topics := ExtractTopics(text, o);
    var concepts := ExtractConcepts(sentences, o);
    var skills := ExtractSkills(lowered, o);
    if skills.Err? {
      return Err(skills.message);
    }
    var technologies := ExtractTechnologies(lowered);
    var keyPoints := ExtractKeyPoints(sentences, o);
    var names := ExtractNames(text, o);
    var places := ExtractPlaces(lowered, o);
    var definitions := ExtractDefinitions(sentences, o);
    r := Ok(Pools(topics, concepts, skills.value, technologies, keyPoints, names, places, definitions));
  }
}
