/** The skill registry: a table of definitions with a derived metadata index, and retrieval over it. */
module SkillRegistry {
  import opened Options
  import opened SkillModel
  import opened Tokenizer
  import opened Relevance
  import opened Ranking

  type Skills = map<string, SkillDefinition>

  const DEFAULT_THRESHOLD := 0.3
  const DEFAULT_MAX_RESULTS := 5

  predicate Registrable(skill: SkillDefinition) {
    skill.metadata.identifier != "" && skill.metadata.displayName != ""
  }

  /** The table is keyed by the definitions' own identifiers. */
  ghost predicate KeyedByIdentifier(skills: Skills) {
    forall id | id in skills :: skills[id].metadata.identifier == id
  }

  /** One metadata record per table entry, and no others. */
  ghost predicate IndexAgrees(skills: Skills, index: seq<SkillMetadata>) {
    && |index| == |skills|
    && (forall i | 0 <= i < |index| ::
          index[i].identifier in skills && skills[index[i].identifier].metadata == index[i])
    && (forall i, j | 0 <= i < j < |index| :: index[i].identifier != index[j].identifier)
  }

  /** No table entry is missing from an index that agrees. */
  lemma EveryEntryIndexed(skills: Skills, index: seq<SkillMetadata>, id: string)
    requires IndexAgrees(skills, index) && id in skills
    ensures exists i | 0 <= i < |index| :: index[i].identifier == id
  {
    var ids := IndexedIds(index);
    assert ids <= skills.Keys;
    if id !in ids {
      SubsetSize(ids, skills.Keys - {id});
      assert false;
    }
  }

  lemma {:induction false} IndexedIds(index: seq<SkillMetadata>) returns (ids: set<string>)
    requires forall i, j | 0 <= i < j < |index| :: index[i].identifier != index[j].identifier
    ensures |ids| == |index|
    ensures forall id :: id in ids <==> exists i | 0 <= i < |index| :: index[i].identifier == id
  {
    ids := {};
    for i := 0 to |index|
      invariant |ids| == i
      invariant forall id :: id in ids <==> exists k | 0 <= k < i :: index[k].identifier == id
    {
      ids := ids + {index[i].identifier};
    }
  }

  lemma {:induction false} SubsetSize(a: set<string>, b: set<string>)
    requires a <= b
    ensures |a| <= |b|
  {
    if x :| x in a {
      SubsetSize(a - {x}, b - {x});
    }
  }

  /** The table after a reload: later duplicates win. */
  function Loaded(skills: seq<SkillDefinition>): Skills {
    if skills == [] then map[]
    else
      var last := skills[|skills| - 1];
      Loaded(skills[..|skills| - 1])[last.metadata.identifier := last]
  }

  /** The i-th definition is the last one given for its identifier. */
  ghost predicate GivenLast(skills: seq<SkillDefinition>, i: int, id: string) {
    && 0 <= i < |skills| && skills[i].metadata.identifier == id
    && forall j | i < j < |skills| :: skills[j].metadata.identifier != id
  }

  lemma GivenLastAfter(skills: seq<SkillDefinition>, next: SkillDefinition, i: int, id: string)
    requires GivenLast(skills, i, id) && next.metadata.identifier != id
    ensures GivenLast(skills + [next], i, id)
  {
  }

  /** A reloaded identifier holds the last definition given for it. */
  lemma {:induction false} LoadedMeaning(skills: seq<SkillDefinition>, id: string)
    ensures KeyedByIdentifier(Loaded(skills))
    ensures id in Loaded(skills) <==> exists i | 0 <= i < |skills| :: skills[i].metadata.identifier == id
    ensures id in Loaded(skills) ==> exists i :: GivenLast(skills, i, id) && skills[i] == Loaded(skills)[id]
  {
    if skills != [] {
      var front, last := skills[..|skills| - 1], skills[|skills| - 1];
      LoadedMeaning(front, id);
      assert skills == front + [last];
      if last.metadata.identifier == id {
        assert GivenLast(skills, |skills| - 1, id);
      } else if id in Loaded(front) {
        var i :| GivenLast(front, i, id) && front[i] == Loaded(front)[id];
        GivenLastAfter(front, last, i, id);
        assert skills[i] == front[i];
      } else {
        assert forall i | 0 <= i < |front| :: skills[i] == front[i];
      }
    }
  }

  /** The entries at or above the threshold, in index order. */
  function Qualifying(index: seq<SkillMetadata>, scores: seq<real>, threshold: real): Results
    requires |index| == |scores|
  {
    if index == [] then []
    else
      var n := |index| - 1;
      var front := Qualifying(index[..n], scores[..n], threshold);
      if scores[n] >= threshold then front + [RetrievalResult(index[n], scores[n])] else front
  }

  lemma {:induction false} QualifyingMembers(index: seq<SkillMetadata>, scores: seq<real>, threshold: real, r: RetrievalResult)
    requires |index| == |scores|
    ensures r in Qualifying(index, scores, threshold) <==>
      exists i | 0 <= i < |index| :: r == RetrievalResult(index[i], scores[i]) && scores[i] >= threshold
  {
    if index != [] {
      var n := |index| - 1;
      QualifyingMembers(index[..n], scores[..n], threshold, r);
    }
  }

  /** Candidates keep index order: those of the front, then those of the back. */
  lemma {:induction false} QualifyingJoin(index: seq<SkillMetadata>, scores: seq<real>, n: nat, threshold: real)
    requires |index| == |scores| && n <= |index|
    ensures Qualifying(index, scores, threshold) ==
      Qualifying(index[..n], scores[..n], threshold) + Qualifying(index[n..], scores[n..], threshold)
    ensures |index| == 1 ==>
      Qualifying(index, scores, threshold) == if scores[0] >= threshold then [RetrievalResult(index[0], scores[0])] else []
  {
    if n == |index| {
      assert index[..n] == index && scores[..n] == scores;
    } else {
      var m := |index| - 1;
      QualifyingJoin(index[..m], scores[..m], n, threshold);
      assert index[..m][..n] == index[..n] && scores[..m][..n] == scores[..n];
      assert index[..m][n..] == index[n..][..m - n] && scores[..m][n..] == scores[n..][..m - n];
    }
  }

  /** Each entry's score is one the query can give it. */
  ghost predicate AreScores(wide: Wide, ln: Ln, query: seq<string>, index: seq<SkillMetadata>, scores: seq<real>) {
    |scores| == |index| && forall i | 0 <= i < |index| :: IsScore(wide, ln, query, index[i], scores[i])
  }

  lemma OneMoreCandidate(wide: Wide, ln: Ln, query: seq<string>, index: seq<SkillMetadata>, scores: seq<real>,
                         threshold: real, i: nat, score: real)
    requires i < |index| && AreScores(wide, ln, query, index[..i], scores) && IsScore(wide, ln, query, index[i], score)
    ensures AreScores(wide, ln, query, index[..i + 1], scores + [score])
    ensures Qualifying(index[..i + 1], scores + [score], threshold) ==
      Qualifying(index[..i], scores, threshold) + if score >= threshold then [RetrievalResult(index[i], score)] else []
  {
    var more := scores + [score];
    assert index[..i + 1][..i] == index[..i] && more[..i] == scores;
    forall k | 0 <= k < i + 1
      ensures IsScore(wide, ln, query, index[..i + 1][k], more[k])
    {
      if k < i {
        assert IsScore(wide, ln, query, index[..i][k], scores[k]);
      }
    }
  }

  /** What a query may return: the top of the candidates, for scores that some walk orders give. */
  ghost predicate IsRetrieval(wide: Wide, ln: Ln, query: seq<string>, index: seq<SkillMetadata>, threshold: real, k: nat,
                              results: Results)
  {
    exists scores ::
      AreScores(wide, ln, query, index, scores) && results == Top(k, Qualifying(index, scores, threshold))
  }

  class Registry {
    var skills: Skills
    var metadataIndex: seq<SkillMetadata>
    const scoreThreshold: real
    const maxResults: nat
    const wide: Wide
    const ln: Ln

    ghost predicate Valid()
      reads this
    {
      KeyedByIdentifier(skills) && IndexAgrees(skills, metadataIndex)
    }

    constructor (wide: Wide, ln: Ln)
      ensures Valid() && skills == map[]
      ensures scoreThreshold == DEFAULT_THRESHOLD && maxResults == DEFAULT_MAX_RESULTS
      ensures this.wide == wide && this.ln == ln
    {
      skills, metadataIndex := map[], [];
      scoreThreshold, maxResults := DEFAULT_THRESHOLD, DEFAULT_MAX_RESULTS;
      this.wide, this.ln := wide, ln;
    }

    /** The table is walked in an arbitrary order. */
    method RebuildMetadataIndex()
      requires KeyedByIdentifier(skills)
      modifies this`metadataIndex
      ensures Valid()
    {
      var index: seq<SkillMetadata> := [];
      var remaining := skills.Keys;
      while remaining != {}
        invariant remaining <= skills.Keys && |index| + |remaining| == |skills|
        invariant forall i | 0 <= i < |index| :: index[i].identifier in skills.Keys - remaining
                                                && skills[index[i].identifier].metadata == index[i]
        invariant forall i, j | 0 <= i < j < |index| :: index[i].identifier != index[j].identifier
        decreases remaining
      {
        var id :| id in remaining;
        index := index + [skills[id].metadata];
        remaining := remaining - {id};
      }
      metadataIndex := index;
    }

    method RegisterSkill(skill: SkillDefinition) returns (ok: bool)
      requires Valid()
      modifies this
      ensures Valid()
      ensures ok <==> skill.metadata.identifier != "" && skill.metadata.displayName != ""
      ensures skills == if ok then old(skills)[skill.metadata.identifier := skill] else old(skills)
      ensures !ok ==> metadataIndex == old(metadataIndex)
    {
      if skill.metadata.identifier == "" {
        return false;
      }
      if skill.metadata.displayName == "" {
        return false;
      }
      skills := skills[skill.metadata.identifier := skill];
      RebuildMetadataIndex();
      ok := true;
    }

    method UnregisterSkill(id: string) returns (removed: bool)
      requires Valid()
      modifies this
      ensures Valid()
      ensures removed <==> id in old(skills)
      ensures skills == old(skills) - {id}
      ensures !removed ==> metadataIndex == old(metadataIndex)
    {
      if id !in skills {
        assert skills - {id} == skills;
        return false;
      }
      skills := skills - {id};
      RebuildMetadataIndex();
      removed := true;
    }

    /** All or nothing: one unusable definition leaves everything as it was. */
    method Reload(definitions: seq<SkillDefinition>) returns (ok: bool)
      requires Valid()
      modifies this
      ensures Valid()
      ensures ok <==> forall d | d in definitions :: d.metadata.identifier != "" && d.metadata.displayName != ""
      ensures skills == if ok then Loaded(definitions) else old(skills)
      ensures !ok ==> metadataIndex == old(metadataIndex)
    {
      var i := 0;
      while i < |definitions|
        invariant 0 <= i <= |definitions|
        invariant forall k | 0 <= k < i :: Registrable(definitions[k])
      {
        if !Registrable(definitions[i]) {
          return false;
        }
        i := i + 1;
      }
      var table: Skills := map[];
      i := 0;
      while i < |definitions|
        invariant 0 <= i <= |definitions|
        invariant table == Loaded(definitions[..i])
      {
        assert definitions[..i + 1][..i] == definitions[..i];
        table := table[definitions[i].metadata.identifier := definitions[i]];
        i := i + 1;
      }
      assert definitions[..i] == definitions;
      LoadedMeaning(definitions, "");
      skills := table;
      RebuildMetadataIndex();
      ok := true;
    }

    method GetSkill(id: string) returns (skill: Option<SkillDefinition>)
      ensures skill == if id in skills then Some(skills[id]) else None
    {
      skill := if id in skills then Some(skills[id]) else None;
    }

    /** What the registry may return for a query; nothing if the query has no tokens. */
    ghost predicate Answers(query: string, results: Results)
      reads this
    {
      var tokens := Tokens(wide, query);
      if tokens == [] then results == []
      else IsRetrieval(wide, ln, tokens, metadataIndex, scoreThreshold, maxResults, results)
    }

    method RetrieveSkills(query: string) returns (results: Results)
      ensures Answers(query, results)
    {
      var tokens := Tokenize(wide, query);
      if |tokens| == 0 {
        return [];
      }
      var found, scores := Candidates(tokens);
      results := Best(found);
    }

    /** Scores every entry and keeps those at or above the threshold, in index order. */
    method Candidates(tokens: seq<string>) returns (found: Results, ghost scores: seq<real>)
      ensures AreScores(wide, ln, tokens, metadataIndex, scores)
      ensures found == Qualifying(metadataIndex, scores, scoreThreshold)
    {
      found, scores := [], [];
      var i := 0;
      while i < |metadataIndex|
        invariant 0 <= i <= |metadataIndex|
        invariant AreScores(wide, ln, tokens, metadataIndex[..i], scores)
        invariant found == Qualifying(metadataIndex[..i], scores, scoreThreshold)
      {
        var score := ComputeRelevanceScore(wide, ln, tokens, metadataIndex[i]);
        OneMoreCandidate(wide, ln, tokens, metadataIndex, scores, scoreThreshold, i, score);
        scores := scores + [score];
        if score >= scoreThreshold {
          found := found + [RetrievalResult(metadataIndex[i], score)];
        }
        i := i + 1;
      }
      assert metadataIndex[..i] == metadataIndex;
    }

    /** Sorts a copy in place and cuts it. */
    method Best(found: Results) returns (results: Results)
      ensures results == Top(maxResults, found)
    {
      var slots := new RetrievalResult[|found|](k requires 0 <= k < |found| => found[k]);
      assert slots[..] == found;
      SortRetrievalResults(slots);
      results := if slots.Length > maxResults then slots[..maxResults] else slots[..];
    }

    /** The query is some registered skill's own text, and has tokens. */
    ghost predicate CanAnswer(query: string)
      reads this
    {
      && LogLike(ln) && scoreThreshold <= 1.0 && maxResults > 0 && Tokens(wide, query) != []
      && exists id | id in skills :: OwnText(skills[id].metadata, query)
    }

    /** In a serial run the best skill exists whenever anything is found. */
    method RetrieveBestSkill(query: string) returns (skill: Option<SkillDefinition>, ghost results: Results)
      requires Valid()
      ensures Answers(query, results)
      ensures skill.None? <==> results == []
      ensures CanAnswer(query) ==> skill.Some?
      ensures skill.Some? ==> skill.value.metadata == results[0].meta
      ensures skill.Some? ==>
        skill.value.metadata.identifier in skills && skills[skill.value.metadata.identifier] == skill.value
    {
      var found := RetrieveSkills(query);
      results := found;
      if CanAnswer(query) {
        var id :| id in skills && OwnText(skills[id].metadata, query);
        OwnTextIsAnswered(this, id, query, results);
      }
      if found == [] {
        return None, results;
      }
      ghost var scores :| AreScores(wide, ln, Tokens(wide, query), metadataIndex, scores)
                          && found == Top(maxResults, Qualifying(metadataIndex, scores, scoreThreshold));
      TopIsIndexed(metadataIndex, scores, scoreThreshold, maxResults, found[0]);
      skill := GetSkill(found[0].meta.identifier);
    }
  }

  // ----- What the registry answers -----

  /** Any answer to a query that has tokens: at most maxResults entries of the index, each with a score the
      query can give it and at or above the threshold, in descending order. */
  lemma AnswersAreScored(registry: Registry, query: string, results: Results)
    requires Tokens(registry.wide, query) != [] && registry.Answers(query, results)
    ensures IsRetrieval(registry.wide, registry.ln, Tokens(registry.wide, query), registry.metadataIndex,
                        registry.scoreThreshold, registry.maxResults, results)
    ensures |results| <= registry.maxResults && Descending(results)
    ensures forall r | r in results ::
      && r.meta in registry.metadataIndex && r.score >= registry.scoreThreshold
      && IsScore(registry.wide, registry.ln, Tokens(registry.wide, query), r.meta, r.score)
  {
    var index, tokens := registry.metadataIndex, Tokens(registry.wide, query);
    var scores :| AreScores(registry.wide, registry.ln, tokens, index, scores)
                  && results == Top(registry.maxResults, Qualifying(index, scores, registry.scoreThreshold));
    TopIsBest(registry.maxResults, Qualifying(index, scores, registry.scoreThreshold));
    forall r | r in results
      ensures && r.meta in index && r.score >= registry.scoreThreshold
              && IsScore(registry.wide, registry.ln, tokens, r.meta, r.score)
    {
      TopIsIndexed(index, scores, registry.scoreThreshold, registry.maxResults, r);
    }
  }

  /** Self-retrieval at the registry: queried with one of its own texts, a registered skill is in every answer
      with a score of at least 1, or the answer is full of skills that score at least as high. */
  lemma OwnTextIsAnswered(registry: Registry, id: string, text: string, results: Results)
    requires registry.Valid() && LogLike(registry.ln) && registry.scoreThreshold <= 1.0
    requires id in registry.skills && OwnText(registry.skills[id].metadata, text)
    requires Tokens(registry.wide, text) != [] && registry.Answers(text, results)
    ensures
      var meta := registry.skills[id].metadata;
      || (exists r: RetrievalResult :: r in results && r.meta == meta && r.score >= 1.0)
      || (|results| == registry.maxResults
          && exists score: real ::
               (score >= 1.0 && IsScore(registry.wide, registry.ln, Tokens(registry.wide, text), meta, score)
                && forall y: RetrievalResult | y in results :: y.score >= score))
    ensures registry.maxResults > 0 ==> results != []
  {
    EveryEntryIndexed(registry.skills, registry.metadataIndex, id);
    var i :| 0 <= i < |registry.metadataIndex| && registry.metadataIndex[i].identifier == id;
    SelfRetrieval(registry.wide, registry.ln, registry.metadataIndex, registry.scoreThreshold, registry.maxResults,
                  i, text, results);
  }

  lemma TopIsIndexed(index: seq<SkillMetadata>, scores: seq<real>, threshold: real, k: nat, r: RetrievalResult)
    requires |index| == |scores| && r in Top(k, Qualifying(index, scores, threshold))
    ensures exists i | 0 <= i < |index| :: index[i] == r.meta && scores[i] == r.score >= threshold
  {
    var qualifying := Qualifying(index, scores, threshold);
    TopIsBest(k, qualifying);
    assert r in multiset(Top(k, qualifying));
    assert r in multiset(qualifying);
    QualifyingMembers(index, scores, threshold, r);
  }

  /** Self-retrieval: queried with one of its own texts, an indexed skill is among the results with a score
      of at least 1, unless the results are full of skills that score at least 1 as well. */
  lemma SelfRetrieval(wide: Wide, ln: Ln, index: seq<SkillMetadata>, threshold: real, k: nat, i: nat, text: string,
                      results: Results)
    requires LogLike(ln) && threshold <= 1.0 && i < |index|
    requires OwnText(index[i], text) && Tokens(wide, text) != []
    requires IsRetrieval(wide, ln, Tokens(wide, text), index, threshold, k, results)
    ensures
      || (exists r: RetrievalResult :: r in results && r.meta == index[i] && r.score >= 1.0)
      || (|results| == k && exists score: real :: score >= 1.0 && IsScore(wide, ln, Tokens(wide, text), index[i], score)
                                                  && forall y: RetrievalResult | y in results :: y.score >= score)
  {
    var scores :| AreScores(wide, ln, Tokens(wide, text), index, scores)
                  && results == Top(k, Qualifying(index, scores, threshold));
    OwnTextScoresOne(wide, ln, index[i], text, scores[i]);
    OwnResultOrFull(index, scores, threshold, k, i);
  }

  /** A qualifying entry is returned, or the results are full of entries that score at least as high. */
  lemma OwnResultOrFull(index: seq<SkillMetadata>, scores: seq<real>, threshold: real, k: nat, i: nat)
    requires |index| == |scores| && i < |index| && scores[i] >= threshold
    ensures var top := Top(k, Qualifying(index, scores, threshold));
      || RetrievalResult(index[i], scores[i]) in top
      || (|top| == k && forall y | y in top :: y.score >= scores[i])
  {
    var qualifying, r := Qualifying(index, scores, threshold), RetrievalResult(index[i], scores[i]);
    QualifyingMembers(index, scores, threshold, r);
    TopIsBest(k, qualifying);
    var top := Top(k, qualifying);
    if r !in top {
      assert multiset(top)[r] == 0 < multiset(qualifying)[r];
      if |top| == |qualifying| {
        RankedPermutes(qualifying);
        assert r in multiset(Ranked(qualifying));
      }
    }
  }
}
