/** Scoring a skill against a query: coverage of the query's tokens plus frequency weights.
    Scores are real numbers; `ln` is any function with the properties LogLike asks for. */
module Relevance {
  import opened Options
  import opened Text
  import opened Tokenizer
  import opened SkillModel

  type Ln = nat -> real

  ghost predicate LogLike(ln: Ln) {
    ln(1) == 0.0 && forall a: nat, b: nat | 1 <= a <= b :: ln(a) <= ln(b)
  }

  function SearchFields(meta: SkillMetadata): seq<string> {
    [meta.displayName, meta.description, meta.category, Join(meta.keywords, " ")]
  }

  function SearchTokens(wide: Wide, meta: SkillMetadata): seq<string> {
    Tokens(wide, ToLower(Join(SearchFields(meta), " ")))
  }

  predicate Related(a: string, b: string) {
    Contains(a, b) || Contains(b, a)
  }

  predicate RelatedToSome(tokens: seq<string>, q: string) {
    exists t | t in tokens :: Related(t, q)
  }

  predicate Matches(tokens: seq<string>, q: string) {
    q in tokens || RelatedToSome(tokens, q)
  }

  function ExactWeight(ln: Ln, tokens: seq<string>, t: string): real {
    1.0 + ln(multiset(tokens)[t])
  }

  /** A partial match weighs half as much, for whichever related search token was met first. */
  ghost predicate IsPartialWeight(ln: Ln, tokens: seq<string>, q: string, w: real) {
    exists t | t in tokens && Related(t, q) :: w == 0.5 * ExactWeight(ln, tokens, t)
  }

  ghost predicate IsWeight(ln: Ln, tokens: seq<string>, q: string, w: real) {
    if q in tokens then w == ExactWeight(ln, tokens, q)
    else if RelatedToSome(tokens, q) then IsPartialWeight(ln, tokens, q, w)
    else w == 0.0
  }

  function Sum(weights: seq<real>): real {
    if weights == [] then 0.0 else Sum(weights[..|weights| - 1]) + weights[|weights| - 1]
  }

  function Exact(tokens: seq<string>, query: seq<string>): nat {
    if query == [] then 0
    else Exact(tokens, query[..|query| - 1]) + if query[|query| - 1] in tokens then 1 else 0
  }

  function Matched(tokens: seq<string>, query: seq<string>): nat {
    if query == [] then 0
    else Matched(tokens, query[..|query| - 1]) + if Matches(tokens, query[|query| - 1]) then 1 else 0
  }

  /** Six parts coverage, four parts average weight; nothing for a query without a match. */
  function Combined(matched: nat, weight: real, n: nat): real {
    if matched == 0 || n == 0 then 0.0
    else matched as real / n as real * 0.6 + weight / n as real * 0.4
  }

  /** The score that results when query token i was given weights[i]. */
  ghost predicate ScoredBy(ln: Ln, tokens: seq<string>, query: seq<string>, weights: seq<real>, score: real) {
    && |weights| == |query|
    && (forall i | 0 <= i < |query| :: IsWeight(ln, tokens, query[i], weights[i]))
    && score == Combined(Matched(tokens, query), Sum(weights), |query|)
  }

  /** A score some iteration order of the frequency table gives. */
  ghost predicate IsScore(wide: Wide, ln: Ln, query: seq<string>, meta: SkillMetadata, score: real) {
    exists weights :: ScoredBy(ln, SearchTokens(wide, meta), query, weights, score)
  }

  // ----- The computation -----

  method CountTokens(tokens: seq<string>) returns (frequency: map<string, nat>)
    ensures forall t :: t in frequency <==> t in tokens
    ensures forall t | t in frequency :: frequency[t] == multiset(tokens)[t]
  {
    frequency := map[];
    var i := 0;
    while i < |tokens|
      invariant 0 <= i <= |tokens|
      invariant forall t :: t in frequency <==> t in tokens[..i]
      invariant forall t | t in frequency :: frequency[t] == multiset(tokens[..i])[t]
    {
      var t := tokens[i];
      assert tokens[..i + 1] == tokens[..i] + [t];
      frequency := frequency[t := (if t in frequency then frequency[t] else 0) + 1];
      i := i + 1;
    }
    assert tokens[..i] == tokens;
  }

  /** Walks the frequency table in an arbitrary order and stops at the first related token. */
  method FindRelated(frequency: map<string, nat>, q: string) returns (found: Option<string>)
    ensures found.Some? ==> found.value in frequency && Related(found.value, q)
    ensures found.None? ==> forall t | t in frequency :: !Related(t, q)
  {
    var remaining := frequency.Keys;
    while remaining != {}
      invariant remaining <= frequency.Keys
      invariant forall t | t in frequency && t !in remaining :: !Related(t, q)
      decreases remaining
    {
      var t :| t in remaining;
      if Contains(t, q) || Contains(q, t) {
        return Some(t);
      }
      remaining := remaining - {t};
    }
    found := None;
  }

  /** One query token: an exact match, else the first related search token met, else nothing. */
  method WeightOf(ln: Ln, ghost tokens: seq<string>, frequency: map<string, nat>, q: string)
    returns (hit: bool, weight: real)
    requires forall t :: t in frequency <==> t in tokens
    requires forall t | t in frequency :: frequency[t] == multiset(tokens)[t]
    ensures hit <==> Matches(tokens, q)
    ensures IsWeight(ln, tokens, q, weight)
  {
    if q in frequency {
      return true, 1.0 + ln(frequency[q]);
    }
    var found := FindRelated(frequency, q);
    if found.Some? {
      hit, weight := true, 0.5 * (1.0 + ln(frequency[found.value]));
    } else {
      hit, weight := false, 0.0;
    }
  }

  method ComputeRelevanceScore(wide: Wide, ln: Ln, query: seq<string>, meta: SkillMetadata) returns (score: real)
    ensures IsScore(wide, ln, query, meta, score)
  {
    var tokens := Tokenize(wide, ToLower(Join(SearchFields(meta), " ")));
    var frequency := CountTokens(tokens);
    var matched, total, weights := WeighQuery(ln, tokens, frequency, query);
    score := Combined(matched, total, |query|);
    assert tokens == SearchTokens(wide, meta);
    assert ScoredBy(ln, SearchTokens(wide, meta), query, weights, score);
  }

  /** One pass over the query: how many tokens match, and what they weigh. */
  method WeighQuery(ln: Ln, ghost tokens: seq<string>, frequency: map<string, nat>, query: seq<string>)
    returns (matched: nat, total: real, ghost weights: seq<real>)
    requires forall t :: t in frequency <==> t in tokens
    requires forall t | t in frequency :: frequency[t] == multiset(tokens)[t]
    ensures matched == Matched(tokens, query)
    ensures |weights| == |query| && total == Sum(weights)
    ensures forall k | 0 <= k < |query| :: IsWeight(ln, tokens, query[k], weights[k])
  {
    matched, total, weights := 0, 0.0, [];
    var i := 0;
    while i < |query|
      invariant 0 <= i <= |query| && |weights| == i
      invariant forall k | 0 <= k < i :: IsWeight(ln, tokens, query[k], weights[k])
      invariant matched == Matched(tokens, query[..i]) && total == Sum(weights)
    {
      assert query[..i + 1][..i] == query[..i];
      var hit, weight := WeightOf(ln, tokens, frequency, query[i]);
      if hit {
        matched := matched + 1;
      }
      assert (weights + [weight])[..i] == weights;
      total := total + weight;
      weights := weights + [weight];
      i := i + 1;
    }
    assert query[..i] == query;
  }

  // ----- Bounds, whatever the iteration order -----

  lemma {:induction false} FrequencyBounds(tokens: seq<string>, t: string)
    requires t in tokens
    ensures 1 <= multiset(tokens)[t] <= |tokens|
  {
    var others := multiset(tokens)[t := 0];
    assert multiset(tokens) == others + multiset{}[t := multiset(tokens)[t]];
    assert |multiset(tokens)| == |tokens|;
  }

  lemma WeightBounds(ln: Ln, tokens: seq<string>, q: string, w: real)
    requires LogLike(ln) && IsWeight(ln, tokens, q, w)
    ensures q in tokens ==> 1.0 <= w
    ensures Matches(tokens, q) ==> 0.5 <= w <= 1.0 + ln(|tokens|) && 0.0 <= ln(|tokens|)
    ensures !Matches(tokens, q) ==> w == 0.0
  {
    if q in tokens {
      FrequencyBounds(tokens, q);
    } else if RelatedToSome(tokens, q) {
      var t :| t in tokens && Related(t, q) && w == 0.5 * ExactWeight(ln, tokens, t);
      FrequencyBounds(tokens, t);
    }
  }

  lemma {:induction false} SumAtLeast(ln: Ln, tokens: seq<string>, query: seq<string>, weights: seq<real>)
    requires LogLike(ln) && |weights| == |query|
    requires forall i | 0 <= i < |query| :: IsWeight(ln, tokens, query[i], weights[i])
    ensures Exact(tokens, query) <= Matched(tokens, query) <= |query|
    ensures 0.5 * Exact(tokens, query) as real + 0.5 * Matched(tokens, query) as real <= Sum(weights)
  {
    if query != [] {
      var n := |query| - 1;
      SumAtLeast(ln, tokens, query[..n], weights[..n]);
      WeightBounds(ln, tokens, query[n], weights[n]);
    }
  }

  function Repeated(n: nat, u: real): real {
    if n == 0 then 0.0 else Repeated(n - 1, u) + u
  }

  lemma {:induction false} RepeatedIsProduct(n: nat, u: real)
    ensures Repeated(n, u) == n as real * u
  {
    if n > 0 {
      RepeatedIsProduct(n - 1, u);
      assert n as real * u == (n - 1) as real * u + u;
    }
  }

  lemma {:induction false} SumAtMost(ln: Ln, tokens: seq<string>, query: seq<string>, weights: seq<real>)
    requires LogLike(ln) && |weights| == |query|
    requires forall i | 0 <= i < |query| :: IsWeight(ln, tokens, query[i], weights[i])
    ensures Sum(weights) <= Repeated(Matched(tokens, query), 1.0 + ln(|tokens|))
  {
    if query != [] {
      var n := |query| - 1;
      SumAtMost(ln, tokens, query[..n], weights[..n]);
      WeightBounds(ln, tokens, query[n], weights[n]);
    }
  }

  lemma DivideBoth(a: real, b: real, n: real)
    requires a <= b && n > 0.0
    ensures a / n <= b / n
  {
  }

  lemma LowerBound(e: real, m: real, w: real, n: real)
    requires n > 0.0 && 0.5 * e + 0.5 * m <= w
    ensures (e + 0.8 * (m - e)) / n <= m / n * 0.6 + w / n * 0.4
  {
    DivideBoth(e + 0.8 * (m - e), 0.6 * m + 0.4 * w, n);
    assert (0.6 * m + 0.4 * w) / n == m / n * 0.6 + w / n * 0.4;
  }

  lemma UpperBound(m: real, w: real, l: real, n: real)
    requires n > 0.0 && w <= m * (1.0 + l)
    ensures m / n * 0.6 + w / n * 0.4 <= m / n * (1.0 + 0.4 * l)
  {
    DivideBoth(w, m * (1.0 + l), n);
    assert m * (1.0 + l) / n == m / n * (1.0 + l);
  }

  function Ceiling(matched: nat, n: nat, l: real): real
    requires n > 0
  {
    matched as real / n as real * (1.0 + 0.4 * l)
  }

  lemma CombinedAtMost(matched: nat, w: real, l: real, n: nat)
    requires n > 0 && w <= Repeated(matched, 1.0 + l)
    ensures Combined(matched, w, n) <= Ceiling(matched, n, l)
  {
    if matched > 0 {
      RepeatedIsProduct(matched, 1.0 + l);
      UpperBound(matched as real, w, l, n as real);
    }
  }

  /** With e exact matches and p partial ones among n query tokens, every score is at least
      (e + 0.8 p)/n, whatever order the frequency table is walked in. */
  lemma ScoreAtLeast(ln: Ln, tokens: seq<string>, query: seq<string>, weights: seq<real>, score: real)
    requires LogLike(ln) && query != [] && ScoredBy(ln, tokens, query, weights, score)
    ensures Exact(tokens, query) <= Matched(tokens, query)
    ensures var e, p := Exact(tokens, query) as real, (Matched(tokens, query) - Exact(tokens, query)) as real;
      (e + 0.8 * p) / |query| as real <= score
  {
    SumAtLeast(ln, tokens, query, weights);
    if Matched(tokens, query) > 0 {
      LowerBound(Exact(tokens, query) as real, Matched(tokens, query) as real, Sum(weights), |query| as real);
    }
  }

  /** With N search tokens every score is at most (matched/n) * (1 + 0.4 ln N), in every order. */
  lemma ScoreAtMost(ln: Ln, tokens: seq<string>, query: seq<string>, weights: seq<real>, score: real)
    requires LogLike(ln) && query != [] && ScoredBy(ln, tokens, query, weights, score)
    ensures score <= Ceiling(Matched(tokens, query), |query|, ln(|tokens|))
  {
    SumAtMost(ln, tokens, query, weights);
    CombinedAtMost(Matched(tokens, query), Sum(weights), ln(|tokens|), |query|);
  }

  /** A score is never negative, and zero exactly when no query token matches. */
  lemma ScoreZeroIff(ln: Ln, tokens: seq<string>, query: seq<string>, weights: seq<real>, score: real)
    requires LogLike(ln) && query != [] && ScoredBy(ln, tokens, query, weights, score)
    ensures score >= 0.0
    ensures score == 0.0 <==> forall i | 0 <= i < |query| :: !Matches(tokens, query[i])
  {
    MatchedZeroIff(tokens, query);
    if Matched(tokens, query) > 0 {
      ScoreAtLeast(ln, tokens, query, weights, score);
      PositiveQuotient(Exact(tokens, query) as real, Matched(tokens, query) as real, |query| as real);
    }
  }

  lemma PositiveQuotient(e: real, m: real, n: real)
    requires 0.0 <= e <= m && 1.0 <= m && n > 0.0
    ensures (e + 0.8 * (m - e)) / n > 0.0
  {
  }

  lemma {:induction false} MatchedZeroIff(tokens: seq<string>, query: seq<string>)
    ensures Matched(tokens, query) == 0 <==> forall i | 0 <= i < |query| :: !Matches(tokens, query[i])
  {
    if query != [] {
      var front := query[..|query| - 1];
      MatchedZeroIff(tokens, front);
      assert forall i | 0 <= i < |front| :: query[i] == front[i];
    }
  }

  // ----- What matches, and what a match is worth -----

  /** Containment spelled out. */
  lemma ContainsIff(s: string, part: string)
    ensures Contains(s, part) <==> exists before, after :: s == before + part + after
  {
    if Contains(s, part) {
      var i: nat :| i <= |s| && OccursAt(s, part, i);
      assert s == s[..i] + part + s[i + |part|..];
    }
    if before, after :| s == before + part + after {
      assert OccursAt(s, part, |before|);
    }
  }

  /** A query token matches exactly when it extends, or is contained in, some search token. */
  lemma MatchesIff(tokens: seq<string>, q: string)
    ensures Matches(tokens, q) <==>
      exists t | t in tokens :: exists before, after :: t == before + q + after || q == before + t + after
  {
    forall t | t in tokens
      ensures Related(t, q) <==> exists before, after :: t == before + q + after || q == before + t + after
    {
      ContainsIff(t, q);
      ContainsIff(q, t);
    }
    if q in tokens {
      assert q == "" + q + "";
    }
  }

  /** One query token that is itself a search token: its score grows with its number of occurrences. */
  lemma ExactTokenScore(ln: Ln, tokens: seq<string>, q: string, weights: seq<real>, score: real)
    requires ScoredBy(ln, tokens, [q], weights, score) && q in tokens
    ensures score == 1.0 + 0.4 * ln(multiset(tokens)[q])
  {
    OneWeight(tokens, q, weights);
  }

  /** One query token that is only related to search tokens: half the weight of one of those. */
  lemma PartialTokenScore(ln: Ln, tokens: seq<string>, q: string, weights: seq<real>, score: real)
    requires ScoredBy(ln, tokens, [q], weights, score) && q !in tokens && Matches(tokens, q)
    ensures exists t | t in tokens && Related(t, q) :: score == 0.8 + 0.2 * ln(multiset(tokens)[t])
  {
    OneWeight(tokens, q, weights);
    var t :| t in tokens && Related(t, q) && weights[0] == 0.5 * ExactWeight(ln, tokens, t);
  }

  lemma OneWeight(tokens: seq<string>, q: string, weights: seq<real>)
    requires |weights| == 1
    ensures Sum(weights) == weights[0] && Matched(tokens, [q]) == if Matches(tokens, q) then 1 else 0
  {
    assert weights[..0] == [] && [q][..0] == [];
  }

  // ----- A skill is found by its own words -----

  /** The query is one of the skill's own texts. */
  predicate OwnText(meta: SkillMetadata, text: string) {
    text == meta.displayName || text == meta.description || text == meta.category || text in meta.keywords
  }

  function KeywordTokens(wide: Wide, keywords: seq<string>): seq<string> {
    if keywords == [] then [] else Tokens(wide, keywords[0]) + KeywordTokens(wide, keywords[1..])
  }

  lemma {:induction false} TokensOfKeywords(wide: Wide, keywords: seq<string>)
    ensures Tokens(wide, Join(keywords, " ")) == KeywordTokens(wide, keywords)
  {
    if |keywords| == 1 {
      assert keywords[1..] == [];
      assert Tokens(wide, keywords[0]) + [] == Tokens(wide, keywords[0]);
    } else if |keywords| > 1 {
      TokensOfKeywords(wide, keywords[1..]);
      TokensJoin(wide, keywords[0], Join(keywords[1..], " "));
    }
  }

  /** The search tokens are those of name, description, category and every keyword, in this order, and
      nothing else. */
  lemma SearchTokensAre(wide: Wide, meta: SkillMetadata)
    ensures SearchTokens(wide, meta) ==
      Tokens(wide, meta.displayName) + Tokens(wide, meta.description) + Tokens(wide, meta.category) +
      KeywordTokens(wide, meta.keywords)
  {
    var name, description, category, keywords := meta.displayName, meta.description, meta.category, Join(meta.keywords, " ");
    var fields := SearchFields(meta);
    TokensIgnoreCase(wide, Join(fields, " "));
    TokensJoin(wide, category, keywords);
    TokensJoin(wide, description, category + " " + keywords);
    TokensJoin(wide, name, description + " " + (category + " " + keywords));
    TokensOfKeywords(wide, meta.keywords);
    JoinFour(name, description, category, keywords);
  }

  lemma JoinFour(a: string, b: string, c: string, d: string)
    ensures Join([a, b, c, d], " ") == a + " " + (b + " " + (c + " " + d))
  {
    assert [a, b, c, d][1..] == [b, c, d] && [b, c, d][1..] == [c, d] && [c, d][1..] == [d];
    assert Join([c, d], " ") == c + " " + d;
    assert Join([b, c, d], " ") == b + " " + (c + " " + d);
  }

  lemma OwnTokensAreSearched(wide: Wide, meta: SkillMetadata, text: string, t: string)
    requires OwnText(meta, text) && t in Tokens(wide, text)
    ensures t in SearchTokens(wide, meta)
  {
    TokensIgnoreCase(wide, Join(SearchFields(meta), " "));
    if text in meta.keywords {
      var k :| 0 <= k < |meta.keywords| && meta.keywords[k] == text;
      TokensOfPart(wide, meta.keywords, k, t);
      TokensOfPart(wide, SearchFields(meta), 3, t);
    } else {
      var k := if text == meta.displayName then 0 else if text == meta.description then 1 else 2;
      assert SearchFields(meta)[k] == text;
      TokensOfPart(wide, SearchFields(meta), k, t);
    }
  }

  lemma {:induction false} AllExact(tokens: seq<string>, query: seq<string>)
    requires forall q | q in query :: q in tokens
    ensures Exact(tokens, query) == Matched(tokens, query) == |query|
  {
    if query != [] {
      AllExact(tokens, query[..|query| - 1]);
    }
  }

  lemma AllExactScoresOne(ln: Ln, tokens: seq<string>, query: seq<string>, weights: seq<real>, score: real)
    requires LogLike(ln) && query != [] && ScoredBy(ln, tokens, query, weights, score)
    requires forall q | q in query :: q in tokens
    ensures score >= 1.0
  {
    AllExact(tokens, query);
    ScoreAtLeast(ln, tokens, query, weights, score);
  }

  /** Queried with one of its own texts, a skill scores at least 1 in every iteration order. */
  lemma OwnTextScoresOne(wide: Wide, ln: Ln, meta: SkillMetadata, text: string, score: real)
    requires LogLike(ln) && OwnText(meta, text) && Tokens(wide, text) != []
    requires IsScore(wide, ln, Tokens(wide, text), meta, score)
    ensures score >= 1.0
  {
    var tokens, query := SearchTokens(wide, meta), Tokens(wide, text);
    forall q | q in query
      ensures q in tokens
    {
      OwnTokensAreSearched(wide, meta, text, q);
    }
    var weights :| ScoredBy(ln, tokens, query, weights, score);
    AllExactScoresOne(ln, tokens, query, weights, score);
  }
}
