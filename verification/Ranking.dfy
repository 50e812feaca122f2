/** Ranking retrieval results: a stable in-place insertion sort by descending score. */
module Ranking {
  import opened SkillModel

  type Results = seq<RetrievalResult>

  /** Inserted behind every entry that scores at least as high, scanning from the end. */
  function Inserted(ranked: Results, x: RetrievalResult): Results {
    if ranked == [] then [x]
    else
      var last := ranked[|ranked| - 1];
      if last.score < x.score then Inserted(ranked[..|ranked| - 1], x) + [last] else ranked + [x]
  }

  function Ranked(results: Results): Results {
    if results == [] then [] else Inserted(Ranked(results[..|results| - 1]), results[|results| - 1])
  }

  predicate Descending(results: Results) {
    forall i, j | 0 <= i < j < |results| :: results[i].score >= results[j].score
  }

  /** The entries with one score, in order. */
  function WithScore(results: Results, score: real): Results {
    if results == [] then []
    else
      var last := results[|results| - 1];
      if last.score == score then WithScore(results[..|results| - 1], score) + [last]
      else WithScore(results[..|results| - 1], score)
  }

  method SortRetrievalResults(results: array<RetrievalResult>)
    modifies results
    ensures results[..] == Ranked(old(results[..]))
  {
    ghost var input := results[..];
    var outer := 1;
    assert results.Length > 0 ==> Ranked(input[..1]) == input[..1] by {
      if results.Length > 0 {
        assert input[..1][..0] == [];
      }
    }
    while outer < results.Length
      invariant 1 <= outer
      invariant outer <= results.Length ==>
        results[..outer] == Ranked(input[..outer]) && results[outer..] == input[outer..]
      invariant results.Length < outer ==> results.Length == 0
    {
      InsertInto(results, outer);
      assert input[..outer + 1][..outer] == input[..outer];
      outer := outer + 1;
    }
    assert results.Length > 0 ==> input[..outer] == input;
  }

  /** One pass of the outer loop: shifts the smaller entries up and drops the current one in. */
  method InsertInto(results: array<RetrievalResult>, outer: nat)
    requires 1 <= outer < results.Length
    modifies results
    ensures results[..outer + 1] == Inserted(old(results[..outer]), old(results[outer]))
    ensures results[outer + 1..] == old(results[outer + 1..])
  {
    ghost var before := results[..];
    var current := results[outer];
    var inner := outer - 1;
    while inner >= 0 && results[inner].score < current.score
      decreases inner
      invariant -1 <= inner < outer
      invariant forall k | 0 <= k <= inner || outer < k < results.Length :: results[k] == before[k]
      invariant forall k | inner < k < outer :: results[k + 1] == before[k] && before[k].score < current.score
    {
      results[inner + 1] := results[inner];
      inner := inner - 1;
    }
    results[inner + 1] := current;
    ShiftedIsInserted(before[..outer], current, inner + 1, results[..outer + 1]);
  }

  lemma ShiftedIsInserted(ranked: Results, x: RetrievalResult, p: nat, shifted: Results)
    requires p <= |ranked| && |shifted| == |ranked| + 1
    requires forall k | 0 <= k < p :: shifted[k] == ranked[k]
    requires shifted[p] == x
    requires forall k | p <= k < |ranked| :: shifted[k + 1] == ranked[k] && ranked[k].score < x.score
    requires p > 0 ==> ranked[p - 1].score >= x.score
    ensures shifted == Inserted(ranked, x)
  {
    InsertedAt(ranked, x, p);
  }

  /** Where the entry goes: behind everything that is not smaller, before everything that is. */
  lemma {:induction false} InsertedAt(ranked: Results, x: RetrievalResult, p: nat)
    requires p <= |ranked| && forall k | p <= k < |ranked| :: ranked[k].score < x.score
    requires p > 0 ==> ranked[p - 1].score >= x.score
    ensures Inserted(ranked, x) == ranked[..p] + [x] + ranked[p..]
  {
    if p < |ranked| {
      var front := ranked[..|ranked| - 1];
      InsertedAt(front, x, p);
      assert front[..p] == ranked[..p] && front[p..] + [ranked[|ranked| - 1]] == ranked[p..];
    }
  }

  // ----- What the ranking means -----

  lemma {:induction false} InsertionPoint(ranked: Results, x: RetrievalResult) returns (p: nat)
    requires Descending(ranked)
    ensures p <= |ranked|
    ensures forall k | 0 <= k < p :: ranked[k].score >= x.score
    ensures forall k | p <= k < |ranked| :: ranked[k].score < x.score
    ensures Inserted(ranked, x) == ranked[..p] + [x] + ranked[p..]
  {
    p := |ranked|;
    while p > 0 && ranked[p - 1].score < x.score
      invariant p <= |ranked|
      invariant forall k | p <= k < |ranked| :: ranked[k].score < x.score
    {
      p := p - 1;
    }
    InsertedAt(ranked, x, p);
  }

  lemma InsertedDescends(ranked: Results, x: RetrievalResult)
    requires Descending(ranked)
    ensures Descending(Inserted(ranked, x))
  {
    var p := InsertionPoint(ranked, x);
  }

  lemma {:induction false} RankedDescends(results: Results)
    ensures Descending(Ranked(results))
  {
    if results != [] {
      RankedDescends(results[..|results| - 1]);
      InsertedDescends(Ranked(results[..|results| - 1]), results[|results| - 1]);
    }
  }

  lemma {:induction false} WithScoreJoins(a: Results, b: Results, score: real)
    ensures WithScore(a + b, score) == WithScore(a, score) + WithScore(b, score)
    decreases b
  {
    if b == [] {
      assert a + b == a;
    } else {
      assert (a + b)[..|a + b| - 1] == a + b[..|b| - 1];
      WithScoreJoins(a, b[..|b| - 1], score);
    }
  }

  lemma {:induction false} NoneWithScore(results: Results, score: real)
    requires forall k | 0 <= k < |results| :: results[k].score != score
    ensures WithScore(results, score) == []
  {
    if results != [] {
      NoneWithScore(results[..|results| - 1], score);
    }
  }

  /** An entry may move past entries of other scores. */
  lemma MovedPastOthers(a: Results, x: RetrievalResult, b: Results, score: real)
    requires forall k | 0 <= k < |b| :: b[k].score != x.score
    ensures WithScore(a + [x] + b, score) == WithScore(a + b, score) + WithScore([x], score)
  {
    WithScoreJoins(a + [x], b, score);
    WithScoreJoins(a, [x], score);
    WithScoreJoins(a, b, score);
    if x.score == score {
      NoneWithScore(b, score);
    } else {
      NoneWithScore([x], score);
    }
  }

  lemma InsertedIsStable(ranked: Results, x: RetrievalResult, score: real)
    requires Descending(ranked)
    ensures WithScore(Inserted(ranked, x), score) == WithScore(ranked, score) + WithScore([x], score)
  {
    var p := InsertionPoint(ranked, x);
    MovedPastOthers(ranked[..p], x, ranked[p..], score);
    assert ranked[..p] + ranked[p..] == ranked;
  }

  /** Ranking keeps the entries of every score, in their order: it is a permutation, and stable. */
  lemma {:induction false} RankedIsStable(results: Results, score: real)
    ensures WithScore(Ranked(results), score) == WithScore(results, score)
  {
    if results != [] {
      var front, last := results[..|results| - 1], results[|results| - 1];
      RankedIsStable(front, score);
      RankedDescends(front);
      InsertedIsStable(Ranked(front), last, score);
      WithScoreJoins(front, [last], score);
      assert results == front + [last];
    }
  }

  lemma {:induction false} WithScoreCounts(results: Results, x: RetrievalResult)
    ensures multiset(results)[x] == multiset(WithScore(results, x.score))[x]
  {
    if results != [] {
      var front, last := results[..|results| - 1], results[|results| - 1];
      assert results == front + [last];
      WithScoreCounts(front, x);
    }
  }

  ghost predicate SameByScore(a: Results, b: Results) {
    forall score :: WithScore(a, score) == WithScore(b, score)
  }

  lemma SameScoresSameEntries(a: Results, b: Results)
    requires SameByScore(a, b)
    ensures multiset(a) == multiset(b)
  {
    forall x
      ensures multiset(a)[x] == multiset(b)[x]
    {
      WithScoreCounts(a, x);
      WithScoreCounts(b, x);
    }
  }

  lemma RankedPermutes(results: Results)
    ensures multiset(Ranked(results)) == multiset(results) && |Ranked(results)| == |results|
  {
    forall score
      ensures WithScore(Ranked(results), score) == WithScore(results, score)
    {
      RankedIsStable(results, score);
    }
    SameScoresSameEntries(Ranked(results), results);
    assert |multiset(Ranked(results))| == |Ranked(results)|;
  }

  lemma SameLast(a: Results, b: Results)
    requires Descending(a) && Descending(b) && SameByScore(a, b) && a != []
    ensures b != [] && a[|a| - 1] == b[|b| - 1]
  {
    SameScoresSameEntries(a, b);
    assert |multiset(a)| == |multiset(b)|;
    assert a[|a| - 1] in multiset(b) && b[|b| - 1] in multiset(a);
    LastWithScore(a);
    LastWithScore(b);
  }

  lemma SameFront(front: Results, back: Results, x: RetrievalResult)
    requires SameByScore(front + [x], back + [x])
    ensures SameByScore(front, back)
  {
    forall score
      ensures WithScore(front, score) == WithScore(back, score)
    {
      WithScoreJoins(front, [x], score);
      WithScoreJoins(back, [x], score);
      CancelLast(WithScore(front, score), WithScore(back, score), WithScore([x], score));
    }
  }

  /** Descending and stable leave no freedom: any such arrangement is the ranking. */
  lemma {:induction false} RankingIsUnique(a: Results, b: Results)
    requires Descending(a) && Descending(b) && SameByScore(a, b)
    ensures a == b
    decreases |a|
  {
    if a != [] {
      SameLast(a, b);
      var front, back, x := a[..|a| - 1], b[..|b| - 1], a[|a| - 1];
      assert a == front + [x] && b == back + [x];
      SameFront(front, back, x);
      RankingIsUnique(front, back);
    } else if b != [] {
      SameLast(b, a);
    }
  }

  lemma CancelLast(p: Results, q: Results, r: Results)
    requires p + r == q + r
    ensures p == q
  {
    assert |p + r| == |p| + |r| && |q + r| == |q| + |r|;
    assert p == (p + r)[..|p|] && q == (q + r)[..|q|];
  }

  lemma LastWithScore(results: Results)
    requires results != []
    ensures var x := results[|results| - 1];
      WithScore(results, x.score) != [] && WithScore(results, x.score)[|WithScore(results, x.score)| - 1] == x
  {
  }

  /** The first `k` of the ranking. */
  function Top(k: nat, results: Results): Results {
    var ranked := Ranked(results);
    if |ranked| > k then ranked[..k] else ranked
  }

  lemma TopSplits(k: nat, results: Results) returns (rest: Results)
    ensures Ranked(results) == Top(k, results) + rest
    ensures multiset(results) == multiset(Top(k, results)) + multiset(rest)
    ensures |Top(k, results)| == if |results| < k then |results| else k
  {
    RankedPermutes(results);
    var ranked := Ranked(results);
    rest := ranked[|Top(k, results)|..];
    assert ranked == Top(k, results) + rest;
  }

  lemma FrontBeatsBack(top: Results, rest: Results, x: RetrievalResult, y: RetrievalResult)
    requires Descending(top + rest) && x in rest && y in top
    ensures x.score <= y.score
  {
    var i :| 0 <= i < |top| && top[i] == y;
    var j :| 0 <= j < |rest| && rest[j] == x;
    assert (top + rest)[i] == y && (top + rest)[|top| + j] == x;
  }

  /** Top-k: as many as there are, up to `k`; descending; whatever is left out scores no higher than
      anything returned. */
  lemma TopIsBest(k: nat, results: Results)
    ensures var top := Top(k, results);
      && |top| == (if |results| < k then |results| else k)
      && Descending(top)
      && multiset(top) <= multiset(results)
      && forall x, y | x in results && y in top && multiset(top)[x] < multiset(results)[x] :: x.score <= y.score
  {
    RankedDescends(results);
    var top := Top(k, results);
    var rest := TopSplits(k, results);
    forall x, y | x in results && y in top && multiset(top)[x] < multiset(results)[x]
      ensures x.score <= y.score
    {
      assert multiset(rest)[x] > 0;
      FrontBeatsBack(top, rest, x, y);
    }
  }

  /** Equal scores keep their order in the part that is returned. */
  lemma TopIsStable(k: nat, results: Results, score: real)
    ensures WithScore(Top(k, results), score) <= WithScore(results, score)
  {
    RankedIsStable(results, score);
    WithScorePrefix(Ranked(results), |Top(k, results)|, score);
  }

  lemma {:induction false} WithScorePrefix(results: Results, n: nat, score: real)
    requires n <= |results|
    ensures WithScore(results[..n], score) <= WithScore(results, score)
    decreases |results|
  {
    if n < |results| {
      var front := results[..|results| - 1];
      WithScorePrefix(front, n, score);
      assert front[..n] == results[..n];
    } else {
      assert results[..n] == results;
    }
  }
}
