/** The overall ranking of a comparison (app/agents/comparator.py, the deterministic part of
    `run_comparator_agent`, and `_rank_is_stable`). */
module Ranking {
  import opened StableSort
  import opened Rounding
  import Scoring
  import Critic

  type Vendor = string

  /** Evaluated vendors that were asked for, in the order of the evaluation outputs. */
  function Candidates(evaluated: seq<Vendor>, requested: seq<Vendor>): seq<Vendor> {
    if evaluated == [] then [] else
      var last := evaluated[|evaluated| - 1];
      Candidates(evaluated[..|evaluated| - 1], requested) + if last in requested then [last] else []
  }

  function ByScore(score: Vendor -> real): Vendor -> Key {
    v => Finite(-score(v))
  }

  function OverallRanking(evaluated: seq<Vendor>, requested: seq<Vendor>, score: Vendor -> real): seq<Vendor> {
    Sort(Candidates(evaluated, requested), ByScore(score))
  }

  lemma {:induction false} CandidatesAre(evaluated: seq<Vendor>, requested: seq<Vendor>)
    ensures forall v :: v in Candidates(evaluated, requested) <==> v in evaluated && v in requested
    ensures Distinct(evaluated) ==> Distinct(Candidates(evaluated, requested))
    ensures |Candidates(evaluated, requested)| <= |evaluated|
  {
    if evaluated != [] {
      var init, last := evaluated[..|evaluated| - 1], evaluated[|evaluated| - 1];
      assert forall i :: 0 <= i < |init| ==> init[i] == evaluated[i];
      CandidatesAre(init, requested);
      assert forall v :: v in evaluated <==> v in init || v == last;
    }
  }

  /** The ranking lists every evaluated vendor that was requested, once, by falling score; vendors
      with equal scores keep the order of the evaluation outputs. */
  lemma RankingIsSound(evaluated: seq<Vendor>, requested: seq<Vendor>, score: Vendor -> real)
    requires Distinct(evaluated)
    ensures var r := OverallRanking(evaluated, requested, score);
            && Distinct(r) && (forall v :: v in r <==> v in evaluated && v in requested)
            && (forall i, j :: 0 <= i < j < |r| ==> score(r[i]) >= score(r[j]))
            && (forall k :: WithKey(r, ByScore(score), k) == WithKey(Candidates(evaluated, requested), ByScore(score),
                k))
  {
    var cs, key := Candidates(evaluated, requested), ByScore(score);
    CandidatesAre(evaluated, requested);
    SortKeepsDistinct(cs, key);
    SortAscends(cs, key);
    forall v ensures v in Sort(cs, key) <==> v in cs { SortHasSameMembers(cs, key, v); }
    forall k ensures WithKey(Sort(cs, key), key, k) == WithKey(cs, key, k) { SortIsStable(cs, key, k); }
    var r := Sort(cs, key);
    forall i, j | 0 <= i < j < |r| ensures score(r[i]) >= score(r[j]) { assert AtMost(key(r[i]), key(r[j])); }
  }

  /** The comparator critic escalates exactly when a requested vendor has no evaluation, and blocks
      only a comparison of nobody. */
  lemma CriticOnRanking(evaluated: seq<Vendor>, requested: seq<Vendor>, score: Vendor -> real, confidence: real,
      unstable: bool)
    requires Distinct(evaluated)
    ensures var v := Critic.AfterComparator((set r | r in requested), OverallRanking(evaluated, requested, score),
        confidence, unstable);
            && (v == Critic.Escalated <==> exists r :: r in requested && r !in evaluated)
            && (v == Critic.Blocked <==> requested == [])
  {
    var ranking := OverallRanking(evaluated, requested, score);
    RankingIsSound(evaluated, requested, score);
    var asked := set r | r in requested;
    Critic.ComparatorVerdict(asked, ranking, confidence, unstable);
    assert requested != [] ==> requested[0] in asked;
    if ranking != [] { assert ranking[0] in ranking; }
  }

  // ---- margins -----------------------------------------------------------------------------------

  method RankMargins(ranking: seq<Vendor>, score: Vendor -> real) returns (margins: map<Vendor, real>)
    requires Distinct(ranking)
    ensures margins.Keys == set v | v in ranking
    ensures forall i :: 0 <= i < |ranking| ==>
              ranking[i] in margins && margins[ranking[i]] == MarginAt(ranking, score, i)
  {
    margins := map[];
    for i := 0 to |ranking|
      invariant margins.Keys == set v | v in ranking[..i]
      invariant forall j :: 0 <= j < i ==> ranking[j] in margins && margins[ranking[j]] == MarginAt(ranking, score, j)
    {
      assert ranking[..i + 1] == ranking[..i] + [ranking[i]];
      margins := margins[ranking[i] := MarginAt(ranking, score, i)];
    }
    assert ranking[..|ranking|] == ranking;
  }

  function MarginAt(ranking: seq<Vendor>, score: Vendor -> real, i: nat): real
    requires i < |ranking|
  {
    if i == 0 then 0.0 else Round(score(ranking[i - 1]) - score(ranking[i]), Four)
  }

  /** The margin is the gap to the vendor above, to four digits; the first vendor has none. */
  lemma MarginIsGap(ranking: seq<Vendor>, score: Vendor -> real, i: nat)
    requires i < |ranking|
    ensures i == 0 ==> MarginAt(ranking, score, i) == 0.0
    ensures i > 0 ==>
              var gap := score(ranking[i - 1]) - score(ranking[i]);
              && gap - 0.00005 <= MarginAt(ranking, score, i) <= gap + 0.00005
              && IsMultiple(MarginAt(ranking, score, i), Four)
              && (IsMultiple(gap, Four) ==> MarginAt(ranking, score, i) == gap)
  {
    if i > 0 {
      RoundIsNear(score(ranking[i - 1]) - score(ranking[i]), Four);
      RoundFixesMultiples(score(ranking[i - 1]) - score(ranking[i]), Four);
    }
  }

  function MarginSum(ranking: seq<Vendor>, score: Vendor -> real, n: nat): real
    requires n <= |ranking|
  {
    if n == 0 then 0.0 else MarginSum(ranking, score, n - 1) + MarginAt(ranking, score, n - 1)
  }

  /** The evaluation agent publishes scores with two decimals. */
  lemma ScoresAreHundredths(items: seq<Scoring.Item>)
    ensures IsMultiple(Scoring.CardOf(items).normalised, Two)
  {
    var card := Scoring.CardOf(items);
    if card.coverage != 0.0 { RoundFixesMultiples(card.total / card.coverage, Two); }
  }

  lemma DifferenceOfHundredths(x: real, y: real)
    requires IsMultiple(x, Two) && IsMultiple(y, Two)
    ensures Round(x - y, Four) == x - y
  {
    WholeDifference(x, y, (x * 100.0).Floor, (y * 100.0).Floor);
    RoundFixesMultiples(x - y, Four);
  }

  lemma WholeDifference(x: real, y: real, a: int, b: int)
    requires x * 100.0 == a as real && y * 100.0 == b as real
    ensures IsMultiple(x - y, Four)
  {
    var k := 100 * a - 100 * b;
    assert x * 10000.0 == 100.0 * a as real && y * 10000.0 == 100.0 * b as real;
    assert k as real == 100.0 * a as real - 100.0 * b as real;
    assert (x - y) * 10000.0 == k as real;
  }

  /** Down a ranking by falling scores of two decimals, margins are the exact gaps, never negative,
      and add up to the gap between the first and the last. */
  lemma {:induction false} MarginsTelescope(ranking: seq<Vendor>, score: Vendor -> real, n: nat)
    requires 0 < n <= |ranking|
    requires forall i :: 0 <= i < |ranking| ==> IsMultiple(score(ranking[i]), Two)
    requires forall i, j :: 0 <= i < j < |ranking| ==> score(ranking[i]) >= score(ranking[j])
    ensures MarginSum(ranking, score, n) == score(ranking[0]) - score(ranking[n - 1])
    ensures forall i: nat :: i < n ==> MarginAt(ranking, score, i) >= 0.0
    ensures forall i: nat :: 0 < i < n ==> MarginAt(ranking, score, i) == score(ranking[i - 1]) - score(ranking[i])
  {
    if n > 1 {
      MarginsTelescope(ranking, score, n - 1);
      DifferenceOfHundredths(score(ranking[n - 2]), score(ranking[n - 1]));
    } else {
      assert MarginSum(ranking, score, 1) == MarginSum(ranking, score, 0) + MarginAt(ranking, score, 0);
    }
  }

  // ---- stability ---------------------------------------------------------------------------------

  /** No two of the scores are closer than `m`. */
  ghost predicate Apart(scores: seq<real>, m: real) {
    Distinct(scores) && forall x, y :: x in scores && y in scores && x > y ==> x - y >= m
  }

  function Falling(): real -> Key {
    x => Finite(-x)
  }

  ghost predicate FallsBy(sorted: seq<real>, m: real, n: nat)
    requires n <= |sorted|
  {
    forall a, b :: 0 <= a < b < n ==> sorted[a] - sorted[b] >= m
  }

  /** Looking at neighbours in sorted order is enough. */
  method RankIsStable(scores: seq<real>, m: real) returns (stable: bool)
    requires m > 0.0
    ensures stable <==> Apart(scores, m)
  {
    if |scores| <= 1 {
      assert scores == [] || scores == [scores[0]];
      return true;
    }
    var sorted := Sort(scores, Falling());
    SortIsPermutation(scores, Falling());
    ApartWhenSorted(scores, m);
    for i := 0 to |sorted| - 1
      invariant FallsBy(sorted, m, i + 1)
    {
      if sorted[i] - sorted[i + 1] < m { return false; }
      OneMoreApart(sorted, m, i + 1);
    }
    stable := true;
  }

  lemma OneMoreApart(sorted: seq<real>, m: real, n: nat)
    requires 0 < n < |sorted| && m > 0.0 && FallsBy(sorted, m, n) && sorted[n - 1] - sorted[n] >= m
    ensures FallsBy(sorted, m, n + 1)
  {
    forall a | 0 <= a < n ensures sorted[a] - sorted[n] >= m {
      if a < n - 1 { assert sorted[a] - sorted[n - 1] >= m; }
    }
  }

  lemma ApartWhenSorted(scores: seq<real>, m: real)
    requires m > 0.0
    ensures var sorted := Sort(scores, Falling()); Apart(scores, m) <==> FallsBy(sorted, m, |sorted|)
  {
    var sorted := Sort(scores, Falling());
    SortAscends(scores, Falling());
    SortKeepsDistinct(scores, Falling());
    forall x ensures x in sorted <==> x in scores { SortHasSameMembers(scores, Falling(), x); }
    assert forall i, j :: 0 <= i < j < |sorted| ==> AtMost(Falling()(sorted[i]), Falling()(sorted[j]));
    if FallsBy(sorted, m, |sorted|) {
      forall x, y | x in scores && y in scores && x > y ensures x - y >= m {
        assert x in sorted && y in sorted;
        var a, b := IndexOf(sorted, x), IndexOf(sorted, y);
        assert a < b;
      }
    }
    if Apart(scores, m) {
      forall a, b | 0 <= a < b < |sorted| ensures sorted[a] - sorted[b] >= m {
        assert sorted[a] in scores && sorted[b] in scores;
        assert sorted[a] > sorted[b];
      }
    }
  }
}
