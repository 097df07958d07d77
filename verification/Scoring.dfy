/** Criterion scoring and its aggregation (app/agents/evaluation.py, `_score_criterion` and the
    second half of `run_evaluation_agent`).

    The model's answer for a criterion is an arbitrary input. */
module Scoring {
  import opened Common
  import opened Rounding

  type Id = string

  datatype Criterion = Criterion(id: Id, weight: real)

  /** What came back for one criterion: no evidence (the model is not asked), text that is not JSON,
      JSON on which building the score raises, or numbers. */
  datatype Answer = NoFacts | NotJson | Malformed | Numbers(raw: real, confidence: real, variance: real)

  datatype Item = Item(criterion: Criterion, answer: Answer)

  datatype Score = Score(id: Id, raw: int, contribution: real, confidence: real, variance: real, insufficient: bool)

  function Trunc(x: real): int {
    if x >= 0.0 then x.Floor else -((-x).Floor)
  }

  function RawScore(x: real): (r: int)
    ensures 0 <= r <= 10
    ensures 0.0 <= x < 11.0 ==> r == if x < 10.0 then x.Floor else 10
  {
    var t := Trunc(x);
    if t < 0 then 0 else if t > 10 then 10 else t
  }

  lemma RawIsCutOff(x: real)
    ensures RawScore(x) == if x < 1.0 then 0 else if x < 10.0 then x.Floor else 10
  {
  }

  function Contribution(raw: int, weight: real): real {
    Round(raw as real / 10.0 * weight, Four)
  }

  function Scored(c: Criterion, raw: int, confidence: real, variance: real): Option<Score> {
    if 0.0 <= confidence <= 1.0
    then Some(Score(c.id, raw, Contribution(raw, c.weight), confidence, variance, false))
    else None
  }

  /** None: the exception is caught and the criterion is left out. */
  function ScoreCriterion(item: Item): Option<Score> {
    match item.answer
    case NoFacts => Some(Score(item.criterion.id, 0, 0.0, 0.0, 0.0, true))
    case NotJson => Scored(item.criterion, 0, 0.0, 3.0)
    case Malformed => None
    case Numbers(raw, confidence, variance) => Scored(item.criterion, RawScore(raw), confidence, variance)
  }

  /** The criterion got a score of its own. */
  predicate Assessed(item: Item) {
    item.answer.NotJson? || (item.answer.Numbers? && 0.0 <= item.answer.confidence <= 1.0)
  }

  function RawOf(item: Item): (r: int)
    ensures 0 <= r <= 10
  {
    if item.answer.Numbers? then RawScore(item.answer.raw) else 0
  }

  lemma AssessedIsScored(item: Item)
    ensures var s := ScoreCriterion(item);
            && (Assessed(item) <==> s.Some? && !s.value.insufficient)
            && (s.Some? ==> s.value.id == item.criterion.id && s.value.raw == RawOf(item))
            && (s.Some? && s.value.insufficient ==> s.value.contribution == 0.0 && s.value.raw == 0)
            && (Assessed(item) ==> s.value.contribution == Contribution(RawOf(item), item.criterion.weight))
  {
  }

  /** What each answer comes to.  No evidence is no score, text that is not JSON a zero nobody is sure of;
      numbers count if their confidence is one, cut off to a whole number from 0 to 10. */
  lemma AnswerMeans(item: Item)
    ensures var s, c := ScoreCriterion(item), item.criterion;
            match item.answer
            case NoFacts => s == Some(Score(c.id, 0, 0.0, 0.0, 0.0, true))
            case NotJson => s == Some(Score(c.id, 0, 0.0, 0.0, 3.0, false))
            case Malformed => s == None
            case Numbers(raw, confidence, variance) =>
              && (s.Some? <==> 0.0 <= confidence <= 1.0)
              && (s.Some? ==>
                    && s.value.id == c.id && s.value.confidence == confidence && s.value.variance == variance
                    && !s.value.insufficient
                    && s.value.raw == (if raw < 1.0 then 0 else if raw < 10.0 then raw.Floor else 10)
                    && s.value.contribution == Contribution(s.value.raw, c.weight))
  {
    NothingContributes(item.criterion.weight);
    if item.answer.Numbers? { RawIsCutOff(item.answer.raw); }
  }

  lemma NothingContributes(weight: real)
    ensures Contribution(0, weight) == 0.0
  {
    assert 0 as real / 10.0 == 0.0;
    assert 0.0 * weight == 0.0;
    RoundOfConstants(Four);
  }

  function Scores(items: seq<Item>): (scores: seq<Score>)
    ensures |scores| <= |items|
  {
    if items == [] then [] else
      var s := ScoreCriterion(items[|items| - 1]);
      Scores(items[..|items| - 1]) + if s.Some? then [s.value] else []
  }

  /** `scores` are those of the items at the positions `at`: the ones whose answer could be read. */
  ghost predicate ScoredAt(items: seq<Item>, scores: seq<Score>, at: seq<nat>) {
    && Rising(at) && |at| == |scores|
    && (forall k :: 0 <= k < |at| ==> at[k] < |items| && ScoreCriterion(items[at[k]]) == Some(scores[k]))
    && (forall i :: 0 <= i < |items| ==>
          (i in at <==> (items[i].answer.NoFacts? || items[i].answer.NotJson? ||
            (items[i].answer.Numbers? && 0.0 <= items[i].answer.confidence <= 1.0))))
  }

  lemma ScoredStep(items: seq<Item>, scores: seq<Score>, at: seq<nat>)
    requires items != [] && ScoredAt(items[..|items| - 1], scores, at)
    ensures var n := |items| - 1; var s := ScoreCriterion(items[n]);
            if s.Some? then ScoredAt(items, scores + [s.value], at + [n]) else ScoredAt(items, scores, at)
  {
    var n := |items| - 1;
    AnswerMeans(items[n]);
    AppendPlace(at, n);
    assert forall i :: 0 <= i < n ==> items[..n][i] == items[i];
  }

  /** The scorecard has a score for each criterion whose answer could be read, in their order. */
  lemma {:induction false} ScoresInOrder(items: seq<Item>) returns (at: seq<nat>)
    ensures ScoredAt(items, Scores(items), at)
  {
    if items == [] { return []; }
    var n := |items| - 1;
    at := ScoresInOrder(items[..n]);
    ScoresStep(items);
    ScoredStep(items, Scores(items[..n]), at);
    if ScoreCriterion(items[n]).Some? { at := at + [n]; }
  }

  function ContributionSum(scores: seq<Score>): real {
    if scores == [] then 0.0 else ContributionSum(scores[..|scores| - 1]) + scores[|scores| - 1].contribution
  }

  // ---- `weight_by_criterion`: a dictionary in insertion order -----------------------------------

  datatype Entry = Entry(id: Id, weight: real)

  function Put(d: seq<Entry>, id: Id, weight: real): seq<Entry> {
    if d == [] then [Entry(id, weight)]
    else if d[0].id == id then [Entry(id, weight)] + d[1..]
    else [d[0]] + Put(d[1..], id, weight)
  }

  function Get(d: seq<Entry>, id: Id): real {
    if d == [] then 0.0 else if d[0].id == id then d[0].weight else Get(d[1..], id)
  }

  function Weights(items: seq<Item>): seq<Entry> {
    if items == [] then [] else
      var c := items[|items| - 1].criterion;
      Put(Weights(items[..|items| - 1]), c.id, c.weight)
  }

  function ValueSum(d: seq<Entry>): real {
    if d == [] then 0.0 else d[0].weight + ValueSum(d[1..])
  }

  function LookupSum(scores: seq<Score>, d: seq<Entry>): real {
    if scores == [] then 0.0 else
      var s := scores[|scores| - 1];
      LookupSum(scores[..|scores| - 1], d) + if s.insufficient then 0.0 else Get(d, s.id)
  }

  function ConfidenceSum(scores: seq<Score>): real {
    if scores == [] then 0.0 else
      var s := scores[|scores| - 1];
      ConfidenceSum(scores[..|scores| - 1]) + if s.insufficient then 0.0 else s.confidence
  }

  function ScoredCount(scores: seq<Score>): nat {
    if scores == [] then 0 else
      ScoredCount(scores[..|scores| - 1]) + if scores[|scores| - 1].insufficient then 0 else 1
  }

  datatype Card = Card(scores: seq<Score>, total: real, coverage: real, normalised: real, confidence: real)

  function Total(scores: seq<Score>): real {
    Round(ContributionSum(scores) * 10.0, Two)
  }

  function Coverage(assessed: real, total: real): real {
    if total == 0.0 then 0.0 else Round(assessed / total, Four)
  }

  function Normalised(total: real, coverage: real): real {
    if coverage == 0.0 then 0.0 else Round(total / coverage, Two)
  }

  function AverageConfidence(scores: seq<Score>): real {
    if ScoredCount(scores) == 0 then 0.0 else Round(ConfidenceSum(scores) / ScoredCount(scores) as real, Three)
  }

  function CardOf(items: seq<Item>): Card {
    var scores, weights := Scores(items), Weights(items);
    var total := Total(scores);
    var coverage := Coverage(LookupSum(scores, weights), ValueSum(weights));
    Card(scores, total, coverage, Normalised(total, coverage), AverageConfidence(scores))
  }

  method ScoreVendor(items: seq<Item>) returns (card: Card)
    ensures card == CardOf(items)
    ensures forall i :: 0 <= i < |card.scores| ==> 0 <= card.scores[i].raw <= 10
  {
    var scores: seq<Score>, weights: seq<Entry> := [], [];
    for i := 0 to |items|
      invariant scores == Scores(items[..i]) && weights == Weights(items[..i])
      invariant forall k :: 0 <= k < |scores| ==> 0 <= scores[k].raw <= 10
    {
      assert items[..i + 1][..i] == items[..i];
      var s := ScoreCriterion(items[i]);
      if s.Some? { scores := scores + [s.value]; }
      weights := Put(weights, items[i].criterion.id, items[i].criterion.weight);
    }
    assert items[..|items|] == items;
    var assessed, sum, confidence, n := 0.0, 0.0, 0.0, 0;
    for i := 0 to |scores|
      invariant assessed == LookupSum(scores[..i], weights) && sum == ContributionSum(scores[..i])
      invariant confidence == ConfidenceSum(scores[..i]) && n == ScoredCount(scores[..i])
    {
      assert scores[..i + 1][..i] == scores[..i];
      sum := sum + scores[i].contribution;
      if !scores[i].insufficient {
        assessed, confidence, n := assessed + Get(weights, scores[i].id), confidence + scores[i].confidence, n + 1;
      }
    }
    assert scores[..|scores|] == scores;
    var total := Round(sum * 10.0, Two);
    var coverage := Coverage(assessed, ValueSum(weights));
    card := Card(scores, total, coverage, Normalised(total, coverage),
                 if n == 0 then 0.0 else Round(confidence / n as real, Three));
  }

  // ---- the total is close to the exact weighted sum ---------------------------------------------

  datatype Part = Part(raw: int, weight: real)

  /** The criteria that were scored, each with its raw score and weight. */
  function Parts(items: seq<Item>): (parts: seq<Part>)
    ensures forall i :: 0 <= i < |parts| ==> 0 <= parts[i].raw <= 10
  {
    if items == [] then [] else
      var last := items[|items| - 1];
      Parts(items[..|items| - 1]) + if Assessed(last) then [Part(RawOf(last), last.criterion.weight)] else []
  }

  function Product(p: Part): real {
    p.raw as real * p.weight
  }

  /** The sum of raw score times weight, without any rounding. */
  function Exact(parts: seq<Part>): real {
    if parts == [] then 0.0 else Exact(parts[..|parts| - 1]) + Product(parts[|parts| - 1])
  }

  function PartWeight(parts: seq<Part>): real {
    if parts == [] then 0.0 else PartWeight(parts[..|parts| - 1]) + parts[|parts| - 1].weight
  }

  lemma OneMorePart(parts: seq<Part>, p: Part)
    ensures Exact(parts + [p]) == Exact(parts) + Product(p)
    ensures PartWeight(parts + [p]) == PartWeight(parts) + p.weight
  {
    assert (parts + [p])[..|parts|] == parts;
  }

  lemma PartsStep(items: seq<Item>)
    requires items != []
    ensures var init, last := Parts(items[..|items| - 1]), items[|items| - 1];
            Parts(items) == if Assessed(last) then init + [Part(RawOf(last), last.criterion.weight)] else init
  {
  }

  lemma ContributionIsNear(p: Part)
    ensures Product(p) - 0.0005 <= Contribution(p.raw, p.weight) * 10.0 <= Product(p) + 0.0005
  {
    var x := p.raw as real / 10.0 * p.weight;
    TenTimes(p.raw as real, p.weight);
    assert x * 10.0 == Product(p);
    RoundIsNear(x, Four);
    assert x - 0.00005 <= Contribution(p.raw, p.weight) <= x + 0.00005;
  }

  lemma TenTimes(r: real, w: real)
    ensures r / 10.0 * w * 10.0 == r * w
  {
    var q := r / 10.0;
    assert (q * 10.0) * w == q * w * 10.0;
  }

  lemma OneMoreScore(scores: seq<Score>, s: Score, d: seq<Entry>)
    ensures ContributionSum(scores + [s]) == ContributionSum(scores) + s.contribution
    ensures LookupSum(scores + [s], d) == LookupSum(scores, d) + if s.insufficient then 0.0 else Get(d, s.id)
    ensures forall id :: Occurrences(scores + [s], id) == Occurrences(scores, id) +
                           if !s.insufficient && s.id == id then 1 else 0
  {
    assert (scores + [s])[..|scores|] == scores;
  }

  /** Scores of a longer list: the shorter list's, and at most one more. */
  lemma ScoresStep(items: seq<Item>)
    requires items != []
    ensures var init, s := Scores(items[..|items| - 1]), ScoreCriterion(items[|items| - 1]);
            Scores(items) == if s.Some? then init + [s.value] else init
  {
  }

  lemma {:induction false} SumIsNear(items: seq<Item>)
    ensures var parts := Parts(items); var n := |parts| as real;
            Exact(parts) - 0.0005 * n <= ContributionSum(Scores(items)) * 10.0 <= Exact(parts) + 0.0005 * n
  {
    if items != [] {
      var init, last := items[..|items| - 1], items[|items| - 1];
      SumIsNear(init);
      ScoresStep(items);
      PartsStep(items);
      AssessedIsScored(last);
      var s := ScoreCriterion(last);
      if s.Some? { OneMoreScore(Scores(init), s.value, []); }
      if Assessed(last) {
        var p := Part(RawOf(last), last.criterion.weight);
        OneMorePart(Parts(init), p);
        ContributionIsNear(p);
        assert |Parts(items)| as real == |Parts(init)| as real + 1.0;
        assert s.value.contribution == Contribution(p.raw, p.weight);
        assert Scores(items) == Scores(init) + [s.value];
      }
    }
  }

  /** The published total is within 0.005 + 0.0005 n of the exact weighted sum, for n criteria
      actually scored. */
  lemma TotalIsNear(items: seq<Item>)
    ensures Near(CardOf(items).total, Exact(Parts(items)), 0.005 + 0.0005 * |Parts(items)| as real)
  {
    SumIsNear(items);
    RoundIsNear(ContributionSum(Scores(items)) * 10.0, Two);
  }

  // ---- coverage ---------------------------------------------------------------------------------

  predicate DistinctIds(items: seq<Item>) {
    forall i, j :: 0 <= i < j < |items| ==> items[i].criterion.id != items[j].criterion.id
  }

  predicate PositiveWeights(items: seq<Item>) {
    forall i :: 0 <= i < |items| ==> items[i].criterion.weight > 0.0
  }

  function WeightSum(items: seq<Item>): real {
    if items == [] then 0.0 else WeightSum(items[..|items| - 1]) + items[|items| - 1].criterion.weight
  }

  predicate Has(d: seq<Entry>, id: Id) {
    d != [] && (d[0].id == id || Has(d[1..], id))
  }

  lemma {:induction false} HasSome(d: seq<Entry>, id: Id)
    ensures Has(d, id) <==> exists i :: 0 <= i < |d| && d[i].id == id
    ensures !Has(d, id) ==> Get(d, id) == 0.0
  {
    if d != [] {
      HasSome(d[1..], id);
      if i :| 0 <= i < |d| && d[i].id == id && i > 0 { assert d[1..][i - 1].id == id; }
      if i :| 0 <= i < |d[1..]| && d[1..][i].id == id { assert d[i + 1].id == id; }
    }
  }

  lemma {:induction false} PutOfNew(d: seq<Entry>, id: Id, w: real)
    requires !Has(d, id)
    ensures Put(d, id, w) == d + [Entry(id, w)]
    ensures ValueSum(Put(d, id, w)) == ValueSum(d) + w
  {
    if d != [] {
      PutOfNew(d[1..], id, w);
      assert Put(d, id, w)[1..] == Put(d[1..], id, w);
      assert d == [d[0]] + d[1..];
    }
  }

  /** With distinct ids the dictionary lists the criteria. */
  lemma {:induction false} DistinctWeights(items: seq<Item>)
    requires DistinctIds(items)
    ensures |Weights(items)| == |items| && ValueSum(Weights(items)) == WeightSum(items)
    ensures forall i :: 0 <= i < |items| ==>
              Weights(items)[i] == Entry(items[i].criterion.id, items[i].criterion.weight)
  {
    if items != [] {
      var init, c := items[..|items| - 1], items[|items| - 1].criterion;
      DistinctWeights(init);
      HasSome(Weights(init), c.id);
      PutOfNew(Weights(init), c.id, c.weight);
    }
  }

  lemma {:induction false} GetAt(d: seq<Entry>, i: nat)
    requires i < |d| && forall a, b :: 0 <= a < b < |d| ==> d[a].id != d[b].id
    ensures Get(d, d[i].id) == d[i].weight
  {
    if i > 0 {
      assert d[0].id != d[i].id;
      GetAt(d[1..], i - 1);
    }
  }

  lemma {:induction false} LookupsAreWeights(items: seq<Item>, d: seq<Entry>)
    requires forall i :: 0 <= i < |items| ==> Get(d, items[i].criterion.id) == items[i].criterion.weight
    ensures LookupSum(Scores(items), d) == PartWeight(Parts(items))
  {
    if items != [] {
      var init, last := items[..|items| - 1], items[|items| - 1];
      LookupsAreWeights(init, d);
      ScoresStep(items);
      AssessedIsScored(last);
      var s := ScoreCriterion(last);
      if s.Some? { OneMoreScore(Scores(init), s.value, d); }
      PartsStep(items);
      OneMorePart(Parts(init), Part(RawOf(last), last.criterion.weight));
    }
  }

  lemma DistinctGets(items: seq<Item>)
    requires DistinctIds(items)
    ensures forall i :: 0 <= i < |items| ==> Get(Weights(items), items[i].criterion.id) == items[i].criterion.weight
  {
    DistinctWeights(items);
    forall i: nat | i < |items| ensures Get(Weights(items), items[i].criterion.id) == items[i].criterion.weight {
      GetAt(Weights(items), i);
    }
  }

  lemma {:induction false} AssessedIsPart(items: seq<Item>)
    requires PositiveWeights(items)
    ensures 0.0 <= PartWeight(Parts(items)) <= WeightSum(items)
    ensures items != [] ==> WeightSum(items) > 0.0
    ensures Parts(items) != [] <==> PartWeight(Parts(items)) > 0.0
    ensures forall i :: 0 <= i < |Parts(items)| ==> Parts(items)[i].weight > 0.0
  {
    if items != [] {
      var init, last := items[..|items| - 1], items[|items| - 1];
      AssessedIsPart(init);
      PartsStep(items);
      OneMorePart(Parts(init), Part(RawOf(last), last.criterion.weight));
    }
  }

  /** The assessed share of the weight. */
  function Share(items: seq<Item>): real {
    if WeightSum(items) == 0.0 then 0.0 else PartWeight(Parts(items)) / WeightSum(items)
  }

  lemma ShareInUnit(items: seq<Item>)
    requires PositiveWeights(items)
    ensures 0.0 <= Share(items) <= 1.0
  {
    AssessedIsPart(items);
    if items != [] { QuotientIn(PartWeight(Parts(items)), WeightSum(items), 0.0, 1.0); }
  }

  /** What the coverage of a vendor is, given distinct criterion ids: the assessed share of the
      weight, to four digits, hence between 0 and 1. */
  lemma CoverageIsShare(items: seq<Item>)
    requires DistinctIds(items) && PositiveWeights(items)
    ensures CardOf(items).coverage == Round(Share(items), Four)
    ensures 0.0 <= CardOf(items).coverage <= 1.0
  {
    DistinctWeights(items);
    DistinctGets(items);
    LookupsAreWeights(items, Weights(items));
    AssessedIsPart(items);
    RoundOfConstants(Four);
    ShareInUnit(items);
    RoundMonotone(0.0, Share(items), Four);
    RoundMonotone(Share(items), 1.0, Four);
  }

  // ---- duplicate ids ----------------------------------------------------------------------------

  function Occurrences(scores: seq<Score>, id: Id): nat {
    if scores == [] then 0 else
      Occurrences(scores[..|scores| - 1], id) +
      if !scores[|scores| - 1].insufficient && scores[|scores| - 1].id == id then 1 else 0
  }

  lemma {:induction false} LookupsOfPrepended(scores: seq<Score>, e: Entry, d: seq<Entry>)
    requires !Has(d, e.id)
    ensures LookupSum(scores, [e] + d) == LookupSum(scores, d) + e.weight * Occurrences(scores, e.id) as real
  {
    if scores != [] {
      LookupsOfPrepended(scores[..|scores| - 1], e, d);
      HasSome(d, e.id);
      assert ([e] + d)[1..] == d;
    }
  }

  lemma {:induction false} NothingLooksUpNothing(scores: seq<Score>)
    ensures LookupSum(scores, []) == 0.0
  {
    if scores != [] { NothingLooksUpNothing(scores[..|scores| - 1]); }
  }

  /** Keys are distinct and weights positive. */
  predicate Dictionary(d: seq<Entry>) {
    d != [] ==> d[0].weight > 0.0 && !Has(d[1..], d[0].id) && Dictionary(d[1..])
  }

  lemma OneMoreKey(lookups: real, values: real, w: real, n: nat, repeated: bool)
    requires lookups >= values && (lookups > values <==> repeated) && w > 0.0 && n >= 1
    ensures lookups + w * n as real >= values + w
    ensures lookups + w * n as real > values + w <==> repeated || n >= 2
  {
    var more := n as real - 1.0;
    MulMonotone(0.0, more, w);
    if n >= 2 { MulMonotone(1.0, more, w); }
    assert w * n as real == w + more * w;
  }

  ghost predicate Repeated(scores: seq<Score>, d: seq<Entry>) {
    exists id :: Has(d, id) && Occurrences(scores, id) >= 2
  }

  ghost predicate AllOccur(scores: seq<Score>, d: seq<Entry>) {
    forall id :: Has(d, id) ==> Occurrences(scores, id) >= 1
  }

  /** Looking up every occurrence costs at least the sum of the values, and more exactly when some
      id occurs twice. */
  lemma {:induction false} LookupsExceed(scores: seq<Score>, d: seq<Entry>)
    requires Dictionary(d) && AllOccur(scores, d)
    ensures LookupSum(scores, d) >= ValueSum(d)
    ensures LookupSum(scores, d) > ValueSum(d) <==> Repeated(scores, d)
  {
    if d == [] {
      NothingLooksUpNothing(scores);
    } else {
      var e, rest := d[0], d[1..];
      TailOccurs(scores, d);
      LookupsExceed(scores, rest);
      LookupsOfPrepended(scores, e, rest);
      assert d == [e] + rest;
      RepeatedOfCons(scores, d);
      OneMoreKey(LookupSum(scores, rest), ValueSum(rest), e.weight, Occurrences(scores, e.id), Repeated(scores, rest));
    }
  }

  lemma TailOccurs(scores: seq<Score>, d: seq<Entry>)
    requires d != [] && AllOccur(scores, d)
    ensures AllOccur(scores, d[1..]) && Occurrences(scores, d[0].id) >= 1
  {
    assert Has(d, d[0].id);
    forall id | Has(d[1..], id) ensures Occurrences(scores, id) >= 1 { assert Has(d, id); }
  }

  lemma RepeatedOfCons(scores: seq<Score>, d: seq<Entry>)
    requires d != []
    ensures Repeated(scores, d) <==> Repeated(scores, d[1..]) || Occurrences(scores, d[0].id) >= 2
  {
    if Occurrences(scores, d[0].id) >= 2 { assert Has(d, d[0].id); }
    if id :| Has(d[1..], id) && Occurrences(scores, id) >= 2 { assert Has(d, id); }
  }

  predicate AllAssessed(items: seq<Item>) {
    forall i :: 0 <= i < |items| ==> Assessed(items[i])
  }

  lemma {:induction false} PutKeeps(d: seq<Entry>, id: Id, w: real)
    requires Dictionary(d) && w > 0.0
    ensures Dictionary(Put(d, id, w)) && (forall k :: Has(Put(d, id, w), k) <==> Has(d, k) || k == id)
  {
    if d != [] && d[0].id != id { PutKeeps(d[1..], id, w); }
  }

  /** Of several criteria with one id the last one's weight counts. */
  lemma {:induction false} LastWeightCounts(items: seq<Item>, i: nat)
    requires PositiveWeights(items) && i < |items|
    requires forall j :: i < j < |items| ==> items[j].criterion.id != items[i].criterion.id
    ensures Get(Weights(items), items[i].criterion.id) == items[i].criterion.weight
  {
    var n := |items| - 1;
    var c := items[n].criterion;
    PutGets(Weights(items[..n]), c.id, c.weight, items[i].criterion.id);
    if i < n {
      assert items[n].criterion.id != items[i].criterion.id;
      LastWeightCounts(items[..n], i);
    }
  }

  lemma {:induction false} PutGets(d: seq<Entry>, id: Id, w: real, k: Id)
    ensures Get(Put(d, id, w), k) == if k == id then w else Get(d, k)
  {
    if d != [] { PutGets(d[1..], id, w, k); }
  }

  function IdCount(items: seq<Item>, id: Id): nat {
    if items == [] then 0 else
      IdCount(items[..|items| - 1], id) + if items[|items| - 1].criterion.id == id then 1 else 0
  }

  lemma {:induction false} KeysAreIds(items: seq<Item>, id: Id)
    requires PositiveWeights(items)
    ensures Dictionary(Weights(items))
    ensures Has(Weights(items), id) <==> IdCount(items, id) >= 1
  {
    if items != [] {
      var init, c := items[..|items| - 1], items[|items| - 1].criterion;
      KeysAreIds(init, id);
      PutKeeps(Weights(init), c.id, c.weight);
    }
  }

  lemma {:induction false} ScoresCountIds(items: seq<Item>, id: Id)
    requires AllAssessed(items)
    ensures Occurrences(Scores(items), id) == IdCount(items, id)
  {
    if items != [] {
      var init, last := items[..|items| - 1], items[|items| - 1];
      ScoresCountIds(init, id);
      ScoresStep(items);
      AssessedIsScored(last);
      OneMoreScore(Scores(init), ScoreCriterion(last).value, []);
    }
  }

  lemma {:induction false} IdCountIsSome(items: seq<Item>, id: Id)
    ensures IdCount(items, id) >= 1 <==> exists i :: 0 <= i < |items| && items[i].criterion.id == id
  {
    if items != [] {
      var init := items[..|items| - 1];
      assert forall i :: 0 <= i < |init| ==> init[i] == items[i];
      IdCountIsSome(init, id);
    }
  }

  lemma DistinctStep(items: seq<Item>)
    requires items != []
    ensures var init, id := items[..|items| - 1], items[|items| - 1].criterion.id;
            DistinctIds(items) <==> DistinctIds(init) && IdCount(init, id) == 0
  {
    var init, id := items[..|items| - 1], items[|items| - 1].criterion.id;
    assert forall i :: 0 <= i < |init| ==> init[i] == items[i];
    IdCountIsSome(init, id);
  }

  lemma {:induction false} DistinctMeansOnce(items: seq<Item>, id: Id)
    requires DistinctIds(items)
    ensures IdCount(items, id) <= 1
  {
    if items != [] {
      DistinctStep(items);
      DistinctMeansOnce(items[..|items| - 1], id);
    }
  }

  lemma {:induction false} RepeatedId(items: seq<Item>) returns (id: Id)
    requires !DistinctIds(items)
    ensures IdCount(items, id) >= 2
  {
    DistinctStep(items);
    if DistinctIds(items[..|items| - 1]) {
      id := items[|items| - 1].criterion.id;
    } else {
      id := RepeatedId(items[..|items| - 1]);
    }
  }

  /** Two criteria with one id make the agent see more weight assessed than there is, before rounding:
      with every criterion scored, that happens exactly when ids repeat. */
  lemma AssessedExceedsTotalIff(items: seq<Item>)
    requires AllAssessed(items) && PositiveWeights(items)
    ensures LookupSum(Scores(items), Weights(items)) > ValueSum(Weights(items)) <==> !DistinctIds(items)
  {
    var scores, d := Scores(items), Weights(items);
    forall id ensures Has(d, id) <==> IdCount(items, id) >= 1 ensures Occurrences(scores, id) == IdCount(items, id) {
      KeysAreIds(items, id);
      ScoresCountIds(items, id);
    }
    KeysAreIds(items, "");
    LookupsExceed(scores, d);
    if DistinctIds(items) {
      forall id ensures Occurrences(scores, id) <= 1 { DistinctMeansOnce(items, id); }
    } else {
      var id := RepeatedId(items);
      assert Has(d, id) && Occurrences(scores, id) >= 2;
    }
  }

  // ---- when the output type refuses the coverage ------------------------------------------------------

  lemma {:induction false} DictionarySum(d: seq<Entry>)
    requires Dictionary(d)
    ensures ValueSum(d) >= 0.0 && (d != [] ==> ValueSum(d) > 0.0)
    ensures forall id :: Get(d, id) >= 0.0
  {
    if d != [] { DictionarySum(d[1..]); }
  }

  lemma QuotientExceeds(a: real, b: real, q: real)
    requires b > 0.0
    ensures a / b > q <==> a > q * b
  {
    QuotientTimes(a, b);
    if a / b > q { StrictlyLess(q, a / b, b); } else { MulMonotone(a / b, q, b); }
  }

  lemma WeightsAreEmpty(items: seq<Item>)
    ensures Weights(items) == [] <==> items == []
  {
  }

  /** The published coverage leaves the range the output type allows exactly when the weight looked up
      for the scored criteria exceeds the weight of the distinct ids by more than half of the last
      kept digit. */
  lemma CoverageIsRefusedIff(items: seq<Item>)
    requires PositiveWeights(items)
    ensures CardOf(items).coverage > 1.0 <==>
            LookupSum(Scores(items), Weights(items)) > 1.00005 * ValueSum(Weights(items))
  {
    var assessed, total := LookupSum(Scores(items), Weights(items)), ValueSum(Weights(items));
    KeysAreIds(items, "");
    DictionarySum(Weights(items));
    WeightsAreEmpty(items);
    if items == [] {
      assert Scores(items) == [];
    } else {
      RoundExceedsOne(assessed / total);
      QuotientExceeds(assessed, total, 1.00005);
    }
  }

  /** The same criteria, whatever the model answers. */
  predicate SameCriteria(a: seq<Item>, b: seq<Item>) {
    |a| == |b| && forall i :: 0 <= i < |a| ==> a[i].criterion == b[i].criterion
  }

  /** What looking up every criterion adds up to. */
  function AllLookups(items: seq<Item>, d: seq<Entry>): real {
    if items == [] then 0.0 else AllLookups(items[..|items| - 1], d) + Get(d, items[|items| - 1].criterion.id)
  }

  lemma {:induction false} LookupsAtMostAll(items: seq<Item>, d: seq<Entry>)
    requires forall id :: Get(d, id) >= 0.0
    ensures LookupSum(Scores(items), d) <= AllLookups(items, d)
    ensures AllAssessed(items) ==> LookupSum(Scores(items), d) == AllLookups(items, d)
  {
    if items != [] {
      var init, last := items[..|items| - 1], items[|items| - 1];
      LookupsAtMostAll(init, d);
      ScoresStep(items);
      AssessedIsScored(last);
      var s := ScoreCriterion(last);
      if s.Some? { OneMoreScore(Scores(init), s.value, d); }
    }
  }

  lemma {:induction false} SameCriteriaSameSums(a: seq<Item>, b: seq<Item>, d: seq<Entry>)
    requires SameCriteria(a, b)
    ensures Weights(a) == Weights(b) && AllLookups(a, d) == AllLookups(b, d)
  {
    if a != [] { SameCriteriaSameSums(a[..|a| - 1], b[..|b| - 1], d); }
  }

  function AllAnswered(items: seq<Item>): (r: seq<Item>)
    ensures SameCriteria(items, r) && AllAssessed(r)
  {
    seq(|items|, i requires 0 <= i < |items| => Item(items[i].criterion, NotJson))
  }

  /** What that means for a setup: some answers make its output be refused exactly when its criteria,
      each counted with the weight its id ends up with, weigh that much more than its distinct ids.
      With distinct ids it never happens. */
  lemma SetupCanBeRefusedIff(items: seq<Item>)
    requires PositiveWeights(items)
    ensures (exists others :: SameCriteria(items, others) && CardOf(others).coverage > 1.0) <==>
            AllLookups(items, Weights(items)) > 1.00005 * ValueSum(Weights(items))
    ensures DistinctIds(items) ==> AllLookups(items, Weights(items)) == ValueSum(Weights(items))
  {
    var d := Weights(items);
    KeysAreIds(items, "");
    DictionarySum(d);
    forall others | SameCriteria(items, others)
      ensures CardOf(others).coverage > 1.0 ==> AllLookups(items, d) > 1.00005 * ValueSum(d)
      ensures AllAssessed(others) && AllLookups(items, d) > 1.00005 * ValueSum(d) ==> CardOf(others).coverage > 1.0
    {
      SameCriteriaSameSums(items, others, d);
      CoverageIsRefusedIff(others);
      LookupsAtMostAll(others, d);
    }
    assert SameCriteria(items, AllAnswered(items));
    if DistinctIds(items) { DistinctLookups(items); }
  }

  lemma DistinctLookups(items: seq<Item>)
    requires DistinctIds(items)
    ensures AllLookups(items, Weights(items)) == ValueSum(Weights(items))
  {
    DistinctWeights(items);
    DistinctGets(items);
    LookupsAreAll(items, Weights(items));
  }

  lemma {:induction false} LookupsAreAll(items: seq<Item>, d: seq<Entry>)
    requires forall i :: 0 <= i < |items| ==> Get(d, items[i].criterion.id) == items[i].criterion.weight
    ensures AllLookups(items, d) == WeightSum(items)
  {
    if items != [] { LookupsAreAll(items[..|items| - 1], d); }
  }

  // ---- the normalised score ---------------------------------------------------------------------

  lemma ContributionIsNonNegative(item: Item)
    requires item.criterion.weight > 0.0 && ScoreCriterion(item).Some?
    ensures ScoreCriterion(item).value.contribution >= 0.0
  {
    AssessedIsScored(item);
    if Assessed(item) {
      RoundOfConstants(Four);
      MulMonotone(0.0, RawOf(item) as real / 10.0, item.criterion.weight);
      RoundMonotone(0.0, RawOf(item) as real / 10.0 * item.criterion.weight, Four);
    }
  }

  lemma {:induction false} TotalIsNonNegative(items: seq<Item>)
    requires PositiveWeights(items)
    ensures ContributionSum(Scores(items)) >= 0.0
  {
    if items != [] {
      var init, last := items[..|items| - 1], items[|items| - 1];
      TotalIsNonNegative(init);
      ScoresStep(items);
      var s := ScoreCriterion(last);
      if s.Some? {
        OneMoreScore(Scores(init), s.value, []);
        ContributionIsNonNegative(last);
      }
    }
  }

  lemma DividingBySmallGrows(a: real, c: real)
    requires a >= 0.0 && 0.0 < c <= 1.0
    ensures a / c >= a
  {
    MulMonotone(c, 1.0, a);
    QuotientIn(a, c, a, a / c);
  }

  /** At full coverage normalising changes nothing; at positive partial coverage it never lowers the
      total; at none the result is zero. */
  lemma NormalisingOnlyRaises(items: seq<Item>)
    requires DistinctIds(items) && PositiveWeights(items)
    ensures var card := CardOf(items);
            && (card.coverage == 1.0 ==> card.normalised == card.total)
            && (card.coverage > 0.0 ==> card.normalised >= card.total >= 0.0)
            && (card.coverage == 0.0 ==> card.normalised == 0.0)
  {
    CoverageIsShare(items);
    TotalIsNonNegative(items);
    NormalisedTotal(ContributionSum(Scores(items)) * 10.0, CardOf(items).coverage);
  }

  lemma NormalisedTotal(sum: real, coverage: real)
    requires sum >= 0.0 && 0.0 <= coverage <= 1.0
    ensures var total := Round(sum, Two);
            && total >= 0.0
            && (coverage == 1.0 ==> Normalised(total, coverage) == total)
            && (coverage > 0.0 ==> Normalised(total, coverage) >= total)
  {
    var total := Round(sum, Two);
    RoundOfConstants(Two);
    RoundMonotone(0.0, sum, Two);
    RoundFixesMultiples(sum, Two);
    RoundFixesMultiples(total, Two);
    if coverage > 0.0 {
      DividingBySmallGrows(total, coverage);
      RoundMonotone(total, total / coverage, Two);
    }
  }

  predicate RawsBetween(parts: seq<Part>, lo: int, hi: int) {
    forall i :: 0 <= i < |parts| ==> lo <= parts[i].raw <= hi
  }

  lemma {:induction false} ExactBetween(parts: seq<Part>, lo: int, hi: int)
    requires RawsBetween(parts, lo, hi) && forall i :: 0 <= i < |parts| ==> parts[i].weight > 0.0
    ensures Between(lo as real, hi as real, PartWeight(parts), Exact(parts))
  {
    if parts != [] {
      var init, last := parts[..|parts| - 1], parts[|parts| - 1];
      ExactBetween(init, lo, hi);
      OneMoreBetween(lo as real, hi as real, PartWeight(init), Exact(init), last.weight, last.raw as real);
    }
  }

  predicate Between(lo: real, hi: real, weight: real, sum: real) {
    lo * weight <= sum <= hi * weight
  }

  lemma OneMoreBetween(lo: real, hi: real, weight: real, sum: real, w: real, raw: real)
    requires w > 0.0 && lo <= raw <= hi && Between(lo, hi, weight, sum)
    ensures Between(lo, hi, weight + w, sum + raw * w)
  {
    MulMonotone(lo, raw, w);
    MulMonotone(raw, hi, w);
    assert lo * (weight + w) == lo * weight + lo * w;
    assert hi * (weight + w) == hi * weight + hi * w;
  }

  /** The weighted mean of the raw scores over the assessed criteria. */
  function Mean(parts: seq<Part>): real {
    if PartWeight(parts) == 0.0 then 0.0 else Exact(parts) / PartWeight(parts)
  }

  /** It lies between the lowest and the highest of those raw scores. */
  lemma MeanBetween(items: seq<Item>, parts: seq<Part>, lo: int, hi: int)
    requires PositiveWeights(items) && parts == Parts(items) && parts != [] && RawsBetween(parts, lo, hi)
    ensures lo as real <= Mean(parts) <= hi as real
  {
    AssessedIsPart(items);
    PartsMeanBetween(parts, lo, hi);
  }

  lemma PartsMeanBetween(parts: seq<Part>, lo: int, hi: int)
    requires PartWeight(parts) > 0.0 && RawsBetween(parts, lo, hi) && forall i :: 0 <= i < |parts| ==>
        parts[i].weight > 0.0
    ensures lo as real <= Mean(parts) <= hi as real
  {
    ExactBetween(parts, lo, hi);
    MeanIn(parts, lo as real, hi as real);
  }

  lemma MeanIn(parts: seq<Part>, lo: real, hi: real)
    requires PartWeight(parts) > 0.0 && lo * PartWeight(parts) <= Exact(parts) <= hi * PartWeight(parts)
    ensures lo <= Mean(parts) <= hi
  {
    QuotientIn(Exact(parts), PartWeight(parts), lo, hi);
  }

  /** `m` is that mean. */
  predicate IsMean(parts: seq<Part>, m: real) {
    PartWeight(parts) > 0.0 && m * PartWeight(parts) == Exact(parts)
  }

  lemma OnlyMean(parts: seq<Part>, m: real)
    requires PartWeight(parts) > 0.0
    ensures IsMean(parts, m) <==> m == Mean(parts)
  {
    QuotientTimes(Exact(parts), PartWeight(parts));
    if IsMean(parts, m) { QuotientIs(Exact(parts), PartWeight(parts), m); }
  }

  /** `s` is the assessed share of the weight. */
  predicate IsShare(items: seq<Item>, s: real) {
    s > 0.0 && WeightSum(items) > 0.0 && s * WeightSum(items) == PartWeight(Parts(items))
  }

  lemma ShareIsShare(items: seq<Item>)
    requires PositiveWeights(items) && Parts(items) != []
    ensures IsShare(items, Share(items))
  {
    AssessedIsPart(items);
    PositiveQuotient(PartWeight(Parts(items)), WeightSum(items));
  }

  lemma PositiveQuotient(a: real, w: real)
    requires a > 0.0 && w > 0.0
    ensures a / w > 0.0 && a / w * w == a
  {
    QuotientTimes(a, w);
    if a / w <= 0.0 { MulMonotone(a / w, 0.0, w); }
  }

  /** `m` is the unrounded total projected over the unrounded coverage. */
  ghost predicate IsProjection(items: seq<Item>, m: real) {
    exists s :: IsShare(items, s) && Projects(items, m, s)
  }

  predicate Projects(items: seq<Item>, m: real, s: real) {
    m * s == Exact(Parts(items))
  }

  lemma SomeShare(items: seq<Item>) returns (s: real)
    requires PositiveWeights(items) && PartWeight(Parts(items)) > 0.0
    ensures IsShare(items, s)
  {
    s := Share(items);
    AssessedIsPart(items);
    ShareIsShare(items);
  }

  predicate Scales(items: seq<Item>, mean: real, m: real) {
    m == WeightSum(items) * mean
  }

  lemma ProjectsIff(items: seq<Item>, mean: real, m: real, s: real)
    requires IsShare(items, s) && IsMean(Parts(items), mean)
    ensures Projects(items, m, s) <==> Scales(items, mean, m)
  {
    ScaledByShare(Exact(Parts(items)), PartWeight(Parts(items)), WeightSum(items), s, mean, m);
  }

  /** That projection is the mean, scaled by the sum of all weights. */
  lemma UnroundedIsMean(items: seq<Item>, mean: real, m: real)
    requires PositiveWeights(items) && IsMean(Parts(items), mean)
    ensures IsProjection(items, m) <==> Scales(items, mean, m)
  {
    var s := SomeShare(items);
    ProjectsIff(items, mean, m, s);
    forall s' | IsShare(items, s') && Projects(items, m, s')
        ensures Scales(items, mean, m) { ProjectsIff(items, mean, m, s'); }
  }

  lemma ScaledByShare(e: real, a: real, w: real, s: real, mean: real, m: real)
    requires s > 0.0 && s * w == a && mean * a == e
    ensures m * s == e <==> m == w * mean
  {
    QuotientOfShare(e, a, w, s, mean);
    QuotientTimes(e, s);
    if m * s == e { QuotientIs(e, s, m); }
  }

  lemma QuotientOfShare(e: real, a: real, w: real, s: real, m: real)
    requires s > 0.0 && s * w == a && m * a == e
    ensures e / s == w * m
  {
    assert (w * m) * s == m * (s * w);
    QuotientIs(e, s, w * m);
  }

  lemma Drift(m: real, top: real, a: real, c: real, delta: real)
    requires 0.0 <= m <= top && a - delta <= c <= a + delta
    ensures m * a - top * delta <= m * c <= m * a + top * delta
  {
    MulMonotone(m, top, delta);
    MulMonotone(a - delta, c, m);
    MulMonotone(c, a + delta, m);
    var d := delta * m;
    assert d == m * delta;
    assert d <= top * delta;
    assert (a - delta) * m == m * a - d;
    assert (a + delta) * m == m * a + d;
    assert c * m == m * c;
  }

  /** A quotient of perturbed terms: |t/c - m| where both t and c are off a little from m a and a. */
  lemma PerturbedQuotient(t: real, c: real, m: real, top: real, a: real, eps: real, delta: real)
    requires c > 0.0 && 0.0 <= m <= top
    requires m * a - eps <= t <= m * a + eps && a - delta <= c <= a + delta
    ensures m - (eps + top * delta) / c <= t / c <= m + (eps + top * delta) / c
  {
    Drift(m, top, a, c, delta);
    var s := eps + top * delta;
    QuotientTimes(s, c);
    var q := s / c;
    assert (m - q) * c == m * c - s && (m + q) * c == m * c + s;
    QuotientIn(t, c, m - q, m + q);
  }

  predicate Near(x: real, y: real, slack: real) {
    y - slack <= x <= y + slack
  }

  /** End to end, for any sum of weights: the score vendors are ranked by is that projection, up to what
      the three roundings can move it. */
  lemma NormalisedIsNearMean(items: seq<Item>, m: real)
    requires DistinctIds(items) && PositiveWeights(items) && CardOf(items).coverage > 0.0
    requires IsProjection(items, m)
    ensures Near(CardOf(items).normalised, m,
                 0.005 + (0.005 + 0.0005 * |Parts(items)| as real + 0.0005 * WeightSum(items)) / CardOf(items).coverage)
  {
    CoverageIsNear(items);
    TotalIsNear(items);
    NearByShare(items, m, CardOf(items).total, CardOf(items).coverage);
  }

  /** The same of any total and coverage that are near the exact ones. */
  lemma NearByShare(items: seq<Item>, m: real, t: real, c: real)
    requires PositiveWeights(items) && IsProjection(items, m) && c > 0.0 && Near(c, Share(items), 0.00005)
    requires Near(t, Exact(Parts(items)), 0.005 + 0.0005 * |Parts(items)| as real)
    ensures Near(Normalised(t, c), m, 0.005 + (0.005 + 0.0005 * |Parts(items)| as real + 0.0005 * WeightSum(items)) / c)
  {
    var s :| IsShare(items, s) && Projects(items, m, s);
    ShareIsUnique(items, s);
    ExactAtMost(items);
    NormalisedIsNear(t, c, Exact(Parts(items)), s, PartWeight(Parts(items)), WeightSum(items), |Parts(items)| as real,
                     m);
  }

  lemma ExactAtMost(items: seq<Item>)
    requires PositiveWeights(items)
    ensures 0.0 <= Exact(Parts(items)) <= 10.0 * PartWeight(Parts(items))
  {
    AssessedIsPart(items);
    ExactBetween(Parts(items), 0, 10);
  }

  lemma NormalisedIsNear(t: real, c: real, e: real, s: real, assessed: real, total: real, n: real, m: real)
    requires c > 0.0 && s > 0.0 && 0.0 <= e <= 10.0 * assessed && s * total == assessed && m * s == e
    requires Near(t, e, 0.005 + 0.0005 * n) && Near(c, s, 0.00005)
    ensures Near(Normalised(t, c), m, 0.005 + (0.005 + 0.0005 * n + 0.0005 * total) / c)
  {
    var eps := 0.005 + 0.0005 * n;
    assert 10.0 * assessed == (10.0 * total) * s;
    QuotientIn(e, s, 0.0, 10.0 * total);
    QuotientIs(e, s, m);
    PerturbedQuotient(t, c, m, 10.0 * total, s, eps, 0.00005);
    assert eps + 10.0 * total * 0.00005 == 0.005 + 0.0005 * n + 0.0005 * total;
    RoundIsNear(t / c, Two);
  }

  lemma CoverageIsNear(items: seq<Item>)
    requires DistinctIds(items) && PositiveWeights(items) && CardOf(items).coverage > 0.0
    ensures Near(CardOf(items).coverage, Share(items), 0.00005)
  {
    CoverageIsShare(items);
    RoundIsNear(Share(items), Four);
  }

  lemma ShareIsUnique(items: seq<Item>, s: real)
    requires IsShare(items, s)
    ensures s == Share(items)
  {
    QuotientIs(PartWeight(Parts(items)), WeightSum(items), s);
  }

  /** For every setup the setup type accepts, whose weights sum to between 0.99 and 1.01, that is
      within 0.105 plus the roundings of the plain mean. */
  lemma AcceptedSetupIsNearMean(items: seq<Item>, mean: real)
    requires DistinctIds(items) && PositiveWeights(items) && CardOf(items).coverage > 0.0
    requires IsMean(Parts(items), mean) && 0.99 <= WeightSum(items) <= 1.01
    ensures Near(CardOf(items).normalised, mean,
                 0.105 + (0.005505 + 0.0005 * |Parts(items)| as real) / CardOf(items).coverage)
  {
    var m := ProjectionNearMean(items, mean);
    NormalisedIsNearMean(items, m);
    WiderSlack(CardOf(items).normalised, WeightSum(items), m, mean, |Parts(items)| as real, CardOf(items).coverage);
  }

  lemma ProjectionNearMean(items: seq<Item>, mean: real) returns (m: real)
    requires PositiveWeights(items) && IsMean(Parts(items), mean) && 0.99 <= WeightSum(items) <= 1.01
    ensures IsProjection(items, m) && Near(m, mean, 0.1)
  {
    m := WeightSum(items) * mean;
    UnroundedIsMean(items, mean, m);
    MeanInScale(items, mean);
    NotAbove(WeightSum(items), mean);
    NotBelow(WeightSum(items), mean);
  }

  lemma MeanInScale(items: seq<Item>, mean: real)
    requires PositiveWeights(items) && IsMean(Parts(items), mean)
    ensures 0.0 <= mean <= 10.0
  {
    OnlyMean(Parts(items), mean);
    MeanBetween(items, Parts(items), 0, 10);
  }

  lemma WiderSlack(x: real, total: real, m: real, mean: real, n: real, c: real)
    requires total <= 1.01 && c > 0.0 && Near(m, mean, 0.1)
    requires Near(x, m, 0.005 + (0.005 + 0.0005 * n + 0.0005 * total) / c)
    ensures Near(x, mean, 0.105 + (0.005505 + 0.0005 * n) / c)
  {
    MoreSlack(0.005 + 0.0005 * n + 0.0005 * total, 0.005505 + 0.0005 * n, c);
  }

  lemma NotAbove(total: real, mean: real)
    requires total <= 1.01 && 0.0 <= mean <= 10.0
    ensures total * mean <= mean + 0.1
  {
    var gap := (1.01 - total) * mean;
    assert gap >= 0.0;
    assert gap == 1.01 * mean - total * mean;
  }

  lemma NotBelow(total: real, mean: real)
    requires total >= 0.99 && 0.0 <= mean <= 10.0
    ensures total * mean >= mean - 0.1
  {
    var gap := (total - 0.99) * mean;
    assert gap >= 0.0;
    assert gap == total * mean - 0.99 * mean;
  }

  lemma MoreSlack(a: real, b: real, c: real)
    requires a <= b && c > 0.0
    ensures a / c <= b / c
  {
    QuotientTimes(b, c);
    QuotientTimes(a, c);
    if a / c > b / c { StrictlyLess(b / c, a / c, c); }
  }

  // ---- what the output type demands -------------------------------------------------------------

  lemma OneMoreConfidence(scores: seq<Score>, s: Score)
    ensures ConfidenceSum(scores + [s]) == ConfidenceSum(scores) + if s.insufficient then 0.0 else s.confidence
    ensures ScoredCount(scores + [s]) == ScoredCount(scores) + if s.insufficient then 0 else 1
  {
    assert (scores + [s])[..|scores|] == scores;
  }

  lemma {:induction false} ConfidencesInUnit(items: seq<Item>)
    ensures var scores := Scores(items); 0.0 <= ConfidenceSum(scores) <= ScoredCount(scores) as real
  {
    if items != [] {
      var init := items[..|items| - 1];
      ConfidencesInUnit(init);
      ScoresStep(items);
      var s := ScoreCriterion(items[|items| - 1]);
      if s.Some? { OneMoreConfidence(Scores(init), s.value); }
    }
  }

  /** The confidences of the criteria that were assessed, in order. */
  function ConfidencesOf(items: seq<Item>): seq<real> {
    if items == [] then [] else
      ConfidencesOf(items[..|items| - 1]) +
      match items[|items| - 1].answer
      case NotJson => [0.0]
      case Numbers(_, confidence, _) => if 0.0 <= confidence <= 1.0 then [confidence] else []
      case _ => []
  }

  function SumOf(xs: seq<real>): real {
    if xs == [] then 0.0 else SumOf(xs[..|xs| - 1]) + xs[|xs| - 1]
  }

  lemma {:induction false} ConfidencesAre(items: seq<Item>)
    ensures ScoredCount(Scores(items)) == |ConfidencesOf(items)|
    ensures ConfidenceSum(Scores(items)) == SumOf(ConfidencesOf(items))
  {
    if items != [] {
      var init, last := items[..|items| - 1], items[|items| - 1];
      ConfidencesAre(init);
      ScoresStep(items);
      AnswerMeans(last);
      var s := ScoreCriterion(last);
      if s.Some? { OneMoreConfidence(Scores(init), s.value); }
      OneMoreValue(ConfidencesOf(init), if s.Some? then s.value.confidence else 0.0);
    }
  }

  lemma OneMoreValue(xs: seq<real>, x: real)
    ensures SumOf(xs + [x]) == SumOf(xs) + x
    ensures xs + [] == xs
  {
    assert (xs + [x])[..|xs|] == xs;
  }

  /** The published confidence is the mean over the assessed criteria, to three digits, and zero without
      any. */
  lemma ConfidenceIsMean(items: seq<Item>)
    ensures var cs := ConfidencesOf(items);
            CardOf(items).confidence == if cs == [] then 0.0 else Round(SumOf(cs) / |cs| as real, Three)
  {
    ConfidencesAre(items);
    assert CardOf(items).confidence == AverageConfidence(Scores(items));
  }

  /** With distinct ids the output always passes its own bounds: coverage and average confidence lie
      between 0 and 1. */
  lemma OutputIsWithinBounds(items: seq<Item>)
    requires DistinctIds(items) && PositiveWeights(items)
    ensures 0.0 <= CardOf(items).coverage <= 1.0 && 0.0 <= CardOf(items).confidence <= 1.0
  {
    CoverageIsShare(items);
    ConfidencesInUnit(items);
    var scores := Scores(items);
    RoundOfConstants(Three);
    if ScoredCount(scores) > 0 {
      var n := ScoredCount(scores) as real;
      QuotientIn(ConfidenceSum(scores), n, 0.0, 1.0);
      RoundMonotone(0.0, ConfidenceSum(scores) / n, Three);
      RoundMonotone(ConfidenceSum(scores) / n, 1.0, Three);
    }
  }
}
