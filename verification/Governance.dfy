/** The two configured tables of app/agents/decision.py: recommendation bands and approval tiers.
    Both are scanned after sorting; a configuration is an arbitrary table. */
module Governance {
  import opened Common
  import opened StableSort

  datatype Band = Band(name: string, least: real)

  const FALLBACK: string := "marginal"

  function ByLeast(): Band -> Key {
    (b: Band) => Finite(-b.least)
  }

  /** The bands, highest first. */
  function Bands(table: seq<Band>): seq<Band> {
    Sort(table, ByLeast())
  }

  lemma BandsFall(table: seq<Band>)
    ensures forall i, j :: 0 <= i < j < |Bands(table)| ==> Bands(table)[i].least >= Bands(table)[j].least
    ensures forall b :: b in Bands(table) <==> b in table
  {
    SortAscends(table, ByLeast());
    forall i, j | 0 <= i < j < |Bands(table)| ensures Bands(table)[i].least >= Bands(table)[j].least {
      assert AtMost(ByLeast()(Bands(table)[i]), ByLeast()(Bands(table)[j]));
    }
    forall b ensures b in Bands(table) <==> b in table { SortHasSameMembers(table, ByLeast(), b); }
  }

  /** The position a score reaches among the bands: the first whose minimum it meets, or one past
      the last. */
  predicate Reaches(bands: seq<Band>, score: real, i: nat) {
    && i <= |bands| && (i < |bands| ==> score >= bands[i].least)
    && forall j :: 0 <= j < i ==> score < bands[j].least
  }

  method Recommend(table: seq<Band>, score: real) returns (name: string, ghost at: nat)
    ensures Reaches(Bands(table), score, at)
    ensures name == if at < |Bands(table)| then Bands(table)[at].name else FALLBACK
    ensures BestLabel(table, score, name)
  {
    BestBand(table, score);
    var bands := Bands(table);
    SortIsPermutation(table, ByLeast());
    for i := 0 to |bands|
      invariant forall j :: 0 <= j < i ==> score < bands[j].least
    {
      if score >= bands[i].least { return bands[i].name, i; }
    }
    return FALLBACK, |bands|;
  }

  /** The band reached is the best the score qualifies for: no band the score meets has a higher
      minimum. */
  lemma ReachedIsBest(table: seq<Band>, score: real, i: nat, b: Band)
    requires Reaches(Bands(table), score, i) && b in table && score >= b.least
    ensures i < |Bands(table)| && Bands(table)[i].least >= b.least
  {
    BandsFall(table);
    var k :| 0 <= k < |Bands(table)| && Bands(table)[k] == b;
    if k < i { assert score < Bands(table)[k].least; }
  }

  /** The label of a band the score meets, none it meets having a higher minimum; "marginal" if it meets
      none. */
  ghost predicate BestLabel(table: seq<Band>, score: real, name: string) {
    if forall b :: b in table ==> score < b.least then name == "marginal"
    else
      exists b :: b in table && b.name == name && b.least <= score &&
        forall c :: c in table && c.least <= score ==> c.least <= b.least
  }

  lemma LabelledIsBest(table: seq<Band>, score: real, name: string)
    requires Labelled(table, score, name)
    ensures BestLabel(table, score, name)
  {
    BestBand(table, score);
  }

  /** What the position reached means for the table itself. */
  lemma BestBand(table: seq<Band>, score: real)
    ensures forall at: nat :: Reaches(Bands(table), score, at) ==>
              if at < |Bands(table)|
              then Bands(table)[at] in table && Bands(table)[at].least <= score &&
                forall c :: c in table && c.least <= score ==> c.least <= Bands(table)[at].least
              else forall c :: c in table ==> score < c.least
  {
    BandsFall(table);
    forall at: nat, c | Reaches(Bands(table), score, at) && c in table && c.least <= score
      ensures at < |Bands(table)| && c.least <= Bands(table)[at].least
    {
      ReachedIsBest(table, score, at, c);
    }
    assert forall at: nat :: at < |Bands(table)| ==> Bands(table)[at] in Bands(table);
  }

  /** For any table: a lower score never reaches a better position. */
  lemma PositionNeverImproves(table: seq<Band>, high: real, low: real, i: nat, j: nat)
    requires low <= high && Reaches(Bands(table), high, i) && Reaches(Bands(table), low, j)
    ensures i <= j
  {
  }

  // ---- by label ----------------------------------------------------------------------------------

  predicate DistinctLabels(table: seq<Band>) {
    forall i, j :: 0 <= i < j < |table| ==> table[i].name != table[j].name
  }

  /** The label a score gets. */
  ghost predicate Labelled(table: seq<Band>, score: real, name: string) {
    exists i: nat :: Reaches(Bands(table), score, i) &&
      name == if i < |Bands(table)| then Bands(table)[i].name else FALLBACK
  }

  /** Label `a` has a strictly higher minimum than label `b`. */
  ghost predicate Better(table: seq<Band>, a: string, b: string) {
    exists x, y :: x in table && y in table && x.name == a && y.name == b && x.least > y.least
  }

  /** "marginal" cannot be given to a score below the table while standing above other bands: it is
      not in the table, or has the lowest minimum, or every score meets the lowest. */
  ghost predicate FallbackIsLowest(table: seq<Band>) {
    forall m, b :: m in table && m.name == FALLBACK && b in table && m.least > b.least ==> MeetsSome(table)
  }

  /** Every score from zero up meets some band. */
  predicate MeetsSome(table: seq<Band>) {
    exists b :: b in table && b.least <= 0.0
  }

  /** A lower score never gets a better label. */
  ghost predicate LabelsNeverImprove(table: seq<Band>) {
    forall high: real, low: real, a, b :: 0.0 <= low <= high && Labelled(table, high, a) && Labelled(table, low, b) ==>
      !Better(table, b, a)
  }

  lemma SameLabelSameBand(table: seq<Band>, x: Band, y: Band)
    requires DistinctLabels(table) && x in table && y in table && x.name == y.name
    ensures x == y
  {
  }

  lemma ReachedExists(bands: seq<Band>, score: real, n: nat) returns (i: nat)
    requires n <= |bands| && forall j :: 0 <= j < n ==> score < bands[j].least
    ensures Reaches(bands, score, i) && i >= n
    decreases |bands| - n
  {
    if n == |bands| || score >= bands[n].least { i := n; } else { i := ReachedExists(bands, score, n + 1); }
  }

  lemma LabelOrder(table: seq<Band>, high: real, low: real, a: string, b: string)
    requires DistinctLabels(table) && FallbackIsLowest(table)
    requires 0.0 <= low <= high && Labelled(table, high, a) && Labelled(table, low, b)
    ensures !Better(table, b, a)
  {
    var bands := Bands(table);
    var i: nat :| Reaches(bands, high, i) && a == if i < |bands| then bands[i].name else FALLBACK;
    var j: nat :| Reaches(bands, low, j) && b == if j < |bands| then bands[j].name else FALLBACK;
    PositionNeverImproves(table, high, low, i, j);
    if x, y :| x in table && y in table && x.name == b && y.name == a && x.least > y.least {
      if j < |bands| { EarlierBandIsHigher(table, i, j, x, y); } else { SomeBandIsMet(table, low, x, y); }
    }
  }

  lemma EarlierBandIsHigher(table: seq<Band>, i: nat, j: nat, x: Band, y: Band)
    requires DistinctLabels(table) && i <= j < |Bands(table)| && x in table && y in table
    requires x.name == Bands(table)[j].name && y.name == Bands(table)[i].name
    ensures x.least <= y.least
  {
    BandsFall(table);
    SameLabelSameBand(table, x, Bands(table)[j]);
    SameLabelSameBand(table, y, Bands(table)[i]);
  }

  lemma SomeBandIsMet(table: seq<Band>, score: real, m: Band, b: Band)
    requires FallbackIsLowest(table) && m in table && m.name == FALLBACK && b in table && m.least > b.least &&
        score >= 0.0
    ensures !Reaches(Bands(table), score, |Bands(table)|)
  {
    var met :| met in table && met.least <= 0.0;
    if Reaches(Bands(table), score, |Bands(table)|) { ReachedIsBest(table, score, |Bands(table)|, met); }
  }

  /** A table whose lowest band is above zero and below "marginal": a score under everything is
      called "marginal", a better one gets the lower band. */
  lemma LabelImproves(table: seq<Band>, m: Band, b: Band)
    requires DistinctLabels(table) && m in table && m.name == FALLBACK && b in table && m.least > b.least
    requires !MeetsSome(table)
    ensures !LabelsNeverImprove(table)
  {
    BandsFall(table);
    var bands := Bands(table);
    var last := bands[|bands| - 1];
    var k :| 0 <= k < |bands| && bands[k] == b;
    assert last.least <= b.least && last.least > 0.0;
    var i := ReachedExists(bands, last.least, 0);
    var got := bands[i];
    assert Labelled(table, last.least, got.name);
    forall j | 0 <= j < |bands| ensures 0.0 < bands[j].least { assert bands[j] in table; }
    assert Reaches(bands, 0.0, |bands|);
    assert Labelled(table, 0.0, FALLBACK);
    assert Better(table, FALLBACK, got.name);
  }

  /** Exactly which tables keep labels from improving as the score falls. */
  lemma LabelsNeverImproveIff(table: seq<Band>)
    requires DistinctLabels(table)
    ensures LabelsNeverImprove(table) <==> FallbackIsLowest(table)
  {
    if FallbackIsLowest(table) {
      forall high: real, low: real, a, b | 0.0 <= low <= high && Labelled(table, high, a) && Labelled(table, low, b)
        ensures !Better(table, b, a)
      {
        LabelOrder(table, high, low, a, b);
      }
    } else {
      var m, b :| m in table && m.name == FALLBACK && b in table && m.least > b.least && !MeetsSome(table);
      LabelImproves(table, m, b);
    }
  }

  // ---- approval tiers ----------------------------------------------------------------------------

  datatype Tier = Tier(tier: int, most: Option<real>, slaHours: int)

  function ByMost(): Tier -> Key {
    (t: Tier) => if t.most.Some? then Finite(t.most.value) else Infinite
  }

  predicate Covers(t: Tier, value: real) {
    t.most.None? || value <= t.most.value
  }

  /** `t` is the smallest tier that covers the value, or the largest of all if none does. */
  ghost predicate Routed(table: seq<Tier>, value: real, t: Tier) {
    && t in table
    && if exists u :: u in table && Covers(u, value)
       then Covers(t, value) && forall u :: u in table && Covers(u, value) ==> AtMost(ByMost()(t), ByMost()(u))
       else forall u :: u in table ==> AtMost(ByMost()(u), ByMost()(t))
  }

  /** None: the table is empty and indexing it raises. */
  method RouteToTier(table: seq<Tier>, value: real) returns (t: Option<Tier>)
    ensures t.None? <==> table == []
    ensures t.Some? ==> Routed(table, value, t.value)
    ensures t.Some? ==>
              && t.value in table
              && ((exists u :: u in table && (u.most.None? || value <= u.most.value)) ==>
                    (t.value.most.Some? ==> value <= t.value.most.value))
              && (forall u :: u in table && u.most.Some? && value <= u.most.value ==>
                    t.value.most.Some? && t.value.most.value <= u.most.value)
              && ((forall u :: u in table ==> u.most.Some? && u.most.value < value) ==>
                    t.value.most.Some? && forall u :: u in table ==> u.most.value <= t.value.most.value)
  {
    var tiers := Sort(table, ByMost());
    SortAscends(table, ByMost());
    SortIsPermutation(table, ByMost());
    forall u ensures u in tiers <==> u in table { SortHasSameMembers(table, ByMost(), u); }
    for i := 0 to |tiers|
      invariant forall j :: 0 <= j < i ==> !Covers(tiers[j], value)
    {
      if Covers(tiers[i], value) {
        forall u | u in table && Covers(u, value) ensures AtMost(ByMost()(tiers[i]), ByMost()(u)) {
          var k :| 0 <= k < |tiers| && tiers[k] == u;
          assert i <= k;
        }
        return Some(tiers[i]);
      }
    }
    if tiers == [] { return None; }
    var last := tiers[|tiers| - 1];
    forall u | u in table ensures AtMost(ByMost()(u), ByMost()(last)) {
      var k :| 0 <= k < |tiers| && tiers[k] == u;
    }
    return Some(last);
  }
}
