/**
 Live personalized ranking: candidate rows are grouped by hotel, each hotel gets
 the weighted mean of its scores on the preferred attributes, and the hotels are
 listed best first with ties broken by coverage, source figures and identifier.
 */
module Ranking {
  import opened Common
  import opened Reals
  import opened Rounding
  import opened Sorting

  datatype Candidate = Candidate(
    hotel: nat, name: string, rating: Option<real>, reviewCount: Option<int>, rank: Option<int>,
    attribute: Option<nat>, relative: Option<real>)

  datatype Preference = Preference(attribute: nat, weight: real, minimum: Option<real>, mandatory: bool)

  datatype Hotel = Hotel(name: string, rating: Option<real>, reviewCount: Option<int>, rank: Option<int>, scores: map<nat, real>)

  datatype Ranked = Ranked(
    hotel: nat, name: string, personalized: real, matchScore: real, coverage: real,
    rating: Option<real>, reviewCount: Option<int>, rank: Option<int>)

  // ----- grouping

  /** The hotels of the rows; the first row of a hotel describes it, the last score of an attribute stays. */
  function Group(rows: seq<Candidate>): map<nat, Hotel> {
    if rows == [] then map[]
    else
      var groups := Group(rows[..|rows| - 1]);
      var row := rows[|rows| - 1];
      var hotel := if row.hotel in groups then groups[row.hotel] else Hotel(row.name, row.rating, row.reviewCount, row.rank, map[]);
      groups[row.hotel := if Scores(row) then hotel.(scores := hotel.scores[row.attribute.value := row.relative.value]) else hotel]
  }

  predicate Scores(row: Candidate) {
    row.attribute.Some? && row.relative.Some?
  }

  // ----- one hotel

  function TotalWeight(preferences: seq<Preference>): real {
    if preferences == [] then 0.0
    else TotalWeight(preferences[..|preferences| - 1]) + preferences[|preferences| - 1].weight
  }

  /** The preference has a score and is not violated by it. */
  predicate Rejects(h: Hotel, p: Preference) {
    p.mandatory && (p.attribute !in h.scores || (p.minimum.Some? && h.scores[p.attribute] < p.minimum.value))
  }

  predicate Rejected(h: Hotel, preferences: seq<Preference>) {
    exists i :: 0 <= i < |preferences| && Rejects(h, preferences[i])
  }

  function Available(h: Hotel, preferences: seq<Preference>): real {
    if preferences == [] then 0.0
    else
      var p := preferences[|preferences| - 1];
      Available(h, preferences[..|preferences| - 1]) + if p.attribute in h.scores then p.weight else 0.0
  }

  function Weighted(h: Hotel, preferences: seq<Preference>): real {
    if preferences == [] then 0.0
    else
      var p := preferences[|preferences| - 1];
      Weighted(h, preferences[..|preferences| - 1]) + if p.attribute in h.scores then Times(h.scores[p.attribute], p.weight) else 0.0
  }

  /** The hotel violates no mandatory preference and has a score that carries weight. */
  predicate Rankable(h: Hotel, preferences: seq<Preference>) {
    !Rejected(h, preferences) && Available(h, preferences) != 0.0
  }

  /** The hotel's place in the ranking, if it may be ranked at all. */
  function RankOne(id: nat, h: Hotel, preferences: seq<Preference>): (r: Option<Ranked>)
    requires TotalWeight(preferences) > 0.0
    ensures r.Some? <==> Rankable(h, preferences)
    ensures r.Some? ==> r.value.hotel == id
  {
    if !Rankable(h, preferences) then None
    else
      var personalized := RoundTo(Weighted(h, preferences) / Available(h, preferences), 1000.0);
      var coverage := RoundTo(Available(h, preferences) / TotalWeight(preferences), 10000.0);
      Some(Ranked(id, h.name, personalized, RoundTo(personalized / 5.0 * 100.0, 100.0), coverage, h.rating, h.reviewCount, h.rank))
  }

  method RankOneHotel(id: nat, h: Hotel, preferences: seq<Preference>, totalWeight: real) returns (r: Option<Ranked>)
    requires totalWeight == TotalWeight(preferences) > 0.0
    ensures r == RankOne(id, h, preferences)
  {
    hide RoundTo;
    var weighted, available := 0.0, 0.0;
    for i := 0 to |preferences|
      invariant weighted == Weighted(h, preferences[..i]) && available == Available(h, preferences[..i])
      invariant forall j :: 0 <= j < i ==> !Rejects(h, preferences[j])
    {
      var p := preferences[i];
      assert preferences[..i + 1][..i] == preferences[..i];
      if p.attribute !in h.scores {
        if p.mandatory {
          return None;
        }
        continue;
      }
      var value := h.scores[p.attribute];
      if p.mandatory && p.minimum.Some? && value < p.minimum.value {
        return None;
      }
      weighted := weighted + Times(value, p.weight);
      available := available + p.weight;
    }
    assert preferences[..|preferences|] == preferences;
    if available == 0.0 {
      return None;
    }
    var personalized := RoundTo(weighted / available, 1000.0);
    r := Some(Ranked(id, h.name, personalized, RoundTo(personalized / 5.0 * 100.0, 100.0),
                     RoundTo(available / totalWeight, 10000.0), h.rating, h.reviewCount, h.rank));
  }

  // ----- the list

  function RatingOrNone(r: Ranked): real {
    if r.rating.Some? then r.rating.value else -1.0
  }

  function ReviewsOrNone(r: Ranked): int {
    if r.reviewCount.Some? then r.reviewCount.value else -1
  }

  predicate Above(a: Ranked, b: Ranked) {
    if a.personalized != b.personalized then a.personalized > b.personalized
    else if a.coverage != b.coverage then a.coverage > b.coverage
    else if RatingOrNone(a) != RatingOrNone(b) then RatingOrNone(a) > RatingOrNone(b)
    else if ReviewsOrNone(a) != ReviewsOrNone(b) then ReviewsOrNone(a) > ReviewsOrNone(b)
    else a.hotel < b.hotel
  }

  /** Best first, and exactly the hotels of the rows that can be ranked. */
  ghost predicate IsRanking(ranked: seq<Ranked>, rows: seq<Candidate>, preferences: seq<Preference>)
    requires TotalWeight(preferences) > 0.0
  {
    && Ascending(Above, ranked)
    && forall r :: r in ranked <==> r.hotel in Group(rows) && RankOne(r.hotel, Group(rows)[r.hotel], preferences) == Some(r)
  }

  datatype Outcome = ScoringError | Ranking(ranked: seq<Ranked>)

  method RankHotels(rows: seq<Candidate>, preferences: seq<Preference>) returns (outcome: Outcome)
    ensures outcome.ScoringError? <==> TotalWeight(preferences) <= 0.0
    ensures outcome.Ranking? ==> IsRanking(outcome.ranked, rows, preferences)
  {
    var groups, order := GroupRows(rows);
    var totalWeight := SumWeights(preferences);
    if totalWeight <= 0.0 {
      return ScoringError;
    }
    var ranked: seq<Ranked> := [];
    for i := 0 to |order|
      invariant forall r :: r in ranked <==> r.hotel in order[..i] && RankOne(r.hotel, groups[r.hotel], preferences) == Some(r)
      invariant forall k, l :: 0 <= k < l < |ranked| ==> ranked[k].hotel != ranked[l].hotel
    {
      var id := order[i];
      assert id !in order[..i] && order[..i + 1] == order[..i] + [id];
      var result := RankOneHotel(id, groups[id], preferences, totalWeight);
      forall k | 0 <= k < |ranked| ensures ranked[k].hotel in order[..i] {
        assert ranked[k] in ranked;
      }
      hide RankOne;
      if result.Some? {
        ranked := ranked + [result.value];
      }
    }
    assert order[..|order|] == order;
    AboveIsStrict();
    AboveSeparates(ranked);
    SortAscends(ranked, Above);
    SortPermutes(ranked, Above);
    var sorted := Sort(ranked, Above);
    forall r ensures r in sorted <==> r in ranked {
      MemberOfBoth(r, sorted, ranked);
    }
    return Ranking(sorted);
  }

  method SumWeights(preferences: seq<Preference>) returns (total: real)
    ensures total == TotalWeight(preferences)
  {
    total := 0.0;
    for i := 0 to |preferences|
      invariant total == TotalWeight(preferences[..i])
    {
      assert preferences[..i + 1][..i] == preferences[..i];
      total := total + preferences[i].weight;
    }
    assert preferences[..|preferences|] == preferences;
  }

  /** Fills the dictionary; its hotels are listed in the order in which they appear. */
  method GroupRows(rows: seq<Candidate>) returns (groups: map<nat, Hotel>, order: seq<nat>)
    ensures groups == Group(rows)
    ensures forall id :: id in order <==> id in groups
    ensures forall i, j :: 0 <= i < j < |order| ==> order[i] != order[j]
  {
    groups, order := map[], [];
    for i := 0 to |rows|
      invariant groups == Group(rows[..i])
      invariant forall id :: id in order <==> id in groups
      invariant forall i, j :: 0 <= i < j < |order| ==> order[i] != order[j]
    {
      var row := rows[i];
      assert rows[..i + 1][..i] == rows[..i];
      if row.hotel !in groups {
        groups := groups[row.hotel := Hotel(row.name, row.rating, row.reviewCount, row.rank, map[])];
        order := order + [row.hotel];
      }
      if row.attribute.Some? && row.relative.Some? {
        var hotel := groups[row.hotel];
        groups := groups[row.hotel := hotel.(scores := hotel.scores[row.attribute.value := row.relative.value])];
      }
    }
    assert rows[..|rows|] == rows;
  }

  lemma AboveIsStrict()
    ensures StrictOrder(Above)
  {
  }

  lemma AboveSeparates(ranked: seq<Ranked>)
    requires forall k, l :: 0 <= k < l < |ranked| ==> ranked[k].hotel != ranked[l].hotel
    ensures Separates(Above, ranked)
  {
  }
}
