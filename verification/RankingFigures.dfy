/**
 What the ranking shows of a hotel: a rating and a coverage within half a unit of
 their last digit, the hotel's own description, and a place decided by them.
 */
module RankingFigures {
  import opened Common
  import opened Reals
  import opened Rounding
  import opened Sorting
  import opened Ranking
  import opened RankingTheorems

  /** The weight of the preferences that are kept. */
  function WeightWhere(preferences: seq<Preference>, keep: Preference -> bool): real {
    if preferences == [] then 0.0
    else
      var last := preferences[|preferences| - 1];
      WeightWhere(preferences[..|preferences| - 1], keep) + if keep(last) then last.weight else 0.0
  }

  /** The sum of the kept scores, each as often as its weight says. */
  function ScoreWhere(preferences: seq<Preference>, keep: Preference -> bool, score: Preference -> real): real {
    if preferences == [] then 0.0
    else
      var last := preferences[|preferences| - 1];
      ScoreWhere(preferences[..|preferences| - 1], keep, score) + if keep(last) then Times(score(last), last.weight) else 0.0
  }

  function Matches(h: Hotel): Preference -> bool {
    (p: Preference) => p.attribute in h.scores
  }

  function Every(): Preference -> bool {
    (p: Preference) => true
  }

  function ScoreOf(h: Hotel): Preference -> real {
    (p: Preference) => if p.attribute in h.scores then h.scores[p.attribute] else 0.0
  }

  lemma {:induction false} SumsAreWeights(h: Hotel, preferences: seq<Preference>)
    ensures Available(h, preferences) == WeightWhere(preferences, Matches(h))
    ensures Weighted(h, preferences) == ScoreWhere(preferences, Matches(h), ScoreOf(h))
    ensures TotalWeight(preferences) == WeightWhere(preferences, Every())
  {
    hide Times;
    if preferences != [] {
      SumsAreWeights(h, preferences[..|preferences| - 1]);
    }
  }

  lemma {:induction false} MoreKept(preferences: seq<Preference>, few: Preference -> bool, many: Preference -> bool)
    requires NonNegative(preferences)
    requires forall p :: p in preferences && few(p) ==> many(p)
    ensures WeightWhere(preferences, few) <= WeightWhere(preferences, many)
  {
    if preferences != [] {
      var front := preferences[..|preferences| - 1];
      assert preferences[|preferences| - 1] in preferences;
      assert forall p :: p in front ==> p in preferences;
      MoreKept(front, few, many);
    }
  }

  // ----- coverage

  /** Coverage is the weight of the preferences with a score by the weight of all, to the nearest ten-thousandth. */
  lemma CoverageIsRoundedShare(id: nat, h: Hotel, preferences: seq<Preference>)
    requires TotalWeight(preferences) > 0.0 && Rankable(h, preferences)
    ensures var matched := WeightWhere(preferences, Matches(h)); var all := WeightWhere(preferences, Every());
      all > 0.0 && -0.00005 <= RankOne(id, h, preferences).value.coverage - matched / all <= 0.00005
  {
    SumsAreWeights(h, preferences);
    HalfAUnit(Available(h, preferences) / TotalWeight(preferences), 10000.0);
    hide RoundTo, Weighted, Available, TotalWeight, Rejected, WeightWhere, ScoreWhere;
  }

  /** A hotel with a score for every preference is covered in full. */
  lemma FullCoverage(id: nat, h: Hotel, preferences: seq<Preference>)
    requires TotalWeight(preferences) > 0.0 && Rankable(h, preferences)
    requires forall p :: p in preferences ==> p.attribute in h.scores
    ensures RankOne(id, h, preferences).value.coverage == 1.0
  {
    SumsAreWeights(h, preferences);
    SameKept(preferences, Matches(h), Every());
    hide RoundTo, Weighted, Available, TotalWeight, Rejected, WeightWhere, ScoreWhere;
    assert Available(h, preferences) / TotalWeight(preferences) == 1.0;
    RoundToFixes(10000, 10000.0);
  }

  lemma {:induction false} SameKept(preferences: seq<Preference>, keep: Preference -> bool, other: Preference -> bool)
    requires forall p :: p in preferences ==> keep(p) == other(p)
    ensures WeightWhere(preferences, keep) == WeightWhere(preferences, other)
  {
    if preferences != [] {
      var front := preferences[..|preferences| - 1];
      assert preferences[|preferences| - 1] in preferences;
      assert forall p :: p in front ==> p in preferences;
      SameKept(front, keep, other);
    }
  }

  /** The first hotel has a score for every preference the second one has a score for. */
  predicate CoversMore(g: Hotel, h: Hotel, preferences: seq<Preference>) {
    forall p :: p in preferences && p.attribute in h.scores ==> p.attribute in g.scores
  }

  lemma MoreMatchesCoverMore(id: nat, g: Hotel, other: nat, h: Hotel, preferences: seq<Preference>)
    requires NonNegative(preferences) && TotalWeight(preferences) > 0.0
    requires Rankable(g, preferences) && Rankable(h, preferences) && CoversMore(g, h, preferences)
    ensures RankOne(other, h, preferences).value.coverage <= RankOne(id, g, preferences).value.coverage
  {
    SumsAreWeights(g, preferences);
    SumsAreWeights(h, preferences);
    MoreKept(preferences, Matches(h), Matches(g));
    hide RoundTo, Weighted, Available, TotalWeight, Rejected, WeightWhere, ScoreWhere;
    DivideOrder(Available(h, preferences), Available(g, preferences), TotalWeight(preferences));
    RoundToMonotone(Available(h, preferences) / TotalWeight(preferences), Available(g, preferences) / TotalWeight(preferences), 10000.0);
  }

  /** Of two hotels with one rating, the one that matches all the other matches is not covered less, and is listed first if it is covered more. */
  lemma MoreMatchesLeadTies(rows: seq<Candidate>, preferences: seq<Preference>, ranked: seq<Ranked>, i: nat, j: nat)
    requires NonNegative(preferences) && TotalWeight(preferences) > 0.0 && IsRanking(ranked, rows, preferences)
    requires i < |ranked| && j < |ranked| && ranked[i].personalized == ranked[j].personalized
    requires ranked[i].hotel in Group(rows) && ranked[j].hotel in Group(rows)
    requires CoversMore(Group(rows)[ranked[i].hotel], Group(rows)[ranked[j].hotel], preferences)
    ensures ranked[j].coverage <= ranked[i].coverage
    ensures ranked[j].coverage != ranked[i].coverage ==> i < j
  {
    hide RankOne, Group, CoversMore, Rankable;
    var a, b := ranked[i], ranked[j];
    assert a in ranked && b in ranked;
    MoreMatchesCoverMore(a.hotel, Group(rows)[a.hotel], b.hotel, Group(rows)[b.hotel], preferences);
    assert j < i ==> Above(b, a);
  }

  // ----- the rating

  /** The rating times the matched weight is the weighted sum of the matched scores, up to half a thousandth for every unit of weight. */
  lemma RatingIsWeightedMean(id: nat, h: Hotel, preferences: seq<Preference>)
    requires NonNegative(preferences) && TotalWeight(preferences) > 0.0 && Rankable(h, preferences)
    ensures var weight := WeightWhere(preferences, Matches(h)); var sum := ScoreWhere(preferences, Matches(h), ScoreOf(h));
      && weight > 0.0
      && sum - Times(0.0005, weight) <= Times(RankOne(id, h, preferences).value.personalized, weight) <= sum + Times(0.0005, weight)
  {
    SumsAreWeights(h, preferences);
    WeightBounds(h, preferences);
    hide RoundTo, Weighted, Available, TotalWeight, Rejected, WeightWhere, ScoreWhere, Times;
    var weight, sum := Available(h, preferences), Weighted(h, preferences);
    var rating := RankOne(id, h, preferences).value.personalized;
    HalfAUnit(sum / weight, 1000.0);
    DivideThenMultiply(sum, weight);
    ProductMonotone(rating, sum / weight + 0.0005, weight);
    Distribute(sum / weight, 0.0005, weight);
    ProductMonotone(sum / weight, rating + 0.0005, weight);
    Distribute(rating, 0.0005, weight);
  }

  /** A hotel matched by one score alone is rated by that score, to the nearest thousandth, whatever it weighs. */
  lemma OneScoreIsTheRating(id: nat, h: Hotel, preferences: seq<Preference>, score: real)
    requires NonNegative(preferences) && TotalWeight(preferences) > 0.0 && Rankable(h, preferences)
    requires forall i :: 0 <= i < |preferences| && preferences[i].attribute in h.scores ==> h.scores[preferences[i].attribute] == score
    ensures RankOne(id, h, preferences).value.personalized == RoundTo(score, 1000.0)
    ensures -0.0005 <= RankOne(id, h, preferences).value.personalized - score <= 0.0005
  {
    RatingIsBetweenScores(id, h, preferences, score, score);
    hide RankOne, RoundTo;
    HalfAUnit(score, 1000.0);
  }

  // ----- the list

  /** Exactly the hotels are listed that meet every mandatory preference and match some weight. */
  lemma ListedIff(rows: seq<Candidate>, preferences: seq<Preference>, ranked: seq<Ranked>, id: nat)
    requires TotalWeight(preferences) > 0.0 && IsRanking(ranked, rows, preferences)
    ensures (exists r :: r in ranked && r.hotel == id) <==>
      && id in Group(rows)
      && (forall p :: p in preferences && p.mandatory ==> Meets(Group(rows)[id], p))
      && WeightWhere(preferences, Matches(Group(rows)[id])) != 0.0
  {
    hide Group, Above;
    if id in Group(rows) {
      var h := Group(rows)[id];
      SumsAreWeights(h, preferences);
      hide Available, Weighted, TotalWeight, WeightWhere, ScoreWhere, RoundTo, Times;
      MeetsUnlessRejected(h, preferences);
      var r := RankOne(id, h, preferences);
      if r.Some? {
        assert r.value in ranked;
      }
    }
  }

  predicate Meets(h: Hotel, p: Preference) {
    p.attribute in h.scores && (p.minimum.Some? ==> h.scores[p.attribute] >= p.minimum.value)
  }

  lemma MeetsUnlessRejected(h: Hotel, preferences: seq<Preference>)
    ensures (forall p :: p in preferences && p.mandatory ==> Meets(h, p)) <==> !Rejected(h, preferences)
  {
    forall i | 0 <= i < |preferences| ensures preferences[i] in preferences && (Rejects(h, preferences[i]) <==> preferences[i].mandatory && !Meets(h, preferences[i])) {
    }
  }

  predicate Describes(row: Candidate, r: Ranked) {
    row.hotel == r.hotel && row.name == r.name && row.rating == r.rating && row.reviewCount == r.reviewCount && row.rank == r.rank
  }

  /** A listed hotel is described by one of its own rows. */
  lemma ListedAsDescribed(rows: seq<Candidate>, preferences: seq<Preference>, ranked: seq<Ranked>, r: Ranked)
    requires TotalWeight(preferences) > 0.0 && IsRanking(ranked, rows, preferences) && r in ranked
    ensures exists row :: row in rows && Describes(row, r)
  {
    hide Group, Above, RoundTo, Rankable, Available, Weighted, TotalWeight;
    var f := DescriptionAt(r.hotel);
    GroupAt(rows, r.hotel, 0);
    FirstSomeExists(rows, f);
    var i :| 0 <= i < |rows| && f(rows[i]) == FirstSome(rows, f);
    assert rows[i] in rows;
    assert Some(Group(rows)[r.hotel].(scores := map[])) == f(rows[i]);
  }


  /** Down the list ratings fall; among equal ratings coverage falls, then the source's rating, then its review count, and then identifiers rise. */
  lemma ListedInOrder(rows: seq<Candidate>, preferences: seq<Preference>, ranked: seq<Ranked>, i: nat, j: nat)
    requires TotalWeight(preferences) > 0.0 && IsRanking(ranked, rows, preferences) && i < j < |ranked|
    ensures var a, b := ranked[i], ranked[j];
      && a.personalized >= b.personalized
      && (a.personalized == b.personalized ==> a.coverage >= b.coverage)
      && (a.personalized == b.personalized && a.coverage == b.coverage && b.rating.Some? && b.rating.value > -1.0 ==>
            a.rating.Some? && a.rating.value >= b.rating.value)
      && (a.personalized == b.personalized && a.coverage == b.coverage && a.rating == b.rating && b.reviewCount.Some? && b.reviewCount.value > -1 ==>
            a.reviewCount.Some? && a.reviewCount.value >= b.reviewCount.value)
      && (a.personalized == b.personalized && a.coverage == b.coverage && a.rating == b.rating && a.reviewCount == b.reviewCount ==>
            a.hotel < b.hotel)
  {
    hide RankOne, Group;
    assert Above(ranked[i], ranked[j]);
  }
}
