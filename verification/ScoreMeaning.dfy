/**
 What the figures of a score row say about the mentions and aggregates they come
 from: the counts are those of the input, the scores order hotels as the balance
 of their mentions does, and the bell curve separates what the scores separate.
 */
module ScoreMeaning {
  import opened Common
  import opened Reals
  import opened ScoreTable
  import Normalization

  // ----- aggregates

  function Balance(a: Aggregate): int {
    a.positive - a.negative
  }

  lemma Associate(x: real, y: real, z: real)
    ensures Times(Times(x, y), z) == Times(x, Times(y, z))
  {
  }

  /** Quotients are ordered as the products with the other denominators. */
  lemma CrossOrder(x: real, s: real, y: real, t: real)
    requires s > 0.0 && t > 0.0
    ensures x / s < y / t <==> Times(x, t) < Times(y, s)
  {
    hide Times;
    var q := x / s;
    DivideThenMultiply(x, s);
    DivideThenMultiply(y, t);
    ScaleOrder(q, y / t, t);
    ScaleOrder(Times(q, t), y, s);
    Associate(q, t, s);
    Associate(q, s, t);
    Commute(t, s);
  }

  lemma ScoreOfQuotient(a: Aggregate)
    requires a.total > 0
    ensures AggregateRow(a).score5 == 2.5 + 2.5 * (Balance(a) as real / a.total as real)
  {
  }

  /** Aggregates are ordered as the shares by which their positive mentions outweigh the negative ones. */
  lemma AggregateOrder(a: Aggregate, b: Aggregate)
    requires ValidAggregate(a) && ValidAggregate(b)
    ensures AggregateRow(a).score5 < AggregateRow(b).score5 <==> Balance(a) as real / a.total as real < Balance(b) as real / b.total as real
    ensures AggregateRow(a).score5 < AggregateRow(b).score5 <==>
      Times(Balance(a) as real, b.total as real) < Times(Balance(b) as real, a.total as real)
    ensures AggregateRow(a).score100 < AggregateRow(b).score100 <==> AggregateRow(a).score5 < AggregateRow(b).score5
  {
    CrossOrder(Balance(a) as real, a.total as real, Balance(b) as real, b.total as real);
    ScoreOfQuotient(a);
    ScoreOfQuotient(b);
    AggregateRowIsValid(a);
    AggregateRowIsValid(b);
    hide AggregateRow, Balance, Times;
  }

  /** Among equal totals a positive mention more, or a negative one less, scores strictly higher. */
  lemma MorePraiseScoresHigher(a: Aggregate, b: Aggregate)
    requires ValidAggregate(a) && ValidAggregate(b) && a.total == b.total
    requires a.positive <= b.positive && b.negative <= a.negative && (a.positive < b.positive || b.negative < a.negative)
    ensures AggregateRow(a).score5 < AggregateRow(b).score5 && AggregateRow(a).score100 < AggregateRow(b).score100
  {
    AggregateOrder(a, b);
    ScaleOrder(Balance(a) as real, Balance(b) as real, a.total as real);
    hide AggregateRow;
  }

  lemma QuotientIs(x: real, t: real, q: real)
    requires t > 0.0
    ensures x / t == q <==> x == Times(q, t)
  {
    hide Times;
    DivideThenMultiply(x, t);
    if x == Times(q, t) {
      Cancel(x / t, q, t);
    }
  }

  /** Full marks are for praise alone, none for complaints alone, and the middle for a balance of both. */
  lemma AggregateExtremes(a: Aggregate)
    requires ValidAggregate(a)
    ensures var row := AggregateRow(a);
      && (row.score5 == 5.0 <==> a.positive == a.total)
      && (row.score5 == 0.0 <==> a.negative == a.total)
      && (row.score5 == 2.5 <==> a.positive == a.negative)
      && (row.score100 == 100.0 <==> a.positive == a.total)
      && (row.score100 == 0.0 <==> a.negative == a.total)
  {
    ScoreOfQuotient(a);
    AggregateRowIsValid(a);
    var x, t := Balance(a) as real, a.total as real;
    QuotientIs(x, t, 1.0);
    QuotientIs(x, t, -1.0);
    QuotientIs(x, t, 0.0);
    assert Times(1.0, t) == t && Times(-1.0, t) == -t && Times(0.0, t) == 0.0;
    hide AggregateRow;
  }

  /** The row carries the aggregate's own counts, and the rest are neutral. */
  lemma AggregateRowCounts(a: Aggregate)
    requires ValidAggregate(a)
    ensures var row := AggregateRow(a);
      && row.source == AggregateSentiment && row.bell == None
      && row.mentions == a.total && row.positive == a.positive && row.negative == a.negative
      && row.neutral >= 0 && row.positive + row.negative + row.neutral == a.total
  {
  }

  /** The statement skips exactly the rows whose score was computed from reviews. */
  lemma PropagationCounts(t: Table, rows: seq<Upsert>)
    requires DistinctKeys(rows)
    ensures var p := Propagate(t, rows);
      && p.applied + p.skipped == |rows|
      && p.skipped == Count(rows, (u: Upsert) => u.key in t && t[u.key].source == ReviewBased)
  {
    SkippedCount(t, rows);
  }

  lemma {:induction false} SkippedCount(t: Table, rows: seq<Upsert>)
    ensures AppliedCount(t, rows) + Count(rows, (u: Upsert) => u.key in t && t[u.key].source == ReviewBased) == |rows|
  {
    if rows != [] {
      SkippedCount(t, rows[..|rows| - 1]);
    }
  }

  // ----- mentions

  predicate IsOf(m: Mention, attribute: nat, sentiment: Sentiment) {
    m.attribute == attribute && m.sentiment == sentiment
  }

  /** What the mentions of one attribute contribute. */
  function ContributedTo(mentions: seq<Mention>, attribute: nat): real {
    if mentions == [] then 0.0
    else
      var last := mentions[|mentions| - 1];
      ContributedTo(mentions[..|mentions| - 1], attribute) + if last.attribute == attribute then last.contribution else 0.0
  }

  lemma {:induction false} OfCounts(mentions: seq<Mention>, attribute: nat)
    ensures |Of(mentions, attribute)| == Count(mentions, (m: Mention) => m.attribute == attribute)
    ensures Total(Of(mentions, attribute)) == ContributedTo(mentions, attribute)
  {
    if mentions != [] {
      var front := Of(mentions[..|mentions| - 1], attribute);
      var last := mentions[|mentions| - 1];
      OfCounts(mentions[..|mentions| - 1], attribute);
      assert (front + [last])[..|front|] == front && front + [] == front;
    }
  }

  lemma {:induction false} OfTallies(mentions: seq<Mention>, attribute: nat, sentiment: Sentiment)
    ensures Tally(Of(mentions, attribute), sentiment) == Count(mentions, (m: Mention) => IsOf(m, attribute, sentiment))
  {
    if mentions != [] {
      var front := Of(mentions[..|mentions| - 1], attribute);
      var last := mentions[|mentions| - 1];
      OfTallies(mentions[..|mentions| - 1], attribute, sentiment);
      assert (front + [last])[..|front|] == front && front + [] == front;
    }
  }

  /** A recalculated row counts the hotel's mentions of its attribute by sentiment, and its score is the mean of what they contribute. */
  lemma RecalculatedRow(t: Table, hotel: nat, mentions: seq<Mention>, attribute: nat)
    requires attribute in Attributes(mentions)
    ensures (hotel, attribute) in Recalculate(t, hotel, mentions)
    ensures var row := Recalculate(t, hotel, mentions)[(hotel, attribute)];
      && row.source == ReviewBased && row.bell == None
      && row.mentions == Count(mentions, (m: Mention) => m.attribute == attribute) > 0
      && row.positive == Count(mentions, (m: Mention) => IsOf(m, attribute, Positive))
      && row.negative == Count(mentions, (m: Mention) => IsOf(m, attribute, Negative))
      && row.neutral == Count(mentions, (m: Mention) => IsOf(m, attribute, Neutral))
      && Times(row.score5, row.mentions as real) == ContributedTo(mentions, attribute)
  {
    OfNonempty(mentions, attribute);
    OfCounts(mentions, attribute);
    OfTallies(mentions, attribute, Positive);
    OfTallies(mentions, attribute, Negative);
    OfTallies(mentions, attribute, Neutral);
    var key: Key := (hotel, attribute);
    assert key in Rows(hotel, mentions);
    assert Recalculate(t, hotel, mentions)[key] == ReviewScore(Of(mentions, attribute));
    hide Of, Total, Tally, ContributedTo, Recalculate, Times;
    DivideThenMultiply(Total(Of(mentions, attribute)), |Of(mentions, attribute)| as real);
  }

  /** Rows of other hotels, and of attributes nobody mentioned, stay as they are. */
  lemma RecalculationLeavesOthers(t: Table, hotel: nat, mentions: seq<Mention>, key: Key)
    requires key.0 != hotel || key.1 !in Attributes(mentions)
    ensures key in Recalculate(t, hotel, mentions) <==> key in t
    ensures key in t ==> Recalculate(t, hotel, mentions)[key] == t[key]
  {
    assert key !in Rows(hotel, mentions);
  }

  /** A mention is worth the rating of its review, a point more if it praises and a point less if it complains, within the scale. */
  lemma SentimentMovesByAPoint(rating: real)
    requires 0.0 <= rating <= 5.0
    ensures Contribution(rating, Neutral) == rating
    ensures rating <= 4.0 ==> Contribution(rating, Positive) - rating == 1.0
    ensures rating >= 4.0 ==> Contribution(rating, Positive) == 5.0
    ensures rating >= 1.0 ==> rating - Contribution(rating, Negative) == 1.0
    ensures rating <= 1.0 ==> Contribution(rating, Negative) == 0.0
  {
  }

  // ----- the bell curve

  ghost predicate Distribution(cdf: real -> real) {
    && (forall x :: 0.0 <= cdf(x) <= 1.0)
    && (forall x, y :: x < y ==> cdf(x) < cdf(y))
  }

  /** The relative score runs from one to five with the share of the population below, three in the middle, and no two shares meet. */
  lemma RelativeFollowsShare(z: real, w: real, cdf: real -> real)
    requires 0.0 <= cdf(z) <= 1.0 && 0.0 <= cdf(w) <= 1.0
    ensures Relative(z, cdf) < Relative(w, cdf) <==> cdf(z) < cdf(w)
    ensures Relative(z, cdf) == 1.0 <==> cdf(z) == 0.0
    ensures Relative(z, cdf) == 3.0 <==> cdf(z) == 0.5
    ensures Relative(z, cdf) == 5.0 <==> cdf(z) == 1.0
    ensures Relative(w, cdf) - Relative(z, cdf) == 4.0 * (cdf(w) - cdf(z))
  {
  }

  /** In a population that is not equal a strictly better score gets a strictly better place. */
  lemma NormalizationSeparates(t: Table, population: seq<Key>, deviation: real, cdf: real -> real, i: nat, j: nat)
    requires forall k :: 0 <= k < |population| ==> population[k] in t
    requires i < |population| && j < |population|
    requires IsDeviation(deviation, ScoresOf(t, population)) && Distribution(cdf)
    requires t[population[i]].score5 < t[population[j]].score5
    ensures var after := Normalize(t, population, deviation, cdf); var a := after[population[i]]; var b := after[population[j]];
      a.bell.Some? && b.bell.Some? && a.bell.value.z < b.bell.value.z && a.bell.value.relative < b.bell.value.relative
  {
    var xs := ScoresOf(t, population);
    var mean := Mean(xs);
    assert xs[i] == t[population[i]].score5 && xs[j] == t[population[j]].score5;
    SpreadIsPositive(xs, deviation, i, j);
    DivideOrder(xs[i] - mean, xs[j] - mean, deviation);
    RelativeFollowsShare(ZScore(xs[i], mean, deviation), ZScore(xs[j], mean, deviation), cdf);
    hide Relative, IsDeviation, Mean;
  }

  lemma SpreadIsPositive(xs: seq<real>, deviation: real, i: nat, j: nat)
    requires i < |xs| && j < |xs| && xs[i] != xs[j] && IsDeviation(deviation, xs)
    ensures deviation > 0.0
  {
    var half := (x: real) => 0.5;
    Normalization.EqualPopulationIsCentred(xs, deviation, half);
  }

  /** The stored mean and deviation are those of the population, and the standardized score is the distance from the one in units of the other. */
  lemma BellIsOfThePopulation(t: Table, population: seq<Key>, deviation: real, cdf: real -> real, i: nat)
    requires forall k :: 0 <= k < |population| ==> population[k] in t
    requires i < |population| && IsDeviation(deviation, ScoresOf(t, population))
    ensures var row := Normalize(t, population, deviation, cdf)[population[i]];
      && row.bell.Some?
      && Times(row.bell.value.mean, |population| as real) == Sum(ScoresOf(t, population))
      && Times(Square(row.bell.value.deviation), |population| as real) == SquaredDistances(ScoresOf(t, population), row.bell.value.mean)
      && Times(row.bell.value.z, row.bell.value.deviation) == row.score5 - row.bell.value.mean
      && row.bell.value.deviation >= 0.0
  {
    var xs := ScoresOf(t, population);
    DivideThenMultiply(Sum(xs), |xs| as real);
    if deviation == 0.0 {
      var half := (x: real) => 0.5;
      Normalization.EqualPopulationIsCentred(xs, deviation, half);
      MeanOfEquals(xs, i);
      assert Times(0.0, 0.0) == 0.0;
    } else {
      DivideThenMultiply(xs[i] - Mean(xs), deviation);
    }
    hide Times, Square, SquaredDistances, Sum, Relative;
  }

  lemma MeanOfEquals(xs: seq<real>, i: nat)
    requires i < |xs| && forall j, k :: 0 <= j < |xs| && 0 <= k < |xs| ==> xs[j] == xs[k]
    ensures Mean(xs) == xs[i]
  {
    Normalization.SumOfEquals(xs, xs[i]);
    QuotientIs(Sum(xs), |xs| as real, xs[i]);
  }
}
