/**
 The precomputed hotel scores of the active algorithm, and the three writers
 that share them: recalculation from reviews, propagation of source-provided
 aggregates, and bell-curve normalization.
 */
module ScoreTable {
  import opened Common
  import opened Reals

  type Key = (nat, nat) // hotel, attribute

  datatype Source = ReviewBased | AggregateSentiment

  datatype Bell = Bell(mean: real, deviation: real, z: real, relative: real)

  datatype Score = Score(
    source: Source, mentions: int, positive: int, negative: int, neutral: int,
    score5: real, score100: real, bell: Option<Bell>)

  type Table = map<Key, Score>

  function Clamp(x: real, low: real, high: real): (r: real)
    requires low <= high
    ensures low <= r <= high
    ensures low <= x <= high ==> r == x
  {
    if x < low then low else if x > high then high else x
  }

  function Score100(score5: real): real {
    Clamp(score5 * 20.0, 0.0, 100.0)
  }

  // ----- recalculation from review mentions

  datatype Sentiment = Positive | Negative | Neutral

  datatype Mention = Mention(attribute: nat, sentiment: Sentiment, contribution: real)

  function Contribution(rating: real, sentiment: Sentiment): (r: real)
    ensures 0.0 <= r <= 5.0
  {
    Clamp(rating + (match sentiment case Positive => 1.0 case Negative => -1.0 case Neutral => 0.0), 0.0, 5.0)
  }

  /** A mention as extraction stores it for a review of this rating. */
  function NewMention(attribute: nat, rating: real, sentiment: Sentiment): Mention {
    Mention(attribute, sentiment, Contribution(rating, sentiment))
  }

  function Of(mentions: seq<Mention>, attribute: nat): seq<Mention> {
    if mentions == [] then []
    else
      var last := mentions[|mentions| - 1];
      Of(mentions[..|mentions| - 1], attribute) + if last.attribute == attribute then [last] else []
  }

  function Total(mentions: seq<Mention>): real {
    if mentions == [] then 0.0 else Total(mentions[..|mentions| - 1]) + mentions[|mentions| - 1].contribution
  }

  function Tally(mentions: seq<Mention>, sentiment: Sentiment): nat {
    Count(mentions, (m: Mention) => m.sentiment == sentiment)
  }

  function ReviewScore(mentions: seq<Mention>): Score
    requires mentions != []
  {
    var raw := Total(mentions) / |mentions| as real;
    Score(ReviewBased, |mentions|, Tally(mentions, Positive), Tally(mentions, Negative), Tally(mentions, Neutral),
          raw, Score100(raw), None)
  }

  function Attributes(mentions: seq<Mention>): set<nat> {
    set m <- mentions :: m.attribute
  }

  lemma {:induction false} OfNonempty(mentions: seq<Mention>, attribute: nat)
    ensures Of(mentions, attribute) != [] <==> attribute in Attributes(mentions)
  {
    if mentions != [] {
      OfNonempty(mentions[..|mentions| - 1], attribute);
      assert mentions == mentions[..|mentions| - 1] + [mentions[|mentions| - 1]];
    }
  }

  function Recalculate(t: Table, hotel: nat, mentions: seq<Mention>): Table {
    t + map key: Key | key in Rows(hotel, mentions) :: (OfNonempty(mentions, key.1); ReviewScore(Of(mentions, key.1)))
  }

  function Rows(hotel: nat, mentions: seq<Mention>): (keys: set<Key>)
    ensures forall key :: key in keys <==> key.0 == hotel && key.1 in Attributes(mentions)
  {
    set a <- Attributes(mentions) :: (hotel, a)
  }

  // ----- propagation of aggregates

  datatype Aggregate = Aggregate(attribute: nat, positive: nat, negative: nat, total: nat)

  predicate ValidAggregate(a: Aggregate) {
    a.total > 0 && a.positive + a.negative <= a.total
  }

  function AggregateScore(a: Aggregate): real
    requires a.total > 0
  {
    2.5 + 2.5 * ((a.positive - a.negative) as real / a.total as real)
  }

  function AggregateRow(a: Aggregate): Score
    requires a.total > 0
  {
    Score(AggregateSentiment, a.total, a.positive, a.negative, a.total - a.positive - a.negative,
          AggregateScore(a), Score100(AggregateScore(a)), None)
  }

  datatype Upsert = Upsert(key: Key, score: Score)

  /** One row of the conditional upsert; a conflicting row receives `conflict`, not its own values. */
  function UpsertRow(t: Table, u: Upsert, conflict: Score): Table {
    if u.key !in t then t[u.key := u.score]
    else if t[u.key].source == AggregateSentiment then t[u.key := conflict]
    else t
  }

  function UpsertRows(t: Table, rows: seq<Upsert>, conflict: Score): Table {
    if rows == [] then t
    else UpsertRow(UpsertRows(t, rows[..|rows| - 1], conflict), rows[|rows| - 1], conflict)
  }

  predicate Applies(t: Table, u: Upsert) {
    u.key !in t || t[u.key].source == AggregateSentiment
  }

  function AppliedCount(t: Table, rows: seq<Upsert>): nat {
    Count(rows, (u: Upsert) => Applies(t, u))
  }

  predicate DistinctKeys(rows: seq<Upsert>) {
    forall i, j :: 0 <= i < j < |rows| ==> rows[i].key != rows[j].key
  }

  datatype Propagation = Propagation(table: Table, applied: nat, skipped: nat)

  /** One statement over the rows of one hotel's aggregates, which name each score at most once. */
  function Propagate(t: Table, rows: seq<Upsert>): Propagation
    requires DistinctKeys(rows)
  {
    if rows == [] then Propagation(t, 0, 0)
    else
      var applied := AppliedCount(t, rows);
      Propagation(UpsertRows(t, rows, rows[0].score), applied, |rows| - applied)
  }

  lemma {:induction false} UpsertLeavesOthers(t: Table, rows: seq<Upsert>, conflict: Score, key: Key)
    requires forall i :: 0 <= i < |rows| ==> rows[i].key != key
    ensures var after := UpsertRows(t, rows, conflict);
      (key in after <==> key in t) && (key in t ==> after[key] == t[key])
  {
    if rows != [] {
      UpsertLeavesOthers(t, rows[..|rows| - 1], conflict, key);
    }
  }

  /** What a row leaves under its key is decided by what the table held before the statement. */
  lemma {:induction false} UpsertAt(t: Table, rows: seq<Upsert>, conflict: Score, i: nat)
    requires DistinctKeys(rows) && i < |rows|
    ensures var after := UpsertRows(t, rows, conflict); var key := rows[i].key;
      && key in after
      && after[key] == (if key !in t then rows[i].score else if t[key].source == AggregateSentiment then conflict else t[key])
  {
    var front := rows[..|rows| - 1];
    if i == |front| {
      UpsertLeavesOthers(t, front, conflict, rows[i].key);
    } else {
      UpsertAt(t, front, conflict, i);
    }
  }

  /** Every aggregate the table accepts should end up with its own values, and review scores stay. */
  predicate EachKeepsItsOwn(t: Table, rows: seq<Upsert>, after: Table) {
    forall i :: 0 <= i < |rows| ==>
      && rows[i].key in after
      && after[rows[i].key] == if Applies(t, rows[i]) then rows[i].score else t[rows[i].key]
  }

  /** No row that meets an existing aggregate differs from the first row of the statement. */
  predicate ConflictsRepeatTheFirst(t: Table, rows: seq<Upsert>) {
    forall i :: 0 <= i < |rows| && rows[i].key in t && t[rows[i].key].source == AggregateSentiment ==>
      rows[i].score == rows[0].score
  }

  /** The conditional upsert writes the first row's values on every conflict, so it is right exactly when they coincide. */
  lemma PropagationIsRightIff(t: Table, rows: seq<Upsert>)
    requires DistinctKeys(rows)
    ensures EachKeepsItsOwn(t, rows, Propagate(t, rows).table) <==> ConflictsRepeatTheFirst(t, rows)
  {
    if rows != [] {
      forall i | 0 <= i < |rows|
        ensures rows[i].key in UpsertRows(t, rows, rows[0].score)
        ensures UpsertRows(t, rows, rows[0].score)[rows[i].key] ==
                if !Applies(t, rows[i]) then t[rows[i].key] else if rows[i].key in t then rows[0].score else rows[i].score
      {
        UpsertAt(t, rows, rows[0].score, i);
      }
    }
  }

  /** Updating two stored aggregates at once gives the second one the first one's score. */
  lemma PropagationCanMixUpScores() returns (t: Table, rows: seq<Upsert>)
    ensures DistinctKeys(rows) && !EachKeepsItsOwn(t, rows, Propagate(t, rows).table)
    ensures rows == [Upsert((0, 1), AggregateRow(Aggregate(1, 4, 0, 4))), Upsert((0, 2), AggregateRow(Aggregate(2, 0, 4, 4)))]
    ensures (0, 2) in t && t[(0, 2)] == AggregateRow(Aggregate(2, 0, 4, 4))
    ensures Propagate(t, rows).table[(0, 2)] == AggregateRow(Aggregate(1, 4, 0, 4))
  {
    var good, bad := AggregateRow(Aggregate(1, 4, 0, 4)), AggregateRow(Aggregate(2, 0, 4, 4));
    assert good != bad;
    t := map[(0, 1) := good, (0, 2) := bad];
    rows := [Upsert((0, 1), good), Upsert((0, 2), bad)];
    hide AggregateRow;
    UpsertAt(t, rows, good, 1);
    PropagationIsRightIff(t, rows);
    assert !ConflictsRepeatTheFirst(t, rows) by {
      assert rows[1].key in t && rows[1].score != rows[0].score;
    }
  }

  /** Importing the same aggregates a second time levels them all to the first one. */
  lemma SecondPropagationLevels(t: Table, rows: seq<Upsert>, i: nat)
    requires DistinctKeys(rows) && i < |rows|
    requires forall j :: 0 <= j < |rows| ==> rows[j].score.source == AggregateSentiment && rows[j].key !in t
    ensures var once := Propagate(t, rows); var twice := Propagate(once.table, rows);
      && rows[i].key in once.table && once.table[rows[i].key] == rows[i].score
      && rows[i].key in twice.table && twice.table[rows[i].key] == rows[0].score
  {
    var once := Propagate(t, rows).table;
    UpsertAt(t, rows, rows[0].score, i);
    UpsertAt(once, rows, rows[0].score, i);
  }

  // ----- normalization

  function Sum(xs: seq<real>): real {
    if xs == [] then 0.0 else Sum(xs[..|xs| - 1]) + xs[|xs| - 1]
  }

  function Mean(xs: seq<real>): real
    requires xs != []
  {
    Sum(xs) / |xs| as real
  }

  function SquaredDistances(xs: seq<real>, m: real): real {
    if xs == [] then 0.0
    else SquaredDistances(xs[..|xs| - 1], m) + Square(xs[|xs| - 1] - m)
  }

  /** `deviation` is the population standard deviation of `xs`. */
  predicate IsDeviation(deviation: real, xs: seq<real>)
    requires xs != []
  {
    deviation >= 0.0 && Times(Square(deviation), |xs| as real) == SquaredDistances(xs, Mean(xs))
  }

  function ZScore(x: real, mean: real, deviation: real): real {
    if deviation == 0.0 then 0.0 else (x - mean) / deviation
  }

  function Relative(z: real, cdf: real -> real): (r: real)
    ensures 1.0 <= r <= 5.0
  {
    Clamp(1.0 + 4.0 * cdf(z), 1.0, 5.0)
  }

  function Normalized(s: Score, mean: real, deviation: real, cdf: real -> real): Score {
    var z := ZScore(s.score5, mean, deviation);
    s.(bell := Some(Bell(mean, deviation, z, Relative(z, cdf))))
  }

  function ScoresOf(t: Table, population: seq<Key>): seq<real>
    requires forall i :: 0 <= i < |population| ==> population[i] in t
  {
    seq(|population|, i requires 0 <= i < |population| => t[population[i]].score5)
  }

  /** Exactly the scores of the population get their place on the bell curve. */
  function Normalize(t: Table, population: seq<Key>, deviation: real, cdf: real -> real): Table
    requires population != [] && forall i :: 0 <= i < |population| ==> population[i] in t
  {
    var mean := Mean(ScoresOf(t, population));
    map key | key in t :: if key in population then Normalized(t[key], mean, deviation, cdf) else t[key]
  }

  class ScoreStore {
    var table: Table

    method RecalculateHotel(hotel: nat, mentions: seq<Mention>)
      modifies this
      ensures table == Recalculate(old(table), hotel, mentions)
    {
      var pending := Attributes(mentions);
      while pending != {}
        invariant pending <= Attributes(mentions)
        invariant forall key :: key in table <==> key in old(table) || (key.0 == hotel && key.1 in Attributes(mentions) - pending)
        invariant forall key :: key in table && key.0 == hotel && key.1 in Attributes(mentions) - pending ==>
          table[key] == (OfNonempty(mentions, key.1); ReviewScore(Of(mentions, key.1)))
        invariant forall key :: key in table && !(key.0 == hotel && key.1 in Attributes(mentions) - pending) ==>
          table[key] == old(table)[key]
      {
        var attribute :| attribute in pending;
        OfNonempty(mentions, attribute);
        table := table[(hotel, attribute) := ReviewScore(Of(mentions, attribute))];
        pending := pending - {attribute};
      }
    }

    method NormalizePopulation(population: seq<Key>, deviation: real, cdf: real -> real)
      requires population != [] && forall i :: 0 <= i < |population| ==> population[i] in table
      requires forall i, j :: 0 <= i < j < |population| ==> population[i] != population[j]
      requires IsDeviation(deviation, ScoresOf(table, population))
      modifies this
      ensures table == Normalize(old(table), population, deviation, cdf)
    {
      var mean := Mean(ScoresOf(table, population));
      for i := 0 to |population|
        invariant table.Keys == old(table).Keys
        invariant forall key :: key in table ==>
          table[key] == if key in population[..i] then Normalized(old(table)[key], mean, deviation, cdf) else old(table)[key]
      {
        var key := population[i];
        assert key !in population[..i];
        table := table[key := Normalized(table[key], mean, deviation, cdf)];
      }
      assert population[..|population|] == population;
    }
  }

  // ----- what every writer keeps

  predicate ValidScore(s: Score) {
    && 0.0 <= s.score5 <= 5.0 && s.score100 == 20.0 * s.score5
    && s.positive >= 0 && s.negative >= 0 && s.neutral >= 0
    && s.mentions == s.positive + s.negative + s.neutral
    && (s.bell.Some? ==> 1.0 <= s.bell.value.relative <= 5.0)
  }

  ghost predicate ValidTable(t: Table) {
    forall key :: key in t ==> ValidScore(t[key])
  }

  lemma AggregateRowIsValid(a: Aggregate)
    requires ValidAggregate(a)
    ensures ValidScore(AggregateRow(a))
  {
    var balance := (a.positive - a.negative) as real;
    var total := a.total as real;
    assert Within(-1.0, 1.0, total, balance);
    WithinQuotient(-1.0, 1.0, total, balance);
  }

  lemma {:induction false} TotalBounds(mentions: seq<Mention>)
    requires forall i :: 0 <= i < |mentions| ==> 0.0 <= mentions[i].contribution <= 5.0
    ensures 0.0 <= Total(mentions) <= 5.0 * |mentions| as real
    ensures |mentions| == Tally(mentions, Positive) + Tally(mentions, Negative) + Tally(mentions, Neutral)
  {
    if mentions != [] {
      TotalBounds(mentions[..|mentions| - 1]);
    }
  }

  lemma {:induction false} OfKeeps(mentions: seq<Mention>, attribute: nat)
    ensures forall i :: 0 <= i < |Of(mentions, attribute)| ==> Of(mentions, attribute)[i] in mentions
  {
    if mentions != [] {
      OfKeeps(mentions[..|mentions| - 1], attribute);
    }
  }

  lemma ReviewScoreIsValid(mentions: seq<Mention>)
    requires mentions != []
    requires forall i :: 0 <= i < |mentions| ==> 0.0 <= mentions[i].contribution <= 5.0
    ensures ValidScore(ReviewScore(mentions))
  {
    TotalBounds(mentions);
    var n := |mentions| as real;
    var raw := Total(mentions) / n;
    assert raw * n == Total(mentions);
    assert raw < 0.0 ==> raw * n < 0.0;
    assert raw > 5.0 ==> raw * n > 5.0 * n;
  }

  /** The writers in any order. */
  datatype Write =
    | Recalculated(hotel: nat, mentions: seq<Mention>)
    | Propagated(rows: seq<Upsert>)
    | Placed(population: seq<Key>, deviation: real, cdf: real -> real)

  ghost predicate Extracted(m: Mention) {
    exists rating, sentiment :: m == NewMention(m.attribute, rating, sentiment)
  }

  ghost predicate Propagates(u: Upsert) {
    exists a :: ValidAggregate(a) && u.score == AggregateRow(a)
  }

  /** The writers' own inputs: extracted mentions and aggregates as the import stores them. */
  ghost predicate Sound(w: Write) {
    match w
    case Recalculated(_, mentions) => forall i :: 0 <= i < |mentions| ==> Extracted(mentions[i])
    case Propagated(rows) => forall i :: 0 <= i < |rows| ==> Propagates(rows[i])
    case Placed(population, _, _) => true
  }

  ghost function Perform(t: Table, w: Write): Table {
    match w
    case Recalculated(hotel, mentions) => Recalculate(t, hotel, mentions)
    case Propagated(rows) => if DistinctKeys(rows) then Propagate(t, rows).table else t
    case Placed(population, deviation, cdf) =>
      if population != [] && forall i :: 0 <= i < |population| ==> population[i] in t then Normalize(t, population, deviation, cdf) else t
  }

  ghost function PerformAll(t: Table, writes: seq<Write>): Table {
    if writes == [] then t
    else Perform(PerformAll(t, writes[..|writes| - 1]), writes[|writes| - 1])
  }

  lemma RecalculateKeeps(t: Table, hotel: nat, mentions: seq<Mention>)
    requires ValidTable(t)
    requires forall i :: 0 <= i < |mentions| ==> 0.0 <= mentions[i].contribution <= 5.0
    ensures ValidTable(Recalculate(t, hotel, mentions))
    ensures forall key :: key in t && t[key].source == ReviewBased ==>
              key in Recalculate(t, hotel, mentions) && Recalculate(t, hotel, mentions)[key].source == ReviewBased
  {
    forall key | key in Rows(hotel, mentions) ensures ValidScore(Recalculate(t, hotel, mentions)[key]) {
      OfNonempty(mentions, key.1);
      OfKeeps(mentions, key.1);
      ReviewScoreIsValid(Of(mentions, key.1));
    }
  }

  /** Scores computed from reviews are never overwritten by aggregates. */
  lemma PropagateSparesReviews(t: Table, rows: seq<Upsert>)
    requires DistinctKeys(rows)
    ensures forall key :: key in t && t[key].source == ReviewBased ==>
              key in Propagate(t, rows).table && Propagate(t, rows).table[key] == t[key]
  {
    if rows != [] {
      forall key | key in t && t[key].source == ReviewBased
        ensures key in Propagate(t, rows).table && Propagate(t, rows).table[key] == t[key]
      {
        if i :| 0 <= i < |rows| && rows[i].key == key {
          UpsertAt(t, rows, rows[0].score, i);
        } else {
          UpsertLeavesOthers(t, rows, rows[0].score, key);
        }
      }
    }
  }

  lemma PropagateKeeps(t: Table, rows: seq<Upsert>)
    requires ValidTable(t) && DistinctKeys(rows)
    requires forall i :: 0 <= i < |rows| ==> ValidScore(rows[i].score)
    ensures ValidTable(Propagate(t, rows).table)
  {
    if rows != [] {
      hide ValidScore;
      var after := Propagate(t, rows).table;
      forall key | key in after ensures ValidScore(after[key]) {
        if i :| 0 <= i < |rows| && rows[i].key == key {
          UpsertAt(t, rows, rows[0].score, i);
        } else {
          UpsertLeavesOthers(t, rows, rows[0].score, key);
        }
      }
    }
  }

  lemma StepKeeps(t: Table, w: Write)
    requires ValidTable(t) && Sound(w)
    ensures ValidTable(Perform(t, w))
    ensures forall key :: key in t && t[key].source == ReviewBased ==>
              key in Perform(t, w) && Perform(t, w)[key].source == ReviewBased
  {
    match w
    case Recalculated(hotel, mentions) =>
      assert forall i :: 0 <= i < |mentions| ==> Extracted(mentions[i]);
      RecalculateKeeps(t, hotel, mentions);
    case Propagated(rows) =>
      if DistinctKeys(rows) {
        forall i | 0 <= i < |rows| ensures ValidScore(rows[i].score) {
          assert Propagates(rows[i]);
          var a :| ValidAggregate(a) && rows[i].score == AggregateRow(a);
          AggregateRowIsValid(a);
        }
        PropagateKeeps(t, rows);
        PropagateSparesReviews(t, rows);
      }
    case Placed(_, _, _) =>
  }

  /** Under any interleaving of the writers every score stays valid and no review score becomes an aggregate again. */
  lemma {:induction false} WritersKeep(t: Table, writes: seq<Write>)
    requires ValidTable(t)
    requires forall i :: 0 <= i < |writes| ==> Sound(writes[i])
    ensures ValidTable(PerformAll(t, writes))
    ensures forall key :: key in t && t[key].source == ReviewBased ==>
              key in PerformAll(t, writes) && PerformAll(t, writes)[key].source == ReviewBased
  {
    hide ValidTable, Perform, Sound;
    if writes != [] {
      var front := writes[..|writes| - 1];
      assert forall i :: 0 <= i < |front| ==> front[i] == writes[i];
      WritersKeep(t, front);
      StepKeeps(PerformAll(t, front), writes[|writes| - 1]);
    }
  }
}
