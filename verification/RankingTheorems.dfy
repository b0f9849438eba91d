/**
 Properties of the ranking: it does not depend on the order of the candidate
 rows, a better score never costs a hotel its place, and the figures it shows
 stay within the scores and weights they are made of.
 */
module RankingTheorems {
  import opened Common
  import opened Reals
  import opened Rounding
  import opened Sorting
  import opened Ranking

  // ----- arrival order

  /** Rows of one hotel agree on its description, and on the score of each attribute. */
  ghost predicate Consistent(rows: seq<Candidate>) {
    forall a, b :: a in rows && b in rows && a.hotel == b.hotel ==>
      && a.name == b.name && a.rating == b.rating && a.reviewCount == b.reviewCount && a.rank == b.rank
      && (Scores(a) && Scores(b) && a.attribute == b.attribute ==> a.relative == b.relative)
  }

  function ScoreAt(id: nat, attribute: nat): Candidate -> Option<real> {
    (row: Candidate) => if row.hotel == id && row.attribute == Some(attribute) then row.relative else None
  }

  function DescriptionAt(id: nat): Candidate -> Option<Hotel> {
    (row: Candidate) => if row.hotel == id then Some(Hotel(row.name, row.rating, row.reviewCount, row.rank, map[])) else None
  }

  /** A group is described by its first row, and each score is the last one given. */
  lemma {:induction false} GroupAt(rows: seq<Candidate>, id: nat, attribute: nat)
    ensures id in Group(rows) <==> FirstSome(rows, DescriptionAt(id)).Some?
    ensures id in Group(rows) ==> Some(Group(rows)[id].(scores := map[])) == FirstSome(rows, DescriptionAt(id))
    ensures id !in Group(rows) ==> LastSome(rows, ScoreAt(id, attribute)).None?
    ensures id in Group(rows) ==>
              LastSome(rows, ScoreAt(id, attribute)) ==
              if attribute in Group(rows)[id].scores then Some(Group(rows)[id].scores[attribute]) else None
  {
    if rows != [] {
      GroupAt(rows[..|rows| - 1], id, attribute);
    }
  }

  /** Where all yielded values agree, it does not matter in which order they come. */
  lemma YieldIgnoresArrival<S, T>(s: seq<S>, t: seq<S>, f: S -> Option<T>)
    requires multiset(s) == multiset(t)
    requires forall x, y :: x in s && y in s && f(x).Some? && f(y).Some? ==> f(x) == f(y)
    ensures FirstSome(s, f) == FirstSome(t, f) && LastSome(s, f) == LastSome(t, f)
  {
    forall x ensures x in s <==> x in t {
      MemberOfBoth(x, s, t);
    }
    FirstSomeExists(s, f);
    FirstSomeExists(t, f);
    LastSomeExists(s, f);
    LastSomeExists(t, f);
    if i :| 0 <= i < |s| && f(s[i]).Some? {
      assert s[i] in t;
      var j :| 0 <= j < |t| && t[j] == s[i];
      assert f(t[j]).Some?;
    }
    if j :| 0 <= j < |t| && f(t[j]).Some? {
      assert t[j] in s;
      var i :| 0 <= i < |s| && s[i] == t[j];
      assert f(s[i]).Some?;
    }
  }

  lemma ConsistentYields(rows: seq<Candidate>, others: seq<Candidate>, id: nat, a: nat)
    requires multiset(rows) == multiset(others) && Consistent(rows)
    ensures FirstSome(rows, DescriptionAt(id)) == FirstSome(others, DescriptionAt(id))
    ensures LastSome(rows, ScoreAt(id, a)) == LastSome(others, ScoreAt(id, a))
  {
    hide FirstSome, LastSome;
    YieldIgnoresArrival(rows, others, DescriptionAt(id));
    YieldIgnoresArrival(rows, others, ScoreAt(id, a));
  }

  lemma GroupIgnoresArrival(rows: seq<Candidate>, others: seq<Candidate>)
    requires multiset(rows) == multiset(others) && Consistent(rows)
    ensures Group(rows) == Group(others)
  {
    hide Group, FirstSome, LastSome, Consistent, DescriptionAt, ScoreAt;
    forall id: nat ensures id in Group(rows) <==> id in Group(others) {
      ConsistentYields(rows, others, id, 0);
      GroupAt(rows, id, 0);
      GroupAt(others, id, 0);
    }
    forall id | id in Group(rows) ensures Group(rows)[id] == Group(others)[id] {
      forall a: nat ensures LastSome(rows, ScoreAt(id, a)) == LastSome(others, ScoreAt(id, a)) {
        ConsistentYields(rows, others, id, a);
      }
      ConsistentYields(rows, others, id, 0);
      SameGroup(rows, others, id);
    }
    assert Group(rows).Keys == Group(others).Keys;
  }

  lemma SameGroup(rows: seq<Candidate>, others: seq<Candidate>, id: nat)
    requires id in Group(rows) && id in Group(others)
    requires FirstSome(rows, DescriptionAt(id)) == FirstSome(others, DescriptionAt(id))
    requires forall a: nat :: LastSome(rows, ScoreAt(id, a)) == LastSome(others, ScoreAt(id, a))
    ensures Group(rows)[id] == Group(others)[id]
  {
    hide Group, FirstSome, LastSome, DescriptionAt, ScoreAt;
    var g, h := Group(rows)[id], Group(others)[id];
    forall a: nat
      ensures a in g.scores <==> a in h.scores
      ensures a in g.scores ==> g.scores[a] == h.scores[a]
    {
      GroupAt(rows, id, a);
      GroupAt(others, id, a);
      assert LastSome(rows, ScoreAt(id, a)) == LastSome(others, ScoreAt(id, a));
    }
    assert g.scores == h.scores;
    GroupAt(rows, id, 0);
    GroupAt(others, id, 0);
    assert g.(scores := map[]) == h.(scores := map[]);
  }

  /** Candidate rows may arrive in any order. */
  lemma RankingIgnoresArrival(rows: seq<Candidate>, others: seq<Candidate>, preferences: seq<Preference>, r: seq<Ranked>, s: seq<Ranked>)
    requires multiset(rows) == multiset(others) && Consistent(rows)
    requires TotalWeight(preferences) > 0.0
    requires IsRanking(r, rows, preferences) && IsRanking(s, others, preferences)
    ensures r == s
  {
    GroupIgnoresArrival(rows, others);
    AboveIsStrict();
    hide Above, RankOne, Group, Consistent;
    AscendingByMembers(r, s, Above);
  }

  // ----- better scores

  predicate NonNegative(preferences: seq<Preference>) {
    forall i :: 0 <= i < |preferences| ==> preferences[i].weight >= 0.0
  }

  /** The hotel with one of its scores raised. */
  function Raise(h: Hotel, attribute: nat, value: real): Hotel {
    h.(scores := h.scores[attribute := value])
  }

  lemma {:induction false} RaiseWeighted(h: Hotel, preferences: seq<Preference>, attribute: nat, value: real)
    requires NonNegative(preferences) && attribute in h.scores && h.scores[attribute] <= value
    ensures Available(Raise(h, attribute, value), preferences) == Available(h, preferences)
    ensures Weighted(Raise(h, attribute, value), preferences) >= Weighted(h, preferences)
  {
    hide Times;
    if preferences != [] {
      var front := preferences[..|preferences| - 1];
      RaiseWeighted(h, front, attribute, value);
      var p := preferences[|preferences| - 1];
      if p.attribute == attribute {
        ProductMonotone(h.scores[attribute], value, p.weight);
      }
    }
  }

  lemma {:induction false} WeightBounds(h: Hotel, preferences: seq<Preference>)
    requires NonNegative(preferences)
    ensures 0.0 <= Available(h, preferences) <= TotalWeight(preferences)
  {
    if preferences != [] {
      WeightBounds(h, preferences[..|preferences| - 1]);
    }
  }

  /** A hotel whose score is raised stays in the ranking, and its rating does not fall. */
  lemma RaiseKeepsRank(id: nat, h: Hotel, preferences: seq<Preference>, attribute: nat, value: real)
    requires NonNegative(preferences) && TotalWeight(preferences) > 0.0
    requires attribute in h.scores && h.scores[attribute] <= value
    requires Rankable(h, preferences)
    ensures Rankable(Raise(h, attribute, value), preferences)
    ensures var a := RankOne(id, h, preferences).value; var b := RankOne(id, Raise(h, attribute, value), preferences).value;
      a.personalized <= b.personalized && b == a.(personalized := b.personalized, matchScore := b.matchScore)
  {
    var raised := Raise(h, attribute, value);
    RaiseWeighted(h, preferences, attribute, value);
    WeightBounds(h, preferences);
    forall i | 0 <= i < |preferences| ensures !Rejects(raised, preferences[i]) {
      assert !Rejects(h, preferences[i]);
    }
    var available := Available(h, preferences);
    DivideOrder(Weighted(h, preferences), Weighted(raised, preferences), available);
    RoundToMonotone(Weighted(h, preferences) / available, Weighted(raised, preferences) / available, 1000.0);
  }

  /** Raising a score never moves a hotel below one it was above. */
  lemma BetterScoreKeepsPlace(id: nat, h: Hotel, preferences: seq<Preference>, attribute: nat, value: real, other: Ranked)
    requires NonNegative(preferences) && TotalWeight(preferences) > 0.0
    requires attribute in h.scores && h.scores[attribute] <= value
    requires Rankable(h, preferences)
    ensures Rankable(Raise(h, attribute, value), preferences)
    ensures Above(RankOne(id, h, preferences).value, other) ==> Above(RankOne(id, Raise(h, attribute, value), preferences).value, other)
  {
    RaiseKeepsRank(id, h, preferences, attribute, value);
    hide RankOne;
  }

  /** The rows with a better score in one of them. */
  function WithBetter(rows: seq<Candidate>, k: nat, value: real): seq<Candidate>
    requires k < |rows|
  {
    rows[k := rows[k].(relative := Some(value))]
  }

  /** The group is as it was, or has that one score raised. */
  predicate SameOrRaised(before: Hotel, after: Hotel, attribute: nat, value: real) {
    || after == before
    || (attribute in before.scores && before.scores[attribute] <= value && after == Raise(before, attribute, value))
  }

  /** A better row leaves every other hotel alone, and its own as it was or with that score raised. */
  lemma {:induction false} GroupWithBetter(rows: seq<Candidate>, k: nat, value: real)
    requires k < |rows| && Scores(rows[k]) && rows[k].relative.value <= value
    ensures var after := Group(WithBetter(rows, k, value)); var own := rows[k].hotel;
      && after.Keys == Group(rows).Keys && own in after
      && (forall id :: id in after && id != own ==> after[id] == Group(rows)[id])
      && SameOrRaised(Group(rows)[own], after[own], rows[k].attribute.value, value)
  {
    var last := |rows| - 1;
    var better := WithBetter(rows, k, value);
    if k == last {
      assert better[..last] == rows[..last];
    } else {
      assert better[..last] == WithBetter(rows[..last], k, value) && better[last] == rows[last];
      GroupWithBetter(rows[..last], k, value);
      if rows[last].hotel == rows[k].hotel {
        RowKeepsRaised(Group(rows[..last])[rows[k].hotel], Group(better[..last])[rows[k].hotel], rows[k].attribute.value, value, rows[last]);
      }
    }
  }

  /** What a further row does to a hotel. */
  function WithRow(h: Hotel, row: Candidate): Hotel {
    if Scores(row) then h.(scores := h.scores[row.attribute.value := row.relative.value]) else h
  }

  lemma RowKeepsRaised(before: Hotel, after: Hotel, attribute: nat, value: real, row: Candidate)
    requires SameOrRaised(before, after, attribute, value)
    ensures SameOrRaised(WithRow(before, row), WithRow(after, row), attribute, value)
  {
    if Scores(row) && after != before {
      var a, x := row.attribute.value, row.relative.value;
      if a == attribute {
        assert after.scores[a := x] == before.scores[a := x];
      } else {
        assert after.scores[a := x] == before.scores[a := x][attribute := value];
      }
    }
  }

  lemma InOrder(s: seq<Ranked>, a: Ranked, b: Ranked)
    requires Ascending(Above, s) && a in s && b in s && Above(a, b)
    ensures exists i, j :: 0 <= i < j < |s| && s[i] == a && s[j] == b
  {
    AboveIsStrict();
    hide Above;
    var i :| 0 <= i < |s| && s[i] == a;
    var j :| 0 <= j < |s| && s[j] == b;
    assert Above(b, a) ==> Above(a, a);
    assert j < i ==> Above(b, a);
  }

  /** In the list made with a better score a hotel is still ahead of every hotel it was ahead of. */
  lemma BetterScoreKeepsLead(rows: seq<Candidate>, k: nat, value: real, preferences: seq<Preference>, r: seq<Ranked>, s: seq<Ranked>, i: nat, j: nat)
    requires NonNegative(preferences) && TotalWeight(preferences) > 0.0
    requires k < |rows| && Scores(rows[k]) && rows[k].relative.value <= value
    requires IsRanking(r, rows, preferences) && IsRanking(s, WithBetter(rows, k, value), preferences)
    requires i < j < |r| && r[i].hotel == rows[k].hotel
    ensures exists m, n :: 0 <= m < n < |s| && s[m].hotel == r[i].hotel && s[n].hotel == r[j].hotel
  {
    GroupWithBetter(rows, k, value);
    AboveIsStrict();
    var before, after := Group(rows), Group(WithBetter(rows, k, value));
    hide RankOne, Group, Above, Rankable, NonNegative, TotalWeight, WithBetter;
    var own, other := r[i], r[j];
    assert own in r && other in r && Above(own, other);
    assert other.hotel != own.hotel;
    assert after[other.hotel] == before[other.hotel];
    assert other in s;
    if after[own.hotel] == before[own.hotel] {
      assert own in s;
      InOrder(s, own, other);
    } else {
      BetterScoreKeepsPlace(own.hotel, before[own.hotel], preferences, rows[k].attribute.value, value, other);
      var better := RankOne(own.hotel, after[own.hotel], preferences).value;
      assert better in s;
      InOrder(s, better, other);
    }
  }

  // ----- the figures

  /** Every score the hotel is rated by lies between the two bounds. */
  predicate Between(h: Hotel, preferences: seq<Preference>, low: real, high: real) {
    forall i :: 0 <= i < |preferences| && preferences[i].attribute in h.scores ==>
      low <= h.scores[preferences[i].attribute] <= high
  }

  lemma {:induction false} WeightedBounds(h: Hotel, preferences: seq<Preference>, low: real, high: real)
    requires NonNegative(preferences) && Between(h, preferences, low, high)
    ensures Within(low, high, Available(h, preferences), Weighted(h, preferences))
  {
    hide Within, Times;
    WithinNothing(low, high);
    if preferences != [] {
      var front := preferences[..|preferences| - 1];
      var p := preferences[|preferences| - 1];
      WeightedBounds(h, front, low, high);
      if p.attribute in h.scores {
        WithinTerm(low, high, Available(h, front), Weighted(h, front), h.scores[p.attribute], p.weight);
      }
    }
  }

  /** The rating is a mean: up to rounding it lies between the smallest and the largest score it is made of. */
  lemma RatingIsBetweenScores(id: nat, h: Hotel, preferences: seq<Preference>, low: real, high: real)
    requires NonNegative(preferences) && TotalWeight(preferences) > 0.0
    requires Rankable(h, preferences) && Between(h, preferences, low, high)
    ensures RoundTo(low, 1000.0) <= RankOne(id, h, preferences).value.personalized <= RoundTo(high, 1000.0)
  {
    hide RoundTo, Weighted, Available, TotalWeight, Rejected, Between, Within;
    WeightBounds(h, preferences);
    WeightedBounds(h, preferences, low, high);
    var mean := Weighted(h, preferences) / Available(h, preferences);
    WithinQuotient(low, high, Available(h, preferences), Weighted(h, preferences));
    RoundToMonotone(low, mean, 1000.0);
    RoundToMonotone(mean, high, 1000.0);
  }

  /** Coverage is the share of the weight that could be matched: positive and at most one, and still at most one when rounded. */
  lemma CoverageIsShare(id: nat, h: Hotel, preferences: seq<Preference>)
    requires NonNegative(preferences) && TotalWeight(preferences) > 0.0
    requires Rankable(h, preferences)
    ensures 0.0 < Available(h, preferences) / TotalWeight(preferences) <= 1.0
    ensures 0.0 <= RankOne(id, h, preferences).value.coverage <= 1.0
  {
    WeightBounds(h, preferences);
    hide RoundTo, Weighted, Available, TotalWeight, Rejected;
    var available, total := Available(h, preferences), TotalWeight(preferences);
    WithinQuotient(0.0, 1.0, total, available);
    DivideThenMultiply(available, total);
    RoundToMonotone(0.0, available / total, 10000.0);
    RoundToMonotone(available / total, 1.0, 10000.0);
    RoundToFixes(0, 10000.0);
    RoundToFixes(10000, 10000.0);
  }

  /** The match score is the rating on a scale of one hundred, with nothing lost to its own rounding. */
  lemma MatchScoreIsExact(id: nat, h: Hotel, preferences: seq<Preference>)
    requires TotalWeight(preferences) > 0.0 && Rankable(h, preferences)
    ensures var r := RankOne(id, h, preferences).value; r.matchScore == 20.0 * r.personalized
  {
    var k := RoundHalfEven(Times(Weighted(h, preferences) / Available(h, preferences), 1000.0));
    hide RoundHalfEven;
    var personalized := k as real / 1000.0;
    assert personalized / 5.0 * 100.0 == (2 * k) as real / 100.0;
    RoundToFixes(2 * k, 100.0);
  }
}
