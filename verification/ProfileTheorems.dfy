/**
 The profile does not depend on the order of the answers, accounts for every
 effect, and never loses weight when a question is answered in addition.
 */
module ProfileTheorems {
  import opened Common
  import opened Rounding
  import opened Sorting
  import opened Profile

  // ----- scores are sums

  /** The points of one attribute. */
  function Points(cs: seq<Contribution>, slug: string): int {
    if cs == [] then 0
    else Points(cs[..|cs| - 1], slug) + if cs[|cs| - 1].slug == slug then cs[|cs| - 1].points else 0
  }

  predicate Mentions(cs: seq<Contribution>, slug: string) {
    exists i :: 0 <= i < |cs| && cs[i].slug == slug
  }

  /** A score is the sum of the attribute's contributions, and its evidence names exactly their sources. */
  lemma {:induction false} ScoreIsSum(cs: seq<Contribution>, slug: string, source: Source)
    ensures slug in Scores(cs) <==> Mentions(cs, slug)
    ensures slug in Evidence(cs) <==> Mentions(cs, slug)
    ensures Points(cs, slug) == if slug in Scores(cs) then Scores(cs)[slug] else 0
    ensures slug in Evidence(cs) ==>
      (source in Evidence(cs)[slug] <==> exists i :: 0 <= i < |cs| && cs[i].slug == slug && cs[i].source == source)
  {
    if cs != [] {
      var front := cs[..|cs| - 1];
      ScoreIsSum(front, slug, source);
      assert forall i :: 0 <= i < |front| ==> front[i] == cs[i];
    }
  }

  lemma {:induction false} PointsAppend(cs: seq<Contribution>, ds: seq<Contribution>, slug: string)
    ensures Points(cs + ds, slug) == Points(cs, slug) + Points(ds, slug)
  {
    if ds == [] {
      assert cs + ds == cs;
    } else {
      assert (cs + ds)[..|cs + ds| - 1] == cs + ds[..|ds| - 1];
      PointsAppend(cs, ds[..|ds| - 1], slug);
    }
  }

  // ----- the order of the answers

  predicate DistinctIds(rows: seq<Row>) {
    forall i, j :: 0 <= i < j < |rows| ==> rows[i].id != rows[j].id
  }

  lemma RowBeforeIsStrict()
    ensures StrictOrder(RowBefore)
  {
  }

  /** The answers of different questions may be read in any order. */
  lemma ProfileIgnoresArrival(t: Tables, rows: seq<Row>, others: seq<Row>, p: seq<Preference>, q: seq<Preference>)
    requires DistinctIds(rows) && DistinctIds(others) && multiset(rows) == multiset(others)
    requires IsProfile(t, rows, p) && IsProfile(t, others, q)
    ensures AllContributions(t, rows) == AllContributions(t, others)
    ensures p == q
  {
    RowBeforeIsStrict();
    SortIgnoresArrival(rows, others, RowBefore);
    PreferenceBeforeIsStrict();
    hide AllContributions, Yields, PreferenceBefore;
    assert AllContributions(t, rows) == AllContributions(t, others) by { hide Sort, CountAll; ContributionsOfSorted(t, rows, others); }
    AscendingByMembers(p, q, PreferenceBefore);
  }

  lemma ContributionsOfSorted(t: Tables, rows: seq<Row>, others: seq<Row>)
    requires Sort(rows, RowBefore) == Sort(others, RowBefore)
    ensures AllContributions(t, rows) == AllContributions(t, others)
  {
    hide Sort, CountAll;
  }

  // ----- the list

  /** Every effect of the tables counts for something. */
  ghost predicate Positive(t: Tables) {
    && (forall k, v, i :: k in t.values && v in t.values[k] && 0 <= i < |t.values[k][v]| ==> t.values[k][v][i].points > 0)
    && (forall g, i :: g in t.groups && 0 <= i < |t.groups[g]| ==> t.groups[g][i].points > 0)
    && (forall d, i :: d in t.dimensions && 0 <= i < |t.dimensions[d]| ==> t.dimensions[d][i].points > 0)
  }

  lemma WeightBounds(points: int)
    requires points > 0
    ensures 0.0 < Weight(points) <= 1.0
  {
    hide RoundTo;
    var share := Least(1.0, points as real / SCALE);
    RoundToMonotone(share, 1.0, 10000.0);
    RoundToFixes(10000, 10000.0);
    RoundToFixes(33, 10000.0);
    assert 33 as real / 10000.0 <= share;
    RoundToMonotone(33 as real / 10000.0, share, 10000.0);
  }

  lemma WeightMonotone(points: int, more: int)
    requires points <= more
    ensures Weight(points) <= Weight(more)
  {
    hide RoundTo;
    RoundToMonotone(Least(1.0, points as real / SCALE), Least(1.0, more as real / SCALE), 10000.0);
  }

  /** Attributes are listed once, heaviest first, with a weight of at most one that is their share of the points they received. */
  lemma ProfileIsWellFormed(t: Tables, rows: seq<Row>, preferences: seq<Preference>)
    requires IsProfile(t, rows, preferences)
    ensures forall i, j :: 0 <= i < j < |preferences| ==>
      preferences[i].slug != preferences[j].slug && preferences[i].weight >= preferences[j].weight
    ensures forall i :: 0 <= i < |preferences| ==>
      && preferences[i].slug in t.supported && 0.0 < preferences[i].weight <= 1.0
      && preferences[i].weight == Weight(Points(AllContributions(t, rows), preferences[i].slug))
  {
    var cs := AllContributions(t, rows);
    hide AllContributions, Weight;
    forall i | 0 <= i < |preferences|
      ensures preferences[i].slug in t.supported && 0.0 < preferences[i].weight <= 1.0
      ensures preferences[i].weight == Weight(Points(cs, preferences[i].slug))
    {
      assert preferences[i] in preferences;
      assert Yields(t, cs, preferences[i]);
      ScoreIsSum(cs, preferences[i].slug, Group);
      WeightBounds(Scores(cs)[preferences[i].slug]);
    }
    forall i, j | 0 <= i < j < |preferences|
      ensures preferences[i].slug != preferences[j].slug && preferences[i].weight >= preferences[j].weight
    {
      assert preferences[i] in preferences && preferences[j] in preferences;
      assert Yields(t, cs, preferences[i]) && Yields(t, cs, preferences[j]);
      assert PreferenceBefore(preferences[i], preferences[j]);
      Irreflexive(preferences[i], preferences[j]);
    }
  }

  lemma Irreflexive(a: Preference, b: Preference)
    requires PreferenceBefore(a, b)
    ensures a != b
  {
    PreferenceBeforeIsStrict();
  }

  // ----- one more answer

  /** The points the questions give an attribute, in whatever order they are listed. */
  function QuestionPoints(t: Tables, rows: seq<Row>, slug: string): int {
    if rows == [] then 0
    else OwnPoints(t, rows[0], slug) + QuestionPoints(t, rows[1..], slug)
  }

  function OwnPoints(t: Tables, row: Row, slug: string): int {
    if row.key.None? then 0 else Points(RowContributions(t, row, row.values), slug)
  }

  lemma {:induction false} QuestionPointsLast(t: Tables, rows: seq<Row>, row: Row, slug: string)
    ensures QuestionPoints(t, rows + [row], slug) == QuestionPoints(t, rows, slug) + OwnPoints(t, row, slug)
  {
    if rows == [] {
      assert rows + [row] == [row];
    } else {
      assert (rows + [row])[1..] == rows[1..] + [row];
      QuestionPointsLast(t, rows[1..], row, slug);
    }
  }

  lemma {:induction false} QuestionPointsInsert(t: Tables, row: Row, rows: seq<Row>, slug: string)
    ensures QuestionPoints(t, Insert(row, rows, RowBefore), slug) == QuestionPoints(t, rows, slug) + OwnPoints(t, row, slug)
  {
    hide OwnPoints;
    if rows != [] && !RowBefore(row, rows[0]) {
      QuestionPointsInsert(t, row, rows[1..], slug);
    }
  }

  lemma {:induction false} QuestionPointsSort(t: Tables, rows: seq<Row>, slug: string)
    ensures QuestionPoints(t, Sort(rows, RowBefore), slug) == QuestionPoints(t, rows, slug)
  {
    if rows != [] {
      QuestionPointsSort(t, rows[1..], slug);
      QuestionPointsInsert(t, rows[0], Sort(rows[1..], RowBefore), slug);
    }
  }

  predicate Names(rows: seq<Row>, group: string) {
    exists i :: 0 <= i < |rows| && rows[i].key == Some(GROUP_KEY) && group in rows[i].values
  }

  lemma {:induction false} AddNewMembers(known: seq<string>, values: seq<string>, value: string)
    requires Distinct(known)
    ensures Distinct(AddNew(known, values))
    ensures value in AddNew(known, values) <==> value in known || value in values
  {
    if values != [] {
      var front := values[..|values| - 1];
      AddNewMembers(known, front, value);
      assert values == front + [values[|values| - 1]];
    }
  }

  lemma {:induction false} SeenAreRead(t: Tables, rows: seq<Row>)
    ensures forall id :: id in CountAll(t, rows).seen ==> exists i :: 0 <= i < |rows| && rows[i].id == id
  {
    if rows != [] {
      var front := rows[..|rows| - 1];
      SeenAreRead(t, front);
      forall id | id in CountAll(t, rows).seen ensures exists i :: 0 <= i < |rows| && rows[i].id == id {
        if id in CountAll(t, front).seen {
          var i :| 0 <= i < |front| && front[i].id == id;
          assert rows[i].id == id;
        } else {
          assert rows[|rows| - 1].id == id;
        }
      }
    }
  }

  /** A question that differs from all before it has not been seen. */
  lemma SeenBefore(t: Tables, rows: seq<Row>)
    requires DistinctIds(rows) && rows != []
    ensures rows[|rows| - 1].id !in CountAll(t, rows[..|rows| - 1]).seen
  {
    SeenAreRead(t, rows[..|rows| - 1]);
  }

  /** What the count adds up to when the questions are different. */
  lemma {:induction false} CountAllIs(t: Tables, rows: seq<Row>, slug: string, group: string)
    requires DistinctIds(rows)
    ensures var tally := CountAll(t, rows);
      && Points(tally.contributions, slug) == QuestionPoints(t, rows, slug)
      && Distinct(tally.groups)
      && (group in tally.groups <==> Names(rows, group))
  {
    if rows != [] {
      var front := rows[..|rows| - 1];
      var row := rows[|rows| - 1];
      CountAllIs(t, front, slug, group);
      var tally := CountAll(t, front);
      assert rows == front + [row];
      SeenBefore(t, rows);
      QuestionPointsLast(t, front, row, slug);
      if row.key.Some? {
        PointsAppend(tally.contributions, RowContributions(t, row, row.values), slug);
        AddNewMembers(tally.groups, row.values, group);
      }
      NamesLast(front, row, group);
      hide RowContributions, QuestionPoints, Points, AddNew, Distinct, Names;
    }
  }

  lemma NamesLast(rows: seq<Row>, row: Row, group: string)
    ensures Names(rows + [row], group) <==> Names(rows, group) || (row.key == Some(GROUP_KEY) && group in row.values)
  {
    var all := rows + [row];
    if Names(rows, group) {
      var i :| 0 <= i < |rows| && rows[i].key == Some(GROUP_KEY) && group in rows[i].values;
      assert all[i] == rows[i];
    }
    assert all[|rows|] == row;
  }

  /** The points one travel group gives an attribute. */
  function GroupPoints(t: Tables, group: string, slug: string): int {
    Points(Contributions(t, Group, if group in t.groups then t.groups[group] else []), slug)
  }

  lemma {:induction false} ContributionsArePositive(t: Tables, source: Source, effects: seq<Effect>, slug: string)
    requires forall i :: 0 <= i < |effects| ==> effects[i].points > 0
    ensures Points(Contributions(t, source, effects), slug) >= 0
  {
    if effects != [] {
      var front := Contributions(t, source, effects[..|effects| - 1]);
      ContributionsArePositive(t, source, effects[..|effects| - 1], slug);
      var all := Contributions(t, source, effects);
      assert all != front ==> all[..|all| - 1] == front;
    }
  }

  lemma {:induction false} AnswersArePositive(t: Tables, row: Row, values: seq<string>, slug: string)
    requires Positive(t) && row.key.Some?
    ensures Points(RowContributions(t, row, values), slug) >= 0
  {
    if values != [] {
      var front := values[..|values| - 1];
      var effects := AnswerEffects(t, row.key.value, values[|values| - 1], row.dimensions);
      AnswersArePositive(t, row, front, slug);
      EffectsArePositive(t, row.key.value, values[|values| - 1], row.dimensions);
      ContributionsArePositive(t, Question(row.id), effects, slug);
      PointsAppend(RowContributions(t, row, front), Contributions(t, Question(row.id), effects), slug);
      hide Points, Contributions, AnswerEffects, Positive;
    }
  }

  lemma EffectsArePositive(t: Tables, key: string, value: string, dimensions: seq<string>)
    requires Positive(t)
    ensures forall i :: 0 <= i < |AnswerEffects(t, key, value, dimensions)| ==> AnswerEffects(t, key, value, dimensions)[i].points > 0
  {
    DimensionsArePositive(t, dimensions);
  }

  lemma {:induction false} DimensionsArePositive(t: Tables, dimensions: seq<string>)
    requires Positive(t)
    ensures forall i :: 0 <= i < |DimensionEffects(t, dimensions)| ==> DimensionEffects(t, dimensions)[i].points > 0
  {
    if dimensions != [] {
      DimensionsArePositive(t, dimensions[..|dimensions| - 1]);
    }
  }

  lemma {:induction false} GroupsAddUp(t: Tables, groups: seq<string>, slug: string)
    ensures Points(GroupContributions(t, groups), slug) == SumOver(groups, (g: string) => GroupPoints(t, g, slug))
  {
    if groups != [] {
      var front := groups[..|groups| - 1];
      var last := groups[|groups| - 1];
      GroupsAddUp(t, front, slug);
      PointsAppend(GroupContributions(t, front), Contributions(t, Group, if last in t.groups then t.groups[last] else []), slug);
      hide Points, Contributions;
    }
  }

  function SumOver(s: seq<string>, f: string -> int): int {
    if s == [] then 0 else SumOver(s[..|s| - 1], f) + f(s[|s| - 1])
  }

  lemma {:induction false} SumWithout(s: seq<string>, i: nat, f: string -> int)
    requires i < |s|
    ensures SumOver(s, f) == SumOver(s[..i] + s[i + 1..], f) + f(s[i])
  {
    var last := |s| - 1;
    var rest := s[..i] + s[i + 1..];
    if i == last {
      assert rest == s[..last];
    } else {
      SumWithout(s[..last], i, f);
      assert rest[..|rest| - 1] == s[..last][..i] + s[..last][i + 1..];
    }
  }

  /** A list of different names sums to no more than one that has them all. */
  lemma {:induction false} SumOfFewer(few: seq<string>, many: seq<string>, f: string -> int)
    requires Distinct(few) && forall x :: x in few ==> x in many
    requires forall x :: f(x) >= 0
    ensures SumOver(few, f) <= SumOver(many, f)
    decreases |few|
  {
    if few == [] {
      SumIsPositive(many, f);
    } else {
      var last := |few| - 1;
      assert few[last] in few;
      var i :| 0 <= i < |many| && many[i] == few[last];
      SumWithout(many, i, f);
      var rest := many[..i] + many[i + 1..];
      forall x | x in few[..last] ensures x in rest {
        assert x in few && x != few[last];
        var j :| 0 <= j < |many| && many[j] == x;
        assert x in many[..i] || x in many[i + 1..] by {
          if j < i { assert many[..i][j] == x; } else { assert many[i + 1..][j - i - 1] == x; }
        }
      }
      SumOfFewer(few[..last], rest, f);
    }
  }

  lemma {:induction false} SumIsPositive(s: seq<string>, f: string -> int)
    requires forall x :: f(x) >= 0
    ensures SumOver(s, f) >= 0
  {
    if s != [] {
      SumIsPositive(s[..|s| - 1], f);
    }
  }

  /** The sorted rows have different questions, and the same ones. */
  lemma SortedRows(rows: seq<Row>, group: string)
    requires DistinctIds(rows)
    ensures DistinctIds(Sort(rows, RowBefore))
    ensures Names(Sort(rows, RowBefore), group) <==> Names(rows, group)
  {
    var sorted := Sort(rows, RowBefore);
    SortPermutes(rows, RowBefore);
    RowBeforeIsStrict();
    SortAscends(rows, RowBefore);
    hide Sort;
    forall row ensures row in sorted <==> row in rows {
      MemberOfBoth(row, sorted, rows);
    }
    assert Names(sorted, group) <==> Names(rows, group) by {
      NamesByMembers(sorted, group);
      NamesByMembers(rows, group);
    }
    forall i, j | 0 <= i < j < |sorted| ensures sorted[i].id != sorted[j].id {
      assert RowBefore(sorted[i], sorted[j]);
      assert sorted[i] in rows && sorted[j] in rows;
    }
  }

  lemma NamesByMembers(rows: seq<Row>, group: string)
    ensures Names(rows, group) <==> exists row :: row in rows && row.key == Some(GROUP_KEY) && group in row.values
  {
    if Names(rows, group) {
      var i :| 0 <= i < |rows| && rows[i].key == Some(GROUP_KEY) && group in rows[i].values;
      assert rows[i] in rows;
    }
  }

  /** The points of an attribute, question by question and group by group. */
  lemma PointsAreAccountedFor(t: Tables, rows: seq<Row>, slug: string, group: string)
    requires DistinctIds(rows)
    ensures var groups := CountAll(t, Sort(rows, RowBefore)).groups;
      && Points(AllContributions(t, rows), slug)
        == QuestionPoints(t, rows, slug) + SumOver(groups, (g: string) => GroupPoints(t, g, slug))
      && Distinct(groups) && (group in groups <==> Names(rows, group))
  {
    var sorted := Sort(rows, RowBefore);
    SortedRows(rows, group);
    CountAllIs(t, sorted, slug, group);
    QuestionPointsSort(t, rows, slug);
    var tally := CountAll(t, sorted);
    GroupsAddUp(t, tally.groups, slug);
    hide Sort, CountAll, Points, QuestionPoints, Names, Distinct, SumOver, GroupContributions;
    PointsAppend(tally.contributions, GroupContributions(t, tally.groups), slug);
  }

  lemma GroupsOnlyGrow(t: Tables, rows: seq<Row>, row: Row, slug: string)
    requires Positive(t) && DistinctIds(rows + [row])
    ensures SumOver(CountAll(t, Sort(rows, RowBefore)).groups, (g: string) => GroupPoints(t, g, slug))
      <= SumOver(CountAll(t, Sort(rows + [row], RowBefore)).groups, (g: string) => GroupPoints(t, g, slug))
  {
    assert DistinctIds(rows) by {
      forall i, j | 0 <= i < j < |rows| ensures rows[i].id != rows[j].id {
        assert (rows + [row])[i].id != (rows + [row])[j].id;
      }
    }
    var few := CountAll(t, Sort(rows, RowBefore)).groups;
    var many := CountAll(t, Sort(rows + [row], RowBefore)).groups;
    PointsAreAccountedFor(t, rows, slug, "");
    forall g | g in few ensures g in many {
      PointsAreAccountedFor(t, rows, slug, g);
      PointsAreAccountedFor(t, rows + [row], slug, g);
      NamesLast(rows, row, g);
    }
    forall g ensures GroupPoints(t, g, slug) >= 0 {
      ContributionsArePositive(t, Group, if g in t.groups then t.groups[g] else [], slug);
    }
    hide CountAll, Sort, GroupPoints;
    SumOfFewer(few, many, (g: string) => GroupPoints(t, g, slug));
  }

  /** Answering one more question takes no points and no weight from any attribute. */
  lemma AnswersOnlyAdd(t: Tables, rows: seq<Row>, row: Row, slug: string)
    requires Positive(t) && DistinctIds(rows + [row])
    ensures Points(AllContributions(t, rows), slug) <= Points(AllContributions(t, rows + [row]), slug)
    ensures Weight(Points(AllContributions(t, rows), slug)) <= Weight(Points(AllContributions(t, rows + [row]), slug))
  {
    assert DistinctIds(rows) by {
      forall i, j | 0 <= i < j < |rows| ensures rows[i].id != rows[j].id {
        assert (rows + [row])[i].id != (rows + [row])[j].id;
      }
    }
    PointsAreAccountedFor(t, rows, slug, "");
    PointsAreAccountedFor(t, rows + [row], slug, "");
    QuestionPointsLast(t, rows, row, slug);
    if row.key.Some? {
      AnswersArePositive(t, row, row.values, slug);
    }
    GroupsOnlyGrow(t, rows, row, slug);
    hide AllContributions, CountAll, Sort, Points, QuestionPoints, SumOver, Weight, RowContributions, Positive;
    WeightMonotone(Points(AllContributions(t, rows), slug), Points(AllContributions(t, rows + [row]), slug));
  }

  /** A listed attribute stays listed after one more answer, with no smaller weight. */
  lemma ListedAttributesStay(t: Tables, rows: seq<Row>, row: Row, before: seq<Preference>, after: seq<Preference>, p: Preference)
    requires Positive(t) && DistinctIds(rows + [row])
    requires IsProfile(t, rows, before) && IsProfile(t, rows + [row], after) && p in before
    ensures exists q :: q in after && q.slug == p.slug && q.weight >= p.weight
  {
    var cs, ds := AllContributions(t, rows), AllContributions(t, rows + [row]);
    AnswersOnlyAdd(t, rows, row, p.slug);
    hide AllContributions, Points, Weight, Positive, DistinctIds;
    ScoreIsSum(cs, p.slug, Group);
    ScoreIsSum(ds, p.slug, Group);
    assert Yields(t, cs, p);
    var q := Preference(p.slug, Weight(Scores(ds)[p.slug]), Evidence(ds)[p.slug]);
    assert Yields(t, ds, q);
    assert q in after;
  }
}
