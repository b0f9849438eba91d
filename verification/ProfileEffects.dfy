/**
 Which effects an answer has: those its own value is mapped to, or else those of
 the question's dimensions, on every supported attribute and on no other.
 */
module ProfileEffects {
  import opened Common
  import opened Rounding
  import opened Sorting
  import opened Profile
  import opened ProfileTheorems
  import Keyset

  /** The points a list of effects gives an attribute. */
  function PointsOf(effects: seq<Effect>, slug: string): int {
    if effects == [] then 0
    else
      var last := effects[|effects| - 1];
      PointsOf(effects[..|effects| - 1], slug) + if last.slug == slug then last.points else 0
  }

  /** The value has effects of its own; travel groups and destination branches never do. */
  predicate Mapped(t: Tables, key: string, value: string) {
    key != GROUP_KEY && key != BRANCH_KEY && key in t.values && value in t.values[key] && t.values[key][value] != []
  }

  function Supported(t: Tables, slug: string, points: int): int {
    if slug in t.supported then points else 0
  }

  function DimensionPoints(t: Tables, dimensions: seq<string>, slug: string): int {
    if dimensions == [] then 0
    else
      var last := dimensions[|dimensions| - 1];
      DimensionPoints(t, dimensions[..|dimensions| - 1], slug) + if last in t.dimensions then PointsOf(t.dimensions[last], slug) else 0
  }

  /** What one value of an answered question is worth to an attribute. */
  function Worth(t: Tables, row: Row, value: string, slug: string): int
    requires row.key.Some?
  {
    if Mapped(t, row.key.value, value) then Supported(t, slug, PointsOf(t.values[row.key.value][value], slug))
    else Supported(t, slug, DimensionPoints(t, row.dimensions, slug))
  }

  function WorthOfAll(t: Tables, row: Row, values: seq<string>, slug: string): int
    requires row.key.Some?
  {
    if values == [] then 0
    else WorthOfAll(t, row, values[..|values| - 1], slug) + Worth(t, row, values[|values| - 1], slug)
  }

  lemma {:induction false} SupportedEffectsCount(t: Tables, source: Source, effects: seq<Effect>, slug: string)
    ensures Points(Contributions(t, source, effects), slug) == Supported(t, slug, PointsOf(effects, slug))
  {
    if effects != [] {
      var front := Contributions(t, source, effects[..|effects| - 1]);
      var last := effects[|effects| - 1];
      SupportedEffectsCount(t, source, effects[..|effects| - 1], slug);
      assert (front + [Contribution(source, last.slug, last.points)])[..|front|] == front;
    }
  }

  lemma {:induction false} PointsOfMore(effects: seq<Effect>, more: seq<Effect>, slug: string)
    ensures PointsOf(effects + more, slug) == PointsOf(effects, slug) + PointsOf(more, slug)
  {
    if more == [] {
      assert effects + more == effects;
    } else {
      assert (effects + more)[..|effects + more| - 1] == effects + more[..|more| - 1];
      PointsOfMore(effects, more[..|more| - 1], slug);
    }
  }

  lemma {:induction false} DimensionsCount(t: Tables, dimensions: seq<string>, slug: string)
    ensures PointsOf(DimensionEffects(t, dimensions), slug) == DimensionPoints(t, dimensions, slug)
  {
    if dimensions != [] {
      var front := dimensions[..|dimensions| - 1];
      var last := dimensions[|dimensions| - 1];
      DimensionsCount(t, front, slug);
      PointsOfMore(DimensionEffects(t, front), if last in t.dimensions then t.dimensions[last] else [], slug);
    }
  }

  /** One answer contributes the effects its value is mapped to, and nothing else; without any, those of the question's dimensions. */
  lemma AnswerIsWorth(t: Tables, row: Row, value: string, slug: string)
    requires row.key.Some?
    ensures Mapped(t, row.key.value, value) ==>
      Points(RowContributions(t, row, [value]), slug) == Supported(t, slug, PointsOf(t.values[row.key.value][value], slug))
    ensures !Mapped(t, row.key.value, value) ==>
      Points(RowContributions(t, row, [value]), slug) == Supported(t, slug, DimensionPoints(t, row.dimensions, slug))
    ensures row.key.value == GROUP_KEY || row.key.value == BRANCH_KEY ==>
      Points(RowContributions(t, row, [value]), slug) == Supported(t, slug, DimensionPoints(t, row.dimensions, slug))
  {
    var effects := AnswerEffects(t, row.key.value, value, row.dimensions);
    assert [value][..0] == [] && RowContributions(t, row, []) == [];
    assert RowContributions(t, row, [value]) == Contributions(t, Question(row.id), effects);
    SupportedEffectsCount(t, Question(row.id), effects, slug);
    DimensionsCount(t, row.dimensions, slug);
    hide Points, PointsOf, DimensionPoints, DimensionEffects;
  }

  /** The values of one question add up. */
  lemma {:induction false} AnswersAreWorth(t: Tables, row: Row, values: seq<string>, slug: string)
    requires row.key.Some?
    ensures Points(RowContributions(t, row, values), slug) == WorthOfAll(t, row, values, slug)
  {
    if values != [] {
      var front := values[..|values| - 1];
      var last := values[|values| - 1];
      AnswersAreWorth(t, row, front, slug);
      AnswerIsWorth(t, row, last, slug);
      assert [last][..0] == [] && RowContributions(t, row, []) == [];
      var effects := AnswerEffects(t, row.key.value, last, row.dimensions);
      assert RowContributions(t, row, [last]) == Contributions(t, Question(row.id), effects);
      PointsAppend(RowContributions(t, row, front), Contributions(t, Question(row.id), effects), slug);
      hide Points, AnswerEffects, Contributions, Mapped;
    }
  }

  /** One travel group gives exactly its own effects. */
  lemma GroupIsWorth(t: Tables, group: string, slug: string)
    ensures GroupPoints(t, group, slug) == Supported(t, slug, if group in t.groups then PointsOf(t.groups[group], slug) else 0)
  {
    SupportedEffectsCount(t, Group, if group in t.groups then t.groups[group] else [], slug);
    hide Points;
  }

  lemma {:induction false} SumOfSame(few: seq<string>, many: seq<string>, f: string -> int)
    requires Distinct(few) && Distinct(many) && forall x :: x in few <==> x in many
    ensures SumOver(few, f) == SumOver(many, f)
    decreases |few|
  {
    if few == [] {
      NothingListed(many);
    } else {
      var last := |few| - 1;
      assert few[last] in few;
      var i :| 0 <= i < |many| && many[i] == few[last];
      SumWithout(many, i, f);
      WithoutOne(few, many, i);
      SumOfSame(few[..last], many[..i] + many[i + 1..], f);
    }
  }

  lemma NothingListed(s: seq<string>)
    ensures (forall x :: x !in s) ==> s == []
  {
    if s != [] {
      assert s[0] in s;
    }
  }

  lemma WithoutOne(few: seq<string>, many: seq<string>, i: nat)
    requires few != [] && Distinct(few) && Distinct(many) && forall x :: x in few <==> x in many
    requires i < |many| && many[i] == few[|few| - 1]
    ensures var front := few[..|few| - 1]; var rest := many[..i] + many[i + 1..];
      Distinct(front) && Distinct(rest) && forall x :: x in front <==> x in rest
  {
    var front, rest := few[..|few| - 1], many[..i] + many[i + 1..];
    forall x ensures x in front <==> x in rest {
      if x in front {
        assert x in few && x != many[i];
        var j :| 0 <= j < |many| && many[j] == x;
        assert rest[if j < i then j else j - 1] == x;
      }
      if x in rest {
        var j :| 0 <= j < |rest| && rest[j] == x;
        assert many[if j < i then j else j + 1] == x;
        assert x in few && x != few[|few| - 1];
      }
    }
  }

  /**
   One more answered question that is not about the travel group changes the
   points of every attribute by what its values are worth, and by nothing else.
   */
  lemma OneMoreAnswerIsWorth(t: Tables, rows: seq<Row>, row: Row, slug: string)
    requires DistinctIds(rows + [row]) && row.key.Some? && row.key.value != GROUP_KEY
    ensures Points(AllContributions(t, rows + [row]), slug) == Points(AllContributions(t, rows), slug) + WorthOfAll(t, row, row.values, slug)
  {
    assert DistinctIds(rows) by {
      forall i, j | 0 <= i < j < |rows| ensures rows[i].id != rows[j].id {
        assert (rows + [row])[i].id != (rows + [row])[j].id;
      }
    }
    hide AllContributions, CountAll, Sort, Points, QuestionPoints, SumOver, RowContributions, Names, DistinctIds;
    var few := CountAll(t, Sort(rows, RowBefore)).groups;
    var many := CountAll(t, Sort(rows + [row], RowBefore)).groups;
    forall g ensures g in few <==> g in many {
      PointsAreAccountedFor(t, rows, slug, g);
      PointsAreAccountedFor(t, rows + [row], slug, g);
      NamesLast(rows, row, g);
    }
    PointsAreAccountedFor(t, rows, slug, "");
    PointsAreAccountedFor(t, rows + [row], slug, "");
    SumOfSame(few, many, (g: string) => GroupPoints(t, g, slug));
    QuestionPointsLast(t, rows, row, slug);
    AnswersAreWorth(t, row, row.values, slug);
  }

  // ----- weights

  /** Points are worth a three-hundredth each up to the full weight, to the nearest ten-thousandth. */
  lemma WeightIsShare(points: int)
    ensures 0 <= points <= 300 ==> -0.00005 <= Weight(points) - points as real / 300.0 <= 0.00005
    ensures points >= 300 ==> Weight(points) == 1.0
  {
    HalfAUnit(points as real / SCALE, 10000.0);
    RoundToFixes(10000, 10000.0);
    hide RoundTo;
  }

  /** Equal weights are listed by their names. */
  lemma TiesAreListedByName(t: Tables, rows: seq<Row>, preferences: seq<Preference>, i: nat, j: nat)
    requires IsProfile(t, rows, preferences) && i < j < |preferences| && preferences[i].weight == preferences[j].weight
    ensures Keyset.LexLess(preferences[i].slug, preferences[j].slug)
  {
    assert PreferenceBefore(preferences[i], preferences[j]);
  }
}
