/**
 The onboarding profile: answered questions contribute points to hotel
 attributes, and the attributes are listed by their normalized weight.
 */
module Profile {
  import opened Common
  import opened Rounding
  import opened Sorting
  import Keyset

  /** Points are hundredths. */
  datatype Effect = Effect(slug: string, points: int)

  /** The mapping tables: the effects of answers, of travel groups and of question dimensions. */
  datatype Tables = Tables(
    supported: set<string>, values: map<string, map<string, seq<Effect>>>,
    groups: map<string, seq<Effect>>, dimensions: map<string, seq<Effect>>)

  /** An answered question with its canonical key, normalized answers and dimensions; it has no key when none can be told. */
  datatype Row = Row(position: int, id: nat, key: Option<string>, values: seq<string>, dimensions: seq<string>)

  datatype Source = Question(id: nat) | Group

  datatype Contribution = Contribution(source: Source, slug: string, points: int)

  datatype Preference = Preference(slug: string, weight: real, evidence: set<Source>)

  /** The contributions so far, with the questions seen and the travel groups named. */
  datatype Tally = Tally(seen: set<nat>, contributions: seq<Contribution>, groups: seq<string>)

  const GROUP_KEY := "travel_group"
  const BRANCH_KEY := "destination_branch"
  const SCALE := 300.0

  predicate RowBefore(a: Row, b: Row) {
    a.position < b.position || (a.position == b.position && a.id < b.id)
  }

  // ----- contributions

  function EffectsFor(t: Tables, key: string, value: string): seq<Effect> {
    if key == GROUP_KEY || key == BRANCH_KEY then []
    else if key in t.values && value in t.values[key] then t.values[key][value]
    else []
  }

  function DimensionEffects(t: Tables, dimensions: seq<string>): seq<Effect> {
    if dimensions == [] then []
    else
      var last := dimensions[|dimensions| - 1];
      DimensionEffects(t, dimensions[..|dimensions| - 1]) + if last in t.dimensions then t.dimensions[last] else []
  }

  function AnswerEffects(t: Tables, key: string, value: string, dimensions: seq<string>): seq<Effect> {
    if EffectsFor(t, key, value) == [] then DimensionEffects(t, dimensions) else EffectsFor(t, key, value)
  }

  /** The effects on supported attributes. */
  function Contributions(t: Tables, source: Source, effects: seq<Effect>): seq<Contribution> {
    if effects == [] then []
    else
      var front := Contributions(t, source, effects[..|effects| - 1]);
      var last := effects[|effects| - 1];
      if last.slug in t.supported then front + [Contribution(source, last.slug, last.points)] else front
  }

  function RowContributions(t: Tables, row: Row, values: seq<string>): seq<Contribution>
    requires row.key.Some?
  {
    if values == [] then []
    else
      RowContributions(t, row, values[..|values| - 1])
      + Contributions(t, Question(row.id), AnswerEffects(t, row.key.value, values[|values| - 1], row.dimensions))
  }

  function GroupContributions(t: Tables, groups: seq<string>): seq<Contribution> {
    if groups == [] then []
    else
      var last := groups[|groups| - 1];
      GroupContributions(t, groups[..|groups| - 1])
      + Contributions(t, Group, if last in t.groups then t.groups[last] else [])
  }

  function AddNew(known: seq<string>, values: seq<string>): seq<string> {
    if values == [] then known
    else
      var front := AddNew(known, values[..|values| - 1]);
      var last := values[|values| - 1];
      if last in front then front else front + [last]
  }

  function CountRow(t: Tables, s: Tally, row: Row): Tally {
    if row.key.None? || row.id in s.seen then s
    else
      Tally(s.seen + {row.id}, s.contributions + RowContributions(t, row, row.values),
            if row.key.value == GROUP_KEY then AddNew(s.groups, row.values) else s.groups)
  }

  function CountAll(t: Tables, rows: seq<Row>): Tally {
    if rows == [] then Tally({}, [], []) else CountRow(t, CountAll(t, rows[..|rows| - 1]), rows[|rows| - 1])
  }

  /** Everything the answers contribute, questions in their order and then the travel groups. */
  function AllContributions(t: Tables, rows: seq<Row>): seq<Contribution> {
    var tally := CountAll(t, Sort(rows, RowBefore));
    tally.contributions + GroupContributions(t, tally.groups)
  }

  // ----- scores

  function Scores(cs: seq<Contribution>): map<string, int> {
    if cs == [] then map[]
    else
      var scores := Scores(cs[..|cs| - 1]);
      var c := cs[|cs| - 1];
      scores[c.slug := (if c.slug in scores then scores[c.slug] else 0) + c.points]
  }

  function Evidence(cs: seq<Contribution>): map<string, set<Source>> {
    if cs == [] then map[]
    else
      var evidence := Evidence(cs[..|cs| - 1]);
      var c := cs[|cs| - 1];
      evidence[c.slug := (if c.slug in evidence then evidence[c.slug] else {}) + {c.source}]
  }

  function Least(x: real, y: real): real {
    if x <= y then x else y
  }

  function Weight(points: int): real {
    RoundTo(Least(1.0, points as real / SCALE), 10000.0)
  }

  predicate PreferenceBefore(a: Preference, b: Preference) {
    a.weight > b.weight || (a.weight == b.weight && Keyset.LexLess(a.slug, b.slug))
  }

  predicate Yields(t: Tables, cs: seq<Contribution>, p: Preference) {
    && p.slug in Scores(cs) && p.slug in t.supported && Scores(cs)[p.slug] > 0
    && p.weight == Weight(Scores(cs)[p.slug])
    && p.evidence == if p.slug in Evidence(cs) then Evidence(cs)[p.slug] else {}
  }

  /** The supported attributes with points, heaviest first. */
  ghost predicate IsProfile(t: Tables, rows: seq<Row>, preferences: seq<Preference>) {
    && Ascending(PreferenceBefore, preferences)
    && forall p :: p in preferences <==> Yields(t, AllContributions(t, rows), p)
  }

  // ----- building the profile

  lemma OneMore(cs: seq<Contribution>, c: Contribution)
    ensures Scores(cs + [c]) == Scores(cs)[c.slug := (if c.slug in Scores(cs) then Scores(cs)[c.slug] else 0) + c.points]
    ensures Evidence(cs + [c]) == Evidence(cs)[c.slug := (if c.slug in Evidence(cs) then Evidence(cs)[c.slug] else {}) + {c.source}]
  {
    var all := cs + [c];
    assert all[..|all| - 1] == cs && all[|all| - 1] == c;
    assert Scores(all) == Scores(cs)[c.slug := (if c.slug in Scores(cs) then Scores(cs)[c.slug] else 0) + c.points] by { hide Evidence; }
    hide Scores;
  }

  class ProfileBuilder {
    const tables: Tables
    var scores: map<string, int>
    var evidence: map<string, set<Source>>
    ghost var contributions: seq<Contribution>

    ghost predicate Valid()
      reads this
    {
      scores == Scores(contributions) && evidence == Evidence(contributions)
    }

    constructor (tables: Tables)
      ensures Valid() && this.tables == tables && contributions == []
    {
      this.tables := tables;
      scores, evidence, contributions := map[], map[], [];
    }

    method AddEffects(effects: seq<Effect>, source: Source)
      requires Valid()
      modifies this
      ensures Valid()
      ensures contributions == old(contributions) + Contributions(tables, source, effects)
    {
      hide Scores, Evidence;
      for i := 0 to |effects|
        invariant Valid()
        invariant contributions == old(contributions) + Contributions(tables, source, effects[..i])
      {
        var e := effects[i];
        assert effects[..i + 1][..i] == effects[..i];
        if e.slug in tables.supported {
          var c := Contribution(source, e.slug, e.points);
          OneMore(contributions, c);
          scores := scores[e.slug := (if e.slug in scores then scores[e.slug] else 0) + e.points];
          evidence := evidence[e.slug := (if e.slug in evidence then evidence[e.slug] else {}) + {source}];
          contributions := contributions + [c];
        }
      }
      assert effects[..|effects|] == effects;
    }

    method AddAnswers(row: Row)
      requires Valid() && row.key.Some?
      modifies this
      ensures Valid()
      ensures contributions == old(contributions) + RowContributions(tables, row, row.values)
    {
      hide Contributions, Scores, Evidence, DimensionEffects, EffectsFor;
      for i := 0 to |row.values|
        invariant Valid()
        invariant contributions == old(contributions) + RowContributions(tables, row, row.values[..i])
      {
        assert row.values[..i + 1][..i] == row.values[..i];
        var effects := EffectsFor(tables, row.key.value, row.values[i]);
        if effects == [] {
          effects := DimensionEffects(tables, row.dimensions);
        }
        AddEffects(effects, Question(row.id));
      }
      assert row.values[..|row.values|] == row.values;
    }

    method AddGroups(groups: seq<string>)
      requires Valid()
      modifies this
      ensures Valid()
      ensures contributions == old(contributions) + GroupContributions(tables, groups)
    {
      hide Contributions, Scores, Evidence;
      for i := 0 to |groups|
        invariant Valid()
        invariant contributions == old(contributions) + GroupContributions(tables, groups[..i])
      {
        assert groups[..i + 1][..i] == groups[..i];
        AddEffects(if groups[i] in tables.groups then tables.groups[groups[i]] else [], Group);
      }
      assert groups[..|groups|] == groups;
    }

    method AddRows(rows: seq<Row>)
      requires Valid() && contributions == []
      modifies this
      ensures Valid()
      ensures contributions == AllContributions(tables, rows)
    {
      var ordered := Sort(rows, RowBefore);
      var seen: set<nat> := {};
      var groups: seq<string> := [];
      for i := 0 to |ordered|
        invariant Valid()
        invariant CountAll(tables, ordered[..i]) == Tally(seen, contributions, groups)
      {
        var row := ordered[i];
        assert ordered[..i + 1][..i] == ordered[..i];
        if row.key.None? || row.id in seen {
          continue;
        }
        seen := seen + {row.id};
        if row.key.value == GROUP_KEY {
          groups := AddNew(groups, row.values);
        }
        AddAnswers(row);
      }
      assert ordered[..|ordered|] == ordered;
      AddGroups(groups);
    }

    method Build(rows: seq<Row>) returns (preferences: seq<Preference>)
      requires Valid() && contributions == []
      modifies this
      ensures IsProfile(tables, rows, preferences)
    {
      AddRows(rows);
      ghost var cs := contributions;
      var found: seq<Preference> := [];
      var keys := scores.Keys;
      while keys != {}
        invariant keys <= scores.Keys
        invariant forall p :: p in found <==> p.slug !in keys && Yields(tables, cs, p)
        invariant forall i, j :: 0 <= i < j < |found| ==> found[i].slug != found[j].slug
        decreases |keys|
      {
        var slug :| slug in keys;
        forall i | 0 <= i < |found| ensures found[i].slug != slug {
          assert found[i] in found;
        }
        if slug in tables.supported && scores[slug] > 0 {
          found := found + [Preference(slug, Weight(scores[slug]), if slug in evidence then evidence[slug] else {})];
        }
        keys := keys - {slug};
      }
      PreferenceBeforeIsStrict();
      PreferenceBeforeSeparates(found);
      SortAscends(found, PreferenceBefore);
      SortPermutes(found, PreferenceBefore);
      preferences := Sort(found, PreferenceBefore);
      forall p ensures p in preferences <==> p in found {
        MemberOfBoth(p, preferences, found);
      }
    }
  }

  lemma PreferenceBeforeIsStrict()
    ensures StrictOrder(PreferenceBefore)
  {
    forall a: Preference ensures !PreferenceBefore(a, a) {
      Keyset.LexTrichotomy(a.slug, a.slug);
    }
    forall a: Preference, b: Preference, c: Preference | PreferenceBefore(a, b) && PreferenceBefore(b, c) ensures PreferenceBefore(a, c) {
      if a.weight == b.weight == c.weight {
        Keyset.LexTransitive(a.slug, b.slug, c.slug);
      }
    }
  }

  lemma PreferenceBeforeSeparates(preferences: seq<Preference>)
    requires forall i, j :: 0 <= i < j < |preferences| ==> preferences[i].slug != preferences[j].slug
    ensures Separates(PreferenceBefore, preferences)
  {
    forall i, j | 0 <= i < j < |preferences|
      ensures PreferenceBefore(preferences[i], preferences[j]) || PreferenceBefore(preferences[j], preferences[i])
    {
      Keyset.LexTrichotomy(preferences[i].slug, preferences[j].slug);
    }
  }
}
