/**
 What a stored hotel leaves behind: an aggregate under its own identity and a
 score for each pair it names, counters that say how many, and an issue for each
 entry that was not stored.
 */
module SentimentStored {
  import opened Common
  import opened SentimentImport
  import opened SentimentImportTheorems
  import S = ScoreTable

  // ----- where a naming comes from

  /** The entry is read, names this pair, and has these counts. */
  predicate Backs(c: Category, e: Entry, n: Naming) {
    && c.Category? && c.key == Some(n.pair.0)
    && e.Entry? && e.key == Some(n.pair.1) && e.rawKey == n.rawKey
    && e.payload.positive == Some(n.counts.positive) && e.payload.negative == Some(n.counts.negative)
    && e.payload.mentions == Some(n.counts.total) && n.counts.total > 0
  }

  ghost predicate Backed(categories: seq<Category>, n: Naming) {
    exists i, j :: 0 <= i < |categories| && categories[i].Category? && 0 <= j < |categories[i].entries| &&
      Backs(categories[i], categories[i].entries[j], n)
  }

  ghost predicate BackedIn(c: Category, entries: seq<Entry>, n: Naming) {
    exists j :: 0 <= j < |entries| && Backs(c, entries[j], n)
  }

  lemma BackedInMore(c: Category, entries: seq<Entry>, n: Naming)
    requires entries != []
    ensures BackedIn(c, entries[..|entries| - 1], n) || Backs(c, entries[|entries| - 1], n) ==> BackedIn(c, entries, n)
  {
    hide Backs;
    var front := entries[..|entries| - 1];
    if BackedIn(c, front, n) {
      var j :| 0 <= j < |front| && Backs(c, front[j], n);
      assert Backs(c, entries[j], n);
    }
  }

  lemma {:induction false} EntriesBack(named: seq<Naming>, c: Category, entries: seq<Entry>)
    requires c.Category? && c.key.Some?
    ensures forall n :: n in NamedEntries(named, c.key.value, entries) ==> n in named || BackedIn(c, entries, n)
  {
    hide BackedIn;
    if entries != [] {
      var front := entries[..|entries| - 1];
      EntriesBack(named, c, front);
      forall n | n in NamedEntries(named, c.key.value, entries) ensures n in named || BackedIn(c, entries, n) {
        BackedInMore(c, entries, n);
      }
    }
  }

  /** A naming carries the raw key and the counts of an entry of the hotel under its pair. */
  lemma {:induction false} NamingsAreBacked(categories: seq<Category>)
    ensures forall n :: n in NamedPairs(categories) ==> Backed(categories, n)
  {
    hide Backs, NamedEntries;
    if categories != [] {
      var front := categories[..|categories| - 1];
      var c := categories[|categories| - 1];
      NamingsAreBacked(front);
      if c.Category? && c.key.Some? {
        EntriesBack(NamedPairs(front), c, c.entries);
      }
      forall n | n in NamedPairs(categories) ensures Backed(categories, n) {
        if n in NamedPairs(front) {
          var i, j :| 0 <= i < |front| && front[i].Category? && 0 <= j < |front[i].entries| && Backs(front[i], front[i].entries[j], n);
          assert Backs(categories[i], categories[i].entries[j], n);
        } else {
          assert BackedIn(c, c.entries, n);
        }
      }
    }
  }

  lemma {:induction false} EntriesAreKnown(named: seq<Naming>, category: string, entries: seq<Entry>)
    ensures forall p :: Knows(named, p) ==> Knows(NamedEntries(named, category, entries), p)
    ensures forall e :: e in entries && Names(e) ==> Knows(NamedEntries(named, category, entries), (category, e.key.value))
  {
    hide Names, ParseCounts;
    if entries != [] {
      var front := NamedEntries(named, category, entries[..|entries| - 1]);
      var last := entries[|entries| - 1];
      EntriesAreKnown(named, category, entries[..|entries| - 1]);
      assert entries == entries[..|entries| - 1] + [last];
      NamedByKnows(front, category, last);
      hide Knows, NamedBy;
    }
  }

  lemma NamedByKnows(named: seq<Naming>, category: string, e: Entry)
    ensures forall p :: Knows(named, p) ==> Knows(NamedBy(named, category, e), p)
    ensures Names(e) ==> Knows(NamedBy(named, category, e), (category, e.key.value))
  {
    if Names(e) {
      var n := Naming((category, e.key.value), e.rawKey, ParseCounts(e.payload).value);
      forall p ensures Knows(named + [n], p) <==> Knows(named, p) || n.pair == p {
        KnowsMore(named, n, p);
      }
    }
  }

  /** Every entry with mentions has its pair among the namings. */
  lemma {:induction false} MentionedPairsAreNamed(categories: seq<Category>, c: Category, e: Entry)
    requires c in categories && c.Category? && c.key.Some? && e in c.entries && Names(e)
    ensures Knows(NamedPairs(categories), (c.key.value, e.key.value))
  {
    var front := categories[..|categories| - 1];
    var last := categories[|categories| - 1];
    assert categories == front + [last];
    if last == c {
      EntriesAreKnown(NamedPairs(front), c.key.value, c.entries);
    } else {
      MentionedPairsAreNamed(front, c, e);
      if last.Category? && last.key.Some? {
        EntriesAreKnown(NamedPairs(front), last.key.value, last.entries);
      }
    }
  }

  // ----- the tables

  /** The attribute a pair means after the hotel was stored. */
  function Meaning(t: Taxonomy, now: Taxonomy, p: Pair): nat {
    if Target(t, p).Some? then Target(t, p).value
    else if p in now.attributes then now.attributes[p] else 0
  }

  lemma {:induction false} UpsertedAt(t: map<Identity, Counts>, hotel: nat, h: Hotel, values: seq<Value>, i: nat)
    requires DistinctAttributes(values) && i < |values|
    ensures var id: Identity := (hotel, values[i].attribute, h.version, h.window);
      id in UpsertAggregates(t, hotel, h, values) && UpsertAggregates(t, hotel, h, values)[id] == values[i].counts
  {
    if i < |values| - 1 {
      UpsertedAt(t, hotel, h, values[..|values| - 1], i);
    }
  }

  lemma {:induction false} UpsertSparesOthers(t: map<Identity, Counts>, hotel: nat, h: Hotel, values: seq<Value>, id: Identity)
    requires id.0 != hotel || id.2 != h.version || id.3 != h.window || forall i :: 0 <= i < |values| ==> values[i].attribute != id.1
    ensures id in UpsertAggregates(t, hotel, h, values) <==> id in t
    ensures id in t ==> UpsertAggregates(t, hotel, h, values)[id] == t[id]
  {
    if values != [] {
      UpsertSparesOthers(t, hotel, h, values[..|values| - 1], id);
    }
  }

  lemma ScoreRowIs(hotel: nat, values: seq<Value>, i: nat)
    requires Mentioned(values) && i < |values|
    ensures ScoreRows(hotel, values)[i].key == (hotel, values[i].attribute)
    ensures var row := ScoreRows(hotel, values)[i].score; var c := values[i].counts;
      && row.source == S.AggregateSentiment && row.mentions == c.total && row.positive == c.positive && row.negative == c.negative
      && row == S.AggregateRow(S.Aggregate(values[i].attribute, c.positive, c.negative, c.total))
  {
  }

  /** What a stored hotel has done, in terms of its classified values. */
  lemma StoredState(s: State, line: nat, h: Hotel) returns (d: Draft)
    requires Sound(s.taxonomy) && ImportHotel(s, line, h).Stored?
    ensures h.hotelId in s.hotels
    ensures d == ClassifyCategories(NewDraft(s.taxonomy), line, h.categories) && !d.broken
    ensures Classified(s.taxonomy, d, NamedPairs(h.categories), false)
    ensures Mentioned(d.values) && DistinctAttributes(d.values) && S.DistinctKeys(ScoreRows(s.hotels[h.hotelId], d.values))
    ensures var after := ImportHotel(s, line, h).state; var hotel := s.hotels[h.hotelId];
      && after.taxonomy == d.taxonomy && after.issues == s.issues + d.issues
      && after.aggregates == UpsertAggregates(s.aggregates, hotel, h, d.values)
      && after.scores == S.Propagate(s.scores, ScoreRows(hotel, d.values)).table
      && after.counters == Add(s.counters, d.delta.(
           attributesProcessed := |d.values|,
           attributesInserted := InsertedCount(s.aggregates, hotel, h, d.values),
           attributesUpdated := |d.values| - InsertedCount(s.aggregates, hotel, h, d.values),
           scoresApplied := S.Propagate(s.scores, ScoreRows(hotel, d.values)).applied,
           scoresSkipped := S.Propagate(s.scores, ScoreRows(hotel, d.values)).skipped))
  {
    hide Classified, ClassifyCategories, UpsertAggregates, ScoreRows, S.Propagate, InsertedCount, AllFit, Add, NamedPairs, HasExcess, Sound;
    d := ClassifyCategories(NewDraft(s.taxonomy), line, h.categories);
    ValuesAreMentioned(NewDraft(s.taxonomy), line, h.categories);
    StartIsClassified(s.taxonomy);
    CategoriesClassify(s.taxonomy, NewDraft(s.taxonomy), line, h.categories);
    StoredHasNoExcess(s, line, h);
  }

  lemma StartIsClassified(t: Taxonomy)
    requires Sound(t)
    ensures Classified(t, NewDraft(t), [], false)
  {
    assert Grown(t, t);
  }

  lemma StoredHasNoExcess(s: State, line: nat, h: Hotel)
    requires Sound(s.taxonomy) && ImportHotel(s, line, h).Stored?
    ensures !HasExcess(h.categories)
  {
    StoredIff(s, line, h);
    hide ImportHotel, HasExcess;
  }

  lemma ValueOf(t: Taxonomy, d: Draft, named: seq<Naming>, i: nat)
    requires Classified(t, d, named, false) && !d.broken && i < |Accepted(t, named)|
    ensures |d.values| == |Accepted(t, named)| && Stores(d.values[i], Accepted(t, named)[i])
    ensures d.values[i].attribute == Meaning(t, d.taxonomy, Accepted(t, named)[i].pair)
    ensures d.values[i].counts == Accepted(t, named)[i].counts
  {
    hide Grown, Registered, NewAreKnown, SeenAre, Accepted, Target, Refused;
    assert IsMeant(t, d.taxonomy, d.values[i]);
  }

  lemma {:induction false} AcceptedAreNamed(t: Taxonomy, named: seq<Naming>, n: Naming)
    ensures n in Accepted(t, named) <==> n in named && !Refused(t, n.pair)
  {
    hide Refused;
    if named != [] {
      AcceptedAreNamed(t, named[..|named| - 1], n);
      assert named == named[..|named| - 1] + [named[|named| - 1]];
    }
  }

  /**
   For each pair a stored hotel names that is not refused, the aggregate under the
   hotel, the attribute the pair means, and the version and window of the line has
   the counts of the pair's first entry, and the hotel has a score for the
   attribute; a new one counts the same mentions.
   */
  lemma StoredHotelWrites(s: State, line: nat, h: Hotel, n: Naming)
    requires Sound(s.taxonomy) && ImportHotel(s, line, h).Stored?
    requires n in NamedPairs(h.categories) && !Refused(s.taxonomy, n.pair)
    ensures h.hotelId in s.hotels
    ensures var after := ImportHotel(s, line, h).state; var hotel := s.hotels[h.hotelId];
      var a := Meaning(s.taxonomy, after.taxonomy, n.pair);
      && (Target(s.taxonomy, n.pair).None? ==> n.pair in after.taxonomy.attributes)
      && (hotel, a, h.version, h.window) in after.aggregates && after.aggregates[(hotel, a, h.version, h.window)] == n.counts
      && (hotel, a) in after.scores
      && ((hotel, a) !in s.scores ==>
            var row := after.scores[(hotel, a)];
            row.source == S.AggregateSentiment && row.mentions == n.counts.total
            && row.positive == n.counts.positive && row.negative == n.counts.negative)
  {
    var d := StoredState(s, line, h);
    var named := NamedPairs(h.categories);
    hide ImportHotel, ClassifyCategories, UpsertAggregates, ScoreRows, S.Propagate, InsertedCount, NamedPairs, Classified, Refused, Target, S.AggregateRow;
    AcceptedAreNamed(s.taxonomy, named, n);
    var i :| 0 <= i < |Accepted(s.taxonomy, named)| && Accepted(s.taxonomy, named)[i] == n;
    hide Accepted, Meaning;
    ValueOf(s.taxonomy, d, named, i);
    var hotel := s.hotels[h.hotelId];
    UpsertedAt(s.aggregates, hotel, h, d.values, i);
    ScoreRowIs(hotel, d.values, i);
    PropagatedAt(s.scores, ScoreRows(hotel, d.values), i);
    NewPairIsNamed(s.taxonomy, d, named, i, n);
  }

  lemma NewPairIsNamed(t: Taxonomy, d: Draft, named: seq<Naming>, i: nat, n: Naming)
    requires Classified(t, d, named, false) && !d.broken && i < |d.values| && Stores(d.values[i], n)
    ensures Target(t, n.pair).None? ==> n.pair in d.taxonomy.attributes
  {
    hide Grown, Registered, NewAreKnown, SeenAre, Listed, Target, Refused;
    assert IsMeant(t, d.taxonomy, d.values[i]);
  }

  lemma PropagatedAt(t: S.Table, rows: seq<S.Upsert>, i: nat)
    requires S.DistinctKeys(rows) && i < |rows|
    ensures rows[i].key in S.Propagate(t, rows).table
    ensures rows[i].key !in t ==> S.Propagate(t, rows).table[rows[i].key] == rows[i].score
  {
    S.UpsertAt(t, rows, rows[0].score, i);
  }

  /** Aggregates of other hotels, versions and windows stay as they are, and so do the scores of other hotels. */
  lemma StoredHotelSparesOthers(s: State, line: nat, h: Hotel, id: Identity, key: S.Key)
    requires Sound(s.taxonomy) && ImportHotel(s, line, h).Stored?
    ensures h.hotelId in s.hotels
    ensures var after := ImportHotel(s, line, h).state; var hotel := s.hotels[h.hotelId];
      && (id.0 != hotel || id.2 != h.version || id.3 != h.window ==>
            (id in after.aggregates <==> id in s.aggregates) && (id in s.aggregates ==> after.aggregates[id] == s.aggregates[id]))
      && (key.0 != hotel ==> (key in after.scores <==> key in s.scores) && (key in s.scores ==> after.scores[key] == s.scores[key]))
  {
    hide ImportHotel, ClassifyCategories, UpsertAggregates, S.Propagate, InsertedCount, NamedPairs, Classified, ScoreRows, Sound, Add;
    hide DistinctAttributes, Mentioned, S.DistinctKeys;
    var d := StoredState(s, line, h);
    var hotel := s.hotels[h.hotelId];
    if id.0 != hotel || id.2 != h.version || id.3 != h.window {
      UpsertSparesOthers(s.aggregates, hotel, h, d.values, id);
    }
    if key.0 != hotel {
      RowsAreOfTheHotel(hotel, d.values, key);
      OthersAreSpared(s.scores, ScoreRows(hotel, d.values), key);
    }
  }

  lemma RowsAreOfTheHotel(hotel: nat, values: seq<Value>, key: S.Key)
    requires Mentioned(values) && key.0 != hotel
    ensures forall i :: 0 <= i < |ScoreRows(hotel, values)| ==> ScoreRows(hotel, values)[i].key != key
  {
    hide S.AggregateRow;
  }

  lemma OthersAreSpared(t: S.Table, rows: seq<S.Upsert>, key: S.Key)
    requires S.DistinctKeys(rows) && forall i :: 0 <= i < |rows| ==> rows[i].key != key
    ensures var after := S.Propagate(t, rows).table; (key in after <==> key in t) && (key in t ==> after[key] == t[key])
  {
    if rows != [] {
      S.UpsertLeavesOthers(t, rows, rows[0].score, key);
    }
  }

  // ----- the counters

  /** The aggregate of the naming is already there. */
  function Present(s: State, now: Taxonomy, hotel: nat, h: Hotel): Naming -> bool {
    (n: Naming) => (hotel, Meaning(s.taxonomy, now, n.pair), h.version, h.window) in s.aggregates
  }

  predicate IsReviewed(t: S.Table, key: S.Key) {
    key in t && t[key].source == S.ReviewBased
  }

  /** The score of the naming was computed from reviews. */
  function Reviewed(s: State, now: Taxonomy, hotel: nat): Naming -> bool {
    (n: Naming) => IsReviewed(s.scores, (hotel, Meaning(s.taxonomy, now, n.pair)))
  }

  /**
   A stored hotel counts as processed the pairs that are not refused, as updated
   those whose aggregate was there and as inserted the others, as skipped scores
   those computed from reviews and as applied the others, and as created the
   attributes that are new.
   */
  lemma StoredHotelCounts(s: State, line: nat, h: Hotel)
    requires Sound(s.taxonomy) && ImportHotel(s, line, h).Stored?
    ensures h.hotelId in s.hotels
    ensures var after := ImportHotel(s, line, h).state; var c := s.counters; var accepted := Accepted(s.taxonomy, NamedPairs(h.categories));
      && after.counters.hotelsMatched == c.hotelsMatched + 1 && after.counters.hotelsFailed == c.hotelsFailed
      && after.counters.attributesProcessed == c.attributesProcessed + |accepted|
      && after.counters.attributesUpdated == c.attributesUpdated + Count(accepted, Present(s, after.taxonomy, s.hotels[h.hotelId], h))
      && after.counters.attributesInserted + after.counters.attributesUpdated == c.attributesInserted + c.attributesUpdated + |accepted|
      && after.counters.scoresSkipped == c.scoresSkipped + Count(accepted, Reviewed(s, after.taxonomy, s.hotels[h.hotelId]))
      && after.counters.scoresApplied + after.counters.scoresSkipped == c.scoresApplied + c.scoresSkipped + |accepted|
      && after.counters.autoCreated == c.autoCreated + |after.taxonomy.attributes| - |s.taxonomy.attributes|
  {
    var d := StoredState(s, line, h);
    var named := NamedPairs(h.categories);
    CreatedAreNew(NewDraft(s.taxonomy), line, h.categories);
    DraftOfOneHotel(s.taxonomy, line, h.categories);
    hide ImportHotel, ClassifyCategories, UpsertAggregates, S.Propagate, NamedPairs, Classified, Accepted, S.AggregateRow, Meaning, Count;
    var hotel := s.hotels[h.hotelId];
    forall i | 0 <= i < |Accepted(s.taxonomy, named)|
      ensures |d.values| == |Accepted(s.taxonomy, named)| && d.values[i].attribute == Meaning(s.taxonomy, d.taxonomy, Accepted(s.taxonomy, named)[i].pair)
    {
      ValueOf(s.taxonomy, d, named, i);
    }
    SameLength(s.taxonomy, d, named);
    var accepted := Accepted(s.taxonomy, named);
    UpdatedCount(s, hotel, h, d.values, accepted, d.taxonomy);
    SkippedAre(s, hotel, d.values, accepted, d.taxonomy);
  }

  lemma SameLength(t: Taxonomy, d: Draft, named: seq<Naming>)
    requires Classified(t, d, named, false) && !d.broken
    ensures |d.values| == |Accepted(t, named)|
  {
    hide Grown, Registered, NewAreKnown, SeenAre, ValuesMatch, Accepted, Stores;
  }

  lemma {:induction false} UpdatedCount(s: State, hotel: nat, h: Hotel, values: seq<Value>, accepted: seq<Naming>, now: Taxonomy)
    requires |values| == |accepted|
    requires forall i :: 0 <= i < |accepted| ==> values[i].attribute == Meaning(s.taxonomy, now, accepted[i].pair)
    ensures InsertedCount(s.aggregates, hotel, h, values) + Count(accepted, Present(s, now, hotel, h)) == |accepted|
  {
    hide Meaning;
    var isNew := (v: Value) => IdentityOf(hotel, h, v) !in s.aggregates;
    CountOthers(values, isNew, accepted, Present(s, now, hotel, h));
  }

  /** Elements counted on one side stand for elements not counted on the other. */
  lemma {:induction false} CountOthers<T, U>(s: seq<T>, p: T -> bool, t: seq<U>, q: U -> bool)
    requires |s| == |t| && forall i :: 0 <= i < |s| ==> p(s[i]) == !q(t[i])
    ensures Count(s, p) + Count(t, q) == |s|
  {
    if s != [] {
      CountOthers(s[..|s| - 1], p, t[..|t| - 1], q);
    }
  }

  lemma {:induction false} SkippedAre(s: State, hotel: nat, values: seq<Value>, accepted: seq<Naming>, now: Taxonomy)
    requires |values| == |accepted| && Mentioned(values) && S.DistinctKeys(ScoreRows(hotel, values))
    requires forall i :: 0 <= i < |accepted| ==> values[i].attribute == Meaning(s.taxonomy, now, accepted[i].pair)
    ensures var p := S.Propagate(s.scores, ScoreRows(hotel, values));
      p.skipped == Count(accepted, Reviewed(s, now, hotel)) && p.applied + p.skipped == |accepted|
  {
    hide Meaning, S.AggregateRow, Count;
    var rows := ScoreRows(hotel, values);
    var applies := (u: S.Upsert) => S.Applies(s.scores, u);
    forall i | 0 <= i < |rows| ensures rows[i].key == (hotel, values[i].attribute) {
      ScoreRowIs(hotel, values, i);
    }
    forall i | 0 <= i < |rows| ensures applies(rows[i]) == !Reviewed(s, now, hotel)(accepted[i]) {
      assert rows[i].key == (hotel, values[i].attribute);
    }
    CountOthers(rows, applies, accepted, Reviewed(s, now, hotel));
    NothingApplies(s.scores);
  }

  lemma NothingApplies(t: S.Table)
    ensures S.AppliedCount(t, []) == 0
  {
  }

  // ----- new attributes

  predicate CreatedSince(start: Draft, d: Draft) {
    d.delta.autoCreated - |d.taxonomy.attributes| == start.delta.autoCreated - |start.taxonomy.attributes|
  }

  lemma EntryCreates(d: Draft, line: nat, category: string, e: Entry)
    ensures CreatedSince(d, ClassifyEntry(d, line, category, e))
  {
    hide ParseCounts, WithCategory, WithSlug, Excessive;
  }

  lemma {:induction false} EntriesCreate(d: Draft, line: nat, category: string, entries: seq<Entry>)
    ensures CreatedSince(d, ClassifyEntries(d, line, category, entries))
  {
    hide ClassifyEntry;
    if entries != [] {
      EntriesCreate(d, line, category, entries[..|entries| - 1]);
      EntryCreates(ClassifyEntries(d, line, category, entries[..|entries| - 1]), line, category, entries[|entries| - 1]);
    }
  }

  /** The counter of created attributes is the growth of the taxonomy. */
  lemma {:induction false} CreatedAreNew(d: Draft, line: nat, categories: seq<Category>)
    ensures CreatedSince(d, ClassifyCategories(d, line, categories))
  {
    hide ClassifyEntries;
    if categories != [] {
      var front := ClassifyCategories(d, line, categories[..|categories| - 1]);
      var c := categories[|categories| - 1];
      CreatedAreNew(d, line, categories[..|categories| - 1]);
      if c.Category? && c.key.Some? {
        EntriesCreate(front, line, c.key.value, c.entries);
      }
    }
  }

  lemma DraftOfOneHotel(t: Taxonomy, line: nat, categories: seq<Category>)
    ensures DraftBalances(ClassifyCategories(NewDraft(t), line, categories))
  {
    assert DraftBalances(NewDraft(t)) by { NoIssues(); }
    CategoriesBalance(NewDraft(t), line, categories);
  }

  // ----- the issues

  /** The issue an entry leaves by itself, whatever came before it. */
  function OwnIssue(e: Entry): Option<IssueKind> {
    if e.InvalidEntry? then Some(InvalidAttributeValue)
    else if ParseCounts(e.payload).None? then Some(InvalidCounts)
    else if ParseCounts(e.payload).value.total > 0 && e.key.None? then Some(InvalidAttributeKey)
    else None
  }

  predicate OwnKind(kind: IssueKind) {
    kind.InvalidAttributeValue? || kind.InvalidCounts? || kind.InvalidAttributeKey? || kind.OfCategory()
  }

  /** How many issues of the kind a category leaves: one if it cannot be read itself, and otherwise those of its entries. */
  function OwnInCategory(c: Category, kind: IssueKind): nat {
    if c.InvalidCategory? then if kind.InvalidAttributeCategory? then 1 else 0
    else if c.key.None? then if kind.InvalidCategoryKey? then 1 else 0
    else Count(c.entries, Own(kind))
  }

  function OwnIssues(categories: seq<Category>, kind: IssueKind): nat {
    if categories == [] then 0
    else OwnIssues(categories[..|categories| - 1], kind) + OwnInCategory(categories[|categories| - 1], kind)
  }

  function Own(kind: IssueKind): Entry -> bool {
    (e: Entry) => OwnIssue(e) == Some(kind)
  }

  function EntriesWith(categories: seq<Category>, p: Entry -> bool): nat {
    if categories == [] then 0
    else
      var c := categories[|categories| - 1];
      EntriesWith(categories[..|categories| - 1], p) + if c.Category? && c.key.Some? then Count(c.entries, p) else 0
  }

  function OfKind(issues: seq<Issue>, kind: IssueKind): nat {
    Count(issues, (i: Issue) => i.kind == kind)
  }

  lemma OfKindMore(issues: seq<Issue>, i: Issue, kind: IssueKind)
    ensures OfKind(issues + [i], kind) == OfKind(issues, kind) + if i.kind == kind then 1 else 0
  {
    assert (issues + [i])[..|issues|] == issues;
  }

  predicate Unmentioned(e: Entry) {
    e.Entry? && ParseCounts(e.payload).Some? && ParseCounts(e.payload).value.total == 0
  }

  /** What an entry adds to the issues and to the counter of unmentioned attributes. */
  predicate Adds(d: Draft, after: Draft, line: nat, e: Entry) {
    && after.delta.attributesSeen == d.delta.attributesSeen + 1
    && after.delta.zeroMentions == d.delta.zeroMentions + (if Unmentioned(e) then 1 else 0)
    && match OwnIssue(e)
       case Some(kind) => after.issues == d.issues + [Issue(line, kind)]
       case None =>
         after.issues == d.issues ||
           (|after.issues| == |d.issues| + 1 && after.issues[|d.issues|].line == line && !OwnKind(after.issues[|d.issues|].kind)
            && after.issues == d.issues + [after.issues[|d.issues|]])
  }

  lemma EntryAdds(d: Draft, line: nat, category: string, e: Entry)
    ensures var after := ClassifyEntry(d, line, category, e);
      if d.broken then after == d else after.broken || Adds(d, after, line, e)
  {
    hide ParseCounts, Resolve, Excessive;
  }

  lemma EntryLeaves(d: Draft, line: nat, category: string, e: Entry, kind: IssueKind)
    requires OwnKind(kind)
    ensures var after := ClassifyEntry(d, line, category, e);
      && (d.broken ==> after == d)
      && (!after.broken ==> LeftBy(d, after, line, kind, 1, if Own(kind)(e) then 1 else 0, if Unmentioned(e) then 1 else 0))
  {
    var after := ClassifyEntry(d, line, category, e);
    EntryAdds(d, line, category, e);
    hide ClassifyEntry, OfKind, Unmentioned;
    if !after.broken {
      assert !d.broken;
      if |after.issues| > |d.issues| {
        OfKindMore(d.issues, after.issues[|d.issues|], kind);
      }
    }
    hide ParseCounts;
  }

  predicate LeftBy(d: Draft, after: Draft, line: nat, kind: IssueKind, entries: nat, own: nat, unmentioned: nat) {
    && OfKind(after.issues, kind) == OfKind(d.issues, kind) + own
    && after.delta.zeroMentions == d.delta.zeroMentions + unmentioned
    && after.delta.attributesSeen == d.delta.attributesSeen + entries
    && |d.issues| <= |after.issues| && after.issues[..|d.issues|] == d.issues
    && forall i :: |d.issues| <= i < |after.issues| ==> after.issues[i].line == line
  }

  lemma LeftByBoth(d: Draft, m: Draft, after: Draft, line: nat, kind: IssueKind, a: nat, b: nat, c: nat, x: nat, y: nat, z: nat)
    requires LeftBy(d, m, line, kind, a, b, c) && LeftBy(m, after, line, kind, x, y, z)
    ensures LeftBy(d, after, line, kind, a + x, b + y, c + z)
  {
    hide OfKind;
    assert after.issues[..|d.issues|] == after.issues[..|m.issues|][..|d.issues|];
    forall i | |d.issues| <= i < |after.issues| ensures after.issues[i].line == line {
      assert i < |m.issues| ==> after.issues[i] == after.issues[..|m.issues|][i];
    }
  }

  lemma {:induction false} EntriesLeave(d: Draft, line: nat, category: string, entries: seq<Entry>, kind: IssueKind)
    requires OwnKind(kind)
    ensures var after := ClassifyEntries(d, line, category, entries);
      && (d.broken ==> after == d)
      && (!after.broken ==> LeftBy(d, after, line, kind, |entries|, Count(entries, Own(kind)), Count(entries, Unmentioned)))
  {
    hide ClassifyEntry, LeftBy, OwnIssue, Unmentioned, OfKind;
    if entries == [] {
      NothingLeft(d, line, kind);
    } else {
      var front := entries[..|entries| - 1];
      var last := entries[|entries| - 1];
      EntriesLeave(d, line, category, front, kind);
      var m := ClassifyEntries(d, line, category, front);
      EntryLeaves(m, line, category, last, kind);
      var after := ClassifyEntry(m, line, category, last);
      if !after.broken {
        LeftByBoth(
          d, m, after, line, kind, |front|, Count(front, Own(kind)), Count(front, Unmentioned),
          1, if Own(kind)(last) then 1 else 0, if Unmentioned(last) then 1 else 0);
      }
    }
  }

  lemma NothingLeft(d: Draft, line: nat, kind: IssueKind)
    ensures LeftBy(d, d, line, kind, 0, 0, 0)
  {
    hide OfKind;
  }

  lemma CategoryLeaves(d: Draft, line: nat, c: Category, kind: IssueKind)
    requires OwnKind(kind)
    ensures var after := ClassifyCategory(d, line, c); var read := c.Category? && c.key.Some?;
      && (d.broken ==> after == d)
      && (!after.broken ==>
            LeftBy(d, after, line, kind, if read then |c.entries| else 0,
                   OwnInCategory(c, kind), if read then Count(c.entries, Unmentioned) else 0))
  {
    OfKindMore(d.issues, Issue(line, InvalidAttributeCategory), kind);
    OfKindMore(d.issues, Issue(line, InvalidCategoryKey), kind);
    hide ClassifyEntries, OfKind, OwnIssue, Unmentioned;
    if c.Category? && c.key.Some? {
      hide LeftBy;
      EntriesLeave(d, line, c.key.value, c.entries, kind);
    }
  }

  lemma {:induction false} CategoriesLeave(d: Draft, line: nat, categories: seq<Category>, kind: IssueKind)
    requires OwnKind(kind) && !ClassifyCategories(d, line, categories).broken
    ensures LeftBy(d, ClassifyCategories(d, line, categories), line, kind,
      EntriesWith(categories, (e: Entry) => true), OwnIssues(categories, kind), EntriesWith(categories, Unmentioned))
  {
    hide ClassifyCategory, LeftBy, OwnIssue, Unmentioned, OfKind;
    if categories == [] {
      NothingLeft(d, line, kind);
    } else {
      var front := categories[..|categories| - 1];
      var c := categories[|categories| - 1];
      var m := ClassifyCategories(d, line, front);
      CategoryLeaves(m, line, c, kind);
      CategoriesLeave(d, line, front, kind);
      var read := c.Category? && c.key.Some?;
      if read {
        CountEvery(c.entries);
      }
      LeftByBoth(
        d, m, ClassifyCategory(m, line, c), line, kind,
        EntriesWith(front, (e: Entry) => true), OwnIssues(front, kind), EntriesWith(front, Unmentioned),
        if read then |c.entries| else 0, OwnInCategory(c, kind), if read then Count(c.entries, Unmentioned) else 0);
    }
  }

  lemma {:induction false} CountEvery(entries: seq<Entry>)
    ensures Count(entries, (e: Entry) => true) == |entries|
  {
    if entries != [] {
      CountEvery(entries[..|entries| - 1]);
    }
  }

  /**
   A stored hotel has seen every entry of the categories it could read, has
   skipped exactly those without mentions, and has left on its line an issue of
   exactly the kind that fits for each category it could not read and each entry
   that is invalid, has no usable counts, or has no usable key.
   */
  lemma StoredHotelReports(s: State, line: nat, h: Hotel, kind: IssueKind)
    requires Sound(s.taxonomy) && ImportHotel(s, line, h).Stored? && OwnKind(kind)
    ensures var after := ImportHotel(s, line, h).state;
      && after.counters.attributesSeen == s.counters.attributesSeen + EntriesWith(h.categories, (e: Entry) => true)
      && after.counters.zeroMentions == s.counters.zeroMentions + EntriesWith(h.categories, Unmentioned)
      && OfKind(after.issues, kind) == OfKind(s.issues, kind) + OwnIssues(h.categories, kind)
      && |s.issues| <= |after.issues| && after.issues[..|s.issues|] == s.issues
      && forall i :: |s.issues| <= i < |after.issues| ==> after.issues[i].line == line
  {
    var d := StoredState(s, line, h);
    CategoriesLeave(NewDraft(s.taxonomy), line, h.categories, kind);
    CountConcat(s.issues, d.issues, (i: Issue) => i.kind == kind);
    hide ImportHotel, ClassifyCategories, UpsertAggregates, ScoreRows, S.Propagate, InsertedCount, NamedPairs, Classified, OwnIssue, Unmentioned;
    assert OfKind([], kind) == 0;
  }

  // ----- refused pairs

  predicate TooWide(n: Naming) {
    |n.pair.0| > KEY_LIMIT || |n.pair.1| > KEY_LIMIT
  }

  /** Not too wide, and an alias of several attributes. */
  function MeansMany(t: Taxonomy): Naming -> bool {
    (n: Naming) => !TooWide(n) && Refused(t, n.pair)
  }

  /** So far every refused naming has left the issue that fits. */
  predicate Reports(t: Taxonomy, d: Draft, named: seq<Naming>) {
    && OfKind(d.issues, AttributeKeyTooLong) == Count(named, TooWide)
    && OfKind(d.issues, AmbiguousAttributeAlias) == Count(named, MeansMany(t))
  }

  /** The issue the resolution of a pair leaves. */
  function ResolutionIssues(line: nat, r: Resolution): seq<Issue> {
    match r
    case TooLong => [Issue(line, AttributeKeyTooLong)]
    case Ambiguous(_) => [Issue(line, AmbiguousAttributeAlias)]
    case _ => []
  }

  lemma EntryResolvesTo(d: Draft, line: nat, category: string, e: Entry)
    requires !d.broken && !ClassifyEntry(d, line, category, e).broken
    ensures var after := ClassifyEntry(d, line, category, e);
      if Names(e) && (category, e.key.value) !in d.seen
      then after.issues == d.issues + ResolutionIssues(line, Resolve(d.taxonomy, category, e.key.value))
      else after.issues == d.issues ||
           (|after.issues| == |d.issues| + 1 && after.issues == d.issues + [after.issues[|d.issues|]]
            && !after.issues[|d.issues|].kind.AttributeKeyTooLong? && !after.issues[|d.issues|].kind.AmbiguousAttributeAlias?)
  {
    hide ParseCounts, Resolve, Excessive;
    assert d.issues + [] == d.issues;
  }

  lemma CountMore(t: Taxonomy, named: seq<Naming>, n: Naming)
    ensures Count(named + [n], TooWide) == Count(named, TooWide) + if TooWide(n) then 1 else 0
    ensures Count(named + [n], MeansMany(t)) == Count(named, MeansMany(t)) + if MeansMany(t)(n) then 1 else 0
  {
    assert (named + [n])[..|named|] == named;
  }

  lemma SeenIsKnown(t: Taxonomy, d: Draft, named: seq<Naming>, excess: bool, p: Pair)
    requires Classified(t, d, named, excess) && !d.broken
    ensures p in d.seen <==> Knows(named, p)
    ensures Grown(t, d.taxonomy) && !excess
  {
    hide Grown, Registered, ValuesMatch, Listed, Knows, NewAreKnown;
  }

  lemma ResolutionFits(t: Taxonomy, now: Taxonomy, n: Naming)
    requires Grown(t, now)
    ensures Resolve(now, n.pair.0, n.pair.1).TooLong? <==> TooWide(n)
    ensures !Resolve(now, n.pair.0, n.pair.1).Unstorable? ==> (Resolve(now, n.pair.0, n.pair.1).Ambiguous? <==> MeansMany(t)(n))
  {
    hide Grown;
    TargetNow(t, now, n.pair);
    ResolveIs(now, n.pair);
    hide WithCategory, WithSlug;
  }

  lemma NewNamingReports(t: Taxonomy, d: Draft, after: Draft, named: seq<Naming>, n: Naming, line: nat, r: Resolution)
    requires Reports(t, d, named) && after.issues == d.issues + ResolutionIssues(line, r)
    requires r.TooLong? <==> TooWide(n)
    requires r.Ambiguous? <==> MeansMany(t)(n)
    ensures Reports(t, after, named + [n])
  {
    hide OfKind, Count, TooWide, MeansMany;
    CountMore(t, named, n);
    OfKindMore(d.issues, Issue(line, AttributeKeyTooLong), AttributeKeyTooLong);
    OfKindMore(d.issues, Issue(line, AttributeKeyTooLong), AmbiguousAttributeAlias);
    OfKindMore(d.issues, Issue(line, AmbiguousAttributeAlias), AttributeKeyTooLong);
    OfKindMore(d.issues, Issue(line, AmbiguousAttributeAlias), AmbiguousAttributeAlias);
    assert d.issues + [] == d.issues;
  }

  lemma OtherIssueReports(t: Taxonomy, d: Draft, after: Draft, named: seq<Naming>)
    requires Reports(t, d, named)
    requires after.issues == d.issues ||
      (|after.issues| == |d.issues| + 1 && after.issues == d.issues + [after.issues[|d.issues|]]
       && !after.issues[|d.issues|].kind.AttributeKeyTooLong? && !after.issues[|d.issues|].kind.AmbiguousAttributeAlias?)
    ensures Reports(t, after, named)
  {
    hide OfKind, Count;
    if after.issues != d.issues {
      OfKindMore(d.issues, after.issues[|d.issues|], AttributeKeyTooLong);
      OfKindMore(d.issues, after.issues[|d.issues|], AmbiguousAttributeAlias);
    }
  }

  lemma EntryReports(t: Taxonomy, d: Draft, named: seq<Naming>, excess: bool, line: nat, category: string, e: Entry)
    requires Classified(t, d, named, excess) && !d.broken && Reports(t, d, named) && !ClassifyEntry(d, line, category, e).broken
    ensures Reports(t, ClassifyEntry(d, line, category, e), NamedBy(named, category, e))
  {
    hide Classified, Reports, TooWide, MeansMany, Knows, ClassifyEntry, Resolve, ParseCounts, ResolutionIssues;
    var after := ClassifyEntry(d, line, category, e);
    EntryResolvesTo(d, line, category, e);
    if Names(e) {
      SeenIsKnown(t, d, named, excess, (category, e.key.value));
    }
    if Names(e) && (category, e.key.value) !in d.seen {
      var n := Naming((category, e.key.value), e.rawKey, ParseCounts(e.payload).value);
      ResolutionFits(t, d.taxonomy, n);
      ResolvedStorable(d, line, category, e);
      NewNamingReports(t, d, after, named, n, line, Resolve(d.taxonomy, category, e.key.value));
    } else {
      OtherIssueReports(t, d, after, named);
    }
  }

  lemma ResolvedStorable(d: Draft, line: nat, category: string, e: Entry)
    requires !d.broken && Names(e) && (category, e.key.value) !in d.seen && !ClassifyEntry(d, line, category, e).broken
    ensures !Resolve(d.taxonomy, category, e.key.value).Unstorable?
  {
    hide Resolve;
  }

  lemma {:induction false} EntriesReport(t: Taxonomy, d: Draft, named: seq<Naming>, line: nat, category: string, entries: seq<Entry>)
    requires Classified(t, d, named, false) && !d.broken && Reports(t, d, named)
    requires !ClassifyEntries(d, line, category, entries).broken
    ensures Reports(t, ClassifyEntries(d, line, category, entries), NamedEntries(named, category, entries))
  {
    hide Classified, Reports, ClassifyEntry, NamedBy, ExcessIn;
    if entries != [] {
      var front := entries[..|entries| - 1];
      BrokenStays(ClassifyEntries(d, line, category, front), line, category, entries[|entries| - 1]);
      EntriesReport(t, d, named, line, category, front);
      EntriesClassify(t, d, named, false, line, category, front);
      EntryReports(
        t, ClassifyEntries(d, line, category, front), NamedEntries(named, category, front), ExcessIn(front), line, category,
        entries[|entries| - 1]);
    }
  }

  lemma BrokenStays(d: Draft, line: nat, category: string, e: Entry)
    ensures d.broken ==> ClassifyEntry(d, line, category, e).broken
  {
  }

  lemma {:induction false} CategoriesReport(t: Taxonomy, line: nat, categories: seq<Category>)
    requires Sound(t) && !ClassifyCategories(NewDraft(t), line, categories).broken
    ensures Reports(t, ClassifyCategories(NewDraft(t), line, categories), NamedPairs(categories))
  {
    hide ClassifyEntries, NamedEntries, Classified, Reports, HasExcess, Sound;
    if categories == [] {
      assert Reports(t, NewDraft(t), []) by { NothingReported(t); }
    } else {
      var front := categories[..|categories| - 1];
      var c := categories[|categories| - 1];
      var before := ClassifyCategories(NewDraft(t), line, front);
      CategoriesReport(t, line, front);
      StartIsClassified(t);
      CategoriesClassify(t, NewDraft(t), line, front);
      if c.Category? && c.key.Some? {
        UnbrokenHasNoExcess(t, before, NamedPairs(front), HasExcess(front));
        EntriesReport(t, before, NamedPairs(front), line, c.key.value, c.entries);
      } else {
        CategoryIssueReports(t, before, line, c, NamedPairs(front));
      }
    }
  }

  lemma CategoryIssueReports(t: Taxonomy, d: Draft, line: nat, c: Category, named: seq<Naming>)
    requires !d.broken && !(c.Category? && c.key.Some?) && Reports(t, d, named)
    ensures Reports(t, ClassifyCategory(d, line, c), named)
  {
    hide Reports;
    OtherIssueReports(t, d, ClassifyCategory(d, line, c), named);
  }

  lemma UnbrokenHasNoExcess(t: Taxonomy, d: Draft, named: seq<Naming>, excess: bool)
    requires Classified(t, d, named, excess) && !d.broken
    ensures !excess && Classified(t, d, named, false)
  {
  }

  lemma NothingReported(t: Taxonomy)
    ensures Reports(t, NewDraft(t), [])
  {
  }

  /** A stored hotel leaves one issue for each pair that is too wide and one of another kind for each alias of several attributes. */
  lemma StoredHotelRefuses(s: State, line: nat, h: Hotel)
    requires Sound(s.taxonomy) && ImportHotel(s, line, h).Stored?
    ensures var after := ImportHotel(s, line, h).state; var named := NamedPairs(h.categories);
      && OfKind(after.issues, AttributeKeyTooLong) == OfKind(s.issues, AttributeKeyTooLong) + Count(named, TooWide)
      && OfKind(after.issues, AmbiguousAttributeAlias) == OfKind(s.issues, AmbiguousAttributeAlias) + Count(named, MeansMany(s.taxonomy))
  {
    hide ImportHotel, ClassifyCategories, UpsertAggregates, ScoreRows, S.Propagate, InsertedCount, NamedPairs, Classified, Sound, Add;
    hide Count, TooWide, MeansMany, DistinctAttributes, Mentioned, S.DistinctKeys;
    var d := StoredState(s, line, h);
    CategoriesReport(s.taxonomy, line, h.categories);
    CountConcat(s.issues, d.issues, (i: Issue) => i.kind == AttributeKeyTooLong);
    CountConcat(s.issues, d.issues, (i: Issue) => i.kind == AmbiguousAttributeAlias);
  }

  // ----- lines that store nothing

  /** A line that stores nothing leaves one issue, of the kind that fits: it cannot be read, its hotel is unknown, or the database refused it. */
  lemma FailedLineReports(s: State, line: nat, r: Record)
    requires Sound(s.taxonomy)
    ensures var stored := r.Readable? && r.hotel.hotelId in s.hotels && s.algorithmActive && Acceptable(s.taxonomy, r.hotel);
      var after := ImportLine(s, line, r); var unknown := r.Readable? && r.hotel.hotelId !in s.hotels;
      && after.hotelsRead == s.hotelsRead + 1
      && (stored ==> after.counters.hotelsMatched == s.counters.hotelsMatched + 1)
      && (!stored ==>
            && after.taxonomy == s.taxonomy && after.aggregates == s.aggregates && after.scores == s.scores
            && after.counters == Add(s.counters, ZERO.(hotelsFailed := 1, unknownHotels := if unknown then 1 else 0))
            && after.issues == s.issues + [Issue(line,
                 if r.Unreadable? then InvalidSentimentRecord else if unknown then UnknownSentimentHotel else SentimentPersistenceError)])
  {
    hide ImportHotel, Acceptable, Sound, Add;
    if r.Readable? {
      var counted := s.(hotelsRead := s.hotelsRead + 1);
      StoredIff(counted, line, r.hotel);
      UnknownIff(counted, line, r.hotel);
      if ImportHotel(counted, line, r.hotel).Stored? {
        StoredReads(counted, line, r.hotel);
      }
    }
  }

  lemma UnknownIff(s: State, line: nat, h: Hotel)
    ensures ImportHotel(s, line, h).Unknown? <==> h.hotelId !in s.hotels
  {
    hide ClassifyCategories, UpsertAggregates, ScoreRows, S.Propagate, InsertedCount, AllFit, DistinctAttributes;
  }

  lemma StoredReads(s: State, line: nat, h: Hotel)
    requires Sound(s.taxonomy) && ImportHotel(s, line, h).Stored?
    ensures ImportHotel(s, line, h).state.hotelsRead == s.hotelsRead
    ensures ImportHotel(s, line, h).state.counters.hotelsMatched == s.counters.hotelsMatched + 1
  {
    StoredHotelCounts(s, line, h);
    hide ClassifyCategories, UpsertAggregates, ScoreRows, S.Propagate, InsertedCount, AllFit, DistinctAttributes, Sound, Add;
  }
}
