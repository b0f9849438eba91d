/**
 What the sentiment import conserves: every attribute of an accepted hotel is
 stored, skipped as unmentioned, or leaves an issue, and all job counters balance
 at every commit, whatever crashes came before.
 */
module SentimentImportTheorems {
  import opened Common
  import opened Checkpointing
  import opened SentimentImport
  import S = ScoreTable

  predicate CategoryIssue(i: Issue) { i.kind.OfCategory() }

  predicate AttributeIssue(i: Issue) { !i.kind.OfHotel() }

  predicate DuplicateIssue(i: Issue) { i.kind.DuplicateNormalizedAttribute? }

  predicate HotelIssue(i: Issue) { i.kind.OfHotel() }

  predicate UnknownIssue(i: Issue) { i.kind.UnknownSentimentHotel? }

  // ----- one hotel

  /** Nothing that was seen is lost: it has a value, was never mentioned, or has its issue. */
  predicate DraftBalances(d: Draft) {
    && d.delta.attributesSeen + Count(d.issues, CategoryIssue) == |d.values| + d.delta.zeroMentions + Count(d.issues, AttributeIssue)
    && d.delta.attributesFailed + Count(d.issues, DuplicateIssue) == Count(d.issues, AttributeIssue)
    && d.delta.skipped == d.delta.zeroMentions
    && Count(d.issues, HotelIssue) == 0
    && d.delta == ZERO.(
         hotelsMatched := 1, attributesSeen := d.delta.attributesSeen, zeroMentions := d.delta.zeroMentions,
         attributesFailed := d.delta.attributesFailed, autoCreated := d.delta.autoCreated, skipped := d.delta.skipped)
  }

  lemma OneMoreIssue(issues: seq<Issue>, i: Issue, p: Issue -> bool)
    ensures Count(issues + [i], p) == Count(issues, p) + if p(i) then 1 else 0
  {
    assert (issues + [i])[..|issues|] == issues;
  }

  lemma IssueCounts(issues: seq<Issue>, i: Issue)
    requires !i.kind.OfHotel()
    ensures Count(issues + [i], CategoryIssue) == Count(issues, CategoryIssue) + if i.kind.OfCategory() then 1 else 0
    ensures Count(issues + [i], AttributeIssue) == Count(issues, AttributeIssue) + 1
    ensures Count(issues + [i], DuplicateIssue) == Count(issues, DuplicateIssue) + if i.kind.DuplicateNormalizedAttribute? then 1 else 0
    ensures Count(issues + [i], HotelIssue) == Count(issues, HotelIssue)
  {
    OneMoreIssue(issues, i, CategoryIssue);
    OneMoreIssue(issues, i, AttributeIssue);
    OneMoreIssue(issues, i, DuplicateIssue);
    OneMoreIssue(issues, i, HotelIssue);
  }

  /** An entry that is seen and refused balances. */
  lemma RejectBalances(d: Draft, line: nat, kind: IssueKind, seen: map<(string, string), string>, taxonomy: Taxonomy)
    requires DraftBalances(d)
    requires !kind.OfHotel() && !kind.OfCategory() && !kind.DuplicateNormalizedAttribute?
    ensures DraftBalances(Reject(d.(delta := d.delta.(attributesSeen := d.delta.attributesSeen + 1), seen := seen, taxonomy := taxonomy), line, kind))
  {
    hide Count;
    IssueCounts(d.issues, Issue(line, kind));
  }

  lemma EntryBalances(d: Draft, line: nat, category: string, e: Entry)
    requires DraftBalances(d)
    ensures DraftBalances(ClassifyEntry(d, line, category, e))
  {
    hide ParseCounts, Resolve, Count, Reject;
    var key := if e.InvalidEntry? || e.key.None? then "" else e.key.value;
    var raw := if e.InvalidEntry? then "" else e.rawKey;
    RejectBalances(d, line, InvalidAttributeValue, d.seen, d.taxonomy);
    RejectBalances(d, line, InvalidCounts, d.seen, d.taxonomy);
    RejectBalances(d, line, InvalidAttributeKey, d.seen, d.taxonomy);
    RejectBalances(d, line, AttributeKeyTooLong, d.seen[(category, key) := raw], d.taxonomy);
    var r := Resolve(d.taxonomy, category, key);
    RejectBalances(d, line, AmbiguousAttributeAlias, d.seen[(category, key) := raw], if r.Ambiguous? then r.taxonomy else d.taxonomy);
    IssueCounts(d.issues, Issue(line, DuplicateNormalizedAttribute));
  }

  lemma {:induction false} EntriesBalance(d: Draft, line: nat, category: string, entries: seq<Entry>)
    requires DraftBalances(d)
    ensures DraftBalances(ClassifyEntries(d, line, category, entries))
  {
    hide DraftBalances, ClassifyEntry;
    if entries != [] {
      EntriesBalance(d, line, category, entries[..|entries| - 1]);
      EntryBalances(ClassifyEntries(d, line, category, entries[..|entries| - 1]), line, category, entries[|entries| - 1]);
    }
  }

  lemma CategoryBalances(d: Draft, line: nat, c: Category)
    requires DraftBalances(d)
    ensures DraftBalances(ClassifyCategory(d, line, c))
  {
    hide Count, ClassifyEntries;
    IssueCounts(d.issues, Issue(line, InvalidAttributeCategory));
    IssueCounts(d.issues, Issue(line, InvalidCategoryKey));
    if c.Category? && c.key.Some? {
      EntriesBalance(d, line, c.key.value, c.entries);
    }
  }

  lemma {:induction false} CategoriesBalance(d: Draft, line: nat, categories: seq<Category>)
    requires DraftBalances(d)
    ensures DraftBalances(ClassifyCategories(d, line, categories))
  {
    hide DraftBalances, ClassifyCategory;
    if categories != [] {
      CategoriesBalance(d, line, categories[..|categories| - 1]);
      CategoryBalances(ClassifyCategories(d, line, categories[..|categories| - 1]), line, categories[|categories| - 1]);
    }
  }

  // ----- the job

  predicate Balanced(s: State) {
    var c := s.counters;
    && s.hotelsRead == c.hotelsMatched + c.hotelsFailed
    && c.hotelsFailed == Count(s.issues, HotelIssue)
    && c.unknownHotels == Count(s.issues, UnknownIssue)
    && c.attributesProcessed == c.attributesInserted + c.attributesUpdated
    && c.attributesProcessed == c.scoresApplied + c.scoresSkipped
    && c.attributesSeen + Count(s.issues, CategoryIssue) == c.attributesProcessed + c.zeroMentions + Count(s.issues, AttributeIssue)
    && c.attributesFailed + Count(s.issues, DuplicateIssue) == Count(s.issues, AttributeIssue)
  }

  lemma ConcatIssues(s: seq<Issue>, t: seq<Issue>)
    ensures Count(s + t, CategoryIssue) == Count(s, CategoryIssue) + Count(t, CategoryIssue)
    ensures Count(s + t, AttributeIssue) == Count(s, AttributeIssue) + Count(t, AttributeIssue)
    ensures Count(s + t, DuplicateIssue) == Count(s, DuplicateIssue) + Count(t, DuplicateIssue)
    ensures Count(s + t, HotelIssue) == Count(s, HotelIssue) + Count(t, HotelIssue)
    ensures Count(s + t, UnknownIssue) == Count(s, UnknownIssue) + Count(t, UnknownIssue)
  {
    CountConcat(s, t, UnknownIssue);
    CountConcat(s, t, CategoryIssue);
    CountConcat(s, t, AttributeIssue);
    CountConcat(s, t, DuplicateIssue);
    CountConcat(s, t, HotelIssue);
  }

  lemma {:induction false} UnknownAreHotelIssues(issues: seq<Issue>)
    ensures Count(issues, UnknownIssue) <= Count(issues, HotelIssue)
  {
    if issues != [] {
      UnknownAreHotelIssues(issues[..|issues| - 1]);
    }
  }

  lemma StoredHotelBalances(s: State, line: nat, h: Hotel)
    requires Balanced(s) && ImportHotel(s.(hotelsRead := s.hotelsRead + 1), line, h).Stored?
    ensures Balanced(ImportHotel(s.(hotelsRead := s.hotelsRead + 1), line, h).state)
  {
    hide Count, ClassifyCategories, UpsertAggregates, ScoreRows;
    var start := NewDraft(s.taxonomy);
    assert DraftBalances(start) by { NoIssues(); }
    CategoriesBalance(start, line, h.categories);
    var d := ClassifyCategories(start, line, h.categories);
    ConcatIssues(s.issues, d.issues);
    UnknownAreHotelIssues(d.issues);
  }

  lemma NoIssues()
    ensures Count([], CategoryIssue) == Count([], AttributeIssue) == Count([], DuplicateIssue) == Count([], HotelIssue) == 0
  {
  }

  lemma FailedHotelBalances(s: State, line: nat, kind: IssueKind)
    requires Balanced(s) && kind.OfHotel()
    ensures Balanced(FailHotel(s.(hotelsRead := s.hotelsRead + 1), line, kind))
  {
    hide Count;
    var i := Issue(line, kind);
    OneMoreIssue(s.issues, i, CategoryIssue);
    OneMoreIssue(s.issues, i, AttributeIssue);
    OneMoreIssue(s.issues, i, DuplicateIssue);
    OneMoreIssue(s.issues, i, HotelIssue);
    OneMoreIssue(s.issues, i, UnknownIssue);
  }

  lemma LineBalances(s: State, line: nat, r: Record)
    requires Balanced(s)
    ensures Balanced(ImportLine(s, line, r))
  {
    hide Balanced, ImportHotel, FailHotel;
    FailedHotelBalances(s, line, InvalidSentimentRecord);
    FailedHotelBalances(s, line, UnknownSentimentHotel);
    FailedHotelBalances(s, line, SentimentPersistenceError);
    if r.Readable? && ImportHotel(s.(hotelsRead := s.hotelsRead + 1), line, r.hotel).Stored? {
      StoredHotelBalances(s, line, r.hotel);
    }
  }

  lemma {:induction false} PathBalances(job: Job<State>, lines: seq<Line<Record>>, n: nat)
    requires n <= |lines| && Balanced(job.state)
    ensures Balanced(Working(job, lines, ImportLine, n).state)
  {
    hide Balanced, ImportLine;
    if n > job.checkpoint {
      PathBalances(job, lines, n - 1);
      var w := Working(job, lines, ImportLine, n - 1);
      if lines[n - 1].Record? {
        LineBalances(w.state, n, lines[n - 1].record);
      }
    }
  }

  /** Whatever is stored after any crashes balances, and the pass that ends the job stores what one pass would. */
  lemma EveryCommitBalances(s: State, lines: seq<Line<Record>>, batch: nat, stops: seq<nat>)
    requires batch > 0 && Balanced(s)
    requires forall i :: 0 <= i < |stops| ==> stops[i] <= |lines|
    ensures var stored := AfterCrashes(Job(s, 0), lines, ImportLine, batch, stops);
      && Balanced(stored.state)
      && Working(stored, lines, ImportLine, |lines|) == Working(Job(s, 0), lines, ImportLine, |lines|)
  {
    hide Balanced, ImportLine;
    StoredIsOnThePath(Job(s, 0), lines, ImportLine, batch, stops);
    CrashesAreInvisible(Job(s, 0), lines, ImportLine, batch, stops);
    PathBalances(Job(s, 0), lines, AfterCrashes(Job(s, 0), lines, ImportLine, batch, stops).checkpoint);
  }

  // ----- what a line leaves alone

  lemma LineSparesReviews(s: State, line: nat, r: Record)
    ensures forall key :: key in s.scores && s.scores[key].source == S.ReviewBased ==>
              key in ImportLine(s, line, r).scores && ImportLine(s, line, r).scores[key] == s.scores[key]
    ensures ImportLine(s, line, r).hotels == s.hotels
  {
    hide ClassifyCategories, UpsertAggregates, ScoreRows, S.Propagate, InsertedCount;
    if r.Readable? && r.hotel.hotelId in s.hotels {
      var start := NewDraft(s.taxonomy);
      ValuesAreMentioned(start, line, r.hotel.categories);
      var d := ClassifyCategories(start, line, r.hotel.categories);
      if DistinctAttributes(d.values) {
        S.PropagateSparesReviews(s.scores, ScoreRows(s.hotels[r.hotel.hotelId], d.values));
      }
    }
  }

  /** No import, however long, touches a score that was computed from reviews. */
  lemma {:induction false} ImportSparesReviews(job: Job<State>, lines: seq<Line<Record>>, n: nat)
    requires n <= |lines|
    ensures forall key :: key in job.state.scores && job.state.scores[key].source == S.ReviewBased ==>
              key in Working(job, lines, ImportLine, n).state.scores &&
              Working(job, lines, ImportLine, n).state.scores[key] == job.state.scores[key]
  {
    hide ImportLine;
    if n > job.checkpoint {
      ImportSparesReviews(job, lines, n - 1);
      if lines[n - 1].Record? {
        LineSparesReviews(Working(job, lines, ImportLine, n - 1).state, n, lines[n - 1].record);
      }
    }
  }

  // ----- when a hotel cannot be stored

  type Pair = (string, string)

  /** Attributes are named by one normalized pair each, and identifiers are below the next one. */
  ghost predicate Sound(t: Taxonomy) {
    && (forall p :: p in t.attributes ==> t.attributes[p] < t.nextId)
    && (forall p, q :: p in t.attributes && q in t.attributes && t.attributes[p] == t.attributes[q] ==> p == q)
    && (forall p, i :: p in t.aliases && 0 <= i < |t.aliases[p]| ==> t.aliases[p][i] < t.nextId)
  }

  /** The attribute a pair already means: its own, else the only one it is an alias of. */
  function Target(t: Taxonomy, p: Pair): Option<nat> {
    if p in t.attributes then Some(t.attributes[p])
    else if p in t.aliases && |t.aliases[p]| == 1 then Some(t.aliases[p][0])
    else None
  }

  /** Pairs that are never resolved: too long, or aliases of several attributes. */
  predicate Refused(t: Taxonomy, p: Pair) {
    || |p.0| > KEY_LIMIT || |p.1| > KEY_LIMIT
    || (p !in t.attributes && p in t.aliases && |t.aliases[p]| > 1)
  }

  /** The entry names an attribute that was mentioned. */
  predicate Names(e: Entry) {
    e.Entry? && e.key.Some? && ParseCounts(e.payload).Some? && ParseCounts(e.payload).value.total > 0
  }

  /** The first entry that names a pair, which is the one that is stored. */
  datatype Naming = Naming(pair: Pair, rawKey: string, counts: Counts)

  predicate Knows(named: seq<Naming>, p: Pair) {
    exists i :: 0 <= i < |named| && named[i].pair == p
  }

  function NamedBy(named: seq<Naming>, category: string, e: Entry): seq<Naming> {
    if Names(e) && !Knows(named, (category, e.key.value))
    then named + [Naming((category, e.key.value), e.rawKey, ParseCounts(e.payload).value)]
    else named
  }

  function NamedEntries(named: seq<Naming>, category: string, entries: seq<Entry>): seq<Naming> {
    if entries == [] then named
    else NamedBy(NamedEntries(named, category, entries[..|entries| - 1]), category, entries[|entries| - 1])
  }

  /** The normalized pairs a hotel names, in the order of their first entries. */
  function NamedPairs(categories: seq<Category>): seq<Naming> {
    if categories == [] then []
    else
      var front := NamedPairs(categories[..|categories| - 1]);
      var c := categories[|categories| - 1];
      if c.Category? && c.key.Some? then NamedEntries(front, c.key.value, c.entries) else front
  }

  /** Two different pairs the hotel names, neither refused, mean one attribute of the taxonomy. */
  ghost predicate Collide(t: Taxonomy, named: seq<Naming>) {
    exists i, j :: 0 <= i < |named| && 0 <= j < |named| && Clash(t, named[i].pair, named[j].pair)
  }

  predicate Clash(t: Taxonomy, p: Pair, q: Pair) {
    p != q && !Refused(t, p) && !Refused(t, q) && Target(t, p).Some? && Target(t, p) == Target(t, q)
  }

  /** The names taken after a pair was resolved, if its category and its attribute can be inserted where they are new. */
  function Placed(t: Taxonomy, r: Register, p: Pair): Option<Register> {
    if |p.0| > KEY_LIMIT || |p.1| > KEY_LIMIT then Some(r)
    else
      match WithCategory(r, t.rules, p.0)
      case None => None
      case Some(known) => if Refused(t, p) || Target(t, p).Some? then Some(known) else WithSlug(known, t.rules, p.0, p.1)
  }

  /** The same for all pairs in their order. */
  function Registered(t: Taxonomy, named: seq<Naming>): Option<Register> {
    if named == [] then Some(t.register)
    else
      match Registered(t, named[..|named| - 1])
      case None => None
      case Some(r) => Placed(t, r, named[|named| - 1].pair)
  }

  /** The rows of the pairs that are not refused fit their columns. */
  predicate RowsFit(t: Taxonomy, h: Hotel, named: seq<Naming>) {
    forall i :: 0 <= i < |named| && !Refused(t, named[i].pair) ==> RowFits(h, named[i].rawKey, named[i].counts)
  }

  /** The taxonomy has grown by new attributes for pairs that meant nothing before. */
  ghost predicate Grown(t: Taxonomy, now: Taxonomy) {
    && Sound(now) && now.aliases == t.aliases && now.rules == t.rules && t.nextId <= now.nextId
    && (forall p :: p in t.attributes ==> p in now.attributes && now.attributes[p] == t.attributes[p])
    && (forall p :: p in now.attributes && p !in t.attributes ==> Target(t, p) == None && !Refused(t, p) && now.attributes[p] >= t.nextId)
  }

  function PairOf(v: Value): Pair {
    (v.category, v.key)
  }

  predicate Stores(v: Value, n: Naming) {
    PairOf(v) == n.pair && v.rawKey == n.rawKey && v.counts == n.counts
  }

  /** What a value's attribute is: the target of its pair, or the new attribute of a pair without one. */
  predicate IsMeant(t: Taxonomy, now: Taxonomy, v: Value) {
    var p := PairOf(v);
    if Target(t, p).Some? then v.attribute == Target(t, p).value
    else p in now.attributes && v.attribute == now.attributes[p]
  }

  predicate HasValue(values: seq<Value>, n: Naming) {
    exists i :: 0 <= i < |values| && Stores(values[i], n)
  }

  predicate HasNaming(named: seq<Naming>, v: Value) {
    exists i :: 0 <= i < |named| && Stores(v, named[i])
  }

  /** The values are those of the namings so far that are not refused, one for a pair. */
  ghost predicate ValuesMatch(t: Taxonomy, now: Taxonomy, values: seq<Value>, named: seq<Naming>) {
    && (forall i :: 0 <= i < |values| ==> IsMeant(t, now, values[i]) && !Refused(t, PairOf(values[i])) && HasNaming(named, values[i]))
    && (forall i, j :: 0 <= i < j < |values| ==> PairOf(values[i]) != PairOf(values[j]))
    && (forall i :: 0 <= i < |named| && !Refused(t, named[i].pair) ==> HasValue(values, named[i]))
  }

  /** The namings that are not refused, in order. */
  function Accepted(t: Taxonomy, named: seq<Naming>): seq<Naming> {
    if named == [] then []
    else
      var last := named[|named| - 1];
      Accepted(t, named[..|named| - 1]) + if Refused(t, last.pair) then [] else [last]
  }

  /** Each of them has its value, in that order. */
  predicate Listed(t: Taxonomy, values: seq<Value>, named: seq<Naming>) {
    && |values| == |Accepted(t, named)|
    && forall i :: 0 <= i < |values| ==> Stores(values[i], Accepted(t, named)[i])
  }

  ghost predicate SeenAre(seen: map<Pair, string>, named: seq<Naming>) {
    forall p :: p in seen <==> Knows(named, p)
  }

  /** Attributes have been added for named pairs only. */
  ghost predicate NewAreKnown(t: Taxonomy, now: Taxonomy, named: seq<Naming>) {
    forall p :: p in now.attributes && p !in t.attributes ==> Knows(named, p)
  }

  predicate ExcessiveEntry(e: Entry) {
    e.Entry? && Excessive(e.payload)
  }

  /** The hotel has counts that do not add up under a category that is read. */
  predicate HasExcess(categories: seq<Category>) {
    exists i, j :: 0 <= i < |categories| && categories[i].Category? && categories[i].key.Some? &&
      0 <= j < |categories[i].entries| && ExcessiveEntry(categories[i].entries[j])
  }

  predicate ExcessIn(entries: seq<Entry>) {
    exists j :: 0 <= j < |entries| && ExcessiveEntry(entries[j])
  }

  lemma ExcessSnoc(entries: seq<Entry>)
    requires entries != []
    ensures ExcessIn(entries) <==> ExcessIn(entries[..|entries| - 1]) || ExcessiveEntry(entries[|entries| - 1])
  {
    hide ExcessiveEntry;
    var front := entries[..|entries| - 1];
    if ExcessIn(front) {
      var j :| 0 <= j < |front| && ExcessiveEntry(front[j]);
      assert entries[j] == front[j];
    }
    if ExcessIn(entries) {
      var j :| 0 <= j < |entries| && ExcessiveEntry(entries[j]);
      assert j < |front| ==> front[j] == entries[j];
    }
  }

  predicate ReadsExcess(c: Category) {
    c.Category? && c.key.Some? && ExcessIn(c.entries)
  }

  lemma HasExcessSnoc(categories: seq<Category>)
    requires categories != []
    ensures HasExcess(categories) <==> HasExcess(categories[..|categories| - 1]) || ReadsExcess(categories[|categories| - 1])
  {
    hide ExcessiveEntry;
    var front := categories[..|categories| - 1];
    assert HasExcess(front) ==> exists i :: 0 <= i < |front| && ReadsExcess(front[i]);
    assert HasExcess(categories) <==> exists i :: 0 <= i < |categories| && ReadsExcess(categories[i]);
    hide ReadsExcess, ExcessIn;
    if HasExcess(categories) {
      var i :| 0 <= i < |categories| && ReadsExcess(categories[i]);
      assert i < |front| ==> ReadsExcess(front[i]);
    }
  }

  /** The draft is broken as soon as a row cannot be inserted, and up to date otherwise. */
  ghost predicate Classified(t: Taxonomy, d: Draft, named: seq<Naming>, excess: bool) {
    if d.broken then excess || Registered(t, named).None?
    else
      && !excess
      && Registered(t, named) == Some(d.taxonomy.register)
      && Grown(t, d.taxonomy) && NewAreKnown(t, d.taxonomy, named)
      && SeenAre(d.seen, named) && ValuesMatch(t, d.taxonomy, d.values, named) && Listed(t, d.values, named)
  }

  lemma NewAttributeGrows(t: Taxonomy, now: Taxonomy, p: Pair, r: Register)
    requires Grown(t, now) && p !in now.attributes && Target(t, p) == None && !Refused(t, p)
    ensures Grown(t, now.(attributes := now.attributes[p := now.nextId], nextId := now.nextId + 1, register := r))
  {
    hide Refused, Target;
  }

  /** A pair means now what it meant before the line, unless it has become an attribute since. */
  lemma TargetNow(t: Taxonomy, now: Taxonomy, p: Pair)
    requires Grown(t, now)
    ensures Refused(now, p) == Refused(t, p)
    ensures Target(t, p).Some? ==> Target(now, p) == Target(t, p)
    ensures Target(t, p).None? && p !in now.attributes ==> Target(now, p).None?
  {
  }

  /** What resolving a pair comes to, which has not been resolved on this line before. */
  ghost predicate Follows(t: Taxonomy, now: Taxonomy, p: Pair, r: Resolution) {
    match r
    case TooLong => Refused(t, p) && Placed(t, now.register, p) == Some(now.register)
    case Unstorable => Placed(t, now.register, p) == None
    case Ambiguous(grown) => Refused(t, p) && Placed(t, now.register, p) == Some(grown.register) && Grows(t, now, grown, p)
    case Resolved(attribute, _, grown) =>
      && !Refused(t, p) && Placed(t, now.register, p) == Some(grown.register) && Grows(t, now, grown, p)
      && if Target(t, p).Some? then attribute == Target(t, p).value else p in grown.attributes && attribute == grown.attributes[p]
  }

  ghost predicate Grows(t: Taxonomy, now: Taxonomy, grown: Taxonomy, p: Pair) {
    && Grown(t, grown) && (forall q :: q in grown.attributes ==> q in now.attributes || q == p)
    && forall q :: q in now.attributes ==> q in grown.attributes && grown.attributes[q] == now.attributes[q]
  }

  /** Resolving follows the taxonomy before the line, and grows it only for pairs without a target. */
  lemma ResolveFollows(t: Taxonomy, now: Taxonomy, p: Pair)
    requires Grown(t, now) && (Target(t, p).None? ==> p !in now.attributes)
    ensures Follows(t, now, p, Resolve(now, p.0, p.1))
  {
    hide Grown, Resolve, Refused, Target, Placed;
    TargetNow(t, now, p);
    ResolveIs(now, p);
    PlacedNow(t, now, p);
    var placed := Placed(now, now.register, p);
    if placed.Some? {
      RegisterGrows(t, now, placed.value);
      if !Refused(now, p) && Target(now, p).None? {
        NewAttributeGrows(t, now, p, placed.value);
      }
    }
  }

  lemma RegisterGrows(t: Taxonomy, now: Taxonomy, r: Register)
    requires Grown(t, now)
    ensures Grown(t, now.(register := r))
  {
    hide Refused, Target;
  }

  /** Where a pair is placed depends on the register alone. */
  lemma PlacedNow(t: Taxonomy, now: Taxonomy, p: Pair)
    requires Grown(t, now) && (Target(t, p).None? ==> p !in now.attributes)
    ensures Placed(now, now.register, p) == Placed(t, now.register, p)
  {
    TargetNow(t, now, p);
    assert now.rules == t.rules;
    hide Grown, Refused, Target, WithCategory, WithSlug;
  }

  lemma ResolveIs(t: Taxonomy, p: Pair)
    ensures Target(t, p).None? ==> p !in t.attributes
    ensures var placed := Placed(t, t.register, p);
      match Resolve(t, p.0, p.1)
      case TooLong => Refused(t, p) && placed == Some(t.register)
      case Unstorable => placed == None
      case Ambiguous(grown) => Refused(t, p) && placed.Some? && grown == t.(register := placed.value)
      case Resolved(attribute, _, grown) =>
        && !Refused(t, p) && placed.Some?
        && if Target(t, p).Some? then attribute == Target(t, p).value && grown == t.(register := placed.value)
           else attribute == t.nextId &&
                grown == t.(attributes := t.attributes[p := t.nextId], nextId := t.nextId + 1, register := placed.value)
  {
    hide WithCategory, WithSlug;
    assert p == (p.0, p.1);
  }

  lemma MeaningStays(t: Taxonomy, now: Taxonomy, grown: Taxonomy, v: Value)
    requires IsMeant(t, now, v)
    requires forall q :: q in now.attributes ==> q in grown.attributes && grown.attributes[q] == now.attributes[q]
    ensures IsMeant(t, grown, v)
  {
  }

  // ----- what classifying does to the draft

  lemma KnowsMore(named: seq<Naming>, n: Naming, p: Pair)
    ensures Knows(named + [n], p) <==> Knows(named, p) || n.pair == p
  {
    var all := named + [n];
    if Knows(named, p) {
      var i :| 0 <= i < |named| && named[i].pair == p;
      assert all[i] == named[i];
    }
    assert all[|named|] == n;
  }

  lemma HasMore(values: seq<Value>, v: Value, named: seq<Naming>, n: Naming)
    ensures forall m :: HasValue(values, m) ==> HasValue(values + [v], m)
    ensures forall w :: HasNaming(named, w) ==> HasNaming(named + [n], w)
    ensures Stores(v, n) ==> HasValue(values + [v], n) && HasNaming(named + [n], v)
  {
    hide Stores;
    var all := values + [v];
    var every := named + [n];
    forall m | HasValue(values, m) ensures HasValue(all, m) {
      var i :| 0 <= i < |values| && Stores(values[i], m);
      assert all[i] == values[i];
    }
    forall w | HasNaming(named, w) ensures HasNaming(every, w) {
      var i :| 0 <= i < |named| && Stores(w, named[i]);
      assert every[i] == named[i];
    }
    assert all[|values|] == v && every[|named|] == n;
  }

  /** A new pair that is resolved adds its value. */
  lemma ValueMatches(t: Taxonomy, now: Taxonomy, grown: Taxonomy, values: seq<Value>, named: seq<Naming>, v: Value, n: Naming)
    requires ValuesMatch(t, now, values, named) && !Knows(named, n.pair) && !Refused(t, n.pair) && Stores(v, n)
    requires Grows(t, now, grown, n.pair) && IsMeant(t, grown, v)
    ensures ValuesMatch(t, grown, values + [v], named + [n])
  {
    hide Grown, Refused, Target, IsMeant;
    HasMore(values, v, named, n);
    var all := values + [v];
    forall i | 0 <= i < |values| ensures IsMeant(t, grown, values[i]) && PairOf(values[i]) != PairOf(v) {
      MeaningStays(t, now, grown, values[i]);
      assert HasNaming(named, values[i]);
    }
    hide HasValue, HasNaming, Stores, Knows;
    forall i | 0 <= i < |all|
      ensures IsMeant(t, grown, all[i]) && !Refused(t, PairOf(all[i])) && HasNaming(named + [n], all[i])
    {
      assert PairOf(v) == n.pair by { StoresPair(v, n); }
    }
    forall i | 0 <= i < |named + [n]| && !Refused(t, (named + [n])[i].pair) ensures HasValue(all, (named + [n])[i]) {
      if i < |named| {
        assert HasValue(values, named[i]);
      }
    }
  }

  lemma StoresPair(v: Value, n: Naming)
    requires Stores(v, n)
    ensures PairOf(v) == n.pair
  {
  }

  /** A new pair that is refused is only noted. */
  lemma RefusalMatches(t: Taxonomy, now: Taxonomy, grown: Taxonomy, values: seq<Value>, named: seq<Naming>, n: Naming)
    requires ValuesMatch(t, now, values, named) && Refused(t, n.pair) && Grows(t, now, grown, n.pair)
    ensures ValuesMatch(t, grown, values, named + [n])
  {
    hide Grown, Refused, Target, IsMeant, Stores;
    forall i | 0 <= i < |values| ensures IsMeant(t, grown, values[i]) && HasNaming(named + [n], values[i]) {
      MeaningStays(t, now, grown, values[i]);
      HasMore(values, values[i], named, n);
    }
    hide HasValue, HasNaming;
    forall i | 0 <= i < |named + [n]| && !Refused(t, (named + [n])[i].pair) ensures HasValue(values, (named + [n])[i]) {
      assert i < |named|;
    }
  }

  lemma AcceptedMore(t: Taxonomy, named: seq<Naming>, n: Naming)
    ensures Accepted(t, named + [n]) == Accepted(t, named) + if Refused(t, n.pair) then [] else [n]
  {
    assert (named + [n])[..|named|] == named;
  }

  lemma ListedRefusal(t: Taxonomy, values: seq<Value>, named: seq<Naming>, n: Naming)
    requires Listed(t, values, named) && Refused(t, n.pair)
    ensures Listed(t, values, named + [n])
  {
    AcceptedMore(t, named, n);
    hide Accepted, Refused, Stores;
  }

  lemma ListedValue(t: Taxonomy, values: seq<Value>, named: seq<Naming>, v: Value, n: Naming)
    requires Listed(t, values, named) && !Refused(t, n.pair) && Stores(v, n)
    ensures Listed(t, values + [v], named + [n])
  {
    AcceptedMore(t, named, n);
    hide Accepted, Refused, Stores;
  }

  lemma RegisteredMore(t: Taxonomy, named: seq<Naming>, n: Naming)
    ensures Registered(t, named + [n]) ==
      if Registered(t, named).None? then None else Placed(t, Registered(t, named).value, n.pair)
  {
    hide Placed;
    assert (named + [n])[..|named|] == named;
  }

  lemma SeenMore(seen: map<Pair, string>, named: seq<Naming>, n: Naming, raw: string)
    requires SeenAre(seen, named)
    ensures SeenAre(seen[n.pair := raw], named + [n])
  {
    hide Knows;
    forall p ensures p in seen[n.pair := raw] <==> Knows(named + [n], p) {
      KnowsMore(named, n, p);
    }
  }

  lemma NewAreKnownStill(t: Taxonomy, now: Taxonomy, grown: Taxonomy, named: seq<Naming>, n: Naming)
    requires NewAreKnown(t, now, named) && Grows(t, now, grown, n.pair)
    ensures NewAreKnown(t, grown, named + [n])
  {
    hide Knows, Grown;
    forall p | p in grown.attributes && p !in t.attributes ensures Knows(named + [n], p) {
      KnowsMore(named, n, p);
    }
  }

  lemma EntryClassifies(t: Taxonomy, d: Draft, named: seq<Naming>, excess: bool, line: nat, category: string, e: Entry)
    requires Classified(t, d, named, excess)
    ensures Classified(t, ClassifyEntry(d, line, category, e), NamedBy(named, category, e), excess || ExcessiveEntry(e))
  {
    if Names(e) && !Knows(named, (category, e.key.value)) {
      var n := Naming((category, e.key.value), e.rawKey, ParseCounts(e.payload).value);
      if d.broken {
        RegisteredMore(t, named, n);
      } else {
        NewPairClassifies(t, d, named, line, category, e, n);
      }
    } else {
      hide ParseCounts, Registered, Grown, ValuesMatch, Listed, NewAreKnown, Knows, Resolve;
      assert !d.broken && Names(e) ==> (category, e.key.value) in d.seen;
    }
  }

  /** A pair that is not known yet has not been seen, and has no attribute that it does not mean already. */
  lemma UnknownIsNew(t: Taxonomy, d: Draft, named: seq<Naming>, p: Pair)
    requires Classified(t, d, named, false) && !d.broken && !Knows(named, p)
    ensures p !in d.seen && (Target(t, p).None? ==> p !in d.taxonomy.attributes) && Grown(t, d.taxonomy)
  {
    hide Grown, Registered, ValuesMatch, Listed, Knows;
  }

  lemma RefusedPairClassifies(t: Taxonomy, d: Draft, after: Draft, named: seq<Naming>, n: Naming)
    requires Classified(t, d, named, false) && !d.broken && !after.broken && Refused(t, n.pair)
    requires Registered(t, named + [n]) == Some(after.taxonomy.register) && Grows(t, d.taxonomy, after.taxonomy, n.pair)
    requires after.values == d.values && SeenAre(after.seen, named + [n])
    ensures Classified(t, after, named + [n], false)
  {
    hide Grown, Refused, ValuesMatch, Listed, Registered, SeenAre, NewAreKnown;
    RefusalMatches(t, d.taxonomy, after.taxonomy, d.values, named, n);
    ListedRefusal(t, d.values, named, n);
    NewAreKnownStill(t, d.taxonomy, after.taxonomy, named, n);
  }

  lemma ValuePairClassifies(t: Taxonomy, d: Draft, after: Draft, named: seq<Naming>, n: Naming, v: Value)
    requires Classified(t, d, named, false) && !d.broken && !after.broken && !Refused(t, n.pair) && !Knows(named, n.pair)
    requires Registered(t, named + [n]) == Some(after.taxonomy.register) && Grows(t, d.taxonomy, after.taxonomy, n.pair)
    requires after.values == d.values + [v] && SeenAre(after.seen, named + [n])
    requires Stores(v, n) && IsMeant(t, after.taxonomy, v)
    ensures Classified(t, after, named + [n], false)
  {
    hide Grown, Refused, ValuesMatch, Listed, Registered, SeenAre, NewAreKnown, Knows, Stores, IsMeant;
    ValueMatches(t, d.taxonomy, after.taxonomy, d.values, named, v, n);
    ListedValue(t, d.values, named, v, n);
    NewAreKnownStill(t, d.taxonomy, after.taxonomy, named, n);
  }

  lemma GrowsByNothing(t: Taxonomy, now: Taxonomy, p: Pair)
    requires Grown(t, now)
    ensures Grows(t, now, now, p)
  {
    hide Grown;
  }

  /** What becomes of the draft when a pair is resolved. */
  ghost predicate Resolves(d: Draft, after: Draft, n: Naming, r: Resolution) {
    match r
    case TooLong => !after.broken && after.taxonomy == d.taxonomy && after.values == d.values && after.seen == d.seen[n.pair := n.rawKey]
    case Unstorable => after.broken
    case Ambiguous(grown) => !after.broken && after.taxonomy == grown && after.values == d.values && after.seen == d.seen[n.pair := n.rawKey]
    case Resolved(attribute, _, grown) =>
      && !after.broken && after.taxonomy == grown && after.seen == d.seen[n.pair := n.rawKey]
      && after.values == d.values + [Value(n.pair.0, n.pair.1, n.rawKey, attribute, n.counts)]
  }

  lemma EntryResolves(d: Draft, line: nat, category: string, e: Entry, n: Naming)
    requires !d.broken && Names(e) && n == Naming((category, e.key.value), e.rawKey, ParseCounts(e.payload).value) && n.pair !in d.seen
    ensures Resolves(d, ClassifyEntry(d, line, category, e), n, Resolve(d.taxonomy, category, e.key.value))
  {
    hide Resolve;
  }

  lemma NewPairClassifies(t: Taxonomy, d: Draft, named: seq<Naming>, line: nat, category: string, e: Entry, n: Naming)
    requires Classified(t, d, named, false) && !d.broken && Names(e) && !Knows(named, n.pair)
    requires n == Naming((category, e.key.value), e.rawKey, ParseCounts(e.payload).value)
    ensures Classified(t, ClassifyEntry(d, line, category, e), named + [n], false)
  {
    hide ParseCounts, Resolve, ClassifyEntry, Resolves, Registered, Placed, Knows;
    UnknownIsNew(t, d, named, n.pair);
    EntryResolves(d, line, category, e, n);
    ResolveFollows(t, d.taxonomy, n.pair);
    ResolvedClassifies(t, d, ClassifyEntry(d, line, category, e), named, n, Resolve(d.taxonomy, category, e.key.value));
  }

  lemma ResolvedClassifies(t: Taxonomy, d: Draft, after: Draft, named: seq<Naming>, n: Naming, r: Resolution)
    requires Classified(t, d, named, false) && !d.broken && !Knows(named, n.pair)
    requires Resolves(d, after, n, r) && Follows(t, d.taxonomy, n.pair, r)
    ensures Classified(t, after, named + [n], false)
  {
    assert SeenAre(d.seen, named) && Registered(t, named) == Some(d.taxonomy.register) && Grown(t, d.taxonomy);
    hide Grown, Refused, Target, ValuesMatch, Listed, Registered, Placed, SeenAre, Knows, NewAreKnown, IsMeant, Grows, Classified;
    RegisteredMore(t, named, n);
    SeenMore(d.seen, named, n, n.rawKey);
    match r
    case TooLong =>
      GrowsByNothing(t, d.taxonomy, n.pair);
      RefusedPairClassifies(t, d, after, named, n);
    case Unstorable =>
      BrokenClassifies(t, after, named + [n]);
    case Ambiguous(grown) =>
      RefusedPairClassifies(t, d, after, named, n);
    case Resolved(attribute, _, grown) =>
      var v := Value(n.pair.0, n.pair.1, n.rawKey, attribute, n.counts);
      MeansWhatItFollows(t, grown, v);
      ValuePairClassifies(t, d, after, named, n, v);
  }

  lemma BrokenClassifies(t: Taxonomy, d: Draft, named: seq<Naming>)
    requires d.broken && Registered(t, named).None?
    ensures Classified(t, d, named, false)
  {
  }

  lemma MeansWhatItFollows(t: Taxonomy, grown: Taxonomy, v: Value)
    requires var p := PairOf(v);
      if Target(t, p).Some? then v.attribute == Target(t, p).value else p in grown.attributes && v.attribute == grown.attributes[p]
    ensures IsMeant(t, grown, v)
  {
  }

  lemma {:induction false} EntriesClassify(
    t: Taxonomy, d: Draft, named: seq<Naming>, excess: bool, line: nat, category: string, entries: seq<Entry>)
    requires Classified(t, d, named, excess)
    ensures Classified(
      t, ClassifyEntries(d, line, category, entries), NamedEntries(named, category, entries), excess || ExcessIn(entries))
  {
    hide Classified, ClassifyEntry, NamedBy, ExcessiveEntry;
    if entries != [] {
      var front := entries[..|entries| - 1];
      ExcessSnoc(entries);
      EntriesClassify(t, d, named, excess, line, category, front);
      EntryClassifies(
        t, ClassifyEntries(d, line, category, front), NamedEntries(named, category, front), excess || ExcessIn(front),
        line, category, entries[|entries| - 1]);
    }
  }

  lemma {:induction false} BrokenEntries(d: Draft, line: nat, category: string, entries: seq<Entry>)
    requires d.broken
    ensures ClassifyEntries(d, line, category, entries) == d
  {
    hide Resolve;
    if entries != [] {
      BrokenEntries(d, line, category, entries[..|entries| - 1]);
    }
  }

  lemma {:induction false} CategoriesClassify(t: Taxonomy, d: Draft, line: nat, categories: seq<Category>)
    requires Classified(t, d, [], false)
    ensures Classified(t, ClassifyCategories(d, line, categories), NamedPairs(categories), HasExcess(categories))
  {
    hide ClassifyEntries, NamedEntries, Grown, Registered, NewAreKnown, SeenAre, ValuesMatch, Listed, HasExcess, ExcessIn;
    assert !HasExcess([]) by { NoExcess(); }
    if categories != [] {
      HasExcessSnoc(categories);
      var front := categories[..|categories| - 1];
      var c := categories[|categories| - 1];
      CategoriesClassify(t, d, line, front);
      var before := ClassifyCategories(d, line, front);
      if c.Category? && c.key.Some? {
        EntriesClassify(t, before, NamedPairs(front), HasExcess(front), line, c.key.value, c.entries);
        if before.broken {
          BrokenEntries(before, line, c.key.value, c.entries);
        }
      }
    }
  }

  lemma NoExcess()
    ensures !HasExcess([])
  {
  }

  // ----- when the upsert fails

  /** The values of a classified hotel have different attributes exactly when no two of its pairs collide. */
  lemma DistinctIffNoneCollide(t: Taxonomy, d: Draft, named: seq<Naming>)
    requires Sound(t) && Classified(t, d, named, false) && !d.broken
    ensures DistinctAttributes(d.values) <==> !Collide(t, named)
  {
    hide Refused, Target, Grown, Registered, NewAreKnown, SeenAre, Listed, Clash, IsMeant, Stores, Sound;
    if Collide(t, named) {
      var k, l :| 0 <= k < |named| && 0 <= l < |named| && Clash(t, named[k].pair, named[l].pair);
      ClashingValues(t, d.taxonomy, d.values, named, named[k], named[l]);
    } else {
      forall i, j | 0 <= i < j < |d.values| ensures d.values[i].attribute != d.values[j].attribute {
        NoClash(t, d.values[i], d.values[j], named);
        DifferentMeanings(t, d.taxonomy, d.values[i], d.values[j]);
      }
    }
  }

  lemma ClashingValues(t: Taxonomy, now: Taxonomy, values: seq<Value>, named: seq<Naming>, n: Naming, m: Naming)
    requires ValuesMatch(t, now, values, named) && n in named && m in named && Clash(t, n.pair, m.pair)
    ensures !DistinctAttributes(values)
  {
    hide Refused, Target, HasNaming;
    assert HasValue(values, n) && HasValue(values, m);
    var i :| 0 <= i < |values| && Stores(values[i], n);
    var j :| 0 <= j < |values| && Stores(values[j], m);
    assert IsMeant(t, now, values[i]) && IsMeant(t, now, values[j]);
  }

  lemma NoClash(t: Taxonomy, v: Value, w: Value, named: seq<Naming>)
    requires HasNaming(named, v) && HasNaming(named, w) && !Collide(t, named)
    ensures !Clash(t, PairOf(v), PairOf(w))
  {
    hide Clash;
  }

  lemma DifferentMeanings(t: Taxonomy, now: Taxonomy, v: Value, w: Value)
    requires Sound(t) && Grown(t, now) && IsMeant(t, now, v) && IsMeant(t, now, w)
    requires PairOf(v) != PairOf(w) && !Refused(t, PairOf(v)) && !Refused(t, PairOf(w)) && !Clash(t, PairOf(v), PairOf(w))
    ensures v.attribute != w.attribute
  {
    hide Target, Refused;
    TargetIsKnown(t, PairOf(v));
    TargetIsKnown(t, PairOf(w));
  }

  lemma TargetIsKnown(t: Taxonomy, p: Pair)
    requires Sound(t)
    ensures Target(t, p).Some? ==> Target(t, p).value < t.nextId
    ensures Target(t, p).None? ==> p !in t.attributes
  {
  }

  /** The rows fit exactly when the first entries of the pairs that are not refused do. */
  lemma AllFitIff(t: Taxonomy, d: Draft, h: Hotel, named: seq<Naming>)
    requires Classified(t, d, named, false) && !d.broken
    ensures AllFit(h, d.values) <==> RowsFit(t, h, named)
  {
    hide Grown, Registered, NewAreKnown, SeenAre, Listed, RowFits, Refused, IsMeant;
    if AllFit(h, d.values) {
      forall i | 0 <= i < |named| && !Refused(t, named[i].pair) ensures RowFits(h, named[i].rawKey, named[i].counts) {
        assert HasValue(d.values, named[i]);
      }
    }
    if RowsFit(t, h, named) {
      forall i | 0 <= i < |d.values| ensures RowFits(h, d.values[i].rawKey, d.values[i].counts) {
        assert HasNaming(named, d.values[i]);
      }
    }
  }

  /** What a hotel needs besides being known: counts that add up, names that can be registered, rows that fit, and no collision. */
  ghost predicate Acceptable(t: Taxonomy, h: Hotel) {
    var named := NamedPairs(h.categories);
    && !HasExcess(h.categories)
    && Registered(t, named).Some? && RowsFit(t, h, named) && !Collide(t, named)
  }

  /**
   A hotel is stored exactly when it is known, an algorithm is active, its counts
   add up, the new categories and attributes it names can be inserted, its rows
   fit, and no two different pairs it names mean one attribute of the taxonomy
   before its line.
   */
  lemma StoredIff(s: State, line: nat, h: Hotel)
    requires Sound(s.taxonomy)
    ensures ImportHotel(s, line, h).Stored? <==>
      h.hotelId in s.hotels && s.algorithmActive && Acceptable(s.taxonomy, h)
    ensures ImportHotel(s, line, h).Stored? ==> Grown(s.taxonomy, ImportHotel(s, line, h).state.taxonomy)
  {
    var start, named := NewDraft(s.taxonomy), NamedPairs(h.categories);
    var d := ClassifyCategories(start, line, h.categories);
    assert Classified(s.taxonomy, start, [], false);
    CategoriesClassify(s.taxonomy, start, line, h.categories);
    if !d.broken {
      DistinctIffNoneCollide(s.taxonomy, d, named);
      AllFitIff(s.taxonomy, d, h, named);
    }
    hide ClassifyCategories, UpsertAggregates, ScoreRows, S.Propagate, InsertedCount, Collide, NamedPairs, Sound;
    hide Grown, DistinctAttributes, AllFit, RowsFit, Registered, ValuesMatch, Listed, NewAreKnown, SeenAre, HasExcess;
  }

  /** Without aliases no two pairs collide, so a known hotel is stored exactly when its counts add up, its new names can be inserted and its rows fit. */
  lemma WithoutAliasesKnownHotelsAreStored(s: State, line: nat, h: Hotel)
    requires Sound(s.taxonomy) && s.taxonomy.aliases == map[] && s.algorithmActive && h.hotelId in s.hotels
    ensures var named := NamedPairs(h.categories);
      ImportHotel(s, line, h).Stored? <==>
        !HasExcess(h.categories) && Registered(s.taxonomy, named).Some? && RowsFit(s.taxonomy, h, named)
    ensures ImportHotel(s, line, h).Stored? ==>
      ImportHotel(s, line, h).state.taxonomy.aliases == map[] && Sound(ImportHotel(s, line, h).state.taxonomy)
  {
    hide ImportHotel, NamedPairs, Registered, RowsFit, HasExcess;
    assert !Collide(s.taxonomy, NamedPairs(h.categories));
    StoredIff(s, line, h);
  }

  // ----- when a new name can be inserted

  lemma {:induction false} WithoutDashesIsShorter(s: string)
    ensures |WithoutDashes(s)| <= |s|
  {
    if s != "" {
      WithoutDashesIsShorter(s[..|s| - 1]);
    }
  }

  /**
   A new attribute can be inserted exactly when the first of three slugs that
   decides fits: the key if it is unused, else the key behind its category if
   that is unused, else the hashed slug, which always fits but may be taken.
   */
  lemma SlugFitsIff(r: Register, rules: Rules, category: string, key: string)
    ensures WithSlug(r, rules, category, key).Some? <==>
      if key !in r.slugs then |key| <= SLUG_LIMIT
      else if Prefixed(category, key) !in r.slugs then |category| + 2 + |key| <= SLUG_LIMIT
      else DigestSlug(rules, category, key) !in r.slugs
  {
    var suffix := "--" + rules.digest(category, key);
    var prefixed := Prefixed(category, key);
    WithoutDashesIsShorter(if |prefixed| <= SLUG_LIMIT - |suffix| then prefixed else prefixed[..SLUG_LIMIT - |suffix|]);
  }

  /** Pairs whose category is known and whose key, where the pair is new, is short, unused and no other pair's. */
  ghost predicate FreshKeys(t: Taxonomy, named: seq<Naming>) {
    && (forall i :: 0 <= i < |named| ==> named[i].pair.0 in t.register.categories)
    && (forall i :: 0 <= i < |named| && IsNew(t, named[i].pair) ==> |named[i].pair.1| <= SLUG_LIMIT && named[i].pair.1 !in t.register.slugs)
    && (forall i, j :: 0 <= i < j < |named| && IsNew(t, named[i].pair) && IsNew(t, named[j].pair) ==> named[i].pair.1 != named[j].pair.1)
  }

  predicate IsNew(t: Taxonomy, p: Pair) {
    !Refused(t, p) && Target(t, p).None?
  }

  /** Such pairs can all be inserted, and their slugs are their keys. */
  lemma {:induction false} FreshKeysAreRegistered(t: Taxonomy, named: seq<Naming>)
    requires FreshKeys(t, named)
    ensures Registered(t, named).Some?
    ensures Registered(t, named).value.categories == t.register.categories
    ensures forall slug :: slug in Registered(t, named).value.slugs ==>
      slug in t.register.slugs || exists i :: 0 <= i < |named| && IsNew(t, named[i].pair) && named[i].pair.1 == slug
  {
    if named != [] {
      var last := |named| - 1;
      var p := named[last].pair;
      FreshKeysAreRegistered(t, named[..last]);
      var r := Registered(t, named[..last]).value;
      assert named[last].pair.0 in r.categories;
      SlugFitsIff(r, t.rules, p.0, p.1);
      hide Refused, Target;
      assert IsNew(t, p) ==> p.1 !in r.slugs;
    }
  }

  const ONCE := Payload(Some(S.Positive), Some(1), Some(1), Some(0))

  /** A new key wider than the slug column rejects the whole hotel, with no alias anywhere. */
  lemma ALongKeyRejectsAHotel(s: State, line: nat, key: string)
    requires "h" in s.hotels && SLUG_LIMIT < |key| <= KEY_LIMIT && s.taxonomy.register.categories == {"room"}
    requires s.taxonomy.attributes == map[] && s.taxonomy.aliases == map[] && s.taxonomy.register.slugs == {}
    ensures var h := Hotel("h", "mode", "v1", "all", 1, [Category(Some("room"), [Entry(key, Some(key), ONCE)])]);
      ImportHotel(s, line, h).Broken? && !Acceptable(s.taxonomy, h)
  {
    var e := Entry(key, Some(key), ONCE);
    var c := Category(Some("room"), [e]);
    var h := Hotel("h", "mode", "v1", "all", 1, [c]);
    StoredIff(s, line, h);
    KnownIsNotUnknown(s, line, h);
    hide ImportHotel, Acceptable, WithSlug;
    SlugFitsIff(s.taxonomy.register, s.taxonomy.rules, "room", key);
    OnePairIsNamed(c, e, key);
    NewPairNeedsSlug(s.taxonomy, Naming(("room", key), key, Counts(1, 0, 1)));
    NotAcceptable(s.taxonomy, h);
  }

  lemma KnownIsNotUnknown(s: State, line: nat, h: Hotel)
    requires h.hotelId in s.hotels
    ensures !ImportHotel(s, line, h).Unknown?
  {
    hide ClassifyCategories, UpsertAggregates, ScoreRows, S.Propagate, InsertedCount, AllFit, DistinctAttributes;
  }

  lemma OnePairIsNamed(c: Category, e: Entry, key: string)
    requires e == Entry(key, Some(key), ONCE) && c == Category(Some("room"), [e])
    ensures NamedPairs([c]) == [Naming(("room", key), key, Counts(1, 0, 1))]
  {
    assert [c][..0] == [] && [e][..0] == [];
    assert NamedEntries([], "room", [e]) == NamedBy([], "room", e) == [Naming(("room", key), key, Counts(1, 0, 1))];
  }

  lemma NewPairNeedsSlug(t: Taxonomy, n: Naming)
    requires t.attributes == map[] && t.aliases == map[] && n.pair.0 in t.register.categories
    requires |n.pair.0| <= KEY_LIMIT && |n.pair.1| <= KEY_LIMIT
    ensures Registered(t, [n]) == WithSlug(t.register, t.rules, n.pair.0, n.pair.1)
  {
    RegisteredMore(t, [], n);
    assert [] + [n] == [n];
  }

  lemma NotAcceptable(t: Taxonomy, h: Hotel)
    ensures Registered(t, NamedPairs(h.categories)).None? ==> !Acceptable(t, h)
    ensures HasExcess(h.categories) ==> !Acceptable(t, h)
  {
  }

  /** Counts that do not add up reject the whole hotel, not just their attribute. */
  lemma ExcessiveCountsRejectAHotel(s: State, line: nat)
    requires "h" in s.hotels && Sound(s.taxonomy)
    ensures var p := Payload(Some(S.Positive), Some(1), Some(1), Some(1));
      var h := Hotel("h", "mode", "v1", "all", 1, [Category(Some("room"), [Entry("bed", Some("bed"), p)])]);
      ImportHotel(s, line, h).Broken? && !Acceptable(s.taxonomy, h)
  {
    var p := Payload(Some(S.Positive), Some(1), Some(1), Some(1));
    var e := Entry("bed", Some("bed"), p);
    var h := Hotel("h", "mode", "v1", "all", 1, [Category(Some("room"), [e])]);
    StoredIff(s, line, h);
    KnownIsNotUnknown(s, line, h);
    hide ImportHotel, Acceptable;
    assert ExcessiveEntry(h.categories[0].entries[0]);
    NotAcceptable(s.taxonomy, h);
  }

  /** One alias onto an attribute the hotel also names directly rejects the whole hotel. */
  lemma AnAliasCanRejectAHotel(s: State, line: nat, rules: Rules)
    requires "h" in s.hotels
    requires s.taxonomy == Taxonomy(
      map[("room", "bed") := 0], map[("room", "mattress") := [0]], 1, Register({"room"}, {"ROOM"}, {"bed"}), rules)
    ensures var h := Hotel(
        "h", "mode", "v1", "all", 1, [Category(Some("room"), [Entry("Bed", Some("bed"), ONCE), Entry("Mattress", Some("mattress"), ONCE)])]);
      ImportHotel(s, line, h).Broken? && !Acceptable(s.taxonomy, h)
  {
    var bed, mattress := Entry("Bed", Some("bed"), ONCE), Entry("Mattress", Some("mattress"), ONCE);
    var h := Hotel("h", "mode", "v1", "all", 1, [Category(Some("room"), [bed, mattress])]);
    assert "bed"[0] != "mattress"[0];
    assert Sound(s.taxonomy);
    StoredIff(s, line, h);
    KnownIsNotUnknown(s, line, h);
    hide ImportHotel, Acceptable, Sound;
    TwoPairsAreNamed(bed, mattress);
    assert Clash(s.taxonomy, ("room", "bed"), ("room", "mattress"));
    hide Clash;
    var named := NamedPairs(h.categories);
    assert Clash(s.taxonomy, named[0].pair, named[1].pair);
    CollidingIsNotAcceptable(s.taxonomy, h);
  }

  lemma CollidingIsNotAcceptable(t: Taxonomy, h: Hotel)
    ensures Collide(t, NamedPairs(h.categories)) ==> !Acceptable(t, h)
  {
  }

  lemma TwoPairsAreNamed(bed: Entry, mattress: Entry)
    requires bed == Entry("Bed", Some("bed"), ONCE) && mattress == Entry("Mattress", Some("mattress"), ONCE)
    ensures NamedPairs([Category(Some("room"), [bed, mattress])]) ==
      [Naming(("room", "bed"), "Bed", Counts(1, 0, 1)), Naming(("room", "mattress"), "Mattress", Counts(1, 0, 1))]
  {
    var c := Category(Some("room"), [bed, mattress]);
    assert "bed"[0] != "mattress"[0];
    assert [c][..0] == [] && [bed, mattress][..1] == [bed] && [bed][..0] == [];
    assert NamedEntries([], "room", [bed]) == [Naming(("room", "bed"), "Bed", Counts(1, 0, 1))];
    assert !Knows(NamedEntries([], "room", [bed]), ("room", "mattress"));
  }
}
