/**
 The streamed import of precomputed hotel sentiment: one line is one hotel, whose
 attributes are classified, resolved against the taxonomy, upserted and propagated
 to the score table under one savepoint. Keys arrive in their normalized form. A
 row that does not fit its columns or repeats a unique name fails the whole hotel.
 */
module SentimentImport {
  import opened Common
  import opened Checkpointing
  import S = ScoreTable

  const KEY_LIMIT := 160

  /** The width of the slug column. */
  const SLUG_LIMIT := 120

  /** The width of the text columns of an aggregate row. */
  const TEXT_LIMIT := 160

  /** The largest value of an integer column. */
  const INTEGER_LIMIT := 0x7fff_ffff

  // ----- the payload

  /** Counts as found in the file; a value that is missing or not an integer is `None`. */
  datatype Payload = Payload(sentiment: Option<S.Sentiment>, mentions: Option<int>, positive: Option<int>, negative: Option<int>)

  datatype Entry = InvalidEntry | Entry(rawKey: string, key: Option<string>, payload: Payload)

  datatype Category = InvalidCategory | Category(key: Option<string>, entries: seq<Entry>)

  datatype Hotel = Hotel(
    hotelId: string, mode: string, version: string, window: string, reviewsAnalyzed: nat, categories: seq<Category>)

  datatype Record = Unreadable | Readable(hotel: Hotel)

  datatype Counts = Counts(positive: nat, negative: nat, total: nat)

  predicate Natural(n: Option<int>) {
    n.Some? && n.value >= 0
  }

  /** The mention counts of an entry, when they are counts and add up. */
  function ParseCounts(p: Payload): (r: Option<Counts>)
    ensures r.Some? ==> r.value.positive + r.value.negative <= r.value.total
    ensures r.Some? ==>
      p.positive == Some(r.value.positive) && p.negative == Some(r.value.negative) && p.mentions == Some(r.value.total)
  {
    if p.sentiment.Some? && Natural(p.mentions) && Natural(p.positive) && Natural(p.negative)
       && p.positive.value + p.negative.value <= p.mentions.value
    then Some(Counts(p.positive.value, p.negative.value, p.mentions.value))
    else None
  }

  /**
   Counts that do not add up. The code files them as an issue under the whole
   text of its error, which is wider than the column for the kind of an issue, so
   that the insertion fails.
   */
  predicate Excessive(p: Payload) {
    && p.sentiment.Some? && Natural(p.mentions) && Natural(p.positive) && Natural(p.negative)
    && p.positive.value + p.negative.value > p.mentions.value
  }

  // ----- the taxonomy

  type Digest = s: string | |s| == 10 witness "0000000000"

  /** How rows are named: the code of a category key, and the short hash of a category and an attribute key. */
  datatype Rules = Rules(code: string -> string, digest: (string, string) -> Digest)

  /** The names that are taken: category keys, category codes and attribute slugs. */
  datatype Register = Register(categories: set<string>, codes: set<string>, slugs: set<string>)

  datatype Taxonomy = Taxonomy(
    attributes: map<(string, string), nat>, aliases: map<(string, string), seq<nat>>, nextId: nat, register: Register, rules: Rules)

  /** `Unstorable` stands for the database error of an insertion. */
  datatype Resolution =
    | TooLong
    | Unstorable
    | Ambiguous(taxonomy: Taxonomy)
    | Resolved(attribute: nat, created: bool, taxonomy: Taxonomy)

  /** The category's row, inserted under its code when there is none. */
  function WithCategory(r: Register, rules: Rules, category: string): Option<Register> {
    if category in r.categories then Some(r)
    else if rules.code(category) in r.codes then None
    else Some(r.(categories := r.categories + {category}, codes := r.codes + {rules.code(category)}))
  }

  function WithoutDashes(s: string): string {
    if s != "" && s[|s| - 1] == '-' then WithoutDashes(s[..|s| - 1]) else s
  }

  function Prefixed(category: string, key: string): string {
    category + "--" + key
  }

  function DigestSlug(rules: Rules, category: string, key: string): string {
    var suffix := "--" + rules.digest(category, key);
    var room := SLUG_LIMIT - |suffix|;
    var prefixed := Prefixed(category, key);
    WithoutDashes(if |prefixed| <= room then prefixed else prefixed[..room]) + suffix
  }

  function Slug(slugs: set<string>, rules: Rules, category: string, key: string): string {
    if key !in slugs then key
    else if Prefixed(category, key) !in slugs then Prefixed(category, key)
    else DigestSlug(rules, category, key)
  }

  /** A new attribute's row, unless its slug is too wide or taken. */
  function WithSlug(r: Register, rules: Rules, category: string, key: string): Option<Register> {
    var slug := Slug(r.slugs, rules, category, key);
    if |slug| > SLUG_LIMIT || slug in r.slugs then None else Some(r.(slugs := r.slugs + {slug}))
  }

  /** A direct attribute, else the only alias, else a new attribute. */
  function Resolve(t: Taxonomy, category: string, key: string): Resolution {
    if |category| > KEY_LIMIT || |key| > KEY_LIMIT then TooLong
    else
      var placed := WithCategory(t.register, t.rules, category);
      if placed.None? then Unstorable
      else
        var known := t.(register := placed.value);
        if (category, key) in t.attributes then Resolved(t.attributes[(category, key)], false, known)
        else if (category, key) in t.aliases && |t.aliases[(category, key)]| > 1 then Ambiguous(known)
        else if (category, key) in t.aliases && |t.aliases[(category, key)]| == 1 then Resolved(t.aliases[(category, key)][0], false, known)
        else
          var slugged := WithSlug(placed.value, t.rules, category, key);
          if slugged.None? then Unstorable
          else Resolved(t.nextId, true, t.(
            attributes := t.attributes[(category, key) := t.nextId], nextId := t.nextId + 1, register := slugged.value))
  }

  // ----- counters and issues

  datatype Delta = Delta(
    hotelsMatched: nat, hotelsFailed: nat, unknownHotels: nat,
    attributesSeen: nat, attributesProcessed: nat, attributesInserted: nat, attributesUpdated: nat,
    zeroMentions: nat, attributesFailed: nat,
    scoresApplied: nat, scoresSkipped: nat,
    autoCreated: nat, skipped: nat)

  const ZERO := Delta(0, 0, 0, 0, 0, 0, 0, 0, 0, 0, 0, 0, 0)

  function Add(a: Delta, d: Delta): Delta {
    Delta(a.hotelsMatched + d.hotelsMatched, a.hotelsFailed + d.hotelsFailed, a.unknownHotels + d.unknownHotels,
          a.attributesSeen + d.attributesSeen, a.attributesProcessed + d.attributesProcessed,
          a.attributesInserted + d.attributesInserted, a.attributesUpdated + d.attributesUpdated,
          a.zeroMentions + d.zeroMentions, a.attributesFailed + d.attributesFailed,
          a.scoresApplied + d.scoresApplied, a.scoresSkipped + d.scoresSkipped,
          a.autoCreated + d.autoCreated, a.skipped + d.skipped)
  }

  datatype IssueKind =
    | InvalidAttributeCategory | InvalidCategoryKey
    | InvalidAttributeValue | InvalidCounts | InvalidAttributeKey
    | DuplicateNormalizedAttribute | AmbiguousAttributeAlias | AttributeKeyTooLong
    | UnknownSentimentHotel | InvalidSentimentRecord | SentimentPersistenceError
  {
    predicate OfCategory() { InvalidAttributeCategory? || InvalidCategoryKey? }
    predicate OfHotel() { UnknownSentimentHotel? || InvalidSentimentRecord? || SentimentPersistenceError? }
  }

  datatype Issue = Issue(line: nat, kind: IssueKind)

  datatype Value = Value(category: string, key: string, rawKey: string, attribute: nat, counts: Counts)

  // ----- one hotel

  /** What classifying a hotel's attributes has produced so far; a broken draft is abandoned. */
  datatype Draft = Draft(
    delta: Delta, taxonomy: Taxonomy, seen: map<(string, string), string>, values: seq<Value>, issues: seq<Issue>, broken: bool)

  function NewDraft(t: Taxonomy): Draft {
    Draft(ZERO.(hotelsMatched := 1), t, map[], [], [], false)
  }

  function Reject(d: Draft, line: nat, kind: IssueKind): Draft {
    d.(delta := d.delta.(attributesFailed := d.delta.attributesFailed + 1), issues := d.issues + [Issue(line, kind)])
  }

  function ClassifyEntry(before: Draft, line: nat, category: string, e: Entry): Draft {
    var d := before.(delta := before.delta.(attributesSeen := before.delta.attributesSeen + 1));
    if before.broken then before
    else if e.InvalidEntry? then Reject(d, line, InvalidAttributeValue)
    else if Excessive(e.payload) then before.(broken := true)
    else
      var counts := ParseCounts(e.payload);
      if counts.None? then Reject(d, line, InvalidCounts)
      else if counts.value.total == 0 then
        d.(delta := d.delta.(zeroMentions := d.delta.zeroMentions + 1, skipped := d.delta.skipped + 1))
      else if e.key.None? then Reject(d, line, InvalidAttributeKey)
      else if (category, e.key.value) in d.seen then
        d.(issues := d.issues + [Issue(line, DuplicateNormalizedAttribute)])
      else
        var noted := d.(seen := d.seen[(category, e.key.value) := e.rawKey]);
        match Resolve(d.taxonomy, category, e.key.value)
        case TooLong => Reject(noted, line, AttributeKeyTooLong)
        case Unstorable => before.(broken := true)
        case Ambiguous(taxonomy) => Reject(noted.(taxonomy := taxonomy), line, AmbiguousAttributeAlias)
        case Resolved(attribute, created, taxonomy) =>
          noted.(
            delta := noted.delta.(autoCreated := noted.delta.autoCreated + if created then 1 else 0),
            taxonomy := taxonomy,
            values := noted.values + [Value(category, e.key.value, e.rawKey, attribute, counts.value)])
  }

  function ClassifyEntries(d: Draft, line: nat, category: string, entries: seq<Entry>): Draft {
    if entries == [] then d
    else ClassifyEntry(ClassifyEntries(d, line, category, entries[..|entries| - 1]), line, category, entries[|entries| - 1])
  }

  function ClassifyCategory(d: Draft, line: nat, c: Category): Draft {
    if d.broken then d
    else if c.InvalidCategory? then Reject(d, line, InvalidAttributeCategory)
    else if c.key.None? then Reject(d, line, InvalidCategoryKey)
    else ClassifyEntries(d, line, c.key.value, c.entries)
  }

  function ClassifyCategories(d: Draft, line: nat, categories: seq<Category>): Draft {
    if categories == [] then d
    else ClassifyCategory(ClassifyCategories(d, line, categories[..|categories| - 1]), line, categories[|categories| - 1])
  }

  // ----- persistence

  /** hotel, attribute, analysis version, review window; the source is the job's. */
  type Identity = (nat, nat, string, string)

  function IdentityOf(hotel: nat, h: Hotel, v: Value): Identity {
    (hotel, v.attribute, h.version, h.window)
  }

  /** The upsert statement fails when two of its rows have one identity. */
  predicate DistinctAttributes(values: seq<Value>) {
    forall i, j :: 0 <= i < j < |values| ==> values[i].attribute != values[j].attribute
  }

  /** What a value of the hotel needs to fit the columns of its row. */
  predicate RowFits(h: Hotel, rawKey: string, counts: Counts) {
    && |rawKey| <= TEXT_LIMIT && |h.mode| <= TEXT_LIMIT && |h.version| <= TEXT_LIMIT && |h.window| <= TEXT_LIMIT
    && counts.total <= INTEGER_LIMIT && h.reviewsAnalyzed <= INTEGER_LIMIT
  }

  predicate AllFit(h: Hotel, values: seq<Value>) {
    forall i :: 0 <= i < |values| ==> RowFits(h, values[i].rawKey, values[i].counts)
  }

  function UpsertAggregates(t: map<Identity, Counts>, hotel: nat, h: Hotel, values: seq<Value>): map<Identity, Counts> {
    if values == [] then t
    else
      var last := values[|values| - 1];
      UpsertAggregates(t, hotel, h, values[..|values| - 1])[IdentityOf(hotel, h, last) := last.counts]
  }

  function InsertedCount(t: map<Identity, Counts>, hotel: nat, h: Hotel, values: seq<Value>): (n: nat)
    ensures n <= |values|
  {
    Count(values, (v: Value) => IdentityOf(hotel, h, v) !in t)
  }

  predicate Mentioned(values: seq<Value>) {
    forall i :: 0 <= i < |values| ==> values[i].counts.total > 0
  }

  function ScoreRows(hotel: nat, values: seq<Value>): (rows: seq<S.Upsert>)
    requires Mentioned(values)
    ensures |rows| == |values|
    ensures DistinctAttributes(values) ==> S.DistinctKeys(rows)
  {
    seq(|values|, i requires 0 <= i < |values| =>
      var v := values[i];
      S.Upsert((hotel, v.attribute), S.AggregateRow(S.Aggregate(v.attribute, v.counts.positive, v.counts.negative, v.counts.total))))
  }

  datatype State = State(
    hotels: map<string, nat>, algorithmActive: bool,
    hotelsRead: nat, counters: Delta, taxonomy: Taxonomy, aggregates: map<Identity, Counts>, scores: S.Table, issues: seq<Issue>)

  datatype HotelResult = Unknown | Broken | Stored(state: State)

  /** One hotel under its savepoint: everything is stored, or nothing is. */
  function ImportHotel(s: State, line: nat, h: Hotel): HotelResult {
    if h.hotelId !in s.hotels then Unknown
    else
      var hotel := s.hotels[h.hotelId];
      ValuesAreMentioned(NewDraft(s.taxonomy), line, h.categories);
      var d := ClassifyCategories(NewDraft(s.taxonomy), line, h.categories);
      if d.broken || !AllFit(h, d.values) || !DistinctAttributes(d.values) || !s.algorithmActive then Broken
      else
        var inserted := InsertedCount(s.aggregates, hotel, h, d.values);
        var propagated := S.Propagate(s.scores, ScoreRows(hotel, d.values));
        var delta := d.delta.(
          attributesProcessed := |d.values|,
          attributesInserted := inserted, attributesUpdated := |d.values| - inserted,
          scoresApplied := propagated.applied, scoresSkipped := propagated.skipped);
        Stored(s.(counters := Add(s.counters, delta), taxonomy := d.taxonomy,
                  aggregates := UpsertAggregates(s.aggregates, hotel, h, d.values), scores := propagated.table,
                  issues := s.issues + d.issues))
  }

  function FailHotel(s: State, line: nat, kind: IssueKind): State {
    s.(counters := Add(s.counters, ZERO.(hotelsFailed := 1, unknownHotels := if kind.UnknownSentimentHotel? then 1 else 0)),
       issues := s.issues + [Issue(line, kind)])
  }

  function ImportLine(s: State, line: nat, r: Record): State {
    var counted := s.(hotelsRead := s.hotelsRead + 1);
    if r.Unreadable? then FailHotel(counted, line, InvalidSentimentRecord)
    else
      match ImportHotel(counted, line, r.hotel)
      case Unknown => FailHotel(counted, line, UnknownSentimentHotel)
      case Broken => FailHotel(counted, line, SentimentPersistenceError)
      case Stored(stored) => stored
  }

  // ----- facts about drafts

  lemma {:induction false} EntriesKeepMentioned(d: Draft, line: nat, category: string, entries: seq<Entry>)
    requires Mentioned(d.values)
    ensures Mentioned(ClassifyEntries(d, line, category, entries).values)
  {
    hide Resolve;
    if entries != [] {
      EntriesKeepMentioned(d, line, category, entries[..|entries| - 1]);
    }
  }

  /** Every value that is going to be stored has been mentioned. */
  lemma {:induction false} ValuesAreMentioned(d: Draft, line: nat, categories: seq<Category>)
    requires Mentioned(d.values)
    ensures Mentioned(ClassifyCategories(d, line, categories).values)
  {
    hide ClassifyEntries;
    if categories != [] {
      var front := ClassifyCategories(d, line, categories[..|categories| - 1]);
      var c := categories[|categories| - 1];
      ValuesAreMentioned(d, line, categories[..|categories| - 1]);
      if c.Category? && c.key.Some? {
        EntriesKeepMentioned(front, line, c.key.value, c.entries);
      }
    }
  }

  /** Nothing is classified any more once the draft is broken. */
  lemma {:induction false} BrokenEntriesStay(d: Draft, line: nat, category: string, entries: seq<Entry>, j: nat)
    requires j <= |entries| && ClassifyEntries(d, line, category, entries[..j]).broken
    ensures ClassifyEntries(d, line, category, entries) == ClassifyEntries(d, line, category, entries[..j])
  {
    if j < |entries| {
      assert entries[..|entries| - 1][..j] == entries[..j];
      BrokenEntriesStay(d, line, category, entries[..|entries| - 1], j);
    } else {
      assert entries[..j] == entries;
    }
  }

  lemma {:induction false} BrokenCategoriesStay(d: Draft, line: nat, categories: seq<Category>, j: nat)
    requires j <= |categories| && ClassifyCategories(d, line, categories[..j]).broken
    ensures ClassifyCategories(d, line, categories) == ClassifyCategories(d, line, categories[..j])
  {
    hide ClassifyEntries;
    if j < |categories| {
      assert categories[..|categories| - 1][..j] == categories[..j];
      BrokenCategoriesStay(d, line, categories[..|categories| - 1], j);
    } else {
      assert categories[..j] == categories;
    }
  }

  // ----- the job

  class SentimentImportJob {
    var state: State
    var checkpoint: nat
    var saved: Job<State>

    constructor (s: State)
      ensures saved == Job(s, 0) && state == s && checkpoint == 0
    {
      state, checkpoint, saved := s, 0, Job(s, 0);
    }

    /** The classification loops over categories and their entries; an error of the database ends them. */
    method Classify(line: nat, h: Hotel) returns (d: Draft)
      ensures d == ClassifyCategories(NewDraft(state.taxonomy), line, h.categories)
    {
      hide ClassifyEntries;
      d := NewDraft(state.taxonomy);
      ghost var start := d;
      for i := 0 to |h.categories|
        invariant d == ClassifyCategories(start, line, h.categories[..i]) && !d.broken
      {
        var c := h.categories[i];
        assert h.categories[..i + 1][..i] == h.categories[..i];
        if c.InvalidCategory? {
          d := d.(delta := d.delta.(attributesFailed := d.delta.attributesFailed + 1), issues := d.issues + [Issue(line, InvalidAttributeCategory)]);
          continue;
        }
        if c.key.None? {
          d := d.(delta := d.delta.(attributesFailed := d.delta.attributesFailed + 1), issues := d.issues + [Issue(line, InvalidCategoryKey)]);
          continue;
        }
        d := ClassifyAll(line, c.key.value, c.entries, d);
        if d.broken {
          BrokenCategoriesStay(start, line, h.categories, i + 1);
          return;
        }
      }
      assert h.categories[..|h.categories|] == h.categories;
    }

    /** The loop over the entries of one category. */
    static method ClassifyAll(line: nat, category: string, entries: seq<Entry>, before: Draft) returns (d: Draft)
      requires !before.broken
      ensures d == ClassifyEntries(before, line, category, entries)
    {
      hide ClassifyEntry;
      d := before;
      for j := 0 to |entries|
        invariant d == ClassifyEntries(before, line, category, entries[..j]) && !d.broken
      {
        assert entries[..j + 1][..j] == entries[..j];
        d := ClassifyOne(line, category, entries[j], d);
        if d.broken {
          BrokenEntriesStay(before, line, category, entries, j + 1);
          return;
        }
      }
      assert entries[..|entries|] == entries;
    }

    /** One pass of that loop. */
    static method ClassifyOne(line: nat, category: string, e: Entry, before: Draft) returns (d: Draft)
      requires !before.broken
      ensures d == ClassifyEntry(before, line, category, e)
    {
      d := before.(delta := before.delta.(attributesSeen := before.delta.attributesSeen + 1));
      var problem: IssueKind;
      if e.InvalidEntry? {
        problem := InvalidAttributeValue;
      } else if Excessive(e.payload) {
        return before.(broken := true);
      } else {
        var counts := ParseCounts(e.payload);
        if counts.None? {
          problem := InvalidCounts;
        } else if counts.value.total == 0 {
          d := d.(delta := d.delta.(zeroMentions := d.delta.zeroMentions + 1, skipped := d.delta.skipped + 1));
          return;
        } else if e.key.None? {
          problem := InvalidAttributeKey;
        } else if (category, e.key.value) in d.seen {
          d := d.(issues := d.issues + [Issue(line, DuplicateNormalizedAttribute)]);
          return;
        } else {
          d := d.(seen := d.seen[(category, e.key.value) := e.rawKey]);
          match Resolve(d.taxonomy, category, e.key.value) {
            case TooLong =>
              problem := AttributeKeyTooLong;
            case Ambiguous(placed) =>
              d := d.(taxonomy := placed);
              problem := AmbiguousAttributeAlias;
            case Unstorable =>
              return before.(broken := true);
            case Resolved(attribute, created, grown) =>
              return d.(
                delta := d.delta.(autoCreated := d.delta.autoCreated + if created then 1 else 0), taxonomy := grown,
                values := d.values + [Value(category, e.key.value, e.rawKey, attribute, counts.value)]);
          }
        }
      }
      d := d.(delta := d.delta.(attributesFailed := d.delta.attributesFailed + 1), issues := d.issues + [Issue(line, problem)]);
    }

    method ProcessHotel(line: nat, h: Hotel) returns (outcome: Option<IssueKind>)
      modifies this`state
      ensures match ImportHotel(old(state), line, h)
              case Unknown => outcome == Some(UnknownSentimentHotel) && state == old(state)
              case Broken => outcome == Some(SentimentPersistenceError) && state == old(state)
              case Stored(s) => outcome == None && state == s
    {
      hide ClassifyCategories, S.Propagate, ScoreRows, UpsertAggregates, InsertedCount, AllFit, DistinctAttributes, Add;
      if h.hotelId !in state.hotels {
        return Some(UnknownSentimentHotel);
      }
      var hotel := state.hotels[h.hotelId];
      var d := Classify(line, h);
      ValuesAreMentioned(NewDraft(state.taxonomy), line, h.categories);
      if d.broken || !AllFit(h, d.values) || !DistinctAttributes(d.values) || !state.algorithmActive {
        return Some(SentimentPersistenceError);
      }
      var inserted := InsertedCount(state.aggregates, hotel, h, d.values);
      var propagated := S.Propagate(state.scores, ScoreRows(hotel, d.values));
      var delta := d.delta.(
        attributesProcessed := |d.values|, attributesInserted := inserted, attributesUpdated := |d.values| - inserted,
        scoresApplied := propagated.applied, scoresSkipped := propagated.skipped);
      state := state.(
        counters := Add(state.counters, delta), taxonomy := d.taxonomy,
        aggregates := UpsertAggregates(state.aggregates, hotel, h, d.values), scores := propagated.table,
        issues := state.issues + d.issues);
      return None;
    }

    /** Reads the file behind the checkpoint, as far as `stop` lines. */
    method ReadLines(lines: seq<Line<Record>>, batch: nat, stop: nat)
      requires batch > 0 && stop <= |lines|
      requires saved == Job(state, checkpoint)
      modifies this
      ensures Job(state, checkpoint) == Working(old(saved), lines, ImportLine, stop)
      ensures saved == Committed(old(saved), lines, ImportLine, batch, stop)
    {
      hide ImportHotel;
      ghost var start := saved;
      var startLine := checkpoint;
      for n := 0 to stop
        invariant Job(state, checkpoint) == Working(start, lines, ImportLine, n)
        invariant saved == Committed(start, lines, ImportLine, batch, n)
      {
        var number := n + 1;
        if number <= startLine || lines[n].Blank? {
          continue;
        }
        state := state.(hotelsRead := state.hotelsRead + 1);
        var failure: Option<IssueKind>;
        if lines[n].record.Unreadable? {
          failure := Some(InvalidSentimentRecord);
        } else {
          failure := ProcessHotel(number, lines[n].record.hotel);
        }
        if failure.Some? {
          state := FailHotel(state, number, failure.value);
        }
        checkpoint := number;
        if number % batch == 0 {
          saved := Job(state, checkpoint);
        }
      }
    }

    /** One execution: it dies after `died.value` lines, or reads to the end and commits. */
    method Run(lines: seq<Line<Record>>, batch: nat, died: Option<nat>)
      requires batch > 0 && (died.Some? ==> died.value <= |lines|)
      modifies this
      ensures saved == if died.Some? then Committed(old(saved), lines, ImportLine, batch, died.value)
                       else Working(old(saved), lines, ImportLine, |lines|)
    {
      state, checkpoint := saved.state, saved.checkpoint;
      ReadLines(lines, batch, if died.Some? then died.value else |lines|);
      if died.None? {
        saved := Job(state, checkpoint);
      }
    }
  }
}
