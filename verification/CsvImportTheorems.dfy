/**
 What a CSV import guarantees: crashes leave no trace in what is stored, the
 counters account for every row at every commit, and importing a file again
 changes nothing.
 */
module CsvImportTheorems {
  import opened Common
  import opened Checkpointing
  import opened CsvImport
  import opened Reals

  /** The reader yields rows only. */
  predicate AllRows(lines: seq<Line<Row>>) {
    forall i :: 0 <= i < |lines| ==> lines[i].Record?
  }

  /** Any number of dead executions followed by one that ends store exactly what one execution stores. */
  lemma ImportSurvivesCrashes(t: Tables, lines: seq<Line<Row>>, batch: nat, stops: seq<nat>)
    requires batch > 0
    requires forall i :: 0 <= i < |stops| ==> stops[i] <= |lines|
    ensures Working(AfterCrashes(NewJob(t), lines, ImportRow, batch, stops), lines, ImportRow, |lines|)
         == Working(NewJob(t), lines, ImportRow, |lines|)
  {
    CrashesAreInvisible(NewJob(t), lines, ImportRow, batch, stops);
  }

  /** The issues that stand for a refused row; an orphan adds two more beside its own. */
  predicate Refusal(i: Issue) {
    !i.kind.UnknownHotelLocationId? && !i.kind.MissingSourceMapping? && !i.kind.AutoCreatedCity?
  }

  predicate Accounted(job: Job<State>) {
    && job.state.recordsRead == job.checkpoint
    && job.state.recordsRead == job.state.inserted + job.state.updated + job.state.failed
    && job.state.failed == Count(job.state.issues, Refusal)
  }

  lemma RowIsAccounted(s: State, n: nat, r: Row)
    requires Accounted(Job(s, n))
    ensures Accounted(Job(ImportRow(s, n + 1, r), n + 1))
  {
    hide Writes, Inserts, Merge, IssuesOf, CityNotes, Count;
    match Writes(s.tables.hotels, r)
    case Ok(d) =>
      CityNotesRefuseNothing(s.tables, n + 1, r);
      CountConcat(s.issues, CityNotes(s.tables, n + 1, r), Refusal);
    case Err(e) =>
      OneRefusal(n + 1, r, e);
      CountConcat(s.issues, IssuesOf(n + 1, r, e), Refusal);
  }

  lemma CityNotesRefuseNothing(t: Tables, n: nat, r: Row)
    ensures Count(CityNotes(t, n, r), Refusal) == 0
  {
  }

  lemma OneRefusal(n: nat, r: Row, e: Error)
    ensures Count(IssuesOf(n, r, e), Refusal) == 1
  {
    var own := [Issue(IssueKindOf(e), n, EntityOf(r))];
    var extra := [Issue(UnknownHotelLocationId, n, EntityOf(r)), Issue(MissingSourceMapping, n, EntityOf(r))];
    assert own[..0] == [] && Count(own, Refusal) == 1;
    assert extra[..1][..0] == [] && Count(extra[..1], Refusal) == 0 && Count(extra, Refusal) == 0;
    CountConcat(own, extra, Refusal);
    assert own + [] == own;
  }

  lemma {:induction false} PathIsAccounted(t: Tables, lines: seq<Line<Row>>, n: nat)
    requires n <= |lines| && AllRows(lines)
    ensures Accounted(Working(NewJob(t), lines, ImportRow, n)) && Working(NewJob(t), lines, ImportRow, n).checkpoint == n
  {
    hide ImportRow, Accounted;
    if n == 0 {
      assert Accounted(NewJob(t)) by { NewJobIsAccounted(t); }
    } else {
      PathIsAccounted(t, lines, n - 1);
      var w := Working(NewJob(t), lines, ImportRow, n - 1);
      RowIsAccounted(w.state, n - 1, lines[n - 1].record);
    }
  }

  lemma NewJobIsAccounted(t: Tables)
    ensures Accounted(NewJob(t))
  {
  }

  /** At every commit the counters add up to the checkpoint, and every refused row has left its issue. */
  lemma EveryCommitIsAccounted(t: Tables, lines: seq<Line<Row>>, batch: nat, stops: seq<nat>)
    requires batch > 0 && AllRows(lines)
    requires forall i :: 0 <= i < |stops| ==> stops[i] <= |lines|
    ensures Accounted(AfterCrashes(NewJob(t), lines, ImportRow, batch, stops))
  {
    hide Accounted;
    StoredIsOnThePath(NewJob(t), lines, ImportRow, batch, stops);
    PathIsAccounted(t, lines, AfterCrashes(NewJob(t), lines, ImportRow, batch, stops).checkpoint);
  }

  // ----- importing again

  /** A job imports hotels, or it imports reviews. */
  predicate Uniform(lines: seq<Line<Row>>) {
    || (forall i :: 0 <= i < |lines| && lines[i].Record? ==> lines[i].record.HotelRow?)
    || (forall i :: 0 <= i < |lines| && lines[i].Record? ==> lines[i].record.ReviewRow?)
  }

  function Delta(hotels: map<string, Hotel>, line: Line<Row>): Tables {
    if line.Record? && Writes(hotels, line.record).Ok? then Writes(hotels, line.record).value else NOTHING
  }

  /** Everything the first `n` lines write, given the hotels they find. */
  function Overlay(hotels: map<string, Hotel>, lines: seq<Line<Row>>, n: nat): Tables
    requires n <= |lines|
  {
    if n == 0 then NOTHING else Merge(Overlay(hotels, lines, n - 1), Delta(hotels, lines[n - 1]))
  }

  lemma OverrideLaws<K, V>(t: map<K, V>, a: map<K, V>, b: map<K, V>)
    ensures (t + a) + b == t + (a + b)
    ensures (t + a) + a == t + a
    ensures t + map[] == t
  {
  }

  lemma MergeLaws(t: Tables, a: Tables, b: Tables)
    ensures Merge(Merge(t, a), b) == Merge(t, Merge(a, b))
    ensures Merge(Merge(t, a), a) == Merge(t, a)
    ensures Merge(t, NOTHING) == t
  {
    OverrideLaws(t.hotels, a.hotels, b.hotels);
    OverrideLaws(t.primaryImages, a.primaryImages, b.primaryImages);
    OverrideLaws(t.reviews, a.reviews, b.reviews);
    OverrideLaws(t.reviewImages, a.reviewImages, b.reviewImages);
    assert (t.cities + a.cities) + b.cities == t.cities + (a.cities + b.cities);
    assert (t.hotelImages + a.hotelImages) + b.hotelImages == t.hotelImages + (a.hotelImages + b.hotelImages);
    assert t.cities + {} == t.cities && t.hotelImages + {} == t.hotelImages;
    assert (t.cities + a.cities) + a.cities == t.cities + a.cities;
    assert (t.hotelImages + a.hotelImages) + a.hotelImages == t.hotelImages + a.hotelImages;
  }

  lemma MergedKeys(t: Tables, d: Tables)
    ensures Merge(t, d).hotels.Keys == t.hotels.Keys + d.hotels.Keys
    ensures Merge(t, d).reviews.Keys == t.reviews.Keys + d.reviews.Keys
    ensures d.hotels == map[] ==> Merge(t, d).hotels == t.hotels
  {
  }

  lemma WritesIgnoresHotels(hotels: map<string, Hotel>, others: map<string, Hotel>, r: Row)
    requires r.HotelRow?
    ensures Writes(hotels, r) == Writes(others, r)
  {
  }

  lemma ReviewsWriteNoHotels(hotels: map<string, Hotel>, r: Row)
    requires r.ReviewRow? && Writes(hotels, r).Ok?
    ensures Writes(hotels, r).value.hotels == map[]
  {
  }

  predicate ReviewsOnly(lines: seq<Line<Row>>) {
    forall i :: 0 <= i < |lines| && lines[i].Record? ==> lines[i].record.ReviewRow?
  }

  /** A line writes the same on any tables whose hotels agree, or whatever the hotels if it is a hotel line. */
  lemma DeltaAgrees(hotels: map<string, Hotel>, others: map<string, Hotel>, lines: seq<Line<Row>>, i: nat)
    requires i < |lines| && Uniform(lines)
    requires ReviewsOnly(lines) ==> hotels == others
    ensures Delta(hotels, lines[i]) == Delta(others, lines[i])
    ensures lines[i].Record? ==> Writes(hotels, lines[i].record) == Writes(others, lines[i].record)
    ensures ReviewsOnly(lines) ==> Delta(hotels, lines[i]).hotels == map[]
  {
    hide Writes;
    if lines[i].Record? {
      var r := lines[i].record;
      if r.HotelRow? {
        WritesIgnoresHotels(hotels, others, r);
      } else if Writes(hotels, r).Ok? {
        ReviewsWriteNoHotels(hotels, r);
      }
    }
  }

  lemma LineAppliesDelta(s: State, n: nat, line: Line<Row>)
    requires line.Record?
    ensures ImportRow(s, n, line.record).tables == Merge(s.tables, Delta(s.tables.hotels, line))
    ensures ImportRow(s, n, line.record).inserted == s.inserted ||
            (Writes(s.tables.hotels, line.record).Ok? && Inserts(s.tables, Delta(s.tables.hotels, line)))
  {
    hide Writes, Merge, Inserts;
    MergeLaws(s.tables, NOTHING, NOTHING);
  }

  /** The tables a pass builds are the old ones under everything the file writes. */
  lemma {:induction false} PassIsOverlay(t: Tables, lines: seq<Line<Row>>, n: nat)
    requires n <= |lines| && Uniform(lines)
    ensures Working(NewJob(t), lines, ImportRow, n).state.tables == Merge(t, Overlay(t.hotels, lines, n))
    ensures ReviewsOnly(lines) ==> Overlay(t.hotels, lines, n).hotels == map[] && Merge(t, Overlay(t.hotels, lines, n)).hotels == t.hotels
  {
    hide Merge, Delta, ImportRow, Uniform, ReviewsOnly;
    MergeLaws(t, NOTHING, NOTHING);
    if n > 0 {
      PassIsOverlay(t, lines, n - 1);
      var w := Working(NewJob(t), lines, ImportRow, n - 1);
      var before := Overlay(t.hotels, lines, n - 1);
      DeltaAgrees(t.hotels, w.state.tables.hotels, lines, n - 1);
      var d := Delta(t.hotels, lines[n - 1]);
      MergeLaws(t, before, d);
      MergedKeys(before, d);
      MergedKeys(t, Overlay(t.hotels, lines, n));
      if lines[n - 1].Record? {
        LineAppliesDelta(w.state, n, lines[n - 1]);
      } else {
        BlankWritesNothing(t.hotels, lines[n - 1]);
        MergeLaws(before, NOTHING, NOTHING);
      }
    }
  }

  lemma BlankWritesNothing(hotels: map<string, Hotel>, line: Line<Row>)
    requires line.Blank?
    ensures Delta(hotels, line) == NOTHING
  {
  }

  lemma {:induction false} OverlayGrows(hotels: map<string, Hotel>, lines: seq<Line<Row>>, m: nat, n: nat)
    requires m <= n <= |lines|
    ensures Overlay(hotels, lines, m).hotels.Keys <= Overlay(hotels, lines, n).hotels.Keys
    ensures Overlay(hotels, lines, m).reviews.Keys <= Overlay(hotels, lines, n).reviews.Keys
  {
    hide Delta, Merge;
    if m < n {
      OverlayGrows(hotels, lines, m, n - 1);
      MergedKeys(Overlay(hotels, lines, n - 1), Delta(hotels, lines[n - 1]));
    }
  }

  lemma WritesSomething(hotels: map<string, Hotel>, r: Row)
    requires Writes(hotels, r).Ok?
    ensures var d := Writes(hotels, r).value; d.hotels != map[] || d.reviews != map[]
  {
    hide Coordinate, OptionalNumber, OptionalInt, ReviewImages, NormalizeRating;
    var d := Writes(hotels, r).value;
    if r.HotelRow? {
      assert r.locationId.value in d.hotels;
    } else {
      assert r.reviewId.value in d.reviews;
    }
  }

  /** The file sees the same hotels in both passes, as far as it looks at them. */
  lemma {:induction false} SameOverlay(t: Tables, lines: seq<Line<Row>>, n: nat)
    requires n <= |lines| && Uniform(lines)
    ensures var after := Merge(t, Overlay(t.hotels, lines, |lines|));
      Overlay(after.hotels, lines, n) == Overlay(t.hotels, lines, n)
  {
    hide Merge, Delta, Uniform, ReviewsOnly;
    if n > 0 {
      PassIsOverlay(t, lines, |lines|);
      SameOverlay(t, lines, n - 1);
      DeltaAgrees(t.hotels, Merge(t, Overlay(t.hotels, lines, |lines|)).hotels, lines, n - 1);
    }
  }

  /** What a line of the file writes is already there in a second pass. */
  lemma SecondPassFindsRow(t: Tables, lines: seq<Line<Row>>, n: nat)
    requires 0 < n <= |lines| && Uniform(lines) && lines[n - 1].Record?
    ensures var after := Merge(t, Overlay(t.hotels, lines, |lines|));
      var w := Working(NewJob(after), lines, ImportRow, n - 1).state.tables;
      Writes(w.hotels, lines[n - 1].record).Ok? ==> !Inserts(w, Delta(w.hotels, lines[n - 1]))
  {
    hide Merge, Uniform, ReviewsOnly, Writes, ImportRow;
    var all := Overlay(t.hotels, lines, |lines|);
    var after := Merge(t, all);
    var w := Working(NewJob(after), lines, ImportRow, n - 1).state.tables;
    PassIsOverlay(after, lines, n - 1);
    SameOverlay(t, lines, n);
    OverlayGrows(t.hotels, lines, n, |lines|);
    DeltaAgrees(after.hotels, w.hotels, lines, n - 1);
    var d := Delta(w.hotels, lines[n - 1]);
    MergedKeys(Overlay(after.hotels, lines, n - 1), d);
    MergedKeys(t, all);
    MergedKeys(after, Overlay(after.hotels, lines, n - 1));
    assert d.hotels.Keys <= w.hotels.Keys && d.reviews.Keys <= w.reviews.Keys;
    if Writes(w.hotels, lines[n - 1].record).Ok? {
      WritesSomething(w.hotels, lines[n - 1].record);
      if d.hotels != map[] {
        var k :| k in d.hotels;
        assert k in d.hotels.Keys && k in w.hotels.Keys;
      } else {
        var k :| k in d.reviews;
        assert k in d.reviews.Keys && k in w.reviews.Keys;
      }
    }
  }

  /** A second pass over the tables of the first inserts nothing on the way. */
  lemma {:induction false} SecondPassInsertsNothing(t: Tables, lines: seq<Line<Row>>, n: nat)
    requires n <= |lines| && Uniform(lines)
    ensures var after := Merge(t, Overlay(t.hotels, lines, |lines|));
      Working(NewJob(after), lines, ImportRow, n).state.inserted == 0
  {
    hide Merge, Uniform, Writes, Delta, ImportRow, Inserts;
    if n > 0 {
      SecondPassInsertsNothing(t, lines, n - 1);
      var after := Merge(t, Overlay(t.hotels, lines, |lines|));
      if lines[n - 1].Record? {
        SecondPassFindsRow(t, lines, n);
        LineAppliesDelta(Working(NewJob(after), lines, ImportRow, n - 1).state, n, lines[n - 1]);
      }
    }
  }

  /** Importing a file again leaves the tables as they are and counts every stored row as an update. */
  lemma ReimportChangesNothing(t: Tables, lines: seq<Line<Row>>)
    requires Uniform(lines)
    ensures var first := Working(NewJob(t), lines, ImportRow, |lines|).state;
      var second := Working(NewJob(first.tables), lines, ImportRow, |lines|).state;
      second.tables == first.tables && second.inserted == 0
  {
    hide Merge, Uniform, ImportRow;
    var all := Overlay(t.hotels, lines, |lines|);
    PassIsOverlay(t, lines, |lines|);
    PassIsOverlay(Merge(t, all), lines, |lines|);
    SameOverlay(t, lines, |lines|);
    SecondPassInsertsNothing(t, lines, |lines|);
    MergeLaws(t, all, all);
  }

  /** An accepted review carries its rating on the five-point scale exactly; the clamp never cuts. */
  lemma AcceptedRatingIsExact(hotels: map<string, Hotel>, r: Row, id: string)
    requires r.ReviewRow? && Writes(hotels, r).Ok? && id in Writes(hotels, r).value.reviews
    ensures var review := Writes(hotels, r).value.reviews[id];
      && review.scale > 0.0 && 0.0 <= review.normalized <= 5.0
      && review.normalized * review.scale == 5.0 * review.rating
      && review.hotelId in hotels && hotels[review.hotelId].active
  {
    hide ReviewImages;
    var review := Writes(hotels, r).value.reviews[id];
    var q := review.rating / review.scale;
    assert review.scale > 0.0 && 0.0 <= review.rating <= review.scale;
    QuotientInUnit(review.rating, review.scale);
    assert review.normalized == q * 5.0;
    assert review.normalized * review.scale == 5.0 * (q * review.scale);
  }

  lemma QuotientInUnit(x: real, y: real)
    requires 0.0 <= x <= y && y > 0.0
    ensures 0.0 <= x / y <= 1.0 && (x / y) * y == x
  {
    DivideThenMultiply(x, y);
    ScaleOrder(0.0, x / y, y);
    ScaleOrder(x / y, 1.0, y);
  }
}
