/**
 Hotel and review CSV imports: what one row stores or why it is refused, and the
 job that counts rows, records issues and commits batch by batch.
 Cells arrive trimmed and parsed; identifiers are compared as they are.
 */
module CsvImport {
  import opened Common
  import opened Checkpointing

  datatype Cell = Empty | Garbled | Number(x: real)

  datatype DateCell = NoDate | BadDate | Day(day: int)

  datatype Row =
    | HotelRow(
        locationId: Option<string>, name: Option<string>, city: Option<string>,
        latitude: Cell, longitude: Cell, hotelRating: Cell, reviewCount: Cell, rank: Cell,
        hotelDetails: string, image: Option<string>)
    | ReviewRow(
        hotelId: Option<string>, reviewId: Option<string>, reviewRating: Cell, scale: Cell,
        date: DateCell, reviewDetails: string, images: seq<string>)

  datatype Hotel = Hotel(
    name: string, city: string, latitude: Option<real>, longitude: Option<real>,
    rating: Option<real>, reviewCount: Option<int>, rank: Option<int>, details: string, active: bool)

  datatype Review = Review(
    hotelId: string, rating: real, scale: real, normalized: real, date: Option<int>, details: string)

  /** The tables one source writes: keys are the provider's identifiers, and a city is its name without case. */
  datatype Tables = Tables(
    cities: set<string>,
    hotels: map<string, Hotel>, hotelImages: set<(string, string)>, primaryImages: map<string, string>,
    reviews: map<string, Review>, reviewImages: map<(string, string), nat>)

  const NOTHING := Tables({}, map[], {}, map[], map[], map[])

  /** The tables after the rows of `d` have been written over those of `t`. */
  function Merge(t: Tables, d: Tables): Tables {
    Tables(t.cities + d.cities, t.hotels + d.hotels, t.hotelImages + d.hotelImages,
           t.primaryImages + d.primaryImages, t.reviews + d.reviews, t.reviewImages + d.reviewImages)
  }

  datatype Error =
    | MissingField(field: string) | BadNumber
    | InvalidLatitude | InvalidLongitude
    | OrphanReview | InvalidReviewRating | InvalidDate

  datatype Result<+T> = Ok(value: T) | Err(error: Error) {
    predicate IsFailure() { Err? }
    function PropagateFailure<U>(): Result<U> requires Err? { Err(error) }
    function Extract(): T requires Ok? { value }
  }

  datatype IssueKind =
    | OrphanReviewIssue | UnknownHotelLocationId | MissingSourceMapping
    | InvalidLatitudeIssue | InvalidLongitudeIssue | InvalidReviewRatingIssue | InvalidDateIssue
    | ImportValidationError
    | AutoCreatedCity

  datatype Issue = Issue(kind: IssueKind, row: nat, entity: Option<string>)

  // ----- cells

  function Required(cell: Option<string>, field: string): Result<string> {
    if cell.None? then Err(MissingField(field)) else Ok(cell.value)
  }

  function OptionalNumber(cell: Cell): Result<Option<real>> {
    match cell
    case Empty => Ok(None)
    case Garbled => Err(BadNumber)
    case Number(x) => Ok(Some(x))
  }

  function RequiredNumber(cell: Cell, field: string): Result<real> {
    var parsed :- OptionalNumber(cell);
    if parsed.None? then Err(MissingField(field)) else Ok(parsed.value)
  }

  /** Conversion to an integer drops the fraction. */
  function Truncate(x: real): int {
    if x >= 0.0 then x.Floor else -(-x).Floor
  }

  function OptionalInt(cell: Cell): Result<Option<int>> {
    var parsed :- OptionalNumber(cell);
    Ok(if parsed.None? then None else Some(Truncate(parsed.value)))
  }

  function Coordinate(cell: Cell, limit: real, invalid: Error): Result<Option<real>> {
    var parsed :- OptionalNumber(cell);
    if parsed.Some? && !(-limit <= parsed.value <= limit) then Err(invalid) else Ok(parsed)
  }

  function NormalizeRating(rating: real, scale: real): real
    requires scale > 0.0
  {
    var x := rating / scale * 5.0;
    if x < 0.0 then 0.0 else if x > 5.0 then 5.0 else x
  }

  // ----- what one row writes

  function ReviewImages(id: string, urls: seq<string>): map<(string, string), nat> {
    if urls == [] then map[]
    else ReviewImages(id, urls[..|urls| - 1])[(id, urls[|urls| - 1]) := |urls| - 1]
  }

  function HotelWrites(r: Row): Result<Tables>
    requires r.HotelRow?
  {
    var id :- Required(r.locationId, "locationId");
    var name :- Required(r.name, "name");
    var city :- Required(r.city, "city");
    var latitude :- Coordinate(r.latitude, 90.0, InvalidLatitude);
    var longitude :- Coordinate(r.longitude, 180.0, InvalidLongitude);
    var rating :- OptionalNumber(r.hotelRating);
    var count :- OptionalInt(r.reviewCount);
    var rank :- OptionalInt(r.rank);
    Ok(HotelTables(id, Hotel(name, Folded(city), latitude, longitude, rating, count, rank, r.hotelDetails, true), r.image))
  }

  function HotelTables(id: string, hotel: Hotel, image: Option<string>): Tables {
    NOTHING.(
      cities := {hotel.city}, hotels := map[id := hotel],
      hotelImages := if image.Some? then {(id, image.value)} else {},
      primaryImages := if image.Some? then map[id := image.value] else map[])
  }

  /** What writing a hotel of a known city does to each table. */
  lemma HotelMerge(t: Tables, id: string, hotel: Hotel, image: Option<string>)
    requires hotel.city in t.cities
    ensures var stored := t.(hotels := t.hotels[id := hotel]);
      Merge(t, HotelTables(id, hotel, image)) ==
      if image.None? then stored
      else stored.(hotelImages := t.hotelImages + {(id, image.value)}, primaryImages := t.primaryImages[id := image.value])
    ensures Inserts(t, HotelTables(id, hotel, image)) <==> id !in t.hotels
  {
    var merged := Merge(t, HotelTables(id, hotel, image));
    assert merged.cities == t.cities && merged.hotels == t.hotels[id := hotel];
    assert merged.reviews == t.reviews && merged.reviewImages == t.reviewImages;
    if image.None? {
      assert merged.hotelImages == t.hotelImages && merged.primaryImages == t.primaryImages;
    } else {
      assert merged.primaryImages == t.primaryImages[id := image.value];
    }
  }

  function ReviewTables(id: string, review: Review, images: seq<string>): Tables {
    NOTHING.(reviews := map[id := review], reviewImages := ReviewImages(id, images))
  }

  function ScaleOf(parsed: Option<real>): real {
    if parsed.Some? && parsed.value != 0.0 then parsed.value else 5.0
  }

  function ReviewWrites(hotels: map<string, Hotel>, r: Row): Result<Tables>
    requires r.ReviewRow?
  {
    var hotelId :- Required(r.hotelId, "hotel_location_id");
    if hotelId !in hotels || !hotels[hotelId].active then Err(OrphanReview)
    else
      var id :- Required(r.reviewId, "review_id");
      var rating :- RequiredNumber(r.reviewRating, "review_rating");
      var scale :- OptionalNumber(r.scale);
      if rating < 0.0 || rating > ScaleOf(scale) then Err(InvalidReviewRating)
      else if r.date.BadDate? then Err(InvalidDate)
      else
        var date := if r.date.Day? then Some(r.date.day) else None;
        var review := Review(hotelId, rating, ScaleOf(scale), NormalizeRating(rating, ScaleOf(scale)), date, r.reviewDetails);
        Ok(ReviewTables(id, review, r.images))
  }

  function Writes(hotels: map<string, Hotel>, r: Row): Result<Tables> {
    if r.HotelRow? then HotelWrites(r) else ReviewWrites(hotels, r)
  }

  /** The row's own identity is new to the tables. */
  predicate Inserts(t: Tables, d: Tables) {
    d.hotels.Keys !! t.hotels.Keys && d.reviews.Keys !! t.reviews.Keys
  }

  // ----- the job

  datatype State = State(tables: Tables, recordsRead: nat, inserted: nat, updated: nat, failed: nat, issues: seq<Issue>)

  function NewJob(t: Tables): Job<State> {
    Job(State(t, 0, 0, 0, 0, []), 0)
  }

  function IssueKindOf(e: Error): IssueKind {
    match e
    case OrphanReview => OrphanReviewIssue
    case InvalidLatitude => InvalidLatitudeIssue
    case InvalidLongitude => InvalidLongitudeIssue
    case InvalidReviewRating => InvalidReviewRatingIssue
    case InvalidDate => InvalidDateIssue
    case _ => ImportValidationError
  }

  function EntityOf(r: Row): Option<string> {
    if r.HotelRow? then r.locationId else r.reviewId
  }

  function IssuesOf(n: nat, r: Row, e: Error): seq<Issue> {
    [Issue(IssueKindOf(e), n, EntityOf(r))]
    + if e.OrphanReview?
      then [Issue(UnknownHotelLocationId, n, EntityOf(r)), Issue(MissingSourceMapping, n, EntityOf(r))]
      else []
  }

  /** A note for each city the row brings into existence. */
  function CityNotes(t: Tables, n: nat, r: Row): seq<Issue> {
    if r.HotelRow? && r.city.Some? && Folded(r.city.value) !in t.cities then [Issue(AutoCreatedCity, n, EntityOf(r))] else []
  }

  function ImportRow(s: State, n: nat, r: Row): State {
    match Writes(s.tables.hotels, r)
    case Ok(d) =>
      var isNew := Inserts(s.tables, d);
      State(Merge(s.tables, d), s.recordsRead + 1,
            s.inserted + (if isNew then 1 else 0), s.updated + (if isNew then 0 else 1), s.failed,
            s.issues + CityNotes(s.tables, n, r))
    case Err(e) =>
      State(s.tables, s.recordsRead + 1, s.inserted, s.updated, s.failed + 1, s.issues + IssuesOf(n, r, e))
  }

  datatype Status = Pending | Running | Finished | Partial | Failed

  class CsvImportJob {
    // the open transaction
    var tables: Tables
    var recordsRead: nat
    var inserted: nat
    var updated: nat
    var failed: nat
    var issues: seq<Issue>
    var checkpoint: nat
    // what is committed
    var saved: Job<State>
    var status: Status
    var jobErrors: nat

    ghost function Open(): Job<State>
      reads this
    {
      Job(State(tables, recordsRead, inserted, updated, failed, issues), checkpoint)
    }

    constructor (t: Tables)
      ensures Open() == saved == NewJob(t)
      ensures status == Pending && jobErrors == 0
    {
      tables, recordsRead, inserted, updated, failed, issues, checkpoint := t, 0, 0, 0, 0, [], 0;
      saved := NewJob(t);
      status, jobErrors := Pending, 0;
    }

    method Commit()
      modifies this`saved
      ensures saved == Open()
    {
      saved := Job(State(tables, recordsRead, inserted, updated, failed, issues), checkpoint);
    }

    method Rollback()
      modifies this`tables, this`recordsRead, this`inserted, this`updated, this`failed, this`issues, this`checkpoint
      ensures Open() == saved
    {
      tables, recordsRead := saved.state.tables, saved.state.recordsRead;
      inserted, updated, failed := saved.state.inserted, saved.state.updated, saved.state.failed;
      issues, checkpoint := saved.state.issues, saved.checkpoint;
    }

    method CreateCity(city: string, n: nat, entity: Option<string>)
      modifies this`tables, this`issues
      ensures tables == old(tables).(cities := old(tables).cities + {Folded(city)})
      ensures issues == old(issues) + if Folded(city) in old(tables).cities then [] else [Issue(AutoCreatedCity, n, entity)]
    {
      if Folded(city) !in tables.cities {
        tables := tables.(cities := tables.cities + {Folded(city)});
        issues := issues + [Issue(AutoCreatedCity, n, entity)];
      }
    }

    method UpsertHotel(id: string, hotel: Hotel, image: Option<string>) returns (isNew: bool)
      requires hotel.city in tables.cities
      modifies this`tables
      ensures tables == Merge(old(tables), HotelTables(id, hotel, image))
      ensures isNew <==> Inserts(old(tables), HotelTables(id, hotel, image))
    {
      isNew := id !in tables.hotels;
      HotelMerge(tables, id, hotel, image);
      hide Merge, HotelTables;
      tables := tables.(hotels := tables.hotels[id := hotel]);
      if image.Some? {
        tables := tables.(
          hotelImages := tables.hotelImages + {(id, image.value)},
          primaryImages := tables.primaryImages[id := image.value]);
      }
    }

    /** Writes one hotel in place; a refused row may leave a city behind. */
    method StoreHotel(n: nat, r: Row) returns (outcome: Result<bool>)
      requires r.HotelRow?
      modifies this`tables, this`issues
      ensures match HotelWrites(r)
              case Ok(d) =>
                && outcome == Ok(Inserts(old(tables), d))
                && tables == Merge(old(tables), d)
                && issues == old(issues) + CityNotes(old(tables), n, r)
              case Err(e) => outcome == Err(e)
    {
      hide Coordinate, OptionalNumber, OptionalInt;
      var id :- Required(r.locationId, "locationId");
      var name :- Required(r.name, "name");
      var city :- Required(r.city, "city");
      var latitude :- Coordinate(r.latitude, 90.0, InvalidLatitude);
      var longitude :- Coordinate(r.longitude, 180.0, InvalidLongitude);
      CreateCity(city, n, EntityOf(r));
      var rating :- OptionalNumber(r.hotelRating);
      var count :- OptionalInt(r.reviewCount);
      var rank :- OptionalInt(r.rank);
      var isNew := UpsertHotel(id, Hotel(name, Folded(city), latitude, longitude, rating, count, rank, r.hotelDetails, true), r.image);
      return Ok(isNew);
    }

    method UpsertImages(id: string, urls: seq<string>)
      modifies this`tables
      ensures tables == old(tables).(reviewImages := old(tables).reviewImages + ReviewImages(id, urls))
    {
      ghost var before := tables.reviewImages;
      assert before + ReviewImages(id, []) == before;
      for position := 0 to |urls|
        invariant tables == old(tables).(reviewImages := before + ReviewImages(id, urls[..position]))
      {
        assert urls[..position + 1][..position] == urls[..position];
        OverrideThenSet(before, ReviewImages(id, urls[..position]), (id, urls[position]), position);
        tables := tables.(reviewImages := tables.reviewImages[(id, urls[position]) := position]);
      }
      assert urls[..|urls|] == urls;
    }

    method UpsertReview(id: string, review: Review, images: seq<string>) returns (isNew: bool)
      modifies this`tables
      ensures tables == Merge(old(tables), ReviewTables(id, review, images))
      ensures isNew <==> Inserts(old(tables), ReviewTables(id, review, images))
    {
      hide ReviewImages;
      isNew := id !in tables.reviews;
      tables := tables.(reviews := tables.reviews[id := review]);
      UpsertImages(id, images);
    }

    method StoreReview(r: Row) returns (outcome: Result<bool>)
      requires r.ReviewRow?
      modifies this`tables
      ensures match ReviewWrites(old(tables).hotels, r)
              case Ok(d) => outcome == Ok(Inserts(old(tables), d)) && tables == Merge(old(tables), d)
              case Err(e) => outcome == Err(e)
    {
      hide OptionalNumber, NormalizeRating;
      var hotelId :- Required(r.hotelId, "hotel_location_id");
      if hotelId !in tables.hotels || !tables.hotels[hotelId].active {
        return Err(OrphanReview);
      }
      var id :- Required(r.reviewId, "review_id");
      var rating :- RequiredNumber(r.reviewRating, "review_rating");
      var parsed :- OptionalNumber(r.scale);
      var scale := ScaleOf(parsed);
      if rating < 0.0 || rating > scale {
        return Err(InvalidReviewRating);
      }
      if r.date.BadDate? {
        return Err(InvalidDate);
      }
      var date := if r.date.Day? then Some(r.date.day) else None;
      var isNew := UpsertReview(id, Review(hotelId, rating, scale, NormalizeRating(rating, scale), date, r.reviewDetails), r.images);
      return Ok(isNew);
    }

    /** One row under a savepoint. */
    method ProcessRow(n: nat, r: Row)
      modifies this`tables, this`recordsRead, this`inserted, this`updated, this`failed, this`issues
      ensures Open() == Job(ImportRow(old(Open()).state, n, r), checkpoint)
    {
      hide HotelWrites, ReviewWrites, Merge, Inserts, IssuesOf;
      recordsRead := recordsRead + 1;
      var savedTables, savedIssues := tables, issues;
      var outcome: Result<bool>;
      if r.HotelRow? {
        outcome := StoreHotel(n, r);
      } else {
        outcome := StoreReview(r);
      }
      match outcome {
        case Ok(isNew) =>
          assert savedIssues + [] == savedIssues;
          if isNew { inserted := inserted + 1; } else { updated := updated + 1; }
        case Err(e) =>
          tables, issues := savedTables, savedIssues;
          failed := failed + 1;
          issues := issues + IssuesOf(n, r, e);
      }
    }

    /** Reads the file behind the checkpoint, as far as `stop` lines. */
    method ReadRows(lines: seq<Line<Row>>, batch: nat, stop: nat)
      requires batch > 0 && stop <= |lines|
      requires Open() == saved
      modifies this
      ensures Open() == Working(old(saved), lines, ImportRow, stop)
      ensures saved == Committed(old(saved), lines, ImportRow, batch, stop)
      ensures status == old(status) && jobErrors == old(jobErrors)
    {
      hide ImportRow;
      ghost var start := saved;
      var startRow := checkpoint;
      for n := 0 to stop
        invariant Open() == Working(start, lines, ImportRow, n)
        invariant saved == Committed(start, lines, ImportRow, batch, n)
        invariant status == old(status) && jobErrors == old(jobErrors)
      {
        var number := n + 1;
        if number > startRow && lines[n].Record? {
          ProcessRow(number, lines[n].record);
          checkpoint := number;
          if number % batch == 0 {
            Commit();
          }
        }
      }
    }

    /**
     One execution of the job. It dies after `died.value` lines, or reads to the
     end; a death that the job itself notices is recorded on it.
     */
    method Run(lines: seq<Line<Row>>, batch: nat, died: Option<nat>, noticed: bool)
      requires batch > 0 && (died.Some? ==> died.value <= |lines|)
      modifies this
      ensures old(status) == Finished ==> saved == old(saved) && status == old(status) && jobErrors == old(jobErrors)
      ensures old(status) != Finished && died.Some? ==>
                && saved == Committed(old(saved), lines, ImportRow, batch, died.value)
                && status == (if noticed then Failed else Running)
                && jobErrors == old(jobErrors) + if noticed then 1 else 0
      ensures old(status) != Finished && died.None? ==>
                && saved == Working(old(saved), lines, ImportRow, |lines|)
                && status == (if saved.state.failed > 0 then Partial else Finished)
                && jobErrors == old(jobErrors)
      ensures Open() == saved
    {
      Rollback();
      if status == Finished {
        return;
      }
      status := Running;
      if died.Some? {
        ReadRows(lines, batch, died.value);
        Rollback();
        if noticed {
          status := Failed;
          jobErrors := jobErrors + 1;
        }
      } else {
        ReadRows(lines, batch, |lines|);
        status := if failed > 0 then Partial else Finished;
        Commit();
      }
    }
  }
}
