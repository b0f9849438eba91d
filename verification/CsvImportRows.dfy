/**
 One row of a CSV import, column by column: which rows are stored, what every
 column of the stored row holds, and which issue a refused row leaves.
 */
module CsvImportRows {
  import opened Common
  import opened CsvImport
  import opened CsvImportTheorems

  // ----- cells and columns

  /** The column holds the number of the cell, or nothing for an empty one. */
  predicate Holds(column: Option<real>, cell: Cell) {
    match cell
    case Empty => column == None
    case Number(x) => column == Some(x)
    case Garbled => false
  }

  /** `k` is `x` without its fraction. */
  predicate WholePart(k: int, x: real) {
    if x >= 0.0 then 0 <= k && k as real <= x < (k + 1) as real else k <= 0 && (k - 1) as real < x <= k as real
  }

  predicate HoldsWhole(column: Option<int>, cell: Cell) {
    match cell
    case Empty => column == None
    case Number(x) => column.Some? && WholePart(column.value, x)
    case Garbled => false
  }

  predicate Inside(cell: Cell, limit: real) {
    cell.Number? ==> -limit <= cell.x <= limit
  }

  lemma TruncateIsWholePart(x: real)
    ensures WholePart(Truncate(x), x)
  {
  }

  // ----- hotels

  predicate Named(r: Row)
    requires r.HotelRow?
  {
    r.locationId.Some? && r.name.Some? && r.city.Some?
  }

  /** Identified, named and located, with coordinates in range and numbers that parse. */
  predicate CompleteHotel(r: Row)
    requires r.HotelRow?
  {
    && Named(r)
    && !r.latitude.Garbled? && Inside(r.latitude, 90.0)
    && !r.longitude.Garbled? && Inside(r.longitude, 180.0)
    && !r.hotelRating.Garbled? && !r.reviewCount.Garbled? && !r.rank.Garbled?
  }

  /** Every column of a stored hotel is that of its own cell. */
  predicate Describes(r: Row, h: Hotel)
    requires r.HotelRow? && Named(r)
  {
    && h.name == r.name.value && h.city == Folded(r.city.value) && h.details == r.hotelDetails && h.active
    && Holds(h.latitude, r.latitude) && Holds(h.longitude, r.longitude) && Holds(h.rating, r.hotelRating)
    && HoldsWhole(h.reviewCount, r.reviewCount) && HoldsWhole(h.rank, r.rank)
  }

  lemma HotelWritesIff(r: Row)
    requires r.HotelRow?
    ensures HotelWrites(r).Ok? <==> CompleteHotel(r)
    ensures HotelWrites(r).Ok? ==> var d := HotelWrites(r).value; var id := r.locationId.value;
      && d.hotels.Keys == {id} && Describes(r, d.hotels[id])
      && d == HotelTables(id, d.hotels[id], r.image)
    ensures HotelWrites(r).Err? ==> !HotelWrites(r).error.OrphanReview?
    ensures HotelWrites(r) == Err(InvalidLatitude) <==>
      Named(r) && r.latitude.Number? && !Inside(r.latitude, 90.0)
    ensures HotelWrites(r) == Err(InvalidLongitude) <==>
      Named(r) && !r.latitude.Garbled? && Inside(r.latitude, 90.0) && r.longitude.Number? && !Inside(r.longitude, 180.0)
    ensures HotelWrites(r).Err? ==> !HotelWrites(r).error.InvalidReviewRating? && !HotelWrites(r).error.InvalidDate?
  {
    if r.reviewCount.Number? { TruncateIsWholePart(r.reviewCount.x); }
    if r.rank.Number? { TruncateIsWholePart(r.rank.x); }
    hide Truncate, WholePart;
  }

  /**
   A hotel row is stored exactly when it is complete. Then the hotel under its
   identifier is described by the row, column by column, within the ranges of
   latitudes and longitudes; its city is known, its image is the primary one, and
   all other hotels and all reviews stay as they are. Otherwise nothing changes.
   */
  lemma HotelRowStoredIff(s: State, n: nat, r: Row)
    requires r.HotelRow?
    ensures var after := ImportRow(s, n, r);
      && after.recordsRead == s.recordsRead + 1
      && (after.failed == s.failed <==> CompleteHotel(r))
      && (!CompleteHotel(r) ==> after.tables == s.tables && after.failed == s.failed + 1 && after.inserted == s.inserted && after.updated == s.updated)
      && (CompleteHotel(r) ==>
            var id := r.locationId.value; var t := after.tables;
            && id in t.hotels && Describes(r, t.hotels[id])
            && (t.hotels[id].latitude.Some? ==> -90.0 <= t.hotels[id].latitude.value <= 90.0)
            && (t.hotels[id].longitude.Some? ==> -180.0 <= t.hotels[id].longitude.value <= 180.0)
            && (forall other :: other != id ==> (other in t.hotels <==> other in s.tables.hotels))
            && (forall other :: other != id && other in t.hotels ==> t.hotels[other] == s.tables.hotels[other])
            && t.cities == s.tables.cities + {Folded(r.city.value)}
            && t.reviews == s.tables.reviews && t.reviewImages == s.tables.reviewImages
            && after.inserted == s.inserted + (if id in s.tables.hotels then 0 else 1)
            && after.updated == s.updated + (if id in s.tables.hotels then 1 else 0))
  {
    HotelWritesIff(r);
    hide HotelWrites, IssuesOf, CityNotes, CompleteHotel;
    if CompleteHotel(r) {
      var id := r.locationId.value;
      var hotel := HotelWrites(r).value.hotels[id];
      assert CompleteHotel(r) ==> Inside(r.latitude, 90.0) && Inside(r.longitude, 180.0) by { CompleteIsInside(r); }
      MergedHotel(s.tables, id, hotel, r.image);
      hide Merge, HotelTables, Inserts;
    }
  }

  lemma CompleteIsInside(r: Row)
    requires r.HotelRow? && CompleteHotel(r)
    ensures Inside(r.latitude, 90.0) && Inside(r.longitude, 180.0)
  {
  }

  lemma MergedHotel(t: Tables, id: string, hotel: Hotel, image: Option<string>)
    ensures var d := HotelTables(id, hotel, image); var merged := Merge(t, d);
      && merged.hotels == t.hotels[id := hotel] && merged.cities == t.cities + {hotel.city}
      && merged.reviews == t.reviews && merged.reviewImages == t.reviewImages
      && (Inserts(t, d) <==> id !in t.hotels)
      && (image.None? ==> merged.hotelImages == t.hotelImages && merged.primaryImages == t.primaryImages)
      && (image.Some? ==> merged.hotelImages == t.hotelImages + {(id, image.value)} && merged.primaryImages == t.primaryImages[id := image.value])
  {
  }

  /** A stored hotel's image joins its images and becomes the primary one; without one the images stay. */
  lemma HotelImageIsPrimary(s: State, n: nat, r: Row)
    requires r.HotelRow? && CompleteHotel(r)
    ensures var t := ImportRow(s, n, r).tables; var id := r.locationId.value;
      && (r.image.None? ==> t.hotelImages == s.tables.hotelImages && t.primaryImages == s.tables.primaryImages)
      && (r.image.Some? ==> t.hotelImages == s.tables.hotelImages + {(id, r.image.value)} && t.primaryImages == s.tables.primaryImages[id := r.image.value])
  {
    HotelWritesIff(r);
    var id := r.locationId.value;
    MergedHotel(s.tables, id, HotelWrites(r).value.hotels[id], r.image);
    hide HotelWrites, IssuesOf, CityNotes, CompleteHotel, Merge, HotelTables;
  }

  /** A refused hotel row leaves one issue under its number and identifier, which names a coordinate exactly when that is the first thing wrong. */
  lemma HotelRefusal(s: State, n: nat, r: Row)
    requires r.HotelRow? && !CompleteHotel(r)
    ensures var after := ImportRow(s, n, r).issues;
      && |after| == |s.issues| + 1 && after[..|s.issues|] == s.issues
      && var issue := after[|s.issues|];
      && issue.row == n && issue.entity == r.locationId
      && (issue.kind.InvalidLatitudeIssue? <==> Named(r) && r.latitude.Number? && !Inside(r.latitude, 90.0))
      && (issue.kind.InvalidLongitudeIssue? <==>
            Named(r) && !r.latitude.Garbled? && Inside(r.latitude, 90.0) && r.longitude.Number? && !Inside(r.longitude, 180.0))
      && (issue.kind.InvalidLatitudeIssue? || issue.kind.InvalidLongitudeIssue? || issue.kind.ImportValidationError?)
  {
    HotelWritesIff(r);
    hide HotelWrites, CityNotes, CompleteHotel, Merge, Named;
  }

  /** A new city is noted once, with the hotel that brought it. */
  lemma NewCityIsNoted(s: State, n: nat, r: Row)
    requires r.HotelRow? && CompleteHotel(r)
    ensures ImportRow(s, n, r).issues == s.issues +
      if Folded(r.city.value) in s.tables.cities then [] else [Issue(AutoCreatedCity, n, r.locationId)]
  {
    HotelWritesIff(r);
    hide HotelWrites, CompleteHotel, Merge;
  }

  // ----- reviews

  /** The scale of a review; none, or a scale of zero, means five. */
  function ScaleUsed(cell: Cell): real {
    if cell.Number? && cell.x != 0.0 then cell.x else 5.0
  }

  predicate OfKnownHotel(hotels: map<string, Hotel>, r: Row)
    requires r.ReviewRow?
  {
    r.hotelId.Some? && r.hotelId.value in hotels && hotels[r.hotelId.value].active
  }

  predicate Rated(r: Row)
    requires r.ReviewRow?
  {
    r.reviewId.Some? && r.reviewRating.Number? && !r.scale.Garbled?
  }

  /** Of a known active hotel, identified and rated within its scale, with a date that parses or none. */
  predicate CompleteReview(hotels: map<string, Hotel>, r: Row)
    requires r.ReviewRow?
  {
    OfKnownHotel(hotels, r) && Rated(r) && 0.0 <= r.reviewRating.x <= ScaleUsed(r.scale) && !r.date.BadDate?
  }

  predicate DescribesReview(r: Row, v: Review)
    requires r.ReviewRow?
  {
    && r.hotelId == Some(v.hotelId) && r.reviewRating == Number(v.rating) && v.scale == ScaleUsed(r.scale)
    && v.details == r.reviewDetails
    && match r.date case Day(day) => v.date == Some(day) case _ => v.date == None
  }

  lemma ReviewWritesIff(hotels: map<string, Hotel>, r: Row)
    requires r.ReviewRow?
    ensures ReviewWrites(hotels, r).Ok? <==> CompleteReview(hotels, r)
    ensures ReviewWrites(hotels, r).Ok? ==> var d := ReviewWrites(hotels, r).value; var id := r.reviewId.value;
      && d.reviews.Keys == {id} && DescribesReview(r, d.reviews[id])
      && d == ReviewTables(id, d.reviews[id], r.images)
    ensures ReviewWrites(hotels, r) == Err(OrphanReview) <==> r.hotelId.Some? && !OfKnownHotel(hotels, r)
    ensures ReviewWrites(hotels, r) == Err(InvalidReviewRating) <==>
      OfKnownHotel(hotels, r) && Rated(r) && !(0.0 <= r.reviewRating.x <= ScaleUsed(r.scale))
    ensures ReviewWrites(hotels, r) == Err(InvalidDate) <==>
      OfKnownHotel(hotels, r) && Rated(r) && 0.0 <= r.reviewRating.x <= ScaleUsed(r.scale) && r.date.BadDate?
    ensures ReviewWrites(hotels, r).Err? ==> !ReviewWrites(hotels, r).error.InvalidLatitude? && !ReviewWrites(hotels, r).error.InvalidLongitude?
  {
    hide ReviewImages, NormalizeRating;
  }

  lemma MergedReview(t: Tables, id: string, review: Review, images: seq<string>)
    ensures var d := ReviewTables(id, review, images); var merged := Merge(t, d);
      && merged.reviews == t.reviews[id := review] && merged.reviewImages == t.reviewImages + ReviewImages(id, images)
      && merged.hotels == t.hotels && merged.cities == t.cities
      && merged.hotelImages == t.hotelImages && merged.primaryImages == t.primaryImages
      && (Inserts(t, d) <==> id !in t.reviews)
  {
    hide ReviewImages;
  }

  /** Images are kept under the review, each at its last place in the list. */
  lemma {:induction false} ImagePlaces(id: string, urls: seq<string>, key: (string, string))
    ensures key in ReviewImages(id, urls) <==> key.0 == id && key.1 in urls
    ensures key in ReviewImages(id, urls) ==>
      var place := ReviewImages(id, urls)[key];
      place < |urls| && urls[place] == key.1 && forall i :: place < i < |urls| ==> urls[i] != key.1
  {
    if urls != [] {
      ImagePlaces(id, urls[..|urls| - 1], key);
      assert urls == urls[..|urls| - 1] + [urls[|urls| - 1]];
    }
  }

  /**
   A review row is stored exactly when it is complete. Then the review under its
   identifier is described by the row, its rating is brought to the scale of five,
   and all other reviews and all hotels stay as they are. Otherwise nothing changes.
   */
  lemma ReviewRowStoredIff(s: State, n: nat, r: Row)
    requires r.ReviewRow?
    ensures var after := ImportRow(s, n, r); var complete := CompleteReview(s.tables.hotels, r);
      && after.recordsRead == s.recordsRead + 1
      && (after.failed == s.failed <==> complete)
      && (!complete ==> after.tables == s.tables && after.failed == s.failed + 1 && after.inserted == s.inserted && after.updated == s.updated)
      && (complete ==>
            var id := r.reviewId.value; var t := after.tables;
            && id in t.reviews && DescribesReview(r, t.reviews[id])
            && t.reviews[id].normalized * t.reviews[id].scale == 5.0 * t.reviews[id].rating
            && t.reviews == s.tables.reviews[id := t.reviews[id]]
            && t.hotels == s.tables.hotels && t.cities == s.tables.cities
            && t.hotelImages == s.tables.hotelImages && t.primaryImages == s.tables.primaryImages
            && after.issues == s.issues
            && after.inserted == s.inserted + (if id in s.tables.reviews then 0 else 1)
            && after.updated == s.updated + (if id in s.tables.reviews then 1 else 0))
  {
    ReviewWritesIff(s.tables.hotels, r);
    hide ReviewWrites, IssuesOf, CompleteReview, DescribesReview;
    if CompleteReview(s.tables.hotels, r) {
      var id := r.reviewId.value;
      var review := ReviewWrites(s.tables.hotels, r).value.reviews[id];
      AcceptedRatingIsExact(s.tables.hotels, r, id);
      MergedReview(s.tables, id, review, r.images);
      assert s.issues + [] == s.issues;
      hide Merge, ReviewTables, Inserts;
    }
  }

  /** The images of a stored review are those of its row at their last places; images of other reviews, and earlier ones of this one, stay. */
  lemma ReviewImagesArePlaced(s: State, n: nat, r: Row, key: (string, string))
    requires r.ReviewRow? && CompleteReview(s.tables.hotels, r)
    ensures var images := ImportRow(s, n, r).tables.reviewImages; var id := r.reviewId.value;
      && (key in images <==> key in s.tables.reviewImages || (key.0 == id && key.1 in r.images))
      && (key in images && key.0 == id && key.1 in r.images ==>
            images[key] < |r.images| && r.images[images[key]] == key.1 && forall i :: images[key] < i < |r.images| ==> r.images[i] != key.1)
      && (key in images && !(key.0 == id && key.1 in r.images) ==> images[key] == s.tables.reviewImages[key])
  {
    ReviewWritesIff(s.tables.hotels, r);
    var id := r.reviewId.value;
    MergedReview(s.tables, id, ReviewWrites(s.tables.hotels, r).value.reviews[id], r.images);
    ImagePlaces(id, r.images, key);
    hide ReviewWrites, IssuesOf, CompleteReview, DescribesReview, Merge, ReviewTables, ReviewImages;
  }

  /** A refused review row leaves its issue, and two more when its hotel is unknown. */
  lemma ReviewRefusal(s: State, n: nat, r: Row)
    requires r.ReviewRow? && !CompleteReview(s.tables.hotels, r)
    ensures var after := ImportRow(s, n, r).issues; var orphan := r.hotelId.Some? && !OfKnownHotel(s.tables.hotels, r);
      && |after| == |s.issues| + (if orphan then 3 else 1) && after[..|s.issues|] == s.issues
      && (forall i :: |s.issues| <= i < |after| ==> after[i].row == n && after[i].entity == r.reviewId)
      && var kind := after[|s.issues|].kind;
      && (kind.OrphanReviewIssue? <==> orphan)
      && (orphan ==> after[|s.issues| + 1].kind.UnknownHotelLocationId? && after[|s.issues| + 2].kind.MissingSourceMapping?)
      && (kind.InvalidReviewRatingIssue? <==>
            OfKnownHotel(s.tables.hotels, r) && Rated(r) && !(0.0 <= r.reviewRating.x <= ScaleUsed(r.scale)))
      && (kind.InvalidDateIssue? <==>
            OfKnownHotel(s.tables.hotels, r) && Rated(r) && 0.0 <= r.reviewRating.x <= ScaleUsed(r.scale) && r.date.BadDate?)
      && (kind.OrphanReviewIssue? || kind.InvalidReviewRatingIssue? || kind.InvalidDateIssue? || kind.ImportValidationError?)
  {
    ReviewWritesIff(s.tables.hotels, r);
    hide ReviewWrites, CompleteReview, OfKnownHotel, Rated;
  }
}
