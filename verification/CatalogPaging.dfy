/**
 Hotel search and hotel reviews as their services page through them. Cursors are
 the dictionaries a client sends back, so they are checked before use.
 */
module CatalogPaging {
  import opened Common
  import opened Sorting
  import opened Keyset

  datatype Result<+T> = Ok(value: T) | InvalidCursor

  // ----- hotels

  datatype HotelSort = NameAsc | RatingDesc | ReviewCountDesc | ById

  datatype Hotel = Hotel(id: nat, name: string, rating: Option<real>, reviews: Option<int>)

  datatype HotelCursor = HotelCursor(id: Option<nat>, name: Option<string>, rating: Option<real>, reviews: Option<int>)

  datatype HotelPage = HotelPage(items: seq<Hotel>, next: Option<HotelCursor>)

  function RatingKey(h: Hotel): real {
    if h.rating.Some? then h.rating.value else -1.0
  }

  function ReviewsKey(h: Hotel): int {
    if h.reviews.Some? then h.reviews.value else -1
  }

  function HotelPosition(sort: HotelSort): Hotel -> Position {
    (h: Hotel) => Position(
      match sort
      case NameAsc => Name(h.name)
      case RatingDesc => Number(RatingKey(h))
      case ReviewCountDesc => Number(ReviewsKey(h) as real)
      case ById => NoKey, h.id)
  }

  function HotelOrder(sort: HotelSort): Order {
    Order(sort.RatingDesc? || sort.ReviewCountDesc?, false)
  }

  function EncodeHotel(sort: HotelSort, h: Hotel): HotelCursor {
    HotelCursor(
      Some(h.id),
      if sort.NameAsc? then Some(h.name) else None,
      if sort.RatingDesc? then Some(RatingKey(h)) else None,
      if sort.ReviewCountDesc? then Some(ReviewsKey(h)) else None)
  }

  function DecodeHotel(sort: HotelSort, c: HotelCursor): Result<Position> {
    if c.id.None? then InvalidCursor
    else
      match sort
      case NameAsc => if c.name.None? then InvalidCursor else Ok(Position(Name(c.name.value), c.id.value))
      case RatingDesc => if c.rating.None? then InvalidCursor else Ok(Position(Number(c.rating.value), c.id.value))
      case ReviewCountDesc => if c.reviews.None? then InvalidCursor else Ok(Position(Number(c.reviews.value as real), c.id.value))
      case ById => Ok(Position(NoKey, c.id.value))
  }

  function SearchHotels(catalog: seq<Hotel>, keep: Hotel -> bool, sort: HotelSort, limit: nat, cursor: Option<HotelCursor>): Result<HotelPage> {
    if cursor.Some? && DecodeHotel(sort, cursor.value).InvalidCursor? then InvalidCursor
    else
      var behind := if cursor.Some? then Some(DecodeHotel(sort, cursor.value).value) else None;
      var rows := Fetch(Filter(catalog, keep), HotelOrder(sort), HotelPosition(sort), behind, limit);
      var items := if |rows| > limit then rows[..limit] else rows;
      Ok(HotelPage(items, if |rows| > limit && items != [] then Some(EncodeHotel(sort, items[|items| - 1])) else None))
  }

  function HotelListing(catalog: seq<Hotel>, keep: Hotel -> bool, sort: HotelSort): seq<Hotel> {
    Listing(Filter(catalog, keep), HotelOrder(sort), HotelPosition(sort))
  }

  predicate DistinctHotels(catalog: seq<Hotel>) {
    forall i, j :: 0 <= i < j < |catalog| ==> catalog[i].id != catalog[j].id
  }

  /** The cursor of a row leads back to the row's position, and only under a sort that needs no other value. */
  lemma HotelCursorRoundTrip(sort: HotelSort, other: HotelSort, h: Hotel)
    ensures DecodeHotel(sort, EncodeHotel(sort, h)) == Ok(HotelPosition(sort)(h))
    ensures DecodeHotel(other, EncodeHotel(sort, h)).Ok? <==> other == sort || other == ById
  {
  }

  lemma {:induction false} FilterKeepsDistinct(catalog: seq<Hotel>, keep: Hotel -> bool)
    requires DistinctHotels(catalog)
    ensures DistinctHotels(Filter(catalog, keep))
  {
    var apart := (a: Hotel, b: Hotel) => a.id != b.id;
    assert Separates(apart, catalog);
    FilterSeparates(catalog, keep, apart);
    var kept := Filter(catalog, keep);
    forall i, j | 0 <= i < j < |kept| ensures kept[i].id != kept[j].id {
      assert apart(kept[j], kept[i]) ==> apart(kept[i], kept[j]);
    }
  }

  lemma HotelsFormTable(catalog: seq<Hotel>, keep: Hotel -> bool, sort: HotelSort)
    requires DistinctHotels(catalog)
    ensures Table(Filter(catalog, keep), HotelPosition(sort))
  {
    FilterKeepsDistinct(catalog, keep);
  }

  /** The cursor sent after `i` hotels have been shown. */
  ghost function HotelCursorAt(listing: seq<Hotel>, sort: HotelSort, i: nat): Option<HotelCursor>
    requires i <= |listing|
  {
    if i == 0 then None else Some(EncodeHotel(sort, listing[i - 1]))
  }

  lemma HotelPageAt(catalog: seq<Hotel>, keep: Hotel -> bool, sort: HotelSort, limit: nat, i: nat)
    requires DistinctHotels(catalog) && limit > 0
    requires i <= |HotelListing(catalog, keep, sort)|
    ensures var listing := HotelListing(catalog, keep, sort);
      var j := if i + limit <= |listing| then i + limit else |listing|;
      SearchHotels(catalog, keep, sort, limit, HotelCursorAt(listing, sort, i)) ==
      Ok(HotelPage(listing[i..j], if j < |listing| then HotelCursorAt(listing, sort, j) else None))
  {
    hide Filter, Fetch, Listing, DecodeHotel, EncodeHotel;
    HotelsFormTable(catalog, keep, sort);
    var listing := HotelListing(catalog, keep, sort);
    PageAt(Filter(catalog, keep), HotelOrder(sort), HotelPosition(sort), limit, i);
    if i > 0 {
      HotelCursorRoundTrip(sort, sort, listing[i - 1]);
    }
  }

  /** Following the cursors shows every matching hotel once, in order, on as few pages as the limit allows. */
  method FollowHotelCursors(catalog: seq<Hotel>, keep: Hotel -> bool, sort: HotelSort, limit: nat)
    returns (all: seq<Hotel>, pages: nat)
    requires DistinctHotels(catalog) && limit > 0
    ensures all == HotelListing(catalog, keep, sort)
    ensures multiset(all) == multiset(Filter(catalog, keep))
    ensures Ascending(Before(HotelOrder(sort), HotelPosition(sort)), all)
    ensures pages == PageCount(|all|, limit)
  {
    hide Filter, SearchHotels, PageCount, Listing, Before;
    ghost var listing := HotelListing(catalog, keep, sort);
    HotelListingIsSorted(catalog, keep, sort);
    all, pages := [], 0;
    var cursor: Option<HotelCursor> := None;
    while true
      invariant |all| == pages * limit && |all| <= |listing| && all == listing[..|all|]
      invariant cursor == HotelCursorAt(listing, sort, |all|)
      invariant |all| < |listing| || |all| == |listing| == 0
      decreases |listing| - |all|
    {
      HotelPageAt(catalog, keep, sort, limit, |all|);
      var page := SearchHotels(catalog, keep, sort, limit, cursor).value;
      if page.next.None? {
        PagesAddUp(|listing|, limit, pages, |all|);
        all := all + page.items;
        pages := pages + 1;
        assert all == listing;
        return;
      }
      all := all + page.items;
      pages := pages + 1;
      cursor := page.next;
    }
  }

  lemma HotelListingIsSorted(catalog: seq<Hotel>, keep: Hotel -> bool, sort: HotelSort)
    requires DistinctHotels(catalog)
    ensures Ascending(Before(HotelOrder(sort), HotelPosition(sort)), HotelListing(catalog, keep, sort))
    ensures multiset(HotelListing(catalog, keep, sort)) == multiset(Filter(catalog, keep))
  {
    hide Before, Filter;
    HotelsFormTable(catalog, keep, sort);
    BeforeIsStrict(HotelOrder(sort), HotelPosition(sort));
    BeforeSeparates(Filter(catalog, keep), HotelOrder(sort), HotelPosition(sort));
    SortAscends(Filter(catalog, keep), Before(HotelOrder(sort), HotelPosition(sort)));
    SortPermutes(Filter(catalog, keep), Before(HotelOrder(sort), HotelPosition(sort)));
  }

  /** Down a listing names rise, or ratings fall, or review counts fall, hotels without one coming last; ties and the plain listing follow the identifiers. */
  lemma HotelsAreListedByField(catalog: seq<Hotel>, keep: Hotel -> bool, sort: HotelSort, i: nat, j: nat)
    requires DistinctHotels(catalog) && i < j < |HotelListing(catalog, keep, sort)|
    ensures var a, b := HotelListing(catalog, keep, sort)[i], HotelListing(catalog, keep, sort)[j];
      match sort
      case NameAsc => LexLess(a.name, b.name) || (a.name == b.name && a.id < b.id)
      case RatingDesc =>
        && (b.rating.Some? && b.rating.value > -1.0 ==> a.rating.Some? && a.rating.value >= b.rating.value)
        && (a.rating == b.rating ==> a.id < b.id)
      case ReviewCountDesc =>
        && (b.reviews.Some? && b.reviews.value > -1 ==> a.reviews.Some? && a.reviews.value >= b.reviews.value)
        && (a.reviews == b.reviews ==> a.id < b.id)
      case ById => a.id < b.id
  {
    hide HotelListing, LexLess;
    HotelListingIsSorted(catalog, keep, sort);
    var a, b := HotelListing(catalog, keep, sort)[i], HotelListing(catalog, keep, sort)[j];
    assert Before(HotelOrder(sort), HotelPosition(sort))(a, b);
    NothingIsBeforeItself(a.name);
  }

  lemma NothingIsBeforeItself(s: string)
    ensures !LexLess(s, s)
  {
    LexTrichotomy(s, s);
  }

  // ----- reviews

  datatype ReviewSort = Newest | Oldest | RatingHigh | RatingLow

  /** Dates are day numbers; the rating is the normalized one. */
  datatype Review = Review(id: nat, date: Option<int>, rating: real)

  datatype ReviewCursor = ReviewCursor(sort: Option<ReviewSort>, value: Option<real>, id: Option<nat>)

  datatype ReviewPage = ReviewPage(items: seq<Review>, next: Option<ReviewCursor>)

  const FIRST_DAY := 1
  const LAST_DAY := 3652059

  function ReviewKey(sort: ReviewSort, r: Review): real {
    match sort
    case Newest => (if r.date.Some? then r.date.value else FIRST_DAY) as real
    case Oldest => (if r.date.Some? then r.date.value else LAST_DAY) as real
    case _ => r.rating
  }

  function ReviewPosition(sort: ReviewSort): Review -> Position {
    (r: Review) => Position(Number(ReviewKey(sort, r)), r.id)
  }

  function ReviewOrder(sort: ReviewSort): Order {
    var descending := sort.Newest? || sort.RatingHigh?;
    Order(descending, descending)
  }

  function EncodeReview(sort: ReviewSort, r: Review): ReviewCursor {
    ReviewCursor(Some(sort), Some(ReviewKey(sort, r)), Some(r.id))
  }

  function DecodeReview(sort: ReviewSort, c: ReviewCursor): Result<Position> {
    if (c.sort.Some? && c.sort.value != sort) || c.id.None? || c.value.None? then InvalidCursor
    else Ok(Position(Number(c.value.value), c.id.value))
  }

  function ReviewsForHotel(reviews: seq<Review>, keep: Review -> bool, sort: ReviewSort, limit: nat, cursor: Option<ReviewCursor>): Result<ReviewPage> {
    if cursor.Some? && DecodeReview(sort, cursor.value).InvalidCursor? then InvalidCursor
    else
      var behind := if cursor.Some? then Some(DecodeReview(sort, cursor.value).value) else None;
      var rows := Fetch(Filter(reviews, keep), ReviewOrder(sort), ReviewPosition(sort), behind, limit);
      var items := if |rows| > limit then rows[..limit] else rows;
      Ok(ReviewPage(items, if |rows| > limit && items != [] then Some(EncodeReview(sort, items[|items| - 1])) else None))
  }

  function ReviewListing(reviews: seq<Review>, keep: Review -> bool, sort: ReviewSort): seq<Review> {
    Listing(Filter(reviews, keep), ReviewOrder(sort), ReviewPosition(sort))
  }

  predicate DistinctReviews(reviews: seq<Review>) {
    forall i, j :: 0 <= i < j < |reviews| ==> reviews[i].id != reviews[j].id
  }

  lemma ReviewCursorRoundTrip(sort: ReviewSort, other: ReviewSort, r: Review)
    ensures DecodeReview(sort, EncodeReview(sort, r)) == Ok(ReviewPosition(sort)(r))
    ensures DecodeReview(other, EncodeReview(sort, r)).Ok? <==> other == sort
  {
  }

  lemma ReviewsFormTable(reviews: seq<Review>, keep: Review -> bool, sort: ReviewSort)
    requires DistinctReviews(reviews)
    ensures Table(Filter(reviews, keep), ReviewPosition(sort))
  {
    var apart := (a: Review, b: Review) => a.id != b.id;
    assert Separates(apart, reviews);
    FilterSeparates(reviews, keep, apart);
    var kept := Filter(reviews, keep);
    forall i, j | 0 <= i < j < |kept| ensures kept[i].id != kept[j].id {
      assert apart(kept[j], kept[i]) ==> apart(kept[i], kept[j]);
    }
  }

  ghost function ReviewCursorAt(listing: seq<Review>, sort: ReviewSort, i: nat): Option<ReviewCursor>
    requires i <= |listing|
  {
    if i == 0 then None else Some(EncodeReview(sort, listing[i - 1]))
  }

  lemma ReviewPageAt(reviews: seq<Review>, keep: Review -> bool, sort: ReviewSort, limit: nat, i: nat)
    requires DistinctReviews(reviews) && limit > 0
    requires i <= |ReviewListing(reviews, keep, sort)|
    ensures var listing := ReviewListing(reviews, keep, sort);
      var j := if i + limit <= |listing| then i + limit else |listing|;
      ReviewsForHotel(reviews, keep, sort, limit, ReviewCursorAt(listing, sort, i)) ==
      Ok(ReviewPage(listing[i..j], if j < |listing| then ReviewCursorAt(listing, sort, j) else None))
  {
    hide Filter, Fetch, Listing, DecodeReview, EncodeReview;
    ReviewsFormTable(reviews, keep, sort);
    var listing := ReviewListing(reviews, keep, sort);
    PageAt(Filter(reviews, keep), ReviewOrder(sort), ReviewPosition(sort), limit, i);
    if i > 0 {
      ReviewCursorRoundTrip(sort, sort, listing[i - 1]);
    }
  }

  /** The same for reviews, dated or not, when no mention filter repeats rows. */
  method FollowReviewCursors(reviews: seq<Review>, keep: Review -> bool, sort: ReviewSort, limit: nat)
    returns (all: seq<Review>, pages: nat)
    requires DistinctReviews(reviews) && limit > 0
    ensures all == ReviewListing(reviews, keep, sort)
    ensures multiset(all) == multiset(Filter(reviews, keep))
    ensures Ascending(Before(ReviewOrder(sort), ReviewPosition(sort)), all)
    ensures pages == PageCount(|all|, limit)
  {
    hide Filter, ReviewsForHotel, PageCount, Listing, Before;
    ghost var listing := ReviewListing(reviews, keep, sort);
    ReviewListingIsSorted(reviews, keep, sort);
    all, pages := [], 0;
    var cursor: Option<ReviewCursor> := None;
    while true
      invariant |all| == pages * limit && |all| <= |listing| && all == listing[..|all|]
      invariant cursor == ReviewCursorAt(listing, sort, |all|)
      invariant |all| < |listing| || |all| == |listing| == 0
      decreases |listing| - |all|
    {
      ReviewPageAt(reviews, keep, sort, limit, |all|);
      var page := ReviewsForHotel(reviews, keep, sort, limit, cursor).value;
      if page.next.None? {
        PagesAddUp(|listing|, limit, pages, |all|);
        all := all + page.items;
        pages := pages + 1;
        assert all == listing;
        return;
      }
      all := all + page.items;
      pages := pages + 1;
      cursor := page.next;
    }
  }

  lemma ReviewListingIsSorted(reviews: seq<Review>, keep: Review -> bool, sort: ReviewSort)
    requires DistinctReviews(reviews)
    ensures Ascending(Before(ReviewOrder(sort), ReviewPosition(sort)), ReviewListing(reviews, keep, sort))
    ensures multiset(ReviewListing(reviews, keep, sort)) == multiset(Filter(reviews, keep))
  {
    hide Before, Filter;
    ReviewsFormTable(reviews, keep, sort);
    BeforeIsStrict(ReviewOrder(sort), ReviewPosition(sort));
    BeforeSeparates(Filter(reviews, keep), ReviewOrder(sort), ReviewPosition(sort));
    SortAscends(Filter(reviews, keep), Before(ReviewOrder(sort), ReviewPosition(sort)));
    SortPermutes(Filter(reviews, keep), Before(ReviewOrder(sort), ReviewPosition(sort)));
  }

  /** Down a listing dates fall or rise, or ratings fall or rise; ties go by identifier in the same direction, and undated reviews come last either way. */
  lemma ReviewsAreListedByField(reviews: seq<Review>, keep: Review -> bool, sort: ReviewSort, i: nat, j: nat)
    requires DistinctReviews(reviews) && i < j < |ReviewListing(reviews, keep, sort)|
    ensures var a, b := ReviewListing(reviews, keep, sort)[i], ReviewListing(reviews, keep, sort)[j];
      match sort
      case Newest =>
        && (b.date.Some? && b.date.value > FIRST_DAY ==> a.date.Some? && a.date.value >= b.date.value)
        && (a.date == b.date ==> a.id > b.id)
      case Oldest =>
        && (b.date.Some? && a.date.Some? ==> a.date.value <= b.date.value)
        && (b.date.Some? && b.date.value < LAST_DAY ==> a.date.Some?)
        && (a.date == b.date ==> a.id < b.id)
      case RatingHigh => a.rating >= b.rating && (a.rating == b.rating ==> a.id > b.id)
      case RatingLow => a.rating <= b.rating && (a.rating == b.rating ==> a.id < b.id)
  {
    hide ReviewListing;
    ReviewListingIsSorted(reviews, keep, sort);
    var a, b := ReviewListing(reviews, keep, sort)[i], ReviewListing(reviews, keep, sort)[j];
    assert Before(ReviewOrder(sort), ReviewPosition(sort))(a, b);
  }
}
