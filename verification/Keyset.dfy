/**
 Keyset pagination: a page holds the first rows behind the cursor position, one
 more row is fetched to see whether another page follows, and the next cursor is
 the position of the last row shown.
 */
module Keyset {
  import opened Common
  import opened Sorting

  datatype Key = Name(text: string) | Number(x: real) | NoKey

  datatype Position = Position(key: Key, id: nat)

  datatype Order = Order(keyDescending: bool, idDescending: bool)

  predicate LexLess(a: string, b: string) {
    b != "" && (a == "" || a[0] < b[0] || (a[0] == b[0] && LexLess(a[1..], b[1..])))
  }

  predicate KeyLess(a: Key, b: Key) {
    || (a.Name? && b.Name? && LexLess(a.text, b.text))
    || (a.Number? && b.Number? && a.x < b.x)
  }

  predicate SameKind(a: Key, b: Key) {
    a.Name? == b.Name? && a.Number? == b.Number?
  }

  /** `p` is listed ahead of `q`. */
  predicate Precedes(order: Order, p: Position, q: Position) {
    || (if order.keyDescending then KeyLess(q.key, p.key) else KeyLess(p.key, q.key))
    || (p.key == q.key && (if order.idDescending then q.id < p.id else p.id < q.id))
  }

  function Before<T>(order: Order, pos: T -> Position): (T, T) -> bool {
    (a, b) => Precedes(order, pos(a), pos(b))
  }

  function Behind<T>(order: Order, pos: T -> Position, cursor: Option<Position>): T -> bool {
    x => cursor.None? || Precedes(order, cursor.value, pos(x))
  }

  function Listing<T>(rows: seq<T>, order: Order, pos: T -> Position): seq<T> {
    Sort(rows, Before(order, pos))
  }

  /** The query: rows behind the cursor, in order, one more than the page shows. */
  function Fetch<T>(rows: seq<T>, order: Order, pos: T -> Position, cursor: Option<Position>, limit: nat): seq<T> {
    var found := Listing(Filter(rows, Behind(order, pos, cursor)), order, pos);
    if |found| <= limit + 1 then found else found[..limit + 1]
  }

  datatype Page<T> = Page(items: seq<T>, next: Option<Position>)

  function Cut<T>(fetched: seq<T>, pos: T -> Position, limit: nat): Page<T> {
    var items := if |fetched| > limit then fetched[..limit] else fetched;
    Page(items, if |fetched| > limit && items != [] then Some(pos(items[|items| - 1])) else None)
  }

  /** The rows of one table, whose positions are comparable and never tie. */
  ghost predicate Table<T>(rows: seq<T>, pos: T -> Position) {
    && (forall i, j :: 0 <= i < j < |rows| ==> pos(rows[i]).id != pos(rows[j]).id)
    && (forall i, j :: 0 <= i < j < |rows| ==> SameKind(pos(rows[i]).key, pos(rows[j]).key))
  }

  function PageCount(n: nat, limit: nat): nat
    requires limit > 0
  {
    if n == 0 then 1 else (n + limit - 1) / limit
  }

  // ----- the order

  lemma {:induction false} LexTrichotomy(a: string, b: string)
    ensures !(LexLess(a, b) && LexLess(b, a))
    ensures LexLess(a, b) || LexLess(b, a) || a == b
    ensures a == b ==> !LexLess(a, b)
  {
    if a != "" && b != "" && a[0] == b[0] {
      LexTrichotomy(a[1..], b[1..]);
      assert a[1..] == b[1..] ==> a == [a[0]] + a[1..] == b;
    }
  }

  lemma {:induction false} LexTransitive(a: string, b: string, c: string)
    requires LexLess(a, b) && LexLess(b, c)
    ensures LexLess(a, c)
  {
    if a != "" && a[0] == b[0] && b[0] == c[0] {
      LexTransitive(a[1..], b[1..], c[1..]);
    }
  }

  lemma KeysAreOrdered(a: Key, b: Key, c: Key)
    ensures !KeyLess(a, a)
    ensures KeyLess(a, b) && KeyLess(b, c) ==> KeyLess(a, c)
    ensures SameKind(a, b) ==> KeyLess(a, b) || KeyLess(b, a) || a == b
  {
    if a.Name? {
      LexTrichotomy(a.text, a.text);
      if b.Name? {
        LexTrichotomy(a.text, b.text);
        if c.Name? && LexLess(a.text, b.text) && LexLess(b.text, c.text) {
          LexTransitive(a.text, b.text, c.text);
        }
      }
    }
  }

  lemma PositionsAreOrdered(order: Order, p: Position, q: Position, r: Position)
    ensures !Precedes(order, p, p)
    ensures Precedes(order, p, q) && Precedes(order, q, r) ==> Precedes(order, p, r)
    ensures SameKind(p.key, q.key) && p.id != q.id ==> Precedes(order, p, q) || Precedes(order, q, p)
  {
    hide KeyLess;
    KeysAreOrdered(p.key, q.key, r.key);
    KeysAreOrdered(r.key, q.key, p.key);
  }

  lemma BeforeIsStrict<T(!new)>(order: Order, pos: T -> Position)
    ensures StrictOrder(Before(order, pos))
  {
    hide Precedes;
    var before := Before(order, pos);
    forall a ensures !before(a, a) {
      PositionsAreOrdered(order, pos(a), pos(a), pos(a));
    }
    forall a, b, c | before(a, b) && before(b, c) ensures before(a, c) {
      PositionsAreOrdered(order, pos(a), pos(b), pos(c));
    }
  }

  lemma BeforeSeparates<T(!new)>(rows: seq<T>, order: Order, pos: T -> Position)
    requires Table(rows, pos)
    ensures Separates(Before(order, pos), rows)
  {
    hide Precedes;
    forall i, j | 0 <= i < j < |rows| ensures Before(order, pos)(rows[i], rows[j]) || Before(order, pos)(rows[j], rows[i]) {
      PositionsAreOrdered(order, pos(rows[i]), pos(rows[j]), pos(rows[j]));
    }
  }

  // ----- pages

  lemma {:induction false} FilterSuffix<T>(s: seq<T>, keep: T -> bool, i: nat)
    requires i <= |s|
    requires forall j :: 0 <= j < i ==> !keep(s[j])
    requires forall j :: i <= j < |s| ==> keep(s[j])
    ensures Filter(s, keep) == s[i..]
  {
    if s != [] {
      if i == 0 {
        FilterSuffix(s[1..], keep, 0);
      } else {
        FilterSuffix(s[1..], keep, i - 1);
      }
    }
  }

  /** The cursor that has shown the first `i` rows of the listing. */
  ghost function CursorAt<T>(listing: seq<T>, pos: T -> Position, i: nat): Option<Position>
    requires i <= |listing|
  {
    if i == 0 then None else Some(pos(listing[i - 1]))
  }

  /** In an ascending listing exactly the rows from `i` on are behind its cursor. */
  lemma BehindFrom<T(!new)>(listing: seq<T>, order: Order, pos: T -> Position, i: nat, k: nat)
    requires Ascending(Before(order, pos), listing) && i <= |listing| && k < |listing|
    ensures Behind(order, pos, CursorAt(listing, pos, i))(listing[k]) <==> i <= k
  {
    hide Precedes;
    if 0 < i {
      var last, p := pos(listing[i - 1]), pos(listing[k]);
      PositionsAreOrdered(order, last, p, last);
      PositionsAreOrdered(order, last, last, last);
      assert k < i - 1 ==> Before(order, pos)(listing[k], listing[i - 1]);
      assert i <= k ==> Before(order, pos)(listing[i - 1], listing[k]);
    }
  }

  lemma FoundAt<T(!new)>(rows: seq<T>, order: Order, pos: T -> Position, i: nat)
    requires Table(rows, pos)
    requires i <= |Listing(rows, order, pos)|
    ensures var listing := Listing(rows, order, pos);
      Listing(Filter(rows, Behind(order, pos, CursorAt(listing, pos, i))), order, pos) == listing[i..]
  {
    var listing := Listing(rows, order, pos);
    var behind := Behind(order, pos, CursorAt(listing, pos, i));
    BeforeIsStrict<T>(order, pos);
    BeforeSeparates(rows, order, pos);
    SortAscends(rows, Before(order, pos));
    FilterSort(rows, behind, Before(order, pos));
    hide Before, Behind, Sort, Filter, CursorAt;
    forall k | 0 <= k < |listing| ensures behind(listing[k]) <==> i <= k {
      BehindFrom(listing, order, pos, i, k);
    }
    FilterSuffix(listing, behind, i);
  }

  /** The page behind the first `i` rows of the listing is the next `limit` rows. */
  lemma PageAt<T(!new)>(rows: seq<T>, order: Order, pos: T -> Position, limit: nat, i: nat)
    requires Table(rows, pos) && limit > 0
    requires i <= |Listing(rows, order, pos)|
    ensures var listing := Listing(rows, order, pos);
      var j := if i + limit <= |listing| then i + limit else |listing|;
      Cut(Fetch(rows, order, pos, CursorAt(listing, pos, i), limit), pos, limit) ==
      Page(listing[i..j], if j < |listing| then CursorAt(listing, pos, j) else None)
  {
    hide Listing, Filter, Behind;
    FoundAt(rows, order, pos, i);
  }

  lemma PagesAddUp(n: nat, limit: nat, pages: nat, shown: nat)
    requires limit > 0 && shown == pages * limit && (shown < n || shown == n == 0) && n <= shown + limit
    ensures pages + 1 == PageCount(n, limit)
  {
    if n > 0 {
      var rest := n + limit - 1 - (pages + 1) * limit;
      assert 0 <= rest < limit;
      QuotientIs(n + limit - 1, limit, pages + 1, rest);
    }
  }

  lemma {:induction false} NextMultiple(x: nat, y: nat, b: nat)
    ensures x < y ==> x * b + b <= y * b
  {
    if x < y {
      NextMultiple(x, y - 1, b);
      assert y * b == (y - 1) * b + b;
    }
  }

  lemma QuotientIs(a: nat, b: nat, q: nat, r: nat)
    requires b > 0 && a == q * b + r && r < b
    ensures a / b == q
  {
    var d := a / b;
    assert a == d * b + a % b;
    NextMultiple(d, q, b);
    NextMultiple(q, d, b);
  }
}
