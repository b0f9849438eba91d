/** Facts about products and quotients of reals that proofs cite one at a time. */
module Reals {

  /** A product, named so that proofs can hide what it is. */
  function Times(x: real, y: real): real { x * y }

  lemma DivideThenMultiply(a: real, d: real)
    requires d != 0.0
    ensures Times(a / d, d) == a
  {
  }

  lemma Distribute(x: real, y: real, c: real)
    ensures Times(x + y, c) == Times(x, c) + Times(y, c)
  {
  }

  lemma SameSign(x: real, y: real)
    requires (x > 0.0 && y > 0.0) || (x < 0.0 && y < 0.0)
    ensures Times(x, y) > 0.0
  {
  }

  function Square(d: real): (r: real)
    ensures d == 0.0 ==> r == 0.0
    ensures d != 0.0 ==> r > 0.0
  {
    if d == 0.0 then 0.0 else (SameSign(d, d); Times(d, d))
  }

  lemma ZeroProduct(x: real, c: real)
    ensures Times(x, c) == 0.0 <==> x == 0.0 || c == 0.0
  {
  }

  lemma Regroup(x: real, c: real)
    ensures Times(Times(x, x), Times(c, c)) == Times(Times(x, c), Times(x, c))
  {
  }

  lemma ProductOfSquares(x: real, c: real)
    ensures Times(Square(x), Square(c)) == Square(Times(x, c))
  {
    hide Times;
    ZeroProduct(x, c);
    ZeroProduct(Square(x), Square(c));
    Regroup(x, c);
  }

  lemma Cancel(x: real, y: real, c: real)
    requires c != 0.0 && Times(x, c) == Times(y, c)
    ensures x == y
  {
    assert Times(x - y, c) == 0.0;
    hide Times;
    ZeroProduct(x - y, c);
  }

  /** A larger factor gives a larger product. */
  lemma Scale(x: real, y: real, c: real)
    requires c > 0.0 && x < y
    ensures Times(x, c) < Times(y, c)
  {
    Distribute(y - x, x, c);
    SameSign(y - x, c);
    assert y - x + x == y;
    hide Times;
  }

  lemma ScaleOrder(x: real, y: real, c: real)
    requires c > 0.0
    ensures Times(x, c) <= Times(y, c) <==> x <= y
    ensures Times(x, c) < Times(y, c) <==> x < y
  {
    hide Times;
    if x < y {
      Scale(x, y, c);
    } else if y < x {
      Scale(y, x, c);
    }
  }

  lemma DivideOrder(x: real, y: real, c: real)
    requires c > 0.0
    ensures x / c <= y / c <==> x <= y
    ensures x / c < y / c <==> x < y
  {
    hide Times;
    DivideThenMultiply(x, c);
    DivideThenMultiply(y, c);
    ScaleOrder(x / c, y / c, c);
  }

  lemma ProductMonotone(x: real, y: real, c: real)
    requires x <= y && c >= 0.0
    ensures Times(x, c) <= Times(y, c)
  {
    ZeroProduct(x, 0.0);
    ZeroProduct(y, 0.0);
    hide Times;
    if c > 0.0 {
      ScaleOrder(x, y, c);
    }
  }

  /** The weighted sum `w` lies between the bounds times the weight `a`. */
  predicate Within(low: real, high: real, a: real, w: real) {
    Times(low, a) <= w <= Times(high, a)
  }

  lemma WithinQuotient(low: real, high: real, a: real, w: real)
    requires a > 0.0 && Within(low, high, a, w)
    ensures low <= w / a <= high
  {
    hide Times;
    DivideThenMultiply(w, a);
    ScaleOrder(low, w / a, a);
    ScaleOrder(w / a, high, a);
  }

  lemma WithinNothing(low: real, high: real)
    ensures Within(low, high, 0.0, 0.0)
  {
  }

  lemma Commute(x: real, y: real)
    ensures Times(x, y) == Times(y, x)
  {
  }

  lemma Unit(x: real)
    ensures Times(1.0, x) == x
  {
  }

  lemma WithinTerm(low: real, high: real, a: real, w: real, v: real, c: real)
    requires Within(low, high, a, w) && low <= v <= high && c >= 0.0
    ensures Within(low, high, a + c, w + Times(v, c))
  {
    hide Times;
    ProductMonotone(low, v, c);
    ProductMonotone(v, high, c);
    Distribute(a, c, low);
    Distribute(a, c, high);
    Commute(low, a + c);
    Commute(low, a);
    Commute(low, c);
    Commute(high, a + c);
    Commute(high, a);
    Commute(high, c);
  }
}
