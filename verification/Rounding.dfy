/** Decimal rounding with ties to even, as the ranking rounds its figures. */
module Rounding {
  import opened Reals

  function RoundHalfEven(x: real): int {
    var f := x.Floor;
    var rest := x - f as real;
    if rest < 0.5 then f
    else if rest > 0.5 then f + 1
    else if f % 2 == 0 then f else f + 1
  }

  /** `x` rounded to multiples of `1 / scale`. */
  function RoundTo(x: real, scale: real): real
    requires scale > 0.0
  {
    RoundHalfEven(Times(x, scale)) as real / scale
  }

  lemma RoundHalfEvenMonotone(x: real, y: real)
    requires x <= y
    ensures RoundHalfEven(x) <= RoundHalfEven(y)
  {
    assert x.Floor <= y.Floor;
  }

  lemma RoundHalfEvenFixesIntegers(n: int)
    ensures RoundHalfEven(n as real) == n
  {
  }

  lemma RoundToMonotone(x: real, y: real, scale: real)
    requires x <= y && scale > 0.0
    ensures RoundTo(x, scale) <= RoundTo(y, scale)
  {
    hide Times, RoundHalfEven;
    ProductMonotone(x, y, scale);
    RoundHalfEvenMonotone(Times(x, scale), Times(y, scale));
    DivideOrder(RoundHalfEven(Times(x, scale)) as real, RoundHalfEven(Times(y, scale)) as real, scale);
  }

  lemma RoundToFixes(n: int, scale: real)
    requires scale > 0.0
    ensures RoundTo(n as real / scale, scale) == n as real / scale
  {
    var q := n as real / scale;
    DivideThenMultiply(n as real, scale);
    RoundHalfEvenFixesIntegers(n);
    hide RoundHalfEven, Times;
    RoundToAt(q, scale, n as real);
  }

  lemma RoundToAt(x: real, scale: real, y: real)
    requires scale > 0.0 && Times(x, scale) == y
    ensures RoundTo(x, scale) == RoundHalfEven(y) as real / scale
  {
    hide RoundHalfEven, Times;
  }

  /** The result is the nearest multiple, and the even one of two that are equally near. */
  lemma RoundToIsNearest(x: real, scale: real)
    requires scale > 0.0
    ensures var k := RoundHalfEven(Times(x, scale));
      && RoundTo(x, scale) == k as real / scale
      && -0.5 <= k as real - Times(x, scale) <= 0.5
      && (k as real - Times(x, scale) == 0.5 || k as real - Times(x, scale) == -0.5 ==> k % 2 == 0)
      && Times(RoundTo(x, scale), scale) == k as real
  {
    DivideThenMultiply(RoundHalfEven(Times(x, scale)) as real, scale);
    hide Times;
  }

  /** Rounding moves a figure by at most half a unit of its last digit. */
  lemma HalfAUnit(x: real, scale: real)
    requires scale > 0.0
    ensures -0.5 / scale <= RoundTo(x, scale) - x <= 0.5 / scale
  {
    RoundToIsNearest(x, scale);
    hide RoundTo, RoundHalfEven;
    var e := RoundTo(x, scale) - x;
    Distribute(RoundTo(x, scale), -x, scale);
    assert Times(-x, scale) == -Times(x, scale);
    hide Times;
    DivideThenMultiply(0.5, scale);
    DivideThenMultiply(-0.5, scale);
    ScaleOrder(e, 0.5 / scale, scale);
    ScaleOrder(-0.5 / scale, e, scale);
  }
}
