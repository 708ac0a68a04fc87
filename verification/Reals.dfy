/** Arithmetic on reals that several components need. */
module Reals {

  function Max(x: real, y: real): real {
    if x >= y then x else y
  }

  function Clamp01(x: real): real {
    if x < 0.0 then 0.0 else if x > 1.0 then 1.0 else x
  }

  predicate Unit(x: real) {
    0.0 <= x <= 1.0
  }

  /** Multiplication, named so that proofs can treat a product as one value. */
  function Times(x: real, y: real): real {
    x * y
  }

  lemma TimesMonotone(w: real, x: real, y: real)
    requires w >= 0.0 && x <= y
    ensures Times(w, x) <= Times(w, y)
  {
    TimesNonNegative(w, y - x);
    TimesDifference(w, x, y);
  }

  lemma TimesNonNegative(x: real, y: real)
    requires x >= 0.0 && y >= 0.0
    ensures Times(x, y) >= 0.0
  {}

  lemma TimesDifference(w: real, x: real, y: real)
    ensures Times(w, y - x) == Times(w, y) - Times(w, x)
  {}

  lemma TimesStrict(x: real, y: real, d: real)
    requires x < y && d > 0.0
    ensures Times(x, d) < Times(y, d)
  {
    TimesPositive(y - x, d);
    TimesDifference(d, x, y);
    TimesCommutes(x, d);
    TimesCommutes(y, d);
    TimesCommutes(y - x, d);
  }

  lemma TimesPositive(x: real, y: real)
    requires x > 0.0 && y > 0.0
    ensures Times(x, y) > 0.0
  {}

  lemma TimesCommutes(x: real, y: real)
    ensures Times(x, y) == Times(y, x)
  {}

  lemma TimesAssociates(x: real, y: real, z: real)
    ensures Times(Times(x, y), z) == Times(x, Times(y, z))
  {}

  lemma TimesUnit(y: real)
    ensures Times(1.0, y) == y && Times(0.0, y) == 0.0
  {}

  lemma QuotientTimes(x: real, y: real)
    requires y != 0.0
    ensures Times(x / y, y) == x
  {}

  lemma QuotientAdds(x: real, x': real, y: real)
    requires y != 0.0
    ensures (x + x') / y == x / y + x' / y
  {}

  lemma QuotientsCross(x: real, x': real, y: real)
    requires y != 0.0
    ensures Times(x / y, x') == Times(x' / y, x)
  {
    calc {
      Times(x / y, x');
      x * x' / y;
      Times(x' / y, x);
    }
  }

  /** Division by a positive number keeps the order. */
  lemma QuotientOrder(x: real, x': real, y: real)
    requires y > 0.0
    ensures x <= x' <==> x / y <= x' / y
  {
    var q, q' := x / y, x' / y;
    QuotientTimes(x, y);
    QuotientTimes(x', y);
    hide Times;
    if q < q' {
      TimesStrict(q, q', y);
    } else if q' < q {
      TimesStrict(q', q, y);
    }
  }

  lemma QuotientSelf(y: real)
    requires y > 0.0
    ensures y / y == 1.0 && 0.0 / y == 0.0
  {}

  /** Where a quotient stands with respect to 0 and 1. */
  lemma Ratio(x: real, y: real)
    requires y > 0.0
    ensures x <= y <==> x / y <= 1.0
    ensures x >= y <==> x / y >= 1.0
    ensures x >= 0.0 <==> x / y >= 0.0
  {
    QuotientSelf(y);
    QuotientOrder(x, y, y);
    QuotientOrder(y, x, y);
    QuotientOrder(0.0, x, y);
  }
}
