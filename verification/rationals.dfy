/** Exact fractions for the reports that divide: return rates (a mean of a
    boolean column), average order value and percentage growth. The
    dashboard computes these in floating point; here they are kept exact. */
module Rationals {

  type Pos = n: int | n > 0 witness 1

  /** The fraction num / den. */
  datatype Ratio = Ratio(num: int, den: Pos)

  /** a <= b as fractions. */
  predicate RatioLe(a: Ratio, b: Ratio) {
    a.num * b.den <= b.num * a.den
  }

  /** a and b denote the same number. */
  predicate SameValue(a: Ratio, b: Ratio) {
    a.num * b.den == b.num * a.den
  }

  /** A fraction in [0, 1]. */
  predicate IsProportion(a: Ratio) {
    0 <= a.num <= a.den
  }

  lemma MulLeRight(x: int, y: int, z: int)
    requires x <= y && z > 0
    ensures x * z <= y * z
  {
  }

  lemma {:induction false} RatioLeTransitive(a: Ratio, b: Ratio, c: Ratio)
    requires RatioLe(a, b) && RatioLe(b, c)
    ensures RatioLe(a, c)
  {
    // scale a <= b by c.den and b <= c by a.den, then cancel b.den
    MulLeRight(a.num * b.den, b.num * a.den, c.den);
    MulLeRight(b.num * c.den, c.num * b.den, a.den);
    assert (a.num * c.den) * b.den <= (c.num * a.den) * b.den by {
      assert (a.num * c.den) * b.den == (a.num * b.den) * c.den;
      assert (b.num * a.den) * c.den == (b.num * c.den) * a.den;
      assert (c.num * a.den) * b.den == (c.num * b.den) * a.den;
    }
    if a.num * c.den > c.num * a.den {
      MulLeRight(c.num * a.den + 1, a.num * c.den, b.den);
      assert false;
    }
  }
}
