/** Small facts about real multiplication and division that the solver does not find on its own. */
module Arith {

  /** A product of two non-negative numbers is non-negative. */
  lemma MulNonneg(a: real, b: real)
    requires 0.0 <= a && 0.0 <= b
    ensures 0.0 <= a * b
  {
  }

  /** A product of two positive numbers is positive. */
  lemma MulPos(a: real, b: real)
    requires 0.0 < a && 0.0 < b
    ensures 0.0 < a * b
  {
  }

  /** `v / w * w == v` for `w != 0`. */
  lemma DivMul(v: real, w: real)
    requires w != 0.0
    ensures (v / w) * w == v
  {
  }

  /** `v * w / w == v` for `w != 0`. */
  lemma MulDiv(v: real, w: real)
    requires w != 0.0
    ensures (v * w) / w == v
  {
  }

  /** For 0 <= v <= w with w > 0, `v / w` lies in [0, 1]. */
  lemma DivWithin(v: real, w: real)
    requires 0.0 <= v <= w && 0.0 < w
    ensures 0.0 <= v / w <= 1.0
  {
    var q := v / w;
    DivMul(v, w);
    if q < 0.0 {
      MulPos(-q, w);
    }
    if q > 1.0 {
      MulPos(q - 1.0, w);
    }
  }
}
