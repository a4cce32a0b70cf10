/**
 * What generateNoise.js and generate.js do with `Math.random()` draws:
 * `choose(...choices)`, which both files define the same way (the choice at
 * index `Math.floor(Math.random() * choices.length)`), and `Math.round`.
 */
module Draws {

  import opened Wrappers
  import opened Arith

  /** `Math.floor(r * n)`: the index a draw `r` picks among `n` choices. */
  function ChooseIndex(n: nat, r: real): int {
    (r * n as real).Floor
  }

  /**
   * `choose(...choices)` for the draw `r`: `None` stands for `undefined`,
   * which an index outside the choices gives.
   */
  function Choose<T>(choices: seq<T>, r: real): Option<T> {
    var i := ChooseIndex(|choices|, r);
    if 0 <= i < |choices| then Some(choices[i]) else None
  }

  /** A draw in [0, 1) picks an index in [0, n - 1]. */
  lemma ChooseIndexInRange(n: nat, r: real)
    requires n >= 1 && 0.0 <= r < 1.0
    ensures 0 <= ChooseIndex(n, r) < n
  {
    assert 0.0 <= r * n as real < n as real;
  }

  /** A draw in [0, 1) always picks one of the choices, when there are any. */
  lemma ChooseOneOf<T>(choices: seq<T>, r: real)
    requires |choices| >= 1 && 0.0 <= r < 1.0
    ensures Choose(choices, r).Some? && Choose(choices, r).value in choices
  {
    ChooseIndexInRange(|choices|, r);
  }

  /** A draw in [0, 1) scales a count `n` into [0, n], where rounding keeps it. */
  lemma ScaleWithin(r: real, n: nat)
    ensures 0.0 <= r < 1.0 ==> 0 <= Round(r * n as real) <= n
  {
    if 0.0 <= r < 1.0 {
      var w := n as real;
      MulNonneg(r, w);
      MulNonneg(1.0 - r, w);
      assert w - r * w == (1.0 - r) * w;
      RoundBetween(r * w, 0, n);
    }
  }

  /** `Math.round`: the nearest integer, halves rounded up. */
  function Round(v: real): int {
    (v + 0.5).Floor
  }

  /** `Math.round` lies within one half of its argument. */
  lemma RoundNear(v: real)
    ensures v - 0.5 < Round(v) as real <= v + 0.5
  {
  }

  /** For `v` in [lo, hi] with integer ends, `Math.round(v)` lies in [lo, hi]. */
  lemma RoundBetween(v: real, lo: int, hi: int)
    requires lo as real <= v <= hi as real
    ensures lo <= Round(v) <= hi
  {
  }

  /** Rounding commutes with shifting by an integer. */
  lemma RoundShift(v: real, n: int)
    ensures Round(v - n as real) + n == Round(v)
  {
    assert (v - n as real + 0.5) == (v + 0.5) - n as real;
  }
}
