/**
 * The seeded random source of the expression synthesiser
 * (`SeededRandom` in generateFunction.js): the Park–Miller "minimal standard"
 * Lehmer generator, state' = state * 16807 mod (2^31 - 1).
 * All arithmetic here is exact integer arithmetic, as it is in the source,
 * whose intermediate products stay below 2^53.
 */
module ParkMiller {

  /** The modulus, the Mersenne prime 2^31 - 1. */
  const M: int := 2147483647
  /** The multiplier, 7^5. */
  const A: int := 16807
  /** The inverse of A modulo M: A * AInv == 1 + 11017 * M. */
  const AInv: int := 1407677000

  /** The states the generator is meant to cycle through. */
  predicate InRange(s: int) {
    1 <= s <= M - 1
  }

  /** JavaScript's `%`, which truncates toward zero (Dafny's `%` is Euclidean). */
  function JsRem(a: int, b: int): (r: int)
    requires b > 0
    ensures a >= 0 ==> 0 <= r < b
    ensures a < 0 ==> -b < r <= 0
    ensures a >= 0 ==> r == a % b
  {
    if a >= 0 then a % b else -((-a) % b)
  }

  /**
   * The constructor exactly as written: `seed % M`, and a result that is not
   * positive is shifted up by 2147483646 (that is, M - 1, not M).
   */
  function InitStateAsWritten(seed: int): (s: int)
    ensures 0 <= s <= M - 1
  {
    var r := JsRem(seed, M);
    if r <= 0 then r + 2147483646 else r
  }

  /**
   * The constructor with the one degenerate outcome repaired: the state 0,
   * which the written code produces for seed -2147483646, is replaced by
   * M - 1, the state that seed 0 gets.
   */
  function InitState(seed: int): (s: int)
    ensures InRange(s)
    ensures InitStateAsWritten(seed) != 0 ==> s == InitStateAsWritten(seed)
    ensures 0 < seed < M ==> s == seed
    ensures seed % M == 0 ==> s == M - 1
  {
    var s0 := InitStateAsWritten(seed);
    if s0 == 0 then M - 1 else s0
  }

  /** One step of `next()`: the new state. */
  function NextState(s: int): int {
    (s * A) % M
  }

  /** The value `next()` returns for the new state `s`. */
  function Draw(s: int): real {
    (s - 1) as real / (M - 1) as real
  }

  /** `n` steps of the generator. */
  function NextN(s: int, n: nat): int
    decreases n
  {
    if n == 0 then s else NextN(NextState(s), n - 1)
  }

  /** Adding a multiple of M does not change the remainder. */
  lemma ModAddMultiple(k: int, x: int)
    ensures (k * M + x) % M == x % M
  {
    var q, r := x / M, x % M;
    assert x == q * M + r && 0 <= r < M;
    assert k * M + x == (k + q) * M + r;
  }

  /**
   * Because A is invertible modulo M, s is recovered from s * A mod M:
   * s ≡ (s * A mod M) * AInv.
   */
  lemma {:induction false} RecoverFromNext(s: int)
    ensures s % M == (NextState(s) * AInv) % M
  {
    var t := NextState(s);
    var q := (s * A) / M;
    assert s * A == q * M + t;
    assert A * AInv == 1 + 11017 * M;
    calc {
      s + (s * 11017) * M;
      s * (A * AInv);
      (s * A) * AInv;
      (q * M + t) * AInv;
      (q * AInv) * M + t * AInv;
    }
    assert s == (q * AInv - s * 11017) * M + t * AInv;
    ModAddMultiple(q * AInv - s * 11017, t * AInv);
  }

  /**
   * `next()` keeps the state in [1, M - 1]: M is prime, so a state that M
   * does not divide is never multiplied to a multiple of M.
   */
  lemma {:induction false} NextStateInRange(s: int)
    requires InRange(s)
    ensures InRange(NextState(s))
  {
    RecoverFromNext(s);
    assert s % M == s;
  }

  /** Every value `next()` returns from a state in range lies in [0, 1). */
  lemma DrawInUnit(s: int)
    requires InRange(s)
    ensures 0.0 <= Draw(s) < 1.0
  {
  }

  /** A state in range stays in range however many steps are taken. */
  lemma {:induction false} NextNInRange(s: int, n: nat)
    requires InRange(s)
    ensures InRange(NextN(s, n))
    decreases n
  {
    if n > 0 {
      NextStateInRange(s);
      NextNInRange(NextState(s), n - 1);
    }
  }

  /** Taking a steps and then b steps is taking a + b steps. */
  lemma {:induction false} NextNAdd(s: int, a: nat, b: nat)
    ensures NextN(NextN(s, a), b) == NextN(s, a + b)
    decreases a
  {
    if a > 0 {
      NextNAdd(NextState(s), a - 1, b);
    }
  }

  /**
   * As written, seed -2147483646 yields the state 0, which `next()` never
   * leaves, and every draw is then -1/(2^31 - 2), outside [0, 1).
   */
  lemma {:induction false} AsWrittenSeedSticksAtZero(n: nat)
    ensures InitStateAsWritten(-2147483646) == 0
    ensures NextN(InitStateAsWritten(-2147483646), n) == 0
    ensures Draw(NextN(InitStateAsWritten(-2147483646), n)) < 0.0
    decreases n
  {
    assert JsRem(-2147483646, M) == -2147483646;
    if n > 0 {
      AsWrittenSeedSticksAtZero(n - 1);
      assert NextN(0, n) == NextN(NextState(0), n - 1);
    }
  }

  /**
   * The written constructor yields the state 0 exactly for the negative
   * seeds one above a multiple of M (-2147483646 is the first of them);
   * for every other seed it agrees with `InitState`.
   */
  lemma AsWrittenZeroExactly(seed: int)
    ensures InitStateAsWritten(seed) == 0 <==> seed < 0 && seed % M == 1
  {
    if seed < 0 {
      var q, r := (-seed) / M, (-seed) % M;
      assert JsRem(seed, M) == -r;
      assert seed == (-q - 1) * M + (M - r);
      ModAddMultiple(-q - 1, M - r);
      if r == 0 {
        assert (M - r) % M == 0;
      } else {
        assert (M - r) % M == M - r;
      }
    }
  }

  /** The generator `new SeededRandom(seed)` creates and `next()` advances. */
  class SeededRandom {
    var seed: int

    /** `new SeededRandom(seed0)`, with the zero state repaired. */
    constructor (seed0: int)
      ensures seed == InitState(seed0)
    {
      var s := JsRem(seed0, M);
      if s <= 0 {
        s := s + 2147483646;
      }
      if s == 0 {
        s := M - 1;
      }
      seed := s;
    }

    /** `next()`: advance the state and return a draw derived from it. */
    method Next() returns (r: real)
      modifies this
      ensures seed == NextState(old(seed)) && r == Draw(seed)
      ensures InRange(old(seed)) ==> InRange(seed) && 0.0 <= r < 1.0
    {
      seed := (seed * A) % M;
      r := (seed - 1) as real / 2147483646.0;
      if InRange(old(seed)) {
        NextStateInRange(old(seed));
      }
    }
  }
}
