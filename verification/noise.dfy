/**
 * generateNoise.js: the `Noise` object (a 512-entry permutation table of
 * bytes, gradient noise in two dimensions and its sum over octaves) and the
 * parameters `generateNoise` draws.  `Math.random` draws are parameters.
 */
module PerlinNoise {

  import opened Wrappers
  import opened Draws
  import opened Arith

  /** What storing a number in a `Uint8Array` keeps: truncate toward zero, then modulo 256. */
  function ToUint8(v: real): (r: int)
    ensures 0 <= r < 256
  {
    var t := if v >= 0.0 then v.Floor else -((-v).Floor);
    t % 256
  }

  /** A draw in [0, 1) times 256 is stored as its integer part. */
  lemma ToUint8OfDraw(r: real)
    requires 0.0 <= r < 1.0
    ensures ToUint8(r * 256.0) == (r * 256.0).Floor
  {
    assert 0.0 <= r * 256.0 < 256.0;
  }

  /** `Math.floor(v) & 255`: the lattice cell of a coordinate, wrapped to 0..255. */
  function Cell(v: real): (c: int)
    ensures 0 <= c < 256
  {
    v.Floor % 256
  }

  /** `lerp(t, a, b)`. */
  function Lerp(t: real, a: real, b: real): real {
    a + t * (b - a)
  }

  /** `lerp` starts at `a` and ends at `b`. */
  lemma LerpEnds(a: real, b: real)
    ensures Lerp(0.0, a, b) == a && Lerp(1.0, a, b) == b
  {
  }

  /** For `t` in [0, 1], `lerp` of two values in [-1, 1] stays in [-1, 1]. */
  lemma LerpBounded(t: real, a: real, b: real)
    requires 0.0 <= t <= 1.0 && -1.0 <= a <= 1.0 && -1.0 <= b <= 1.0
    ensures -1.0 <= Lerp(t, a, b) <= 1.0
  {
    assert Lerp(t, a, b) + 1.0 == (1.0 - t) * (a + 1.0) + t * (b + 1.0);
    assert 1.0 - Lerp(t, a, b) == (1.0 - t) * (1.0 - a) + t * (1.0 - b);
    MulNonneg(1.0 - t, a + 1.0);
    MulNonneg(t, b + 1.0);
    MulNonneg(1.0 - t, 1.0 - a);
    MulNonneg(t, 1.0 - b);
  }

  function Pow2(k: nat): (r: nat)
    ensures r >= 1
  {
    if k == 0 then 1 else 2 * Pow2(k - 1)
  }

  /**
   * `grad2d(i, x, y)`: `x` when bit 0 of `i` (`i & 1`) is clear, else `y`;
   * negated when bit 1 (`i & 2`) is clear.
   */
  function Grad2d(i: int, x: real, y: real): real {
    var v := if i % 2 == 0 then x else y;
    if (i / 2) % 2 == 0 then -v else v
  }

  /** The four gradients, by the low two bits of `i`. */
  lemma GradCases(i: int, x: real, y: real)
    ensures i % 4 == 0 ==> Grad2d(i, x, y) == -x
    ensures i % 4 == 1 ==> Grad2d(i, x, y) == -y
    ensures i % 4 == 2 ==> Grad2d(i, x, y) == x
    ensures i % 4 == 3 ==> Grad2d(i, x, y) == y
  {
    var q := i / 4;
    var r := i % 4;
    assert i == 4 * q + r;
    assert i / 2 == 2 * q + r / 2;
    assert (i / 2) % 2 == r / 2;
    assert i % 2 == r % 2;
  }

  /** The gradient of a point of the unit cell lies in [-1, 1]. */
  lemma GradBounded(i: int, x: real, y: real)
    requires -1.0 <= x <= 1.0 && -1.0 <= y <= 1.0
    ensures -1.0 <= Grad2d(i, x, y) <= 1.0
  {
  }

  /** The fade `(3 - 2x) x^2`. */
  function Fade(x: real): real {
    (3.0 - 2.0 * x) * x * x
  }

  /** The fade of a point of the unit interval lies in [0, 1]. */
  lemma FadeRange(x: real)
    requires 0.0 <= x < 1.0
    ensures 0.0 <= Fade(x) <= 1.0
  {
    MulNonneg(x, x);
    MulNonneg(x * x, 3.0 - 2.0 * x);
    assert Fade(x) == (x * x) * (3.0 - 2.0 * x);
    MulNonneg(1.0 - x, 1.0 - x);
    MulNonneg((1.0 - x) * (1.0 - x), 1.0 + 2.0 * x);
    assert 1.0 - Fade(x) == ((1.0 - x) * (1.0 - x)) * (1.0 + 2.0 * x);
  }

  /** `1 / 2^k`: the weight `e` of octave `k`. */
  function Half(k: nat): (r: real)
    ensures 0.0 < r <= 1.0
  {
    if k == 0 then 1.0 else Half(k - 1) / 2.0
  }

  /** A permutation table as `init` leaves it: 512 bytes. */
  predicate TableValid(t: seq<int>) {
    |t| == 512 && forall i :: 0 <= i < 512 ==> 0 <= t[i] < 256
  }

  /**
   * `noise2d(x2d, y2d)` over table `t`: every index read (`X`, `X + 1`,
   * `p0`, `p0 + 1`, `p1`, `p1 + 1`) lies in 0..511, and the value in [-1, 1].
   */
  function Noise2d(t: seq<int>, x2d: real, y2d: real): (v: real)
    requires TableValid(t)
    ensures -1.0 <= v <= 1.0
  {
    var X := Cell(x2d);
    var Y := Cell(y2d);
    var x := x2d - x2d.Floor as real;
    var y := y2d - y2d.Floor as real;
    var fx := Fade(x);
    var fy := Fade(y);
    var p0 := t[X] + Y;
    var p1 := t[X + 1] + Y;
    FadeRange(x);
    FadeRange(y);
    GradBounded(t[p0], x, y);
    GradBounded(t[p1], x - 1.0, y);
    GradBounded(t[p0 + 1], x, y - 1.0);
    GradBounded(t[p1 + 1], x - 1.0, y - 1.0);
    var near := Lerp(fx, Grad2d(t[p0], x, y), Grad2d(t[p1], x - 1.0, y));
    var far := Lerp(fx, Grad2d(t[p0 + 1], x, y - 1.0), Grad2d(t[p1 + 1], x - 1.0, y - 1.0));
    LerpBounded(fx, Grad2d(t[p0], x, y), Grad2d(t[p1], x - 1.0, y));
    LerpBounded(fx, Grad2d(t[p0 + 1], x, y - 1.0), Grad2d(t[p1 + 1], x - 1.0, y - 1.0));
    LerpBounded(fy, near, far);
    Lerp(fy, near, far)
  }

  /** The value of `s` after `n` octaves: octave `i` adds `e (1 + noise2d(k x, k y)) / 2`. */
  function OctaveSum(t: seq<int>, x: real, y: real, n: nat): real
    requires TableValid(t)
  {
    if n == 0 then 0.0
    else
      OctaveSum(t, x, y, n - 1) + Octave(t, x, y, n)
  }

  /** A coordinate at frequency `k`. */
  function Scale(k: real, v: real): real {
    k * v
  }

  /** What octave `n` adds: weight `e = 2^-n` at frequency `k = 2^(n-1)`, at most `e`. */
  function Octave(t: seq<int>, x: real, y: real, n: nat): (r: real)
    requires TableValid(t) && n >= 1
    ensures 0.0 <= r <= Half(n)
  {
    var k := Pow2(n - 1) as real;
    Weighted(Half(n), Noise2d(t, Scale(k, x), Scale(k, y)))
  }

  /** `e * (1 + v) / 2`: a noise value in [-1, 1] mapped to [0, e]. */
  function Weighted(e: real, v: real): (r: real)
    requires 0.0 <= e && -1.0 <= v <= 1.0
    ensures 0.0 <= r <= e
  {
    MulNonneg(e, 1.0 + v);
    MulNonneg(e, 1.0 - v);
    (e * (1.0 + v)) / 2.0
  }

  /** The loop's weighted noise is octave `n`'s term, and its `k * 2` the next frequency. */
  lemma OctaveTerm(t: seq<int>, x: real, y: real, n: nat, s: real, e: real, k: real, v: real)
    requires TableValid(t) && n >= 1
    requires s == OctaveSum(t, x, y, n - 1)
    requires e == Half(n - 1) * 0.5 && k == Pow2(n - 1) as real
    requires v == Noise2d(t, Scale(k, x), Scale(k, y))
    ensures -1.0 <= v <= 1.0 && s + Weighted(e, v) == OctaveSum(t, x, y, n)
    ensures e == Half(n) && k * 2.0 == Pow2(n) as real
  {
    assert e == Half(n);
    var K := Pow2(n - 1) as real;
    assert Octave(t, x, y, n) == Weighted(Half(n), Noise2d(t, Scale(K, x), Scale(K, y)));
    assert OctaveSum(t, x, y, n) == s + Octave(t, x, y, n);
  }

  /** After `n` octaves the sum lies in [0, 1 - 2^-n]. */
  lemma {:induction false} OctaveSumRange(t: seq<int>, x: real, y: real, n: nat)
    requires TableValid(t)
    ensures 0.0 <= OctaveSum(t, x, y, n) <= 1.0 - Half(n)
  {
    if n > 0 {
      OctaveSumRange(t, x, y, n - 1);
      assert Half(n - 1) == 2.0 * Half(n);
    }
  }

  /** The noise object: its table and octave count. */
  class Noise {
    var p: array<int>
    var octaves: int

    predicate Valid()
      reads this, p
    {
      p.Length == 512 && TableValid(p[..])
    }

    /**
     * `new Noise(octaves)`: 1 octave when none is given, then `init()` with
     * `draws[i]` the i-th `Math.random()` value.
     */
    constructor (count: Option<int>, draws: seq<real>)
      requires |draws| == 512
      ensures octaves == count.GetOr(1)
      ensures Valid() && fresh(p)
      ensures forall i :: 0 <= i < 512 ==> p[i] == ToUint8(draws[i] * 256.0)
    {
      p := new int[512];
      octaves := count.GetOr(1);
      new;
      Init(draws);
    }

    /** `init()`: store `draws[i] * 256` into every entry of the byte table. */
    method Init(draws: seq<real>)
      requires p.Length == 512 && |draws| == 512
      modifies p
      ensures Valid()
      ensures forall i :: 0 <= i < 512 ==> p[i] == ToUint8(draws[i] * 256.0)
    {
      var i := 0;
      while i < 512
        invariant 0 <= i <= 512
        invariant forall j :: 0 <= j < i ==> p[j] == ToUint8(draws[j] * 256.0)
      {
        p[i] := ToUint8(draws[i] * 256.0);
        i := i + 1;
      }
    }

    /**
     * `noise(x, y)`: `octaves` rounds, each halving the weight `e`, adding
     * the weighted noise at frequency `k`, and doubling `k`.
     */
    method Noise(x: real, y: real) returns (s: real)
      requires Valid()
      ensures s == OctaveSum(p[..], x, y, if octaves < 0 then 0 else octaves)
      ensures 0.0 <= s < 1.0
    {
      var t := p[..];
      ghost var n := if octaves < 0 then 0 else octaves;
      var e := 1.0;
      var k := 1.0;
      s := 0.0;
      var i := 0;
      while i < octaves
        invariant 0 <= i <= n
        invariant e == Half(i) && k == Pow2(i) as real
        invariant s == OctaveSum(t, x, y, i)
      {
        e := e * 0.5;
        var v := Noise2d(t, Scale(k, x), Scale(k, y));
        OctaveTerm(t, x, y, i + 1, s, e, k, v);
        s := s + Weighted(e, v);
        k := k * 2.0;
        i := i + 1;
      }
      assert i == n;
      OctaveSumRange(t, x, y, n);
    }
  }

  /** The parameters `generateNoise()` draws: octaves, frequency, and which field. */
  datatype NoiseParams = NoiseParams(octaves: int, freq: real, field: int)

  /** `generateNoise()` for draws `r1`, `r2`, `r3`. */
  function GenerateNoise(r1: real, r2: real, r3: real): NoiseParams {
    NoiseParams(Round(r1 * 5.0 + 1.0), r2 * 20.0 + 1.0, ChooseIndex(2, r3))
  }

  /** Draws in [0, 1) give 1..6 octaves, a frequency in [1, 21), and one of the two fields. */
  lemma GenerateNoiseRanges(r1: real, r2: real, r3: real)
    requires 0.0 <= r1 < 1.0 && 0.0 <= r2 < 1.0 && 0.0 <= r3 < 1.0
    ensures var n := GenerateNoise(r1, r2, r3);
      1 <= n.octaves <= 6 && 1.0 <= n.freq < 21.0 && 0 <= n.field < 2
  {
    ChooseIndexInRange(2, r3);
  }
}
