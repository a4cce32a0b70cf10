/**
 * The JavaScript string conversions the colour and URL helpers rely on:
 * writing a non-negative integer in base 10 or 16 (`Number.prototype.toString`),
 * reading digits back (`parseInt`, `parseFloat`), and splitting and joining
 * at commas (`String.prototype.split(',')`, `Array.prototype.join(',')`).
 */
module Text {

  import opened Wrappers

  /** The bases the helpers use. */
  predicate Base(b: nat) {
    b == 10 || b == 16
  }

  /** `b` to the power `k`. */
  function Pow(b: nat, k: nat): (r: nat)
    ensures b > 0 ==> r > 0
  {
    if k == 0 then 1 else b * Pow(b, k - 1)
  }

  /** The value of a digit character in any case, or 36 for a character that is no digit. */
  function DigitValue(c: char): (v: nat)
    ensures v <= 36
  {
    if '0' <= c <= '9' then (c as int - '0' as int)
    else if 'a' <= c <= 'z' then (c as int - 'a' as int) + 10
    else if 'A' <= c <= 'Z' then (c as int - 'A' as int) + 10
    else 36
  }

  /** A digit of base `b`. */
  predicate IsDigit(c: char, b: nat) {
    DigitValue(c) < b
  }

  /** Every character is a digit of base `b`. */
  predicate AllDigits(s: string, b: nat) {
    forall i :: 0 <= i < |s| ==> IsDigit(s[i], b)
  }

  /** The digit `toString` writes for `d`: 0-9, then lower-case a-f. */
  function DigitChar(d: nat): (c: char)
    requires d < 16
    ensures DigitValue(c) == d
    ensures d < 10 <==> '0' <= c <= '9'
  {
    if d < 10 then ('0' as int + d) as char else ('a' as int + d - 10) as char
  }

  /** A digit as `toString` writes it: a decimal digit or a lower-case letter. */
  predicate Canonical(c: char) {
    ('0' <= c <= '9') || ('a' <= c <= 'f')
  }

  /** The value of a string of base-`b` digits, most significant first. */
  function ValueOf(s: string, b: nat): nat
    requires AllDigits(s, b)
    decreases |s|
  {
    if s == [] then 0 else ValueOf(s[..|s| - 1], b) * b + DigitValue(s[|s| - 1])
  }

  /** `n.toString(b)`: the digits of `n` without leading zeros ("0" for zero). */
  function ToBase(n: nat, b: nat): (s: string)
    requires Base(b)
    ensures |s| >= 1 && AllDigits(s, b)
    ensures forall i :: 0 <= i < |s| ==> Canonical(s[i])
    ensures |s| > 1 ==> s[0] != '0'
    decreases n
  {
    if n < b then [DigitChar(n)] else ToBase(n / b, b) + [DigitChar(n % b)]
  }

  /** The last `k` base-`b` digits of `n`, with leading zeros. */
  function Padded(n: nat, b: nat, k: nat): (s: string)
    requires Base(b)
    ensures |s| == k && AllDigits(s, b)
    ensures forall i :: 0 <= i < |s| ==> Canonical(s[i])
  {
    if k == 0 then [] else Padded(n / b, b, k - 1) + [DigitChar(n % b)]
  }

  /** At least one times a positive number is at least that number. */
  lemma MulAtLeast(x: int, b: int)
    requires x >= 1 && b > 0
    ensures x * b >= b
  {
    assert x * b == (x - 1) * b + b;
    assert (x - 1) * b >= 0;
  }

  /** Quotient and remainder are the only ones with a remainder in [0, b). */
  lemma DivModUnique(n: int, b: int, q: int, m: int)
    requires b > 0 && n == q * b + m && 0 <= m < b
    ensures n / b == q && n % b == m
  {
    var q', m' := n / b, n % b;
    assert n == q' * b + m' && 0 <= m' < b;
    assert (q - q') * b == m' - m;
    if q > q' {
      MulAtLeast(q - q', b);
    } else if q < q' {
      MulAtLeast(q' - q, b);
    }
  }

  /** Euclidean division of `a * b + r` by `b`. */
  lemma DivMulAdd(a: nat, b: nat, r: nat)
    requires b > 0
    ensures (a * b + r) / b == a + r / b
    ensures (a * b + r) % b == r % b
  {
    var q, m := r / b, r % b;
    assert a * b + r == (a + q) * b + m;
    DivModUnique(a * b + r, b, a + q, m);
  }

  lemma ShiftStep(x: int, p: int, y: int, b: int, d: int)
    ensures (x * p + y) * b + d == x * (b * p) + (y * b + d)
  {
  }

  /** Reading digits appended to a prefix shifts the prefix by one place per digit. */
  lemma {:induction false} ValueOfAppend(s: string, t: string, b: nat)
    requires AllDigits(s, b) && AllDigits(t, b)
    ensures AllDigits(s + t, b)
    ensures ValueOf(s + t, b) == ValueOf(s, b) * Pow(b, |t|) + ValueOf(t, b)
    decreases |t|
  {
    if t != [] {
      var t' := t[..|t| - 1];
      var d := DigitValue(t[|t| - 1]);
      assert (s + t)[..|s + t| - 1] == s + t';
      assert (s + t)[|s + t| - 1] == t[|t| - 1];
      ValueOfAppend(s, t', b);
      var x, p, y := ValueOf(s, b), Pow(b, |t'|), ValueOf(t', b);
      assert ValueOf(s + t, b) == (x * p + y) * b + d;
      assert Pow(b, |t|) == b * p;
      assert ValueOf(t, b) == y * b + d;
      ShiftStep(x, p, y, b, d);
    } else {
      assert s + t == s;
    }
  }

  /** Reading back what `toString` wrote gives the number. */
  lemma {:induction false} ToBaseRoundTrip(n: nat, b: nat)
    requires Base(b)
    ensures ValueOf(ToBase(n, b), b) == n
    decreases n
  {
    if n >= b {
      ToBaseRoundTrip(n / b, b);
      var s := ToBase(n, b);
      assert s[..|s| - 1] == ToBase(n / b, b);
      assert DigitValue(s[|s| - 1]) == n % b;
      assert n == (n / b) * b + n % b;
    }
  }

  /** Dropping the last digit of `q * p * b + r`, where `r < p * b`. */
  lemma DropLastDigit(q: nat, p: nat, b: nat, r: nat)
    requires b > 0 && p > 0 && r < p * b
    ensures (q * (p * b) + r) / b == q * p + r / b
    ensures (q * (p * b) + r) % b == r % b
    ensures r / b < p
  {
    assert q * (p * b) + r == (q * p) * b + r;
    DivMulAdd(q * p, b, r);
  }

  /** The remainder modulo p * b, from the remainders modulo b and then p. */
  lemma ModProduct(n: nat, b: nat, p: nat)
    requires b > 0 && p > 0
    ensures n % (p * b) == ((n / b) % p) * b + n % b
  {
    var q, m := n / b, n % b;
    var hi, lo := q / p, q % p;
    assert n == q * b + m && q == hi * p + lo;
    assert n == hi * (p * b) + (lo * b + m);
    assert lo * b + m < p * b by {
      assert lo <= p - 1;
      assert lo * b <= (p - 1) * b;
      assert (p - 1) * b == p * b - b;
    }
    DivModUnique(n, p * b, hi, lo * b + m);
  }

  /** Reading back the padded digits gives the number modulo b^k. */
  lemma {:induction false} PaddedRoundTrip(n: nat, b: nat, k: nat)
    requires Base(b)
    ensures ValueOf(Padded(n, b, k), b) == n % Pow(b, k)
  {
    if k > 0 {
      PaddedRoundTrip(n / b, b, k - 1);
      var s := Padded(n, b, k);
      assert s[..|s| - 1] == Padded(n / b, b, k - 1);
      assert ValueOf(s, b) == ((n / b) % Pow(b, k - 1)) * b + n % b;
      ModProduct(n, b, Pow(b, k - 1));
      assert Pow(b, k) == Pow(b, k - 1) * b;
    }
  }

  /** A canonical digit is the one `toString` writes for its value. */
  lemma CanonicalDigit(c: char)
    requires Canonical(c)
    ensures DigitValue(c) < 16 && DigitChar(DigitValue(c)) == c
  {
  }

  /** Canonical digits are written back exactly as they were read. */
  lemma {:induction false} PaddedOfValue(s: string, b: nat)
    requires Base(b) && AllDigits(s, b)
    requires forall i :: 0 <= i < |s| ==> Canonical(s[i])
    ensures Padded(ValueOf(s, b), b, |s|) == s
    decreases |s|
  {
    if s != [] {
      DropLastDigits(s, b);
      PaddedOfValue(s[..|s| - 1], b);
      PaddedOfValueJoin(s, b);
    }
  }

  /** Dropping the last character keeps every character a canonical digit. */
  lemma DropLastDigits(s: string, b: nat)
    requires AllDigits(s, b) && s != []
    requires forall i :: 0 <= i < |s| ==> Canonical(s[i])
    ensures var s' := s[..|s| - 1];
      AllDigits(s', b) && (forall i :: 0 <= i < |s'| ==> Canonical(s'[i])) && Canonical(s[|s| - 1])
  {
  }

  /** Writing back `s` from its last digit and its other digits written back. */
  lemma PaddedOfValueJoin(s: string, b: nat)
    requires Base(b) && AllDigits(s, b) && s != [] && Canonical(s[|s| - 1])
    requires AllDigits(s[..|s| - 1], b)
    requires Padded(ValueOf(s[..|s| - 1], b), b, |s| - 1) == s[..|s| - 1]
    ensures Padded(ValueOf(s, b), b, |s|) == s
  {
    LastSplit(s);
    PaddedOfLast(s, b);
  }

  /** A non-empty string is its prefix followed by its last character. */
  lemma LastSplit(s: string)
    requires s != []
    ensures s == s[..|s| - 1] + [s[|s| - 1]]
  {
  }

  /** The padded digits of the value of `s` end with the last digit of `s`. */
  lemma PaddedOfLast(s: string, b: nat)
    requires Base(b) && AllDigits(s, b) && s != [] && Canonical(s[|s| - 1])
    requires AllDigits(s[..|s| - 1], b)
    ensures Padded(ValueOf(s, b), b, |s|) == Padded(ValueOf(s[..|s| - 1], b), b, |s| - 1) + [s[|s| - 1]]
  {
    ValueOfLast(s, b);
    PaddedLast(ValueOf(s, b), b, |s|);
  }

  /** The last digit of `s` is its value modulo `b`, the others its value divided by `b`. */
  lemma ValueOfLast(s: string, b: nat)
    requires Base(b) && AllDigits(s, b) && s != []
    requires Canonical(s[|s| - 1])
    ensures ValueOf(s, b) / b == ValueOf(s[..|s| - 1], b)
    ensures DigitChar(ValueOf(s, b) % b) == s[|s| - 1]
  {
    var c := s[|s| - 1];
    var d := DigitValue(c);
    DivMulAdd(ValueOf(s[..|s| - 1], b), b, d);
    CanonicalDigit(c);
  }

  /** A number of more than `k` digits is its leading part followed by its last `k` digits. */
  lemma {:induction false} ToBaseSplit(n: nat, q: nat, r: nat, b: nat, k: nat)
    requires Base(b) && q > 0 && r < Pow(b, k) && n == q * Pow(b, k) + r
    ensures ToBase(n, b) == ToBase(q, b) + Padded(r, b, k)
    decreases k
  {
    if k == 0 {
      assert n == q;
    } else {
      SplitPow(q, r, b, k);
      ToBaseSplit(n / b, q, r / b, b, k - 1);
      ToBaseJoin(n, q, r, b, k);
    }
  }

  /** Appending the common last digit to both sides of a split of `n / b`. */
  lemma ToBaseJoin(n: nat, q: nat, r: nat, b: nat, k: nat)
    requires Base(b) && k > 0 && n >= b && n % b == r % b
    requires ToBase(n / b, b) == ToBase(q, b) + Padded(r / b, b, k - 1)
    ensures ToBase(n, b) == ToBase(q, b) + Padded(r, b, k)
  {
    ToBaseLast(n, b);
    PaddedLast(r, b, k);
    AppendAssoc(ToBase(q, b), Padded(r / b, b, k - 1), [DigitChar(r % b)]);
  }

  /** Appending the common last digit to both sides of a padded split of `n / b`. */
  lemma PaddedJoin(n: nat, hi: nat, lo: nat, b: nat, j: nat, k: nat)
    requires Base(b) && k > 0 && n % b == lo % b
    requires Padded(n / b, b, j + k - 1) == Padded(hi, b, j) + Padded(lo / b, b, k - 1)
    ensures Padded(n, b, j + k) == Padded(hi, b, j) + Padded(lo, b, k)
  {
    PaddedLast(n, b, j + k);
    PaddedLast(lo, b, k);
    AppendAssoc(Padded(hi, b, j), Padded(lo / b, b, k - 1), [DigitChar(lo % b)]);
  }

  /** Concatenation is associative. */
  lemma AppendAssoc(x: string, y: string, z: string)
    ensures (x + y) + z == x + (y + z)
  {
  }

  /** `toString` writes the last digit after the others. */
  lemma ToBaseLast(n: nat, b: nat)
    requires Base(b) && n >= b
    ensures ToBase(n, b) == ToBase(n / b, b) + [DigitChar(n % b)]
  {
  }

  /** The last of `k > 0` padded digits comes after the others. */
  lemma PaddedLast(n: nat, b: nat, k: nat)
    requires Base(b) && k > 0
    ensures Padded(n, b, k) == Padded(n / b, b, k - 1) + [DigitChar(n % b)]
  {
  }

  /** `Pow(b, k)` is `Pow(b, k - 1) * b`, and positive. */
  lemma PowStep(b: nat, k: nat)
    requires b > 0 && k > 0
    ensures Pow(b, k) == Pow(b, k - 1) * b && Pow(b, k - 1) > 0
  {
  }

  /** Dropping the last base-`b` digit of `q * b^k + r`, where `r < b^k` and `k > 0`. */
  lemma SplitPow(q: nat, r: nat, b: nat, k: nat)
    requires Base(b) && k > 0 && r < Pow(b, k)
    ensures var n := q * Pow(b, k) + r;
      n / b == q * Pow(b, k - 1) + r / b && n % b == r % b && r / b < Pow(b, k - 1) &&
      (q > 0 ==> n >= b)
  {
    var p := Pow(b, k - 1);
    PowStep(b, k);
    assert q * Pow(b, k) == q * (p * b);
    DropLastDigit(q, p, b, r);
    if q > 0 {
      MulAtLeast(q, p);
      MulAtLeast(q * p, b);
      assert q * (p * b) == (q * p) * b;
    }
  }

  /** Padded digits of a number split into its high and low digits. */
  lemma {:induction false} PaddedSplit(n: nat, hi: nat, lo: nat, b: nat, j: nat, k: nat)
    requires Base(b) && lo < Pow(b, k) && n == hi * Pow(b, k) + lo
    ensures Padded(n, b, j + k) == Padded(hi, b, j) + Padded(lo, b, k)
    decreases k
  {
    if k == 0 {
      assert n == hi;
    } else {
      SplitPow(hi, lo, b, k);
      PaddedSplit(n / b, hi, lo / b, b, j, k - 1);
      PaddedJoin(n, hi, lo, b, j, k);
    }
  }

  /** The length of the run of base-`b` digits at the start of `s`. */
  function DigitRun(s: string, b: nat): (n: nat)
    ensures n <= |s| && AllDigits(s[..n], b)
    ensures n < |s| ==> !IsDigit(s[n], b)
    decreases |s|
  {
    if s == [] || !IsDigit(s[0], b) then 0
    else
      var n := 1 + DigitRun(s[1..], b);
      assert s[..n] == [s[0]] + s[1..][..n - 1];
      n
  }

  /** The run of digits ends where the digits end. */
  lemma {:induction false} DigitRunStops(s: string, t: string, b: nat)
    requires AllDigits(s, b)
    requires t == [] || !IsDigit(t[0], b)
    ensures DigitRun(s + t, b) == |s|
    decreases |s|
  {
    if s != [] {
      assert (s + t)[1..] == s[1..] + t;
      DigitRunStops(s[1..], t, b);
    }
  }

  /** The white space `parseInt` and `parseFloat` skip (the ASCII part of it). */
  predicate IsSpace(c: char) {
    c == ' ' || c == '\t' || c == '\n' || c == '\r' || c == '\U{B}' || c == '\U{C}'
  }

  /** `s` without its leading white space. */
  function TrimStart(s: string): (t: string)
    ensures |t| <= |s| && t == s[|s| - |t|..]
    ensures forall k :: 0 <= k < |s| - |t| ==> IsSpace(s[k])
    ensures t == [] || !IsSpace(t[0])
    decreases |s|
  {
    if s != [] && IsSpace(s[0]) then TrimStart(s[1..]) else s
  }

  /** Text that starts with a non-space character is its own trimmed form. */
  lemma TrimStartStops(s: string)
    requires s != [] && !IsSpace(s[0])
    ensures TrimStart(s) == s
  {
  }

  /** A sign, as `parseInt` and `parseFloat` read it: -1 for '-', 1 otherwise, and the rest. */
  function Sign(s: string): (r: (int, string))
    ensures r.0 == 1 || r.0 == -1
    ensures r.0 == -1 <==> s != [] && s[0] == '-'
    ensures s != [] && (s[0] == '-' || s[0] == '+') ==> r.1 == s[1..]
    ensures !(s != [] && (s[0] == '-' || s[0] == '+')) ==> r.1 == s
  {
    if s != [] && s[0] == '-' then (-1, s[1..])
    else if s != [] && s[0] == '+' then (1, s[1..])
    else (1, s)
  }

  /**
   * The digits `parseInt` reads after the sign: hexadecimal digits after a
   * "0x" or "0X" prefix, otherwise decimal digits; `None` when there are none.
   */
  function UnsignedInt(t: string): Option<nat> {
    if |t| >= 2 && t[0] == '0' && (t[1] == 'x' || t[1] == 'X') then LeadingDigits(t[2..], 16)
    else LeadingDigits(t, 10)
  }

  /** The value of the run of base-`b` digits at the start of `u`, if there is one. */
  function LeadingDigits(u: string, b: nat): Option<nat> {
    var n := DigitRun(u, b);
    if n == 0 then None else Some(ValueOf(u[..n], b))
  }

  /**
   * `parseInt(s)` with no radix: skip white space, read a sign, then the
   * digits; `None` stands for NaN.
   */
  function ParseInt(s: string): Option<int> {
    var (sign, t) := Sign(TrimStart(s));
    Signed(sign, UnsignedInt(t))
  }

  /** The magnitude `v`, if there is one, with the sign applied. */
  function Signed(sign: int, v: Option<nat>): Option<int> {
    match v
    case None => None
    case Some(m) => Some(if sign < 0 then -(m as int) else m as int)
  }

  /** `String(n)` for an integer. */
  function FormatInt(n: int): (s: string)
    ensures |s| >= 1 && ',' !in s
  {
    if n < 0 then "-" + ToBase(-n, 10) else ToBase(n, 10)
  }

  /** The decimal digits of `m`, followed by a comma or nothing, read back as `m`. */
  lemma UnsignedIntDigits(m: nat, rest: string)
    requires rest == [] || rest[0] == ','
    ensures UnsignedInt(ToBase(m, 10) + rest) == Some(m)
  {
    var digits := ToBase(m, 10);
    var t := digits + rest;
    ToBaseRoundTrip(m, 10);
    DigitRunStops(digits, rest, 10);
    assert t[..|digits|] == digits;
    if |t| >= 2 && t[0] == '0' {
      assert |digits| == 1;
      assert t[1] == rest[0];
    }
  }

  /**
   * `parseInt` reads back what `String` wrote, and stops at a comma after
   * it.
   */
  lemma ParseIntFormatInt(n: int, rest: string)
    requires rest == [] || rest[0] == ','
    ensures ParseInt(FormatInt(n) + rest) == Some(n)
  {
    var m: nat := if n < 0 then -n else n;
    FormatIntStart(m, rest);
    FormatIntShape(n, m, rest);
    ParseIntSigned(FormatInt(n) + rest, ToBase(m, 10) + rest, n < 0, m);
  }

  /** What `String` writes for `n`: the digits of its magnitude, after a minus sign when negative. */
  lemma FormatIntShape(n: int, m: nat, rest: string)
    requires m == if n < 0 then -n else n
    ensures FormatInt(n) + rest == if n < 0 then "-" + (ToBase(m, 10) + rest) else ToBase(m, 10) + rest
  {
  }

  /** What `String` writes for `m`, then a comma or nothing, starts with its digits. */
  lemma FormatIntStart(m: nat, rest: string)
    requires rest == [] || rest[0] == ','
    ensures var t := ToBase(m, 10) + rest;
      t != [] && !IsSpace(t[0]) && t[0] != '-' && t[0] != '+' && UnsignedInt(t) == Some(m)
  {
    var digits := ToBase(m, 10);
    UnsignedIntDigits(m, rest);
    assert (digits + rest)[0] == digits[0] && Canonical(digits[0]);
  }

  /** Unsigned digits read alone, or after a minus sign. */
  lemma ParseIntSigned(s: string, t: string, negative: bool, v: nat)
    requires s == if negative then "-" + t else t
    requires t != [] && !IsSpace(t[0]) && t[0] != '-' && t[0] != '+'
    requires UnsignedInt(t) == Some(v)
    ensures ParseInt(s) == Some(if negative then -(v as int) else v as int)
  {
    if negative {
      assert s[0] == '-' && s[1..] == t;
    }
    TrimStartStops(s);
  }

  /**
   * A finite decimal number: a sign, a whole part and `scale` fraction
   * digits worth `frac`, the form the settings are written in.  It is
   * canonical, the way `String` writes numbers, when the fraction fits its
   * digits and has no trailing zero, and zero carries no minus sign.
   */
  datatype Decimal = Decimal(negative: bool, whole: nat, frac: nat, scale: nat) {
    predicate Canonical() {
      frac < Pow(10, scale) && (scale == 0 || frac % 10 != 0) && (negative ==> whole > 0 || frac > 0)
    }
    function Value(): real {
      Negate(negative, Fraction(whole, frac, scale))
    }
  }

  /**
   * `String(x)` for the number a canonical decimal denotes: the sign, the
   * whole part, and then a point and exactly `scale` fraction digits.
   */
  function FormatDecimal(d: Decimal): (s: string)
    requires d.Canonical()
    ensures |s| >= 1 && ',' !in s
  {
    var body := Unsigned(d.whole, d.frac, d.scale);
    if d.negative then "-" + body else body
  }

  /** The integer digits of `q`, then, when `k > 0`, a point and `r` in `k` digits. */
  function Unsigned(q: nat, r: nat, k: nat): (s: string)
    ensures |s| >= 1 && ',' !in s
  {
    ToBase(q, 10) + (if k == 0 then "" else "." + Padded(r, 10, k))
  }

  /** The fraction digits after a point, and what follows them. */
  function FractionPart(rest: string): (r: (string, string))
    ensures AllDigits(r.0, 10)
  {
    if rest != [] && rest[0] == '.' then
      var f := DigitRun(rest[1..], 10);
      (rest[1..][..f], rest[1..][f..])
    else ([], rest)
  }

  /**
   * The unsigned number at the start of `s`, as `parseFloat` reads it:
   * integer digits, then optionally a point and fraction digits, then
   * optionally an exponent; `None` when there is no digit before the
   * exponent.
   */
  function ParseUnsignedDecimal(s: string): Option<real> {
    var i := DigitRun(s, 10);
    var (frac, after) := FractionPart(s[i..]);
    if i == 0 && frac == [] then None
    else Some(Scaled(Mantissa(s[..i], frac), ExponentFactor(after)))
  }

  /** `q` followed by the `k`-digit fraction `r`: `q + r / 10^k`. */
  function Fraction(q: nat, r: nat, k: nat): real {
    q as real + r as real / Pow(10, k) as real
  }

  /** `v`, negated when `negative`. */
  function Negate(negative: bool, v: real): real {
    if negative then -v else v
  }

  /** A mantissa scaled by its exponent factor. */
  function Scaled(m: real, f: real): real {
    m * f
  }

  /** The value of integer digits followed by fraction digits. */
  function Mantissa(intPart: string, frac: string): real
    requires AllDigits(intPart, 10) && AllDigits(frac, 10)
  {
    ValueOf(intPart, 10) as real + ValueOf(frac, 10) as real / Pow(10, |frac|) as real
  }

  /** The factor an exponent part `e12`, `E-3`, ... contributes; 1 when there is none. */
  function ExponentFactor(s: string): (f: real)
    ensures f > 0.0
    ensures !(|s| >= 1 && (s[0] == 'e' || s[0] == 'E')) ==> f == 1.0
  {
    if |s| >= 1 && (s[0] == 'e' || s[0] == 'E') then
      var (sign, t) := Sign(s[1..]);
      var n := DigitRun(t, 10);
      if n == 0 then 1.0
      else if sign > 0 then Pow(10, ValueOf(t[..n], 10)) as real
      else 1.0 / Pow(10, ValueOf(t[..n], 10)) as real
    else 1.0
  }

  /** An exponent part whose sign leaves the digits `d` first reads exactly `d`. */
  lemma ExponentFactorRead(s: string, sg: int, t: string, d: string)
    requires |s| >= 1 && (s[0] == 'e' || s[0] == 'E')
    requires Sign(s[1..]) == (sg, t)
    requires d != [] && DigitRun(t, 10) == |d| && t[..|d|] == d
    ensures AllDigits(d, 10)
    ensures sg > 0 ==> ExponentFactor(s) == Pow(10, ValueOf(d, 10)) as real
    ensures sg <= 0 ==> ExponentFactor(s) == 1.0 / Pow(10, ValueOf(d, 10)) as real
  {
  }

  /** A sign in front of text that starts with a digit is read off alone. */
  lemma SignBeforeDigit(sign: string, t: string)
    requires sign == "" || sign == "+" || sign == "-"
    requires t != [] && IsDigit(t[0], 10)
    ensures Sign(sign + t) == (if sign == "-" then -1 else 1, t)
  {
    if sign != "" {
      assert (sign + t)[0] == sign[0] && (sign + t)[1..] == t;
    } else {
      assert sign + t == t;
    }
  }

  /**
   * An exponent part with digits `d` scales by 10^d, or by 10^-d after a
   * '-'; whatever follows the digits is not read.
   */
  lemma ExponentFactorDigits(e: char, sign: string, d: string, rest: string)
    requires e == 'e' || e == 'E'
    requires sign == "" || sign == "+" || sign == "-"
    requires d != [] && AllDigits(d, 10)
    requires rest == [] || !IsDigit(rest[0], 10)
    ensures sign != "-" ==> ExponentFactor([e] + sign + d + rest) == Pow(10, ValueOf(d, 10)) as real
    ensures sign == "-" ==> ExponentFactor([e] + sign + d + rest) == 1.0 / Pow(10, ValueOf(d, 10)) as real
  {
    var s, t := [e] + sign + d + rest, d + rest;
    var sg := if sign == "-" then -1 else 1;
    assert DigitRun(t, 10) == |d| && t[..|d|] == d by {
      DigitRunStops(d, rest, 10);
    }
    assert |s| >= 1 && s[0] == e && Sign(s[1..]) == (sg, t) by {
      assert s[0] == e && s[1..] == sign + t;
      assert t[0] == d[0];
      SignBeforeDigit(sign, t);
    }
    ExponentFactorRead(s, sg, t, d);
  }

  /**
   * `parseFloat(s)`: skip white space, read a sign and an unsigned decimal
   * number; `None` stands for NaN.
   */
  function ParseFloat(s: string): Option<real> {
    var (sign, t) := Sign(TrimStart(s));
    match ParseUnsignedDecimal(t)
    case None => None
    case Some(v) => Some(Negate(sign < 0, v))
  }

  /** The fraction digits of `Unsigned` are read back in full. */
  lemma FractionPartPadded(r: nat, k: nat)
    requires k > 0
    ensures FractionPart("." + Padded(r, 10, k)) == (Padded(r, 10, k), "")
  {
    var fr := Padded(r, 10, k);
    DigitRunStops(fr, [], 10);
    assert fr + [] == fr;
    assert ("." + fr)[1..] == fr;
  }

  /** After a run of integer digits, `parseFloat` goes on with the fraction part. */
  lemma ParseAfterDigits(s: string, ip: string, tail: string, frac: string, after: string)
    requires s == ip + tail && |ip| >= 1 && AllDigits(ip, 10)
    requires tail == [] || tail[0] == '.'
    requires FractionPart(tail) == (frac, after)
    ensures ParseUnsignedDecimal(s) == Some(Scaled(Mantissa(ip, frac), ExponentFactor(after)))
  {
    DigitRunStops(ip, tail, 10);
    assert (ip + tail)[..|ip|] == ip && (ip + tail)[|ip|..] == tail;
  }

  /** With no exponent the number is its mantissa. */
  lemma NoExponent(m: real)
    ensures Scaled(m, ExponentFactor("")) == m
  {
  }

  /** `parseFloat` reads `Unsigned(q, r, k)` as `q + r / 10^k`. */
  lemma ParseUnsigned(q: nat, r: nat, k: nat)
    requires r < Pow(10, k)
    ensures ParseUnsignedDecimal(Unsigned(q, r, k)) == Some(Fraction(q, r, k))
  {
    var ip := ToBase(q, 10);
    if k == 0 {
      assert Unsigned(q, r, k) == ip + "";
      ParseAfterDigits(Unsigned(q, r, k), ip, "", [], "");
      NoExponent(Mantissa(ip, []));
      MantissaWhole(q, r);
    } else {
      var fr := Padded(r, 10, k);
      FractionPartPadded(r, k);
      ParseAfterDigits(Unsigned(q, r, k), ip, "." + fr, fr, "");
      NoExponent(Mantissa(ip, fr));
      MantissaFraction(q, r, k);
    }
  }

  /** Integer digits alone are worth their value. */
  lemma MantissaWhole(q: nat, r: nat)
    requires r < Pow(10, 0)
    ensures Mantissa(ToBase(q, 10), []) == Fraction(q, r, 0)
  {
    ToBaseRoundTrip(q, 10);
  }

  /** Integer digits and `k` fraction digits are worth `q + r / 10^k`. */
  lemma MantissaFraction(q: nat, r: nat, k: nat)
    requires r < Pow(10, k)
    ensures Mantissa(ToBase(q, 10), Padded(r, 10, k)) == Fraction(q, r, k)
  {
    ToBaseRoundTrip(q, 10);
    FractionValue(r, k);
  }

  /** The fraction digits of `r` are worth `r`. */
  lemma FractionValue(r: nat, k: nat)
    requires r < Pow(10, k)
    ensures ValueOf(Padded(r, 10, k), 10) == r
  {
    PaddedRoundTrip(r, 10, k);
    DivModUnique(r, Pow(10, k), 0, r);
  }

  /** `parseFloat` reads back the value of a decimal that `String` wrote. */
  lemma ParseFloatFormatDecimal(d: Decimal)
    requires d.Canonical()
    ensures ParseFloat(FormatDecimal(d)) == Some(d.Value())
  {
    var body := Unsigned(d.whole, d.frac, d.scale);
    ParseUnsigned(d.whole, d.frac, d.scale);
    UnsignedStart(d.whole, d.frac, d.scale);
    ParseFloatSigned(FormatDecimal(d), body, d.negative, Fraction(d.whole, d.frac, d.scale));
  }

  /** `Unsigned` starts with a digit. */
  lemma UnsignedStart(q: nat, r: nat, k: nat)
    ensures var s := Unsigned(q, r, k); !IsSpace(s[0]) && s[0] != '-' && s[0] != '+'
  {
    assert Unsigned(q, r, k)[0] == ToBase(q, 10)[0] && Canonical(ToBase(q, 10)[0]);
  }

  /** An unsigned number read alone, or after a minus sign. */
  lemma ParseFloatSigned(s: string, t: string, negative: bool, v: real)
    requires s == if negative then "-" + t else t
    requires t != [] && !IsSpace(t[0]) && t[0] != '-' && t[0] != '+'
    requires ParseUnsignedDecimal(t) == Some(v)
    ensures ParseFloat(s) == Some(Negate(negative, v))
  {
    if negative {
      assert s[0] == '-' && s[1..] == t;
    }
    TrimStartStops(s);
  }

  /** `s.split(',')`: the pieces between commas; one piece when there is no comma. */
  function Split(s: string): (parts: seq<string>)
    ensures |parts| >= 1
    ensures forall i :: 0 <= i < |parts| ==> ',' !in parts[i]
    decreases |s|
  {
    if s == [] then [""]
    else
      var rest := Split(s[1..]);
      if s[0] == ',' then [""] + rest else [[s[0]] + rest[0]] + rest[1..]
  }

  /** `parts.join(',')`. */
  function Join(parts: seq<string>): string
    decreases |parts|
  {
    if |parts| == 0 then ""
    else if |parts| == 1 then parts[0]
    else parts[0] + "," + Join(parts[1..])
  }

  /** Splitting text that starts with a comma-free piece. */
  lemma {:induction false} SplitPrefix(a: string, t: string)
    requires ',' !in a
    ensures Split(a + t) == [a + Split(t)[0]] + Split(t)[1..]
    decreases |a|
  {
    if a != [] {
      assert (a + t)[0] == a[0] && (a + t)[1..] == a[1..] + t;
      SplitPrefix(a[1..], t);
      assert [a[0]] + (a[1..] + Split(t)[0]) == a + Split(t)[0];
    } else {
      assert a + t == t;
      assert a + Split(t)[0] == Split(t)[0];
      assert Split(t) == [Split(t)[0]] + Split(t)[1..];
    }
  }

  /** Splitting joined comma-free pieces gives the pieces back. */
  lemma {:induction false} SplitJoin(parts: seq<string>)
    requires |parts| >= 1
    requires forall i :: 0 <= i < |parts| ==> ',' !in parts[i]
    ensures Split(Join(parts)) == parts
    decreases |parts|
  {
    if |parts| == 1 {
      SplitPrefix(parts[0], "");
      assert parts[0] + "" == parts[0];
    } else {
      var j := Join(parts[1..]);
      SplitJoin(parts[1..]);
      SplitPrefix(parts[0], "," + j);
      assert ("," + j)[0] == ',' && ("," + j)[1..] == j;
      assert parts[0] + "," + j == parts[0] + ("," + j);
      assert Split("," + j) == [""] + parts[1..];
      assert ([""] + parts[1..])[1..] == parts[1..];
      assert parts[0] + "" == parts[0];
      assert [parts[0]] + parts[1..] == parts;
    }
  }

  /** The first piece is the text before the first comma. */
  lemma SplitFirst(s: string)
    ensures |Split(s)[0]| <= |s| && Split(s)[0] == s[..|Split(s)[0]|]
    ensures |Split(s)[0]| < |s| ==> s[|Split(s)[0]|] == ','
    ensures ',' !in s <==> Split(s) == [s]
  {
    SplitHead(s);
    SplitWhole(s);
  }

  /** The first piece is a prefix of `s`, followed by a comma when it is not all of `s`. */
  lemma {:induction false} SplitHead(s: string)
    ensures |Split(s)[0]| <= |s| && Split(s)[0] == s[..|Split(s)[0]|]
    ensures |Split(s)[0]| < |s| ==> s[|Split(s)[0]|] == ','
    decreases |s|
  {
    if s != [] && s[0] != ',' {
      var rest := Split(s[1..]);
      SplitHead(s[1..]);
      assert s[..1 + |rest[0]|] == [s[0]] + s[1..][..|rest[0]|];
    }
  }

  /** Text without a comma is one piece, and only such text is. */
  lemma {:induction false} SplitWhole(s: string)
    ensures ',' !in s <==> Split(s) == [s]
    decreases |s|
  {
    if s != [] && ',' !in s {
      SplitWhole(s[1..]);
      assert [s[0]] + s[1..] == s;
    } else if Split(s) == [s] {
      assert ',' !in Split(s)[0];
    }
  }
}
