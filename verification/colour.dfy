/**
 * The colour helpers `utils.hexToRgb` and `utils.rgbToHex`, which main.js
 * and viz.js define identically: a "#rrggbb" colour text to its three
 * channels and back.
 */
module Colour {

  import opened Wrappers
  import opened Text

  /** The three channels of a colour. */
  datatype Rgb = Rgb(r: nat, g: nat, b: nat)

  /** A channel value 0..255. */
  predicate IsChannel(v: int) {
    0 <= v < 256
  }

  /** The six characters after an optional '#'. */
  function HexBody(hex: string): string {
    if |hex| > 0 && hex[0] == '#' then hex[1..] else hex
  }

  /**
   * `hexToRgb(hex)`: the pattern `^#?([a-f\d]{2})([a-f\d]{2})([a-f\d]{2})$`,
   * case-insensitive, and then `parseInt(pair, 16)` of each pair; `None`
   * stands for `null`.
   */
  function HexToRgb(hex: string): (res: Option<Rgb>)
    ensures res.Some? ==> IsChannel(res.value.r) && IsChannel(res.value.g) && IsChannel(res.value.b)
  {
    var body := HexBody(hex);
    if |body| == 6 && AllDigits(body, 16) then
      PairValue(body[0..2]);
      PairValue(body[2..4]);
      PairValue(body[4..6]);
      Some(Rgb(ValueOf(body[0..2], 16), ValueOf(body[2..4], 16), ValueOf(body[4..6], 16)))
    else None
  }

  /** Two hexadecimal digits are worth at most 255. */
  lemma PairValue(s: string)
    requires |s| == 2 && AllDigits(s, 16)
    ensures ValueOf(s, 16) == DigitValue(s[0]) * 16 + DigitValue(s[1]) && IsChannel(ValueOf(s, 16))
  {
    assert s[..1][..0] == [];
    assert s[..1][0] == s[0] && s[|s| - 1] == s[1];
    assert ValueOf(s[..1], 16) == DigitValue(s[0]);
    assert DigitValue(s[0]) < 16 && DigitValue(s[1]) < 16;
  }

  /**
   * `rgbToHex(r, g, b)`: `((1 << 24) + (r << 16) + (g << 8) + b).toString(16)`
   * without its leading "1".
   */
  function RgbToHex(r: nat, g: nat, b: nat): string
    requires IsChannel(r) && IsChannel(g) && IsChannel(b)
  {
    ToBase(Packed(r, g, b), 16)[1..]
  }

  /** `(1 << 24) + (r << 16) + (g << 8) + b`. */
  function Packed(r: nat, g: nat, b: nat): nat {
    16777216 + r * 65536 + g * 256 + b
  }

  /** `rgbToHex` writes each channel as two lowercase hexadecimal digits. */
  lemma RgbToHexDigits(r: nat, g: nat, b: nat)
    requires IsChannel(r) && IsChannel(g) && IsChannel(b)
    ensures RgbToHex(r, g, b) == Padded(r, 16, 2) + Padded(g, 16, 2) + Padded(b, 16, 2)
  {
    var s := Padded(r, 16, 2) + Padded(g, 16, 2) + Padded(b, 16, 2);
    HexText(Packed(r, g, b), r, g, b);
    assert ("1" + s)[1..] == s;
  }

  /** The hexadecimal text of `2^24 + (r, g, b)` is a "1" and then two digits per channel. */
  lemma HexText(n: nat, r: nat, g: nat, b: nat)
    requires IsChannel(r) && IsChannel(g) && IsChannel(b)
    requires n == 16777216 + r * 65536 + g * 256 + b
    ensures ToBase(n, 16) == "1" + (Padded(r, 16, 2) + Padded(g, 16, 2) + Padded(b, 16, 2))
  {
    var hi := r * 256 + g;
    var m := hi * 256 + b;
    HexPowers();
    ToBaseSplit(n, 1, m, 16, 6);
    assert ToBase(1, 16) == "1";
    PaddedSplit(m, hi, b, 16, 4, 2);
    PaddedSplit(hi, r, g, 16, 2, 2);
  }

  /** `rgbToHex` gives exactly six lowercase hexadecimal digits. */
  lemma RgbToHexShape(r: nat, g: nat, b: nat)
    requires IsChannel(r) && IsChannel(g) && IsChannel(b)
    ensures |RgbToHex(r, g, b)| == 6
    ensures forall i :: 0 <= i < 6 ==> Canonical(RgbToHex(r, g, b)[i])
  {
    RgbToHexDigits(r, g, b);
    var pr, pg, pb := Padded(r, 16, 2), Padded(g, 16, 2), Padded(b, 16, 2);
    var s := pr + pg + pb;
    assert forall i :: 0 <= i < 6 ==> s[i] == if i < 2 then pr[i] else if i < 4 then pg[i - 2] else pb[i - 4];
  }

  /** The powers of sixteen the colour text is made of. */
  lemma HexPowers()
    ensures Pow(16, 2) == 256 && Pow(16, 4) == 65536 && Pow(16, 6) == 16777216
  {
    assert Pow(16, 1) == 16;
    assert Pow(16, 3) == 4096;
    assert Pow(16, 5) == 1048576;
  }

  /** `hexToRgb` reads back what `rgbToHex` wrote, with or without the '#'. */
  lemma HexRoundTrip(r: nat, g: nat, b: nat)
    requires IsChannel(r) && IsChannel(g) && IsChannel(b)
    ensures HexToRgb(RgbToHex(r, g, b)) == Some(Rgb(r, g, b))
    ensures HexToRgb("#" + RgbToHex(r, g, b)) == Some(Rgb(r, g, b))
  {
    var s := RgbToHex(r, g, b);
    RgbToHexDigits(r, g, b);
    assert s[0..2] == Padded(r, 16, 2) && s[2..4] == Padded(g, 16, 2) && s[4..6] == Padded(b, 16, 2);
    ChannelDigits(r);
    ChannelDigits(g);
    ChannelDigits(b);
    assert HexBody(s) == s;
    assert ("#" + s)[1..] == s;
  }

  /** Two padded digits of a channel are worth the channel. */
  lemma ChannelDigits(v: nat)
    requires IsChannel(v)
    ensures ValueOf(Padded(v, 16, 2), 16) == v
  {
    PaddedRoundTrip(v, 16, 2);
    HexPowers();
  }

  /**
   * Six lowercase hexadecimal digits, with or without the '#', come back
   * unchanged from `rgbToHex(hexToRgb(s))`.
   */
  lemma RgbHexRoundTrip(hex: string)
    requires |HexBody(hex)| == 6
    requires forall i :: 0 <= i < 6 ==> Canonical(HexBody(hex)[i])
    ensures HexToRgb(hex).Some?
    ensures var c := HexToRgb(hex).value; RgbToHex(c.r, c.g, c.b) == HexBody(hex)
  {
    var s := HexBody(hex);
    forall i | 0 <= i < 6
      ensures IsDigit(s[i], 16)
    {
      CanonicalDigit(s[i]);
    }
    var p0, p1, p2 := s[0..2], s[2..4], s[4..6];
    PairOfValue(p0);
    PairOfValue(p1);
    PairOfValue(p2);
    PairValue(p0);
    PairValue(p1);
    PairValue(p2);
    HexToRgbPairs(hex, s);
    RgbToHexDigits(ValueOf(p0, 16), ValueOf(p1, 16), ValueOf(p2, 16));
    assert s == p0 + p1 + p2;
  }

  /** The channels `hexToRgb` reads are the values of the three digit pairs. */
  lemma HexToRgbPairs(hex: string, s: string)
    requires s == HexBody(hex) && |s| == 6 && AllDigits(s, 16)
    ensures HexToRgb(hex) == Some(Rgb(ValueOf(s[0..2], 16), ValueOf(s[2..4], 16), ValueOf(s[4..6], 16)))
  {
  }

  /** Writing the value of two canonical digits as two digits gives them back. */
  lemma PairOfValue(s: string)
    requires |s| == 2 && forall i :: 0 <= i < 2 ==> Canonical(s[i])
    ensures AllDigits(s, 16) && Padded(ValueOf(s, 16), 16, 2) == s
  {
    CanonicalDigit(s[0]);
    CanonicalDigit(s[1]);
    PaddedOfValue(s, 16);
  }

  /**
   * `hexToRgb` accepts exactly an optional '#' followed by six hexadecimal
   * digits of either case, and nothing else.
   */
  lemma HexToRgbAccepts(hex: string)
    ensures HexToRgb(hex).Some? <==>
      (|hex| == 6 || (|hex| == 7 && hex[0] == '#')) &&
      forall i :: |hex| - 6 <= i < |hex| ==> IsHexDigit(hex[i])
  {
    if |hex| > 0 && hex[0] == '#' {
      assert HexBody(hex) == hex[1..];
      assert forall i :: 0 <= i < |hex| - 1 ==> hex[1..][i] == hex[i + 1];
    } else {
      assert HexBody(hex) == hex;
    }
  }

  /** One character of the class `[a-f\d]` under the `i` flag. */
  predicate IsHexDigit(c: char) {
    ('0' <= c <= '9') || ('a' <= c <= 'f') || ('A' <= c <= 'F')
  }
}
