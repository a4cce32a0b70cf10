/**
 * generate.js: the random set-up of one streamline drawing (bounding box,
 * colour ranges, streamline options), the two maps between the bounding box
 * and the canvas, and the line-width bookkeeping of `onPointAdded`.
 * `Math.random()` draws are parameters; the streamline integrator, the
 * colour library and the canvas are not part of this model.
 */
module Streamlines {

  import opened Wrappers
  import opened Draws
  import opened Arith

  /** A point, on the canvas or in the bounding box. */
  datatype Point = Point(x: real, y: real)

  /** The part of the vector field's plane that is drawn. */
  datatype Box = Box(left: int, top: int, width: int, height: int)

  /** The canvas size in pixels. */
  datatype Canvas = Canvas(width: real, height: real)

  /** An inclusive range `[lo, hi]`, as the colour options take it. */
  datatype Span = Span(lo: int, hi: int)

  // ---------------------------------------------------------------------
  // Bounding box
  // ---------------------------------------------------------------------

  /**
   * One axis of the bounding box for draws `r1`, `r2`: the range
   * `Math.round(r1 * 15) + 1` and the edge `-range + Math.round(r2 * range)`.
   */
  function Axis(r1: real, r2: real): (int, int) {
    var range := Round(r1 * 15.0) + 1;
    (range, -range + Round(r2 * range as real))
  }

  /** The bounding box for the four draws of generate.js. */
  function BoundingBox(rx1: real, rx2: real, ry1: real, ry2: real): Box {
    var (w, left) := Axis(rx1, rx2);
    var (h, top) := Axis(ry1, ry2);
    Box(left, top, w, h)
  }

  /** Draws in [0, 1) give an axis range in [1, 16] and an edge in [-range, 0]. */
  lemma AxisRange(r1: real, r2: real)
    requires 0.0 <= r1 < 1.0 && 0.0 <= r2 < 1.0
    ensures var (range, edge) := Axis(r1, r2);
      1 <= range <= 16 && -range <= edge <= 0
  {
    var range := Round(r1 * 15.0) + 1;
    RoundBetween(r1 * 15.0, 0, 15);
    ScaleWithin(r2, range);
  }

  /**
   * The bounding box has width and height in [1, 16] and its left and top
   * edges in [-width, 0] and [-height, 0]: it always contains the origin.
   */
  lemma BoundingBoxRanges(rx1: real, rx2: real, ry1: real, ry2: real)
    requires 0.0 <= rx1 < 1.0 && 0.0 <= rx2 < 1.0 && 0.0 <= ry1 < 1.0 && 0.0 <= ry2 < 1.0
    ensures var b := BoundingBox(rx1, rx2, ry1, ry2);
      1 <= b.width <= 16 && 1 <= b.height <= 16
      && -b.width <= b.left <= 0 && -b.height <= b.top <= 0
  {
    AxisRange(rx1, rx2);
    AxisRange(ry1, ry2);
  }

  // ---------------------------------------------------------------------
  // Colour ranges
  // ---------------------------------------------------------------------

  /**
   * `getHueRange()` for draws `r1`, `r2`: the excluded hues
   * `[[0, start], [end, 359]]`.
   */
  function HueRange(r1: real, r2: real): seq<Span> {
    var start := Round(r1 * 320.0);
    var end := Round(r2 * (359 - start) as real + start as real);
    [Span(0, start), Span(end, 359)]
  }

  /** The excluded hues are `[0, s]` and `[e, 359]` with 0 <= s <= 320 and s <= e <= 359. */
  lemma HueRangeBounds(r1: real, r2: real)
    requires 0.0 <= r1 < 1.0 && 0.0 <= r2 < 1.0
    ensures var h := HueRange(r1, r2);
      |h| == 2 && h[0].lo == 0 && h[1].hi == 359
      && 0 <= h[0].hi <= 320 && h[0].hi <= h[1].lo <= 359
  {
    var start := Round(r1 * 320.0);
    RoundBetween(r1 * 320.0, 0, 320);
    ScaleWithin(r2, 359 - start);
    RoundShift(r2 * (359 - start) as real + start as real, start);
    assert r2 * (359 - start) as real + start as real - start as real == r2 * (359 - start) as real;
  }

  /**
   * The saturation and lightness ranges as generate.js computes them:
   * `low = Math.round(r1 * 100)`, `high = Math.round(r2 * 100 - low) + low`.
   */
  function PercentRangeAsWritten(r1: real, r2: real): Span {
    var low := Round(r1 * 100.0);
    Span(low, Round(r2 * 100.0 - low as real) + low)
  }

  /** As written, the upper end is just `Math.round(r2 * 100)`, unrelated to the lower end. */
  lemma PercentRangeAsWrittenHigh(r1: real, r2: real)
    ensures PercentRangeAsWritten(r1, r2).hi == Round(r2 * 100.0)
  {
    RoundShift(r2 * 100.0, Round(r1 * 100.0));
  }

  /** As written, the range can come out inverted: draws 0.8 and 0 give `[80, 0]`. */
  lemma PercentRangeInverted()
    ensures PercentRangeAsWritten(0.8, 0.0) == Span(80, 0)
  {
    PercentRangeAsWrittenHigh(0.8, 0.0);
  }

  /** The range as evidently meant (the same shape as the hue range): `high` drawn in [low, 100]. */
  function PercentRange(r1: real, r2: real): Span {
    var low := Round(r1 * 100.0);
    Span(low, Round(r2 * (100 - low) as real) + low)
  }

  /** The corrected range is never inverted: 0 <= low <= high <= 100. */
  lemma PercentRangeOrdered(r1: real, r2: real)
    requires 0.0 <= r1 < 1.0 && 0.0 <= r2 < 1.0
    ensures var s := PercentRange(r1, r2); 0 <= s.lo <= s.hi <= 100
  {
    var low := Round(r1 * 100.0);
    RoundBetween(r1 * 100.0, 0, 100);
    ScaleWithin(r2, 100 - low);
  }

  // ---------------------------------------------------------------------
  // Streamline options
  // ---------------------------------------------------------------------

  /** The colour strategies `onPointAdded` distinguishes. */
  const Strategies: seq<string> := ["line", "gradient", "solid", "gradient line"]

  /** The ways of building the vector field: noise, a generated function, or their product. */
  datatype FieldKind = NoiseField | FunctionField | NoisyFunctionField

  /** The options drawn for one drawing. */
  datatype Options = Options(
    dSep: real,
    dSepStep: Option<real>,
    dTest: real,
    dWidth: real,
    dWidthStep: Option<real>,
    strategy: Option<string>,
    field: Option<FieldKind>)

  /**
   * The options for the draws of generate.js, in the order it makes them:
   * `dSep`, the `dSepStep` value and choice, `dTest`, `dWidth`, the
   * `dWidthStep` value and choice, the colour strategy and the field kind.
   */
  function DrawOptions(
    a: real, b1: real, b2: real, c: real, d: real, e1: real, e2: real, s: real, f: real): Options
  {
    var dSep := a * 0.4 + 0.01;
    var dWidth := dSep * (d * 2.0 + 1.0) * 30.0;
    Options(
      dSep,
      Choose([(b1 * dSep) / 100.0, 0.0, 0.0], b2),
      dSep * (c + 0.01),
      dWidth,
      Choose([(e1 * dWidth) / 50.0, 0.0], e2),
      Choose(Strategies, s),
      Choose([NoiseField, FunctionField, NoisyFunctionField], f))
  }

  /**
   * For draws in [0, 1): `dSep` in [0.01, 0.41), the starting `dWidth` in
   * [0, 40], both steps chosen and non-negative, a strategy that is one of
   * the four (never the `'draw'` case `onPointAdded` also tests), and a field.
   */
  lemma OptionsRanges(a: real, b1: real, b2: real, c: real, d: real, e1: real, e2: real, s: real, f: real)
    requires 0.0 <= a < 1.0 && 0.0 <= b1 < 1.0 && 0.0 <= b2 < 1.0 && 0.0 <= c < 1.0
    requires 0.0 <= d < 1.0 && 0.0 <= e1 < 1.0 && 0.0 <= e2 < 1.0 && 0.0 <= s < 1.0 && 0.0 <= f < 1.0
    ensures var o := DrawOptions(a, b1, b2, c, d, e1, e2, s, f);
      0.01 <= o.dSep < 0.41 && 0.0 <= o.dWidth <= 40.0
      && o.dSepStep.Some? && o.dSepStep.value >= 0.0
      && o.dWidthStep.Some? && o.dWidthStep.value >= 0.0
      && o.strategy.Some? && o.strategy.value in Strategies && o.strategy.value != "draw"
      && o.field.Some?
  {
    var dSep := a * 0.4 + 0.01;
    var m := d * 2.0 + 1.0;
    assert 1.0 <= m < 3.0;
    assert dSep * m <= 0.41 * 3.0 by {
      assert dSep * m <= 0.41 * m;
    }
    var dWidth := dSep * m * 30.0;
    MulNonneg(dSep, m);
    MulNonneg(b1, dSep);
    MulNonneg(e1, dWidth);
    ChooseOneOf([(b1 * dSep) / 100.0, 0.0, 0.0], b2);
    ChooseOneOf([(e1 * dWidth) / 50.0, 0.0], e2);
    ChooseOneOf(Strategies, s);
    ChooseOneOf([NoiseField, FunctionField, NoisyFunctionField], f);
  }

  /**
   * `dTest` stays below `dSep` only when its draw is below 0.99: from 0.99
   * on it reaches `dSep`, and the width divisor `dSep - dTest` is zero or negative.
   */
  lemma TestDistanceOrder(a: real, c: real)
    requires 0.0 <= a < 1.0 && 0.0 <= c < 1.0
    ensures var dSep := a * 0.4 + 0.01;
      (dSep * (c + 0.01) < dSep <==> c < 0.99)
  {
    var dSep := a * 0.4 + 0.01;
    assert dSep - dSep * (c + 0.01) == dSep * (0.99 - c);
    if c < 0.99 {
      MulPos(dSep, 0.99 - c);
    } else {
      MulNonneg(dSep, c - 0.99);
      assert dSep * (c - 0.99) == -(dSep * (0.99 - c));
    }
  }

  // ---------------------------------------------------------------------
  // Coordinate maps
  // ---------------------------------------------------------------------

  /** `toCanvasPoint`: bounding-box coordinates to canvas pixels, the y axis flipped. */
  function ToCanvasPoint(pt: Point, box: Box, canvas: Canvas): Point
    requires box.width != 0 && box.height != 0
  {
    var tx := (pt.x - box.left as real) / box.width as real;
    var ty := (pt.y - box.top as real) / box.height as real;
    Point(tx * canvas.width, (1.0 - ty) * canvas.height)
  }

  /** `toBoundingBoxPoint`: canvas pixels to bounding-box coordinates. */
  function ToBoundingBoxPoint(pt: Point, box: Box, canvas: Canvas): Point
    requires canvas.width != 0.0 && canvas.height != 0.0
  {
    var tx := (pt.x / canvas.width) * box.width as real;
    var ty := (1.0 - pt.y / canvas.height) * box.height as real;
    Point(tx + box.left as real, ty + box.top as real)
  }

  /** One axis of the canvas point of a box point, mapped back, is the box coordinate. */
  lemma AxisBack(v: real, edge: real, size: real, pixels: real)
    requires size != 0.0 && pixels != 0.0
    ensures (((v - edge) / size) * pixels / pixels) * size + edge == v
  {
    MulDiv((v - edge) / size, pixels);
    DivMul(v - edge, size);
  }

  /** One axis of the box point of a canvas point, mapped back, is the pixel coordinate. */
  lemma AxisForth(v: real, edge: real, size: real, pixels: real)
    requires size != 0.0 && pixels != 0.0
    ensures ((((v / pixels) * size + edge) - edge) / size) * pixels == v
  {
    MulDiv(v / pixels, size);
    DivMul(v, pixels);
  }

  /** The flipped y axis: a box coordinate mapped to the canvas and back is itself. */
  lemma FlippedBack(v: real, edge: real, size: real, pixels: real)
    requires size != 0.0 && pixels != 0.0
    ensures (1.0 - ((1.0 - (v - edge) / size) * pixels) / pixels) * size + edge == v
  {
    var t := (v - edge) / size;
    MulDiv(1.0 - t, pixels);
    DivMul(v - edge, size);
  }

  /** The flipped y axis: a pixel coordinate mapped to the box and back is itself. */
  lemma FlippedForth(v: real, edge: real, size: real, pixels: real)
    requires size != 0.0 && pixels != 0.0
    ensures (1.0 - ((((1.0 - v / pixels) * size + edge) - edge) / size)) * pixels == v
  {
    var t := 1.0 - v / pixels;
    MulDiv(t, size);
    DivMul(v, pixels);
  }

  /** Mapping a box point to the canvas and back gives the point again. */
  lemma CanvasThenBox(pt: Point, box: Box, canvas: Canvas)
    requires box.width != 0 && box.height != 0
    requires canvas.width != 0.0 && canvas.height != 0.0
    ensures ToBoundingBoxPoint(ToCanvasPoint(pt, box, canvas), box, canvas) == pt
  {
    AxisBack(pt.x, box.left as real, box.width as real, canvas.width);
    FlippedBack(pt.y, box.top as real, box.height as real, canvas.height);
  }

  /** Mapping a canvas point to the box and back gives the point again. */
  lemma BoxThenCanvas(pt: Point, box: Box, canvas: Canvas)
    requires box.width != 0 && box.height != 0
    requires canvas.width != 0.0 && canvas.height != 0.0
    ensures ToCanvasPoint(ToBoundingBoxPoint(pt, box, canvas), box, canvas) == pt
  {
    AxisForth(pt.x, box.left as real, box.width as real, canvas.width);
    FlippedForth(pt.y, box.top as real, box.height as real, canvas.height);
  }

  /**
   * The seed point: a click inside the canvas maps to a point inside the
   * bounding box (the top canvas edge to the box's far y edge).
   */
  lemma SeedInsideBox(pt: Point, box: Box, canvas: Canvas)
    requires box.width > 0 && box.height > 0 && canvas.width > 0.0 && canvas.height > 0.0
    requires 0.0 <= pt.x <= canvas.width && 0.0 <= pt.y <= canvas.height
    ensures var s := ToBoundingBoxPoint(pt, box, canvas);
      box.left as real <= s.x <= (box.left + box.width) as real
      && box.top as real <= s.y <= (box.top + box.height) as real
  {
    var fx := pt.x / canvas.width;
    var fy := 1.0 - pt.y / canvas.height;
    assert 0.0 <= fx <= 1.0 by {
      DivMul(pt.x, canvas.width);
    }
    assert 0.0 <= fy <= 1.0 by {
      DivMul(pt.y, canvas.height);
    }
    assert fx * box.width as real <= box.width as real;
    assert fy * box.height as real <= box.height as real;
  }

  // ---------------------------------------------------------------------
  // Line width in onPointAdded
  // ---------------------------------------------------------------------

  /**
   * The width factor of an end point whose nearest other line is at `d`:
   * 1 beyond `dSep`, else `(d - dTest) / (dSep - dTest)`; `None` stands for
   * the non-finite value a zero divisor gives.
   */
  function WidthFactor(d: real, dSep: real, dTest: real): Option<real> {
    if d > dSep then Some(1.0)
    else if dSep == dTest then None
    else Some((d - dTest) / (dSep - dTest))
  }

  /**
   * The width factor is 1 exactly when the end point is farther than
   * `dSep`; between `dTest` and `dSep` it lies in [0, 1].
   */
  lemma WidthFactorRange(d: real, dSep: real, dTest: real)
    requires dTest < dSep
    ensures WidthFactor(d, dSep, dTest).Some?
    ensures d > dSep ==> WidthFactor(d, dSep, dTest) == Some(1.0)
    ensures d <= dSep ==> WidthFactor(d, dSep, dTest) == Some((d - dTest) / (dSep - dTest))
    ensures dTest <= d ==> 0.0 <= WidthFactor(d, dSep, dTest).value <= 1.0
  {
    if dTest <= d <= dSep {
      DivWithin(d - dTest, dSep - dTest);
    }
  }

  /** `Math.min(Math.max(w, 0), 40)`. */
  function Clamp(w: real): real {
    if w < 0.0 then 0.0 else if w > 40.0 then 40.0 else w
  }

  /** The clamp lands in [0, 40] and leaves a width already there alone. */
  lemma ClampRange(w: real)
    ensures 0.0 <= Clamp(w) <= 40.0
    ensures 0.0 <= w <= 40.0 ==> Clamp(w) == w
  {
  }

  /** The width of the segment: the mean of the two end factors, times `dWidth`. */
  function SegmentWidth(fa: Option<real>, fb: Option<real>, dWidth: real): Option<real> {
    if fa.Some? && fb.Some? then Some((fa.value + fb.value) / 2.0 * dWidth) else None
  }

  /** With both factors in [0, 1], the segment is at most `dWidth` wide. */
  lemma SegmentWidthRange(fa: real, fb: real, dWidth: real)
    requires 0.0 <= fa <= 1.0 && 0.0 <= fb <= 1.0 && 0.0 <= dWidth
    ensures var w := SegmentWidth(Some(fa), Some(fb), dWidth);
      w.Some? && 0.0 <= w.value <= dWidth
  {
    var m := (fa + fb) / 2.0;
    assert 0.0 <= m <= 1.0;
    assert m * dWidth <= 1.0 * dWidth;
  }

  /** The state `onPointAdded` updates: the integrator's `dSep` and the closure's `dWidth`. */
  class PointHandler {
    /** `cfg.dSep`, the separation the streamline integrator uses. */
    var cfgDSep: real
    /** The current line width scale. */
    var dWidth: real
    /** The separation drawn at set-up, which the width factor keeps using. */
    const dSep: real
    const dTest: real
    const dSepStep: real
    const dWidthStep: real

    /** The handler as `generate` sets it up from its options. */
    constructor (o: Options)
      requires 0.0 <= o.dWidth <= 40.0
      ensures cfgDSep == o.dSep && dSep == o.dSep && dTest == o.dTest && dWidth == o.dWidth
      ensures dSepStep == o.dSepStep.GetOr(0.0) && dWidthStep == o.dWidthStep.GetOr(0.0)
      ensures 0.0 <= dWidth <= 40.0
    {
      cfgDSep := o.dSep;
      dWidth := o.dWidth;
      dSep := o.dSep;
      dTest := o.dTest;
      dSepStep := o.dSepStep.GetOr(0.0);
      dWidthStep := o.dWidthStep.GetOr(0.0);
    }

    /**
     * `onPointAdded` for a segment whose ends have nearest distances `dA`
     * and `dB`, with draws `r1` (the `dSep` step) and `r2` (the width step):
     * grows `cfg.dSep`, returns the segment width from the old `dWidth`,
     * and moves `dWidth` by a random step clamped to [0, 40].
     */
    method OnPointAdded(dA: real, dB: real, r1: real, r2: real) returns (width: Option<real>)
      modifies this
      ensures cfgDSep == old(cfgDSep) + r1 * dSepStep
      ensures width == SegmentWidth(WidthFactor(dA, dSep, dTest), WidthFactor(dB, dSep, dTest), old(dWidth))
      ensures dWidth == Clamp(old(dWidth) + (r2 - 0.5) * dWidthStep)
      ensures 0.0 <= dWidth <= 40.0
    {
      cfgDSep := cfgDSep + r1 * dSepStep;
      var wA := WidthFactor(dA, dSep, dTest);
      var wB := WidthFactor(dB, dSep, dTest);
      width := SegmentWidth(wA, wB, dWidth);
      var w := dWidth + (r2 - 0.5) * dWidthStep;
      if w < 0.0 {
        w := 0.0;
      }
      if w > 40.0 {
        w := 40.0;
      }
      dWidth := w;
      ClampRange(old(dWidth) + (r2 - 0.5) * dWidthStep);
    }
  }
}
