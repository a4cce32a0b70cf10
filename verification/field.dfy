/**
 * The vector field the simulation samples: `utils.constrain` and `utils.map`
 * of main.js, and the two versions of `createEnhancedVectorField`, which
 * wrap a compiled `getVelocity` function with safety checks.
 *
 * The compiled function is an arbitrary function from normalised coordinates
 * to an outcome (it may throw or return a value that is not a finite vector).
 * The time, noise and distance terms of the main.js version come from the
 * clock, a noise library and a square root; they are inputs here, so every
 * bound below holds whatever they are.
 */
module Field {

  import opened Wrappers
  import opened Arith

  /** `utils.constrain(n, low, high)`: `Math.max(Math.min(n, high), low)`. */
  function Constrain(n: real, low: real, high: real): (r: real)
    ensures low <= high ==> low <= r <= high
    ensures low <= n <= high ==> r == n
    ensures low <= high && n > high ==> r == high
    ensures n < low ==> r == low
  {
    var m := if n < high then n else high;
    if m > low then m else low
  }

  /** `utils.map(value, start1, stop1, start2, stop2)`: the linear map sending start1 to start2 and stop1 to stop2. */
  function Map(value: real, start1: real, stop1: real, start2: real, stop2: real): (r: real)
    requires stop1 != start1
    ensures value == start1 ==> r == start2
    ensures value == stop1 ==> r == stop2
  {
    start2 + (stop2 - start2) * ((value - start1) / (stop1 - start1))
  }

  /** Mapping forth and back again gives the value back. */
  lemma MapInverse(v: real, start1: real, stop1: real, start2: real, stop2: real)
    requires stop1 != start1 && stop2 != start2
    ensures Map(Map(v, start1, stop1, start2, stop2), start2, stop2, start1, stop1) == v
  {
    var t := (v - start1) / (stop1 - start1);
    var u := Map(v, start1, stop1, start2, stop2);
    assert u - start2 == (stop2 - start2) * t;
    assert (u - start2) / (stop2 - start2) == t;
    assert start1 + (stop1 - start1) * t == v;
  }

  /** A value inside the source interval is mapped between the two targets. */
  lemma MapBetween(v: real, start1: real, stop1: real, start2: real, stop2: real)
    requires start1 < stop1 && start1 <= v <= stop1
    ensures start2 <= stop2 ==> start2 <= Map(v, start1, stop1, start2, stop2) <= stop2
    ensures stop2 <= start2 ==> stop2 <= Map(v, start1, stop1, start2, stop2) <= start2
  {
    var t := (v - start1) / (stop1 - start1);
    DivWithin(v - start1, stop1 - start1);
    var d := stop2 - start2;
    if start2 <= stop2 {
      MulNonneg(d, 1.0 - t);
      MulNonneg(d, t);
    } else {
      MulNonneg(-d, 1.0 - t);
      MulNonneg(-d, t);
    }
  }

  /** A component of what the compiled function returned. */
  datatype Component =
    | Num(value: real)   // a finite number
    | NonFinite          // NaN or an infinity
    | NotNumber          // not of type number

  /** The outcome of calling the compiled function. */
  datatype BaseOutcome =
    | Threw                          // it raised an exception
    | Falsy                          // it returned undefined, null, 0, '' or false
    | Vec(x: Component, y: Component)

  /** The compiled `getVelocity`, as a function of the normalised point. */
  type BaseField = (real, real) -> BaseOutcome

  datatype Vec2 = Vec2(x: real, y: real)

  /** A component that `isFinite` accepts and `typeof` calls a number. */
  predicate Usable(c: Component) {
    c.Num?
  }

  /**
   * The checked base vector: {0, 0} for a throw, a falsy value or a
   * component that is not a finite number, otherwise each component
   * clamped to [-10, 10].
   */
  function GuardBase(b: BaseOutcome): (v: Vec2)
    ensures -10.0 <= v.x <= 10.0 && -10.0 <= v.y <= 10.0
    ensures !(b.Vec? && Usable(b.x) && Usable(b.y)) ==> v == Vec2(0.0, 0.0)
    ensures b.Vec? && Usable(b.x) && Usable(b.y) ==>
      (-10.0 <= b.x.value <= 10.0 ==> v.x == b.x.value) &&
      (-10.0 <= b.y.value <= 10.0 ==> v.y == b.y.value) &&
      (b.x.value > 10.0 ==> v.x == 10.0) && (b.x.value < -10.0 ==> v.x == -10.0) &&
      (b.y.value > 10.0 ==> v.y == 10.0) && (b.y.value < -10.0 ==> v.y == -10.0)
  {
    match b
    case Vec(Num(x), Num(y)) => Vec2(Constrain(x, -10.0, 10.0), Constrain(y, -10.0, 10.0))
    case _ => Vec2(0.0, 0.0)
  }

  /** `currentScale || 5`: a zero scale counts as the default 5. */
  function ScaleOrDefault(currentScale: real): (s: real)
    ensures s != 0.0
    ensures currentScale != 0.0 ==> s == currentScale
  {
    if currentScale == 0.0 then 5.0 else currentScale
  }

  /**
   * The normalised coordinate of screen coordinate `x` on an axis of length
   * `extent`: `(x - extent / 2) / (extent * coordinateScale)`, with
   * `coordinateScale = 0.005 / (scale / 5)`.
   */
  function NormCoord(x: real, extent: real, currentScale: real): real
    requires extent > 0.0
  {
    var coordinateScale := 0.005 / (ScaleOrDefault(currentScale) / 5.0);
    (x - extent / 2.0) / (extent * coordinateScale)
  }

  /**
   * The normalised coordinate is 40 * scale * (x - extent/2) / extent: the
   * centre goes to 0 and the screen spans [-20 * scale, 20 * scale], that is
   * [-100, 100] at the default scale.
   */
  lemma NormCoordLinear(x: real, extent: real, currentScale: real)
    requires extent > 0.0
    ensures NormCoord(x, extent, currentScale) ==
      40.0 * ScaleOrDefault(currentScale) * (x - extent / 2.0) / extent
    ensures NormCoord(extent / 2.0, extent, currentScale) == 0.0
  {
    var s := ScaleOrDefault(currentScale);
    var cs := 0.005 / (s / 5.0);
    assert cs == 0.025 / s;
    assert extent * cs == extent * 0.025 / s;
    assert (x - extent / 2.0) / (extent * 0.025 / s) == 40.0 * s * (x - extent / 2.0) / extent;
  }

  /** The base vector the field starts from at screen point (x, y). */
  function BaseAt(f: BaseField, x: real, y: real, width: real, height: real, currentScale: real): Vec2
    requires width > 0.0 && height > 0.0
  {
    GuardBase(f(NormCoord(x, width, currentScale), NormCoord(y, height, currentScale)))
  }

  /**
   * viz.js `createEnhancedVectorField`: {0, 0} without a compiled function,
   * otherwise the checked base vector, with no further clamp.
   */
  function VizField(base: Option<BaseField>, x: real, y: real, width: real, height: real, currentScale: real): (v: Vec2)
    requires width > 0.0 && height > 0.0
    ensures base.None? ==> v == Vec2(0.0, 0.0)
    ensures -10.0 <= v.x <= 10.0 && -10.0 <= v.y <= 10.0
  {
    match base
    case None => Vec2(0.0, 0.0)
    case Some(f) => BaseAt(f, x, y, width, height, currentScale)
  }

  /**
   * A finite base vector inside [-10, 10] passes through the viz.js field
   * unchanged, for example {5, -3}; one outside is cut at 10 and not scaled.
   */
  lemma VizFieldPassesBase(f: BaseField, x: real, y: real, width: real, height: real, currentScale: real, baseX: real, baseY: real)
    requires width > 0.0 && height > 0.0
    requires f(NormCoord(x, width, currentScale), NormCoord(y, height, currentScale)) == Vec(Num(baseX), Num(baseY))
    ensures -10.0 <= baseX <= 10.0 && -10.0 <= baseY <= 10.0 ==> VizField(Some(f), x, y, width, height, currentScale) == Vec2(baseX, baseY)
    ensures baseX > 10.0 ==> VizField(Some(f), x, y, width, height, currentScale).x == 10.0
  {
  }

  /** `mousePos.x || width / 2`: a pointer coordinate of 0 counts as the centre. */
  function PointerOr(coord: real, center: real): (r: real)
    ensures coord != 0.0 ==> r == coord
    ensures coord == 0.0 ==> r == center
  {
    if coord == 0.0 then center else coord
  }

  /**
   * The terms of the main.js field that come from the clock, the noise
   * library and a square root: `breathe`, `globalActivity`, the noise sample
   * that scales the pointer's strength, `swirl` (already the transformed
   * `noise * 2 - 1` of main.js:483) and the distance from the pointer.
   */
  datatype Ambient = Ambient(breathe: real, activity: real, mouseNoise: real, swirl: real, dist: real)

  /**
   * `mouseInfluenceStrength`: the distance, constrained to
   * [0, 2 * min(width, height)], mapped linearly from 0.9 to 0.1 times the
   * noise-scaled strength `0.5 * noise + 0.5`.
   */
  function MouseStrength(dist: real, mouseNoise: real, width: real, height: real): real
    requires width > 0.0 && height > 0.0
  {
    var maxInfluence := (if width < height then width else height) * 2.0;
    var n := mouseNoise * 0.5 + 0.5;
    Map(Constrain(dist, 0.0, maxInfluence), 0.0, maxInfluence, 0.9 * n, 0.1 * n)
  }

  /**
   * For a noise sample in [0, 1] the pointer's pull lies between 0.1 and 0.9
   * times the noise-scaled strength, so between 0.05 and 0.9; it is
   * strongest at the pointer.
   */
  lemma MouseStrengthBounds(dist: real, mouseNoise: real, width: real, height: real)
    requires width > 0.0 && height > 0.0
    requires 0.0 <= mouseNoise <= 1.0
    ensures 0.1 * (mouseNoise * 0.5 + 0.5) <= MouseStrength(dist, mouseNoise, width, height) <= 0.9 * (mouseNoise * 0.5 + 0.5)
    ensures 0.05 <= MouseStrength(dist, mouseNoise, width, height) <= 0.9
    ensures dist <= 0.0 ==> MouseStrength(dist, mouseNoise, width, height) == 0.9 * (mouseNoise * 0.5 + 0.5)
  {
    var maxInfluence := (if width < height then width else height) * 2.0;
    var n := mouseNoise * 0.5 + 0.5;
    MapBetween(Constrain(dist, 0.0, maxInfluence), 0.0, maxInfluence, 0.9 * n, 0.1 * n);
  }

  /**
   * The pointer's pull towards itself, `(mouse - p) * 0.0005`, plus the swirl
   * perpendicular to it, `(-pullY, pullX) * (0.5 + swirl * 0.3)`.
   */
  function PointerPull(x: real, y: real, mouseX: real, mouseY: real, swirl: real): (v: Vec2)
    ensures mouseX == x && mouseY == y ==> v == Vec2(0.0, 0.0)
  {
    var mouseVecX := (mouseX - x) * 0.0005;
    var mouseVecY := (mouseY - y) * 0.0005;
    var w := 0.5 + swirl * 0.3;
    Vec2(mouseVecX + -mouseVecY * w, mouseVecY + mouseVecX * w)
  }

  /** `scale`: `8 * globalActivity * breathe * flowIntensity`. */
  function FlowScale(amb: Ambient, flowIntensity: real): real {
    8.0 * amb.activity * amb.breathe * flowIntensity
  }

  /** One component before the final clamp: `(base + 1 + pointer * strength) * scale`. */
  function Unclamped(base: real, pointer: real, strength: real, scale: real): real {
    (base + 1.0 + pointer * strength) * scale
  }

  /**
   * main.js `createEnhancedVectorField`: {0, 0} without a compiled function;
   * otherwise the checked base vector plus the constant drift of 1, the
   * pointer's pull and swirl, scaled by `8 * globalActivity * breathe *
   * flowIntensity`, and each component clamped to [-60, 60].
   */
  function MainField(base: Option<BaseField>, x: real, y: real, width: real, height: real,
                     currentScale: real, flowIntensity: real, mouse: Vec2, amb: Ambient): (v: Vec2)
    requires width > 0.0 && height > 0.0
    ensures base.None? ==> v == Vec2(0.0, 0.0)
    ensures -60.0 <= v.x <= 60.0 && -60.0 <= v.y <= 60.0
  {
    match base
    case None => Vec2(0.0, 0.0)
    case Some(f) =>
      var b := BaseAt(f, x, y, width, height, currentScale);
      var mouseX := PointerOr(mouse.x, width / 2.0);
      var mouseY := PointerOr(mouse.y, height / 2.0);
      var strength := MouseStrength(amb.dist, amb.mouseNoise, width, height);
      var pull := PointerPull(x, y, mouseX, mouseY, amb.swirl);
      var scale := FlowScale(amb, flowIntensity);
      Vec2(Constrain(Unclamped(b.x, pull.x, strength, scale), -60.0, 60.0),
           Constrain(Unclamped(b.y, pull.y, strength, scale), -60.0, 60.0))
  }

  /**
   * A compiled function that throws, or returns something other than a
   * finite vector, contributes a zero base: the field then depends on the
   * pointer and the ambient terms alone, exactly as with a base of {0, 0}.
   */
  lemma MainFieldInvalidBase(f: BaseField, g: BaseField, x: real, y: real, width: real, height: real,
                             currentScale: real, flowIntensity: real, mouse: Vec2, amb: Ambient)
    requires width > 0.0 && height > 0.0
    requires !(var o := f(NormCoord(x, width, currentScale), NormCoord(y, height, currentScale));
               o.Vec? && Usable(o.x) && Usable(o.y))
    requires g(NormCoord(x, width, currentScale), NormCoord(y, height, currentScale)) == Vec(Num(0.0), Num(0.0))
    ensures MainField(Some(f), x, y, width, height, currentScale, flowIntensity, mouse, amb) ==
            MainField(Some(g), x, y, width, height, currentScale, flowIntensity, mouse, amb)
  {
  }

  /**
   * With the pointer exactly on the point (away from the axes, where a
   * coordinate of 0 would be read as the centre) the pointer adds neither
   * pull nor swirl: each component is (base + 1) * scale, clamped.
   */
  lemma MainFieldAtPointer(f: BaseField, x: real, y: real, width: real, height: real,
                           currentScale: real, flowIntensity: real, mouse: Vec2, amb: Ambient)
    requires width > 0.0 && height > 0.0 && x != 0.0 && y != 0.0
    requires mouse.x == x && mouse.y == y
    ensures var b := BaseAt(f, x, y, width, height, currentScale);
            var scale := FlowScale(amb, flowIntensity);
            MainField(Some(f), x, y, width, height, currentScale, flowIntensity, mouse, amb) ==
            Vec2(Constrain((b.x + 1.0) * scale, -60.0, 60.0), Constrain((b.y + 1.0) * scale, -60.0, 60.0))
  {
    var b := BaseAt(f, x, y, width, height, currentScale);
    var strength := MouseStrength(amb.dist, amb.mouseNoise, width, height);
    var scale := FlowScale(amb, flowIntensity);
    var pull := PointerPull(x, y, PointerOr(mouse.x, width / 2.0), PointerOr(mouse.y, height / 2.0), amb.swirl);
    assert pull == Vec2(0.0, 0.0);
    assert Unclamped(b.x, 0.0, strength, scale) == (b.x + 1.0) * scale;
    assert Unclamped(b.y, 0.0, strength, scale) == (b.y + 1.0) * scale;
  }
}
