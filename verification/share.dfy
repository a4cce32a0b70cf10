/**
 * The URL hash both pages use to share a field, and the saved-functions
 * dictionary of main.js.
 *
 * main.js writes `#seed,numParticles,flowIntensity,currentScale,longExposureDecay`
 * and reads the fields back by position, with defaults for unreadable ones;
 * an older hash holding only a seed is still accepted.  viz.js writes only
 * `#seed` and reads the leading integer of the hash.  `location` below is
 * `window.location.hash`, '#' included.
 */
module Share {

  import opened Wrappers
  import opened Text

  // ---------------------------------------------------------------------------
  // parseInt stops at a comma
  // ---------------------------------------------------------------------------

  /** A comma, or nothing, ends what `parseInt` reads. */
  predicate CommaOrEnd(c: string) {
    c == [] || c[0] == ','
  }

  /** Leading white space is skipped up to the comma that follows it. */
  lemma {:induction false} TrimStartAppend(a: string, c: string)
    requires CommaOrEnd(c)
    ensures TrimStart(a + c) == TrimStart(a) + c
    decreases |a|
  {
    if a == [] {
      assert a + c == c;
      if c != [] {
        TrimStartStops(c);
      }
    } else if IsSpace(a[0]) {
      assert (a + c)[0] == a[0] && (a + c)[1..] == a[1..] + c;
      TrimStartAppend(a[1..], c);
    } else {
      assert (a + c)[0] == a[0];
      TrimStartStops(a + c);
      TrimStartStops(a);
    }
  }

  /** The sign is read from the text before the comma. */
  lemma SignAppend(t: string, c: string)
    requires CommaOrEnd(c)
    ensures Sign(t + c) == (Sign(t).0, Sign(t).1 + c)
  {
    if t == [] {
      assert t + c == c;
    } else {
      assert (t + c)[0] == t[0] && (t + c)[1..] == t[1..] + c;
    }
  }

  /** A run of digits ends at a character that is no digit. */
  lemma {:induction false} DigitRunAppend(u: string, c: string, b: nat)
    requires c == [] || !IsDigit(c[0], b)
    ensures DigitRun(u + c, b) == DigitRun(u, b)
    decreases |u|
  {
    if u == [] {
      assert u + c == c;
    } else {
      assert (u + c)[0] == u[0] && (u + c)[1..] == u[1..] + c;
      DigitRunAppend(u[1..], c, b);
    }
  }

  /** The leading digits are those before the comma. */
  lemma LeadingDigitsAppend(u: string, c: string, b: nat)
    requires CommaOrEnd(c) && b <= 16
    ensures LeadingDigits(u + c, b) == LeadingDigits(u, b)
  {
    assert c != [] ==> DigitValue(c[0]) == 36;
    DigitRunAppend(u, c, b);
    var n := DigitRun(u, b);
    assert (u + c)[..n] == u[..n];
  }

  /** The unsigned part, hexadecimal prefix included, is read before the comma. */
  lemma UnsignedIntAppend(u: string, c: string)
    requires CommaOrEnd(c)
    ensures UnsignedInt(u + c) == UnsignedInt(u)
  {
    if |u| >= 2 {
      assert (u + c)[0] == u[0] && (u + c)[1] == u[1];
      if u[0] == '0' && (u[1] == 'x' || u[1] == 'X') {
        assert (u + c)[2..] == u[2..] + c;
        LeadingDigitsAppend(u[2..], c, 16);
      } else {
        LeadingDigitsAppend(u, c, 10);
      }
    } else {
      if |u + c| >= 2 {
        assert (u + c)[1] == ',' || (u + c)[1] == c[1];
        assert |u| == 1 ==> (u + c)[1] == ',';
        assert |u| == 0 ==> (u + c)[0] == ',';
      }
      LeadingDigitsAppend(u, c, 10);
    }
  }

  /** `parseInt` of text followed by a comma and anything is `parseInt` of the text. */
  lemma ParseIntAppend(a: string, c: string)
    requires CommaOrEnd(c)
    ensures ParseInt(a + c) == ParseInt(a)
  {
    TrimStartAppend(a, c);
    var t := TrimStart(a);
    SignAppend(t, c);
    var (sign, u) := Sign(t);
    UnsignedIntAppend(u, c);
    ParseIntParts(a, sign, u);
    ParseIntParts(a + c, sign, u + c);
  }

  /** `parseInt` in terms of the sign and the unsigned text after the white space. */
  lemma ParseIntParts(s: string, sign: int, u: string)
    requires Sign(TrimStart(s)) == (sign, u)
    ensures ParseInt(s) == Signed(sign, UnsignedInt(u))
  {
  }

  /** `parseInt` of the first comma-separated field is `parseInt` of the whole text. */
  lemma FirstFieldInt(h: string)
    ensures ParseInt(Split(h)[0]) == ParseInt(h)
  {
    SplitFirst(h);
    var k := |Split(h)[0]|;
    assert h == h[..k] + h[k..];
    ParseIntAppend(h[..k], h[k..]);
  }

  // ---------------------------------------------------------------------------
  // main.js: updateURL / generateShareableURL / loadFromURL
  // ---------------------------------------------------------------------------

  /** The settings carried after the seed. */
  datatype Settings = Settings(particles: int, flow: real, scale: real, exposure: real)

  /** What a hash asks for: a seed alone (the old form), or a seed and settings. */
  datatype Request = SeedOnly(seed: int) | WithSettings(seed: int, settings: Settings)

  /** `location.hash.slice(1)`: the hash without its '#'. */
  function Fragment(location: string): (h: string)
    ensures location == [] ==> h == []
    ensures location != [] ==> location == [location[0]] + h
  {
    if location == [] then [] else location[1..]
  }

  /**
   * The text `updateURL` and `generateShareableURL` put after the '#', for a
   * current seed and the settings; `None` when there is no seed yet.
   * `String(x)` of each setting is written for a number given as a
   * canonical decimal.
   */
  function ShareHash(seed: Option<int>, particles: int, flow: Decimal, scale: Decimal, exposure: Decimal): (h: Option<string>)
    requires flow.Canonical() && scale.Canonical() && exposure.Canonical()
    ensures h.Some? <==> seed.Some?
    ensures h.Some? ==> |h.value| >= 1 && h.value[0] == '#'
  {
    match seed
    case None => None
    case Some(s) =>
      Some("#" + Join([FormatInt(s), FormatInt(particles), FormatDecimal(flow), FormatDecimal(scale), FormatDecimal(exposure)]))
  }

  /**
   * `loadFromURL`'s reading of the hash: nothing for an empty hash; with a
   * comma, five fields or more, of which the first must be an integer and
   * the next four fall back to 300, 4.0, 4.0 and 0.95 when they are not
   * numbers; without a comma, the integer the whole hash starts with.
   */
  function ParseHash(location: string): Option<Request> {
    var hash := Fragment(location);
    if hash == [] then None
    else if ',' in hash then
      var params := Split(hash);
      if |params| >= 5 then
        match ParseInt(params[0])
        case None => None
        case Some(seed) =>
          Some(WithSettings(seed, Settings(
            ParseInt(params[1]).GetOr(300),
            ParseFloat(params[2]).GetOr(4.0),
            ParseFloat(params[3]).GetOr(4.0),
            ParseFloat(params[4]).GetOr(0.95))))
      else None
    else
      match ParseInt(hash)
      case None => None
      case Some(seed) => Some(SeedOnly(seed))
  }

  /**
   * A hash is accepted exactly when it is not empty, its first field is an
   * integer and, when it has a comma, it has at least five fields; the
   * comma form always carries settings and the old form never does.
   */
  lemma ParseHashAccepts(location: string)
    ensures var hash := Fragment(location);
      ParseHash(location).Some? <==>
        hash != [] && ParseInt(Split(hash)[0]).Some? && (',' in hash ==> |Split(hash)| >= 5)
    ensures ParseHash(location).Some? ==> (ParseHash(location).value.WithSettings? <==> ',' in Fragment(location))
  {
    SplitFirst(Fragment(location));
  }

  /**
   * The seed of an accepted hash is the leading integer of its first field,
   * and a setting that is not a number takes its default.
   */
  lemma ParseHashFields(location: string)
    requires ParseHash(location).Some?
    ensures var hash := Fragment(location);
      ParseInt(hash) == Some(ParseHash(location).value.seed)
    ensures ParseHash(location).value.WithSettings? ==>
      var params := Split(Fragment(location));
      var st := ParseHash(location).value.settings;
      (ParseInt(params[1]).None? ==> st.particles == 300) &&
      (ParseFloat(params[2]).None? ==> st.flow == 4.0) &&
      (ParseFloat(params[3]).None? ==> st.scale == 4.0) &&
      (ParseFloat(params[4]).None? ==> st.exposure == 0.95)
  {
    FirstFieldInt(Fragment(location));
    SplitFirst(Fragment(location));
  }

  /**
   * Reading back a written hash gives the seed and every setting as they
   * were written.
   */
  lemma ShareRoundTrip(seed: int, particles: int, flow: Decimal, scale: Decimal, exposure: Decimal)
    requires flow.Canonical() && scale.Canonical() && exposure.Canonical()
    ensures var h := ShareHash(Some(seed), particles, flow, scale, exposure);
      h.Some? && ParseHash(h.value) == Some(WithSettings(seed, Settings(particles, flow.Value(), scale.Value(), exposure.Value())))
  {
    var parts := [FormatInt(seed), FormatInt(particles), FormatDecimal(flow), FormatDecimal(scale), FormatDecimal(exposure)];
    var hash := Join(parts);
    SplitJoin(parts);
    SplitFirst(hash);
    assert Fragment("#" + hash) == hash;
    assert FormatInt(seed) + "" == FormatInt(seed);
    assert FormatInt(particles) + "" == FormatInt(particles);
    ParseIntFormatInt(seed, "");
    ParseIntFormatInt(particles, "");
    ParseFloatFormatDecimal(flow);
    ParseFloatFormatDecimal(scale);
    ParseFloatFormatDecimal(exposure);
    ParseHashSettings("#" + hash, parts, seed, Settings(particles, flow.Value(), scale.Value(), exposure.Value()));
  }

  /** A comma form whose five fields all read as numbers gives those numbers. */
  lemma ParseHashSettings(location: string, params: seq<string>, seed: int, st: Settings)
    requires params == Split(Fragment(location)) && |params| >= 5
    requires ParseInt(params[0]) == Some(seed) && ParseInt(params[1]) == Some(st.particles)
    requires ParseFloat(params[2]) == Some(st.flow) && ParseFloat(params[3]) == Some(st.scale)
    requires ParseFloat(params[4]) == Some(st.exposure)
    ensures ParseHash(location) == Some(WithSettings(seed, st))
  {
    SplitFirst(Fragment(location));
  }

  /** The value `initSimulation(seed)` gives `currentSeed`, as written: `seed || draw`. */
  function InitSeedAsWritten(seed: Option<int>, draw: int): int {
    if seed.Some? && seed.value != 0 then seed.value else draw
  }

  /** A hash with seed 0 reads back as 0, but the field is built from a fresh draw. */
  lemma ZeroSeedReplaced()
    ensures ParseHash("#0") == Some(SeedOnly(0))
    ensures InitSeedAsWritten(Some(0), 7) == 7
  {
    assert Fragment("#0") == "0";
    assert "0" == FormatInt(0) + "";
    ParseIntFormatInt(0, "");
  }

  /**
   * The seed `initSimulation` uses, repaired: the one given, a fresh draw
   * only when none is given.  It differs from the written choice only for
   * the seed 0.
   */
  function InitSeed(seed: Option<int>, draw: int): (s: int)
    ensures seed.Some? ==> s == seed.value
    ensures seed.None? ==> s == draw
    ensures seed != Some(0) ==> s == InitSeedAsWritten(seed, draw)
  {
    if seed.Some? then seed.value else draw
  }

  /** The module state of main.js that a hash is read into. */
  class Session {
    var currentSeed: Option<int>
    var numParticles: int
    var flowIntensity: real
    var currentScale: real
    var longExposureDecay: real

    /** The values the module starts with. */
    constructor ()
      ensures currentSeed == None && numParticles == 1000
      ensures flowIntensity == 4.0 && currentScale == 5.0 && longExposureDecay == 0.8
    {
      currentSeed := None;
      numParticles := 1000;
      flowIntensity := 4.0;
      currentScale := 5.0;
      longExposureDecay := 0.8;
    }

    /**
     * `loadFromURL()`: read the hash, assign the settings it carries and
     * start the simulation with its seed (`draw` is the random seed
     * `initSimulation` would fall back to).  Returns whether the hash was
     * used; an unusable hash changes nothing.
     */
    method LoadFromURL(location: string, draw: nat) returns (ok: bool)
      requires draw < 1000000
      modifies this
      ensures ok <==> ParseHash(location).Some?
      ensures !ok ==> unchanged(this)
      ensures ok ==> currentSeed == Some(ParseHash(location).value.seed)
      ensures ok && ParseHash(location).value.SeedOnly? ==>
        numParticles == old(numParticles) && flowIntensity == old(flowIntensity) &&
        currentScale == old(currentScale) && longExposureDecay == old(longExposureDecay)
      ensures ok && ParseHash(location).value.WithSettings? ==>
        Settings(numParticles, flowIntensity, currentScale, longExposureDecay) == ParseHash(location).value.settings
    {
      var parsed := ParseHash(location);
      if parsed.None? {
        ok := false;
        return;
      }
      var request := parsed.value;
      if request.WithSettings? {
        Assign(request.settings);
      }
      currentSeed := Some(InitSeed(Some(request.seed), draw));
      ok := true;
    }

    /** The four assignments `loadFromURL()` makes from the comma form of the hash. */
    method Assign(st: Settings)
      modifies this
      ensures Settings(numParticles, flowIntensity, currentScale, longExposureDecay) == st
      ensures currentSeed == old(currentSeed)
    {
      numParticles := st.particles;
      flowIntensity := st.flow;
      longExposureDecay := st.exposure;
      currentScale := st.scale;
    }
  }

  // ---------------------------------------------------------------------------
  // viz.js: seed-only updateURL / loadFromURL
  // ---------------------------------------------------------------------------

  /** viz.js `updateURL`: the seed alone after the '#'; nothing when there is no seed. */
  function VizHash(seed: Option<int>): (h: Option<string>)
    ensures h.Some? <==> seed.Some?
  {
    match seed
    case None => None
    case Some(s) => Some("#" + Join([FormatInt(s)]))
  }

  /**
   * viz.js `loadFromURL`'s reading of the hash: nothing when it is empty;
   * otherwise the leading integer of the first comma field, or of the whole
   * hash when there is no comma.
   */
  function ParseVizHash(location: string): Option<int> {
    var hash := Fragment(location);
    if hash == [] then None
    else if ',' in hash then ParseInt(Split(hash)[0])
    else ParseInt(hash)
  }

  /** Both forms of viz.js come to the leading integer of the whole hash. */
  lemma VizLeadingInt(location: string)
    ensures ParseVizHash(location) == if Fragment(location) == [] then None else ParseInt(Fragment(location))
  {
    FirstFieldInt(Fragment(location));
  }

  /** viz.js reads back the seed it wrote. */
  lemma VizRoundTrip(seed: int)
    ensures VizHash(Some(seed)).Some? && ParseVizHash(VizHash(Some(seed)).value) == Some(seed)
  {
    var t := FormatInt(seed);
    assert Fragment("#" + t) == t;
    assert t + "" == t;
    ParseIntFormatInt(seed, "");
    VizLeadingInt("#" + t);
  }

  /** The module state of viz.js that a hash is read into. */
  class VizSession {
    var currentSeed: Option<int>

    constructor ()
      ensures currentSeed == None
    {
      currentSeed := None;
    }

    /** viz.js `loadFromURL()`: start the simulation with the hash's seed, if it has one. */
    method LoadFromURL(location: string, draw: nat) returns (ok: bool)
      requires draw < 1000000
      modifies this
      ensures ok <==> ParseVizHash(location).Some?
      ensures ok ==> currentSeed == ParseVizHash(location)
      ensures !ok ==> currentSeed == old(currentSeed)
    {
      var hash := Fragment(location);
      if hash == [] {
        return false;
      }
      var seed: Option<int>;
      if ',' in hash {
        var params := Split(hash);
        seed := ParseInt(params[0]);
      } else {
        seed := ParseInt(hash);
      }
      if seed.None? {
        return false;
      }
      currentSeed := Some(InitSeed(seed, draw));
      return true;
    }
  }

  // ---------------------------------------------------------------------------
  // main.js: the saved-functions dictionary
  // ---------------------------------------------------------------------------

  /** One entry of the dictionary kept under 'techne-saved-functions'. */
  datatype SavedFunction = SavedFunction(code: string, savedAt: string, name: string)

  /** The dictionary, by name. */
  type Store = map<string, SavedFunction>

  /**
   * The names a plain object answers through its prototype, `Object.prototype`:
   * looking one of them up gives a truthy value although no entry has that name.
   */
  const InheritedNames: set<string> := {
    "constructor", "hasOwnProperty", "isPrototypeOf", "propertyIsEnumerable",
    "toLocaleString", "toString", "valueOf", "__defineGetter__", "__defineSetter__",
    "__lookupGetter__", "__lookupSetter__", "__proto__"
  }

  /**
   * Whether `savedFunctions[name] = ...` makes an entry: always, except for
   * "__proto__" without an entry of its own, where the assignment goes to
   * the prototype setter and `JSON.stringify` then drops it.
   */
  predicate Assignable(store: Store, name: string) {
    name != "__proto__" || name in store
  }

  /** `saveFunctionToStorage(name, code)`, with `now` the ISO time of the save. */
  function SaveFunction(store: Store, name: string, code: string, now: string): (s: Store)
    ensures Assignable(store, name) ==> s.Keys == store.Keys + {name} && s[name].code == code
    ensures !Assignable(store, name) ==> s == store
  {
    if Assignable(store, name) then store[name := SavedFunction(code, now, name)] else store
  }

  /** `deleteFunctionFromStorage(name)`; deleting a missing name changes nothing. */
  function DeleteFunction(store: Store, name: string): (s: Store)
    ensures s.Keys == store.Keys - {name}
  {
    store - {name}
  }

  /** The code `loadSelectedFunction` compiles for a name: none for an empty or unknown name. */
  function LoadFunction(store: Store, name: string): Option<string> {
    if name == [] || name !in store then None else Some(store[name].code)
  }

  /**
   * A saved function loads back with the code saved, and no other entry
   * changes; a save under "__proto__" leaves nothing to load.
   */
  lemma SaveThenLoad(store: Store, name: string, code: string, now: string, other: string)
    requires name != []
    ensures Assignable(store, name) ==> LoadFunction(SaveFunction(store, name, code, now), name) == Some(code)
    ensures !Assignable(store, name) ==> LoadFunction(SaveFunction(store, name, code, now), name) == None
    ensures other != name ==> LoadFunction(SaveFunction(store, name, code, now), other) == LoadFunction(store, other)
  {
  }

  /** A deleted function no longer loads, and no other entry changes. */
  lemma DeleteThenLoad(store: Store, name: string, other: string)
    ensures LoadFunction(DeleteFunction(store, name), name) == None
    ensures other != name ==> LoadFunction(DeleteFunction(store, name), other) == LoadFunction(store, other)
  {
  }

  /** Deleting a function just saved under a new name restores the dictionary. */
  lemma SaveThenDelete(store: Store, name: string, code: string, now: string)
    requires name !in store
    ensures DeleteFunction(SaveFunction(store, name, code, now), name) == store
  {
    assert DeleteFunction(SaveFunction(store, name, code, now), name).Keys == store.Keys;
  }

  /** Saving twice under one name keeps only the second save. */
  lemma SaveOverwrites(store: Store, name: string, code1: string, now1: string, code2: string, now2: string)
    ensures SaveFunction(SaveFunction(store, name, code1, now1), name, code2, now2) == SaveFunction(store, name, code2, now2)
  {
  }

  /** The white space `String.prototype.trim` removes (the ASCII part of it). */
  function Trim(s: string): (t: string)
    ensures |t| <= |TrimStart(s)| <= |s|
    ensures var u := TrimStart(s); t == u[..|t|] && forall k :: |t| <= k < |u| ==> IsSpace(u[k])
    ensures t != [] ==> !IsSpace(t[0]) && !IsSpace(t[|t| - 1])
  {
    TrimEnd(TrimStart(s))
  }

  /** `s` without its trailing white space. */
  function TrimEnd(s: string): (t: string)
    ensures |t| <= |s| && t == s[..|t|]
    ensures forall k :: |t| <= k < |s| ==> IsSpace(s[k])
    ensures t == [] || !IsSpace(t[|t| - 1])
    decreases |s|
  {
    if s != [] && IsSpace(s[|s| - 1]) then TrimEnd(s[..|s| - 1]) else s
  }

  /**
   * The test `savedFunctions[functionName]` of `saveCurrentFunction()`: an
   * entry of that name, or a name the prototype answers.
   */
  predicate Taken(store: Store, name: string) {
    name in store || name in InheritedNames
  }

  /** "toString" is taken even in an empty dictionary: saving it asks first. */
  lemma InheritedNameAsks(code: string, now: string)
    requires code != []
    ensures SaveCurrent(map[], "toString", Some(code), false, now) == map[]
    ensures SaveCurrent(map[], "toString", Some(code), true, now).Keys == {"toString"}
  {
    TrimStartStops("toString");
    assert TrimEnd("toString") == "toString";
    assert Trim("toString") == "toString";
  }

  /**
   * `saveCurrentFunction()`: save the current code under the trimmed name,
   * unless the name is blank, there is no code, or the name is taken and the
   * overwrite is not confirmed.
   */
  function SaveCurrent(store: Store, input: string, code: Option<string>, confirmed: bool, now: string): Store {
    var name := Trim(input);
    if name == [] || code.None? || code.value == [] then store
    else if Taken(store, name) && !confirmed then store
    else SaveFunction(store, name, code.value, now)
  }

  /**
   * The save either leaves the dictionary alone or saves under the trimmed
   * name, and it saves exactly when the name is not blank, there is code,
   * and the name is new or the overwrite confirmed.
   */
  lemma SaveCurrentEffect(store: Store, input: string, code: Option<string>, confirmed: bool, now: string)
    ensures var name := Trim(input);
      var saves := name != [] && code.Some? && code.value != [] && (!Taken(store, name) || confirmed);
      (saves ==> SaveCurrent(store, input, code, confirmed, now) == SaveFunction(store, name, code.value, now)) &&
      (!saves ==> SaveCurrent(store, input, code, confirmed, now) == store)
    ensures var name := Trim(input);
      SaveCurrent(store, input, code, confirmed, now) != store ==> LoadFunction(SaveCurrent(store, input, code, confirmed, now), name) == code
  {
  }
}
