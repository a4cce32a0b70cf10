# techne: a verified model of the field generator and its simulation

techne draws flow fields. A seed drives everything else:

- A seeded Park–Miller generator drives a weighted grammar of 18 rules. The grammar writes a random `getVelocity(p)` function as JavaScript text.
- That function is compiled and wrapped in a guarded vector field.
- Particles are pushed through the field, leaving short trails.
- The page shares its seed and settings in the URL hash and keeps named functions in a dictionary.

A second page, `viz.js`, draws the same field as arrows, one 50 by 50 chunk per frame. `generate.js` draws streamlines through a field made of the expression generator and a Perlin noise source (`generateNoise.js`).

This project models those pieces in Dafny, one module per concern:

| module | file | what it models |
|---|---|---|
| ParkMiller | park_miller.dfy | `SeededRandom`, the Lehmer generator with modulus 2^31 − 1 and multiplier 16807 |
| Grammar | grammar.dfy | the class weights, the 18 rules of `fList`, expression trees and the text they render to |
| Sampling | sampling.dfy | the functional specification of the synthesiser: normalised probabilities, the cumulative walk that selects a rule, and the tree a run draws from a generator state |
| Synthesizer | synthesizer.dfy | the module state (`probabilityClass`, every rule's `probability`, the current random source) and the imperative `normalizeProbabilities`, `generateArguments`, `render` and `generate`, each proved to follow `Sampling` |
| Text | text.dfy | the JavaScript conversions the helpers rely on: `toString(b)`, `parseInt`, `parseFloat`, `split(',')` and `join(',')` |
| Colour | colour.dfy | `hexToRgb` and `rgbToHex` |
| Field | field.dfy | `constrain`, `map` and both versions of `createEnhancedVectorField` |
| Particles | particles.dfy | the particle pool: `updateParticles`, `spawnParticlesAtMouse`, `resetParticles` |
| Share | share.dfy | the URL hash codec of both pages and the saved-functions dictionary |
| Scan | scan.dfy | the chunked scan cursor of viz.js `drawVectorField` |
| PerlinNoise | noise.dfy | the `Noise` object: its 512-byte table, `noise2d`, the octave sum, and `generateNoise` |
| Draws, Arith, Wrappers | draws.dfy, arith.dfy, wrappers.dfy | `choose` and `Math.round` on a draw, real-arithmetic facts, and `Option` |
| Streamlines | streamlines.dfy | the random set-up of a streamline drawing, the box/canvas coordinate maps and the width bookkeeping of `onPointAdded` |

**How the model treats the inputs:**

- Every `Math.random()` value, clock reading and noise-library sample is a parameter. A lemma that needs a range says so, for example `0 <= r < 1`.
- Floating-point numbers are reals.
- Integers are unbounded. Where the source truncates, that is written out: `%` toward zero in `SeededRandom`, and the `Uint8Array` store. JavaScript numbers are doubles, which round integers above 2^53; that rounding is not modelled (see the `Text.ParseInt` line under "Left out").
- The expression recursion, which terminates only with probability one, carries a `fuel` bound. `None` means the bound was reached.

## Model

| member | source | states |
|---|---|---|
| `ParkMiller.JsRem` | generateFunction.js:155 | JavaScript's `%`: for a non-negative dividend it agrees with the Euclidean remainder and lies in [0, b); for a negative dividend it lies in (−b, 0] |
| `ParkMiller.InitStateAsWritten` | generateFunction.js:154-157 | the constructor as written yields a state in [0, 2^31 − 2]; the state 0 is reachable (see Findings) |
| `ParkMiller.InitState` | generateFunction.js:154-157 | the corrected constructor always yields a state in [1, 2^31 − 2]. It agrees with the written one wherever that is non-zero. A seed in (0, 2^31 − 1) is kept, and a multiple of the modulus (seed 0 included) maps to 2147483646 |
| `ParkMiller.NextStateInRange` | generateFunction.js:159-160 | `next()` maps a state in [1, 2^31 − 2] into the same range, because the multiplier is invertible modulo the prime 2^31 − 1 |
| `ParkMiller.DrawInUnit` | generateFunction.js:161 | the value `(state − 1) / 2147483646` of a state in range lies in [0, 1) |
| `ParkMiller.NextNInRange` | generateFunction.js:159-162 | any number of `next()` calls from a state in range stays in range |
| `ParkMiller.NextNAdd` | generateFunction.js:159-162 | a steps followed by b steps are a + b steps |
| `ParkMiller.AsWrittenSeedSticksAtZero` | generateFunction.js:154-162 | as written, seed −2147483646 yields state 0; every later state is 0 and every draw is negative |
| `ParkMiller.SeededRandom.constructor` | generateFunction.js:154-157 | the new generator's state is the corrected initial state of the seed, which differs from the written one only where that is 0 (see `ParkMiller.AsWrittenZeroExactly`) |
| `ParkMiller.AsWrittenZeroExactly` | generateFunction.js:154-157 | as written, the state is 0 exactly for the negative seeds one above a multiple of 2^31 − 1, −2147483646 first among them |
| `ParkMiller.SeededRandom.Next` | generateFunction.js:159-162 | the state advances by one Lehmer step and the result is its draw; from a state in range both stay in range and the draw lies in [0, 1) |
| `Grammar.BaseWeight` | generateFunction.js:6-17 | every class of `probabilityClass` starts with a positive weight |
| `Grammar.MinMaxCollapse` | generateFunction.js:110-117 | a min or max node renders as its left argument exactly when the two argument texts are equal; otherwise it renders as `Math.min(a,b)` / `Math.max(a,b)` |
| `Grammar.BalancedApply1` | generateFunction.js:91-122 | every one-argument template of `fList` keeps a balanced argument text balanced |
| `Grammar.BalancedApply2` | generateFunction.js:97-117 | every two-argument template of `fList` keeps balanced argument texts balanced |
| `Grammar.RenderBalanced` | generateFunction.js:85-125 | the text of every tree whose leaves are constants of `fList` has balanced parentheses |
| `Sampling.InitialWeights` | generateFunction.js:8-17 | the initial table gives every class its base weight, and all are positive |
| `Sampling.RuleWeights` | generateFunction.js:25-27 | `getProbability()` gives one positive weight per rule, in `fList` order |
| `Sampling.Total` | generateFunction.js:128-129 | the sum over all rules of their class weights is positive |
| `Sampling.Normalized` | generateFunction.js:130-132 | normalisation gives one probability per rule of `fList` |
| `Sampling.NormalizedIsDistribution` | generateFunction.js:127-133 | every normalised probability is positive and is its class weight divided by the total over rules, so a class counts once per rule; together they sum to 1 |
| `Sampling.FirstExceeding` | generateFunction.js:139-145 | the walk from index i stops at an index in [i, n) |
| `Sampling.FirstExceedingStops` | generateFunction.js:139-145 | the walk passes only running sums at most p, and it stops at the first running sum strictly greater than p, or at the last rule when there is none |
| `Sampling.Select` | generateFunction.js:135-147 | the "no more items" error happens exactly when the rule list is empty; otherwise the selected index is a valid rule |
| `Sampling.SelectIntervals` | generateFunction.js:136-145 | for a draw below the total, rule k is selected exactly when the draw lies in its cumulative interval [Cum(k), Cum(k+1)) |
| `Sampling.Damped` | generateFunction.js:44 | scaling a class by 0.25 keeps the table positive and strictly lowers that class |
| `Sampling.DampedOthers` | generateFunction.js:44 | scaling one class leaves every other class's weight unchanged |
| `Sampling.SampleArgDraws` | generateFunction.js:135-150 | a drawn tree uses exactly one generator step per node |
| `Sampling.SampleRuleDraws` | generateFunction.js:40-82 | after its selecting draw, a rule uses one step per node of its arguments; a constant uses none |
| `Sampling.UnaryDraws` | generateFunction.js:40-50 | a unary rule draws exactly one argument |
| `Sampling.BinaryDraws` | generateFunction.js:59-71 | a binary rule draws its left argument and then its right argument from where the left one stopped |
| `Sampling.TwoDraws` | generateFunction.js:65-66 | two arguments drawn in a row use one step per node of both |
| `Sampling.SelectedRuleInterval` | generateFunction.js:136-145 | from a generator state in range, rule k is selected exactly when the next draw falls in rule k's slice of the normalised table |
| `Sampling.SampleArgFuel` | generateFunction.js:135-150 | more fuel never changes a run that succeeded: the bound cuts runs off but never alters them |
| `Sampling.SampleRuleFuel` | generateFunction.js:40-82 | the same fuel monotonicity for one rule's render |
| `Sampling.SampleArgShape` | generateFunction.js:135-150 | a drawn tree uses only rules of `fList`, is no deeper than the fuel, and renders to balanced text |
| `Sampling.SampleRuleShape` | generateFunction.js:40-82 | the same for the render of one rule of `fList` |
| `Sampling.VelocitySourceBalanced` | generateFunction.js:182-187 | the `getVelocity` text around two balanced components is balanced |
| `Sampling.GenerateTextBalanced` | generateFunction.js:168-188 | whatever `generate(seed)` returns is balanced |
| `Sampling.StuckGeneratorDrawsPointX` | generateFunction.js:135-188 | as written, seed −2147483646 leaves the generator at 0; every draw is then negative, the first rule is always selected, and both `vX` and `vY` are `p.x` |
| `Sampling.GenerateTextDraws` | generateFunction.js:171-177 | `vX` is drawn from the freshly seeded generator and `vY` continues where `vX` stopped, one step per node |
| `Synthesizer.Restored` | generateFunction.js:47 | putting the saved weight back after damping restores the whole table |
| `Synthesizer.Synthesizer.constructor` | generateFunction.js:8-22 | the module loads with the base weights, every probability 0 and no seeded generator installed |
| `Synthesizer.Synthesizer.NormalizeProbabilities` | generateFunction.js:127-133 | the two loops set every rule's probability to the normalised table; the weights and random source are untouched |
| `Synthesizer.Synthesizer.GenerateArguments` | generateFunction.js:135-150 | the loop's selection and the render give the text of the tree `SampleArg` draws, and the generator ends where that tree's last draw left it. The weights and probabilities are as they were before the call |
| `Synthesizer.Synthesizer.RenderRule` | generateFunction.js:29-31 | a rule's `render()` gives the text of the tree `SampleRule` draws; a constant draws nothing and changes nothing |
| `Synthesizer.Synthesizer.RenderUnary` | generateFunction.js:40-50 | a unary render gives the operator applied to one drawn argument, and leaves the table and the probabilities exactly as it found them |
| `Synthesizer.Synthesizer.RenderBinary` | generateFunction.js:59-71 | a binary render gives the operator applied to two arguments drawn left first, and leaves the table and the probabilities exactly as it found them |
| `Synthesizer.Synthesizer.Generate` | generateFunction.js:168-188 | `generate(seed)` returns `GenerateText` of the table and seed, so the same seed and table give the same text; afterwards the random source is restored and the weights are unchanged |
| `Text.ToBase` | main.js:204 | `n.toString(b)` is at least one canonical digit of base b, without a leading zero |
| `Text.Padded` | main.js:204 | the last k digits, zero-padded: exactly k canonical digits |
| `Text.DigitChar` | main.js:204 | the digit written for d has value d, and it is a decimal digit exactly when d < 10 |
| `Text.ToBaseRoundTrip` | main.js:204 | reading back the digits `toString(b)` writes gives the number |
| `Text.PaddedRoundTrip` | main.js:204 | reading back k padded digits gives the number modulo b^k |
| `Text.PaddedOfValue` | main.js:196-198 | canonical digits read and written back at the same width are unchanged |
| `Text.ValueOfAppend` | main.js:196-198 | reading digits appended to a prefix shifts the prefix by one place per digit |
| `Text.ToBaseSplit` | main.js:204 | the digits of q·b^k + r (with q > 0 and r < b^k) are those of q followed by the k padded digits of r |
| `Text.PaddedSplit` | main.js:204 | the padded digits of hi·b^k + lo are those of hi followed by the k padded digits of lo |
| `Text.DigitRun` | main.js:1074 | `parseInt` reads a run of digits that ends at the end of the text or at a non-digit |
| `Text.TrimStart` | main.js:1074 | the result is a suffix of the text; every character dropped is white space, and the result does not start with white space |
| `Text.Sign` | main.js:1074 | the sign is −1 exactly when the text starts with '-', +1 otherwise; the first character is consumed exactly when it is '+' or '-', and nothing else is |
| `Text.FormatInt` | main.js:1164-1170 | `String(n)` is non-empty and has no comma, so it stays one field of the hash |
| `Text.ParseIntFormatInt` | main.js:1074-1075 | `parseInt` reads back the integer `String` wrote, also when a comma and more text follow |
| `Text.Unsigned` | main.js:1164-1170 | the whole digits, then a point and k fraction digits when k > 0: non-empty and comma-free |
| `Text.FormatDecimal` | main.js:1164-1170 | `String(x)` of a setting is non-empty and has no comma |
| `Text.ExponentFactor` | main.js:1076-1078 | an exponent part scales the mantissa by a positive factor, and text without an `e`/`E` part scales it by 1 |
| `Text.ExponentFactorDigits` | main.js:1076-1078 | an exponent part `e`/`E`, an optional sign and the digits d scales by 10^d, or by 10^−d after '-'; text after the digits is not read |
| `Text.ParseUnsigned` | main.js:1076-1078 | `parseFloat` reads whole digits, a point and k fraction digits as q + r / 10^k |
| `Text.ParseFloatFormatDecimal` | main.js:1076-1078 | `parseFloat` reads back the value of a decimal that `String` wrote |
| `Text.Split` | main.js:1072 | `split(',')` gives at least one piece, and no piece contains a comma |
| `Text.SplitPrefix` | main.js:1072 | a comma-free prefix joins the first piece of what follows it |
| `Text.SplitJoin` | main.js:1072 | splitting comma-free pieces joined with commas gives the pieces back |
| `Text.SplitFirst` | viz.js:500-503 | the first piece is the text before the first comma; the text is a single piece exactly when it has no comma |
| `Colour.HexToRgb` | viz.js:41-50 | every channel of an accepted colour lies in 0..255 (main.js:192-201 is the same code) |
| `Colour.HexToRgbAccepts` | viz.js:42 | `hexToRgb` accepts exactly six hexadecimal digits of either case, with an optional leading '#'; every other text gives null |
| `Colour.RgbToHexDigits` | viz.js:52-54 | for channels in 0..255, `rgbToHex` writes each channel as two lowercase hexadecimal digits, red first |
| `Colour.RgbToHexShape` | viz.js:52-54 | `rgbToHex` gives exactly six lowercase hexadecimal digits |
| `Colour.HexRoundTrip` | viz.js:41-54 | `hexToRgb(rgbToHex(r, g, b))` is {r, g, b}, with or without a '#' |
| `Colour.RgbHexRoundTrip` | viz.js:41-54 | six lowercase hexadecimal digits come back unchanged from `rgbToHex(hexToRgb(s))` |
| `Field.Constrain` | main.js:175-177 | for low ≤ high the result lies in [low, high]; a value already inside is returned unchanged; values above or below are cut to the nearer bound |
| `Field.Map` | main.js:171-173 | start1 maps to start2 and stop1 maps to stop2 |
| `Field.MapInverse` | main.js:171-173 | mapping forth and back again gives the value back |
| `Field.MapBetween` | main.js:171-173 | a value inside the source interval maps between the two targets, in either order |
| `Field.GuardBase` | main.js:428-448 | a throwing, falsy, non-number or non-finite base counts as {0, 0}; otherwise each component is clamped to [−10, 10], so values inside are kept and values outside are cut |
| `Field.ScaleOrDefault` | main.js:420 | a zero scale counts as 5, and any other scale is kept |
| `Field.NormCoordLinear` | main.js:420-425 | the normalised coordinate is 40 · scale · (x − extent/2) / extent: the screen centre maps to 0 and the screen spans [−20·scale, 20·scale] |
| `Field.VizField` | viz.js:368-414 | with no compiled function the field is {0, 0}; otherwise both components lie in [−10, 10] |
| `Field.VizFieldPassesBase` | viz.js:404-412 | a finite base inside [−10, 10] passes through unchanged; above 10 it is cut to 10, and there is no further scaling or [−60, 60] clamp |
| `Field.PointerOr` | main.js:462-463 | a pointer coordinate of 0 counts as the screen centre; any other is kept |
| `Field.MouseStrengthBounds` | main.js:465-476 | for a noise sample in [0, 1] the pointer's influence lies between 0.1 and 0.9 times the noise-scaled strength, so in [0.05, 0.9]; it is strongest at the pointer |
| `Field.PointerPull` | main.js:479-484 | the pull and swirl vanish when the pointer is on the point |
| `Field.MainField` | main.js:414-508 | with no compiled function the field is exactly {0, 0}; otherwise both components lie in [−60, 60], whatever the clock, noise and pointer terms are |
| `Field.MainFieldInvalidBase` | main.js:433-447 | a base that throws or is not a finite vector gives the same field as a base of {0, 0} |
| `Field.MainFieldAtPointer` | main.js:479-504 | with the pointer on the point (off the axes), each component is (base + 1) · scale, clamped to [−60, 60] |
| `Particles.MovedBounds` | main.js:526-543 | after the move, either each coordinate moved at most 60 and the trail is kept, or the particle sits at the drawn on-screen spot with an empty trail |
| `Particles.MoveOfSixtyKept` | main.js:538 | a move of exactly 60 is not a discontinuity |
| `Particles.PushBounds` | main.js:567-574 | the pushed trail ends with the new point and is the old trail plus that point with only the oldest points dropped; a trail within the maximum of 3 stays within it |
| `Particles.AdvanceDrops` | main.js:545-556 | a particle is dropped exactly when its moved position is more than 100 beyond an edge |
| `Particles.AdvanceTrail` | main.js:558-588 | a kept particle's trail is its moved trail with the moved position pushed; a respawn does not clear it |
| `Particles.AdvanceLife` | main.js:577-588 | a kept particle either ages by 1 and loses 0.001 · timeMultiplier of life, still positive, or is respawned with age 0 and the drawn position, colour, life and speed |
| `Particles.AdvanceInside` | main.js:545-588 | a kept particle lies within 100 of the screen; a respawned one lies on the screen with life in [0.7, 1.0) and speed in [0.6, 2.5) |
| `Particles.AdvanceTrailBounded` | main.js:558-575 | a trail within the maximum of 3 stays within it |
| `Particles.SurvivorsPrefix` | main.js:521-596 | survivors keep their original relative order: those kept from the first i particles are a prefix of those kept from the first n |
| `Particles.SurvivorsCount` | main.js:521-596 | at most one survivor per particle, and none at all without a field |
| `Particles.SurvivorsValid` | main.js:521-596 | survivors lie within 100 of the screen and keep their trails within the maximum |
| `Particles.Refilled` | main.js:596-609 | after the refill the pool holds max(survivors, numParticles) particles: the survivors in order, then newborns with empty trails and age 0 |
| `Particles.TrimmedNewest` | main.js:748-751 | a pool of more than 3·numParticles keeps exactly its newest 2·numParticles, in order; a smaller pool is kept whole |
| `Particles.StepParticle` | main.js:523-591 | the field-by-field loop body computes exactly `Advance`: move, jump, cull, trail, age and respawn |
| `Particles.ParticleSystem.constructor` | main.js:244-245 | the pool starts empty with a target of 1000 |
| `Particles.ParticleSystem.UpdateParticles` | main.js:513-610 | the new pool is the survivors in order followed by just enough newcomers to reach `numParticles`; the target is unchanged |
| `Particles.ParticleSystem.SpawnParticlesAtMouse` | main.js:734-752 | the spawned particles are appended, then the pool is trimmed to its newest 2·numParticles when it exceeds 3·numParticles |
| `Particles.ParticleSystem.ResetParticles` | main.js:815-824 | every particle is reset in place from its draws: new position and life, empty trail, age 0; the pool keeps its size |
| `Particles.ResetKeeps` | main.js:815-824 | a reset keeps each particle's colour and speed |
| `Share.Fragment` | main.js:1065 | the fragment is the hash without its first character |
| `Share.ShareHash` | main.js:1159-1177 | a hash is written exactly when there is a seed, and it starts with '#' |
| `Share.FirstFieldInt` | main.js:1072-1074 | `parseInt` of the first comma field equals `parseInt` of the whole hash |
| `Share.ParseHashAccepts` | main.js:1064-1116 | a hash is accepted exactly when it is not empty, its first field starts with an integer and, when it has a comma, it has at least five fields. The comma form always carries settings and the old form never does |
| `Share.ParseHashFields` | main.js:1074-1085 | the seed is the leading integer of the hash, and a setting that is not a number takes its default: 300, 4.0, 4.0 or 0.95 |
| `Share.ShareRoundTrip` | main.js:1064-1116 | reading back the hash `updateURL` writes gives the seed and every setting as written |
| `Share.ParseHashSettings` | main.js:1072-1085 | a comma form whose five fields all read as numbers gives those numbers, in position |
| `Share.ZeroSeedReplaced` | main.js:370 | as written, the hash "#0" reads as seed 0, but `initSimulation` replaces 0 with a fresh draw |
| `Share.InitSeed` | main.js:370 | the corrected seed choice uses a given seed, 0 included, and draws only when none is given; for every seed but 0 it agrees with `seed \|\| draw` |
| `Share.Session.constructor` | main.js:244-262 | the settings start at 1000 particles, flow 4.0, scale 5.0 and decay 0.8, with no seed |
| `Share.Session.LoadFromURL` | main.js:1064-1116 | the load succeeds exactly when the hash parses. On success the seed is the parsed one, by the corrected seed choice (0 is kept), and the settings are the parsed ones (the old form leaves them alone); on failure nothing changes |
| `Share.Session.Assign` | main.js:1082-1085 | the four module settings take exactly the values the comma form of the hash carries; the seed is left alone |
| `Share.VizHash` | viz.js:532-543 | viz.js writes a hash exactly when there is a seed |
| `Share.VizLeadingInt` | viz.js:494-530 | both forms of the viz.js hash come to the leading integer of the whole hash |
| `Share.VizRoundTrip` | viz.js:494-543 | viz.js reads back the seed it wrote |
| `Share.VizSession.constructor` | viz.js:242 | viz.js starts with no seed |
| `Share.VizSession.LoadFromURL` | viz.js:494-530 | the load succeeds exactly when the hash yields a seed, which becomes the current seed by the corrected seed choice (0 is kept); otherwise the seed is unchanged |
| `Share.SaveFunction` | main.js:849-858 | after a save the stored names are the old names plus the saved one, whose entry holds the code; a save under "__proto__" without an entry of its own changes nothing |
| `Share.DeleteFunction` | main.js:860-865 | after a delete the stored names are the old names without the deleted one |
| `Share.SaveThenLoad` | main.js:849-858 | a saved function loads back with the code saved, and every other name loads as before; a name that cannot be stored ("__proto__") loads nothing |
| `Share.DeleteThenLoad` | main.js:860-865 | a deleted function no longer loads, and every other name loads as before |
| `Share.SaveThenDelete` | main.js:849-865 | deleting a function just saved under a new name restores the dictionary |
| `Share.SaveOverwrites` | main.js:849-858 | saving twice under one name keeps only the second save |
| `Share.InheritedNameAsks` | main.js:907-913 | "toString" counts as taken even in an empty dictionary: without confirmation nothing is saved, with it the name is stored |
| `Share.Trim` | main.js:895 | the trimmed name is the input with only leading and trailing white space removed: what is dropped at either end is white space, and the name neither starts nor ends with white space |
| `Share.TrimEnd` | main.js:895 | the result is a prefix of the text; every character dropped is white space, and the result does not end with white space |
| `Share.SaveCurrentEffect` | main.js:893-925 | the save happens exactly when the trimmed name is not blank, there is code, and the name is new (neither an entry nor a name `Object.prototype` answers, such as "toString") or the overwrite is confirmed; otherwise the dictionary is unchanged. A save makes the name load the current code |
| `Scan.DoneStays` | viz.js:431 | once the scan is finished, a call changes nothing |
| `Scan.StepAdvances` | viz.js:437-475 | a call that is not short-circuited leaves `xStart` 50 past the chunk it visits. When `xStart` had reached the width, `yStart` grows by 50 |
| `Scan.DoneWhen` | viz.js:439-444 | `vectorDone` becomes true exactly on a call entered with `xStart` below the width and `yStart` at or past the height |
| `Scan.StepProgress` | viz.js:430-476 | on a screen wider than one chunk, every call that does not finish the scan reduces the work left |
| `Scan.ScanFinishes` | viz.js:430-476 | on a screen wider than one chunk, the scan from any cursor finishes within a bounded number of calls |
| `Scan.StaysDone` | viz.js:431 | a finished scan stays finished however many calls follow |
| `Scan.StepsAdd` | viz.js:430-476 | a calls followed by b calls are a + b calls |
| `Scan.NarrowNeverDone` | viz.js:439-444 | on a screen at most 50 wide, the scan from the start never finishes |
| `Scan.ChunkPointsCover` | viz.js:446-473 | a chunk visits 100 points inside the 50 by 50 square at its origin: the 5-apart grid, column by column |
| `Scan.DrawColumn` | viz.js:447-472 | the inner loop visits the 10 points of one column, or none without a field |
| `Scan.DrawChunk` | viz.js:446-473 | the two loops visit the chunk's points, or none without a field |
| `Scan.Scanner.constructor` | viz.js:426-429 | the cursor starts at (0, 0), not finished |
| `Scan.Scanner.DrawVectorField` | viz.js:430-476 | the cursor takes one `Step`. A finished scan, or a page without a field, visits nothing; otherwise the call visits the points of the chunk at the (possibly reset) cursor |
| `PerlinNoise.ToUint8` | generateNoise.js:16 | a value stored in the byte table lies in 0..255 |
| `PerlinNoise.ToUint8OfDraw` | generateNoise.js:16 | a draw in [0, 1) times 256 is stored as its integer part |
| `PerlinNoise.Cell` | generateNoise.js:30-31 | `Math.floor(v) & 255` lies in 0..255 |
| `PerlinNoise.LerpEnds` | generateNoise.js:20-22 | `lerp` gives a at t = 0 and b at t = 1 |
| `PerlinNoise.LerpBounded` | generateNoise.js:20-22 | interpolating with t in [0, 1] between values in [−1, 1] stays in [−1, 1] |
| `PerlinNoise.GradCases` | generateNoise.js:24-27 | `grad2d` picks x when bit 0 of i is clear and y otherwise, and negates the pick when bit 1 is clear |
| `PerlinNoise.GradBounded` | generateNoise.js:24-27 | for x and y in [−1, 1] the gradient lies in [−1, 1] |
| `PerlinNoise.FadeRange` | generateNoise.js:34-35 | the fade (3 − 2x)x² lies in [0, 1] for x in [0, 1) |
| `PerlinNoise.Noise2d` | generateNoise.js:29-51 | over a valid table the value lies in [−1, 1]; every index read (X, X + 1, p0, p0 + 1, p1, p1 + 1) is within the 512 entries |
| `PerlinNoise.Octave` | generateNoise.js:58-59 | octave n adds between 0 and 2^−n |
| `PerlinNoise.OctaveSumRange` | generateNoise.js:53-63 | after n octaves the sum lies in [0, 1 − 2^−n] |
| `PerlinNoise.Noise.constructor` | generateNoise.js:5-12 | the octave count defaults to 1; the fresh table holds the 512 stored draws, each in 0..255 |
| `PerlinNoise.Noise.Init` | generateNoise.js:14-18 | every one of the 512 entries is the stored draw, so the table is valid |
| `PerlinNoise.Noise.Noise` | generateNoise.js:53-63 | the loop runs `octaves` rounds and returns the octave sum, which lies in [0, 1) |
| `PerlinNoise.GenerateNoiseRanges` | generateNoise.js:65-69 | draws in [0, 1) give 1..6 octaves, a frequency in [1, 21) and one of the two fields |
| `Draws.ChooseIndexInRange` | generateNoise.js:92-95 | `⌊r·n⌋` is a valid index for r in [0, 1) and n ≥ 1 (generate.js:7-10 is the same code) |
| `Draws.ChooseOneOf` | generate.js:7-10 | `choose` returns one of its arguments |
| `Draws.RoundNear` | generate.js:56 | `Math.round(v)` lies within one half of v |
| `Draws.RoundBetween` | generate.js:56-60 | rounding a value between two integers stays between them |
| `Draws.ScaleWithin` | generate.js:57 | `Math.round(r·n)` lies in [0, n] for r in [0, 1) |
| `Streamlines.AxisRange` | generate.js:56-60 | an axis range is an integer in [1, 16] and its edge lies in [−range, 0] |
| `Streamlines.BoundingBoxRanges` | generate.js:56-67 | the box has width and height in [1, 16] and contains the origin |
| `Streamlines.HueRangeBounds` | generate.js:313-321 | the excluded hues are [0, s] and [e, 359] with 0 ≤ s ≤ 320 and s ≤ e ≤ 359 |
| `Streamlines.PercentRangeAsWrittenHigh` | generate.js:72-79 | as written, the upper end is just `Math.round(r2·100)`, unrelated to the lower end |
| `Streamlines.PercentRangeInverted` | generate.js:72-79 | as written, draws 0.8 and 0 give the inverted range [80, 0] |
| `Streamlines.PercentRangeOrdered` | generate.js:72-79 | the corrected range satisfies 0 ≤ low ≤ high ≤ 100 |
| `Streamlines.OptionsRanges` | generate.js:82-89 | `dSep` lies in [0.01, 0.41) and the initial `dWidth` in [0, 40]; both steps are non-negative; the strategy is one of the four named ones, never the `'draw'` case of generate.js:229 |
| `Streamlines.TestDistanceOrder` | generate.js:82-84 | `dTest` is below `dSep` exactly when its draw is below 0.99 |
| `Streamlines.CanvasThenBox` | generate.js:292-310 | `toBoundingBoxPoint(toCanvasPoint(q))` is q for a non-degenerate box and canvas |
| `Streamlines.BoxThenCanvas` | generate.js:292-310 | `toCanvasPoint(toBoundingBoxPoint(q))` is q |
| `Streamlines.SeedInsideBox` | generate.js:159-166 | a click on the canvas maps to a seed point inside the bounding box |
| `Streamlines.WidthFactorRange` | generate.js:212-213 | for dTest < dSep, the factor is 1 beyond `dSep` and (d − dTest)/(dSep − dTest) otherwise, which lies in [0, 1] from `dTest` on |
| `Streamlines.ClampRange` | generate.js:218-219 | the clamped width lies in [0, 40], and a width already there is kept |
| `Streamlines.SegmentWidthRange` | generate.js:214-216 | with both factors in [0, 1], the segment is between 0 and `dWidth` wide |
| `Streamlines.PointHandler.constructor` | generate.js:82-86 | the handler starts from the drawn options, a missing step counting as 0, with `dWidth` in [0, 40] |
| `Streamlines.PointHandler.OnPointAdded` | generate.js:185-219 | `cfg.dSep` grows by the drawn step, and the width is the mean factor times the old `dWidth`. `dWidth` moves by the random step and is clamped, so it stays in [0, 40] |

## Left out

- Rendering: PIXI, the canvas, shaders and filters, `drawBackground`, `drawParticles` and the graphics calls of `drawVectorField` are not modelled. `Scan.Scanner.DrawVectorField` returns the points it would draw at instead.
- The DOM, sliders, alerts, the clipboard, `history.replaceState` and `localStorage` are not modelled. The dictionary is a Dafny `map` and is not serialised to JSON, and `updateFunctionDropdown` (a sorted list for the page) is not modelled.
- `window.location.origin` and `pathname` around the hash are left out; `ShareHash` and `VizHash` model the text from '#' on.
- `compileVectorFieldFunction` runs host code. The compiled function is an arbitrary Dafny function whose outcome may be a throw, a falsy value or components that are not finite numbers. Its link to the expression text is not modelled.
- `initSimulation` beyond its choice of seed (compiling, the initial particle pool, the `state` object) is not modelled.
- The clock, `utils.noise`, `utils.dist` and the sine terms of main.js `createEnhancedVectorField` are arbitrary real inputs; only the bounds that hold for all of them are stated.
- `uniqolor`, `color2k.lighten`, `pickColor`, `pickGradientColor`, the background gradient and the colour strategies' effect on `all.color` are left out.
- `@anvaka/streamlines` and `grid.findNearest` are left out; the nearest distances are parameters of `OnPointAdded`.
- `vectorField0`/`vectorField1` of generateNoise.js (cosine, sine and tangent of the noise) and the product field of `pickNoisyFunc` are not modelled. `GenerateNoise` gives the index of the chosen field.
- IEEE NaN and the infinities are not modelled, because reals cannot express them. This affects `constrain` on NaN, the division by a zero magnitude in viz.js, and `parseFloat("Infinity")`. `WidthFactor` models a zero divisor as `None`.
- `Text.FormatDecimal` writes the plain decimal form; the exponent form `String` uses for very large or very small numbers is not modelled. `ParseFloat` does read exponents.
- `Text.FormatInt` writes the exact digits of every integer, while `String` writes a double: above 2^53 it writes the shortest digits that round back to the same double ("1152921504606847000" for 2^60), and from 10^21 on it switches to the exponent form ("1e+21"), which `parseInt` reads back as 1. The round trips `Share.ShareRoundTrip`, `Share.VizRoundTrip` and `Text.ParseIntFormatInt` hold for the source only for seeds up to 2^53 in magnitude.
- `Text.ParseInt` models `parseInt` without a radix, over ASCII white space only, and returns the exact integer its digits spell. JavaScript numbers are doubles, so the source agrees with it only up to 2^53 in magnitude: above that `parseInt` rounds ("9007199254740993" reads as 9007199254740992). The same bound applies to `Text.FormatInt` (see its line), to the seeds `Share.Session.LoadFromURL` and `Share.VizSession.LoadFromURL` take from a hash, and to the round trips built on them.
- `Text.ParseFloat` likewise skips only ASCII white space before the number.
- `Share.Trim` removes only ASCII white space.
- Particles are values in a sequence, not shared objects. Aliasing between `particles` and `particlesToKeep`, and the in-place `trail.push`, are modelled by rebuilding the record.
- The unseeded `generate()` (the host's `Math.random`) is left out. `Synthesizer.GenerateArguments` and its render methods require a seeded generator to be installed, which `Generate` does.
- `ParkMiller.SeededRandom.constructor` installs the corrected initial state `InitState`. For the negative seeds one above a multiple of 2^31 − 1 (−2147483646 first, reachable through the hash "#-2147483646"), the source's state is 0 and the model's is 2147483646; for every other seed the two agree (`ParkMiller.AsWrittenZeroExactly`).
- `Synthesizer.Synthesizer.Generate` is built on that corrected constructor. On those seeds the source returns `x: p.x, y: p.x` (`Sampling.StuckGeneratorDrawsPointX`), while the model draws from the state 2147483646.
- `Share.Session.LoadFromURL` uses the corrected seed choice `InitSeed`. For a hash whose seed is 0 it keeps 0, while the source's `initSimulation` stores the fresh draw; on every other hash the two agree.
- `Share.VizSession.LoadFromURL` uses `InitSeed` in the same way. For the seed 0 the source (viz.js:340) stores the fresh draw instead.
- `Share.SaveCurrent` models the lookup `savedFunctions[name]` on an entry of the dictionary or one of the names `Object.prototype` answers. The model does not cover a stored dictionary edited by hand, for example an entry whose value is not an object and so may be falsy.
- `Synthesizer.Synthesizer.Generate`: the source restores the original `Math.random`, while the model restores the source it found. These are the same in the model, because no other operation installs a generator.
- `Sampling.SampleArg`: the fuel bound leaves out the runs that draw trees deeper than the fuel. Whether and how often such runs occur is not modelled.
- `Colour.RgbToHex` requires channels in 0..255; what the shifts give for other numbers is not modelled.
- `Particles.ParticleSystem.SpawnParticlesAtMouse` takes the new particles as an input. Their draw ranges (within 20 of the pointer, speed in [0.8, 3.0), life in [0.8, 1.0)) are stated by the `MouseBorn` predicate, not by the method's contract.
- Trail points are never evicted by age: `birthTime` is recorded and never read, as in the source.

## Findings

| source | as written | input that shows it | evidently intended | confidence | as-written member | corrected member |
|---|---|---|---|---|---|---|
| generateFunction.js:154-157 | `seed % 2147483647`, then `+ 2147483646` when the result is not positive | seed −2147483646 gives state 0; `next()` then stays at 0 and returns −1/2147483646 for ever | every seed gives a state in [1, 2^31 − 2] | not executed | `ParkMiller.AsWrittenSeedSticksAtZero` | `ParkMiller.InitState` |
| main.js:370 | `currentSeed = seed \|\| Math.floor(Math.random() * 1000000)` | the hash "#0" parses to seed 0, but the field is built from a fresh random seed, so the shared field is not reproduced | use the seed whenever one is given | not executed | `Share.ZeroSeedReplaced` | `Share.InitSeed` |
| generate.js:72-79 | `high = Math.round(r2 * 100 - low) + low` | draws 0.8 then 0 give the saturation range [80, 0] | `high` drawn in [low, 100], as `getHueRange` does for hues | not executed | `Streamlines.PercentRangeInverted` | `Streamlines.PercentRangeOrdered` |
