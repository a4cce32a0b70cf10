/**
 * The module state of generateFunction.js and the procedures that update it:
 * the class-weight table `probabilityClass`, the `probability` field of every
 * rule of `fList`, and the current `Math.random` source.  Each procedure is
 * proved to follow the functions of `Sampling`.
 */
module Synthesizer {

  import opened Wrappers
  import opened Grammar
  import opened ParkMiller
  import opened Sampling

  /** Putting the saved weight back restores the table. */
  lemma Restored(w: Weights, c: Class)
    requires Positive(w)
    ensures Damped(w, c)[c := w[c]] == w
  {
    assert Damped(w, c)[c := w[c]].Keys == w.Keys;
  }

  class Synthesizer {
    /** `probabilityClass`. */
    var weights: Weights
    /** The `probability` field of each rule of `fList`, in order. */
    var probs: seq<real>
    /**
     * The source `Math.random` currently reads from: a seeded generator, or
     * `null` for the host's own random source, which is not part of this model.
     */
    var rng: SeededRandom?

    /** The table as the module loads: base weights, every probability still 0. */
    constructor ()
      ensures weights == InitialWeights()
      ensures probs == seq(|Rules|, _ => 0.0)
      ensures rng == null
    {
      weights := InitialWeights();
      probs := seq(|Rules|, _ => 0.0);
      rng := null;
    }

    /** The table is complete and positive, and there is one probability per rule. */
    predicate Ready()
      reads this
    {
      Positive(weights) && |probs| == |Rules|
    }

    /** The probabilities are those of the current table. */
    predicate Normal()
      reads this
    {
      Positive(weights) && probs == Normalized(weights)
    }

    /** `normalizeProbabilities()`. */
    method NormalizeProbabilities()
      requires Ready()
      modifies this
      ensures weights == old(weights) && rng == old(rng)
      ensures probs == Normalized(weights)
    {
      var xs := RuleWeights(weights);
      var sum := 0.0;
      var i := 0;
      while i < |Rules|
        invariant 0 <= i <= |Rules|
        invariant sum == Cum(xs, i)
      {
        sum := sum + weights[Rules[i].cls];
        i := i + 1;
      }
      assert sum == Total(weights);
      i := 0;
      while i < |Rules|
        invariant 0 <= i <= |Rules|
        invariant |probs| == |Rules| && weights == old(weights) && rng == old(rng)
        invariant forall j :: 0 <= j < i ==> probs[j] == Normalized(weights)[j]
      {
        assert Normalized(weights)[i] == weights[Rules[i].cls] / sum;
        probs := probs[i := weights[Rules[i].cls] / sum];
        i := i + 1;
      }
    }

    /**
     * `generateArguments()`: draw `p`, walk the cumulative probabilities to
     * the first rule whose running sum exceeds `p` (the last rule if none
     * does), and render that rule.  The result is the text of the tree
     * `SampleArg` draws, and the table is left as it was found.
     */
    method GenerateArguments(fuel: nat) returns (text: Option<string>)
      requires Normal() && rng != null
      modifies this, rng
      decreases fuel, 0
      ensures weights == old(weights) && probs == old(probs) && rng == old(rng)
      ensures match SampleArg(old(weights), old(rng.seed), fuel)
        case None => text == None
        case Some(smp) => text == Some(Render(smp.tree)) && rng.seed == smp.state
    {
      if fuel == 0 {
        return None;
      }
      var p := rng.Next();
      var cum := 0.0;
      var i := 0;
      var item := 0;
      while i < |probs|
        invariant 0 <= i <= |probs| && item < |probs|
        invariant cum == Cum(probs, i)
        invariant i < |probs| ==> FirstExceeding(probs, p, 0) == FirstExceeding(probs, p, i)
        invariant i == |probs| ==> item == FirstExceeding(probs, p, 0)
      {
        item := i;
        cum := cum + probs[i];
        if p < cum {
          break;
        }
        i := i + 1;
      }
      text := RenderRule(Rules[item], fuel - 1);
    }

    /**
     * `item.render()` for a rule of `fList`: a constant returns its text, the
     * function rules go to their own classes' `render()`.
     */
    method RenderRule(rule: Rule, fuel: nat) returns (text: Option<string>)
      requires Normal() && rng != null
      modifies this, rng
      decreases fuel, 2
      ensures weights == old(weights) && probs == old(probs) && rng == old(rng)
      ensures match SampleRule(old(weights), rule, old(rng.seed), fuel)
        case None => text == None
        case Some(smp) => text == Some(Render(smp.tree)) && rng.seed == smp.state
    {
      match rule
      case Constant(t, _) =>
        text := Some(t);
      case Unary(op, c) =>
        text := RenderUnary(op, c, fuel);
      case Binary(op, c) =>
        text := RenderBinary(op, c, fuel);
    }

    /**
     * `UnaryFunction.render()`: save the class weight, damp it by 0.25,
     * renormalise, generate the argument, restore the saved weight and
     * renormalise again.
     */
    method RenderUnary(op: UnaryOp, c: Class, fuel: nat) returns (text: Option<string>)
      requires Normal() && rng != null
      modifies this, rng
      decreases fuel, 1
      ensures weights == old(weights) && probs == old(probs) && rng == old(rng)
      ensures match SampleRule(old(weights), Unary(op, c), old(rng.seed), fuel)
        case None => text == None
        case Some(smp) => text == Some(Render(smp.tree)) && rng.seed == smp.state
    {
      ghost var w0, s0 := weights, rng.seed;
      var prev := weights[c];
      weights := weights[c := weights[c] * 0.25];
      assert weights == Damped(w0, c);
      NormalizeProbabilities();
      var a := GenerateArguments(fuel);
      UnaryRule(w0, op, c, s0, fuel, SampleArg(Damped(w0, c), s0, fuel));
      weights := weights[c := prev];
      Restored(w0, c);
      NormalizeProbabilities();
      text := if a.None? then None else Some(Apply1(op, a.value));
    }

    /**
     * `BinaryFunction.render()`: as the unary one, with two arguments
     * generated left before right from the damped table.
     */
    method RenderBinary(op: BinaryOp, c: Class, fuel: nat) returns (text: Option<string>)
      requires Normal() && rng != null
      modifies this, rng
      decreases fuel, 1
      ensures weights == old(weights) && probs == old(probs) && rng == old(rng)
      ensures match SampleRule(old(weights), Binary(op, c), old(rng.seed), fuel)
        case None => text == None
        case Some(smp) => text == Some(Render(smp.tree)) && rng.seed == smp.state
    {
      ghost var w0, s0 := weights, rng.seed;
      var prev := weights[c];
      weights := weights[c := weights[c] * 0.25];
      assert weights == Damped(w0, c);
      NormalizeProbabilities();
      var left := GenerateArguments(fuel);
      ghost var l := SampleArg(Damped(w0, c), s0, fuel);
      ghost var s1 := rng.seed;
      var right := GenerateArguments(fuel);
      ghost var r := SampleArg(Damped(w0, c), s1, fuel);
      BinaryRule(w0, op, c, s0, fuel, l, r);
      weights := weights[c := prev];
      Restored(w0, c);
      NormalizeProbabilities();
      text := if left.None? || right.None? then None else Some(Apply2(op, left.value, right.value));
    }

    /**
     * `generate(seed)`: install a generator for `seed` as the random source,
     * normalise, draw `vX` then `vY`, and put the previous source back.  The
     * text is the one `GenerateText` gives for the table, so the same seed
     * and table always give the same text.
     */
    method Generate(seed: int, fuel: nat) returns (code: Option<string>)
      requires Ready()
      modifies this
      ensures weights == old(weights) && rng == old(rng)
      ensures probs == Normalized(weights)
      ensures code == GenerateText(weights, seed, fuel)
    {
      var saved := rng;
      rng := new SeededRandom(seed);
      NormalizeProbabilities();
      var vx := GenerateArguments(fuel);
      var vy := GenerateArguments(fuel);
      rng := saved;
      code := if vx.None? || vy.None? then None else Some(VelocitySource(vx.value, vy.value));
    }
  }
}
