/**
 * The functional specification of the expression synthesiser of
 * generateFunction.js: the class-weight table, its normalisation into one
 * probability per rule, the cumulative-probability selection of a rule, and
 * the tree that a run of the recursive `render` draws from a given generator
 * state.  The imperative synthesiser is proved to follow these functions.
 *
 * The source recurses until the draws happen to pick constants; here every
 * draw of a rule costs one unit of `fuel`, so `fuel` bounds the depth of the
 * tree and `None` means that the bound was reached.
 */
module Sampling {

  import opened Wrappers
  import opened Grammar
  import opened ParkMiller

  /** `probabilityClass`: one weight per rule class. */
  type Weights = map<Class, real>

  /** Every class has a weight, and every weight is positive. */
  predicate Positive(w: Weights) {
    forall c: Class :: c in w && w[c] > 0.0
  }

  /** The table as the module initialises it. */
  function InitialWeights(): (w: Weights)
    ensures Positive(w)
    ensures forall c: Class :: w[c] == BaseWeight(c)
  {
    map c: Class | true :: BaseWeight(c)
  }

  /** `getProbability()` of every rule of `fList`, in order. */
  function RuleWeights(w: Weights): (xs: seq<real>)
    requires Positive(w)
    ensures |xs| == |Rules|
    ensures forall i :: 0 <= i < |xs| ==> xs[i] > 0.0
  {
    seq(|Rules|, i requires 0 <= i < |Rules| => w[Rules[i].cls])
  }

  /** The sum of the first `n` entries. */
  function Cum(xs: seq<real>, n: nat): real
    requires n <= |xs|
  {
    if n == 0 then 0.0 else Cum(xs, n - 1) + xs[n - 1]
  }

  /** The sum of all entries. */
  function Sum(xs: seq<real>): real {
    Cum(xs, |xs|)
  }

  /** No entry is negative. */
  predicate NonNegative(xs: seq<real>) {
    forall i :: 0 <= i < |xs| ==> xs[i] >= 0.0
  }

  /** A sum of positive entries is positive once it has an entry. */
  lemma {:induction false} CumPositive(xs: seq<real>, n: nat)
    requires n <= |xs|
    requires forall i :: 0 <= i < |xs| ==> xs[i] > 0.0
    ensures n > 0 ==> Cum(xs, n) > 0.0
    ensures Cum(xs, n) >= 0.0
  {
    if n > 0 {
      CumPositive(xs, n - 1);
    }
  }

  /** Over non-negative entries the running sum never decreases. */
  lemma {:induction false} CumMonotone(xs: seq<real>, i: nat, j: nat)
    requires NonNegative(xs)
    requires i <= j <= |xs|
    ensures Cum(xs, i) <= Cum(xs, j)
    decreases j - i
  {
    if i < j {
      CumMonotone(xs, i, j - 1);
    }
  }

  /** Dividing every entry by `t` divides every running sum by `t`. */
  lemma {:induction false} CumScale(xs: seq<real>, ys: seq<real>, t: real, n: nat)
    requires t > 0.0
    requires |xs| == |ys| && n <= |xs|
    requires forall i :: 0 <= i < |xs| ==> ys[i] == xs[i] / t
    ensures Cum(ys, n) == Cum(xs, n) / t
  {
    if n > 0 {
      CumScale(xs, ys, t, n - 1);
    }
  }

  /** The sum of the class weights over all rules: each class counts once per rule. */
  function Total(w: Weights): (t: real)
    requires Positive(w)
    ensures t > 0.0
  {
    CumPositive(RuleWeights(w), |Rules|);
    Sum(RuleWeights(w))
  }

  /** The `probability` of every rule after `normalizeProbabilities()`. */
  function Normalized(w: Weights): (ps: seq<real>)
    requires Positive(w)
    ensures |ps| == |Rules|
  {
    seq(|Rules|, i requires 0 <= i < |Rules| => RuleWeights(w)[i] / Total(w))
  }

  /**
   * The normalised probabilities are positive and sum to one; rule `i` gets
   * its class weight divided by the total, so two rules of a class each get
   * the class weight.
   */
  lemma NormalizedIsDistribution(w: Weights)
    requires Positive(w)
    ensures forall i :: 0 <= i < |Rules| ==> Normalized(w)[i] > 0.0
    ensures forall i :: 0 <= i < |Rules| ==> Normalized(w)[i] * Total(w) == w[Rules[i].cls]
    ensures Sum(Normalized(w)) == 1.0
  {
    var xs, ps, t := RuleWeights(w), Normalized(w), Total(w);
    CumScale(xs, ps, t, |Rules|);
    assert Cum(ps, |Rules|) == t / t;
    assert t / t == 1.0;
  }

  /**
   * The index `generateArguments` stops at when it starts looking at index
   * `i`: the first index from `i` on whose running sum exceeds `p`, or the
   * last index when none does.
   */
  function FirstExceeding(xs: seq<real>, p: real, i: nat): (k: nat)
    requires i < |xs|
    ensures i <= k < |xs|
    decreases |xs| - i
  {
    if p < Cum(xs, i + 1) || i == |xs| - 1 then i else FirstExceeding(xs, p, i + 1)
  }

  /**
   * The walk passes only running sums at most `p`, and stops at the first
   * that exceeds it, or at the last index.
   */
  lemma {:induction false} FirstExceedingStops(xs: seq<real>, p: real, i: nat)
    requires i < |xs|
    ensures var k := FirstExceeding(xs, p, i);
      (forall j :: i < j <= k ==> Cum(xs, j) <= p) && (p < Cum(xs, k + 1) || k == |xs| - 1)
    decreases |xs| - i
  {
    if !(p < Cum(xs, i + 1) || i == |xs| - 1) {
      FirstExceedingStops(xs, p, i + 1);
    }
  }

  /**
   * The rule the cumulative walk selects for the draw `p`; `None` stands for
   * the "no more items" error, which only an empty rule list raises.
   */
  function Select(xs: seq<real>, p: real): (r: Option<nat>)
    ensures r.None? <==> |xs| == 0
    ensures r.Some? ==> r.value < |xs|
  {
    if |xs| == 0 then None else Some(FirstExceeding(xs, p, 0))
  }

  /**
   * For a draw below the total, the selected index is exactly the one whose
   * cumulative interval [Cum(k), Cum(k + 1)) holds the draw: index k is
   * chosen with probability xs[k].
   */
  lemma SelectIntervals(xs: seq<real>, p: real, k: nat)
    requires NonNegative(xs)
    requires 0.0 <= p < Sum(xs)
    requires k < |xs|
    ensures Select(xs, p) == Some(k) <==> Cum(xs, k) <= p < Cum(xs, k + 1)
  {
    var k' := Select(xs, p).value;
    FirstExceedingStops(xs, p, 0);
    if k' > 0 {
      assert Cum(xs, k') <= p;
    }
    if Cum(xs, k) <= p < Cum(xs, k + 1) {
      if k' < k {
        CumMonotone(xs, k' + 1, k);
      }
    }
  }

  /** `probabilityClass[c] *= 0.25`. */
  function Damped(w: Weights, c: Class): (r: Weights)
    requires Positive(w)
    ensures Positive(r)
    ensures r[c] < w[c]
  {
    w[c := w[c] * 0.25]
  }

  /** Damping one class leaves the weights of the other classes alone. */
  lemma DampedOthers(w: Weights, c: Class, d: Class)
    requires Positive(w) && d != c
    ensures Damped(w, c)[d] == w[d]
  {
  }

  /** A drawn tree and the generator state after the last draw it used. */
  datatype Sample = Sample(tree: Expr, state: int)

  /**
   * `generateArguments()` with the table `w` and generator state `s`: draw
   * `p = next()`, select the rule by the cumulative walk, and render it.
   */
  function SampleArg(w: Weights, s: int, fuel: nat): Option<Sample>
    requires Positive(w)
    decreases fuel, 0
  {
    if fuel == 0 then None
    else
      var s1 := NextState(s);
      match Select(Normalized(w), Draw(s1))
      case None => None
      case Some(k) => SampleRule(w, Rules[k], s1, fuel - 1)
  }

  /**
   * `render()` of rule `k` of `fList`: a constant draws nothing; a unary or
   * binary rule damps its own class and draws its arguments, the left one
   * first, from the damped table.
   */
  function SampleRule(w: Weights, rule: Rule, s: int, fuel: nat): Option<Sample>
    requires Positive(w)
    decreases fuel, 1
  {
    match rule
    case Constant(t, _) => Some(Sample(Const(t), s))
    case Unary(op, c) =>
      (match SampleArg(Damped(w, c), s, fuel)
       case None => None
       case Some(a) => Some(Sample(App1(op, a.tree), a.state)))
    case Binary(op, c) =>
      match SampleArg(Damped(w, c), s, fuel)
      case None => None
      case Some(l) =>
        match SampleArg(Damped(w, c), l.state, fuel)
        case None => None
        case Some(r) => Some(Sample(App2(op, l.tree, r.tree), r.state))
  }

  /** A unary rule, given the draw of its argument. */
  lemma UnaryRule(w: Weights, op: UnaryOp, c: Class, s: int, fuel: nat, a: Option<Sample>)
    requires Positive(w) && a == SampleArg(Damped(w, c), s, fuel)
    ensures SampleRule(w, Unary(op, c), s, fuel)
      == if a.None? then None else Some(Sample(App1(op, a.value.tree), a.value.state))
  {
  }

  /** A binary rule, given the draws of its arguments, the left one first. */
  lemma BinaryRule(w: Weights, op: BinaryOp, c: Class, s: int, fuel: nat, l: Option<Sample>, r: Option<Sample>)
    requires Positive(w) && l == SampleArg(Damped(w, c), s, fuel)
    requires l.Some? ==> r == SampleArg(Damped(w, c), l.value.state, fuel)
    ensures SampleRule(w, Binary(op, c), s, fuel)
      == if l.None? || r.None? then None else Some(Sample(App2(op, l.value.tree, r.value.tree), r.value.state))
  {
  }

  /**
   * Every node of a drawn tree used exactly one draw: the selection of its
   * rule.  The generator stays in range.
   */
  lemma {:induction false} SampleArgDraws(w: Weights, s: int, fuel: nat)
    requires Positive(w)
    ensures SampleArg(w, s, fuel).Some? ==>
      SampleArg(w, s, fuel).value.state == NextN(s, Size(SampleArg(w, s, fuel).value.tree))
    decreases fuel, 0
  {
    if fuel > 0 {
      var s1 := NextState(s);
      var sel := Select(Normalized(w), Draw(s1));
      if sel.Some? {
        ArgSelects(w, s, fuel, sel.value);
        SampleRuleDraws(w, Rules[sel.value], s1, fuel - 1);
      }
    }
  }

  /** With fuel left, `SampleArg` is the rule its first draw selects, drawn from the next state. */
  lemma ArgSelects(w: Weights, s: int, fuel: nat, k: nat)
    requires Positive(w) && fuel > 0
    requires Select(Normalized(w), Draw(NextState(s))) == Some(k)
    ensures k < |Rules| && SampleArg(w, s, fuel) == SampleRule(w, Rules[k], NextState(s), fuel - 1)
  {
  }

  /** `SampleArgDraws` for a known result. */
  lemma ArgDraws(w: Weights, s: int, fuel: nat, x: Sample)
    requires Positive(w) && SampleArg(w, s, fuel) == Some(x)
    ensures x.state == NextN(s, Size(x.tree))
    decreases fuel, 1
  {
    SampleArgDraws(w, s, fuel);
  }

  /** Two arguments drawn in a row use one draw per node of both. */
  lemma {:induction false} TwoDraws(w: Weights, s: int, fuel: nat, x: Sample, y: Sample)
    requires Positive(w)
    requires SampleArg(w, s, fuel) == Some(x) && SampleArg(w, x.state, fuel) == Some(y)
    ensures y.state == NextN(s, Size(x.tree) + Size(y.tree))
  {
    ArgDraws(w, s, fuel, x);
    ArgDraws(w, x.state, fuel, y);
    NextNAdd(s, Size(x.tree), Size(y.tree));
  }

  /** After the selecting draw, rule `k` uses one draw per node of its arguments. */
  lemma {:induction false} SampleRuleDraws(w: Weights, rule: Rule, s: int, fuel: nat)
    requires Positive(w)
    ensures SampleRule(w, rule, s, fuel).Some? ==>
      SampleRule(w, rule, s, fuel).value.state == NextN(s, Size(SampleRule(w, rule, s, fuel).value.tree) - 1)
    decreases fuel, 3
  {
    match rule
    case Constant(t, _) =>
    case Unary(op, c) =>
      UnaryDraws(w, op, c, s, fuel);
    case Binary(op, c) =>
      BinaryDraws(w, op, c, s, fuel);
  }

  lemma {:induction false} UnaryDraws(w: Weights, op: UnaryOp, c: Class, s: int, fuel: nat)
    requires Positive(w)
    ensures var res := SampleRule(w, Unary(op, c), s, fuel);
      res.Some? ==> res.value.state == NextN(s, Size(res.value.tree) - 1)
    decreases fuel, 2
  {
    var a := SampleArg(Damped(w, c), s, fuel);
    UnaryRule(w, op, c, s, fuel, a);
    if a.Some? {
      ArgDraws(Damped(w, c), s, fuel, a.value);
    }
  }

  lemma {:induction false} BinaryDraws(w: Weights, op: BinaryOp, c: Class, s: int, fuel: nat)
    requires Positive(w)
    ensures var res := SampleRule(w, Binary(op, c), s, fuel);
      res.Some? ==> res.value.state == NextN(s, Size(res.value.tree) - 1)
    decreases fuel, 2
  {
    var l := SampleArg(Damped(w, c), s, fuel);
    if l.Some? {
      var r := SampleArg(Damped(w, c), l.value.state, fuel);
      BinaryRule(w, op, c, s, fuel, l, r);
      if r.Some? {
        ArgDraws(Damped(w, c), s, fuel, l.value);
        ArgDraws(Damped(w, c), l.value.state, fuel, r.value);
        NextNAdd(s, Size(l.value.tree), Size(r.value.tree));
      }
    } else {
      BinaryRule(w, op, c, s, fuel, l, None);
    }
  }

  /**
   * For a generator state in range, the draw lands in [0, 1), so rule `k` is
   * selected exactly when the draw falls in its own slice of the normalised
   * table.
   */
  lemma SelectedRuleInterval(w: Weights, s: int, k: nat)
    requires Positive(w) && InRange(s) && k < |Rules|
    ensures Select(Normalized(w), Draw(NextState(s))) == Some(k) <==>
      Cum(Normalized(w), k) <= Draw(NextState(s)) < Cum(Normalized(w), k + 1)
  {
    NextStateInRange(s);
    DrawInUnit(NextState(s));
    NormalizedIsDistribution(w);
    SelectIntervals(Normalized(w), Draw(NextState(s)), k);
  }

  /** The constants of `fList` are exactly its three leaves. */
  lemma RuleConstantTexts(rule: Rule)
    requires rule in Rules && rule.Constant?
    ensures IsRuleConstant(rule.text)
  {
  }

  /**
   * A draw that succeeds with some fuel gives the same tree and state with
   * more fuel: the bound only cuts off runs, it never changes them.
   */
  lemma {:induction false} SampleArgFuel(w: Weights, s: int, f: nat, g: nat)
    requires Positive(w) && f <= g
    ensures SampleArg(w, s, f).Some? ==> SampleArg(w, s, g) == SampleArg(w, s, f)
    decreases f, 0
  {
    if f > 0 {
      var s1 := NextState(s);
      var k := Select(Normalized(w), Draw(s1)).value;
      SampleRuleFuel(w, Rules[k], s1, f - 1, g - 1);
    }
  }

  lemma {:induction false} SampleRuleFuel(w: Weights, rule: Rule, s: int, f: nat, g: nat)
    requires Positive(w) && f <= g
    ensures SampleRule(w, rule, s, f).Some? ==> SampleRule(w, rule, s, g) == SampleRule(w, rule, s, f)
    decreases f, 1
  {
    match rule
    case Constant(_, _) =>
    case Unary(op, c) =>
      SampleArgFuel(Damped(w, c), s, f, g);
    case Binary(op, c) =>
      SampleArgFuel(Damped(w, c), s, f, g);
      var l := SampleArg(Damped(w, c), s, f);
      if l.Some? {
        SampleArgFuel(Damped(w, c), l.value.state, f, g);
      }
  }

  /**
   * A drawn tree is built from the rules of `fList` and is no deeper than the
   * fuel; its source text therefore has balanced parentheses.
   */
  lemma {:induction false} SampleArgShape(w: Weights, s: int, fuel: nat)
    requires Positive(w)
    ensures SampleArg(w, s, fuel).Some? ==>
      var e := SampleArg(w, s, fuel).value.tree;
      FromGrammar(e) && Depth(e) <= fuel && Balanced(Render(e))
    decreases fuel, 0
  {
    if fuel > 0 {
      var s1 := NextState(s);
      var k := Select(Normalized(w), Draw(s1)).value;
      SampleRuleShape(w, Rules[k], s1, fuel - 1);
    }
  }

  lemma {:induction false} SampleRuleShape(w: Weights, rule: Rule, s: int, fuel: nat)
    requires Positive(w) && rule in Rules
    ensures SampleRule(w, rule, s, fuel).Some? ==>
      var e := SampleRule(w, rule, s, fuel).value.tree;
      FromGrammar(e) && Depth(e) <= fuel + 1 && Balanced(Render(e))
    decreases fuel, 1
  {
    var res := SampleRule(w, rule, s, fuel);
    if res.Some? {
      match rule
      case Constant(t, _) =>
        RuleConstantTexts(rule);
        ConstantBalanced(t);
      case Unary(op, c) =>
        SampleArgShape(Damped(w, c), s, fuel);
        var a := SampleArg(Damped(w, c), s, fuel).value.tree;
        BalancedApply1(op, Render(a));
      case Binary(op, c) =>
        var l := SampleArg(Damped(w, c), s, fuel).value;
        var r := SampleArg(Damped(w, c), l.state, fuel).value;
        SampleArgShape(Damped(w, c), s, fuel);
        SampleArgShape(Damped(w, c), l.state, fuel);
        BalancedApply2(op, Render(l.tree), Render(r.tree));
    }
  }

  /** The text before `vX` in the source `generate` returns. */
  const Header: string := Call("function getVelocity", "p") + " {\n    return {\n      x: "
  /** The text between `vX` and `vY`. */
  const Middle: string := ",\n      y: "
  /** The text after `vY`. */
  const Footer: string := "\n    };\n}"

  /** The `getVelocity` function `generate` returns, around the two components. */
  function VelocitySource(vx: string, vy: string): string {
    Header + vx + Middle + vy + Footer
  }

  /**
   * `generate(seed)`: a fresh generator for `seed`, then `vX` and then `vY`
   * drawn from the table `w`, each with the depth bound `fuel`.
   */
  function GenerateText(w: Weights, seed: int, fuel: nat): Option<string>
    requires Positive(w)
  {
    match SampleArg(w, InitState(seed), fuel)
    case None => None
    case Some(x) =>
      match SampleArg(w, x.state, fuel)
      case None => None
      case Some(y) => Some(VelocitySource(Render(x.tree), Render(y.tree)))
  }

  lemma HeaderBalanced(name: string, arg: string, rest: string)
    requires name == "function getVelocity" && arg == "p"
    requires rest == " {\n    return {\n      x: "
    ensures Balanced(Call(name, arg) + rest)
  {
    BalancedPlain(arg);
    BalancedCall(name, arg);
    BalancedPlain(rest);
    BalancedConcat(Call(name, arg), rest);
  }

  /** Balanced components give a balanced `getVelocity` source. */
  lemma VelocitySourceBalanced(vx: string, vy: string)
    requires Balanced(vx) && Balanced(vy)
    ensures Balanced(VelocitySource(vx, vy))
  {
    HeaderBalanced("function getVelocity", "p", " {\n    return {\n      x: ");
    BalancedConcat(Header, vx);
    BalancedInfix(Header + vx, Middle, vy);
    BalancedPlain(Footer);
    BalancedConcat(Header + vx + Middle + vy, Footer);
  }

  /**
   * What `generate(seed)` returns is the `getVelocity` source around two
   * grammar expressions, and its parentheses are balanced.
   */
  lemma GenerateTextBalanced(w: Weights, seed: int, fuel: nat)
    requires Positive(w)
    ensures GenerateText(w, seed, fuel).Some? ==> Balanced(GenerateText(w, seed, fuel).value)
  {
    var s0 := InitState(seed);
    var rx := SampleArg(w, s0, fuel);
    if rx.Some? {
      SampleArgShape(w, s0, fuel);
      var ry := SampleArg(w, rx.value.state, fuel);
      if ry.Some? {
        SampleArgShape(w, rx.value.state, fuel);
        VelocitySourceBalanced(Render(rx.value.tree), Render(ry.value.tree));
      }
    }
  }

  /**
   * `vX` is drawn first, from the freshly seeded generator, and `vY` from
   * where `vX` left it: together they use one draw per node of both trees.
   */
  lemma GenerateTextDraws(w: Weights, seed: int, fuel: nat, x: Sample, y: Sample)
    requires Positive(w)
    requires SampleArg(w, InitState(seed), fuel) == Some(x) && SampleArg(w, x.state, fuel) == Some(y)
    ensures y.state == NextN(InitState(seed), Size(x.tree) + Size(y.tree))
  {
    TwoDraws(w, InitState(seed), fuel, x, y);
  }

  /**
   * As written, seed -2147483646 leaves the generator at the state 0, where
   * every draw is negative: `generateArguments` then always selects the
   * first rule of `fList`, so `vX` and `vY` are both `p.x`.
   */
  lemma StuckGeneratorDrawsPointX(w: Weights, fuel: nat)
    requires Positive(w) && fuel >= 1
    ensures var s := InitStateAsWritten(-2147483646);
      SampleArg(w, s, fuel) == Some(Sample(Const("p.x"), 0))
  {
    AsWrittenSeedSticksAtZero(1);
    assert NextState(0) == 0;
    NormalizedIsDistribution(w);
    var xs := Normalized(w);
    assert Cum(xs, 1) == xs[0] > 0.0 > Draw(0);
    assert Select(xs, Draw(0)) == Some(0);
  }
}
