/**
 * The weighted expression grammar of generateFunction.js: eight rule classes
 * with their base weights, the eighteen rules of `fList` in their fixed order,
 * the expression trees the grammar produces, and how a tree is rendered as
 * JavaScript source text.
 */
module Grammar {

  import opened Wrappers

  /** The keys of `probabilityClass`. */
  datatype Class = Point | Length | Trigonometry | Arithmetics | MinMax | Exp | Sign | EvenOdd

  /** `cfProb`, the base weight of a point. */
  const CfProb: real := 10.0

  /** The initial value of `probabilityClass[c]`. */
  function BaseWeight(c: Class): (w: real)
    ensures w > 0.0
  {
    match c
    case Point => CfProb
    case Length => CfProb * 0.5
    case Trigonometry => CfProb * 0.9
    case Arithmetics => CfProb * 0.6
    case MinMax => CfProb * 0.4
    case Exp => CfProb * 0.1
    case Sign => CfProb * 0.01
    case EvenOdd => CfProb * 0.3
  }

  /** The templates of the one-argument rules. */
  datatype UnaryOp = Sin | Cos | SinCosTan | LogAbs | SqrtAbs | Abs | SignOf | EvenOddOp

  /** The templates of the two-argument rules. */
  datatype BinaryOp = SinDiv | Mul | Div | Add | Sub | Min | Max

  /** An entry of `fList`: a `ConstantFunction`, `SingleArgumentFunction` or `DualArgumentFunction`. */
  datatype Rule =
    | Constant(text: string, cls: Class)
    | Unary(op: UnaryOp, cls: Class)
    | Binary(bop: BinaryOp, cls: Class)

  /** The text of the `LENGTH` constant. */
  const LengthText: string := Call("Math.sqrt", "p.x*p.x + p.y * p.y")

  /** `fList`, in source order. */
  const Rules: seq<Rule> := [
    Constant("p.x", Point),
    Constant("p.y", Point),
    Constant(LengthText, Length),
    Unary(Sin, Trigonometry),
    Unary(Cos, Trigonometry),
    Unary(SinCosTan, Trigonometry),
    Binary(SinDiv, Trigonometry),
    Binary(Mul, Arithmetics),
    Binary(Div, Arithmetics),
    Binary(Add, Arithmetics),
    Binary(Sub, Arithmetics),
    Unary(LogAbs, Exp),
    Unary(SqrtAbs, Exp),
    Unary(Abs, Sign),
    Unary(SignOf, Sign),
    Binary(Min, MinMax),
    Binary(Max, MinMax),
    Unary(EvenOddOp, EvenOdd)
  ]

  /** The text of a call `name(arg)`. */
  function Call(name: string, arg: string): string {
    name + "(" + arg + ")"
  }

  /** The operator of a `SingleArgumentFunction` applied to the rendered argument. */
  function Apply1(op: UnaryOp, a: string): string {
    match op
    case Sin => Call("Math.sin", a)
    case Cos => Call("Math.cos", a)
    case SinCosTan => Call("Math.sin", Call("Math.cos", Call("Math.tan", a)))
    case LogAbs => Call("Math.log", Call("Math.abs", a))
    case SqrtAbs => Call("Math.sqrt", Call("Math.abs", a))
    case Abs => Call("Math.abs", a)
    case SignOf => Call("Math.sign", a)
    case EvenOddOp => Call("Math.round", a) + " % 2 === 0 ? " + a + " : " + a + " + 1"
  }

  /**
   * The operator of a `DualArgumentFunction` applied to the rendered left and
   * right arguments; the min and max templates collapse to the left argument
   * when the two texts are identical.
   */
  function Apply2(op: BinaryOp, a: string, b: string): string {
    match op
    case SinDiv => Call("Math.sin", a + "/" + b)
    case Mul => a + "*" + b
    case Div => a + "/" + b
    case Add => Call("", a + "+" + b)
    case Sub => Call("", a + "-" + b)
    case Min => if a == b then a else Call("Math.min", a + "," + b)
    case Max => if a == b then a else Call("Math.max", a + "," + b)
  }

  /** An expression tree: which rule was chosen at each node, with its arguments. */
  datatype Expr =
    | Const(text: string)
    | App1(op: UnaryOp, arg: Expr)
    | App2(bop: BinaryOp, left: Expr, right: Expr)

  /** The number of nodes of a tree. */
  function Size(e: Expr): nat {
    match e
    case Const(_) => 1
    case App1(_, a) => 1 + Size(a)
    case App2(_, l, r) => 1 + Size(l) + Size(r)
  }

  /** The number of rule choices on the longest path from the root. */
  function Depth(e: Expr): nat {
    match e
    case Const(_) => 1
    case App1(_, a) => 1 + Depth(a)
    case App2(_, l, r) => 1 + (if Depth(l) < Depth(r) then Depth(r) else Depth(l))
  }

  /** The source text `render()` returns for the tree. */
  function Render(e: Expr): string {
    match e
    case Const(t) => t
    case App1(op, a) => Apply1(op, Render(a))
    case App2(op, l, r) => Apply2(op, Render(l), Render(r))
  }

  /**
   * A min or max node renders as exactly its left argument when, and only
   * when, its two arguments render identically; otherwise as the call.
   */
  lemma MinMaxCollapse(op: BinaryOp, a: string, b: string)
    requires op == Min || op == Max
    ensures Apply2(op, a, b) == a <==> a == b
    ensures a != b ==> Apply2(op, a, b) == (if op == Min then "Math.min(" else "Math.max(") + a + "," + b + ")"
  {
    if a != b {
      assert |Apply2(op, a, b)| > |a|;
    }
  }

  /** The characters that open and close a group. */
  function ParenDelta(ch: char): int {
    if ch == '(' then 1 else if ch == ')' then -1 else 0
  }

  /**
   * Scanning `s` from nesting depth `d`: the final depth, or None if some
   * prefix closes more groups than are open.
   */
  function Walk(s: string, d: int): Option<int>
    decreases |s|
  {
    if d < 0 then None
    else if s == [] then Some(d)
    else Walk(s[1..], d + ParenDelta(s[0]))
  }

  /** Every parenthesis in `s` is closed, and none is closed before it is opened. */
  predicate Balanced(s: string) {
    Walk(s, 0) == Some(0)
  }

  /** Scanning a concatenation is scanning the first part, then the second. */
  lemma {:induction false} WalkAppend(a: string, b: string, d: int)
    ensures Walk(a + b, d) == (match Walk(a, d) case None => None case Some(d') => Walk(b, d'))
    decreases |a|
  {
    if d >= 0 {
      if a == [] {
        assert a + b == b;
      } else {
        assert (a + b)[0] == a[0] && (a + b)[1..] == a[1..] + b;
        WalkAppend(a[1..], b, d + ParenDelta(a[0]));
      }
    }
  }

  /** Starting deeper only shifts the final depth. */
  lemma {:induction false} WalkShift(s: string, d: int, k: nat)
    requires Walk(s, d).Some?
    ensures Walk(s, d + k) == Some(Walk(s, d).value + k)
    decreases |s|
  {
    if s != [] {
      WalkShift(s[1..], d + ParenDelta(s[0]), k);
    }
  }

  /** A text without parentheses leaves the depth as it is. */
  lemma {:induction false} WalkPlain(s: string, d: nat)
    requires Plain(s)
    ensures Walk(s, d) == Some(d)
    decreases |s|
  {
    if s != [] {
      WalkPlain(s[1..], d);
    }
  }

  lemma BalancedPlain(s: string)
    requires Plain(s)
    ensures Balanced(s)
  {
    WalkPlain(s, 0);
  }

  lemma BalancedConcat(a: string, b: string)
    requires Balanced(a) && Balanced(b)
    ensures Balanced(a + b)
  {
    WalkAppend(a, b, 0);
  }

  /** A text without parentheses. */
  predicate Plain(s: string) {
    forall i :: 0 <= i < |s| ==> s[i] != '(' && s[i] != ')'
  }

  /** Wrapping a balanced text in a call keeps it balanced. */
  lemma BalancedCall(name: string, a: string)
    requires Plain(name)
    requires Balanced(a)
    ensures Balanced(Call(name, a))
  {
    WalkPlain(name, 0);
    WalkAppend(name, "(", 0);
    WalkShift(a, 0, 1);
    WalkAppend(name + "(", a, 0);
    WalkAppend(name + "(" + a, ")", 0);
  }

  /** Two balanced texts around a separator without parentheses. */
  lemma BalancedInfix(a: string, sep: string, b: string)
    requires Balanced(a) && Balanced(b) && Plain(sep)
    ensures Balanced(a + sep + b)
  {
    BalancedPlain(sep);
    BalancedConcat(a, sep);
    BalancedConcat(a + sep, b);
  }

  /** Every one-argument template of `fList` keeps a balanced argument balanced. */
  lemma BalancedApply1(op: UnaryOp, a: string)
    requires Balanced(a)
    ensures Balanced(Apply1(op, a))
  {
    match op
    case Sin => BalancedCall("Math.sin", a);
    case Cos => BalancedCall("Math.cos", a);
    case SinCosTan =>
      BalancedCall("Math.tan", a);
      BalancedCall("Math.cos", Call("Math.tan", a));
      BalancedCall("Math.sin", Call("Math.cos", Call("Math.tan", a)));
    case LogAbs =>
      BalancedCall("Math.abs", a);
      BalancedCall("Math.log", Call("Math.abs", a));
    case SqrtAbs =>
      BalancedCall("Math.abs", a);
      BalancedCall("Math.sqrt", Call("Math.abs", a));
    case Abs => BalancedCall("Math.abs", a);
    case SignOf => BalancedCall("Math.sign", a);
    case EvenOddOp =>
      var r := Call("Math.round", a);
      BalancedCall("Math.round", a);
      BalancedInfix(r, " % 2 === 0 ? ", a);
      BalancedInfix(r + " % 2 === 0 ? " + a, " : ", a);
      BalancedPlain(" + 1");
      BalancedConcat(r + " % 2 === 0 ? " + a + " : " + a, " + 1");
  }

  /** Every two-argument template of `fList` keeps balanced arguments balanced. */
  lemma BalancedApply2(op: BinaryOp, a: string, b: string)
    requires Balanced(a) && Balanced(b)
    ensures Balanced(Apply2(op, a, b))
  {
    match op
    case SinDiv =>
      BalancedInfix(a, "/", b);
      BalancedCall("Math.sin", a + "/" + b);
    case Mul => BalancedInfix(a, "*", b);
    case Div => BalancedInfix(a, "/", b);
    case Add =>
      BalancedInfix(a, "+", b);
      BalancedCall("", a + "+" + b);
    case Sub =>
      BalancedInfix(a, "-", b);
      BalancedCall("", a + "-" + b);
    case Min =>
      BalancedInfix(a, ",", b);
      BalancedCall("Math.min", a + "," + b);
    case Max =>
      BalancedInfix(a, ",", b);
      BalancedCall("Math.max", a + "," + b);
  }

  /** The leaves a tree drawn from `fList` can have. */
  predicate IsRuleConstant(t: string) {
    t == "p.x" || t == "p.y" || t == LengthText
  }

  /** Every leaf of the tree is the text of a `ConstantFunction` of `fList`. */
  predicate FromGrammar(e: Expr) {
    match e
    case Const(t) => IsRuleConstant(t)
    case App1(_, a) => FromGrammar(a)
    case App2(_, l, r) => FromGrammar(l) && FromGrammar(r)
  }

  lemma PointBalanced(t: string)
    requires t == "p.x" || t == "p.y"
    ensures Balanced(t)
  {
    BalancedPlain(t);
  }

  lemma LengthBalanced(inner: string)
    requires inner == "p.x*p.x + p.y * p.y"
    ensures Balanced(Call("Math.sqrt", inner))
  {
    BalancedPlain(inner);
    BalancedCall("Math.sqrt", inner);
  }

  lemma ConstantBalanced(t: string)
    requires IsRuleConstant(t)
    ensures Balanced(t)
  {
    if t == LengthText {
      LengthBalanced("p.x*p.x + p.y * p.y");
    } else {
      PointBalanced(t);
    }
  }

  /** The source text of every tree the grammar can produce has balanced parentheses. */
  lemma {:induction false} RenderBalanced(e: Expr)
    requires FromGrammar(e)
    ensures Balanced(Render(e))
  {
    match e
    case Const(t) => ConstantBalanced(t);
    case App1(op, a) =>
      RenderBalanced(a);
      BalancedApply1(op, Render(a));
    case App2(op, l, r) =>
      RenderBalanced(l);
      RenderBalanced(r);
      BalancedApply2(op, Render(l), Render(r));
  }
}
