/** The third stage of the evaluator, `evaluateRpn` (lib/math-evaluator.ts): a stack machine
    over the postfix tokens, followed by the checks on what is left on the stack and the
    rendering of the result.

    JavaScript numbers are doubles. `Double` keeps what the stage tests of them (finite or
    not) and the value of a finite one; the arithmetic the stage delegates to the platform
    (the five binary operators, the Math functions and the toFixed/parseFloat rendering) is a
    `NumberOps` parameter, so every lemma holds for whatever those operations compute. Only
    negation, the finiteness test and the 1e-10 snap are fixed here. */
module MathRpn {
  import opened Basics
  import opened MathTokens

  datatype Double = Finite(r: real) | PositiveInfinity | NegativeInfinity | NotANumber

  /** Unary minus on a double. */
  function Negated(x: Double): (y: Double)
    ensures y.Finite? <==> x.Finite?
    ensures x.Finite? ==> y.r == -x.r
  {
    match x
    case Finite(r) => Finite(-r)
    case PositiveInfinity => NegativeInfinity
    case NegativeInfinity => PositiveInfinity
    case NotANumber => NotANumber
  }

  /** The operations the stage leaves to the JavaScript engine: `arith(op, left, right)` for
      + - * / and ** (`op` is never Negate), `apply(name, x)` for FUNCTION_MAP[name](x), and
      `display(x)` for Number.parseFloat(x.toFixed(10)).toString(). */
  datatype NumberOps = NumberOps(
    arith: (Op, Double, Double) -> Double,
    apply: (string, Double) -> Double,
    display: Double -> string)

  /** Values closer to zero than 1e-10 are shown as 0. Every double compares with the double
      literal 1e-10 as it compares with 10^-10 itself, so the bound is written exactly. */
  function Snapped(v: real): (s: real)
    ensures -1.0 / 10_000_000_000.0 < v < 1.0 / 10_000_000_000.0 ==> s == 0.0
    ensures !(-1.0 / 10_000_000_000.0 < v < 1.0 / 10_000_000_000.0) ==> s == v
  {
    if -1.0 / 10_000_000_000.0 < v < 1.0 / 10_000_000_000.0 then 0.0 else v
  }

  /** A successful evaluation: the value and its rendering. */
  datatype Evaluated = Evaluated(value: real, displayValue: string)

  /** The object the evaluator returns. */
  datatype EvaluationResult = Success(value: real, displayValue: string) | Failure(error: string)

  function Report(r: Result<Evaluated>): EvaluationResult
  {
    match r
    case Ok(ev) => Success(ev.value, ev.displayValue)
    case Err(e) => Failure(Message(e))
  }

  /** One iteration of the stage's loop. A binary operator pops the right operand first. */
  function RpnStep(num: NumberOps, stack: seq<Double>, t: Token): Result<seq<Double>>
  {
    match t
    case Number(v) => Ok(stack + [Finite(v)])
    case Operator(op) =>
      if op == Negate then
        if |stack| == 0 then Err(InvalidUnary)
        else Ok(DropLast(stack) + [Negated(Last(stack))])
      else if |stack| < 2 then Err(InvalidBinary)
      else Ok(stack[..|stack| - 2] + [num.arith(op, stack[|stack| - 2], Last(stack))])
    case Function(name) =>
      if |stack| == 0 then Err(MissingValue(name))
      else if name !in FunctionNames then Err(UnsupportedFunction(name))
      else Ok(DropLast(stack) + [num.apply(name, Last(stack))])
    case LeftParen => Ok(stack)
    case RightParen => Ok(stack)
  }

  /** The loop run from `stack` over `tokens`. */
  function Run(num: NumberOps, stack: seq<Double>, tokens: seq<Token>): Result<seq<Double>>
    decreases |tokens|
  {
    if tokens == [] then Ok(stack)
    else
      match RpnStep(num, stack, tokens[0])
      case Err(e) => Err(e)
      case Ok(next) => Run(num, next, tokens[1..])
  }

  /** What the stage returns for `tokens`. */
  function RpnOutcome(num: NumberOps, tokens: seq<Token>): Result<Evaluated>
  {
    match Run(num, [], tokens)
    case Err(e) => Err(e)
    case Ok(stack) =>
      if |stack| != 1 then Err(Unresolvable)
      else if !stack[0].Finite? then Err(NotFinite)
      else Ok(Evaluated(stack[0].r, num.display(Finite(Snapped(stack[0].r)))))
  }

  method EvaluateRpn(num: NumberOps, tokens: seq<Token>) returns (r: EvaluationResult)
    ensures r == Report(RpnOutcome(num, tokens))
  {
    var stack: seq<Double> := [];
    for i := 0 to |tokens|
      invariant Run(num, stack, tokens[i..]) == Run(num, [], tokens)
    {
      var token := tokens[i];
      assert tokens[i..][1..] == tokens[i + 1..];
      if token.Number? {
        stack := stack + [Finite(token.value)];
      } else if token.Operator? {
        if token.op == Negate {
          if |stack| == 0 {
            return Failure("Invalid unary operation");
          }
          var operand := stack[|stack| - 1];
          stack := stack[..|stack| - 1];
          stack := stack + [Negated(operand)];
        } else {
          if |stack| < 2 {
            return Failure("Invalid binary operation");
          }
          var right := stack[|stack| - 1];
          var left := stack[|stack| - 2];
          stack := stack[..|stack| - 2];
          stack := stack + [num.arith(token.op, left, right)];
        }
      } else if token.Function? {
        if |stack| == 0 {
          return Failure("Missing value for " + token.name);
        }
        var operand := stack[|stack| - 1];
        stack := stack[..|stack| - 1];
        if token.name !in FunctionNames {
          return Failure("Unsupported function \"" + token.name + "\"");
        }
        stack := stack + [num.apply(token.name, operand)];
      }
    }
    if |stack| != 1 {
      return Failure("Unable to resolve expression");
    }
    var value := stack[0];
    if !value.Finite? {
      return Failure("Expression evaluates to an infinite result");
    }
    var rounded := if -1.0 / 10_000_000_000.0 < value.r < 1.0 / 10_000_000_000.0 then 0.0 else value.r;
    return Success(value.r, num.display(Finite(rounded)));
  }

  // ----- stack discipline -----

  /** How many operands a token takes from the stack. */
  function Needs(t: Token): nat
  {
    match t
    case Number(_) => 0
    case Operator(op) => if op == Negate then 1 else 2
    case Function(_) => 1
    case LeftParen => 0
    case RightParen => 0
  }

  /** How much a token changes the stack height. */
  function Effect(t: Token): int
  {
    match t
    case Number(_) => 1
    case Operator(op) => if op == Negate then 0 else -1
    case Function(_) => 0
    case LeftParen => 0
    case RightParen => 0
  }

  /** The stack height after `tokens`, starting from empty. */
  function Height(tokens: seq<Token>): int
  {
    if tokens == [] then 0 else Effect(tokens[0]) + Height(tokens[1..])
  }

  /** Starting from height h, every token finds the operands it needs and every function
      token names a function of the table. */
  predicate Accepts(h: int, tokens: seq<Token>)
    decreases |tokens|
  {
    tokens == [] ||
    (h >= Needs(tokens[0]) &&
     (tokens[0].Function? ==> tokens[0].name in FunctionNames) &&
     Accepts(h + Effect(tokens[0]), tokens[1..]))
  }

  /** The operand errors the loop can report. */
  predicate IsStackError(e: Error)
  {
    e == InvalidUnary || e == InvalidBinary || e.MissingValue? || e.UnsupportedFunction?
  }

  /** The loop succeeds exactly when every token finds its operands and every function is
      known; then the stack ends at its start height plus the tokens' net effect, and
      otherwise the error is one of the four operand errors. */
  lemma {:induction false} RunAccepts(num: NumberOps, stack: seq<Double>, tokens: seq<Token>)
    ensures Run(num, stack, tokens).Ok? <==> Accepts(|stack|, tokens)
    ensures Run(num, stack, tokens).Ok? ==> |Run(num, stack, tokens).value| == |stack| + Height(tokens)
    ensures Run(num, stack, tokens).Err? ==> IsStackError(Run(num, stack, tokens).error)
    decreases |tokens|
  {
    if tokens != [] {
      var t := tokens[0];
      var step := RpnStep(num, stack, t);
      if step.Ok? {
        assert |step.value| == |stack| + Effect(t);
        RunAccepts(num, step.value, tokens[1..]);
      }
    }
  }

  /** The stage fails either inside the loop, with one of its operand errors, or after it,
      because the stack does not hold exactly one value or that value is not finite. */
  lemma RpnOutcomeErrors(num: NumberOps, tokens: seq<Token>)
    ensures RpnOutcome(num, tokens).Err? ==>
      (Run(num, [], tokens).Err? && RpnOutcome(num, tokens).error == Run(num, [], tokens).error
        && IsStackError(RpnOutcome(num, tokens).error)) ||
      (Run(num, [], tokens).Ok? &&
        (RpnOutcome(num, tokens).error == Unresolvable || RpnOutcome(num, tokens).error == NotFinite))
  {
    RunAccepts(num, [], tokens);
  }

  /** When every function token names a table entry the loop never reports an
      unsupported function. */
  lemma {:induction false} RunKnownFunctions(num: NumberOps, stack: seq<Double>, tokens: seq<Token>)
    requires forall k :: 0 <= k < |tokens| && tokens[k].Function? ==> tokens[k].name in FunctionNames
    ensures Run(num, stack, tokens).Err? ==> !Run(num, stack, tokens).error.UnsupportedFunction?
    decreases |tokens|
  {
    if tokens != [] {
      match RpnStep(num, stack, tokens[0])
      case Err(_) =>
      case Ok(next) =>
        assert forall k :: 0 <= k < |tokens[1..]| ==> tokens[1..][k] == tokens[k + 1];
        RunKnownFunctions(num, next, tokens[1..]);
    }
  }

  /** An unknown function is reported only after the missing-operand check. */
  lemma UnknownFunctionNeedsOperand(num: NumberOps, stack: seq<Double>, name: string)
    requires name !in FunctionNames
    ensures RpnStep(num, stack, Function(name)) ==
      (if |stack| == 0 then Err(MissingValue(name)) else Err(UnsupportedFunction(name)))
  {
  }

  /** Running two token lists one after the other is running their concatenation. */
  lemma {:induction false} RunAppend(num: NumberOps, stack: seq<Double>, a: seq<Token>, b: seq<Token>)
    ensures Run(num, stack, a + b) ==
      match Run(num, stack, a)
      case Err(e) => Err(e)
      case Ok(s) => Run(num, s, b)
    decreases |a|
  {
    if a == [] {
      assert a + b == b;
    } else {
      assert (a + b)[0] == a[0];
      assert (a + b)[1..] == a[1..] + b;
      match RpnStep(num, stack, a[0])
      case Err(_) =>
      case Ok(s) => RunAppend(num, s, a[1..], b);
    }
  }

  // ----- evaluation of expression trees -----

  /** The expression tree a well-formed postfix list encodes. */
  datatype Expr =
    | Const(v: real)
    | Neg(operand: Expr)
    | Binary(op: Op, left: Expr, right: Expr)
    | Call(name: string, arg: Expr)

  /** The tree meets the stage's conditions: binary nodes carry binary operators and calls
      name known functions. */
  predicate WellFormed(e: Expr)
  {
    match e
    case Const(_) => true
    case Neg(x) => WellFormed(x)
    case Binary(op, l, r) => op != Negate && WellFormed(l) && WellFormed(r)
    case Call(name, x) => name in FunctionNames && WellFormed(x)
  }

  /** The value of a tree, with the same operations as the stage. */
  function Value(num: NumberOps, e: Expr): Double
  {
    match e
    case Const(v) => Finite(v)
    case Neg(x) => Negated(Value(num, x))
    case Binary(op, l, r) => num.arith(op, Value(num, l), Value(num, r))
    case Call(name, x) => num.apply(name, Value(num, x))
  }

  /** The postfix form of a tree: operands first, then the operator. */
  function PostfixOf(e: Expr): seq<Token>
  {
    match e
    case Const(v) => [Number(v)]
    case Neg(x) => PostfixOf(x) + [Operator(Negate)]
    case Binary(op, l, r) => PostfixOf(l) + PostfixOf(r) + [Operator(op)]
    case Call(name, x) => PostfixOf(x) + [Function(name)]
  }

  lemma RunOne(num: NumberOps, stack: seq<Double>, t: Token)
    ensures Run(num, stack, [t]) == RpnStep(num, stack, t)
  {
    match RpnStep(num, stack, t)
    case Err(_) =>
    case Ok(s) => assert [t][1..] == [];
  }

  /** The stack machine evaluates the postfix form of any well-formed tree to the tree's
      value, pushed on whatever was on the stack. */
  lemma {:induction false} RunPostfixOf(num: NumberOps, stack: seq<Double>, e: Expr)
    requires WellFormed(e)
    ensures Run(num, stack, PostfixOf(e)) == Ok(stack + [Value(num, e)])
    decreases e
  {
    match e
    case Const(v) => RunOne(num, stack, Number(v));
    case Neg(x) =>
      RunPostfixOf(num, stack, x);
      RunAppend(num, stack, PostfixOf(x), [Operator(Negate)]);
      RunOne(num, stack + [Value(num, x)], Operator(Negate));
      assert DropLast(stack + [Value(num, x)]) == stack;
    case Binary(op, l, r) =>
      var vl, vr := Value(num, l), Value(num, r);
      RunPostfixOf(num, stack, l);
      RunPostfixOf(num, stack + [vl], r);
      RunAppend(num, stack, PostfixOf(l), PostfixOf(r));
      RunAppend(num, stack, PostfixOf(l) + PostfixOf(r), [Operator(op)]);
      var both := stack + [vl] + [vr];
      RunOne(num, both, Operator(op));
      assert both[..|both| - 2] == stack && both[|both| - 2] == vl && Last(both) == vr;
    case Call(name, x) =>
      RunPostfixOf(num, stack, x);
      RunAppend(num, stack, PostfixOf(x), [Function(name)]);
      RunOne(num, stack + [Value(num, x)], Function(name));
      assert DropLast(stack + [Value(num, x)]) == stack;
  }

  /** The stage's verdict on the postfix form of a well-formed tree: its value and rendering
      when that value is finite, and "Expression evaluates to an infinite result" when it is
      infinite or NaN. */
  lemma OutcomeOfPostfix(num: NumberOps, e: Expr)
    requires WellFormed(e)
    ensures Value(num, e).Finite? ==>
      RpnOutcome(num, PostfixOf(e)) ==
        Ok(Evaluated(Value(num, e).r, num.display(Finite(Snapped(Value(num, e).r)))))
    ensures !Value(num, e).Finite? ==> RpnOutcome(num, PostfixOf(e)) == Err(NotFinite)
    ensures !Value(num, e).Finite? ==>
      Report(RpnOutcome(num, PostfixOf(e))) == Failure("Expression evaluates to an infinite result")
  {
    RunPostfixOf(num, [], e);
    assert [] + [Value(num, e)] == [Value(num, e)];
  }

  /** Values within 1e-10 of zero are rendered as 0 but reported unchanged. */
  lemma TinyValuesDisplayAsZero(num: NumberOps, tokens: seq<Token>)
    requires RpnOutcome(num, tokens).Ok?
    requires -1.0 / 10_000_000_000.0 < RpnOutcome(num, tokens).value.value < 1.0 / 10_000_000_000.0
    ensures RpnOutcome(num, tokens).value.displayValue == num.display(Finite(0.0))
    ensures Run(num, [], tokens) == Ok([Finite(RpnOutcome(num, tokens).value.value)])
  {
    var stack := Run(num, [], tokens).value;
    assert stack == [stack[0]];
  }

  /** Two values left on the stack are not an answer: "1 2" has no operator between them. */
  lemma TwoValuesUnresolvable(num: NumberOps, a: real, b: real)
    ensures RpnOutcome(num, [Number(a), Number(b)]) == Err(Unresolvable)
  {
    var s1 := [Finite(a)];
    assert Run(num, [], [Number(a), Number(b)]) == Run(num, s1, [Number(b)]) by {
      assert [Number(a), Number(b)][1..] == [Number(b)];
      assert [] + [Finite(a)] == s1;
    }
    RunOne(num, s1, Number(b));
    assert |s1 + [Finite(b)]| == 2;
  }
}
