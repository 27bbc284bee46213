/** The second stage of the evaluator, `shuntingYard` (lib/math-evaluator.ts): Dijkstra's
    operator-precedence conversion of the token list into postfix order. The stage keeps an
    output list and a stack whose top is the last element. `Convert` is the main loop folded
    over the tokens read so far, `Drain` the final loop that empties the stack; the method
    `ShuntingYard` is the loops themselves. */
module MathShuntingYard {
  import opened Basics
  import opened MathTokens

  datatype Yard = Yard(output: seq<Token>, stack: seq<Token>)

  /** Whether the stack top leaves before an incoming operator: a function always does, an
      operator does when its precedence is higher, or equal and the incoming operator is
      left-associative; parentheses never do. */
  predicate PopsBefore(top: Token, incoming: Op)
  {
    top.Function? ||
    (top.Operator? &&
      (Precedence(top.op) > Precedence(incoming) ||
       (Precedence(top.op) == Precedence(incoming) && !RightAssociative(incoming))))
  }

  /** The inner loop run for an incoming operator: move stack tops to the output while they pop. */
  function PopOperators(y: Yard, incoming: Op): Yard
    decreases |y.stack|
  {
    if |y.stack| > 0 && PopsBefore(Last(y.stack), incoming)
    then PopOperators(Yard(y.output + [Last(y.stack)], DropLast(y.stack)), incoming)
    else y
  }

  /** The inner loop run for `)`: move stack tops to the output up to the nearest `(`, which
      is discarded; without one the parentheses are mismatched. */
  function CloseParen(y: Yard): Result<Yard>
    decreases |y.stack|
  {
    if |y.stack| == 0 then Err(MismatchedParentheses)
    else if Last(y.stack) == LeftParen then Ok(Yard(y.output, DropLast(y.stack)))
    else CloseParen(Yard(y.output + [Last(y.stack)], DropLast(y.stack)))
  }

  /** After a `(` is discarded, a function waiting under it goes to the output. */
  function PopFunction(y: Yard): Yard
  {
    if |y.stack| > 0 && Last(y.stack).Function?
    then Yard(y.output + [Last(y.stack)], DropLast(y.stack))
    else y
  }

  /** One iteration of the main loop. */
  function Shift(y: Yard, t: Token): Result<Yard>
  {
    match t
    case Number(_) => Ok(Yard(y.output + [t], y.stack))
    case Function(_) => Ok(Yard(y.output, y.stack + [t]))
    case Operator(op) =>
      var y' := PopOperators(y, op);
      Ok(Yard(y'.output, y'.stack + [t]))
    case LeftParen => Ok(Yard(y.output, y.stack + [t]))
    case RightParen =>
      match CloseParen(y)
      case Err(e) => Err(e)
      case Ok(y') => Ok(PopFunction(y'))
  }

  /** The state after the main loop has read all of `tokens`, or its first failure. */
  function Convert(tokens: seq<Token>): Result<Yard>
    decreases |tokens|
  {
    if tokens == [] then Ok(Yard([], []))
    else
      match Convert(DropLast(tokens))
      case Err(e) => Err(e)
      case Ok(y) => Shift(y, Last(tokens))
  }

  /** The final loop: pop everything to the output; a parenthesis left over is a mismatch. */
  function Drain(y: Yard): Result<seq<Token>>
    decreases |y.stack|
  {
    if |y.stack| == 0 then Ok(y.output)
    else if IsParen(Last(y.stack)) then Err(MismatchedParentheses)
    else Drain(Yard(y.output + [Last(y.stack)], DropLast(y.stack)))
  }

  function Postfix(tokens: seq<Token>): Result<seq<Token>>
  {
    match Convert(tokens)
    case Err(e) => Err(e)
    case Ok(y) => Drain(y)
  }

  lemma {:induction false} ConvertErrorSticks(tokens: seq<Token>, n: nat)
    requires n <= |tokens|
    requires Convert(tokens[..n]).Err?
    ensures Convert(tokens) == Convert(tokens[..n])
    decreases |tokens|
  {
    if n < |tokens| {
      assert DropLast(tokens)[..n] == tokens[..n];
      ConvertErrorSticks(DropLast(tokens), n);
    } else {
      assert tokens[..n] == tokens;
    }
  }

  method ShuntingYard(tokens: seq<Token>) returns (r: Result<seq<Token>>)
    ensures r == Postfix(tokens)
  {
    var output: seq<Token> := [];
    var stack: seq<Token> := [];

    for i := 0 to |tokens|
      invariant Convert(tokens[..i]) == Ok(Yard(output, stack))
    {
      var token := tokens[i];
      assert DropLast(tokens[..i + 1]) == tokens[..i];
      if token.Number? {
        output := output + [token];
      } else if token.Function? {
        stack := stack + [token];
      } else if token.Operator? {
        ghost var before := Yard(output, stack);
        while |stack| > 0
          invariant PopOperators(Yard(output, stack), token.op) == PopOperators(before, token.op)
          decreases |stack|
        {
          var top := stack[|stack| - 1];
          if top.Operator? {
            var topPrecedence := Precedence(top.op);
            var currentPrecedence := Precedence(token.op);
            if topPrecedence > currentPrecedence ||
               (topPrecedence == currentPrecedence && !RightAssociative(token.op)) {
              output := output + [top];
              stack := stack[..|stack| - 1];
              continue;
            }
          } else if top.Function? {
            output := output + [top];
            stack := stack[..|stack| - 1];
            continue;
          }
          break;
        }
        stack := stack + [token];
      } else if token.LeftParen? {
        stack := stack + [token];
      } else {
        ghost var before := Yard(output, stack);
        var foundLeftParen := false;
        while |stack| > 0
          invariant !foundLeftParen
          invariant CloseParen(Yard(output, stack)) == CloseParen(before)
          decreases |stack|
        {
          var top := stack[|stack| - 1];
          stack := stack[..|stack| - 1];
          if top.LeftParen? {
            foundLeftParen := true;
            assert CloseParen(before) == Ok(Yard(output, stack));
            break;
          }
          output := output + [top];
        }
        if !foundLeftParen {
          ConvertErrorSticks(tokens, i + 1);
          return Err(MismatchedParentheses);
        }
        if |stack| > 0 && stack[|stack| - 1].Function? {
          output := output + [stack[|stack| - 1]];
          stack := stack[..|stack| - 1];
        }
      }
    }

    assert tokens[..|tokens|] == tokens;
    while |stack| > 0
      invariant Drain(Yard(output, stack)) == Postfix(tokens)
      decreases |stack|
    {
      var token := stack[|stack| - 1];
      stack := stack[..|stack| - 1];
      if token.LeftParen? || token.RightParen? {
        return Err(MismatchedParentheses);
      }
      output := output + [token];
    }
    return Ok(output);
  }

  // ----- parentheses and operands -----

  predicate IsOperand(t: Token)
  {
    !IsParen(t)
  }

  /** The number, operator and function tokens of s, in order. */
  function Operands(s: seq<Token>): seq<Token>
    decreases |s|
  {
    if s == [] then [] else Operands(DropLast(s)) + (if IsOperand(Last(s)) then [Last(s)] else [])
  }

  /** Every operand comes from the input. */
  lemma {:induction false} OperandFromInput(s: seq<Token>, x: Token)
    requires x in Operands(s)
    ensures x in s
    decreases |s|
  {
    SplitLast(s);
    if x in Operands(DropLast(s)) {
      OperandFromInput(DropLast(s), x);
    }
  }

  /** Open parentheses minus closed ones. */
  function Depth(t: seq<Token>): int
    decreases |t|
  {
    if t == [] then 0
    else Depth(DropLast(t)) + (if Last(t) == LeftParen then 1 else if Last(t) == RightParen then -1 else 0)
  }

  /** No prefix closes more parentheses than it opened. */
  predicate NeverOverClosed(t: seq<Token>)
  {
    forall k :: 0 <= k <= |t| ==> Depth(t[..k]) >= 0
  }

  predicate Balanced(t: seq<Token>)
  {
    NeverOverClosed(t) && Depth(t) == 0
  }

  predicate NoParens(s: seq<Token>)
  {
    forall k :: 0 <= k < |s| ==> IsOperand(s[k])
  }

  function OpenCount(stack: seq<Token>): nat
  {
    multiset(stack)[LeftParen]
  }

  /** What the conversion has accounted for so far. */
  function Content(y: Yard): multiset<Token>
  {
    multiset(y.output) + multiset(Operands(y.stack))
  }

  /** The output never holds a parenthesis and the stack never holds a `)`. */
  predicate Clean(y: Yard)
  {
    NoParens(y.output) && RightParen !in y.stack
  }

  /** The state after reading t: clean, one `(` on the stack per unclosed `(` of t, and
      every operand of t in the output or on the stack. */
  predicate Fits(y: Yard, t: seq<Token>)
  {
    Clean(y) && OpenCount(y.stack) == Depth(t) && Content(y) == multiset(Operands(t))
  }

  lemma OperandsAppend(s: seq<Token>, x: Token)
    ensures Operands(s + [x]) == Operands(s) + (if IsOperand(x) then [x] else [])
  {
    assert DropLast(s + [x]) == s;
  }

  /** Pushing a token adds it to the operand count when it is one. */
  lemma OperandCountSnoc(s: seq<Token>, x: Token)
    ensures multiset(Operands(s + [x])) ==
      multiset(Operands(s)) + (if IsOperand(x) then multiset{x} else multiset{})
  {
    OperandsAppend(s, x);
  }

  /** Pushing a token adds one open parenthesis when it is a `(`. */
  lemma OpenCountSnoc(s: seq<Token>, x: Token)
    ensures OpenCount(s + [x]) == OpenCount(s) + (if x == LeftParen then 1 else 0)
  {
    assert multiset(s + [x]) == multiset(s) + multiset{x};
  }

  /** Moving one operand from the stack top to the output changes none of the counts. */
  lemma MoveTop(y: Yard)
    requires |y.stack| > 0 && IsOperand(Last(y.stack)) && Clean(y)
    ensures var y' := Yard(y.output + [Last(y.stack)], DropLast(y.stack));
      Clean(y') && Content(y') == Content(y) && OpenCount(y'.stack) == OpenCount(y.stack)
  {
    var rest := DropLast(y.stack);
    var top := Last(y.stack);
    SplitLast(y.stack);
    OperandCountSnoc(rest, top);
    OpenCountSnoc(rest, top);
    NoParensSnoc(y.output, top);
    assert multiset(y.output + [top]) == multiset(y.output) + multiset{top};
  }

  lemma NoParensSnoc(s: seq<Token>, x: Token)
    requires NoParens(s) && IsOperand(x)
    ensures NoParens(s + [x])
  {
    forall k | 0 <= k < |s + [x]| ensures IsOperand((s + [x])[k]) {
      if k < |s| {
        assert (s + [x])[k] == s[k];
      }
    }
  }

  lemma {:induction false} PopOperatorsKeeps(y: Yard, op: Op)
    requires Clean(y)
    ensures var y' := PopOperators(y, op);
      Clean(y') && Content(y') == Content(y) && OpenCount(y'.stack) == OpenCount(y.stack)
    decreases |y.stack|
  {
    if |y.stack| > 0 && PopsBefore(Last(y.stack), op) {
      MoveTop(y);
      PopOperatorsKeeps(Yard(y.output + [Last(y.stack)], DropLast(y.stack)), op);
    }
  }

  lemma {:induction false} CloseParenKeeps(y: Yard)
    requires Clean(y)
    ensures CloseParen(y).Err? <==> OpenCount(y.stack) == 0
    ensures CloseParen(y).Err? ==> CloseParen(y).error == MismatchedParentheses
    ensures CloseParen(y).Ok? ==>
      var y' := CloseParen(y).value;
      Clean(y') && Content(y') == Content(y) && OpenCount(y'.stack) + 1 == OpenCount(y.stack)
    decreases |y.stack|
  {
    if |y.stack| > 0 {
      var rest := DropLast(y.stack);
      var top := Last(y.stack);
      assert y.stack == rest + [top];
      if top == LeftParen {
        OperandsAppend(rest, top);
      } else {
        MoveTop(y);
        CloseParenKeeps(Yard(y.output + [top], rest));
      }
    }
  }

  lemma PopFunctionKeeps(y: Yard)
    requires Clean(y)
    ensures var y' := PopFunction(y);
      Clean(y') && Content(y') == Content(y) && OpenCount(y'.stack) == OpenCount(y.stack)
  {
    if |y.stack| > 0 && Last(y.stack).Function? {
      MoveTop(y);
    }
  }

  lemma PushKeeps(y: Yard, t: seq<Token>, x: Token)
    requires Fits(y, t) && x != RightParen && !x.Number?
    ensures Fits(Yard(y.output, y.stack + [x]), t + [x])
  {
    var y' := Yard(y.output, y.stack + [x]);
    DepthSnoc(t, x);
    OpenCountSnoc(y.stack, x);
    ContentPush(y, x);
    OperandCountSnoc(t, x);
    assert RightParen !in y'.stack;
  }

  /** Pushing a token adds it to the content when it is an operand. */
  lemma ContentPush(y: Yard, x: Token)
    ensures Content(Yard(y.output, y.stack + [x])) ==
      Content(y) + (if IsOperand(x) then multiset{x} else multiset{})
  {
    OperandCountSnoc(y.stack, x);
  }

  lemma DepthSnoc(t: seq<Token>, x: Token)
    ensures Depth(t + [x]) == Depth(t) + (if x == LeftParen then 1 else if x == RightParen then -1 else 0)
  {
    assert DropLast(t + [x]) == t;
  }

  lemma ShiftNumberKeeps(y: Yard, t: seq<Token>, v: real)
    requires Fits(y, t)
    ensures Fits(Yard(y.output + [Number(v)], y.stack), t + [Number(v)])
  {
    var x := Number(v);
    var y' := Yard(y.output + [x], y.stack);
    DepthSnoc(t, x);
    OperandCountSnoc(t, x);
    NoParensSnoc(y.output, x);
    assert multiset(y'.output) == multiset(y.output) + multiset{x};
    assert Content(y') == multiset(Operands(t + [x]));
  }

  lemma ShiftOperatorKeeps(y: Yard, t: seq<Token>, op: Op)
    requires Fits(y, t)
    ensures Fits(Shift(y, Operator(op)).value, t + [Operator(op)])
  {
    PopOperatorsKeeps(y, op);
    PushKeeps(PopOperators(y, op), t, Operator(op));
  }

  lemma ShiftCloseKeeps(y: Yard, t: seq<Token>)
    requires Fits(y, t)
    ensures Shift(y, RightParen).Err? <==> Depth(t) == 0
    ensures Shift(y, RightParen).Err? ==> Shift(y, RightParen).error == MismatchedParentheses
    ensures Shift(y, RightParen).Ok? ==> Fits(Shift(y, RightParen).value, t + [RightParen])
  {
    DepthSnoc(t, RightParen);
    OperandsAppend(t, RightParen);
    CloseParenKeeps(y);
    if CloseParen(y).Ok? {
      var y1 := CloseParen(y).value;
      PopFunctionKeeps(y1);
      assert Shift(y, RightParen) == Ok(PopFunction(y1));
      var y2 := PopFunction(y1);
      assert OpenCount(y2.stack) == Depth(t + [RightParen]);
      assert Content(y2) == multiset(Operands(t + [RightParen]));
    } else {
      assert Shift(y, RightParen) == Err(MismatchedParentheses);
    }
  }

  lemma {:induction false} ShiftKeeps(y: Yard, t: seq<Token>, x: Token)
    requires Fits(y, t)
    ensures Shift(y, x).Err? <==> x == RightParen && Depth(t) == 0
    ensures Shift(y, x).Err? ==> Shift(y, x).error == MismatchedParentheses
    ensures Shift(y, x).Ok? ==> Fits(Shift(y, x).value, t + [x])
  {
    match x
    case Number(v) => ShiftNumberKeeps(y, t, v);
    case Function(_) => PushKeeps(y, t, x);
    case Operator(op) => ShiftOperatorKeeps(y, t, op);
    case LeftParen => PushKeeps(y, t, x);
    case RightParen => ShiftCloseKeeps(y, t);
  }

  /** The main loop fails exactly when some prefix closes a parenthesis it never opened;
      otherwise its state fits what it has read. */
  lemma {:induction false} ConvertFits(t: seq<Token>)
    ensures Convert(t).Ok? <==> NeverOverClosed(t)
    ensures Convert(t).Err? ==> Convert(t).error == MismatchedParentheses
    ensures Convert(t).Ok? ==> Fits(Convert(t).value, t)
    decreases |t|
  {
    if t == [] {
      assert t[..0] == [];
    } else {
      var p := DropLast(t);
      ConvertFits(p);
      NeverOverClosedStep(t);
      if Convert(p).Ok? {
        SplitLast(t);
        ShiftKeeps(Convert(p).value, p, Last(t));
      }
    }
  }

  lemma NeverOverClosedStep(t: seq<Token>)
    requires t != []
    ensures NeverOverClosed(t) <==> NeverOverClosed(DropLast(t)) && Depth(t) >= 0
  {
    var p := DropLast(t);
    assert t[..|t|] == t;
    if NeverOverClosed(t) {
      forall k | 0 <= k <= |p| ensures Depth(p[..k]) >= 0 {
        assert t[..k] == p[..k];
      }
    }
    if NeverOverClosed(p) && Depth(t) >= 0 {
      forall k | 0 <= k <= |t| ensures Depth(t[..k]) >= 0 {
        if k < |t| {
          assert t[..k] == p[..k];
        }
      }
    }
  }

  /** The final loop fails exactly when a `(` is left on the stack; otherwise everything on
      the stack apart from parentheses reaches the output. */
  lemma {:induction false} DrainKeeps(y: Yard)
    requires Clean(y)
    ensures Drain(y).Err? <==> OpenCount(y.stack) > 0
    ensures Drain(y).Err? ==> Drain(y).error == MismatchedParentheses
    ensures Drain(y).Ok? ==> NoParens(Drain(y).value) && multiset(Drain(y).value) == Content(y)
    decreases |y.stack|
  {
    if |y.stack| == 0 {
      assert Operands(y.stack) == [];
    } else {
      var rest := DropLast(y.stack);
      var top := Last(y.stack);
      assert y.stack == rest + [top];
      if !IsParen(top) {
        MoveTop(y);
        DrainKeeps(Yard(y.output + [top], rest));
      }
    }
  }

  /** The conversion fails, always with "Mismatched parentheses", exactly when the
      parentheses of the input are unbalanced. */
  lemma PostfixFailsIffUnbalanced(t: seq<Token>)
    ensures Postfix(t).Err? <==> !Balanced(t)
    ensures Postfix(t).Err? ==> Postfix(t).error == MismatchedParentheses
  {
    ConvertFits(t);
    if Convert(t).Ok? {
      DrainKeeps(Convert(t).value);
    }
  }

  /** A successful conversion outputs exactly the number, operator and function tokens of
      the input (as a multiset) and no parenthesis. */
  lemma PostfixKeepsOperands(t: seq<Token>)
    requires Postfix(t).Ok?
    ensures NoParens(Postfix(t).value)
    ensures multiset(Postfix(t).value) == multiset(Operands(t))
  {
    ConvertFits(t);
    DrainKeeps(Convert(t).value);
  }

  /** A `)` is never pushed, so the final loop never meets one: its test for a right
      parenthesis can only fire on a `(`. */
  lemma StackNeverHoldsRightParen(t: seq<Token>)
    requires Convert(t).Ok?
    ensures RightParen !in Convert(t).value.stack
  {
    ConvertFits(t);
  }
  // ----- precedence and associativity, on symbolic operands -----

  lemma ConvertSnoc(t: seq<Token>, x: Token)
    ensures Convert(t + [x]) ==
      match Convert(t)
      case Err(e) => Err(e)
      case Ok(y) => Shift(y, x)
  {
    assert DropLast(t + [x]) == t;
  }

  /** One step of the main loop from a known state. */
  lemma ConvertStep(t: seq<Token>, y: Yard, x: Token, r: Result<Yard>)
    requires Convert(t) == Ok(y) && Shift(y, x) == r
    ensures Convert(t + [x]) == r
  {
    ConvertSnoc(t, x);
  }

  /** A number read after a known state goes straight to the output. */
  lemma ThenNumber(t: seq<Token>, y: Yard, v: real)
    requires Convert(t) == Ok(y)
    ensures Convert(t + [Number(v)]) == Ok(Yard(y.output + [Number(v)], y.stack))
  {
    ConvertStep(t, y, Number(v), Ok(Yard(y.output + [Number(v)], y.stack)));
  }

  /** A first token that is not a number or `)` is pushed. */
  lemma FirstPushed(x: Token)
    requires !x.Number? && x != RightParen
    ensures Convert([x]) == Ok(Yard([], [x]))
  {
    assert [] + [x] == [x];
    ConvertStep([], Yard([], []), x, Ok(Yard([], [x])));
  }

  /** A number then an operator. */
  lemma NumberOp(a: real, op: Op)
    ensures Convert([Number(a), Operator(op)]) == Ok(Yard([Number(a)], [Operator(op)]))
  {
    assert [] + [Number(a)] == [Number(a)];
    ThenNumber([], Yard([], []), a);
    assert [] + [Operator(op)] == [Operator(op)];
    assert [Number(a)] + [Operator(op)] == [Number(a), Operator(op)];
    ConvertStep([Number(a)], Yard([Number(a)], []), Operator(op), Ok(Yard([Number(a)], [Operator(op)])));
  }

  /** A number, an operator and a number. */
  lemma NumberOpNumber(a: real, op: Op, b: real)
    ensures Convert([Number(a), Operator(op), Number(b)]) ==
      Ok(Yard([Number(a), Number(b)], [Operator(op)]))
  {
    NumberOp(a, op);
    ThenNumber([Number(a), Operator(op)], Yard([Number(a)], [Operator(op)]), b);
    assert [Number(a), Operator(op)] + [Number(b)] == [Number(a), Operator(op), Number(b)];
    assert [Number(a)] + [Number(b)] == [Number(a), Number(b)];
  }

  /** A second operator that does not pop the first is stacked on it. */
  lemma SecondStacked(a: real, op1: Op, b: real, op2: Op)
    requires !PopsBefore(Operator(op1), op2)
    ensures Convert([Number(a), Operator(op1), Number(b), Operator(op2)]) ==
      Ok(Yard([Number(a), Number(b)], [Operator(op1), Operator(op2)]))
  {
    var y := Yard([Number(a), Number(b)], [Operator(op1)]);
    NumberOpNumber(a, op1, b);
    assert PopOperators(y, op2) == y;
    assert [Operator(op1)] + [Operator(op2)] == [Operator(op1), Operator(op2)];
    assert [Number(a), Operator(op1), Number(b)] + [Operator(op2)]
      == [Number(a), Operator(op1), Number(b), Operator(op2)];
    ConvertStep([Number(a), Operator(op1), Number(b)], y, Operator(op2),
      Ok(Yard([Number(a), Number(b)], [Operator(op1), Operator(op2)])));
  }

  /** A second operator that pops the first sends it to the output. */
  lemma SecondPops(a: real, op1: Op, b: real, op2: Op)
    requires PopsBefore(Operator(op1), op2)
    ensures Convert([Number(a), Operator(op1), Number(b), Operator(op2)]) ==
      Ok(Yard([Number(a), Number(b), Operator(op1)], [Operator(op2)]))
  {
    var y := Yard([Number(a), Number(b)], [Operator(op1)]);
    NumberOpNumber(a, op1, b);
    assert DropLast([Operator(op1)]) == [];
    assert [Number(a), Number(b)] + [Operator(op1)] == [Number(a), Number(b), Operator(op1)];
    assert PopOperators(y, op2) == Yard([Number(a), Number(b), Operator(op1)], []);
    assert [] + [Operator(op2)] == [Operator(op2)];
    assert [Number(a), Operator(op1), Number(b)] + [Operator(op2)]
      == [Number(a), Operator(op1), Number(b), Operator(op2)];
    ConvertStep([Number(a), Operator(op1), Number(b)], y, Operator(op2),
      Ok(Yard([Number(a), Number(b), Operator(op1)], [Operator(op2)])));
  }

  /** A conversion that ends with one operator on the stack outputs it last. */
  lemma PostfixDrainOne(t: seq<Token>, o: seq<Token>, top: Token)
    requires Convert(t) == Ok(Yard(o, [top])) && IsOperand(top)
    ensures Postfix(t) == Ok(o + [top])
  {
    assert DropLast([top]) == [];
    assert Drain(Yard(o, [top])) == Drain(Yard(o + [top], []));
  }

  /** A conversion that ends with two operators on the stack outputs the top one first. */
  lemma PostfixDrainTwo(t: seq<Token>, o: seq<Token>, below: Token, top: Token)
    requires Convert(t) == Ok(Yard(o, [below, top])) && IsOperand(below) && IsOperand(top)
    ensures Postfix(t) == Ok(o + [top, below])
  {
    assert DropLast([below, top]) == [below] && DropLast([below]) == [];
    assert Drain(Yard(o + [top] + [below], [])) == Ok(o + [top] + [below]);
    assert Drain(Yard(o + [top], [below])) == Ok(o + [top] + [below]);
    assert o + [top] + [below] == o + [top, below];
  }

  /** a ^ b ^ c before the final loop: both `^` wait on the stack. */
  lemma PowerChainConverted(a: real, b: real, c: real)
    ensures Convert([Number(a), Operator(Power), Number(b), Operator(Power), Number(c)]) ==
      Ok(Yard([Number(a), Number(b), Number(c)], [Operator(Power), Operator(Power)]))
  {
    var x, y, z, p := Number(a), Number(b), Number(c), Operator(Power);
    SecondStacked(a, Power, b, Power);
    ThenNumber([x, p, y, p], Yard([x, y], [p, p]), c);
    assert [x, p, y, p] + [z] == [x, p, y, p, z];
    assert [x, y] + [z] == [x, y, z];
  }

  /** `^` is right-associative: a ^ b ^ c groups as a ^ (b ^ c). */
  lemma PowerGroupsRight(a: real, b: real, c: real)
    ensures Postfix([Number(a), Operator(Power), Number(b), Operator(Power), Number(c)])
      == Ok([Number(a), Number(b), Number(c), Operator(Power), Operator(Power)])
  {
    var x, y, z, p := Number(a), Number(b), Number(c), Operator(Power);
    PowerChainConverted(a, b, c);
    PostfixDrainTwo([x, p, y, p, z], [x, y, z], p, p);
    assert [x, y, z] + [p, p] == [x, y, z, p, p];
  }

  /** a - b - c before the final loop: the first `-` is already output. */
  lemma MinusChainConverted(a: real, b: real, c: real)
    ensures Convert([Number(a), Operator(Minus), Number(b), Operator(Minus), Number(c)]) ==
      Ok(Yard([Number(a), Number(b), Operator(Minus), Number(c)], [Operator(Minus)]))
  {
    var x, y, z, m := Number(a), Number(b), Number(c), Operator(Minus);
    SecondPops(a, Minus, b, Minus);
    ThenNumber([x, m, y, m], Yard([x, y, m], [m]), c);
    assert [x, m, y, m] + [z] == [x, m, y, m, z];
    assert [x, y, m] + [z] == [x, y, m, z];
  }

  /** `-` is left-associative: a - b - c groups as (a - b) - c. */
  lemma MinusGroupsLeft(a: real, b: real, c: real)
    ensures Postfix([Number(a), Operator(Minus), Number(b), Operator(Minus), Number(c)])
      == Ok([Number(a), Number(b), Operator(Minus), Number(c), Operator(Minus)])
  {
    var x, y, z, m := Number(a), Number(b), Number(c), Operator(Minus);
    MinusChainConverted(a, b, c);
    PostfixDrainOne([x, m, y, m, z], [x, y, m, z], m);
    assert [x, y, m, z] + [m] == [x, y, m, z, m];
  }

  /** a + b * c before the final loop: `*` waits above `+`. */
  lemma SumOfProductConverted(a: real, b: real, c: real)
    ensures Convert([Number(a), Operator(Plus), Number(b), Operator(Times), Number(c)]) ==
      Ok(Yard([Number(a), Number(b), Number(c)], [Operator(Plus), Operator(Times)]))
  {
    var x, y, z, p, t := Number(a), Number(b), Number(c), Operator(Plus), Operator(Times);
    SecondStacked(a, Plus, b, Times);
    ThenNumber([x, p, y, t], Yard([x, y], [p, t]), c);
    assert [x, p, y, t] + [z] == [x, p, y, t, z];
    assert [x, y] + [z] == [x, y, z];
  }

  /** `*` binds tighter than `+`: a + b * c groups as a + (b * c). */
  lemma TimesBeforePlus(a: real, b: real, c: real)
    ensures Postfix([Number(a), Operator(Plus), Number(b), Operator(Times), Number(c)])
      == Ok([Number(a), Number(b), Number(c), Operator(Times), Operator(Plus)])
  {
    var x, y, z, p, t := Number(a), Number(b), Number(c), Operator(Plus), Operator(Times);
    SumOfProductConverted(a, b, c);
    PostfixDrainTwo([x, p, y, t, z], [x, y, z], p, t);
    assert [x, y, z] + [t, p] == [x, y, z, t, p];
  }

  /** A pushed first token followed by a number. */
  lemma PushedThenNumber(x: Token, a: real)
    requires !x.Number? && x != RightParen
    ensures Convert([x, Number(a)]) == Ok(Yard([Number(a)], [x]))
  {
    FirstPushed(x);
    ThenNumber([x], Yard([], [x]), a);
    assert [x] + [Number(a)] == [x, Number(a)];
    assert [] + [Number(a)] == [Number(a)];
  }

  /** A token that pops the single stacked token and is then stacked itself. */
  lemma PopsSingle(x: Token, a: real, op: Op)
    requires !x.Number? && x != RightParen && PopsBefore(x, op)
    ensures Convert([x, Number(a), Operator(op)]) == Ok(Yard([Number(a), x], [Operator(op)]))
  {
    var y := Yard([Number(a)], [x]);
    PushedThenNumber(x, a);
    assert DropLast([x]) == [] && [Number(a)] + [x] == [Number(a), x];
    assert PopOperators(y, op) == Yard([Number(a), x], []);
    assert [] + [Operator(op)] == [Operator(op)];
    assert [x, Number(a)] + [Operator(op)] == [x, Number(a), Operator(op)];
    ConvertStep([x, Number(a)], y, Operator(op), Ok(Yard([Number(a), x], [Operator(op)])));
  }

  /** After the single stacked token was popped by op, a second number goes to the output. */
  lemma PopsSingleThenNumber(x: Token, a: real, op: Op, b: real)
    requires !x.Number? && x != RightParen && PopsBefore(x, op)
    ensures Convert([x, Number(a), Operator(op), Number(b)]) ==
      Ok(Yard([Number(a), x, Number(b)], [Operator(op)]))
  {
    var u, v, o := Number(a), Number(b), Operator(op);
    PopsSingle(x, a, op);
    ThenNumber([x, u, o], Yard([u, x], [o]), b);
    assert [x, u, o] + [v] == [x, u, o, v] && [u, x] + [v] == [u, x, v];
  }

  /** A unary minus binds tighter than `^`: -a ^ b groups as (-a) ^ b. */
  lemma NegateBeforePower(a: real, b: real)
    ensures Postfix([Operator(Negate), Number(a), Operator(Power), Number(b)])
      == Ok([Number(a), Operator(Negate), Number(b), Operator(Power)])
  {
    var x, y, n, p := Number(a), Number(b), Operator(Negate), Operator(Power);
    PopsSingleThenNumber(n, a, Power, b);
    PostfixDrainOne([n, x, p, y], [x, n, y], p);
    assert [x, n, y] + [p] == [x, n, y, p];
  }

  /** A function, `(`, a number: the number is output under the stacked function and `(`. */
  lemma FunctionOpenNumber(f: string, a: real)
    ensures Convert([Function(f), LeftParen, Number(a)]) ==
      Ok(Yard([Number(a)], [Function(f), LeftParen]))
  {
    var g, x := Function(f), Number(a);
    FirstPushed(g);
    assert [g] + [LeftParen] == [g, LeftParen];
    ConvertStep([g], Yard([], [g]), LeftParen, Ok(Yard([], [g, LeftParen])));
    ThenNumber([g, LeftParen], Yard([], [g, LeftParen]), a);
    assert [g, LeftParen] + [x] == [g, LeftParen, x] && [] + [x] == [x];
  }

  /** f(a + b before its `)`: the `+` waits above the `(`. */
  lemma FunctionOpenSum(f: string, a: real, b: real)
    ensures Convert([Function(f), LeftParen, Number(a), Operator(Plus), Number(b)]) ==
      Ok(Yard([Number(a), Number(b)], [Function(f), LeftParen, Operator(Plus)]))
  {
    var g, x, y, p := Function(f), Number(a), Number(b), Operator(Plus);
    var y3 := Yard([x], [g, LeftParen]);
    FunctionOpenNumber(f, a);
    assert PopOperators(y3, Plus) == y3;
    assert [g, LeftParen] + [p] == [g, LeftParen, p];
    assert [g, LeftParen, x] + [p] == [g, LeftParen, x, p];
    ConvertStep([g, LeftParen, x], y3, p, Ok(Yard([x], [g, LeftParen, p])));
    ThenNumber([g, LeftParen, x, p], Yard([x], [g, LeftParen, p]), b);
    assert [g, LeftParen, x, p] + [y] == [g, LeftParen, x, p, y] && [x] + [y] == [x, y];
  }

  /** The `)` of f(a + b): `+` goes out, the `(` is dropped, and f follows its argument. */
  lemma FunctionCallConverted(f: string, a: real, b: real)
    ensures Convert([Function(f), LeftParen, Number(a), Operator(Plus), Number(b), RightParen]) ==
      Ok(Yard([Number(a), Number(b), Operator(Plus), Function(f)], []))
  {
    var g, x, y, p := Function(f), Number(a), Number(b), Operator(Plus);
    var y5 := Yard([x, y], [g, LeftParen, p]);
    FunctionOpenSum(f, a, b);
    assert DropLast([g, LeftParen, p]) == [g, LeftParen] && DropLast([g, LeftParen]) == [g];
    assert [x, y] + [p] == [x, y, p];
    assert CloseParen(Yard([x, y, p], [g, LeftParen])) == Ok(Yard([x, y, p], [g]));
    assert CloseParen(y5) == Ok(Yard([x, y, p], [g]));
    assert DropLast([g]) == [] && [x, y, p] + [g] == [x, y, p, g];
    assert Shift(y5, RightParen) == Ok(Yard([x, y, p, g], []));
    assert [g, LeftParen, x, p, y] + [RightParen] == [g, LeftParen, x, p, y, RightParen];
    ConvertStep([g, LeftParen, x, p, y], y5, RightParen, Ok(Yard([x, y, p, g], [])));
  }

  /** A function applies to its whole parenthesised argument: f(a + b). */
  lemma FunctionTakesParenthesised(f: string, a: real, b: real)
    ensures Postfix([Function(f), LeftParen, Number(a), Operator(Plus), Number(b), RightParen])
      == Ok([Number(a), Number(b), Operator(Plus), Function(f)])
  {
    FunctionCallConverted(f, a, b);
  }

  /** A function without parentheses takes the next number and leaves before any operator:
      f a + b groups as f(a) + b. */
  lemma FunctionBeforeOperator(f: string, a: real, b: real)
    ensures Postfix([Function(f), Number(a), Operator(Plus), Number(b)])
      == Ok([Number(a), Function(f), Number(b), Operator(Plus)])
  {
    var g, x, y, p := Function(f), Number(a), Number(b), Operator(Plus);
    PopsSingleThenNumber(g, a, Plus, b);
    PostfixDrainOne([g, x, p, y], [x, g, y], p);
    assert [x, g, y] + [p] == [x, g, y, p];
  }
}
