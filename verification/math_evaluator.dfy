/** The entry point `evaluateMathExpression` (lib/math-evaluator.ts): trim the input, reject
    an empty expression, then run the tokenizer, the shunting-yard conversion and the RPN
    evaluation, stopping at the first stage that fails. */
module MathEvaluator {
  import opened Basics
  import opened MathTokens
  import opened MathTokenizer
  import opened MathShuntingYard
  import opened MathRpn

  /** The outcome of the whole pipeline, before it is turned into the returned object. */
  function Pipeline(num: NumberOps, raw: string): Result<Evaluated>
  {
    var expression := Trim(raw);
    if expression == [] then Err(NoExpression) else AfterTokens(num, Tokens(expression))
  }

  /** The stages after the tokenizer, from the tokenizer's outcome. */
  function AfterTokens(num: NumberOps, tokenized: Result<seq<Token>>): Result<Evaluated>
  {
    match tokenized
    case Err(e) => Err(e)
    case Ok(tokens) =>
      match Postfix(tokens)
      case Err(e) => Err(e)
      case Ok(rpn) => RpnOutcome(num, rpn)
  }

  function Evaluation(num: NumberOps, raw: string): EvaluationResult
  {
    Report(Pipeline(num, raw))
  }

  method EvaluateMathExpression(num: NumberOps, rawExpression: string) returns (r: EvaluationResult)
    ensures r == Evaluation(num, rawExpression)
  {
    var expression := Trim(rawExpression);
    if expression == [] {
      return Failure("No expression to evaluate.");
    }
    var tokenized := Tokenize(expression);
    if tokenized.Err? {
      return Failure(Message(tokenized.error));
    }
    var rpn := ShuntingYard(tokenized.value);
    if rpn.Err? {
      return Failure(Message(rpn.error));
    }
    r := EvaluateRpn(num, rpn.value);
  }

  // ----- which stage reports what -----

  /** The three failures the tokenizer reports. */
  predicate FromTokenizer(e: Error)
  {
    e.InvalidNumber? || e.UnknownIdentifier? || e.UnsupportedCharacter?
  }

  lemma TokenizerOutcome(raw: string)
    requires Trim(raw) != [] && Tokens(Trim(raw)).Err?
    ensures FromTokenizer(Tokens(Trim(raw)).error)
  {
    TokensErrors(Trim(raw));
  }

  /** After the tokenizer, "No expression" is never reported, and "Mismatched parentheses"
      is reported exactly for a token list with unbalanced parentheses. */
  lemma AfterTokensErrors(num: NumberOps, tokenized: Result<seq<Token>>)
    requires tokenized.Err? ==> FromTokenizer(tokenized.error)
    ensures AfterTokens(num, tokenized) != Err(NoExpression)
    ensures AfterTokens(num, tokenized) == Err(MismatchedParentheses) <==>
      tokenized.Ok? && !Balanced(tokenized.value)
  {
    if tokenized.Ok? {
      var tokens := tokenized.value;
      PostfixFailsIffUnbalanced(tokens);
      if Postfix(tokens).Ok? {
        RpnOutcomeErrors(num, Postfix(tokens).value);
      }
    }
  }

  /** "No expression to evaluate." is reported exactly for input made only of whitespace
      (the empty string included). */
  lemma NoExpressionIffBlank(num: NumberOps, raw: string)
    ensures Pipeline(num, raw) == Err(NoExpression) <==> forall k :: 0 <= k < |raw| ==> IsJsWhitespace(raw[k])
  {
    TrimEmptyIffAllWhitespace(raw);
    if Trim(raw) != [] {
      if Tokens(Trim(raw)).Err? {
        TokenizerOutcome(raw);
      }
      AfterTokensErrors(num, Tokens(Trim(raw)));
    }
  }

  /** "Mismatched parentheses" is reported exactly when the input tokenizes and its
      parentheses are unbalanced. */
  lemma MismatchIffUnbalanced(num: NumberOps, raw: string)
    ensures Pipeline(num, raw) == Err(MismatchedParentheses) <==>
      Trim(raw) != [] && Tokens(Trim(raw)).Ok? && !Balanced(Tokens(Trim(raw)).value)
  {
    if Trim(raw) != [] {
      if Tokens(Trim(raw)).Err? {
        TokenizerOutcome(raw);
      }
      AfterTokensErrors(num, Tokens(Trim(raw)));
    }
  }

  /** A token list whose function tokens all have table entries never fails with
      "Unsupported function". */
  lemma AfterKnownTokens(num: NumberOps, tokens: seq<Token>)
    requires FunctionsKnown(tokens)
    ensures AfterTokens(num, Ok(tokens)).Err? ==> !AfterTokens(num, Ok(tokens)).error.UnsupportedFunction?
  {
    PostfixFailsIffUnbalanced(tokens);
    if Postfix(tokens).Ok? {
      var rpn := Postfix(tokens).value;
      PostfixKeepsOperands(tokens);
      forall k | 0 <= k < |rpn| && rpn[k].Function?
        ensures rpn[k].name in FunctionNames
      {
        assert rpn[k] in multiset(rpn);
        OperandFromInput(tokens, rpn[k]);
      }
      RunKnownFunctions(num, [], rpn);
      RpnOutcomeErrors(num, rpn);
    }
  }

  /** Every function token the tokenizer emits has a table entry, so the evaluation stage's
      "Unsupported function" failure is never reported. */
  lemma NeverUnsupportedFunction(num: NumberOps, raw: string)
    ensures Pipeline(num, raw).Err? ==> !Pipeline(num, raw).error.UnsupportedFunction?
  {
    var expression := Trim(raw);
    if expression != [] {
      if Tokens(expression).Ok? {
        TokensWellFormed(expression);
        AfterKnownTokens(num, Tokens(expression).value);
      } else {
        TokenizerOutcome(raw);
      }
    }
  }

  // ----- worked examples -----

  /** What the evaluator reports for an expression tree: its value and rendering when the
      value is finite, the "infinite result" failure otherwise. */
  function Expected(num: NumberOps, e: Expr): EvaluationResult
  {
    var v := Value(num, e);
    if v.Finite? then Success(v.r, num.display(Finite(Snapped(v.r))))
    else Failure(Message(NotFinite))
  }

  lemma ExpectedOfPostfix(num: NumberOps, e: Expr, raw: string, tokens: seq<Token>)
    requires WellFormed(e)
    requires Trim(raw) != [] && Tokens(Trim(raw)) == Ok(tokens)
    requires Postfix(tokens) == Ok(PostfixOf(e))
    ensures Evaluation(num, raw) == Expected(num, e)
  {
    OutcomeOfPostfix(num, e);
  }

  /** A string with no surrounding whitespace is its own trim. */
  lemma TrimUnchanged(s: string)
    requires s != [] && !IsJsWhitespace(s[0]) && !IsJsWhitespace(Last(s))
    ensures Trim(s) == s
  {
  }

  /** The pipeline on an input that is its own trim and tokenizes. */
  lemma PipelineOfTokens(num: NumberOps, raw: string, tokens: seq<Token>)
    requires raw != [] && !IsJsWhitespace(raw[0]) && !IsJsWhitespace(Last(raw))
    requires Tokens(raw) == Ok(tokens)
    ensures Pipeline(num, raw) ==
      match Postfix(tokens)
      case Err(e) => Err(e)
      case Ok(rpn) => RpnOutcome(num, rpn)
  {
    TrimUnchanged(raw);
  }

  /** The pipeline on an input that is its own trim and fails to tokenize. */
  lemma PipelineOfTokenError(num: NumberOps, raw: string, e: Error)
    requires raw != [] && !IsJsWhitespace(raw[0]) && !IsJsWhitespace(Last(raw))
    requires Tokens(raw) == Err(e)
    ensures Evaluation(num, raw) == Failure(Message(e))
  {
    TrimUnchanged(raw);
  }

  /** The value of a lone digit. */
  function DigitValue(d: char): real
    requires IsDigit(d)
  {
    DigitOf(d) as real
  }

  /** The postfix form of `x op1 (y op2 z)`. */
  lemma PostfixOfNested(op1: Op, op2: Op, x: real, y: real, z: real)
    ensures PostfixOf(Binary(op1, Const(x), Binary(op2, Const(y), Const(z)))) ==
      [Number(x), Number(y), Number(z), Operator(op2), Operator(op1)]
  {
    assert PostfixOf(Binary(op2, Const(y), Const(z))) == [Number(y), Number(z), Operator(op2)];
  }

  /** The postfix form of `(-x) op y`. */
  lemma PostfixOfNegatedLeft(op: Op, x: real, y: real)
    ensures PostfixOf(Binary(op, Neg(Const(x)), Const(y))) ==
      [Number(x), Operator(Negate), Number(y), Operator(op)]
  {
    assert PostfixOf(Neg(Const(x))) == [Number(x), Operator(Negate)];
  }

  /** The postfix form of `f(x op y)`. */
  lemma PostfixOfCallOfBinary(f: string, op: Op, x: real, y: real)
    ensures PostfixOf(Call(f, Binary(op, Const(x), Const(y)))) ==
      [Number(x), Number(y), Operator(op), Function(f)]
  {
    assert PostfixOf(Binary(op, Const(x), Const(y))) == [Number(x), Number(y), Operator(op)];
  }

  /** `^` groups to the right: for digits a, b, c, a^b^c is a^(b^c). */
  lemma PowerExample(num: NumberOps, a: char, b: char, c: char)
    requires IsDigit(a) && IsDigit(b) && IsDigit(c)
    ensures Evaluation(num, [a, '^', b, '^', c]) ==
      Expected(num, Binary(Power, Const(DigitValue(a)), Binary(Power, Const(DigitValue(b)), Const(DigitValue(c)))))
  {
    var tokens := [Number(DigitValue(a)), Operator(Power), Number(DigitValue(b)), Operator(Power), Number(DigitValue(c))];
    var tree := Binary(Power, Const(DigitValue(a)), Binary(Power, Const(DigitValue(b)), Const(DigitValue(c))));
    TrimUnchanged([a, '^', b, '^', c]);
    PowerChainFrom0(a, b, c);
    PowerGroupsRight(DigitValue(a), DigitValue(b), DigitValue(c));
    PostfixOfNested(Power, Power, DigitValue(a), DigitValue(b), DigitValue(c));
    ExpectedOfPostfix(num, tree, [a, '^', b, '^', c], tokens);
  }

  lemma PowerChainFrom0(a: char, b: char, c: char)
    requires IsDigit(a) && IsDigit(b) && IsDigit(c)
    ensures Scan([a, '^', b, '^', c], 0, []) ==
      Ok([Number(DigitValue(a)), Operator(Power), Number(DigitValue(b)), Operator(Power), Number(DigitValue(c))])
  {
    ScanDigit([a, '^', b, '^', c], 0, []);
    assert [] + [Number(DigitValue(a))] == [Number(DigitValue(a))];
    PowerChainFrom1(a, b, c);
  }

  lemma PowerChainFrom1(a: char, b: char, c: char)
    requires IsDigit(a) && IsDigit(b) && IsDigit(c)
    ensures Scan([a, '^', b, '^', c], 1, [Number(DigitValue(a))]) ==
      Ok([Number(DigitValue(a)), Operator(Power), Number(DigitValue(b)), Operator(Power), Number(DigitValue(c))])
  {
    ScanOperator([a, '^', b, '^', c], 1, [Number(DigitValue(a))]);
    assert [Number(DigitValue(a))] + [Operator(Power)] == [Number(DigitValue(a)), Operator(Power)];
    PowerChainFrom2(a, b, c);
  }

  lemma PowerChainFrom2(a: char, b: char, c: char)
    requires IsDigit(a) && IsDigit(b) && IsDigit(c)
    ensures Scan([a, '^', b, '^', c], 2, [Number(DigitValue(a)), Operator(Power)]) ==
      Ok([Number(DigitValue(a)), Operator(Power), Number(DigitValue(b)), Operator(Power), Number(DigitValue(c))])
  {
    ScanDigit([a, '^', b, '^', c], 2, [Number(DigitValue(a)), Operator(Power)]);
    assert [Number(DigitValue(a)), Operator(Power)] + [Number(DigitValue(b))] == [Number(DigitValue(a)), Operator(Power), Number(DigitValue(b))];
    PowerChainFrom3(a, b, c);
  }

  lemma PowerChainFrom3(a: char, b: char, c: char)
    requires IsDigit(a) && IsDigit(b) && IsDigit(c)
    ensures Scan([a, '^', b, '^', c], 3, [Number(DigitValue(a)), Operator(Power), Number(DigitValue(b))]) ==
      Ok([Number(DigitValue(a)), Operator(Power), Number(DigitValue(b)), Operator(Power), Number(DigitValue(c))])
  {
    ScanOperator([a, '^', b, '^', c], 3, [Number(DigitValue(a)), Operator(Power), Number(DigitValue(b))]);
    assert [Number(DigitValue(a)), Operator(Power), Number(DigitValue(b))] + [Operator(Power)] == [Number(DigitValue(a)), Operator(Power), Number(DigitValue(b)), Operator(Power)];
    PowerChainFrom4(a, b, c);
  }

  lemma PowerChainFrom4(a: char, b: char, c: char)
    requires IsDigit(a) && IsDigit(b) && IsDigit(c)
    ensures Scan([a, '^', b, '^', c], 4, [Number(DigitValue(a)), Operator(Power), Number(DigitValue(b)), Operator(Power)]) ==
      Ok([Number(DigitValue(a)), Operator(Power), Number(DigitValue(b)), Operator(Power), Number(DigitValue(c))])
  {
    ScanDigit([a, '^', b, '^', c], 4, [Number(DigitValue(a)), Operator(Power), Number(DigitValue(b)), Operator(Power)]);
    assert [Number(DigitValue(a)), Operator(Power), Number(DigitValue(b)), Operator(Power)] + [Number(DigitValue(c))] == [Number(DigitValue(a)), Operator(Power), Number(DigitValue(b)), Operator(Power), Number(DigitValue(c))];
  }

  /** A leading minus is a unary minus and binds tighter than `^`: for digits a, b,
      -a^b is (-a)^b. */
  lemma NegativeBaseExample(num: NumberOps, a: char, b: char)
    requires IsDigit(a) && IsDigit(b)
    ensures Evaluation(num, ['-', a, '^', b]) == Expected(num, Binary(Power, Neg(Const(DigitValue(a))), Const(DigitValue(b))))
  {
    var tokens := [Operator(Negate), Number(DigitValue(a)), Operator(Power), Number(DigitValue(b))];
    var tree := Binary(Power, Neg(Const(DigitValue(a))), Const(DigitValue(b)));
    TrimUnchanged(['-', a, '^', b]);
    NegativeBaseFrom0(a, b);
    NegateBeforePower(DigitValue(a), DigitValue(b));
    PostfixOfNegatedLeft(Power, DigitValue(a), DigitValue(b));
    ExpectedOfPostfix(num, tree, ['-', a, '^', b], tokens);
  }

  lemma NegativeBaseFrom0(a: char, b: char)
    requires IsDigit(a) && IsDigit(b)
    ensures Scan(['-', a, '^', b], 0, []) ==
      Ok([Operator(Negate), Number(DigitValue(a)), Operator(Power), Number(DigitValue(b))])
  {
    ScanOperator(['-', a, '^', b], 0, []);
    assert [] + [Operator(Negate)] == [Operator(Negate)];
    NegativeBaseFrom1(a, b);
  }

  lemma NegativeBaseFrom1(a: char, b: char)
    requires IsDigit(a) && IsDigit(b)
    ensures Scan(['-', a, '^', b], 1, [Operator(Negate)]) ==
      Ok([Operator(Negate), Number(DigitValue(a)), Operator(Power), Number(DigitValue(b))])
  {
    ScanDigit(['-', a, '^', b], 1, [Operator(Negate)]);
    assert [Operator(Negate)] + [Number(DigitValue(a))] == [Operator(Negate), Number(DigitValue(a))];
    NegativeBaseFrom2(a, b);
  }

  lemma NegativeBaseFrom2(a: char, b: char)
    requires IsDigit(a) && IsDigit(b)
    ensures Scan(['-', a, '^', b], 2, [Operator(Negate), Number(DigitValue(a))]) ==
      Ok([Operator(Negate), Number(DigitValue(a)), Operator(Power), Number(DigitValue(b))])
  {
    ScanOperator(['-', a, '^', b], 2, [Operator(Negate), Number(DigitValue(a))]);
    assert [Operator(Negate), Number(DigitValue(a))] + [Operator(Power)] == [Operator(Negate), Number(DigitValue(a)), Operator(Power)];
    NegativeBaseFrom3(a, b);
  }

  lemma NegativeBaseFrom3(a: char, b: char)
    requires IsDigit(a) && IsDigit(b)
    ensures Scan(['-', a, '^', b], 3, [Operator(Negate), Number(DigitValue(a)), Operator(Power)]) ==
      Ok([Operator(Negate), Number(DigitValue(a)), Operator(Power), Number(DigitValue(b))])
  {
    ScanDigit(['-', a, '^', b], 3, [Operator(Negate), Number(DigitValue(a)), Operator(Power)]);
    assert [Operator(Negate), Number(DigitValue(a)), Operator(Power)] + [Number(DigitValue(b))] == [Operator(Negate), Number(DigitValue(a)), Operator(Power), Number(DigitValue(b))];
  }

  /** `*` binds tighter than `+`: for digits a, b, c, a+b*c is a+(b*c). */
  lemma PrecedenceExample(num: NumberOps, a: char, b: char, c: char)
    requires IsDigit(a) && IsDigit(b) && IsDigit(c)
    ensures Evaluation(num, [a, '+', b, '*', c]) ==
      Expected(num, Binary(Plus, Const(DigitValue(a)), Binary(Times, Const(DigitValue(b)), Const(DigitValue(c)))))
  {
    var tokens := [Number(DigitValue(a)), Operator(Plus), Number(DigitValue(b)), Operator(Times), Number(DigitValue(c))];
    var tree := Binary(Plus, Const(DigitValue(a)), Binary(Times, Const(DigitValue(b)), Const(DigitValue(c))));
    TrimUnchanged([a, '+', b, '*', c]);
    PrecedenceFrom0(a, b, c);
    TimesBeforePlus(DigitValue(a), DigitValue(b), DigitValue(c));
    PostfixOfNested(Plus, Times, DigitValue(a), DigitValue(b), DigitValue(c));
    ExpectedOfPostfix(num, tree, [a, '+', b, '*', c], tokens);
  }

  lemma PrecedenceFrom0(a: char, b: char, c: char)
    requires IsDigit(a) && IsDigit(b) && IsDigit(c)
    ensures Scan([a, '+', b, '*', c], 0, []) ==
      Ok([Number(DigitValue(a)), Operator(Plus), Number(DigitValue(b)), Operator(Times), Number(DigitValue(c))])
  {
    ScanDigit([a, '+', b, '*', c], 0, []);
    assert [] + [Number(DigitValue(a))] == [Number(DigitValue(a))];
    PrecedenceFrom1(a, b, c);
  }

  lemma PrecedenceFrom1(a: char, b: char, c: char)
    requires IsDigit(a) && IsDigit(b) && IsDigit(c)
    ensures Scan([a, '+', b, '*', c], 1, [Number(DigitValue(a))]) ==
      Ok([Number(DigitValue(a)), Operator(Plus), Number(DigitValue(b)), Operator(Times), Number(DigitValue(c))])
  {
    ScanOperator([a, '+', b, '*', c], 1, [Number(DigitValue(a))]);
    assert [Number(DigitValue(a))] + [Operator(Plus)] == [Number(DigitValue(a)), Operator(Plus)];
    PrecedenceFrom2(a, b, c);
  }

  lemma PrecedenceFrom2(a: char, b: char, c: char)
    requires IsDigit(a) && IsDigit(b) && IsDigit(c)
    ensures Scan([a, '+', b, '*', c], 2, [Number(DigitValue(a)), Operator(Plus)]) ==
      Ok([Number(DigitValue(a)), Operator(Plus), Number(DigitValue(b)), Operator(Times), Number(DigitValue(c))])
  {
    ScanDigit([a, '+', b, '*', c], 2, [Number(DigitValue(a)), Operator(Plus)]);
    assert [Number(DigitValue(a)), Operator(Plus)] + [Number(DigitValue(b))] == [Number(DigitValue(a)), Operator(Plus), Number(DigitValue(b))];
    PrecedenceFrom3(a, b, c);
  }

  lemma PrecedenceFrom3(a: char, b: char, c: char)
    requires IsDigit(a) && IsDigit(b) && IsDigit(c)
    ensures Scan([a, '+', b, '*', c], 3, [Number(DigitValue(a)), Operator(Plus), Number(DigitValue(b))]) ==
      Ok([Number(DigitValue(a)), Operator(Plus), Number(DigitValue(b)), Operator(Times), Number(DigitValue(c))])
  {
    ScanOperator([a, '+', b, '*', c], 3, [Number(DigitValue(a)), Operator(Plus), Number(DigitValue(b))]);
    assert [Number(DigitValue(a)), Operator(Plus), Number(DigitValue(b))] + [Operator(Times)] == [Number(DigitValue(a)), Operator(Plus), Number(DigitValue(b)), Operator(Times)];
    PrecedenceFrom4(a, b, c);
  }

  lemma PrecedenceFrom4(a: char, b: char, c: char)
    requires IsDigit(a) && IsDigit(b) && IsDigit(c)
    ensures Scan([a, '+', b, '*', c], 4, [Number(DigitValue(a)), Operator(Plus), Number(DigitValue(b)), Operator(Times)]) ==
      Ok([Number(DigitValue(a)), Operator(Plus), Number(DigitValue(b)), Operator(Times), Number(DigitValue(c))])
  {
    ScanDigit([a, '+', b, '*', c], 4, [Number(DigitValue(a)), Operator(Plus), Number(DigitValue(b)), Operator(Times)]);
    assert [Number(DigitValue(a)), Operator(Plus), Number(DigitValue(b)), Operator(Times)] + [Number(DigitValue(c))] == [Number(DigitValue(a)), Operator(Plus), Number(DigitValue(b)), Operator(Times), Number(DigitValue(c))];
  }

  /** An alias is resolved to its function, which applies to the whole parenthesised
      argument: for digits a, b, sine(a+b) is sin(a+b). */
  lemma AliasExample(num: NumberOps, a: char, b: char)
    requires IsDigit(a) && IsDigit(b)
    ensures Evaluation(num, ['s', 'i', 'n', 'e', '(', a, '+', b, ')']) ==
      Expected(num, Call("sin", Binary(Plus, Const(DigitValue(a)), Const(DigitValue(b)))))
  {
    var tokens := [Function("sin"), LeftParen, Number(DigitValue(a)), Operator(Plus), Number(DigitValue(b)), RightParen];
    var tree := Call("sin", Binary(Plus, Const(DigitValue(a)), Const(DigitValue(b))));
    TrimUnchanged(['s', 'i', 'n', 'e', '(', a, '+', b, ')']);
    AliasFrom0(a, b);
    FunctionTakesParenthesised("sin", DigitValue(a), DigitValue(b));
    PostfixOfCallOfBinary("sin", Plus, DigitValue(a), DigitValue(b));
    ExpectedOfPostfix(num, tree, ['s', 'i', 'n', 'e', '(', a, '+', b, ')'], tokens);
  }

  lemma ResolveSine()
    ensures ResolveIdentifier("sine") == Ok(Function("sin"))
  {
    assert Lower("sine") == "sine";
  }

  lemma AliasFrom0(a: char, b: char)
    requires IsDigit(a) && IsDigit(b)
    ensures Scan(['s', 'i', 'n', 'e', '(', a, '+', b, ')'], 0, []) ==
      Ok([Function("sin"), LeftParen, Number(DigitValue(a)), Operator(Plus), Number(DigitValue(b)), RightParen])
  {
    assert ['s', 'i', 'n', 'e', '(', a, '+', b, ')'][0..4] == "sine";
    ResolveSine();
    ScanIdentifier(['s', 'i', 'n', 'e', '(', a, '+', b, ')'], 0, 4, [], Function("sin"));
    assert [] + [Function("sin")] == [Function("sin")];
    AliasFrom4(a, b);
  }

  lemma AliasFrom4(a: char, b: char)
    requires IsDigit(a) && IsDigit(b)
    ensures Scan(['s', 'i', 'n', 'e', '(', a, '+', b, ')'], 4, [Function("sin")]) ==
      Ok([Function("sin"), LeftParen, Number(DigitValue(a)), Operator(Plus), Number(DigitValue(b)), RightParen])
  {
    ScanParen(['s', 'i', 'n', 'e', '(', a, '+', b, ')'], 4, [Function("sin")]);
    assert [Function("sin")] + [LeftParen] == [Function("sin"), LeftParen];
    AliasFrom5(a, b);
  }

  lemma AliasFrom5(a: char, b: char)
    requires IsDigit(a) && IsDigit(b)
    ensures Scan(['s', 'i', 'n', 'e', '(', a, '+', b, ')'], 5, [Function("sin"), LeftParen]) ==
      Ok([Function("sin"), LeftParen, Number(DigitValue(a)), Operator(Plus), Number(DigitValue(b)), RightParen])
  {
    ScanDigit(['s', 'i', 'n', 'e', '(', a, '+', b, ')'], 5, [Function("sin"), LeftParen]);
    assert [Function("sin"), LeftParen] + [Number(DigitValue(a))] == [Function("sin"), LeftParen, Number(DigitValue(a))];
    AliasFrom6(a, b);
  }

  lemma AliasFrom6(a: char, b: char)
    requires IsDigit(a) && IsDigit(b)
    ensures Scan(['s', 'i', 'n', 'e', '(', a, '+', b, ')'], 6, [Function("sin"), LeftParen, Number(DigitValue(a))]) ==
      Ok([Function("sin"), LeftParen, Number(DigitValue(a)), Operator(Plus), Number(DigitValue(b)), RightParen])
  {
    ScanOperator(['s', 'i', 'n', 'e', '(', a, '+', b, ')'], 6, [Function("sin"), LeftParen, Number(DigitValue(a))]);
    assert [Function("sin"), LeftParen, Number(DigitValue(a))] + [Operator(Plus)] == [Function("sin"), LeftParen, Number(DigitValue(a)), Operator(Plus)];
    AliasFrom7(a, b);
  }

  lemma AliasFrom7(a: char, b: char)
    requires IsDigit(a) && IsDigit(b)
    ensures Scan(['s', 'i', 'n', 'e', '(', a, '+', b, ')'], 7, [Function("sin"), LeftParen, Number(DigitValue(a)), Operator(Plus)]) ==
      Ok([Function("sin"), LeftParen, Number(DigitValue(a)), Operator(Plus), Number(DigitValue(b)), RightParen])
  {
    ScanDigit(['s', 'i', 'n', 'e', '(', a, '+', b, ')'], 7, [Function("sin"), LeftParen, Number(DigitValue(a)), Operator(Plus)]);
    assert [Function("sin"), LeftParen, Number(DigitValue(a)), Operator(Plus)] + [Number(DigitValue(b))] == [Function("sin"), LeftParen, Number(DigitValue(a)), Operator(Plus), Number(DigitValue(b))];
    AliasFrom8(a, b);
  }

  lemma AliasFrom8(a: char, b: char)
    requires IsDigit(a) && IsDigit(b)
    ensures Scan(['s', 'i', 'n', 'e', '(', a, '+', b, ')'], 8, [Function("sin"), LeftParen, Number(DigitValue(a)), Operator(Plus), Number(DigitValue(b))]) ==
      Ok([Function("sin"), LeftParen, Number(DigitValue(a)), Operator(Plus), Number(DigitValue(b)), RightParen])
  {
    ScanParen(['s', 'i', 'n', 'e', '(', a, '+', b, ')'], 8, [Function("sin"), LeftParen, Number(DigitValue(a)), Operator(Plus), Number(DigitValue(b))]);
    assert [Function("sin"), LeftParen, Number(DigitValue(a)), Operator(Plus), Number(DigitValue(b))] + [RightParen] == [Function("sin"), LeftParen, Number(DigitValue(a)), Operator(Plus), Number(DigitValue(b)), RightParen];
  }

  // ----- worked failures -----

  /** An unclosed `(` is reported by the conversion stage: for digits a, b, "(a+b" fails. */
  lemma UnclosedParenExample(num: NumberOps, a: char, b: char)
    requires IsDigit(a) && IsDigit(b)
    ensures Evaluation(num, ['(', a, '+', b]) == Failure("Mismatched parentheses")
  {
    var t := [LeftParen, Number(DigitValue(a)), Operator(Plus), Number(DigitValue(b))];
    UnclosedParenFrom0(a, b);
    PostfixOfUnclosedParen(DigitValue(a), DigitValue(b));
    PipelineOfTokens(num, ['(', a, '+', b], t);
  }

  lemma PostfixOfUnclosedParen(x: real, y: real)
    ensures Postfix([LeftParen, Number(x), Operator(Plus), Number(y)]) == Err(MismatchedParentheses)
  {
    var t := [LeftParen, Number(x), Operator(Plus), Number(y)];
    assert DropLast(t) == [LeftParen, Number(x), Operator(Plus)];
    assert DropLast(DropLast(t)) == [LeftParen, Number(x)];
    assert DropLast([LeftParen, Number(x)]) == [LeftParen] && DropLast([LeftParen]) == [];
    assert Depth([LeftParen]) == 1;
    assert Depth([LeftParen, Number(x)]) == 1;
    assert Depth([LeftParen, Number(x), Operator(Plus)]) == 1;
    PostfixFailsIffUnbalanced(t);
  }

  lemma UnclosedParenFrom0(a: char, b: char)
    requires IsDigit(a) && IsDigit(b)
    ensures Scan(['(', a, '+', b], 0, []) ==
      Ok([LeftParen, Number(DigitValue(a)), Operator(Plus), Number(DigitValue(b))])
  {
    ScanParen(['(', a, '+', b], 0, []);
    assert [] + [LeftParen] == [LeftParen];
    UnclosedParenFrom1(a, b);
  }

  lemma UnclosedParenFrom1(a: char, b: char)
    requires IsDigit(a) && IsDigit(b)
    ensures Scan(['(', a, '+', b], 1, [LeftParen]) ==
      Ok([LeftParen, Number(DigitValue(a)), Operator(Plus), Number(DigitValue(b))])
  {
    ScanDigit(['(', a, '+', b], 1, [LeftParen]);
    assert [LeftParen] + [Number(DigitValue(a))] == [LeftParen, Number(DigitValue(a))];
    UnclosedParenFrom2(a, b);
  }

  lemma UnclosedParenFrom2(a: char, b: char)
    requires IsDigit(a) && IsDigit(b)
    ensures Scan(['(', a, '+', b], 2, [LeftParen, Number(DigitValue(a))]) ==
      Ok([LeftParen, Number(DigitValue(a)), Operator(Plus), Number(DigitValue(b))])
  {
    ScanOperator(['(', a, '+', b], 2, [LeftParen, Number(DigitValue(a))]);
    assert [LeftParen, Number(DigitValue(a))] + [Operator(Plus)] == [LeftParen, Number(DigitValue(a)), Operator(Plus)];
    UnclosedParenFrom3(a, b);
  }

  lemma UnclosedParenFrom3(a: char, b: char)
    requires IsDigit(a) && IsDigit(b)
    ensures Scan(['(', a, '+', b], 3, [LeftParen, Number(DigitValue(a)), Operator(Plus)]) ==
      Ok([LeftParen, Number(DigitValue(a)), Operator(Plus), Number(DigitValue(b))])
  {
    ScanDigit(['(', a, '+', b], 3, [LeftParen, Number(DigitValue(a)), Operator(Plus)]);
    assert [LeftParen, Number(DigitValue(a)), Operator(Plus)] + [Number(DigitValue(b))] == [LeftParen, Number(DigitValue(a)), Operator(Plus), Number(DigitValue(b))];
  }

  /** An unknown name is reported with its spelling: for a digit a, "foo(a)" fails. */
  lemma UnknownIdentifierExample(num: NumberOps, a: char)
    requires IsDigit(a)
    ensures Evaluation(num, ['f', 'o', 'o', '(', a, ')']) == Failure(Message(UnknownIdentifier("foo")))
  {
    assert ['f', 'o', 'o', '(', a, ')'][0..3] == "foo";
    ResolveFoo();
    ScanUnknownIdentifier(['f', 'o', 'o', '(', a, ')'], 0, 3, []);
    PipelineOfTokenError(num, ['f', 'o', 'o', '(', a, ')'], UnknownIdentifier("foo"));
  }

  lemma ResolveFoo()
    ensures ResolveIdentifier("foo") == Err(UnknownIdentifier("foo"))
  {
    assert Lower("foo") == "foo";
  }

  /** A run of digits with two dots is not a number: for digits a, b, c, "a.b.c" fails
      naming the whole run. */
  lemma InvalidNumberExample(num: NumberOps, a: char, b: char, c: char)
    requires IsDigit(a) && IsDigit(b) && IsDigit(c)
    ensures Evaluation(num, [a, '.', b, '.', c]) == Failure(Message(InvalidNumber([a, '.', b, '.', c])))
  {
    var s := [a, '.', b, '.', c];
    assert s[0..5] == s;
    TwoDots(a, b, c);
    ScanNumeral(s, 0, 5, []);
    PipelineOfTokenError(num, s, InvalidNumber(s));
  }

  lemma TwoDots(a: char, b: char, c: char)
    requires IsDigit(a) && IsDigit(b) && IsDigit(c)
    ensures CountChar([a, '.', b, '.', c], '.') == 2
  {
    var s := [a, '.', b, '.', c];
    assert s[4..][1..] == [];
    assert CountChar(s[4..], '.') == 0;
    assert s[3..][1..] == s[4..];
    assert CountChar(s[3..], '.') == 1;
    assert s[2..][1..] == s[3..];
    assert CountChar(s[2..], '.') == 1;
    assert s[1..][1..] == s[2..];
    assert CountChar(s[1..], '.') == 2;
  }

  /** A character no rule accepts: for digits a, b, "a@b" fails naming `@`. */
  lemma UnsupportedCharacterExample(num: NumberOps, a: char, b: char)
    requires IsDigit(a) && IsDigit(b)
    ensures Evaluation(num, [a, '@', b]) == Failure(Message(UnsupportedCharacter('@')))
  {
    var s := [a, '@', b];
    ScanDigit(s, 0, []);
    AtIsUnsupported();
    ScanUnsupported(s, 1, [] + [Number(DigitOf(a) as real)]);
    PipelineOfTokenError(num, s, UnsupportedCharacter('@'));
  }

  lemma AtIsUnsupported()
    ensures !IsIdentifierStart('@')
  {
    assert ['@'] !in Constants;
  }

  /** Two numbers with nothing between them leave two values on the stack: for digits
      a, b, "a b" fails. */
  lemma TwoNumbersExample(num: NumberOps, a: char, b: char)
    requires IsDigit(a) && IsDigit(b)
    ensures Evaluation(num, [a, ' ', b]) == Failure("Unable to resolve expression")
  {
    TwoNumbersFrom0(a, b);
    PostfixOfTwoNumbers(DigitValue(a), DigitValue(b));
    TwoValuesUnresolvable(num, DigitValue(a), DigitValue(b));
    PipelineOfTokens(num, [a, ' ', b], [Number(DigitValue(a)), Number(DigitValue(b))]);
  }

  lemma PostfixOfTwoNumbers(x: real, y: real)
    ensures Postfix([Number(x), Number(y)]) == Ok([Number(x), Number(y)])
  {
    var n1, n2 := Number(x), Number(y);
    assert DropLast([n1, n2]) == [n1] && DropLast([n1]) == [];
    assert [] + [n1] == [n1];
    assert Convert([n1]) == Ok(Yard([n1], []));
    assert [n1] + [n2] == [n1, n2];
    assert Convert([n1, n2]) == Ok(Yard([n1, n2], []));
  }

  lemma TwoNumbersFrom0(a: char, b: char)
    requires IsDigit(a) && IsDigit(b)
    ensures Scan([a, ' ', b], 0, []) ==
      Ok([Number(DigitValue(a)), Number(DigitValue(b))])
  {
    ScanDigit([a, ' ', b], 0, []);
    assert [] + [Number(DigitValue(a))] == [Number(DigitValue(a))];
    TwoNumbersFrom1(a, b);
  }

  lemma TwoNumbersFrom1(a: char, b: char)
    requires IsDigit(a) && IsDigit(b)
    ensures Scan([a, ' ', b], 1, [Number(DigitValue(a))]) ==
      Ok([Number(DigitValue(a)), Number(DigitValue(b))])
  {
    ScanSkipped([a, ' ', b], 1, [Number(DigitValue(a))]);
    TwoNumbersFrom2(a, b);
  }

  lemma TwoNumbersFrom2(a: char, b: char)
    requires IsDigit(a) && IsDigit(b)
    ensures Scan([a, ' ', b], 2, [Number(DigitValue(a))]) ==
      Ok([Number(DigitValue(a)), Number(DigitValue(b))])
  {
    ScanDigit([a, ' ', b], 2, [Number(DigitValue(a))]);
    assert [Number(DigitValue(a))] + [Number(DigitValue(b))] == [Number(DigitValue(a)), Number(DigitValue(b))];
  }

  /** The characters of "valueOf". */
  predicate ValueOfText(s: string)
  {
    |s| == 7 && s[0] == 'v' && s[1] == 'a' && s[2] == 'l' && s[3] == 'u' && s[4] == 'e' &&
    s[5] == 'O' && s[6] == 'f'
  }

  /** The name of an inherited object member is an unknown identifier: "valueOf" fails
      naming itself. */
  lemma InheritedMemberExample(num: NumberOps, s: string)
    requires ValueOfText(s)
    ensures Evaluation(num, s) == Failure(Message(UnknownIdentifier(s)))
  {
    assert s[0..7] == s;
    assert Lower(s)[0] == 'v';
    LongNameUnknown(s);
    LongNameUnknown(Lower(s));
    UnknownWhenNowhere(s);
    ScanUnknownIdentifier(s, 0, 7, []);
    PipelineOfTokenError(num, s, UnknownIdentifier(s));
  }
}
