/** The first stage of the evaluator, `tokenize` (lib/math-evaluator.ts): one left-to-right
    pass with a cursor that turns the trimmed expression into tokens. `Scan` is the loop
    written as a function (the cursor, the tokens pushed so far, and the kind of the last
    one, which is a function of those tokens); `Tokenize` is the loop itself. */
module MathTokenizer {
  import opened Basics
  import opened MathTokens

  /** The value `lastTokenType` holds: the kind of the last token pushed, null before the first. */
  function LastKind(tokens: seq<Token>): Option<Kind>
  {
    if tokens == [] then None else Some(KindOf(Last(tokens)))
  }

  /** A `-` is read as `u-` when no token precedes it, or the previous token is an
      operator, a `(` or a function. */
  predicate UnaryContext(last: Option<Kind>)
  {
    last == None || last == Some(OperatorKind) || last == Some(LeftParenKind) || last == Some(FunctionKind)
  }

  function OperatorFor(c: char, last: Option<Kind>): Op
    requires IsOperatorChar(c)
  {
    if c == '-' && UnaryContext(last) then Negate else BinaryOp(c)
  }

  /** Where the run of digits and dots that starts at i ends: the run is maximal. */
  function NumeralEnd(s: string, i: nat): (j: nat)
    requires i <= |s|
    ensures i <= j <= |s|
    ensures forall k :: i <= k < j ==> IsNumeralChar(s[k])
    ensures j == |s| || !IsNumeralChar(s[j])
    decreases |s| - i
  {
    if i < |s| && IsNumeralChar(s[i]) then NumeralEnd(s, i + 1) else i
  }

  /** Where the run of identifier characters that starts at i ends: the run is maximal. */
  function IdentifierEnd(s: string, i: nat): (j: nat)
    requires i <= |s|
    ensures i <= j <= |s|
    ensures forall k :: i <= k < j ==> IsIdentifierPart(s[k])
    ensures j == |s| || !IsIdentifierPart(s[j])
    decreases |s| - i
  {
    if i < |s| && IsIdentifierPart(s[i]) then IdentifierEnd(s, i + 1) else i
  }

  /** What one pass of the loop body does at cursor i, given the kind of the last token:
      skip the character, push one token and move the cursor, or fail. */
  datatype Step = Skip | Push(token: Token, next: nat) | Fail(error: Error)

  function StepAt(s: string, i: nat, last: Option<Kind>): (r: Step)
    requires i < |s|
    ensures r.Skip? <==> IsSkipped(s[i])
    ensures r.Push? ==> i < r.next <= |s|
  {
    var c := s[i];
    if IsSkipped(c) then Skip
    else if IsNumeralChar(c) then
      var j := NumeralEnd(s, i + 1);
      var run := s[i..j];
      if !ValidNumeral(run) then Fail(InvalidNumber(run))
      else Push(Number(NumeralValue(run)), j)
    else if IsIdentifierStart(c) then
      var j := IdentifierEnd(s, i + 1);
      match ResolveIdentifier(s[i..j])
      case Err(e) => Fail(e)
      case Ok(t) => Push(t, j)
    else if c == '(' then Push(LeftParen, i + 1)
    else if c == ')' then Push(RightParen, i + 1)
    else if IsOperatorChar(c) then Push(Operator(OperatorFor(c, last)), i + 1)
    else Fail(UnsupportedCharacter(c))
  }

  /** The rest of the scan from cursor i, with `tokens` pushed so far. */
  function Scan(s: string, i: nat, tokens: seq<Token>): Result<seq<Token>>
    requires i <= |s|
    decreases |s| - i
  {
    if i == |s| then Ok(tokens)
    else
      match StepAt(s, i, LastKind(tokens))
      case Skip => Scan(s, i + 1, tokens)
      case Push(x, j) => Scan(s, j, tokens + [x])
      case Fail(e) => Err(e)
  }

  function Tokens(s: string): Result<seq<Token>>
  {
    Scan(s, 0, [])
  }

  /** The inner loop of `tokenize` for a number literal: from the digit or dot at i,
      collect the digits and dots that follow. */
  method ReadNumeral(expression: string, i: nat) returns (numStr: string, j: nat)
    requires i < |expression|
    ensures j == NumeralEnd(expression, i + 1)
    ensures numStr == expression[i..j]
  {
    numStr := [expression[i]];
    j := i + 1;
    while j < |expression| && (IsDigit(expression[j]) || expression[j] == '.')
      invariant i < j <= |expression|
      invariant numStr == expression[i..j]
      invariant NumeralEnd(expression, j) == NumeralEnd(expression, i + 1)
      decreases |expression| - j
    {
      numStr := numStr + [expression[j]];
      j := j + 1;
    }
  }

  /** The inner loop of `tokenize` for an identifier: from the character at i, collect
      the letters, digits, underscores, π and τ that follow. */
  method ReadIdentifier(expression: string, i: nat) returns (identifier: string, j: nat)
    requires i < |expression|
    ensures j == IdentifierEnd(expression, i + 1)
    ensures identifier == expression[i..j]
  {
    identifier := [expression[i]];
    j := i + 1;
    while j < |expression| && IsIdentifierPart(expression[j])
      invariant i < j <= |expression|
      invariant identifier == expression[i..j]
      invariant IdentifierEnd(expression, j) == IdentifierEnd(expression, i + 1)
      decreases |expression| - j
    {
      identifier := identifier + [expression[j]];
      j := j + 1;
    }
  }

  /** One pass of the loop body of `tokenize` at cursor i, with `last` the kind of the last
      token pushed: skip whitespace, read a number literal, an identifier, a parenthesis or
      an operator, or fail on any other character. */
  method NextToken(expression: string, i: nat, last: Option<Kind>) returns (step: Step)
    requires i < |expression|
    ensures step == StepAt(expression, i, last)
  {
    var c := expression[i];

    if IsSkipped(c) {
      return Skip;
    }

    if IsDigit(c) || c == '.' {
      var numStr, j := ReadNumeral(expression, i);
      if !ValidNumeral(numStr) {
        return Fail(InvalidNumber(numStr));
      }
      return Push(Number(NumeralValue(numStr)), j);
    }

    if IsLetter(c) || [c] in Constants {
      var identifier, j := ReadIdentifier(expression, i);
      var lower := Lower(identifier);
      if identifier in Constants || lower in Constants {
        var constantValue := if identifier in Constants then Constants[identifier] else Constants[lower];
        return Push(Number(constantValue), j);
      }
      var canonical := if lower in Aliases then Aliases[lower] else lower;
      if canonical in FunctionNames {
        return Push(Function(canonical), j);
      }
      return Fail(UnknownIdentifier(identifier));
    }

    if c == '(' {
      return Push(LeftParen, i + 1);
    }

    if c == ')' {
      return Push(RightParen, i + 1);
    }

    if c == '+' || c == '-' || c == '*' || c == '/' || c == '^' {
      var operatorValue := BinaryOp(c);
      if c == '-' && (last == None || last == Some(OperatorKind) || last == Some(LeftParenKind) || last == Some(FunctionKind)) {
        operatorValue := Negate;
      }
      return Push(Operator(operatorValue), i + 1);
    }

    return Fail(UnsupportedCharacter(c));
  }

  /** The loop of `tokenize`: the cursor, the tokens pushed so far and the kind of the
      last one, until the end of the expression or the first failure. */
  method Tokenize(expression: string) returns (r: Result<seq<Token>>)
    ensures r == Tokens(expression)
  {
    var tokens: seq<Token> := [];
    var i := 0;
    var last: Option<Kind> := None;
    while i < |expression|
      invariant 0 <= i <= |expression|
      invariant last == LastKind(tokens)
      invariant Scan(expression, i, tokens) == Tokens(expression)
      decreases |expression| - i
    {
      var step := NextToken(expression, i, last);
      match step
      case Skip =>
        i := i + 1;
      case Push(token, next) =>
        tokens := tokens + [token];
        last := Some(KindOf(token));
        i := next;
      case Fail(e) =>
        return Err(e);
    }
    return Ok(tokens);
  }

  // ----- what a successful scan produces -----

  /** Position k of t is where an operand may begin: the start, or after an operator,
      a `(` or a function. */
  predicate OpensOperand(t: seq<Token>, k: nat)
    requires k < |t|
  {
    k == 0 || t[k - 1].Operator? || t[k - 1].LeftParen? || t[k - 1].Function?
  }

  /** Every minus sign is tagged by its left neighbour: `u-` exactly where an operand may
      begin, binary `-` everywhere else. */
  predicate MinusSignsTagged(t: seq<Token>)
  {
    forall k :: 0 <= k < |t| ==>
      (t[k] == Operator(Negate) ==> OpensOperand(t, k)) &&
      (t[k] == Operator(Minus) ==> !OpensOperand(t, k))
  }

  /** Every function token names an entry of the function table. */
  predicate FunctionsKnown(t: seq<Token>)
  {
    forall k :: 0 <= k < |t| && t[k].Function? ==> t[k].name in FunctionNames
  }

  lemma AppendKeepsTagged(tokens: seq<Token>, x: Token)
    requires MinusSignsTagged(tokens) && FunctionsKnown(tokens)
    requires x == Operator(Negate) ==> UnaryContext(LastKind(tokens))
    requires x == Operator(Minus) ==> !UnaryContext(LastKind(tokens))
    requires x.Function? ==> x.name in FunctionNames
    ensures MinusSignsTagged(tokens + [x]) && FunctionsKnown(tokens + [x])
  {
    var t := tokens + [x];
    forall k | 0 <= k < |t|
      ensures (t[k] == Operator(Negate) ==> OpensOperand(t, k))
      ensures (t[k] == Operator(Minus) ==> !OpensOperand(t, k))
    {
      if k < |tokens| {
        assert t[k] == tokens[k];
        assert OpensOperand(t, k) == OpensOperand(tokens, k);
      }
    }
  }

  /** A pushed token respects the minus rule and the function table. */
  lemma PushRespectsTags(s: string, i: nat, last: Option<Kind>)
    requires i < |s| && StepAt(s, i, last).Push?
    ensures var x := StepAt(s, i, last).token;
      (x == Operator(Negate) ==> UnaryContext(last)) &&
      (x == Operator(Minus) ==> !UnaryContext(last)) &&
      (x.Function? ==> x.name in FunctionNames)
  {
    var c := s[i];
    if !IsSkipped(c) && !IsNumeralChar(c) && IsIdentifierStart(c) {
      ResolveIdentifierOutcomes(s[i..IdentifierEnd(s, i + 1)]);
    }
  }

  /** A scan that succeeds extends what it was given by at most one token per
      character left, keeps minus signs tagged and names only known functions. */
  lemma {:induction false} ScanPreserves(s: string, i: nat, tokens: seq<Token>)
    requires i <= |s|
    requires MinusSignsTagged(tokens) && FunctionsKnown(tokens)
    requires Scan(s, i, tokens).Ok?
    ensures var t := Scan(s, i, tokens).value;
      |tokens| <= |t| <= |tokens| + (|s| - i) && t[..|tokens|] == tokens
      && MinusSignsTagged(t) && FunctionsKnown(t)
    decreases |s| - i
  {
    if i < |s| {
      match StepAt(s, i, LastKind(tokens))
      case Skip => ScanPreserves(s, i + 1, tokens);
      case Push(x, j) => {
        PushRespectsTags(s, i, LastKind(tokens));
        AppendKeepsTagged(tokens, x);
        ScanPreserves(s, j, tokens + [x]);
        assert (tokens + [x])[..|tokens|] == tokens;
      }
    }
  }

  /** What a successful tokenization promises: `-` is unary exactly where no operand
      precedes it, every function token has a table entry, and there are no more
      tokens than characters. */
  lemma TokensWellFormed(s: string)
    requires Tokens(s).Ok?
    ensures MinusSignsTagged(Tokens(s).value)
    ensures FunctionsKnown(Tokens(s).value)
    ensures |Tokens(s).value| <= |s|
  {
    ScanPreserves(s, 0, []);
  }

  // ----- what a failing scan reports -----

  predicate IsSlice(x: string, s: string)
  {
    exists a, b :: 0 <= a <= b <= |s| && s[a..b] == x
  }

  /** The failures the tokenizer can report, each with the offending text of s:
      a maximal run of digits and dots that is no number, an identifier that resolves
      to nothing, or a character no rule accepts. */
  predicate TokenizerError(s: string, e: Error)
  {
    match e
    case InvalidNumber(run) =>
      run != [] && (forall k :: 0 <= k < |run| ==> IsNumeralChar(run[k]))
      && !ValidNumeral(run) && IsSlice(run, s)
    case UnknownIdentifier(id) =>
      id != [] && IsIdentifierStart(id[0]) && (forall k :: 1 <= k < |id| ==> IsIdentifierPart(id[k]))
      && ResolveIdentifier(id).Err? && IsSlice(id, s)
    case UnsupportedCharacter(c) =>
      c in s && !IsSkipped(c) && !IsNumeralChar(c) && !IsIdentifierStart(c)
      && c != '(' && c != ')' && !IsOperatorChar(c)
    case _ => false
  }

  /** A maximal run of digits and dots that is no number is a tokenizer error of s. */
  lemma NumeralRunError(s: string, i: nat, j: nat)
    requires i < |s| && IsNumeralChar(s[i]) && j == NumeralEnd(s, i + 1)
    requires !ValidNumeral(s[i..j])
    ensures TokenizerError(s, InvalidNumber(s[i..j]))
  {
    var run := s[i..j];
    forall k | 0 <= k < |run| ensures IsNumeralChar(run[k]) {
      assert run[k] == s[i + k];
    }
  }

  /** A maximal identifier run that resolves to nothing is a tokenizer error of s. */
  lemma IdentifierRunError(s: string, i: nat, j: nat)
    requires i < |s| && IsIdentifierStart(s[i]) && j == IdentifierEnd(s, i + 1)
    requires ResolveIdentifier(s[i..j]).Err?
    ensures TokenizerError(s, UnknownIdentifier(s[i..j]))
  {
    var id := s[i..j];
    forall k | 1 <= k < |id| ensures IsIdentifierPart(id[k]) {
      assert id[k] == s[i + k];
    }
  }

  /** A failing step reports a tokenizer error of s. */
  lemma StepErrors(s: string, i: nat, last: Option<Kind>)
    requires i < |s| && StepAt(s, i, last).Fail?
    ensures TokenizerError(s, StepAt(s, i, last).error)
  {
    var c := s[i];
    if IsNumeralChar(c) {
      NumeralRunError(s, i, NumeralEnd(s, i + 1));
    } else if IsIdentifierStart(c) {
      var j := IdentifierEnd(s, i + 1);
      ResolveIdentifierOutcomes(s[i..j]);
      IdentifierRunError(s, i, j);
    }
  }

  lemma {:induction false} ScanErrors(s: string, i: nat, tokens: seq<Token>)
    requires i <= |s|
    requires Scan(s, i, tokens).Err?
    ensures TokenizerError(s, Scan(s, i, tokens).error)
    decreases |s| - i
  {
    match StepAt(s, i, LastKind(tokens))
    case Skip => ScanErrors(s, i + 1, tokens);
    case Push(x, j) => ScanErrors(s, j, tokens + [x]);
    case Fail(_) => StepErrors(s, i, LastKind(tokens));
  }

  lemma TokensErrors(s: string)
    requires Tokens(s).Err?
    ensures TokenizerError(s, Tokens(s).error)
  {
    ScanErrors(s, 0, []);
  }

  // ----- blank input -----

  lemma {:induction false} ScanOfBlank(s: string, i: nat, tokens: seq<Token>)
    requires i <= |s|
    ensures Scan(s, i, tokens) == Ok(tokens) <==> forall k :: i <= k < |s| ==> IsSkipped(s[k])
    decreases |s| - i
  {
    if i < |s| {
      match StepAt(s, i, LastKind(tokens))
      case Skip => ScanOfBlank(s, i + 1, tokens);
      case Push(x, j) =>
        if Scan(s, j, tokens + [x]).Ok? {
          ScanLengthGrows(s, j, tokens + [x]);
        }
      case Fail(_) =>
    }
  }

  lemma {:induction false} ScanLengthGrows(s: string, i: nat, tokens: seq<Token>)
    requires i <= |s|
    requires Scan(s, i, tokens).Ok?
    ensures |Scan(s, i, tokens).value| >= |tokens|
    decreases |s| - i
  {
    if i < |s| {
      match StepAt(s, i, LastKind(tokens))
      case Skip => ScanLengthGrows(s, i + 1, tokens);
      case Push(x, j) => ScanLengthGrows(s, j, tokens + [x]);
    }
  }

  /** The tokenizer yields no tokens exactly when the text is nothing but spaces, tabs
      and newlines. */
  lemma TokensOfBlank(s: string)
    ensures Tokens(s) == Ok([]) <==> forall k :: 0 <= k < |s| ==> IsSkipped(s[k])
  {
    ScanOfBlank(s, 0, []);
  }
  // ----- single steps of the scan -----

  /** A digit standing alone becomes a number token of its value. */
  lemma ScanDigit(s: string, i: nat, tokens: seq<Token>)
    requires i < |s| && IsDigit(s[i]) && (i + 1 == |s| || !IsNumeralChar(s[i + 1]))
    ensures Scan(s, i, tokens) == Scan(s, i + 1, tokens + [Number(DigitOf(s[i]) as real)])
  {
    assert NumeralEnd(s, i + 1) == i + 1;
    var run := s[i..i + 1];
    assert run == [s[i]] && run[1..] == [] && DropLast(run) == [];
    assert IsDigit(run[0]);
    assert CountChar(run, '.') == 0;
    assert ValidNumeral(run);
    assert DigitsValue(run) == DigitOf(s[i]);
    assert FractionDigits(run) == 0;
    assert NumeralValue(run) == DigitOf(s[i]) as real;
    assert StepAt(s, i, LastKind(tokens)) == Push(Number(NumeralValue(run)), i + 1);
  }

  lemma ScanOperator(s: string, i: nat, tokens: seq<Token>)
    requires i < |s| && IsOperatorChar(s[i])
    ensures Scan(s, i, tokens) == Scan(s, i + 1, tokens + [Operator(OperatorFor(s[i], LastKind(tokens)))])
  {
    assert [s[i]] !in Constants;
  }

  lemma ScanParen(s: string, i: nat, tokens: seq<Token>)
    requires i < |s| && (s[i] == '(' || s[i] == ')')
    ensures Scan(s, i, tokens) == Scan(s, i + 1, tokens + [if s[i] == '(' then LeftParen else RightParen])
  {
    assert [s[i]] !in Constants;
  }

  /** A maximal identifier run becomes the token it resolves to. */
  lemma ScanIdentifier(s: string, i: nat, j: nat, tokens: seq<Token>, t: Token)
    requires i < j <= |s| && IsIdentifierStart(s[i]) && !IsDigit(s[i]) && s[i] != '.'
    requires forall k :: i < k < j ==> IsIdentifierPart(s[k])
    requires j == |s| || !IsIdentifierPart(s[j])
    requires ResolveIdentifier(s[i..j]) == Ok(t)
    ensures Scan(s, i, tokens) == Scan(s, j, tokens + [t])
  {
    assert IdentifierEnd(s, i + 1) == j;
  }
  /** A maximal run of digits and dots becomes a number token, or the invalid-number failure. */
  lemma ScanNumeral(s: string, i: nat, j: nat, tokens: seq<Token>)
    requires i < j <= |s|
    requires forall k :: i <= k < j ==> IsNumeralChar(s[k])
    requires j == |s| || !IsNumeralChar(s[j])
    ensures Scan(s, i, tokens) ==
      if ValidNumeral(s[i..j]) then Scan(s, j, tokens + [Number(NumeralValue(s[i..j]))])
      else Err(InvalidNumber(s[i..j]))
  {
    assert NumeralEnd(s, i + 1) == j;
  }

  lemma ScanSkipped(s: string, i: nat, tokens: seq<Token>)
    requires i < |s| && IsSkipped(s[i])
    ensures Scan(s, i, tokens) == Scan(s, i + 1, tokens)
  {
  }

  /** A character no rule accepts stops the scan. */
  lemma ScanUnsupported(s: string, i: nat, tokens: seq<Token>)
    requires i < |s| && !IsSkipped(s[i]) && !IsNumeralChar(s[i]) && !IsIdentifierStart(s[i])
    requires s[i] != '(' && s[i] != ')' && !IsOperatorChar(s[i])
    ensures Scan(s, i, tokens) == Err(UnsupportedCharacter(s[i]))
  {
  }

  /** An identifier run that resolves to nothing stops the scan. */
  lemma ScanUnknownIdentifier(s: string, i: nat, j: nat, tokens: seq<Token>)
    requires i < j <= |s| && IsIdentifierStart(s[i]) && !IsDigit(s[i]) && s[i] != '.'
    requires forall k :: i < k < j ==> IsIdentifierPart(s[k])
    requires j == |s| || !IsIdentifierPart(s[j])
    requires ResolveIdentifier(s[i..j]).Err?
    ensures Scan(s, i, tokens) == Err(UnknownIdentifier(s[i..j]))
  {
    assert IdentifierEnd(s, i + 1) == j;
    ResolveIdentifierOutcomes(s[i..j]);
  }
}
