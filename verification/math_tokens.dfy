/** The vocabulary of the arithmetic expression evaluator (lib/math-evaluator.ts):
    tokens, the function, alias and constant tables, the operator table, the
    character classes the scanner tests, the whitespace String.prototype.trim
    removes, and the exact error messages. */
module MathTokens {
  import opened Basics

  /** The five binary operators and the unary minus the tokenizer writes `u-`. */
  datatype Op = Plus | Minus | Times | Divide | Power | Negate

  datatype Token =
    | Number(value: real)
    | Operator(op: Op)
    | Function(name: string)
    | LeftParen
    | RightParen

  /** The `type` tag of a token; the tokenizer remembers the last one in `lastTokenType`. */
  datatype Kind = NumberKind | OperatorKind | FunctionKind | LeftParenKind | RightParenKind

  function KindOf(t: Token): Kind
  {
    match t
    case Number(_) => NumberKind
    case Operator(_) => OperatorKind
    case Function(_) => FunctionKind
    case LeftParen => LeftParenKind
    case RightParen => RightParenKind
  }

  predicate IsParen(t: Token)
  {
    t.LeftParen? || t.RightParen?
  }

  /** Every failure the three stages and the entry point can report. */
  datatype Error =
    | NoExpression
    | InvalidNumber(run: string)
    | UnknownIdentifier(identifier: string)
    | UnsupportedCharacter(character: char)
    | MismatchedParentheses
    | InvalidUnary
    | InvalidBinary
    | MissingValue(fn: string)
    | UnsupportedFunction(fn: string)
    | Unresolvable
    | NotFinite

  /** The text of the `error` field the source returns for each failure. */
  function Message(e: Error): string
  {
    match e
    case NoExpression => "No expression to evaluate."
    case InvalidNumber(run) => "Invalid number \"" + run + "\""
    case UnknownIdentifier(id) => "Unknown identifier \"" + id + "\""
    case UnsupportedCharacter(c) => "Unsupported character \"" + [c] + "\""
    case MismatchedParentheses => "Mismatched parentheses"
    case InvalidUnary => "Invalid unary operation"
    case InvalidBinary => "Invalid binary operation"
    case MissingValue(name) => "Missing value for " + name
    case UnsupportedFunction(name) => "Unsupported function \"" + name + "\""
    case Unresolvable => "Unable to resolve expression"
    case NotFinite => "Expression evaluates to an infinite result"
  }

  /** A stage's result: a value, or the first failure met. */
  datatype Result<T> = Ok(value: T) | Err(error: Error)

  // ----- operator table -----

  function Precedence(op: Op): nat
  {
    match op
    case Plus => 1
    case Minus => 1
    case Times => 2
    case Divide => 2
    case Power => 3
    case Negate => 4
  }

  predicate RightAssociative(op: Op)
  {
    op == Power || op == Negate
  }

  // ----- lookup tables -----

  /** The keys of FUNCTION_MAP: the canonical function names. */
  const FunctionNames: set<string> :=
    {"sin", "cos", "tan", "asin", "acos", "atan", "sinh", "cosh", "tanh", "sqrt",
     "abs", "ln", "log", "log10", "exp", "floor", "ceil", "round", "sign"}

  /** FUNCTION_ALIASES: alternative spellings and the canonical name each stands for. */
  const Aliases: map<string, string> :=
    map["sine" := "sin", "cosine" := "cos", "tangent" := "tan", "arcsin" := "asin",
        "arccos" := "acos", "arctan" := "atan", "arctangent" := "atan",
        "logarithm" := "log", "log10" := "log10", "sqr" := "sqrt", "squareroot" := "sqrt"]

  /** Math.PI and Math.E: the exact values of the two doubles. */
  const Pi: real := 3.141592653589793115997963468544185161590576171875
  const EulerE: real := 2.718281828459045090795598298427648842334747314453125

  /** CONSTANT_MAP (own keys only). Math.PI * 2 doubles exactly, so tau is 2 * Pi. */
  const Constants: map<string, real> :=
    map["pi" := Pi, "\U{03C0}" := Pi, "tau" := 2.0 * Pi, "\U{03C4}" := 2.0 * Pi, "e" := EulerE]

  lemma AliasesNameFunctions()
    ensures forall a :: a in Aliases ==> Aliases[a] in FunctionNames
  {
  }

  // ----- character classes -----

  /** `isDigit`: /[0-9]/. */
  predicate IsDigit(c: char)
  {
    '0' <= c <= '9'
  }

  /** `isLetter`: /[a-zA-Zα-ωΑ-Ω]/ (the Greek ranges U+03B1..U+03C9 and U+0391..U+03A9). */
  predicate IsLetter(c: char)
  {
    ('a' <= c <= 'z') || ('A' <= c <= 'Z')
    || ('\U{03B1}' <= c <= '\U{03C9}') || ('\U{0391}' <= c <= '\U{03A9}')
  }

  /** The characters that continue an identifier: /[a-zA-Z0-9_πτ]/. */
  predicate IsIdentifierPart(c: char)
  {
    ('a' <= c <= 'z') || ('A' <= c <= 'Z') || IsDigit(c) || c == '_'
    || c == '\U{03C0}' || c == '\U{03C4}'
  }

  /** A character that starts an identifier: a letter, or a one-character constant name. */
  predicate IsIdentifierStart(c: char)
  {
    IsLetter(c) || [c] in Constants
  }

  /** The characters that make up a number literal. */
  predicate IsNumeralChar(c: char)
  {
    IsDigit(c) || c == '.'
  }

  /** The whitespace the tokenizer skips. */
  predicate IsSkipped(c: char)
  {
    c == ' ' || c == '\t' || c == '\n'
  }

  predicate IsOperatorChar(c: char)
  {
    c == '+' || c == '-' || c == '*' || c == '/' || c == '^'
  }

  /** The operator a character stands for when it is not a unary minus. */
  function BinaryOp(c: char): (op: Op)
    requires IsOperatorChar(c)
    ensures op != Negate
  {
    if c == '+' then Plus
    else if c == '-' then Minus
    else if c == '*' then Times
    else if c == '/' then Divide
    else Power
  }

  // ----- String.prototype.toLowerCase on identifier characters -----

  /** Lower-cases the ASCII capitals and the Greek capitals U+0391..U+03A9
      (U+03A2 is unassigned and stays as it is); other characters are unchanged. */
  function LowerChar(c: char): (d: char)
    ensures IsLetter(c) ==> IsLetter(d)
  {
    if 'A' <= c <= 'Z' then (c as int + 32) as char
    else if '\U{0391}' <= c <= '\U{03A9}' && c != '\U{03A2}' then (c as int + 32) as char
    else c
  }

  function Lower(s: string): (r: string)
    ensures |r| == |s|
    ensures forall k :: 0 <= k < |s| ==> r[k] == LowerChar(s[k])
  {
    seq(|s|, k requires 0 <= k < |s| => LowerChar(s[k]))
  }

  // ----- String.prototype.trim -----

  /** ECMAScript WhiteSpace and LineTerminator code points, which trim removes. */
  predicate IsJsWhitespace(c: char)
  {
    c == '\t' || c == '\n' || c == '\U{000B}' || c == '\U{000C}' || c == '\r' || c == ' '
    || c == '\U{00A0}' || c == '\U{1680}' || ('\U{2000}' <= c <= '\U{200A}')
    || c == '\U{2028}' || c == '\U{2029}' || c == '\U{202F}' || c == '\U{205F}'
    || c == '\U{3000}' || c == '\U{FEFF}'
  }

  function TrimStart(s: string): (r: string)
    ensures |r| <= |s| && r == s[|s| - |r|..]
    ensures r == [] || !IsJsWhitespace(r[0])
    ensures forall k :: 0 <= k < |s| - |r| ==> IsJsWhitespace(s[k])
  {
    if s != [] && IsJsWhitespace(s[0]) then TrimStart(s[1..]) else s
  }

  function TrimEnd(s: string): (r: string)
    ensures |r| <= |s| && r == s[..|r|]
    ensures r == [] || !IsJsWhitespace(Last(r))
    ensures forall k :: |r| <= k < |s| ==> IsJsWhitespace(s[k])
  {
    if s != [] && IsJsWhitespace(Last(s)) then TrimEnd(DropLast(s)) else s
  }

  function Trim(s: string): string
  {
    TrimEnd(TrimStart(s))
  }

  /** trim leaves the empty string exactly when every character is whitespace, and
      otherwise keeps a slice of the input that neither starts nor ends with whitespace. */
  lemma TrimEmptyIffAllWhitespace(s: string)
    ensures Trim(s) == [] <==> forall k :: 0 <= k < |s| ==> IsJsWhitespace(s[k])
    ensures Trim(s) != [] ==> !IsJsWhitespace(Trim(s)[0]) && !IsJsWhitespace(Last(Trim(s)))
    ensures exists a, b :: 0 <= a <= b <= |s| && Trim(s) == s[a..b]
  {
    var t := TrimStart(s);
    var a := |s| - |t|;
    var u := TrimEnd(t);
    assert t == s[a..];
    assert u == t[..|u|];
    assert Trim(s) == s[a..a + |u|];
    assert t != [] ==> t[0] == s[a];
    if u != [] {
      assert u[0] == t[0];
    }
  }

  // ----- number literals -----

  function CountChar(s: string, c: char): nat
  {
    if s == [] then 0 else (if s[0] == c then 1 else 0) + CountChar(s[1..], c)
  }

  /** Number() turns a run of digits and dots into a number exactly when the run has
      at most one dot and at least one digit; otherwise it yields NaN. */
  predicate ValidNumeral(run: string)
  {
    CountChar(run, '.') <= 1 && exists k :: 0 <= k < |run| && IsDigit(run[k])
  }

  /** The number of characters after the decimal point. */
  function FractionDigits(run: string): nat
  {
    if run == [] then 0 else if run[0] == '.' then |run| - 1 else FractionDigits(run[1..])
  }

  function Pow10(n: nat): (p: nat)
    ensures p >= 1
  {
    if n == 0 then 1 else 10 * Pow10(n - 1)
  }

  /** The exact decimal value of a valid numeral. */
  function NumeralValue(run: string): real
  {
    DigitsValue(run) as real / Pow10(FractionDigits(run)) as real
  }

  // ----- identifier resolution -----

  /** An identifier becomes a number if it, or its lower-case form, names a constant;
      otherwise a function token carrying the alias-resolved lower-case name, if that
      names a function; otherwise the tokenizer fails. */
  function ResolveIdentifier(id: string): Result<Token>
  {
    var lower := Lower(id);
    if id in Constants then Ok(Number(Constants[id]))
    else if lower in Constants then Ok(Number(Constants[lower]))
    else
      var canonical := if lower in Aliases then Aliases[lower] else lower;
      if canonical in FunctionNames then Ok(Function(canonical))
      else Err(UnknownIdentifier(id))
  }

  /** The three outcomes of resolution, in their order of priority: only a table
      constant becomes a number, only a known function name a function token, and
      anything else is reported with the identifier as written. */
  lemma ResolveIdentifierOutcomes(id: string)
    ensures ResolveIdentifier(id).Ok? ==>
      (ResolveIdentifier(id).value.Number? || ResolveIdentifier(id).value.Function?)
    ensures (ResolveIdentifier(id) == Ok(Number(Pi))) <==
      (id in {"pi", "\U{03C0}"} || (id !in Constants && Lower(id) in {"pi", "\U{03C0}"}))
    ensures ResolveIdentifier(id).Ok? && ResolveIdentifier(id).value.Number? <==>
      id in Constants || Lower(id) in Constants
    ensures ResolveIdentifier(id).Ok? && ResolveIdentifier(id).value.Function? ==>
      ResolveIdentifier(id).value.name in FunctionNames
    ensures ResolveIdentifier(id).Err? ==> ResolveIdentifier(id).error == UnknownIdentifier(id)
  {
    AliasesNameFunctions();
  }
  // ----- the constant lookup as written -----

  /** The members every object literal inherits from Object.prototype whose names an
      identifier can spell (they start with a letter). */
  const PrototypeMembers: set<string> :=
    {"constructor", "hasOwnProperty", "isPrototypeOf", "propertyIsEnumerable",
     "toLocaleString", "toString", "valueOf"}

  /** What `CONSTANT_MAP[identifier]` followed by `CONSTANT_MAP[lower]` finds: a bracket
      lookup on an object literal also reaches the inherited members. */
  datatype Lookup = OwnConstant(value: real) | InheritedMember(name: string) | Miss

  function ConstantLookupAsWritten(id: string): (r: Lookup)
    ensures r.Miss? ==> ResolveIdentifier(id).Err? || ResolveIdentifier(id).value.Function?
  {
    var lower := Lower(id);
    if id in Constants then OwnConstant(Constants[id])
    else if id in PrototypeMembers then InheritedMember(id)
    else if lower in Constants then OwnConstant(Constants[lower])
    else if lower in PrototypeMembers then InheritedMember(lower)
    else Miss
  }

  /** No name of seven or more characters (eight, when it starts with `t`) that starts
      with none of `a`, `l`, `s` is a constant, an alias or a function name. */
  lemma LongNameUnknown(n: string)
    requires |n| >= 7 && n[0] != 'a' && n[0] != 'l' && n[0] != 's'
    requires n[0] == 't' ==> |n| >= 8
    ensures n !in Constants && n !in Aliases && n !in FunctionNames
  {
  }

  /** Every inherited member name, and its lower-case form, is such a name. */
  lemma PrototypeMemberShape(id: string)
    requires id in PrototypeMembers
    ensures |id| >= 7 && id[0] in {'c', 'h', 'i', 'p', 't', 'v'}
    ensures id[0] == 't' ==> |id| >= 8
    ensures Lower(id)[0] == id[0] && |Lower(id)| == |id|
  {
  }

  /** A name not in the table, whose lower-case form is not a constant, an alias or a
      function name, is reported as unknown. */
  lemma UnknownWhenNowhere(id: string)
    requires id !in Constants
    requires Lower(id) !in Constants && Lower(id) !in Aliases && Lower(id) !in FunctionNames
    ensures ResolveIdentifier(id) == Err(UnknownIdentifier(id))
  {
  }

  /** As written, "valueOf" (and "Constructor", through its lower-case form) is found by the
      constant lookup, and the tokenizer would push it as a number token; the intended
      resolution reports both as unknown identifiers. */
  lemma InheritedMembersFoundAsWritten()
    ensures ConstantLookupAsWritten("valueOf") == InheritedMember("valueOf")
    ensures ResolveIdentifier("valueOf") == Err(UnknownIdentifier("valueOf"))
    ensures ConstantLookupAsWritten("Constructor") == InheritedMember("constructor")
    ensures ResolveIdentifier("Constructor") == Err(UnknownIdentifier("Constructor"))
  {
    PrototypeMemberShape("valueOf");
    LongNameUnknown("valueOf");
    LongNameUnknown(Lower("valueOf"));
    UnknownWhenNowhere("valueOf");
    assert Lower("Constructor") == "constructor";
    LongNameUnknown("Constructor");
    LongNameUnknown("constructor");
    UnknownWhenNowhere("Constructor");
  }

  /** With own-key lookup, a name is a constant only if it, or its lower-case form, is one
      of the five table entries, and no inherited member name resolves at all. */
  lemma OwnKeysOnly(id: string)
    ensures ResolveIdentifier(id).Ok? && ResolveIdentifier(id).value.Number? ==>
      ResolveIdentifier(id).value.value in {Pi, 2.0 * Pi, EulerE}
    ensures id in PrototypeMembers ==> ResolveIdentifier(id) == Err(UnknownIdentifier(id))
  {
    if id in PrototypeMembers {
      PrototypeMemberShape(id);
      LongNameUnknown(id);
      LongNameUnknown(Lower(id));
      UnknownWhenNowhere(id);
    }
  }
}
