/**
 * The older assignment parser (src/parser.rs), working on the tokens of the
 * older tokenizer.
 *
 * It walks the token vector with an index: an Identifier followed by an
 * Assign starts an assignment, which runs to the next Semicolon; every other
 * token records one "Unkown syntax" error.  Reading a token past the end of
 * the vector is a panic in the source and a `ParseFault` here.
 *
 * The lookahead guard `pos < tokens.len() + 1` of the source is always true,
 * so the source reads past the end at the last token.  `ParseFromAsWritten`
 * keeps that reading; the rest of the model uses the evidently intended one,
 * where the token after the last is the end sentinel (`NextToken`).
 */
module Parser {
  import opened Wrappers
  import opened Lexer

  /** The parser's syntax tree: the three implementations of its `Expression` trait. */
  datatype Expression =
    | ProgramExpression(program: Program)
    | IdentifierExpression(identifier: Identifier)
    | AssignmentExpression(assignment: AssignExpression)

  datatype Program = Program(expressions: seq<Expression>)

  datatype Identifier = Identifier(token: Token, value: string)

  datatype AssignExpression = AssignExpression(token: Token, name: Identifier, value: Option<Expression>)

  /** `token_literal`: the literal of the node's own token; a program's is its first expression's. */
  function TokenLiteral(e: Expression): string
    decreases e
  {
    match e
    case ProgramExpression(p) =>
      if |p.expressions| == 0 then "" else TokenLiteral(p.expressions[0])
    case IdentifierExpression(i) => i.token.literal
    case AssignmentExpression(a) => a.token.literal
  }

  /** `string`: a program prints as its expressions' texts run together. */
  function Str(e: Expression): string
    decreases e
  {
    match e
    case ProgramExpression(p) => StrAll(p.expressions)
    case IdentifierExpression(i) => i.value
    case AssignmentExpression(a) =>
      var value := if a.value.Some? then Str(a.value.value) else "";
      a.name.value + " " + a.token.literal + " " + value + " " + SEMICOLON
  }

  /** The texts of the expressions, run together. */
  function StrAll(es: seq<Expression>): string
    decreases es
  {
    if es == [] then "" else StrAll(es[..|es| - 1]) + Str(es[|es| - 1])
  }

  lemma {:induction false} StrAllAppend(a: seq<Expression>, b: seq<Expression>)
    ensures StrAll(a + b) == StrAll(a) + StrAll(b)
    decreases |b|
  {
    if b == [] {
      assert a + b == a;
    } else {
      var init := b[..|b| - 1];
      assert (a + b)[..|a + b| - 1] == a + init;
      assert (a + b)[|a + b| - 1] == b[|b| - 1];
      StrAllAppend(a, init);
    }
  }

  /** An expression wrapped in `depth` single-expression programs. */
  function Nest(e: Expression, depth: nat): Expression {
    if depth == 0 then e else ProgramExpression(Program([Nest(e, depth - 1)]))
  }

  /**
   * A program's text is its parts' texts run together, so splitting the
   * expressions splits the text; a program's literal is its first
   * expression's, so later expressions never change it, and wrapping an
   * expression in programs keeps both its literal and its text.
   */
  lemma {:induction false} ProgramComposition(e: Expression, depth: nat, a: seq<Expression>, b: seq<Expression>)
    ensures Str(ProgramExpression(Program(a + b))) == Str(ProgramExpression(Program(a))) + Str(ProgramExpression(Program(b)))
    ensures |a| > 0 ==> TokenLiteral(ProgramExpression(Program(a + b))) == TokenLiteral(ProgramExpression(Program(a)))
    ensures TokenLiteral(Nest(e, depth)) == TokenLiteral(e)
    ensures Str(Nest(e, depth)) == Str(e)
    decreases depth
  {
    StrAllAppend(a, b);
    if |a| > 0 {
      assert (a + b)[0] == a[0];
    }
    if depth > 0 {
      ProgramComposition(e, depth - 1, a, b);
      var inner := Nest(e, depth - 1);
      assert StrAll([inner]) == Str(inner) by {
        assert [inner][..0] == [];
      }
    }
  }

  /** `Token::end()`: the sentinel the parser falls back on past the last token. */
  const END_TOKEN: Token := Token(End, "")

  predicate IsTokenType(expected: TokenType, token: Token) {
    expected == token.tokenType
  }

  /** Why parsing stops without a program: the tokenizer panicked, or an index past the token vector. */
  datatype ParseFault =
    | LexFailed(fault: LexFault)
    | IndexOutOfBounds(index: nat)

  /** The expressions and the error messages parsed from some position on. */
  datatype Parsed = Parsed(expressions: seq<Expression>, errors: seq<string>)

  function SyntaxError(t: Token): string {
    "Unkown syntax " + t.literal
  }

  /** The token after `pos`, or the end sentinel after the last token. */
  function NextToken(tokens: seq<Token>, pos: nat): Token
    requires pos < |tokens|
  {
    if pos + 1 < |tokens| then tokens[pos + 1] else END_TOKEN
  }

  /** The lookahead as written: the guard always holds, so the last token has no successor to read. */
  function NextTokenAsWritten(tokens: seq<Token>, pos: nat): (r: Result<Token, ParseFault>)
    requires pos < |tokens|
    ensures r.Err? <==> pos + 1 == |tokens|
    ensures r.Ok? ==> r.value == NextToken(tokens, pos)
  {
    if pos < |tokens| + 1 then
      if pos + 1 < |tokens| then Ok(tokens[pos + 1]) else Err(IndexOutOfBounds(pos + 1))
    else Ok(END_TOKEN)
  }

  /** The first Semicolon at or after `from`. */
  function SemicolonFrom(tokens: seq<Token>, from: nat): (r: Option<nat>)
    ensures r.Some? ==> from <= r.value < |tokens| && tokens[r.value].tokenType == Semicolon
    ensures r.Some? ==> forall k :: from <= k < r.value ==> tokens[k].tokenType != Semicolon
    ensures r.None? ==> forall k :: from <= k < |tokens| ==> tokens[k].tokenType != Semicolon
    decreases |tokens| - from
  {
    if from >= |tokens| then None
    else if tokens[from].tokenType == Semicolon then Some(from)
    else SemicolonFrom(tokens, from + 1)
  }

  /** The assignment parsed from the Identifier at `pos`, with the index of its Semicolon. */
  function AssignAt(tokens: seq<Token>, pos: nat): Result<(AssignExpression, nat), ParseFault>
    requires pos + 1 < |tokens|
  {
    match SemicolonFrom(tokens, pos + 1)
    case None => Err(IndexOutOfBounds(|tokens|))
    case Some(s) =>
      Ok((AssignExpression(tokens[pos + 1], Identifier.Identifier(tokens[pos], tokens[pos].literal), None), s))
  }

  function PrependExpression(e: Expression, rest: Result<Parsed, ParseFault>): Result<Parsed, ParseFault> {
    match rest
    case Ok(p) => Ok(Parsed([e] + p.expressions, p.errors))
    case Err(f) => Err(f)
  }

  function PrependError(msg: string, rest: Result<Parsed, ParseFault>): Result<Parsed, ParseFault> {
    match rest
    case Ok(p) => Ok(Parsed(p.expressions, [msg] + p.errors))
    case Err(f) => Err(f)
  }

  /** What has been parsed before a position, put in front of what is parsed after it. */
  function PrependParsed(done: Parsed, rest: Result<Parsed, ParseFault>): Result<Parsed, ParseFault> {
    match rest
    case Ok(p) => Ok(Parsed(done.expressions + p.expressions, done.errors + p.errors))
    case Err(f) => Err(f)
  }

  /** Whether the token at `pos` starts an assignment. */
  predicate StartsAssignment(tokens: seq<Token>, pos: nat)
    requires pos < |tokens|
  {
    tokens[pos].tokenType == TokenType.Identifier && IsTokenType(Assign, NextToken(tokens, pos))
  }

  /** The parse of the tokens from `pos` on, with the end-sentinel lookahead. */
  function ParseFrom(tokens: seq<Token>, pos: nat): (r: Result<Parsed, ParseFault>)
    ensures r.Ok? && pos <= |tokens| ==> |r.value.expressions| + |r.value.errors| <= |tokens| - pos
    decreases |tokens| - pos
  {
    if pos >= |tokens| then Ok(Parsed([], []))
    else if StartsAssignment(tokens, pos) then
      match AssignAt(tokens, pos)
      case Err(f) => Err(f)
      case Ok((a, s)) => PrependExpression(AssignmentExpression(a), ParseFrom(tokens, s + 1))
    else PrependError(SyntaxError(tokens[pos]), ParseFrom(tokens, pos + 1))
  }

  /** The parse of the tokens from `pos` on, with the lookahead as written. */
  function ParseFromAsWritten(tokens: seq<Token>, pos: nat): (r: Result<Parsed, ParseFault>)
    ensures r.Ok? ==> r == ParseFrom(tokens, pos)
    decreases |tokens| - pos
  {
    if pos >= |tokens| then Ok(Parsed([], []))
    else
      match NextTokenAsWritten(tokens, pos)
      case Err(f) => Err(f)
      case Ok(next) =>
        if tokens[pos].tokenType == TokenType.Identifier && IsTokenType(Assign, next) then
          match AssignAt(tokens, pos)
          case Err(f) => Err(f)
          case Ok((a, s)) => PrependExpression(AssignmentExpression(a), ParseFromAsWritten(tokens, s + 1))
        else PrependError(SyntaxError(tokens[pos]), ParseFromAsWritten(tokens, pos + 1))
  }

  /** The parse of a whole source: tokenize, then parse every token. */
  function Parse(input: seq<Grapheme>): Result<Parsed, ParseFault> {
    match Lex(input)
    case Err(f) => Err(LexFailed(f))
    case Ok(tokens) => ParseFrom(tokens, 0)
  }

  /**
   * `parse_assign_expression`: from the Identifier at `pos`, an assignment
   * whose token is the Assign after it, and the index of the next Semicolon
   * (where the source leaves its cursor).
   */
  method ParseAssignExpression(tokens: seq<Token>, pos: nat) returns (r: Result<(AssignExpression, nat), ParseFault>)
    requires pos + 1 < |tokens|
    ensures r == AssignAt(tokens, pos)
  {
    var identifier := Identifier.Identifier(tokens[pos], tokens[pos].literal);
    var p := pos + 1;
    var assign := tokens[p];
    while p < |tokens| && tokens[p].tokenType != Semicolon
      invariant pos + 1 <= p <= |tokens|
      invariant forall k :: pos + 1 <= k < p ==> tokens[k].tokenType != Semicolon
      decreases |tokens| - p
    {
      p := p + 1;
    }
    if p == |tokens| {
      return Err(IndexOutOfBounds(p));
    }
    SemicolonIsFirst(tokens, pos + 1, p);
    return Ok((AssignExpression(assign, identifier, None), p));
  }

  lemma SemicolonIsFirst(tokens: seq<Token>, from: nat, j: nat)
    requires from <= j < |tokens| && tokens[j].tokenType == Semicolon
    requires forall k :: from <= k < j ==> tokens[k].tokenType != Semicolon
    ensures SemicolonFrom(tokens, from) == Some(j)
  {
  }

  /** The parser: its tokenizer's input and the errors recorded so far. */
  class Parser {
    const input: seq<Grapheme>
    var errors: seq<string>

    /** `Parser::new`: no errors yet. */
    constructor (input: seq<Grapheme>)
      ensures this.input == input && errors == []
    {
      this.input := input;
      errors := [];
    }

    /**
     * `parse_program`: the expressions of the input in order, each other
     * token's error appended to `errors`.  When the tokenizer or the parser
     * reads past the end there is no program, and `errors` has only grown.
     */
    method ParseProgram() returns (r: Result<Program, ParseFault>)
      modifies this
      ensures r.Ok? <==> Parse(input).Ok?
      ensures r.Ok? ==> r.value == Program(Parse(input).value.expressions)
      ensures r.Ok? ==> errors == old(errors) + Parse(input).value.errors
      ensures r.Err? ==> r.error == Parse(input).error && old(errors) <= errors
    {
      var lexed := Tokenize(input);
      if lexed.Err? {
        return Err(LexFailed(lexed.error));
      }
      var tokens := lexed.value;
      var expressions: seq<Expression> := [];
      ghost var messages: seq<string> := [];
      var pos := 0;
      PrependNothing(ParseFrom(tokens, 0));
      while pos < |tokens|
        invariant pos <= |tokens|
        invariant errors == old(errors) + messages
        invariant ParseFrom(tokens, 0) == PrependParsed(Parsed(expressions, messages), ParseFrom(tokens, pos))
        decreases |tokens| - pos
      {
        var next := NextToken(tokens, pos);
        if tokens[pos].tokenType == TokenType.Identifier && IsTokenType(Assign, next) {
          var parsed := ParseAssignExpression(tokens, pos);
          if parsed.Err? {
            assert ParseFrom(tokens, pos) == Err(parsed.error) by {
              assert StartsAssignment(tokens, pos);
            }
            return Err(parsed.error);
          }
          var (assignment, semicolon) := parsed.value;
          assert ParseFrom(tokens, pos) == PrependExpression(AssignmentExpression(assignment), ParseFrom(tokens, semicolon + 1)) by {
            assert StartsAssignment(tokens, pos);
          }
          PrependExpressionStep(expressions, messages, AssignmentExpression(assignment), ParseFrom(tokens, semicolon + 1));
          expressions := expressions + [AssignmentExpression(assignment)];
          pos := semicolon;
        } else {
          var msg := SyntaxError(tokens[pos]);
          assert ParseFrom(tokens, pos) == PrependError(msg, ParseFrom(tokens, pos + 1)) by {
            assert !StartsAssignment(tokens, pos);
          }
          PrependErrorStep(expressions, messages, msg, ParseFrom(tokens, pos + 1));
          errors := errors + [msg];
          messages := messages + [msg];
        }
        pos := pos + 1;
      }
      return Ok(Program(expressions));
    }
  }

  lemma PrependNothing(rest: Result<Parsed, ParseFault>)
    ensures PrependParsed(Parsed([], []), rest) == rest
  {
    if rest.Ok? {
      assert [] + rest.value.expressions == rest.value.expressions;
      assert [] + rest.value.errors == rest.value.errors;
    }
  }

  lemma PrependExpressionStep(es: seq<Expression>, ms: seq<string>, e: Expression, rest: Result<Parsed, ParseFault>)
    ensures PrependParsed(Parsed(es, ms), PrependExpression(e, rest)) == PrependParsed(Parsed(es + [e], ms), rest)
  {
    if rest.Ok? {
      assert es + ([e] + rest.value.expressions) == (es + [e]) + rest.value.expressions;
    }
  }

  lemma PrependErrorStep(es: seq<Expression>, ms: seq<string>, m: string, rest: Result<Parsed, ParseFault>)
    ensures PrependParsed(Parsed(es, ms), PrependError(m, rest)) == PrependParsed(Parsed(es, ms + [m]), rest)
  {
    if rest.Ok? {
      assert ms + ([m] + rest.value.errors) == (ms + [m]) + rest.value.errors;
    }
  }

  /**
   * An Identifier followed by an Assign yields one assignment: its token is
   * that Assign, its name the identifier (token and text), no value; parsing
   * resumes after the next Semicolon, so the tokens in between are skipped
   * without errors.  With no Semicolon left the parse reads past the end.
   */
  lemma AssignmentAt(tokens: seq<Token>, pos: nat)
    requires pos + 1 < |tokens|
    requires tokens[pos].tokenType == TokenType.Identifier && tokens[pos + 1].tokenType == Assign
    ensures SemicolonFrom(tokens, pos + 1).None? ==> ParseFrom(tokens, pos) == Err(IndexOutOfBounds(|tokens|))
    ensures SemicolonFrom(tokens, pos + 1).Some? ==>
      var s := SemicolonFrom(tokens, pos + 1).value;
      var a := AssignExpression(tokens[pos + 1], Identifier.Identifier(tokens[pos], tokens[pos].literal), None);
      pos + 1 < s && tokens[s].tokenType == Semicolon &&
      (forall k :: pos + 1 <= k < s ==> tokens[k].tokenType != Semicolon) &&
      ParseFrom(tokens, pos) == PrependExpression(AssignmentExpression(a), ParseFrom(tokens, s + 1))
  {
  }

  /** Any token that does not start an assignment yields exactly one error naming its literal. */
  lemma OtherTokenAt(tokens: seq<Token>, pos: nat)
    requires pos < |tokens|
    requires !(tokens[pos].tokenType == TokenType.Identifier && pos + 1 < |tokens| && tokens[pos + 1].tokenType == Assign)
    ensures ParseFrom(tokens, pos) == PrependError("Unkown syntax " + tokens[pos].literal, ParseFrom(tokens, pos + 1))
  {
  }

  /** Every parsed expression is an assignment built from an Identifier and the Assign after it. */
  predicate WellFormed(e: Expression) {
    e.AssignmentExpression? &&
    e.assignment.token.tokenType == Assign &&
    e.assignment.name.token.tokenType == TokenType.Identifier &&
    e.assignment.name.value == e.assignment.name.token.literal &&
    e.assignment.value.None? &&
    TokenLiteral(e) == e.assignment.token.literal
  }

  /**
   * What the parser produces: well-formed assignments and syntax errors, no
   * more of them together than there are tokens.
   */
  lemma {:induction false} ParsedShape(tokens: seq<Token>, pos: nat)
    requires pos <= |tokens| && ParseFrom(tokens, pos).Ok?
    ensures forall e :: e in ParseFrom(tokens, pos).value.expressions ==> WellFormed(e)
    ensures forall m :: m in ParseFrom(tokens, pos).value.errors ==>
      exists k :: pos <= k < |tokens| && m == SyntaxError(tokens[k])
    ensures |ParseFrom(tokens, pos).value.expressions| + |ParseFrom(tokens, pos).value.errors| <= |tokens| - pos
    decreases |tokens| - pos
  {
    if pos < |tokens| {
      var p := ParseFrom(tokens, pos).value;
      if StartsAssignment(tokens, pos) {
        var (a, s) := AssignAt(tokens, pos).value;
        assert SemicolonFrom(tokens, pos + 1) == Some(s);
        ParsedShape(tokens, s + 1);
        var rest := ParseFrom(tokens, s + 1).value;
        assert p.expressions == [AssignmentExpression(a)] + rest.expressions;
        assert p.errors == rest.errors;
        assert WellFormed(AssignmentExpression(a));
      } else {
        ParsedShape(tokens, pos + 1);
        var rest := ParseFrom(tokens, pos + 1).value;
        assert p.expressions == rest.expressions;
        assert p.errors == [SyntaxError(tokens[pos])] + rest.errors;
        forall m | m in p.errors
          ensures exists k :: pos <= k < |tokens| && m == SyntaxError(tokens[k])
        {
          if m == SyntaxError(tokens[pos]) {
          } else {
            assert m in rest.errors;
            var k :| pos + 1 <= k < |tokens| && m == SyntaxError(tokens[k]);
          }
        }
      }
    }
  }

  /**
   * The expression `e` is the assignment started at `k`: it prints as the
   * literals of that Identifier and of the Assign after it, with an empty
   * value, and its literal is the Assign's.
   */
  predicate PrintsAt(tokens: seq<Token>, k: nat, e: Expression) {
    && k + 1 < |tokens|
    && tokens[k].tokenType == TokenType.Identifier && tokens[k + 1].tokenType == Assign
    && Str(e) == tokens[k].literal + " " + tokens[k + 1].literal + "  " + SEMICOLON
    && TokenLiteral(e) == tokens[k + 1].literal
  }

  /** Printing what the parser produced gives back the literals of the input's assignments. */
  lemma {:induction false} AssignmentString(tokens: seq<Token>, pos: nat)
    requires pos <= |tokens| && ParseFrom(tokens, pos).Ok?
    ensures forall e :: e in ParseFrom(tokens, pos).value.expressions ==>
      exists k :: pos <= k && PrintsAt(tokens, k, e)
    decreases |tokens| - pos
  {
    if pos < |tokens| {
      var p := ParseFrom(tokens, pos).value;
      if StartsAssignment(tokens, pos) {
        var (a, s) := AssignAt(tokens, pos).value;
        assert SemicolonFrom(tokens, pos + 1) == Some(s);
        AssignmentString(tokens, s + 1);
        var rest := ParseFrom(tokens, s + 1).value;
        assert p.expressions == [AssignmentExpression(a)] + rest.expressions;
        assert PrintsAt(tokens, pos, AssignmentExpression(a));
        forall e | e in p.expressions
          ensures exists k :: pos <= k && PrintsAt(tokens, k, e)
        {
          if e != AssignmentExpression(a) {
            assert e in rest.expressions;
            var k :| s + 1 <= k && PrintsAt(tokens, k, e);
          }
        }
      } else {
        AssignmentString(tokens, pos + 1);
        var rest := ParseFrom(tokens, pos + 1).value;
        assert p.expressions == rest.expressions;
        forall e | e in p.expressions
          ensures exists k :: pos <= k && PrintsAt(tokens, k, e)
        {
          var k :| pos + 1 <= k && PrintsAt(tokens, k, e);
        }
      }
    }
  }

  /** One syntax error per token, in order. */
  function SyntaxErrors(ts: seq<Token>): (ms: seq<string>)
    ensures |ms| == |ts|
    ensures forall i :: 0 <= i < |ts| ==> ms[i] == "Unkown syntax " + ts[i].literal
  {
    if ts == [] then [] else [SyntaxError(ts[0])] + SyntaxErrors(ts[1..])
  }

  /** Tokens among which no Identifier is followed by an Assign each yield one error, in order. */
  lemma {:induction false} NoAssignmentAllErrors(tokens: seq<Token>, pos: nat)
    requires pos <= |tokens|
    requires forall k :: pos <= k < |tokens| - 1 ==>
      !(tokens[k].tokenType == TokenType.Identifier && tokens[k + 1].tokenType == Assign)
    ensures ParseFrom(tokens, pos) == Ok(Parsed([], SyntaxErrors(tokens[pos..])))
    decreases |tokens| - pos
  {
    if pos < |tokens| {
      assert !StartsAssignment(tokens, pos);
      NoAssignmentAllErrors(tokens, pos + 1);
      assert tokens[pos..][1..] == tokens[pos + 1..];
    }
  }

  /**
   * With the end-sentinel lookahead, a token vector in which every Assign
   * has a Semicolon after it always parses.
   */
  lemma {:induction false} SemicolonsMakeParseSucceed(tokens: seq<Token>, pos: nat)
    requires forall k :: 0 <= k < |tokens| && tokens[k].tokenType == Assign ==> SemicolonFrom(tokens, k).Some?
    ensures ParseFrom(tokens, pos).Ok?
    decreases |tokens| - pos
  {
    if pos < |tokens| {
      if StartsAssignment(tokens, pos) {
        assert tokens[pos + 1].tokenType == Assign;
        var s := SemicolonFrom(tokens, pos + 1).value;
        SemicolonsMakeParseSucceed(tokens, s + 1);
      } else {
        SemicolonsMakeParseSucceed(tokens, pos + 1);
      }
    }
  }

  /**
   * As written, the parse of any token vector whose last token is not a
   * Semicolon reads past the end: the cursor always comes to the last token,
   * and the lookahead there has no token to read.
   */
  lemma {:induction false} AsWrittenReadsPastEnd(tokens: seq<Token>, pos: nat)
    requires pos < |tokens| && tokens[|tokens| - 1].tokenType != Semicolon
    ensures ParseFromAsWritten(tokens, pos).Err?
    decreases |tokens| - pos
  {
    if pos + 1 < |tokens| {
      var next := tokens[pos + 1];
      if tokens[pos].tokenType == TokenType.Identifier && IsTokenType(Assign, next) {
        match SemicolonFrom(tokens, pos + 1)
        case None =>
        case Some(s) => AsWrittenReadsPastEnd(tokens, s + 1);
      } else {
        AsWrittenReadsPastEnd(tokens, pos + 1);
      }
    }
  }

  /** Hence every tokenized input, which ends with the End token, fails to parse as written. */
  lemma AsWrittenNeverParses(input: seq<Grapheme>)
    requires Lex(input).Ok?
    ensures ParseFromAsWritten(Lex(input).value, 0).Err?
  {
    LexEndsWithOneEnd(input);
    AsWrittenReadsPastEnd(Lex(input).value, 0);
  }

  /** The tokens of the parser's sample source: two assignments around a stray "⬅️ 3️⃣ ↙️". */
  const SAMPLE_TOKENS: seq<Token> := [
    Token(TokenType.Identifier, "\U{3299}\U{FE0F}\U{1F521}"),
    Token(Assign, ASSIGN),
    Token(String, "\U{1F236}\U{1F170}\U{FE0F}\U{1F21A}\U{1F171}\U{FE0F}\U{1F232}\U{1F18E}"),
    Token(Semicolon, SEMICOLON),
    Token(Assign, ASSIGN),
    Token(Number, "3\U{FE0F}\U{20E3}"),
    Token(Semicolon, SEMICOLON),
    Token(TokenType.Identifier, "\U{3299}\U{FE0F}\U{1F522}"),
    Token(Assign, ASSIGN),
    Token(Number, "3\U{FE0F}\U{20E3}\U{26AA}9\U{FE0F}\U{20E3}"),
    Token(Multiply, MULTIPLY),
    Token(Number, "2\U{FE0F}\U{20E3}"),
    Token(Semicolon, SEMICOLON),
    END_TOKEN
  ]

  /**
   * The shape of the sample: `name ⬅️ text ↙️ ⬅️ number ↙️ name ⬅️ number
   * ✖️ number ↙️` and End, up to the names, numbers and text.
   */
  predicate SampleLayout(ts: seq<Token>) {
    && |ts| == 14
    && ts[0].tokenType == TokenType.Identifier && ts[1] == Token(Assign, ASSIGN)
    && ts[2].tokenType == String && ts[3].tokenType == Semicolon
    && ts[4].tokenType == Assign && ts[5].tokenType == Number && ts[6].tokenType == Semicolon
    && ts[7].tokenType == TokenType.Identifier && ts[8] == Token(Assign, ASSIGN)
    && ts[9].tokenType == Number && ts[10].tokenType == Multiply && ts[11].tokenType == Number
    && ts[12].tokenType == Semicolon && ts[13] == END_TOKEN
  }

  /** The assignment that the tokens at `i` (a name) and `i + 1` (⬅️) start. */
  function AssignmentOf(ts: seq<Token>, i: nat): Expression
    requires i + 1 < |ts|
  {
    AssignmentExpression(AssignExpression(ts[i + 1], Identifier.Identifier(ts[i], ts[i].literal), None))
  }

  /**
   * The sample parses to two assignments whose literal is ⬅️, and to four
   * errors: one for each stray token and one for the End token.  As written
   * it reads past the end at the End token.
   */
  lemma SampleProgram()
    ensures ParseFrom(SAMPLE_TOKENS, 0).Ok?
    ensures |ParseFrom(SAMPLE_TOKENS, 0).value.expressions| == 2
    ensures forall e :: e in ParseFrom(SAMPLE_TOKENS, 0).value.expressions ==> TokenLiteral(e) == ASSIGN
    ensures ParseFrom(SAMPLE_TOKENS, 0).value.errors ==
      [SyntaxError(SAMPLE_TOKENS[4]), SyntaxError(SAMPLE_TOKENS[5]), SyntaxError(SAMPLE_TOKENS[6]), "Unkown syntax "]
    ensures ParseFromAsWritten(SAMPLE_TOKENS, 0).Err?
  {
    SampleIsLaidOut();
    LaidOutParse(SAMPLE_TOKENS);
    assert SyntaxError(END_TOKEN) == "Unkown syntax ";
    SampleAsWrittenFails();
  }

  lemma SampleIsLaidOut()
    ensures SampleLayout(SAMPLE_TOKENS)
  {
  }

  lemma SampleAsWrittenFails()
    ensures ParseFromAsWritten(SAMPLE_TOKENS, 0).Err?
  {
    AsWrittenReadsPastEnd(SAMPLE_TOKENS, 0);
  }

  lemma LaidOutParse(ts: seq<Token>)
    requires SampleLayout(ts)
    ensures ParseFrom(ts, 0) == Ok(Parsed([AssignmentOf(ts, 0), AssignmentOf(ts, 7)],
      [SyntaxError(ts[4]), SyntaxError(ts[5]), SyntaxError(ts[6]), SyntaxError(END_TOKEN)]))
    ensures TokenLiteral(AssignmentOf(ts, 0)) == ASSIGN && TokenLiteral(AssignmentOf(ts, 7)) == ASSIGN
  {
    var a1 := AssignmentOf(ts, 0);
    var a2 := AssignmentOf(ts, 7);
    var last := [SyntaxError(END_TOKEN)];
    var errs := [SyntaxError(ts[4]), SyntaxError(ts[5]), SyntaxError(ts[6])] + last;
    assert ParseFrom(ts, 7) == Ok(Parsed([a2], last)) by {
      LaidOutTail(ts);
      LaidOutSecondAssignment(ts);
      assert [a2] + [] == [a2];
    }
    assert ParseFrom(ts, 4) == Ok(Parsed([a2], errs)) by {
      LaidOutStrayTokens(ts);
      assert [SyntaxError(ts[4])] + ([SyntaxError(ts[5])] + ([SyntaxError(ts[6])] + last)) == errs;
    }
    assert ParseFrom(ts, 0) == Ok(Parsed([a1, a2], errs)) by {
      LaidOutFirstAssignment(ts);
      assert [a1] + [a2] == [a1, a2];
    }
    assert errs == [SyntaxError(ts[4]), SyntaxError(ts[5]), SyntaxError(ts[6]), SyntaxError(END_TOKEN)];
  }

  lemma LaidOutTail(ts: seq<Token>)
    requires SampleLayout(ts)
    ensures ParseFrom(ts, 13) == Ok(Parsed([], [SyntaxError(END_TOKEN)]))
  {
    assert ParseFrom(ts, 14) == Ok(Parsed([], []));
    OtherTokenAt(ts, 13);
    assert [SyntaxError(END_TOKEN)] + [] == [SyntaxError(END_TOKEN)];
  }

  lemma LaidOutSecondAssignment(ts: seq<Token>)
    requires SampleLayout(ts)
    ensures ParseFrom(ts, 7) == PrependExpression(AssignmentOf(ts, 7), ParseFrom(ts, 13))
  {
    SemicolonIsFirst(ts, 8, 12);
    AssignmentAt(ts, 7);
  }

  lemma LaidOutStrayTokens(ts: seq<Token>)
    requires SampleLayout(ts)
    ensures ParseFrom(ts, 4) == PrependError(SyntaxError(ts[4]),
      PrependError(SyntaxError(ts[5]), PrependError(SyntaxError(ts[6]), ParseFrom(ts, 7))))
  {
    OtherTokenAt(ts, 4);
    OtherTokenAt(ts, 5);
    OtherTokenAt(ts, 6);
  }

  lemma LaidOutFirstAssignment(ts: seq<Token>)
    requires SampleLayout(ts)
    ensures ParseFrom(ts, 0) == PrependExpression(AssignmentOf(ts, 0), ParseFrom(ts, 4))
  {
    SemicolonIsFirst(ts, 1, 3);
    AssignmentAt(ts, 0);
  }
}
