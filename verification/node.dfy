/**
 * The syntax tree of the newer front end (src/types/node.rs): the operator
 * precedence order, the precedence of each operator token, the `Node`
 * union, `token_literal` and the canonical printer `string`.
 *
 * Dafny needs destructors of the same name to have the same type, so some
 * fields carry new names: `name` of a function literal is `fnName`, the
 * `function` of a call is `callee`, and the `value` of an assignment, a
 * return, an integer, a float and a boolean is `assignedValue`, `returned`,
 * `integer`, `float` and `boolean`.  The `value` of an identifier and of a
 * string literal keep their name.
 */
module Nodes {
  import opened Wrappers
  import opened Numerals
  import opened Floats
  import opened Tokens

  /** Binding strength of an operator, weakest first (the derived `Ord`). */
  datatype Precedence = Lowest | Or | And | Equals | LessGreater | Sum | Product | Prefix | Call

  /** The position of a precedence in the declaration order. */
  function Rank(p: Precedence): nat {
    match p
    case Lowest => 0
    case Or => 1
    case And => 2
    case Equals => 3
    case LessGreater => 4
    case Sum => 5
    case Product => 6
    case Prefix => 7
    case Call => 8
  }

  predicate Below(a: Precedence, b: Precedence) {
    Rank(a) < Rank(b)
  }

  /**
   * The precedences form a strict total order, in the chain
   * Lowest < Or < And < Equals < LessGreater < Sum < Product < Prefix < Call.
   */
  lemma PrecedenceOrder(a: Precedence, b: Precedence, c: Precedence)
    ensures !Below(a, a)
    ensures Below(a, b) && Below(b, c) ==> Below(a, c)
    ensures a == b || Below(a, b) || Below(b, a)
    ensures Below(Precedence.Lowest, Precedence.Or) && Below(Precedence.Or, Precedence.And)
    ensures Below(Precedence.And, Equals) && Below(Equals, LessGreater) && Below(LessGreater, Sum)
    ensures Below(Sum, Product) && Below(Product, Prefix) && Below(Prefix, Call)
  {
  }

  /** `get_operator_precedence`: how strongly the operator of a token binds. */
  function OperatorPrecedence(token: Token): (r: Precedence)
    ensures r != Precedence.Prefix
  {
    match token.tokenType
    case Or => Precedence.Or
    case And => Precedence.And
    case Equal => Equals
    case NotEqual => Equals
    case LessThan => LessGreater
    case LessThanOrEqual => LessGreater
    case GreaterThan => LessGreater
    case GreaterThanOrEqual => LessGreater
    case Plus => Sum
    case Minus => Sum
    case Multiply => Product
    case Divide => Product
    case Modulo => Product
    case LParenthesis => Call
    case _ => Lowest
  }

  /** The operator tokens, grouped by the precedence they bind with. */
  predicate IsEquality(t: TokenType) { t == Equal || t == NotEqual }
  predicate IsComparison(t: TokenType) {
    t == LessThan || t == LessThanOrEqual || t == GreaterThan || t == GreaterThanOrEqual
  }
  predicate IsAdditive(t: TokenType) { t == Plus || t == Minus }
  predicate IsMultiplicative(t: TokenType) { t == Multiply || t == Divide || t == Modulo }

  /**
   * Each precedence is the precedence of exactly its operator group, every
   * other token binds Lowest, and no token has the Prefix precedence.
   */
  lemma OperatorPrecedenceTable(token: Token)
    ensures OperatorPrecedence(token) == Precedence.Or <==> token.tokenType == TokenType.Or
    ensures OperatorPrecedence(token) == Precedence.And <==> token.tokenType == TokenType.And
    ensures OperatorPrecedence(token) == Equals <==> IsEquality(token.tokenType)
    ensures OperatorPrecedence(token) == LessGreater <==> IsComparison(token.tokenType)
    ensures OperatorPrecedence(token) == Sum <==> IsAdditive(token.tokenType)
    ensures OperatorPrecedence(token) == Product <==> IsMultiplicative(token.tokenType)
    ensures OperatorPrecedence(token) == Call <==> token.tokenType == LParenthesis
    ensures OperatorPrecedence(token) != Prefix
  {
  }

  datatype Node =
    | Program(statements: seq<Node>)
    | AssignStatement(token: Token, name: Node, assignedValue: Node)
    | ReturnStatement(token: Token, returned: Node)
    | ExpressionStatement(token: Token, expression: Node)
    | BlockStatement(token: Token, statements: seq<Node>)
    | Identifier(token: Token, value: string)
    | IntegerLiteral(token: Token, integer: I64)
    | FloatLiteral(token: Token, float: F64)
    | BooleanLiteral(token: Token, boolean: bool)
    | StringLiteral(token: Token, value: string)
    | PrefixExpression(token: Token, operator: string, right: Node)
    | InfixExpression(token: Token, left: Node, operator: string, right: Node)
    | IfExpression(token: Token, condition: Node, consequence: Node, alternative: Option<Node>)
    | WhileExpression(token: Token, condition: Node, body: Node)
    | FunctionLiteral(token: Token, fnName: Option<Node>, parameters: seq<Node>, body: Node)
    | CallExpression(token: Token, callee: Node, arguments: seq<Node>)

  /** `token_literal`: the node's own token's literal; a program's is its first statement's. */
  function TokenLiteral(n: Node): string
    decreases n
  {
    if n.Program? then
      if |n.statements| == 0 then "" else TokenLiteral(n.statements[0])
    else n.token.literal
  }

  const SEMICOLON: string := "\U{2199}\U{FE0F}"      // ↙️
  const BLOCK_CLOSE: string := "\U{1FAF7}"           // 🫷
  const PAREN_OPEN: string := "\U{1F31C}"            // 🌜
  const PAREN_CLOSE: string := "\U{1F31B}"           // 🌛
  const STRING_OPEN: string := "\U{1F5E8}\U{FE0F}"   // 🗨️
  const STRING_CLOSE: string := "\U{1F4AC}"          // 💬
  const ELSE: string := "\U{2757}"                   // ❗
  const SEPARATOR: string := "\U{1F9B6} "            // "🦶 "
  const DOT: string := "\U{26AA}"                    // ⚪

  /** `join`: the texts with `sep` between each two. */
  function Join(texts: seq<string>, sep: string): string {
    if |texts| == 0 then ""
    else if |texts| == 1 then texts[0]
    else Join(texts[..|texts| - 1], sep) + sep + texts[|texts| - 1]
  }

  /** The digits of a float rendering: a dot becomes ⚪, any other character its keycap. */
  function FloatGlyphs(s: string): string {
    if s == [] then "" else (if s[0] == '.' then DOT else Keycap(s[0])) + FloatGlyphs(s[1..])
  }

  /** `string`: the canonical source text of a node (`floatText` is `f64::to_string`). */
  function Str(floatText: F64 -> string, n: Node): string
    decreases n
  {
    match n
    case Program(statements) => Concat(Strs(floatText, statements))
    case AssignStatement(token, name, assignedValue) =>
      Str(floatText, name) + " " + token.literal + " " + Str(floatText, assignedValue) + " " + SEMICOLON
    case ReturnStatement(token, returned) =>
      token.literal + " " + Str(floatText, returned) + " " + SEMICOLON
    case ExpressionStatement(_, expression) => Str(floatText, expression) + " " + SEMICOLON
    case BlockStatement(token, statements) =>
      token.literal + " " + Concat(Strs(floatText, statements)) + " " + BLOCK_CLOSE
    case Identifier(_, value) => value
    case IntegerLiteral(_, integer) => Keycaps(DecimalText(integer))
    case FloatLiteral(_, float) => FloatGlyphs(floatText(float))
    case BooleanLiteral(token, _) => token.literal
    case StringLiteral(_, value) => STRING_OPEN + value + STRING_CLOSE
    case PrefixExpression(_, operator, right) => PAREN_OPEN + operator + Str(floatText, right) + PAREN_CLOSE
    case InfixExpression(_, left, operator, right) =>
      PAREN_OPEN + Str(floatText, left) + " " + operator + " " + Str(floatText, right) + PAREN_CLOSE
    case IfExpression(token, condition, consequence, alternative) =>
      token.literal + " " + Str(floatText, condition) + " " + Str(floatText, consequence) +
      (if alternative.Some? then Join([" " + ELSE, Str(floatText, alternative.value)], " ") else "")
    case WhileExpression(token, condition, body) =>
      token.literal + " " + Str(floatText, condition) + " " + Str(floatText, body)
    case FunctionLiteral(token, fnName, parameters, body) =>
      token.literal + " " + (if fnName.Some? then Str(floatText, fnName.value) + " " else "") +
      PAREN_OPEN + Join(Strs(floatText, parameters), SEPARATOR) + PAREN_CLOSE + " " + Str(floatText, body)
    case CallExpression(_, callee, arguments) =>
      Str(floatText, callee) + PAREN_OPEN + Join(Strs(floatText, arguments), SEPARATOR) + PAREN_CLOSE
  }

  /** The texts of the nodes, in order. */
  function Strs(floatText: F64 -> string, ns: seq<Node>): (texts: seq<string>)
    ensures |texts| == |ns|
    decreases ns
  {
    if ns == [] then [] else Strs(floatText, ns[..|ns| - 1]) + [Str(floatText, ns[|ns| - 1])]
  }

  function Concat(texts: seq<string>): string {
    if texts == [] then "" else Concat(texts[..|texts| - 1]) + texts[|texts| - 1]
  }

  lemma StrsAt(floatText: F64 -> string, ns: seq<Node>, i: nat)
    requires i < |ns|
    ensures Strs(floatText, ns)[i] == Str(floatText, ns[i])
    decreases |ns|
  {
    if i < |ns| - 1 {
      StrsAt(floatText, ns[..|ns| - 1], i);
    }
  }

  lemma {:induction false} StrsAppend(floatText: F64 -> string, a: seq<Node>, b: seq<Node>)
    ensures Strs(floatText, a + b) == Strs(floatText, a) + Strs(floatText, b)
    decreases |b|
  {
    if b == [] {
      assert a + b == a;
    } else {
      var init := b[..|b| - 1];
      assert (a + b)[..|a + b| - 1] == a + init;
      StrsAppend(floatText, a, init);
    }
  }

  lemma {:induction false} ConcatAppend(x: seq<string>, y: seq<string>)
    ensures Concat(x + y) == Concat(x) + Concat(y)
    decreases |y|
  {
    if y == [] {
      assert x + y == x;
    } else {
      var init := y[..|y| - 1];
      assert (x + y)[..|x + y| - 1] == x + init;
      ConcatAppend(x, init);
    }
  }

  /**
   * Splitting a statement sequence splits its text: the text of a program
   * (and of a block's body) is the text of its first statements followed
   * by the text of the rest.
   */
  lemma ProgramTextAppend(floatText: F64 -> string, t: Token, a: seq<Node>, b: seq<Node>)
    ensures Str(floatText, Program(a + b)) == Str(floatText, Program(a)) + Str(floatText, Program(b))
    ensures Str(floatText, BlockStatement(t, a + b)) ==
      t.literal + " " + Str(floatText, Program(a)) + Str(floatText, Program(b)) + " " + BLOCK_CLOSE
  {
    StrsAppend(floatText, a, b);
    ConcatAppend(Strs(floatText, a), Strs(floatText, b));
  }

  /** A node wrapped in `depth` single-statement programs. */
  function Nest(n: Node, depth: nat): Node {
    if depth == 0 then n else Program([Nest(n, depth - 1)])
  }

  /**
   * A program's literal is its first statement's, so wrapping a node in
   * programs keeps both its literal and its text, and statements after the
   * first never change a program's literal.
   */
  lemma {:induction false} ProgramNesting(floatText: F64 -> string, n: Node, depth: nat, a: seq<Node>, b: seq<Node>)
    ensures TokenLiteral(Nest(n, depth)) == TokenLiteral(n)
    ensures Str(floatText, Nest(n, depth)) == Str(floatText, n)
    ensures |a| > 0 ==> TokenLiteral(Program(a + b)) == TokenLiteral(Program(a))
    decreases depth
  {
    if depth > 0 {
      ProgramNesting(floatText, n, depth - 1, a, b);
      var inner := Nest(n, depth - 1);
      assert Strs(floatText, [inner]) == [Str(floatText, inner)] by {
        assert [inner][..0] == [];
      }
      assert Concat([Str(floatText, inner)]) == Str(floatText, inner) by {
        assert [Str(floatText, inner)][..0] == [];
      }
    }
    if |a| > 0 {
      assert (a + b)[0] == a[0];
    }
  }

  /**
   * An integer literal prints as the keycap of each character of its
   * decimal text, the '-' of a negative number included, and the digits
   * read back from the keycaps give the number.
   */
  lemma IntegerLiteralText(floatText: F64 -> string, t: Token, n: I64, i: nat)
    requires i < |DecimalText(n)|
    ensures |Str(floatText, IntegerLiteral(t, n))| == 3 * |DecimalText(n)|
    ensures Str(floatText, IntegerLiteral(t, n))[3 * i] == DecimalText(n)[i]
    ensures Str(floatText, IntegerLiteral(t, n))[3 * i + 1] == '\U{FE0F}'
    ensures Str(floatText, IntegerLiteral(t, n))[3 * i + 2] == '\U{20E3}'
    ensures ParseDecimal(Unkeycaps(Str(floatText, IntegerLiteral(t, n)))) == Some(n as int)
  {
    KeycapsAt(DecimalText(n), i);
    UnkeycapsKeycaps(DecimalText(n));
    DecimalRoundTrip(n);
  }

  /** Joining one more text adds the separator and the text. */
  lemma JoinSnoc(texts: seq<string>, text: string, sep: string)
    ensures Join([text], sep) == text
    ensures |texts| > 0 ==> Join(texts + [text], sep) == Join(texts, sep) + sep + text
  {
    if |texts| > 0 {
      assert (texts + [text])[..|texts|] == texts;
    }
  }

  /** Joining two non-empty runs of texts is joining each and putting the separator between. */
  lemma {:induction false} JoinAppend(a: seq<string>, b: seq<string>, sep: string)
    requires |a| > 0 && |b| > 0
    ensures Join(a + b, sep) == Join(a, sep) + sep + Join(b, sep)
    decreases |b|
  {
    var last := b[|b| - 1];
    if |b| == 1 {
      assert a + b == a + [last];
      JoinSnoc(a, last, sep);
    } else {
      var init := b[..|b| - 1];
      assert a + b == (a + init) + [last];
      assert b == init + [last];
      JoinSnoc(a + init, last, sep);
      JoinSnoc(init, last, sep);
      JoinAppend(a, init, sep);
    }
  }

  const MOON_OPEN: char := '\U{1F31C}'
  const MOON_CLOSE: char := '\U{1F31B}'

  /** How many more 🌜 than 🌛 a text holds. */
  function Depth(s: string): int {
    if s == [] then 0
    else (if s[0] == MOON_OPEN then 1 else if s[0] == MOON_CLOSE then -1 else 0) + Depth(s[1..])
  }

  predicate NoMoons(s: string) {
    forall i :: 0 <= i < |s| ==> s[i] != MOON_OPEN && s[i] != MOON_CLOSE
  }

  lemma {:induction false} DepthAppend(a: string, b: string)
    ensures Depth(a + b) == Depth(a) + Depth(b)
    decreases |a|
  {
    if a == [] {
      assert a + b == b;
    } else {
      assert (a + b)[0] == a[0] && (a + b)[1..] == a[1..] + b;
      DepthAppend(a[1..], b);
    }
  }

  lemma {:induction false} NoMoonsDepth(s: string)
    requires NoMoons(s)
    ensures Depth(s) == 0
    decreases |s|
  {
    if s != [] {
      NoMoonsDepth(s[1..]);
    }
  }

  lemma {:induction false} KeycapsDepth(s: string)
    requires NoMoons(s)
    ensures Depth(Keycaps(s)) == 0
    decreases |s|
  {
    if s != [] {
      DepthAppend(Keycap(s[0]), Keycaps(s[1..]));
      NoMoonsDepth(Keycap(s[0]));
      assert NoMoons(s[1..]) by {
        assert forall i :: 0 <= i < |s| - 1 ==> s[1..][i] == s[i + 1];
      }
      KeycapsDepth(s[1..]);
    }
  }

  lemma DecimalTextDepth(n: int)
    ensures Depth(Keycaps(DecimalText(n))) == 0
  {
    var s := DecimalText(n);
    assert NoMoons(s) by {
      if n < 0 {
        var digits := NatText(-n);
        assert s == "-" + digits;
        forall i | 0 <= i < |s|
          ensures s[i] != MOON_OPEN && s[i] != MOON_CLOSE
        {
          if i > 0 {
            assert s[i] == digits[i - 1];
            assert IsDigitChar(digits[i - 1]);
          }
        }
      } else {
        assert forall i :: 0 <= i < |s| ==> IsDigitChar(s[i]);
      }
    }
    KeycapsDepth(s);
  }

  /** Texts of depth 0 joined by a separator of depth 0 have depth 0. */
  lemma {:induction false} JoinDepth(texts: seq<string>, sep: string)
    requires Depth(sep) == 0
    requires forall i :: 0 <= i < |texts| ==> Depth(texts[i]) == 0
    ensures Depth(Join(texts, sep)) == 0
    decreases |texts|
  {
    if |texts| > 1 {
      var init := texts[..|texts| - 1];
      JoinDepth(init, sep);
      DepthAppend(Join(init, sep), sep);
      DepthAppend(Join(init, sep) + sep, texts[|texts| - 1]);
    }
  }

  /** 🌜 text 🌛 has the depth of the text. */
  lemma WrapDepth(s: string)
    ensures Depth(PAREN_OPEN + s + PAREN_CLOSE) == Depth(s)
  {
    DepthAppend(PAREN_OPEN, s);
    DepthAppend(PAREN_OPEN + s, PAREN_CLOSE);
  }

  lemma ThreeDepth(a: string, b: string, c: string)
    ensures Depth(a + b + c) == Depth(a) + Depth(b) + Depth(c)
  {
    DepthAppend(a, b);
    DepthAppend(a + b, c);
  }

  /**
   * The expression trees of the printer's parentheses: identifiers,
   * literals other than floats, and prefix, infix and call expressions over
   * them, where no identifier, string, boolean or operator text holds a
   * moon of its own.
   */
  predicate MoonFree(n: Node)
    decreases n
  {
    match n
    case Identifier(_, value) => NoMoons(value)
    case IntegerLiteral(_, _) => true
    case BooleanLiteral(token, _) => NoMoons(token.literal)
    case StringLiteral(_, value) => NoMoons(value)
    case PrefixExpression(_, operator, right) => NoMoons(operator) && MoonFree(right)
    case InfixExpression(_, left, operator, right) => MoonFree(left) && NoMoons(operator) && MoonFree(right)
    case CallExpression(_, callee, arguments) =>
      MoonFree(callee) && forall i :: 0 <= i < |arguments| ==> MoonFree(arguments[i])
    case _ => false
  }

  /**
   * The printer's moons balance: in the text of a prefix, infix or call
   * tree, 🌜 and 🌛 occur equally often, one pair per prefix, infix and
   * call node.
   */
  lemma {:induction false} MoonsBalance(floatText: F64 -> string, n: Node)
    requires MoonFree(n)
    ensures Depth(Str(floatText, n)) == 0
    decreases n
  {
    match n
    case Identifier(_, value) =>
      NoMoonsDepth(value);
    case IntegerLiteral(_, integer) =>
      DecimalTextDepth(integer);
    case BooleanLiteral(token, _) =>
      NoMoonsDepth(token.literal);
    case StringLiteral(t, value) =>
      StringLiteralDepth(floatText, t, value);
    case PrefixExpression(t, operator, right) =>
      MoonsBalance(floatText, right);
      PrefixDepth(floatText, t, operator, right);
    case InfixExpression(t, left, operator, right) =>
      MoonsBalance(floatText, left);
      MoonsBalance(floatText, right);
      InfixDepth(floatText, t, left, operator, right);
    case CallExpression(t, callee, arguments) =>
      MoonsBalance(floatText, callee);
      forall i | 0 <= i < |arguments|
        ensures Depth(Str(floatText, arguments[i])) == 0
      {
        MoonsBalance(floatText, arguments[i]);
      }
      CallDepth(floatText, t, callee, arguments);
  }

  lemma StringLiteralDepth(floatText: F64 -> string, t: Token, value: string)
    requires NoMoons(value)
    ensures Depth(Str(floatText, StringLiteral(t, value))) == 0
  {
    NoMoonsDepth(value);
    ThreeDepth(STRING_OPEN, value, STRING_CLOSE);
  }

  lemma PrefixDepth(floatText: F64 -> string, t: Token, operator: string, right: Node)
    requires NoMoons(operator) && Depth(Str(floatText, right)) == 0
    ensures Depth(Str(floatText, PrefixExpression(t, operator, right))) == 0
  {
    NoMoonsDepth(operator);
    var inner := operator + Str(floatText, right);
    DepthAppend(operator, Str(floatText, right));
    WrapDepth(inner);
    assert Str(floatText, PrefixExpression(t, operator, right)) == PAREN_OPEN + inner + PAREN_CLOSE;
  }

  lemma InfixDepth(floatText: F64 -> string, t: Token, left: Node, operator: string, right: Node)
    requires NoMoons(operator) && Depth(Str(floatText, left)) == 0 && Depth(Str(floatText, right)) == 0
    ensures Depth(Str(floatText, InfixExpression(t, left, operator, right))) == 0
  {
    var middle := " " + operator + " ";
    assert NoMoons(middle);
    NoMoonsDepth(middle);
    var inner := Str(floatText, left) + middle + Str(floatText, right);
    ThreeDepth(Str(floatText, left), middle, Str(floatText, right));
    WrapDepth(inner);
    assert Str(floatText, InfixExpression(t, left, operator, right)) == PAREN_OPEN + inner + PAREN_CLOSE;
  }

  lemma CallDepth(floatText: F64 -> string, t: Token, callee: Node, arguments: seq<Node>)
    requires Depth(Str(floatText, callee)) == 0
    requires forall i :: 0 <= i < |arguments| ==> Depth(Str(floatText, arguments[i])) == 0
    ensures Depth(Str(floatText, CallExpression(t, callee, arguments))) == 0
  {
    var texts := Strs(floatText, arguments);
    forall i | 0 <= i < |texts|
      ensures Depth(texts[i]) == 0
    {
      StrsAt(floatText, arguments, i);
    }
    NoMoonsDepth(SEPARATOR);
    JoinDepth(texts, SEPARATOR);
    var wrapped := PAREN_OPEN + Join(texts, SEPARATOR) + PAREN_CLOSE;
    WrapDepth(Join(texts, SEPARATOR));
    DepthAppend(Str(floatText, callee), wrapped);
    CallExpressionText(floatText, t, callee, arguments);
  }

  /** One unfolding of `Str` on a call. */
  lemma CallExpressionText(floatText: F64 -> string, t: Token, callee: Node, args: seq<Node>)
    ensures Str(floatText, CallExpression(t, callee, args)) ==
      Str(floatText, callee) + (PAREN_OPEN + Join(Strs(floatText, args), SEPARATOR) + PAREN_CLOSE)
  {
  }

  /**
   * A function literal prints "token name 🌜params🌛 body" with the
   * parameters joined by "🦶 "; naming it only inserts the name and a space
   * before the 🌜.
   */
  lemma FunctionText(floatText: F64 -> string, t: Token, name: Node, ps: seq<Node>, body: Node)
    ensures |t.literal| + 1 <= |Str(floatText, FunctionLiteral(t, None, ps, body))|
    ensures Str(floatText, FunctionLiteral(t, None, ps, body))[..|t.literal| + 1] == t.literal + " "
    ensures Str(floatText, FunctionLiteral(t, Some(name), ps, body)) ==
      t.literal + " " + Str(floatText, name) + " " + Str(floatText, FunctionLiteral(t, None, ps, body))[|t.literal| + 1..]
  {
    var head := t.literal + " ";
    var tail := PAREN_OPEN + Join(Strs(floatText, ps), SEPARATOR) + PAREN_CLOSE + " " + Str(floatText, body);
    var anonymous := Str(floatText, FunctionLiteral(t, None, ps, body));
    var named := Str(floatText, FunctionLiteral(t, Some(name), ps, body));
    assert anonymous == head + tail && named == head + (Str(floatText, name) + " ") + tail by {
      FunctionLiteralText(floatText, t, None, ps, body);
      FunctionLiteralText(floatText, t, Some(name), ps, body);
    }
    assert anonymous[..|head|] == head && anonymous[|head|..] == tail;
  }

  /** One unfolding of `Str` on a function literal. */
  lemma FunctionLiteralText(floatText: F64 -> string, t: Token, fnName: Option<Node>, ps: seq<Node>, body: Node)
    ensures Str(floatText, FunctionLiteral(t, fnName, ps, body)) ==
      t.literal + " " + (if fnName.Some? then Str(floatText, fnName.value) + " " else "") +
      (PAREN_OPEN + Join(Strs(floatText, ps), SEPARATOR) + PAREN_CLOSE + " " + Str(floatText, body))
  {
  }
}
