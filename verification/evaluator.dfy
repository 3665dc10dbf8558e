/**
 * The tree-walking evaluator (src/evaluator.rs).
 *
 * `eval` returns `Result<Object, String>`; an arithmetic overflow or a
 * division by zero on `i64` aborts the program instead (Rust's checked
 * arithmetic in a debug build), which is the third outcome `Abort` here.
 * Floating-point arithmetic, the `i64 as f64` conversion and the rendering
 * of floats are the host's (`HostFloat`).
 */
module Evaluator {
  import opened Numerals
  import opened Floats
  import opened Nodes
  import opened Objects
  import W = Wrappers

  datatype Panic = IntegerOverflow | DivisionByZero

  /** What evaluating a node gives: a value, an error message, or an abort. */
  datatype Evaluated =
    | Ok(value: Object)
    | Err(message: string)
    | Abort(panic: Panic)

  const INVALID_NODE: string := "Invalid expressions or statements to evaluate values"
  const EMPTY_STATEMENTS: string := "Empty statements to evaluate values"
  const INVALID_PREFIX: string := "Invalid prefix expressions to evaluate values"
  const NOT_OF_RETURN: string := "Invalid prefix not expression to evaluate return expression"
  const MINUS_OF_NON_NUMBER: string := "Invalid prefix minus expression to evaluate non-numeric value"
  const INVALID_INFIX: string := "Invalid infix expression"
  const INVALID_OPERATOR: string := "Invalid infix expression operator"

  const NOT_SYMBOL: string := "\U{23F8}\U{FE0F}"     // ⏸️
  const MINUS_SYMBOL: string := "\U{2796}"           // ➖

  datatype InfixOp = Add | Sub | Mul | Div | Rem | Eq | Ne | Gt | Ge | Lt | Le

  /** The operator glyph of each infix operator. */
  function InfixSymbol(op: InfixOp): string {
    match op
    case Add => "\U{2795}"                       // ➕
    case Sub => "\U{2796}"                       // ➖
    case Mul => "\U{2716}\U{FE0F}"               // ✖️
    case Div => "\U{2797}"                       // ➗
    case Rem => "\U{3030}\U{FE0F}"               // 〰️
    case Eq => "\U{1F7F0}"                       // 🟰
    case Ne => "\U{2757}\U{1F7F0}"               // ❗🟰
    case Gt => "\U{25B6}\U{FE0F}"                // ▶️
    case Ge => "\U{25B6}\U{FE0F}\U{1F7F0}"       // ▶️🟰
    case Lt => "\U{25C0}\U{FE0F}"                // ◀️
    case Le => "\U{25C0}\U{FE0F}\U{1F7F0}"       // ◀️🟰
  }

  /** The operator an infix operator text stands for, in the order the source matches them. */
  function InfixOpOf(s: string): W.Option<InfixOp> {
    if s == InfixSymbol(Add) then W.Some(Add)
    else if s == InfixSymbol(Sub) then W.Some(Sub)
    else if s == InfixSymbol(Mul) then W.Some(Mul)
    else if s == InfixSymbol(Div) then W.Some(Div)
    else if s == InfixSymbol(Rem) then W.Some(Rem)
    else if s == InfixSymbol(Eq) then W.Some(Eq)
    else if s == InfixSymbol(Ne) then W.Some(Ne)
    else if s == InfixSymbol(Gt) then W.Some(Gt)
    else if s == InfixSymbol(Ge) then W.Some(Ge)
    else if s == InfixSymbol(Lt) then W.Some(Lt)
    else if s == InfixSymbol(Le) then W.Some(Le)
    else W.None
  }

  /** Every operator is recognised by its own glyph and by no other. */
  lemma InfixOpRoundTrip(s: string, op: InfixOp)
    ensures InfixOpOf(s) == W.Some(op) <==> InfixSymbol(op) == s
  {
    if InfixSymbol(op) == s {
      InfixSymbolsDistinct(op);
    }
  }

  lemma InfixSymbolsDistinct(op: InfixOp)
    ensures InfixOpOf(InfixSymbol(op)) == W.Some(op)
  {
    var s := InfixSymbol(op);
    match op
    case Add =>
    case Sub => assert s[0] != InfixSymbol(Add)[0];
    case Mul => assert |s| == 2 && s[0] == '\U{2716}';
    case Div => assert |s| == 1 && s[0] == '\U{2797}';
    case Rem => assert |s| == 2 && s[0] == '\U{3030}';
    case Eq => assert |s| == 1 && s[0] == '\U{1F7F0}';
    case Ne => assert |s| == 2 && s[0] == '\U{2757}';
    case Gt => assert |s| == 2 && s[0] == '\U{25B6}';
    case Ge => assert |s| == 3 && s[0] == '\U{25B6}';
    case Lt => assert |s| == 2 && s[0] == '\U{25C0}';
    case Le => assert |s| == 3 && s[0] == '\U{25C0}';
  }

  /** `to_bool_object`: the shared TRUE or FALSE. */
  function ToBoolObject(b: bool): (obj: Object)
    ensures obj == Boolean(b)
  {
    if b then TRUE else FALSE
  }

  function Abs(x: int): nat {
    if x < 0 then -x else x
  }

  /** Rust's `/` on integers: the quotient rounded toward zero. */
  function TruncDiv(a: int, b: int): int
    requires b != 0
  {
    var q := Abs(a) / Abs(b);
    if (a < 0) == (b < 0) then q else -q
  }

  /** Rust's `%` on integers: the remainder, with the sign of the dividend. */
  function TruncRem(a: int, b: int): int
    requires b != 0
  {
    a - b * TruncDiv(a, b)
  }

  /**
   * The quotient and remainder split the dividend: a == b * q + m, the
   * remainder is smaller than the divisor and never has the opposite sign
   * of the dividend.
   */
  lemma TruncDivision(a: int, b: int)
    requires b != 0
    ensures a == b * TruncDiv(a, b) + TruncRem(a, b)
    ensures Abs(TruncRem(a, b)) < Abs(b)
    ensures TruncRem(a, b) == 0 || (TruncRem(a, b) < 0 <==> a < 0)
    ensures Abs(TruncDiv(a, b)) <= Abs(a)
  {
    RemainderBounds(a, b);
    QuotientMagnitude(a, b);
  }

  lemma RemainderBounds(a: int, b: int)
    requires b != 0
    ensures Abs(TruncRem(a, b)) < Abs(b)
    ensures TruncRem(a, b) == 0 || (TruncRem(a, b) < 0 <==> a < 0)
  {
    RemainderMagnitude(a, b);
    DivisionSplit(Abs(a), Abs(b));
  }

  lemma QuotientMagnitude(a: int, b: int)
    requires b != 0
    ensures Abs(TruncDiv(a, b)) <= Abs(a)
  {
    QuotientBound(Abs(a), Abs(b));
  }

  /** The remainder is the remainder of the magnitudes, with the dividend's sign. */
  lemma RemainderMagnitude(a: int, b: int)
    requires b != 0
    ensures TruncRem(a, b) == if a < 0 then -(Abs(a) % Abs(b)) else Abs(a) % Abs(b)
  {
    var q := Abs(a) / Abs(b);
    var m := Abs(a) % Abs(b);
    var p := Abs(b) * q;
    assert Abs(a) == p + m;
    if b < 0 {
      NegatedFactor(Abs(b), q);
      assert b * q == -p;
    }
    if (a < 0) == (b < 0) {
      assert TruncDiv(a, b) == q;
    } else {
      assert TruncDiv(a, b) == -q;
      NegatedFactor(b, q);
      assert b * -q == -(b * q);
      if b > 0 {
        assert b * q == p;
      }
    }
  }

  lemma NegatedFactor(x: int, y: int)
    ensures (-x) * y == -(x * y) && x * (-y) == -(x * y)
  {
  }

  lemma QuotientBound(x: nat, y: nat)
    requires y > 0
    ensures x / y <= x
    ensures y >= 2 ==> x / y <= x / 2
  {
    if y >= 2 {
      DivisorMonotone(x, 2, y);
    }
    DivisorMonotone(x, 1, y);
  }

  lemma DivisorMonotone(x: nat, y: nat, z: nat)
    requires 0 < y <= z
    ensures x / z <= x / y
  {
    var q := x / z;
    DivisionSplit(x, z);
    MultiplyMonotone(y, z, q);
    DivisionIsLargest(x, y, q);
  }

  lemma DivisionSplit(x: nat, y: nat)
    requires y > 0
    ensures x == (x / y) * y + x % y && 0 <= x % y < y && (x / y) * y <= x
  {
  }

  lemma MultiplyMonotone(a: nat, b: nat, c: nat)
    requires a <= b
    ensures c * a <= c * b && a * c <= b * c
  {
  }

  lemma DivisionIsLargest(x: nat, y: nat, q: nat)
    requires y > 0 && q * y <= x
    ensures q <= x / y
  {
    DivisionSplit(x, y);
    if q > x / y {
      MultiplyMonotone(x / y + 1, q, y);
    }
  }

  /** The operators that compute a number rather than a truth value. */
  predicate IsArithmetic(op: InfixOp) {
    op == Add || op == Sub || op == Mul || op == Div || op == Rem
  }

  /**
   * `eval_integer_infix_expression`, with `i64` overflow and division by
   * zero aborting.  The only error is an unknown operator; arithmetic gives
   * integers and comparisons booleans, and only arithmetic aborts.
   */
  function EvalIntegerInfix(operator: string, left: I64, right: I64): (r: Evaluated)
    ensures r.Err? <==> InfixOpOf(operator).None?
    ensures r.Err? ==> r.message == INVALID_OPERATOR
    ensures r.Ok? ==> (r.value.Integer? <==> IsArithmetic(InfixOpOf(operator).value))
    ensures r.Ok? ==> (r.value.Boolean? <==> !IsArithmetic(InfixOpOf(operator).value))
    ensures r.Abort? ==> IsArithmetic(InfixOpOf(operator).value)
  {
    match InfixOpOf(operator)
    case None => Err(INVALID_OPERATOR)
    case Some(op) =>
      match op
      case Add => if InI64(left + right) then Ok(Integer(left + right)) else Abort(IntegerOverflow)
      case Sub => if InI64(left - right) then Ok(Integer(left - right)) else Abort(IntegerOverflow)
      case Mul => if InI64(left * right) then Ok(Integer(left * right)) else Abort(IntegerOverflow)
      case Div =>
        if right == 0 then Abort(DivisionByZero)
        else if left == MIN_I64 && right == -1 then Abort(IntegerOverflow)
        else
          DivisionInRange(left, right);
          Ok(Integer(TruncDiv(left, right)))
      case Rem =>
        if right == 0 then Abort(DivisionByZero)
        else if left == MIN_I64 && right == -1 then Abort(IntegerOverflow)
        else
          DivisionInRange(left, right);
          Ok(Integer(TruncRem(left, right)))
      case Eq => Ok(ToBoolObject(left == right))
      case Ne => Ok(ToBoolObject(left != right))
      case Gt => Ok(ToBoolObject(left > right))
      case Ge => Ok(ToBoolObject(left >= right))
      case Lt => Ok(ToBoolObject(left < right))
      case Le => Ok(ToBoolObject(left <= right))
  }

  lemma DivisionInRange(a: I64, b: I64)
    requires b != 0 && !(a == MIN_I64 && b == -1)
    ensures InI64(TruncDiv(a, b)) && InI64(TruncRem(a, b))
  {
    TruncDivision(a, b);
    QuotientBound(Abs(a), Abs(b));
  }

  /**
   * `eval_float_infix_expression`: the host's arithmetic, IEEE comparisons.
   * It never aborts; the only error is an unknown operator.
   */
  function EvalFloatInfix(host: HostFloat, operator: string, left: F64, right: F64): (r: Evaluated)
    ensures !r.Abort?
    ensures r.Err? <==> InfixOpOf(operator).None?
    ensures r.Ok? ==> (r.value.Float? <==> IsArithmetic(InfixOpOf(operator).value))
    ensures r.Ok? ==> (r.value.Boolean? <==> !IsArithmetic(InfixOpOf(operator).value))
  {
    match InfixOpOf(operator)
    case None => Err(INVALID_OPERATOR)
    case Some(op) =>
      match op
      case Add => Ok(Float(host.add(left, right)))
      case Sub => Ok(Float(host.sub(left, right)))
      case Mul => Ok(Float(host.mul(left, right)))
      case Div => Ok(Float(host.div(left, right)))
      case Rem => Ok(Float(host.rem(left, right)))
      case Eq => Ok(ToBoolObject(Floats.Eq(left, right)))
      case Ne => Ok(ToBoolObject(!Floats.Eq(left, right)))
      case Gt => Ok(ToBoolObject(Floats.Lt(right, left)))
      case Ge => Ok(ToBoolObject(Floats.Le(right, left)))
      case Lt => Ok(ToBoolObject(Floats.Lt(left, right)))
      case Le => Ok(ToBoolObject(Floats.Le(left, right)))
  }

  /**
   * `eval_infix_expression`: integers with integers, floats with floats or
   * integers (converted), and any other pair only under 🟰 and ❗🟰.  Only
   * integer arithmetic aborts, and the value is a number or a boolean.
   */
  function EvalInfix(host: HostFloat, operator: string, left: Object, right: Object): (r: Evaluated)
    ensures r.Abort? ==> left.Integer? && right.Integer?
    ensures r.Ok? ==> r.value.Integer? || r.value.Float? || r.value.Boolean?
  {
    if left.Integer? && right.Integer? then EvalIntegerInfix(operator, left.n, right.n)
    else if left.Integer? && right.Float? then EvalFloatInfix(host, operator, host.fromInt(left.n), right.x)
    else if left.Float? && right.Float? then EvalFloatInfix(host, operator, left.x, right.x)
    else if left.Float? && right.Integer? then EvalFloatInfix(host, operator, left.x, host.fromInt(right.n))
    else if operator == InfixSymbol(Eq) then Ok(ToBoolObject(ObjEq(left, right)))
    else if operator == InfixSymbol(Ne) then Ok(ToBoolObject(!ObjEq(left, right)))
    else Err(INVALID_INFIX)
  }

  /**
   * The truth value `not` negates: positive numbers, true, non-empty
   * strings.  Whatever it counts as true also holds as an if-condition.
   */
  predicate Truthy(obj: Object)
    ensures Truthy(obj) ==> ConditionHolds(obj)
  {
    match obj
    case Integer(n) => n > 0
    case Float(x) => Positive(x)
    case Boolean(b) => b
    case String(s) => |s| > 0
    case Null => false
    case ReturnValue(_) => false
  }

  /**
   * `eval_prefix_expression` with its `not` and minus helpers.  It aborts
   * only on the negation of the least i64, and gives a number or a boolean.
   */
  function EvalPrefix(operator: string, right: Object): (r: Evaluated)
    ensures r.Abort? <==> operator == MINUS_SYMBOL && right == Integer(MIN_I64)
    ensures r.Ok? ==> r.value.Integer? || r.value.Float? || r.value.Boolean?
  {
    if operator == NOT_SYMBOL then
      if right.ReturnValue? then Err(NOT_OF_RETURN) else Ok(ToBoolObject(!Truthy(right)))
    else if operator == MINUS_SYMBOL then
      match right
      case Integer(n) => if n == MIN_I64 then Abort(IntegerOverflow) else Ok(Integer(-n))
      case Float(x) => Ok(Float(Negate(x)))
      case _ => Err(MINUS_OF_NON_NUMBER)
    else Err(INVALID_PREFIX)
  }

  /**
   * The truth value of an if-condition: Null is false, a boolean itself,
   * anything else true, so exactly the shared NULL and FALSE fail.
   */
  predicate ConditionHolds(obj: Object)
    ensures !ConditionHolds(obj) <==> obj == NULL || obj == FALSE
  {
    match obj
    case Null => false
    case Boolean(b) => b
    case _ => true
  }

  /** Whether a statement's outcome ends a statement sequence: a returned value, or an abort. */
  predicate Stops(r: Evaluated) {
    r.Abort? || (r.Ok? && r.value.ReturnValue?)
  }

  /**
   * Whether a return statement can give the node's value: in the node
   * itself, one of its statements, an expression statement's expression, or
   * the branches of an if.
   */
  predicate HasReturn(node: Node)
    decreases node
  {
    match node
    case ReturnStatement(_, _) => true
    case Program(statements) => exists j :: 0 <= j < |statements| && HasReturn(statements[j])
    case BlockStatement(_, statements) => exists j :: 0 <= j < |statements| && HasReturn(statements[j])
    case ExpressionStatement(_, expression) => HasReturn(expression)
    case IfExpression(_, _, consequence, alternative) =>
      HasReturn(consequence) || (alternative.Some? && HasReturn(alternative.value))
    case _ => false
  }

  /** `eval`.  A returned value only comes out of a node with a return statement in it. */
  function Eval(host: HostFloat, node: Node): (r: Evaluated)
    ensures r.Ok? && r.value.ReturnValue? ==> HasReturn(node)
    decreases node, 2
  {
    match node
    case Program(statements) => ProgramResult(host, statements)
    case ExpressionStatement(_, expression) => Eval(host, expression)
    case IntegerLiteral(_, n) => Ok(Integer(n))
    case FloatLiteral(_, x) => Ok(Float(x))
    case BooleanLiteral(_, b) => Ok(Boolean(b))
    case StringLiteral(_, s) => Ok(String(s))
    case PrefixExpression(_, operator, right) =>
      (match Eval(host, right)
       case Ok(r) => EvalPrefix(operator, r)
       case other => other)
    case InfixExpression(_, left, operator, right) =>
      (match Eval(host, left)
       case Ok(l) =>
         (match Eval(host, right)
          case Ok(r) => EvalInfix(host, operator, l, r)
          case other => other)
       case other => other)
    case BlockStatement(_, statements) => BlockResult(host, statements)
    case IfExpression(_, condition, consequence, alternative) =>
      (match Eval(host, condition)
       case Ok(c) =>
         if ConditionHolds(c) then Eval(host, consequence)
         else if alternative.Some? then Eval(host, alternative.value)
         else Ok(NULL)
       case other => other)
    case ReturnStatement(_, returned) =>
      (match Eval(host, returned)
       case Ok(v) => Ok(ReturnValue(v))
       case other => other)
    case _ => Err(INVALID_NODE)
  }

  /** `eval_program`: the first returned value, unwrapped, or the last statement's outcome. */
  function ProgramResult(host: HostFloat, statements: seq<Node>): Evaluated
    decreases statements, 1
  {
    if |statements| == 0 then Err(EMPTY_STATEMENTS) else ProgramFrom(host, statements, 0)
  }

  function ProgramFrom(host: HostFloat, statements: seq<Node>, i: nat): (r: Evaluated)
    requires i < |statements|
    ensures r.Ok? && r.value.ReturnValue? ==> exists j :: i <= j < |statements| && HasReturn(statements[j])
    decreases statements, 0, |statements| - i
  {
    var r := Eval(host, statements[i]);
    if r.Ok? && r.value.ReturnValue? then Ok(r.value.inner)
    else if r.Abort? || i + 1 == |statements| then r
    else ProgramFrom(host, statements, i + 1)
  }

  /** `eval_block_statements`: the first returned value, still wrapped, or the last statement's outcome. */
  function BlockResult(host: HostFloat, statements: seq<Node>): Evaluated
    decreases statements, 1
  {
    if |statements| == 0 then Err(EMPTY_STATEMENTS) else BlockFrom(host, statements, 0)
  }

  function BlockFrom(host: HostFloat, statements: seq<Node>, i: nat): (r: Evaluated)
    requires i < |statements|
    ensures r.Ok? && r.value.ReturnValue? ==> exists j :: i <= j < |statements| && HasReturn(statements[j])
    decreases statements, 0, |statements| - i
  {
    var r := Eval(host, statements[i]);
    if Stops(r) || i + 1 == |statements| then r
    else BlockFrom(host, statements, i + 1)
  }

  /**
   * `eval_program` runs the statements in order.  It stops at the first
   * statement that returns a value, giving that value unwrapped; otherwise
   * the outcome is the last statement's, whatever the earlier ones gave.
   */
  method EvalProgram(host: HostFloat, statements: seq<Node>) returns (r: Evaluated)
    ensures r == ProgramResult(host, statements)
  {
    r := Err(EMPTY_STATEMENTS);
    var i := 0;
    while i < |statements|
      invariant i <= |statements|
      invariant i == 0 ==> r == Err(EMPTY_STATEMENTS)
      invariant 0 < i < |statements| ==> ProgramFrom(host, statements, i - 1) == ProgramFrom(host, statements, i)
      invariant 0 < i == |statements| ==> ProgramFrom(host, statements, i - 1) == r
      invariant 0 < i ==> ProgramResult(host, statements) == ProgramFrom(host, statements, i - 1)
      decreases |statements| - i
    {
      r := Eval(host, statements[i]);
      if r.Ok? && r.value.ReturnValue? {
        return Ok(r.value.inner);
      }
      if r.Abort? {
        return r;
      }
      i := i + 1;
    }
  }

  /**
   * `eval_block_statements` runs the statements in order and stops at the
   * first that returns a value, keeping it wrapped so that enclosing blocks
   * stop too; otherwise the outcome is the last statement's.
   */
  method EvalBlockStatements(host: HostFloat, statements: seq<Node>) returns (r: Evaluated)
    ensures r == BlockResult(host, statements)
  {
    r := Err(EMPTY_STATEMENTS);
    var i := 0;
    while i < |statements|
      invariant i <= |statements|
      invariant i == 0 ==> r == Err(EMPTY_STATEMENTS)
      invariant 0 < i < |statements| ==> BlockFrom(host, statements, i - 1) == BlockFrom(host, statements, i)
      invariant 0 < i == |statements| ==> BlockFrom(host, statements, i - 1) == r
      invariant 0 < i ==> BlockResult(host, statements) == BlockFrom(host, statements, i - 1)
      decreases |statements| - i
    {
      r := Eval(host, statements[i]);
      if Stops(r) {
        return r;
      }
      i := i + 1;
    }
  }

  /** What a program makes of a statement sequence's outcome: a returned value is unwrapped. */
  function Unwrap(r: Evaluated): Evaluated {
    if r.Ok? && r.value.ReturnValue? then Ok(r.value.inner) else r
  }

  /**
   * The outcome of a block is the outcome of the first statement that stops
   * (returns or aborts), or of the last one; the earlier statements' values
   * and errors are discarded.  Without statements it is the empty error.
   */
  lemma BlockOutcome(host: HostFloat, statements: seq<Node>, k: nat)
    requires k < |statements|
    requires forall j :: 0 <= j < k ==> !Stops(Eval(host, statements[j]))
    requires Stops(Eval(host, statements[k])) || k == |statements| - 1
    ensures BlockResult(host, []) == Err(EMPTY_STATEMENTS)
    ensures BlockResult(host, statements) == Eval(host, statements[k])
  {
    BlockFromOutcome(host, statements, 0, k);
  }

  lemma {:induction false} BlockFromOutcome(host: HostFloat, statements: seq<Node>, i: nat, k: nat)
    requires i <= k < |statements|
    requires forall j :: i <= j < k ==> !Stops(Eval(host, statements[j]))
    requires Stops(Eval(host, statements[k])) || k == |statements| - 1
    ensures BlockFrom(host, statements, i) == Eval(host, statements[k])
    decreases k - i
  {
    if i < k {
      BlockFromOutcome(host, statements, i + 1, k);
    }
  }

  /**
   * A program runs its statements exactly as a block does, but unwraps the
   * returned value it stops at.
   */
  lemma ProgramIsUnwrappedBlock(host: HostFloat, statements: seq<Node>)
    ensures ProgramResult(host, statements) == Unwrap(BlockResult(host, statements))
  {
    if |statements| > 0 {
      ProgramFromIsUnwrapped(host, statements, 0);
    }
  }

  lemma {:induction false} ProgramFromIsUnwrapped(host: HostFloat, statements: seq<Node>, i: nat)
    requires i < |statements|
    ensures ProgramFrom(host, statements, i) == Unwrap(BlockFrom(host, statements, i))
    decreases |statements| - i
  {
    if i + 1 < |statements| {
      ProgramFromIsUnwrapped(host, statements, i + 1);
    }
  }

  /**
   * Hence a program's outcome is the first returned value, unwrapped, or the
   * last statement's outcome.
   */
  lemma ProgramOutcome(host: HostFloat, statements: seq<Node>, k: nat)
    requires k < |statements|
    requires forall j :: 0 <= j < k ==> !Stops(Eval(host, statements[j]))
    requires Stops(Eval(host, statements[k])) || k == |statements| - 1
    ensures ProgramResult(host, []) == Err(EMPTY_STATEMENTS)
    ensures ProgramResult(host, statements) == Unwrap(Eval(host, statements[k]))
  {
    BlockOutcome(host, statements, k);
    ProgramIsUnwrappedBlock(host, statements);
  }

  /**
   * `not` yields the negated truth value as a boolean (so that `not not x`
   * is the truth value of x), and is an error on a returned value.
   */
  lemma NotNegates(obj: Object)
    ensures obj.ReturnValue? ==> EvalPrefix(NOT_SYMBOL, obj) == Err(NOT_OF_RETURN)
    ensures !obj.ReturnValue? ==> EvalPrefix(NOT_SYMBOL, obj) == Ok(Boolean(!Truthy(obj)))
    ensures !obj.ReturnValue? ==>
      EvalPrefix(NOT_SYMBOL, EvalPrefix(NOT_SYMBOL, obj).value) == Ok(Boolean(Truthy(obj)))
    ensures Truthy(Integer(0)) == false && Truthy(String("")) == false && Truthy(Null) == false
  {
  }

  /**
   * Minus negates numbers, so that applying it twice gives the number back;
   * negating the least i64 overflows; anything else is an error.  Any other
   * prefix operator is an error.
   */
  lemma MinusNegates(operator: string, obj: Object)
    ensures obj.Integer? && obj.n != MIN_I64 ==>
      EvalPrefix(MINUS_SYMBOL, obj) == Ok(Integer(-obj.n)) &&
      EvalPrefix(MINUS_SYMBOL, EvalPrefix(MINUS_SYMBOL, obj).value) == Ok(obj)
    ensures obj == Integer(MIN_I64) ==> EvalPrefix(MINUS_SYMBOL, obj) == Abort(IntegerOverflow)
    ensures obj.Float? ==>
      EvalPrefix(MINUS_SYMBOL, obj) == Ok(Float(Negate(obj.x))) &&
      EvalPrefix(MINUS_SYMBOL, EvalPrefix(MINUS_SYMBOL, obj).value) == Ok(obj)
    ensures !obj.Integer? && !obj.Float? ==> EvalPrefix(MINUS_SYMBOL, obj) == Err(MINUS_OF_NON_NUMBER)
    ensures operator != NOT_SYMBOL && operator != MINUS_SYMBOL ==> EvalPrefix(operator, obj) == Err(INVALID_PREFIX)
  {
    if obj.Float? {
      NegateMirrors(obj.x);
    }
  }

  /**
   * Integer ➗ and 〰️ are Rust's truncating division and remainder: the
   * dividend is divisor × quotient + remainder, with the remainder smaller
   * than the divisor and of the dividend's sign.  Dividing by zero aborts,
   * and so does the one overflowing case, i64::MIN by -1.
   */
  lemma IntegerDivision(left: I64, right: I64)
    ensures right == 0 ==>
      EvalIntegerInfix(InfixSymbol(Div), left, right) == Abort(DivisionByZero) &&
      EvalIntegerInfix(InfixSymbol(Rem), left, right) == Abort(DivisionByZero)
    ensures left == MIN_I64 && right == -1 ==>
      EvalIntegerInfix(InfixSymbol(Div), left, right) == Abort(IntegerOverflow) &&
      EvalIntegerInfix(InfixSymbol(Rem), left, right) == Abort(IntegerOverflow)
    ensures right != 0 && !(left == MIN_I64 && right == -1) ==>
      var q := EvalIntegerInfix(InfixSymbol(Div), left, right);
      var m := EvalIntegerInfix(InfixSymbol(Rem), left, right);
      q.Ok? && q.value.Integer? && m.Ok? && m.value.Integer? &&
      left == right * q.value.n + m.value.n &&
      Abs(m.value.n) < Abs(right) &&
      (m.value.n == 0 || (m.value.n < 0 <==> left < 0))
  {
    InfixSymbolsDistinct(Div);
    InfixSymbolsDistinct(Rem);
    if right != 0 {
      TruncDivision(left, right);
    }
  }

  /**
   * Integer ➕ and ➖ undo each other whenever neither overflows, and an
   * overflow aborts.
   */
  lemma AddSubtractInverse(left: I64, right: I64)
    ensures !InI64(left + right) ==> EvalIntegerInfix(InfixSymbol(Add), left, right) == Abort(IntegerOverflow)
    ensures InI64(left + right) ==>
      EvalIntegerInfix(InfixSymbol(Add), left, right) == Ok(Integer(left + right)) &&
      EvalIntegerInfix(InfixSymbol(Sub), left + right, right) == Ok(Integer(left))
  {
    InfixSymbolsDistinct(Add);
    InfixSymbolsDistinct(Sub);
  }

  /**
   * The four orderings give booleans that agree with each other: ▶️ is ◀️
   * swapped, ▶️🟰 and ◀️🟰 are the negations of ◀️ and ▶️.
   */
  lemma IntegerComparisons(left: I64, right: I64)
    ensures EvalIntegerInfix(InfixSymbol(Lt), left, right) == Ok(Boolean(left < right))
    ensures EvalIntegerInfix(InfixSymbol(Gt), left, right) == EvalIntegerInfix(InfixSymbol(Lt), right, left)
    ensures EvalIntegerInfix(InfixSymbol(Ge), left, right) == Ok(Boolean(!(left < right)))
    ensures EvalIntegerInfix(InfixSymbol(Le), left, right) == Ok(Boolean(!(left > right)))
  {
    assert EvalIntegerInfix(InfixSymbol(Lt), left, right) == Ok(Boolean(left < right)) by {
      InfixSymbolsDistinct(Lt);
    }
    assert EvalIntegerInfix(InfixSymbol(Lt), right, left) == Ok(Boolean(right < left)) by {
      InfixSymbolsDistinct(Lt);
    }
    assert EvalIntegerInfix(InfixSymbol(Gt), left, right) == Ok(Boolean(left > right)) by {
      InfixSymbolsDistinct(Gt);
    }
    assert EvalIntegerInfix(InfixSymbol(Ge), left, right) == Ok(Boolean(left >= right)) by {
      InfixSymbolsDistinct(Ge);
    }
    assert EvalIntegerInfix(InfixSymbol(Le), left, right) == Ok(Boolean(left <= right)) by {
      InfixSymbolsDistinct(Le);
    }
  }

  /** Whether an integer comparison evaluates to true. */
  predicate IntegerHolds(op: InfixOp, left: I64, right: I64) {
    EvalIntegerInfix(InfixSymbol(op), left, right) == Ok(Boolean(true))
  }

  /**
   * The integer comparisons fit together: exactly one of ◀️, 🟰 and ▶️
   * holds, 🟰 holds exactly of equal values, ❗🟰 exactly when 🟰 does not,
   * and ▶️🟰 and ◀️🟰 are ▶️ or 🟰 and ◀️ or 🟰.
   */
  lemma IntegerTrichotomy(left: I64, right: I64)
    ensures IntegerHolds(Lt, left, right) || IntegerHolds(Eq, left, right) || IntegerHolds(Gt, left, right)
    ensures !(IntegerHolds(Lt, left, right) && IntegerHolds(Eq, left, right))
    ensures !(IntegerHolds(Lt, left, right) && IntegerHolds(Gt, left, right))
    ensures !(IntegerHolds(Eq, left, right) && IntegerHolds(Gt, left, right))
    ensures IntegerHolds(Eq, left, right) <==> left == right
    ensures IntegerHolds(Ne, left, right) <==> !IntegerHolds(Eq, left, right)
    ensures IntegerHolds(Ge, left, right) <==> IntegerHolds(Gt, left, right) || IntegerHolds(Eq, left, right)
    ensures IntegerHolds(Le, left, right) <==> IntegerHolds(Lt, left, right) || IntegerHolds(Eq, left, right)
  {
    InfixSymbolsDistinct(Eq);
    InfixSymbolsDistinct(Ne);
    InfixSymbolsDistinct(Gt);
    InfixSymbolsDistinct(Ge);
    InfixSymbolsDistinct(Lt);
    InfixSymbolsDistinct(Le);
  }

  /** An operator text that names no operator is an error on integers and on floats. */
  lemma UnknownOperator(host: HostFloat, operator: string, left: I64, right: I64, x: F64, y: F64)
    requires forall op :: InfixSymbol(op) != operator
    ensures EvalIntegerInfix(operator, left, right) == Err(INVALID_OPERATOR)
    ensures EvalFloatInfix(host, operator, x, y) == Err(INVALID_OPERATOR)
  {
    if InfixOpOf(operator).Some? {
      InfixOpRoundTrip(operator, InfixOpOf(operator).value);
    }
  }

  predicate IsNumber(obj: Object) {
    obj.Integer? || obj.Float?
  }

  /**
   * Swapping the operands: 🟰 and ❗🟰 are symmetric on all values, ▶️ is ◀️
   * and ▶️🟰 is ◀️🟰 with the operands swapped, numbers of either kind and
   * mixed included.
   */
  lemma OperandSwap(host: HostFloat, left: Object, right: Object)
    ensures EvalInfix(host, InfixSymbol(Eq), left, right) == EvalInfix(host, InfixSymbol(Eq), right, left)
    ensures EvalInfix(host, InfixSymbol(Ne), left, right) == EvalInfix(host, InfixSymbol(Ne), right, left)
    ensures EvalInfix(host, InfixSymbol(Gt), left, right) == EvalInfix(host, InfixSymbol(Lt), right, left)
    ensures EvalInfix(host, InfixSymbol(Ge), left, right) == EvalInfix(host, InfixSymbol(Le), right, left)
  {
    InfixSymbolsDistinct(Eq);
    InfixSymbolsDistinct(Ne);
    InfixSymbolsDistinct(Gt);
    InfixSymbolsDistinct(Ge);
    InfixSymbolsDistinct(Lt);
    InfixSymbolsDistinct(Le);
    ObjEqSymmetric(left, right);
  }

  /** On every pair of values, ❗🟰 gives the negation of what 🟰 gives. */
  lemma NotEqualNegatesEqual(host: HostFloat, left: Object, right: Object)
    ensures EvalInfix(host, InfixSymbol(Eq), left, right).Ok?
    ensures EvalInfix(host, InfixSymbol(Eq), left, right).value.Boolean?
    ensures EvalInfix(host, InfixSymbol(Ne), left, right) ==
      Ok(Boolean(!EvalInfix(host, InfixSymbol(Eq), left, right).value.b))
  {
    InfixSymbolsDistinct(Eq);
    InfixSymbolsDistinct(Ne);
  }

  /**
   * Negating the condition of an if with ⏸️ swaps its branches when the
   * condition is a boolean, and a failing condition fails both alike.  The
   * integer 0 is where the two truth tests part: ⏸️ counts it as false and
   * the if as holding, so negating it does not swap the branches.
   */
  lemma NegatedCondition(host: HostFloat, t: Tokens.Token, u: Tokens.Token, condition: Node, consequence: Node, alternative: Node)
    ensures var negated := Eval(host, IfExpression(t, PrefixExpression(u, NOT_SYMBOL, condition), consequence, W.Some(alternative)));
      var swapped := Eval(host, IfExpression(t, condition, alternative, W.Some(consequence)));
      var c := Eval(host, condition);
      (!c.Ok? ==> negated == c && swapped == c) &&
      (c.Ok? && c.value.Boolean? ==> negated == swapped) &&
      (c == Ok(Integer(0)) ==> negated == Eval(host, consequence) && swapped == Eval(host, alternative))
  {
  }

  /** Integer arithmetic: literals under ➖ and the arithmetic infix operators. */
  predicate ArithmeticTree(node: Node)
    decreases node
  {
    match node
    case IntegerLiteral(_, _) => true
    case PrefixExpression(_, operator, right) => operator == MINUS_SYMBOL && ArithmeticTree(right)
    case InfixExpression(_, left, operator, right) =>
      InfixOpOf(operator).Some? && IsArithmetic(InfixOpOf(operator).value) &&
      ArithmeticTree(left) && ArithmeticTree(right)
    case _ => false
  }

  /**
   * Integer arithmetic never meets a type error: it gives an integer or
   * aborts (overflow, division by zero), failures of the operands
   * propagating to the whole expression.
   */
  lemma {:induction false} ArithmeticNeverErrs(host: HostFloat, node: Node)
    requires ArithmeticTree(node)
    ensures !Eval(host, node).Err?
    ensures Eval(host, node).Ok? ==> Eval(host, node).value.Integer?
    decreases node
  {
    match node
    case IntegerLiteral(_, _) =>
    case PrefixExpression(_, operator, right) =>
      ArithmeticNeverErrs(host, right);
    case InfixExpression(_, left, operator, right) =>
      ArithmeticNeverErrs(host, left);
      ArithmeticNeverErrs(host, right);
  }

  /**
   * Integer ✖️ and ➖ give the exact result when it fits in i64 and abort
   * otherwise; ✖️ is commutative, overflow included, and ➖ is ➕ of the
   * negated right operand.
   */
  lemma MultiplySubtractOverflow(left: I64, right: I64)
    ensures EvalIntegerInfix(InfixSymbol(Mul), left, right) ==
      if InI64(left * right) then Ok(Integer(left * right)) else Abort(IntegerOverflow)
    ensures EvalIntegerInfix(InfixSymbol(Mul), left, right) == EvalIntegerInfix(InfixSymbol(Mul), right, left)
    ensures EvalIntegerInfix(InfixSymbol(Sub), left, right) ==
      if InI64(left - right) then Ok(Integer(left - right)) else Abort(IntegerOverflow)
    ensures right != MIN_I64 ==>
      EvalIntegerInfix(InfixSymbol(Sub), left, right) == EvalIntegerInfix(InfixSymbol(Add), left, -right)
  {
    InfixSymbolsDistinct(Mul);
    InfixSymbolsDistinct(Sub);
    InfixSymbolsDistinct(Add);
  }

  /** Identifiers, assignments, loops, functions and calls have no evaluation rule. */
  lemma UnsupportedNodes(host: HostFloat, n: Node)
    requires n.Identifier? || n.AssignStatement? || n.WhileExpression? || n.FunctionLiteral? || n.CallExpression?
    ensures Eval(host, n) == Err(INVALID_NODE)
  {
  }
}
