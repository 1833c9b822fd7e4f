/** What `factor`, `term`, `expr` and `comparison` compute
    (interpreter.py:161-180 and 193-273), as functions of the token stream,
    the position the parse starts at and the symbol table, which they only
    read.  Each yields the value and the stream position after it, or the
    exception the Python code raises. */
module Expressions {
  import opened Common
  import opened Tokens
  import opened Values

  datatype ValAt = ValAt(v: Value, at: nat)

  /** No variable holds a Bool: assignments store `expr` results and loops
      store integers, so the table always satisfies this. */
  predicate NoBools(vars: map<string, Value>) {
    forall x | x in vars :: !vars[x].Bool?
  }

  /** `eat(k)` at stream position `at`: one token on when the current token
      has kind `k`, a syntax error naming both kinds otherwise. */
  function Expect(src: Source, at: nat, k: Kind): (r: Result<nat, Error>)
    requires at <= |src.toks|
    ensures r.Ok? <==> KindAt(src, at) == k
    ensures r.Ok? ==> at <= r.value <= |src.toks| && (k != EOF ==> r.value == at + 1)
    ensures r.Err? ==> r.error == SyntaxError(k, KindAt(src, at))
  {
    if KindAt(src, at) == k then Ok(Bump(src, at)) else Err(SyntaxError(k, KindAt(src, at)))
  }

  /** factor : ('+'|'-') factor | INTEGER | STRING | '(' expr ')' | ID */
  function EvalFactor(src: Source, at: nat, vars: map<string, Value>): (r: Result<ValAt, Error>)
    requires WellFormed(src) && at <= |src.toks|
    ensures r.Ok? ==> at < r.value.at <= |src.toks|
    decreases |src.toks|, |src.toks| - at, 1
  {
    var t := TokAt(src, at);
    if t.kind == PLUS || t.kind == MINUS then
      match EvalFactor(src, at + 1, vars)
      case Err(e) => Err(e)
      case Ok(f) =>
        match (if t.kind == PLUS then Pos(f.v) else Neg(f.v))
        case Err(e) => Err(e)
        case Ok(v) => Ok(ValAt(v, f.at))
    else if t.kind == INTEGER then Ok(ValAt(Int(t.value.n), at + 1))
    else if t.kind == STRING then Ok(ValAt(Str(t.value.s), at + 1))
    else if t.kind == LPAREN then
      match EvalExpr(src, at + 1, vars)
      case Err(e) => Err(e)
      case Ok(e) =>
        match Expect(src, e.at, RPAREN)
        case Err(err) => Err(err)
        case Ok(close) => Ok(ValAt(e.v, close))
    else if t.kind == ID then
      if t.value.s in vars then Ok(ValAt(vars[t.value.s], at + 1))
      else Err(UndefinedVariable(t.value.s))
    else Err(InvalidFactor(t.kind))
  }

  predicate IsMulOp(k: Kind) {
    k == ASTERISK || k == SLASH || k == IDIV
  }

  /** The operator of one `term` loop step; `/` and `//` test the divisor
      for zero before dividing. */
  function MulOp(k: Kind, a: Value, b: Value): Result<Value, Error>
    requires IsMulOp(k)
  {
    if k == ASTERISK then Mul(a, b)
    else if k == SLASH then TrueDiv(a, b)
    else FloorDivide(a, b)
  }

  /** term : factor (('*' | '/' | '//') factor)* */
  function EvalTerm(src: Source, at: nat, vars: map<string, Value>): (r: Result<ValAt, Error>)
    requires WellFormed(src) && at <= |src.toks|
    ensures r.Ok? ==> at < r.value.at <= |src.toks|
    decreases |src.toks|, |src.toks| - at, 3
  {
    match EvalFactor(src, at, vars)
    case Err(e) => Err(e)
    case Ok(f) => TermRest(src, f.at, f.v, vars)
  }

  /** The `while` loop of `term`, with the value folded so far in `acc`. */
  function TermRest(src: Source, at: nat, acc: Value, vars: map<string, Value>): (r: Result<ValAt, Error>)
    requires WellFormed(src) && at <= |src.toks|
    ensures r.Ok? ==> at <= r.value.at <= |src.toks|
    decreases |src.toks|, |src.toks| - at, 2
  {
    var k := KindAt(src, at);
    if IsMulOp(k) then
      match EvalFactor(src, at + 1, vars)
      case Err(e) => Err(e)
      case Ok(f) =>
        match MulOp(k, acc, f.v)
        case Err(e) => Err(e)
        case Ok(v) => TermRest(src, f.at, v, vars)
    else
      Ok(ValAt(acc, at))
  }

  predicate IsAddOp(k: Kind) {
    k == PLUS || k == MINUS
  }

  /** The operator of one `expr` loop step: `+` is `_safe_add`. */
  function AddOp(k: Kind, a: Value, b: Value): Result<Value, Error>
    requires IsAddOp(k)
  {
    if k == PLUS then Add(a, b) else Sub(a, b)
  }

  /** expr : term (('+' | '-') term)* */
  function EvalExpr(src: Source, at: nat, vars: map<string, Value>): (r: Result<ValAt, Error>)
    requires WellFormed(src) && at <= |src.toks|
    ensures r.Ok? ==> at < r.value.at <= |src.toks|
    decreases |src.toks|, |src.toks| - at, 5
  {
    match EvalTerm(src, at, vars)
    case Err(e) => Err(e)
    case Ok(t) => ExprRest(src, t.at, t.v, vars)
  }

  /** The `while` loop of `expr`, with the value folded so far in `acc`. */
  function ExprRest(src: Source, at: nat, acc: Value, vars: map<string, Value>): (r: Result<ValAt, Error>)
    requires WellFormed(src) && at <= |src.toks|
    ensures r.Ok? ==> at <= r.value.at <= |src.toks|
    decreases |src.toks|, |src.toks| - at, 4
  {
    var k := KindAt(src, at);
    if IsAddOp(k) then
      match EvalTerm(src, at + 1, vars)
      case Err(e) => Err(e)
      case Ok(t) =>
        match AddOp(k, acc, t.v)
        case Err(e) => Err(e)
        case Ok(v) => ExprRest(src, t.at, v, vars)
    else
      Ok(ValAt(acc, at))
  }

  /** comparison : expr (('==' | '!=' | '<' | '>' | '<=' | '>=') expr)? */
  function EvalComparison(src: Source, at: nat, vars: map<string, Value>): (r: Result<ValAt, Error>)
    requires WellFormed(src) && at <= |src.toks|
    ensures r.Ok? ==> at < r.value.at <= |src.toks|
  {
    match EvalExpr(src, at, vars)
    case Err(err) => Err(err)
    case Ok(e) =>
      var k := KindAt(src, e.at);
      if IsComparison(k) then ComparisonRest(src, e.at + 1, k, e.v, vars)
      else Ok(e)
  }

  /** The right operand of `comparison`, read from `at` after the operator
      `op`, compared with the left operand `left`; the result is a bool. */
  function ComparisonRest(src: Source, at: nat, op: Kind, left: Value, vars: map<string, Value>): (r: Result<ValAt, Error>)
    requires WellFormed(src) && at <= |src.toks| && IsComparison(op)
    ensures r.Ok? ==> at < r.value.at <= |src.toks| && r.value.v.Bool?
  {
    match EvalExpr(src, at, vars)
    case Err(e) => Err(e)
    case Ok(rhs) =>
      match Compare(op, left, rhs.v)
      case Err(e) => Err(e)
      case Ok(v) => Ok(ValAt(v, rhs.at))
  }

  /** `comparison` with an operator after its left operand `e` reads the
      right operand after that operator. */
  lemma ComparisonWithOperator(src: Source, at: nat, vars: map<string, Value>, e: ValAt)
    requires WellFormed(src) && at <= |src.toks|
    requires EvalExpr(src, at, vars) == Ok(e) && IsComparison(KindAt(src, e.at))
    ensures EvalComparison(src, at, vars) == ComparisonRest(src, e.at + 1, KindAt(src, e.at), e.v, vars)
  {
  }

  // ---------------------------------------------------------------------
  // Properties

  /** With no Bool in the table no expression yields a Bool: only a
      comparison makes one, and every arithmetic operator turns a Bool
      operand into an Int or a Str. */
  lemma {:induction false} FactorNeverBool(src: Source, at: nat, vars: map<string, Value>)
    requires WellFormed(src) && at <= |src.toks|
    ensures NoBools(vars) && EvalFactor(src, at, vars).Ok? ==> !EvalFactor(src, at, vars).value.v.Bool?
    decreases |src.toks|, |src.toks| - at, 1
  {
    var t := TokAt(src, at);
    if t.kind == LPAREN {
      ExprNeverBool(src, at + 1, vars);
    } else if NoBools(vars) && t.kind == ID && t.value.s in vars {
      assert !vars[t.value.s].Bool?;
    }
  }

  lemma {:induction false} TermNeverBool(src: Source, at: nat, vars: map<string, Value>)
    requires WellFormed(src) && at <= |src.toks|
    ensures NoBools(vars) && EvalTerm(src, at, vars).Ok? ==> !EvalTerm(src, at, vars).value.v.Bool?
    decreases |src.toks|, |src.toks| - at, 3
  {
    FactorNeverBool(src, at, vars);
    var f := EvalFactor(src, at, vars);
    if f.Ok? {
      TermRestNeverBool(src, f.value.at, f.value.v, vars);
    }
  }

  lemma {:induction false} TermRestNeverBool(src: Source, at: nat, acc: Value, vars: map<string, Value>)
    requires WellFormed(src) && at <= |src.toks|
    ensures NoBools(vars) && !acc.Bool? && TermRest(src, at, acc, vars).Ok? ==> !TermRest(src, at, acc, vars).value.v.Bool?
    decreases |src.toks|, |src.toks| - at, 2
  {
    var k := KindAt(src, at);
    if IsMulOp(k) {
      var f := EvalFactor(src, at + 1, vars);
      if f.Ok? {
        var v := MulOp(k, acc, f.value.v);
        if v.Ok? {
          TermRestNeverBool(src, f.value.at, v.value, vars);
        }
      }
    }
  }

  lemma {:induction false} ExprNeverBool(src: Source, at: nat, vars: map<string, Value>)
    requires WellFormed(src) && at <= |src.toks|
    ensures NoBools(vars) && EvalExpr(src, at, vars).Ok? ==> !EvalExpr(src, at, vars).value.v.Bool?
    decreases |src.toks|, |src.toks| - at, 5
  {
    TermNeverBool(src, at, vars);
    var t := EvalTerm(src, at, vars);
    if t.Ok? {
      ExprRestNeverBool(src, t.value.at, t.value.v, vars);
    }
  }

  lemma {:induction false} ExprRestNeverBool(src: Source, at: nat, acc: Value, vars: map<string, Value>)
    requires WellFormed(src) && at <= |src.toks|
    ensures NoBools(vars) && !acc.Bool? && ExprRest(src, at, acc, vars).Ok? ==> !ExprRest(src, at, acc, vars).value.v.Bool?
    decreases |src.toks|, |src.toks| - at, 4
  {
    var k := KindAt(src, at);
    if IsAddOp(k) {
      var t := EvalTerm(src, at + 1, vars);
      if t.Ok? {
        var v := AddOp(k, acc, t.value.v);
        if v.Ok? {
          ExprRestNeverBool(src, t.value.at, v.value, vars);
        }
      }
    }
  }

  /** Reading an identifier that is not in the table raises NameError, at
      every level of the expression grammar that starts with it. */
  lemma UndefinedVariableRaises(src: Source, at: nat, vars: map<string, Value>)
    requires WellFormed(src) && at <= |src.toks|
    requires KindAt(src, at) == ID && TokAt(src, at).value.s !in vars
    ensures var e := Err(UndefinedVariable(TokAt(src, at).value.s));
            && EvalFactor(src, at, vars) == e
            && EvalTerm(src, at, vars) == e
            && EvalExpr(src, at, vars) == e
            && EvalComparison(src, at, vars) == e
  {
  }

  /** `/` and `//` raise the division error whenever the divisor evaluates to
      zero, whatever the left operand is, before any division happens. */
  lemma ZeroDivisorRaises(src: Source, at: nat, acc: Value, vars: map<string, Value>)
    requires WellFormed(src) && at <= |src.toks|
    requires KindAt(src, at) == SLASH || KindAt(src, at) == IDIV
    requires EvalFactor(src, at + 1, vars).Ok? && IsZero(EvalFactor(src, at + 1, vars).value.v)
    ensures TermRest(src, at, acc, vars) == Err(DivisionByZero)
  {
  }

  /** Token shapes used by the lemmas below. */
  predicate IntLit(t: Tok, n: int) {
    t.kind == INTEGER && t.value == IntP(n)
  }

  predicate Ident(t: Tok, name: string) {
    t.kind == ID && t.value == TextP(name)
  }

  /** `a - b - c` is `(a - b) - c`: the loop of `expr` folds from the left. */
  lemma MinusIsLeftAssociative(src: Source, a: int, b: int, c: int, vars: map<string, Value>)
    requires WellFormed(src) && |src.toks| == 5
    requires IntLit(src.toks[0], a) && src.toks[1].kind == MINUS && IntLit(src.toks[2], b)
    requires src.toks[3].kind == MINUS && IntLit(src.toks[4], c)
    ensures EvalExpr(src, 0, vars) == Ok(ValAt(Int((a - b) - c), 5))
  {
    assert EvalTerm(src, 0, vars) == Ok(ValAt(Int(a), 1)) by {
      assert EvalFactor(src, 0, vars) == Ok(ValAt(Int(a), 1));
      assert TermRest(src, 1, Int(a), vars) == Ok(ValAt(Int(a), 1));
    }
    assert EvalTerm(src, 2, vars) == Ok(ValAt(Int(b), 3)) by {
      assert EvalFactor(src, 2, vars) == Ok(ValAt(Int(b), 3));
      assert TermRest(src, 3, Int(b), vars) == Ok(ValAt(Int(b), 3));
    }
    assert EvalTerm(src, 4, vars) == Ok(ValAt(Int(c), 5)) by {
      assert EvalFactor(src, 4, vars) == Ok(ValAt(Int(c), 5));
      assert TermRest(src, 5, Int(c), vars) == Ok(ValAt(Int(c), 5));
    }
    assert ExprRest(src, 5, Int((a - b) - c), vars) == Ok(ValAt(Int((a - b) - c), 5));
    assert ExprRest(src, 3, Int(a - b), vars) == Ok(ValAt(Int((a - b) - c), 5));
    assert ExprRest(src, 1, Int(a), vars) == Ok(ValAt(Int((a - b) - c), 5));
  }

  /** `a // b // c` is `(a // b) // c`: the loop of `term` folds from the
      left too, so `8 // 4 // 2` is 1 and not 8 // (4 // 2) = 4. */
  lemma FloorDivIsLeftAssociative(src: Source, a: int, b: int, c: int, vars: map<string, Value>)
    requires WellFormed(src) && |src.toks| == 5 && b != 0 && c != 0
    requires IntLit(src.toks[0], a) && src.toks[1].kind == IDIV && IntLit(src.toks[2], b)
    requires src.toks[3].kind == IDIV && IntLit(src.toks[4], c)
    ensures EvalTerm(src, 0, vars) == Ok(ValAt(Int(FloorDiv(FloorDiv(a, b), c)), 5))
  {
    var ab := FloorDiv(a, b);
    assert EvalFactor(src, 0, vars) == Ok(ValAt(Int(a), 1));
    assert EvalFactor(src, 2, vars) == Ok(ValAt(Int(b), 3));
    assert EvalFactor(src, 4, vars) == Ok(ValAt(Int(c), 5));
    assert TermRest(src, 5, Int(FloorDiv(ab, c)), vars) == Ok(ValAt(Int(FloorDiv(ab, c)), 5));
    assert TermRest(src, 3, Int(ab), vars) == Ok(ValAt(Int(FloorDiv(ab, c)), 5));
    assert TermRest(src, 1, Int(a), vars) == Ok(ValAt(Int(FloorDiv(ab, c)), 5));
  }

  lemma EightFloorFourFloorTwo()
    ensures FloorDiv(FloorDiv(8, 4), 2) == 1 && FloorDiv(8, FloorDiv(4, 2)) == 4
  {
  }
}
