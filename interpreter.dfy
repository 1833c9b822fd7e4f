/** The interpreter object (interpreter.py:38-273): a recursive-descent
    parser fused with an evaluator, reading its program through a two-token
    buffer and updating a symbol table that it shares, by reference, with
    every sub-interpreter it starts for a block.

    The lexer an interpreter pulls from is its program `src` and the stream
    position `cursor` of the current token: pulling a token is reading
    `TokAt(src, ...)` one position further on.  Output of `print` goes to an
    `Output` object, shared the same way as the table.

    Every method is proved to compute what the function of the same
    statement or expression in `Expressions`/`Statements` computes from the
    position and the state it started in. */
module Interpreter {
  import opened Common
  import opened Tokens
  import opened Values
  import opened Blocks
  import opened Expressions
  import opened Statements

  /** The variables: a dict updated in place and shared by reference. */
  class SymbolTable {
    var vars: map<string, Value>

    constructor ()
      ensures vars == map[]
    {
      vars := map[];
    }
  }

  /** Everything `print` has written, in order. */
  class Output {
    var printed: seq<Value>

    constructor ()
      ensures printed == []
    {
      printed := [];
    }
  }

  /** An expression method's outcome, with the position it stopped at. */
  function Located(r: Result<Value, Error>, at: nat): Result<ValAt, Error> {
    match r
    case Ok(v) => Ok(ValAt(v, at))
    case Err(e) => Err(e)
  }

  /** A statement method's outcome agrees with the step `s`: same value or
      exception, same state, and on success the same end position. */
  predicate Matches(s: Step, r: Result<Option<Value>, Error>, at: nat, env: Env) {
    r == s.res && env == s.env && (r.Ok? ==> at == s.at)
  }

  class Interpreter {
    const src: Source
    const table: SymbolTable
    const out: Output
    var cursor: nat
    var currentToken: Tok
    var nextToken: Tok

    /** The buffer holds the token at the cursor and the one after it. */
    predicate Valid()
      reads this
    {
      && WellFormed(src)
      && cursor <= |src.toks|
      && currentToken == TokAt(src, cursor)
      && nextToken == TokAt(src, cursor + 1)
    }

    function State(): Env
      reads table, out
    {
      Env(table.vars, out.printed)
    }

    /** Pulls the first two tokens; takes over the table it is given, or
        starts with an empty one. */
    constructor (src: Source, shared: Option<SymbolTable>, out: Output)
      requires WellFormed(src)
      ensures Valid() && this.src == src && this.out == out && cursor == 0
      ensures shared.Some? ==> table == shared.value
      ensures shared.None? ==> fresh(table) && table.vars == map[]
    {
      this.src := src;
      cursor := 0;
      currentToken := TokAt(src, 0);
      nextToken := TokAt(src, 1);
      if shared.Some? {
        table := shared.value;
      } else {
        table := new SymbolTable();
      }
      this.out := out;
    }

    /** `_advance`: the next token becomes current and exactly one new token
        is pulled into the buffer. */
    method Advance()
      requires Valid()
      modifies this
      ensures Valid()
      ensures currentToken == old(nextToken) && cursor == Bump(src, old(cursor))
    {
      currentToken := nextToken;
      cursor := Bump(src, cursor);
      nextToken := TokAt(src, cursor + 1);
    }

    /** `eat(k)`: advances when the current token has kind `k`, and raises a
        syntax error naming both kinds, leaving the buffer alone, otherwise. */
    method Eat(k: Kind) returns (err: Option<Error>)
      requires Valid()
      modifies this
      ensures Valid() && old(cursor) <= cursor
      ensures old(currentToken.kind) == k ==>
                err == None && currentToken == old(nextToken) && cursor == Bump(src, old(cursor))
      ensures old(currentToken.kind) != k ==>
                err == Some(SyntaxError(k, old(currentToken.kind))) && cursor == old(cursor)
      ensures Expect(src, old(cursor), k) == if err.None? then Ok(cursor) else Err(err.value)
    {
      if currentToken.kind == k {
        Advance();
        err := None;
      } else {
        err := Some(SyntaxError(k, currentToken.kind));
      }
    }

    /** `program` */
    method Program() returns (r: Result<Option<Value>, Error>)
      requires Valid()
      modifies this, table, out
      ensures Valid() && old(cursor) <= cursor
      ensures Matches(ExecProgram(src, old(cursor), old(State())), r, cursor, State())
      decreases |src.toks|, |src.toks| - cursor, 11
    {
      r := StatementList();
    }

    /** `statement_list`: the value of the last statement run. */
    method StatementList() returns (r: Result<Option<Value>, Error>)
      requires Valid()
      modifies this, table, out
      ensures Valid() && old(cursor) <= cursor
      ensures Matches(ExecStatementList(src, old(cursor), old(State())), r, cursor, State())
      decreases |src.toks|, |src.toks| - cursor, 10
    {
      ghost var at0, env0 := cursor, State();
      var first :- Statement();
      var results := [first];
      while currentToken.kind == SEMI
        invariant Valid() && at0 <= cursor && |results| > 0
        invariant ExecStatementList(src, at0, env0) == StatementListRest(src, cursor, results[|results| - 1], State())
        decreases |src.toks| - cursor
      {
        ghost var semi, env, last := cursor, State(), results[|results| - 1];
        var _ := Eat(SEMI);
        assert cursor == semi + 1;
        if currentToken.kind == EOF {
          assert StatementListRest(src, semi, last, env) == Step(Ok(last), cursor, env);
          break;
        }
        var s :- Statement();
        assert StatementListRest(src, semi, last, env) == StatementListRest(src, cursor, s, State());
        results := results + [s];
      }
      return Ok(results[|results| - 1]);
    }

    /** `statement`: dispatch on the current token, and on the next one to
        tell an assignment from a comparison starting with a variable. */
    method Statement() returns (r: Result<Option<Value>, Error>)
      requires Valid()
      modifies this, table, out
      ensures Valid() && old(cursor) <= cursor
      ensures Matches(ExecStatement(src, old(cursor), old(State())), r, cursor, State())
      decreases |src.toks|, |src.toks| - cursor, 8
    {
      if currentToken.kind == LOOP {
        r := LoopStatement();
      } else if currentToken.kind == IF {
        r := IfStatement();
      } else if currentToken.kind == PRINT {
        r := PrintStatement();
      } else if currentToken.kind == ID && nextToken.kind == ASSIGN {
        r := AssignmentStatement();
      } else {
        var v :- Comparison();
        r := Ok(Some(v));
      }
    }

    /** `print_statement`: the value is appended to the output. */
    method PrintStatement() returns (r: Result<Option<Value>, Error>)
      requires Valid()
      modifies this, table, out
      ensures Valid() && old(cursor) <= cursor
      ensures Matches(ExecPrint(src, old(cursor), old(State())), r, cursor, State())
      decreases |src.toks|, |src.toks| - cursor, 7
    {
      var err := Eat(PRINT);
      if err.Some? {
        return Err(err.value);
      }
      var value :- Expr();
      out.printed := out.printed + [value];
      return Ok(None);
    }

    /** `assignment_statement`: the value is stored under the identifier. */
    method AssignmentStatement() returns (r: Result<Option<Value>, Error>)
      requires Valid()
      modifies this, table, out
      ensures Valid() && old(cursor) <= cursor
      ensures Matches(ExecAssignment(src, old(cursor), old(State())), r, cursor, State())
      decreases |src.toks|, |src.toks| - cursor, 7
    {
      var variable := currentToken;
      var err := Eat(ID);
      if err.Some? {
        return Err(err.value);
      }
      err := Eat(ASSIGN);
      if err.Some? {
        return Err(err.value);
      }
      var value :- Expr();
      table.vars := table.vars[variable.value.s := value];
      return Ok(None);
    }

    /** `loop_statement`: an identifier after `loop` selects the ranged form;
        otherwise the counted form.  Header and block are read before the
        body runs. */
    method LoopStatement() returns (r: Result<Option<Value>, Error>)
      requires Valid()
      modifies this, table, out
      ensures Valid() && old(cursor) <= cursor
      ensures Matches(ExecLoop(src, old(cursor), old(State())), r, cursor, State())
      decreases |src.toks|, |src.toks| - cursor, 7
    {
      var err := Eat(LOOP);
      if err.Some? {
        return Err(err.value);
      }
      var failed;
      if currentToken.kind == ID {
        var h :- ReadRangedHeader();
        failed := RunRange(h.body, h.name, h.start, h.end);
      } else {
        var h :- ReadCountedHeader();
        failed := RunTimes(h.body, h.times);
      }
      if failed.Some? {
        return Err(failed.value);
      }
      return Ok(None);
    }

    /** The ranged loop up to its block: `ID from expr to expr { ... }`, each
        bound passed through `int()`. */
    method ReadRangedHeader() returns (r: Result<RangedHeader, Error>)
      requires Valid()
      modifies this
      ensures Valid() && old(cursor) <= cursor
      ensures r == ParseRangedHeader(src, old(cursor), table.vars)
      ensures r.Ok? ==> cursor == r.value.at
    {
      var varName := if currentToken.kind == ID then currentToken.value.s else [];
      var err := Eat(ID);
      if err.Some? {
        return Err(err.value);
      }
      err := Eat(FROM);
      if err.Some? {
        return Err(err.value);
      }
      var a :- Expr();
      var startVal :- ToInt(a);
      err := Eat(TO);
      if err.Some? {
        return Err(err.value);
      }
      var b :- Expr();
      var endVal :- ToInt(b);
      var blockCode :- Block();
      return Ok(RangedHeader(varName, startVal, endVal, blockCode.body, cursor));
    }

    /** The counted loop up to its block: `expr times { ... }`, the count
        passed through `int()`. */
    method ReadCountedHeader() returns (r: Result<CountedHeader, Error>)
      requires Valid()
      modifies this
      ensures Valid() && old(cursor) <= cursor
      ensures r == ParseCountedHeader(src, old(cursor), table.vars)
      ensures r.Ok? ==> cursor == r.value.at
    {
      var n :- Expr();
      var times :- ToInt(n);
      var err := Eat(TIMES);
      if err.Some? {
        return Err(err.value);
      }
      var blockCode :- Block();
      return Ok(CountedHeader(times, blockCode.body, cursor));
    }

    /** `for i in range(start, end + step, step)` of the ranged loop: the
        loop variable is written before each run of the body. */
    method RunRange(body: seq<Tok>, name: string, start: int, end: int) returns (err: Option<Error>)
      requires WellFormed(Source(src.text, body))
      modifies table, out
      ensures var step := if start <= end then 1 else -1;
              RangeRun(src.text, body, name, start, step, RangeCount(start, end), old(State())) == Effect(err, State())
      decreases |body|, |body| + 1, 2
    {
      var step := if start <= end then 1 else -1;
      ghost var env0 := State();
      ghost var n := RangeCount(start, end);
      var i := start;
      while i != end + step
        invariant if step == 1 then i <= end + 1 && n == end + 1 - i else i >= end - 1 && n == i - end + 1
        invariant RangeRun(src.text, body, name, start, step, RangeCount(start, end), env0)
                  == RangeRun(src.text, body, name, i, step, n, State())
        decreases n
      {
        ghost var pass := State();
        assert n >= 1;
        table.vars := table.vars[name := Int(i)];
        assert State() == pass.(vars := pass.vars[name := Int(i)]);
        var failed := RunBody(body);
        if failed.Some? {
          return failed;
        }
        assert RangeRun(src.text, body, name, i, step, n, pass)
               == RangeRun(src.text, body, name, i + step, step, n - 1, State());
        i := i + step;
        n := n - 1;
      }
      return None;
    }

    /** `for _ in range(times)` of the counted loop. */
    method RunTimes(body: seq<Tok>, times: int) returns (err: Option<Error>)
      requires WellFormed(Source(src.text, body))
      modifies table, out
      ensures CountedRun(src.text, body, Max0(times), old(State())) == Effect(err, State())
      decreases |body|, |body| + 1, 2
    {
      ghost var env0 := State();
      var k := 0;
      while k < times
        invariant 0 <= k <= Max0(times)
        invariant CountedRun(src.text, body, Max0(times), env0)
                  == CountedRun(src.text, body, Max0(times) - k, State())
      {
        var failed := RunBody(body);
        if failed.Some? {
          return failed;
        }
        k := k + 1;
      }
      return None;
    }

    /** A sub-interpreter over a block body, sharing this table and output,
        runs `program` once. */
    method RunBody(body: seq<Tok>) returns (err: Option<Error>)
      requires WellFormed(Source(src.text, body))
      modifies table, out
      ensures RunBlock(src.text, body, old(State())) == Effect(err, State())
      decreases |body|, |body| + 1, 1
    {
      var sub := new Interpreter(Source(src.text, body), Some(table), out);
      var res := sub.Program();
      err := if res.Err? then Some(res.error) else None;
    }

    /** `block`: eats `{`, walks the tokens with a nesting counter up to the
        `}` that brings it to 0, cuts the code out of the text, eats `}`.
        Reaching EOF first raises. */
    method Block() returns (r: Result<BlockCode, Error>)
      requires Valid()
      modifies this
      ensures Valid() && old(cursor) <= cursor
      ensures ScanBlock(src, old(cursor)) == match r
                                             case Ok(b) => Ok(BlockAt(b, cursor))
                                             case Err(e) => Err(e)
    {
      var err := Eat(LBRACE);
      if err.Some? {
        return Err(err.value);
      }
      var startPos := currentToken.start;
      var first := cursor;
      var endPos :- WalkToClose();
      var blockCode := BlockCode(Slice(src.text, startPos, endPos), src.toks[first..cursor]);
      err := Eat(RBRACE);
      return Ok(blockCode);
    }

    /** The `while nesting > 0` walk of `block`, from the token after `{`:
        stops on the `}` that brings the counter from 1 to 0 and yields its
        text offset, or raises on reaching EOF first. */
    method WalkToClose() returns (r: Result<nat, Error>)
      requires Valid()
      modifies this
      ensures Valid() && old(cursor) <= cursor
      ensures match MatchClose(src.toks, old(cursor), 1)
              case None => r == Err(UnterminatedBlock)
              case Some(c) => cursor == c && r == Ok(src.toks[c].start)
    {
      var nesting := 1;
      ghost var first := cursor;
      // runs until EOF or the `}` that brings the counter from 1 to 0
      while currentToken.kind != EOF && !(currentToken.kind == RBRACE && nesting == 1)
        invariant Valid() && first <= cursor && nesting >= 1
        invariant MatchClose(src.toks, first, 1) == MatchClose(src.toks, cursor, nesting)
        decreases |src.toks| - cursor
      {
        MatchCloseStep(src.toks, cursor, nesting);
        nesting := nesting + Delta(currentToken);
        Advance();
      }
      if currentToken.kind == EOF {
        EofOnlyAtEnd(src, cursor);
        return Err(UnterminatedBlock);
      }
      return Ok(currentToken.start);
    }

    /** `if_statement`: condition and both blocks are read first; then at
        most one block runs, chosen by the condition's truth value. */
    method IfStatement() returns (r: Result<Option<Value>, Error>)
      requires Valid()
      modifies this, table, out
      ensures Valid() && old(cursor) <= cursor
      ensures Matches(ExecIf(src, old(cursor), old(State())), r, cursor, State())
      decreases |src.toks|, |src.toks| - cursor, 7
    {
      var h :- ReadIfHeader();
      var failed: Option<Error> := None;
      if Truthy(h.cond) {
        failed := RunBody(h.thenBody);
      } else if h.elseBody.Some? {
        failed := RunBody(h.elseBody.value);
      }
      if failed.Some? {
        return Err(failed.value);
      }
      return Ok(None);
    }

    /** `if comparison then { ... } (else { ... })?` read up to the end. */
    method ReadIfHeader() returns (r: Result<IfHeader, Error>)
      requires Valid()
      modifies this
      ensures Valid() && old(cursor) <= cursor
      ensures r == ParseIfHeader(src, old(cursor), table.vars)
      ensures r.Ok? ==> cursor == r.value.at
    {
      var err := Eat(IF);
      if err.Some? {
        return Err(err.value);
      }
      var condition :- Comparison();
      err := Eat(THEN);
      if err.Some? {
        return Err(err.value);
      }
      r := ReadIfBlocks(condition);
    }

    /** The blocks of `if_statement`: the then-block, and the else-block
        when `else` follows it. */
    method ReadIfBlocks(condition: Value) returns (r: Result<IfHeader, Error>)
      requires Valid()
      modifies this
      ensures Valid() && old(cursor) <= cursor
      ensures r == IfBlocks(src, old(cursor), condition)
      ensures r.Ok? ==> cursor == r.value.at
    {
      var thenBlock :- Block();
      var elseBody: Option<seq<Tok>> := None;
      if currentToken.kind == ELSE {
        var _ := Eat(ELSE);
        var elseBlock :- Block();
        elseBody := Some(elseBlock.body);
      }
      return Ok(IfHeader(condition, thenBlock.body, elseBody, cursor));
    }

    /** `comparison`: an expression, optionally compared with a second one. */
    method Comparison() returns (r: Result<Value, Error>)
      requires Valid()
      modifies this
      ensures Valid() && old(cursor) <= cursor
      ensures Located(r, cursor) == EvalComparison(src, old(cursor), table.vars)
      decreases |src.toks|, |src.toks| - cursor, 6
    {
      ghost var at0 := cursor;
      var result :- Expr();
      if IsComparison(currentToken.kind) {
        ComparisonWithOperator(src, at0, table.vars, ValAt(result, cursor));
        var op := currentToken.kind;
        var _ := Eat(op);
        r := CompareWith(op, result);
        return;
      }
      return Ok(result);
    }

    /** The rest of `comparison` once the operator `op` has been eaten: the
        right operand, and the comparison of `left` with it. */
    method CompareWith(op: Kind, left: Value) returns (r: Result<Value, Error>)
      requires Valid() && IsComparison(op)
      modifies this
      ensures Valid() && old(cursor) <= cursor
      ensures Located(r, cursor) == ComparisonRest(src, old(cursor), op, left, table.vars)
      decreases |src.toks|, |src.toks| - cursor, 6
    {
      var right :- Expr();
      var v :- Compare(op, left, right);
      return Ok(v);
    }

    /** `factor` */
    method Factor() returns (r: Result<Value, Error>)
      requires Valid()
      modifies this
      ensures Valid() && old(cursor) <= cursor
      ensures Located(r, cursor) == EvalFactor(src, old(cursor), table.vars)
      decreases |src.toks|, |src.toks| - cursor, 1
    {
      var token := currentToken;
      if token.kind == PLUS {
        var _ := Eat(PLUS);
        var f :- Factor();
        return Pos(f);
      }
      if token.kind == MINUS {
        var _ := Eat(MINUS);
        var f :- Factor();
        return Neg(f);
      }
      if token.kind == INTEGER {
        var _ := Eat(INTEGER);
        return Ok(Int(token.value.n));
      } else if token.kind == STRING {
        var _ := Eat(STRING);
        return Ok(Str(token.value.s));
      } else if token.kind == LPAREN {
        var _ := Eat(LPAREN);
        var result :- Expr();
        var err := Eat(RPAREN);
        if err.Some? {
          return Err(err.value);
        }
        return Ok(result);
      } else if token.kind == ID {
        var name := token.value.s;
        var _ := Eat(ID);
        if name !in table.vars {
          return Err(UndefinedVariable(name));
        }
        return Ok(table.vars[name]);
      } else {
        return Err(InvalidFactor(token.kind));
      }
    }

    /** `term`: folds `*`, `/` and `//` from the left; a zero divisor raises
        before any division. */
    method Term() returns (r: Result<Value, Error>)
      requires Valid()
      modifies this
      ensures Valid() && old(cursor) <= cursor
      ensures Located(r, cursor) == EvalTerm(src, old(cursor), table.vars)
      decreases |src.toks|, |src.toks| - cursor, 3
    {
      ghost var at0 := cursor;
      var result :- Factor();
      while IsMulOp(currentToken.kind)
        invariant Valid() && at0 <= cursor
        invariant EvalTerm(src, at0, table.vars) == TermRest(src, cursor, result, table.vars)
        decreases |src.toks| - cursor
      {
        var op := currentToken;
        if op.kind == ASTERISK {
          var _ := Eat(ASTERISK);
          var f :- Factor();
          result :- Mul(result, f);
        } else if op.kind == SLASH {
          var _ := Eat(SLASH);
          var divisor :- Factor();
          if IsZero(divisor) {
            return Err(DivisionByZero);
          }
          // The quotient would be a float, which is not modelled.
          var quotient := TrueDiv(result, divisor);
          return Err(quotient.error);
        } else {
          var _ := Eat(IDIV);
          var divisor :- Factor();
          if IsZero(divisor) {
            return Err(DivisionByZero);
          }
          result :- FloorDivide(result, divisor);
        }
      }
      return Ok(result);
    }

    /** `expr`: folds `+` (through `_safe_add`) and `-` from the left. */
    method Expr() returns (r: Result<Value, Error>)
      requires Valid()
      modifies this
      ensures Valid() && old(cursor) <= cursor
      ensures Located(r, cursor) == EvalExpr(src, old(cursor), table.vars)
      decreases |src.toks|, |src.toks| - cursor, 5
    {
      ghost var at0 := cursor;
      var result :- Term();
      while IsAddOp(currentToken.kind)
        invariant Valid() && at0 <= cursor
        invariant EvalExpr(src, at0, table.vars) == ExprRest(src, cursor, result, table.vars)
        decreases |src.toks| - cursor
      {
        var op := currentToken;
        if op.kind == PLUS {
          var _ := Eat(PLUS);
          var t :- Term();
          result :- Add(result, t);
        } else {
          var _ := Eat(MINUS);
          var t :- Term();
          result :- Sub(result, t);
        }
      }
      return Ok(result);
    }
  }
}
