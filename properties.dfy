/** Properties of statements, blocks and loops, stated over the functions of
    `Statements` (and so, through the method contracts of `Interpreter`,
    over what the interpreter object does). */
module StatementProperties {
  import opened Common
  import opened Tokens
  import opened Values
  import opened Blocks
  import opened Expressions
  import opened Statements

  // ---------------------------------------------------------------------
  // Statement lists

  /** A statement list that succeeds stops at a token that is not `;`:
      either a statement was not followed by `;`, or `;` was the last
      token. */
  lemma {:induction false} StatementListStopsOffSemicolon(src: Source, at: nat, env: Env)
    requires WellFormed(src) && at <= |src.toks|
    ensures var r := ExecStatementList(src, at, env);
            r.res.Ok? ==> KindAt(src, r.at) != SEMI
  {
    var s := ExecStatement(src, at, env);
    if s.res.Ok? {
      RestStopsOffSemicolon(src, s.at, s.res.value, s.env);
    }
  }

  lemma {:induction false} RestStopsOffSemicolon(src: Source, at: nat, last: Option<Value>, env: Env)
    requires WellFormed(src) && at <= |src.toks|
    ensures var r := StatementListRest(src, at, last, env);
            r.res.Ok? ==> KindAt(src, r.at) != SEMI
    decreases |src.toks| - at
  {
    if KindAt(src, at) == SEMI && KindAt(src, at + 1) != EOF {
      var s := ExecStatement(src, at + 1, env);
      if s.res.Ok? {
        RestStopsOffSemicolon(src, s.at, s.res.value, s.env);
      }
    }
  }

  /** One `;` directly before the end is accepted and consumed. */
  lemma TrailingSemicolonAccepted(src: Source, at: nat, env: Env)
    requires WellFormed(src) && at <= |src.toks|
    requires var s := ExecStatement(src, at, env);
             s.res.Ok? && KindAt(src, s.at) == SEMI && s.at + 1 == |src.toks|
    ensures var s := ExecStatement(src, at, env);
            ExecStatementList(src, at, env) == Step(s.res, |src.toks|, s.env)
  {
  }

  /** A statement that succeeds and is not followed by `;` is the last one:
      the list yields its value, stops where it stops and leaves its state. */
  lemma LastStatementDecides(src: Source, at: nat, env: Env)
    requires WellFormed(src) && at <= |src.toks|
    requires var s := ExecStatement(src, at, env);
             s.res.Ok? && KindAt(src, s.at) != SEMI
    ensures ExecStatementList(src, at, env) == ExecStatement(src, at, env)
  {
  }

  /** A statement followed by `;` and more is not the last one: its value is
      dropped and the rest of the list, run from the state it left, decides
      the outcome. */
  lemma EarlierStatementDiscarded(src: Source, at: nat, env: Env)
    requires WellFormed(src) && at <= |src.toks|
    requires var s := ExecStatement(src, at, env);
             s.res.Ok? && KindAt(src, s.at) == SEMI && KindAt(src, s.at + 1) != EOF
    ensures var s := ExecStatement(src, at, env);
            ExecStatementList(src, at, env) == ExecStatementList(src, s.at + 1, s.env)
  {
  }

  // ---------------------------------------------------------------------
  // Statements

  /** `loop`, `if` and `print` select their statement by the current token,
      an identifier followed by `=` an assignment; those yield no value.
      Anything else is a comparison, whose value the statement yields,
      stopping where it stops and changing nothing. */
  lemma StatementDispatch(src: Source, at: nat, env: Env)
    requires WellFormed(src) && at <= |src.toks|
    ensures KindAt(src, at) == LOOP ==> ExecStatement(src, at, env) == ExecLoop(src, at, env)
    ensures KindAt(src, at) == IF ==> ExecStatement(src, at, env) == ExecIf(src, at, env)
    ensures KindAt(src, at) == PRINT ==> ExecStatement(src, at, env) == ExecPrint(src, at, env)
    ensures KindAt(src, at) == ID && KindAt(src, at + 1) == ASSIGN ==>
              ExecStatement(src, at, env) == ExecAssignment(src, at, env)
    ensures var k := KindAt(src, at);
            var r := ExecStatement(src, at, env);
            (k in {LOOP, IF, PRINT} || (k == ID && KindAt(src, at + 1) == ASSIGN)) && r.res.Ok? ==>
              r.res.value == None
    ensures var k := KindAt(src, at);
            var r := ExecStatement(src, at, env);
            !(k in {LOOP, IF, PRINT} || (k == ID && KindAt(src, at + 1) == ASSIGN)) && r.res.Ok? ==>
              && r.env == env
              && EvalComparison(src, at, env.vars).Ok?
              && r.res.value == Some(EvalComparison(src, at, env.vars).value.v)
              && r.at == EvalComparison(src, at, env.vars).value.at
  {
  }

  /** An assignment changes the table entry of its own identifier and no
      other, and prints nothing; a failed one changes nothing. */
  lemma AssignmentFrame(src: Source, at: nat, env: Env)
    requires WellFormed(src) && at <= |src.toks|
    ensures var r := ExecAssignment(src, at, env);
            r.res.Ok? ==>
              var name := TokAt(src, at).value.s;
              && KindAt(src, at) == ID
              && r.env.printed == env.printed
              && name in r.env.vars
              && Ok(ValAt(r.env.vars[name], r.at)) == EvalExpr(src, at + 2, env.vars)
              && (forall y | y != name :: (y in r.env.vars <==> y in env.vars))
              && (forall y | y != name && y in env.vars :: r.env.vars[y] == env.vars[y])
    ensures ExecAssignment(src, at, env).res.Err? ==> ExecAssignment(src, at, env).env == env
  {
    var r := ExecAssignment(src, at, env);
    if r.res.Ok? {
      assert Expect(src, at, ID) == Ok(at + 1);
      assert Expect(src, at + 1, ASSIGN) == Ok(at + 2);
      var v := EvalExpr(src, at + 2, env.vars).value;
      assert r.env == env.(vars := env.vars[TokAt(src, at).value.s := v.v]);
    }
  }

  /** `print` appends exactly the value of its expression to the output and
      leaves the table alone. */
  lemma PrintAppends(src: Source, at: nat, env: Env)
    requires WellFormed(src) && at <= |src.toks|
    ensures var r := ExecPrint(src, at, env);
            r.res.Ok? ==>
              && KindAt(src, at) == PRINT
              && r.env.vars == env.vars
              && |r.env.printed| == |env.printed| + 1
              && r.env.printed[..|env.printed|] == env.printed
              && Ok(ValAt(r.env.printed[|env.printed|], r.at)) == EvalExpr(src, at + 1, env.vars)
  {
  }

  // ---------------------------------------------------------------------
  // `if`

  /** Both blocks are read before either runs: a malformed block anywhere
      in the statement (an unterminated else-block, say) raises before the
      then-block runs, whatever the condition, and nothing changes. */
  lemma IfReadsBothBlocksFirst(src: Source, at: nat, env: Env)
    requires WellFormed(src) && at <= |src.toks|
    requires ParseIfHeader(src, at, env.vars).Err?
    ensures ExecIf(src, at, env) == Fail(ParseIfHeader(src, at, env.vars).error, at, env)
  {
  }

  /** A false condition without `else` runs nothing and yields None. */
  lemma IfFalseWithoutElse(src: Source, at: nat, env: Env)
    requires WellFormed(src) && at <= |src.toks|
    requires var h := ParseIfHeader(src, at, env.vars);
             h.Ok? && !Truthy(h.value.cond) && h.value.elseBody.None?
    ensures ExecIf(src, at, env) == Step(Ok(None), ParseIfHeader(src, at, env.vars).value.at, env)
  {
  }

  /** When the header reads, exactly one of the bodies runs (or none, for a
      false condition without `else`): a true condition runs the
      then-block, a false one the else-block. */
  lemma IfRunsOneBlock(src: Source, at: nat, env: Env)
    requires WellFormed(src) && at <= |src.toks|
    requires ParseIfHeader(src, at, env.vars).Ok?
    ensures var h := ParseIfHeader(src, at, env.vars).value;
            var r := ExecIf(src, at, env);
            && r.at == h.at
            && (Truthy(h.cond) ==> Effect(if r.res.Err? then Some(r.res.error) else None, r.env)
                                     == RunBlock(src.text, h.thenBody, env))
            && (!Truthy(h.cond) && h.elseBody.Some? ==>
                  Effect(if r.res.Err? then Some(r.res.error) else None, r.env)
                    == RunBlock(src.text, h.elseBody.value, env))
  {
  }

  // ---------------------------------------------------------------------
  // Loops

  /** `loop n times { ... }` with an identifier `n` is read as a ranged
      loop, because an identifier after `loop` selects that form, and so
      fails on `times` where `from` is expected. */
  lemma IdentifierCountIsRangedLoop(src: Source, at: nat, env: Env)
    requires WellFormed(src) && at <= |src.toks|
    requires KindAt(src, at) == LOOP && KindAt(src, at + 1) == ID && KindAt(src, at + 2) == TIMES
    ensures ExecLoop(src, at, env) == Fail(SyntaxError(FROM, TIMES), at, env)
  {
    assert Expect(src, at, LOOP) == Ok(at + 1);
    assert Expect(src, at + 1, ID) == Ok(at + 2);
    assert Expect(src, at + 2, FROM) == Err(SyntaxError(FROM, TIMES));
    assert ParseRangedHeader(src, at + 1, env.vars) == Err(SyntaxError(FROM, TIMES));
  }

  /** A block body `c = c + 1`. */
  predicate Increments(text: string, body: seq<Tok>, c: string) {
    && WellFormed(Source(text, body))
    && |body| == 5
    && Ident(body[0], c) && body[1].kind == ASSIGN && Ident(body[2], c)
    && body[3].kind == PLUS && IntLit(body[4], 1)
  }

  /** The right-hand side `c + 1` evaluates to one more than `c`. */
  lemma IncrementValue(text: string, body: seq<Tok>, c: string, v: int, vars: map<string, Value>)
    requires Increments(text, body, c) && c in vars && vars[c] == Int(v)
    ensures EvalExpr(Source(text, body), 2, vars) == Ok(ValAt(Int(v + 1), 5))
  {
    var src := Source(text, body);
    assert EvalTerm(src, 2, vars) == Ok(ValAt(Int(v), 3)) by {
      assert EvalFactor(src, 2, vars) == Ok(ValAt(Int(v), 3));
      assert TermRest(src, 3, Int(v), vars) == Ok(ValAt(Int(v), 3));
    }
    assert EvalTerm(src, 4, vars) == Ok(ValAt(Int(1), 5)) by {
      assert EvalFactor(src, 4, vars) == Ok(ValAt(Int(1), 5));
      assert TermRest(src, 5, Int(1), vars) == Ok(ValAt(Int(1), 5));
    }
    assert Add(Int(v), Int(1)) == Ok(Int(v + 1));
    assert ExprRest(src, 5, Int(v + 1), vars) == Ok(ValAt(Int(v + 1), 5));
    assert ExprRest(src, 3, Int(v), vars) == Ok(ValAt(Int(v + 1), 5));
  }

  /** One run of `c = c + 1` adds one to `c` and changes nothing else. */
  lemma RunIncrement(text: string, body: seq<Tok>, c: string, v: int, env: Env)
    requires Increments(text, body, c) && c in env.vars && env.vars[c] == Int(v)
    ensures RunBlock(text, body, env) == Effect(None, env.(vars := env.vars[c := Int(v + 1)]))
  {
    var src := Source(text, body);
    IncrementValue(text, body, c, v, env.vars);
    var env' := env.(vars := env.vars[c := Int(v + 1)]);
    assert ExecAssignment(src, 0, env) == Step(Ok(None), 5, env') by {
      assert Expect(src, 0, ID) == Ok(1);
      assert TokAt(src, 0).value.s == c;
      assert Expect(src, 1, ASSIGN) == Ok(2);
    }
    assert ExecStatement(src, 0, env) == Step(Ok(None), 5, env') by {
      assert KindAt(src, 0) == ID && KindAt(src, 1) == ASSIGN;
    }
    assert StatementListRest(src, 5, None, env') == Step(Ok(None), 5, env');
    assert ExecStatementList(src, 0, env) == Step(Ok(None), 5, env');
    assert ExecProgram(src, 0, env) == Step(Ok(None), 5, env');
  }

  /** A block that, run in any state where `c` holds an integer, adds one
      to `c`, raises nothing and changes nothing else. */
  ghost predicate AddsOne(text: string, body: seq<Tok>, c: string)
    requires WellFormed(Source(text, body))
  {
    forall e: Env {:trigger RunBlock(text, body, e)} | c in e.vars && e.vars[c].Int? ::
      RunBlock(text, body, e) == Effect(None, e.(vars := e.vars[c := Int(e.vars[c].i + 1)]))
  }

  /** `c = c + 1` is such a block. */
  lemma IncrementAddsOne(text: string, body: seq<Tok>, c: string)
    requires Increments(text, body, c)
    ensures AddsOne(text, body, c)
  {
    forall e: Env | c in e.vars && e.vars[c].Int?
      ensures RunBlock(text, body, e) == Effect(None, e.(vars := e.vars[c := Int(e.vars[c].i + 1)]))
    {
      RunIncrement(text, body, c, e.vars[c].i, e);
    }
  }

  /** `n` runs of the counted loop over a block that adds one to `c` add
      exactly `n` to `c` (a `loop N times` runs it max(N, 0) times). */
  lemma {:induction false} CountedIncrement(text: string, body: seq<Tok>, c: string, v: int, n: nat, env: Env)
    requires WellFormed(Source(text, body)) && AddsOne(text, body, c)
    requires c in env.vars && env.vars[c] == Int(v)
    ensures CountedRun(text, body, n, env) == Effect(None, env.(vars := env.vars[c := Int(v + n)]))
    decreases n
  {
    if n == 0 {
      assert env.vars[c := Int(v)] == env.vars;
    } else {
      var env1 := env.(vars := env.vars[c := Int(v + 1)]);
      assert RunBlock(text, body, env) == Effect(None, env1);
      assert CountedRun(text, body, n, env) == CountedRun(text, body, n - 1, env1);
      CountedIncrement(text, body, c, v + 1, n - 1, env1);
      assert env1.vars[c := Int(v + 1 + (n - 1))] == env.vars[c := Int(v + n)];
    }
  }

  /** Writing the loop variable and `c` again overrides both earlier writes. */
  lemma RewriteBoth(m: map<string, Value>, name: string, c: string, a: Value, b: Value, a': Value, b': Value)
    requires name != c
    ensures m[name := a][c := b][name := a'][c := b'] == m[name := a'][c := b']
  {
  }

  /** `n` passes of the ranged loop over a block that adds one to `c` (the
      loop variable being another name) add `n` to `c` and leave the loop
      variable at the last value written, `i + (n - 1) * step` for the
      steps 1 and -1 the loop uses. */
  lemma {:induction false} RangedIncrementPasses(text: string, body: seq<Tok>, name: string, c: string,
                                                  i: int, step: int, n: nat, last: int, v: int, env: Env)
    requires WellFormed(Source(text, body)) && AddsOne(text, body, c)
    requires name != c && c in env.vars && env.vars[c] == Int(v)
    requires n >= 1 && ((step == 1 && last == i + (n - 1)) || (step == -1 && last == i - (n - 1)))
    ensures RangeRun(text, body, name, i, step, n, env)
            == Effect(None, env.(vars := env.vars[name := Int(last)][c := Int(v + n)]))
    decreases n
  {
    var env0 := env.(vars := env.vars[name := Int(i)]);
    var env1 := env0.(vars := env0.vars[c := Int(v + 1)]);
    assert env0.vars[c] == Int(v);
    assert RunBlock(text, body, env0) == Effect(None, env1);
    assert RangeRun(text, body, name, i, step, n, env) == RangeRun(text, body, name, i + step, step, n - 1, env1);
    var goal := env.(vars := env.vars[name := Int(last)][c := Int(v + n)]);
    if n == 1 {
      assert last == i;
      assert RangeRun(text, body, name, i + step, step, 0, env1) == Effect(None, env1);
      assert env1 == goal;
    } else {
      RangedIncrementPasses(text, body, name, c, i + step, step, n - 1, last, v + 1, env1);
      RewriteBoth(env.vars, name, c, Int(i), Int(v + 1), Int(last), Int(v + n));
      assert env1.(vars := env1.vars[name := Int(last)][c := Int(v + 1 + (n - 1))]) == goal;
    }
  }

  /** `loop i from A to B { c = c + 1 }` adds |B - A| + 1 to `c` and leaves
      `i` at B. */
  lemma RangedIncrement(text: string, body: seq<Tok>, name: string, c: string, start: int, end: int, v: int, env: Env)
    requires Increments(text, body, c) && name != c && c in env.vars && env.vars[c] == Int(v)
    ensures var step := if start <= end then 1 else -1;
            var count := (if end >= start then end - start else start - end) + 1;
            RangeRun(text, body, name, start, step, RangeCount(start, end), env)
              == Effect(None, env.(vars := env.vars[name := Int(end)][c := Int(v + count)]))
  {
    var step := if start <= end then 1 else -1;
    IncrementAddsOne(text, body, c);
    RangedIncrementPasses(text, body, name, c, start, step, RangeCount(start, end), end, v, env);
  }
}
