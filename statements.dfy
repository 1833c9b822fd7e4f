/** What `program`, `statement_list`, `statement` and the statement forms
    compute (interpreter.py:60-191), as functions of the token stream, the
    position the parse starts at and the state a run can change: the symbol
    table and the values printed so far.

    A block body is run by a fresh interpreter over the same table
    (interpreter.py:108,116,154,157): here `RunBlock` runs `ExecProgram` on
    the body's tokens from position 0.  A body is strictly shorter than the
    program it was cut from, which is what makes the recursion terminate. */
module Statements {
  import opened Common
  import opened Tokens
  import opened Values
  import opened Blocks
  import opened Expressions

  /** The state a run can change: the symbol table and the values printed. */
  datatype Env = Env(vars: map<string, Value>, printed: seq<Value>)

  /** The outcome of parsing and running a statement (list) from a position:
      the value it yields or the exception it raises, the position after it,
      and the state after it.  After an exception the state holds every
      change made before it. */
  datatype Step = Step(res: Result<Option<Value>, Error>, at: nat, env: Env)

  /** The outcome of running block bodies: the exception raised, if any, and
      the state after them. */
  datatype Effect = Effect(error: Option<Error>, env: Env)

  /** What every run preserves: no Bool ever enters the table, and output is
      only ever appended to. */
  predicate Evolves(env: Env, env': Env) {
    && (NoBools(env.vars) ==> NoBools(env'.vars))
    && env.printed <= env'.printed
  }

  function Fail(e: Error, at: nat, env: Env): Step {
    Step(Err(e), at, env)
  }

  /** A statement that ran its blocks for their effect yields None. */
  function Conclude(eff: Effect, at: nat): Step {
    Step(if eff.error.Some? then Err(eff.error.value) else Ok(None), at, eff.env)
  }

  /** program : statement_list */
  function ExecProgram(src: Source, at: nat, env: Env): (r: Step)
    requires WellFormed(src) && at <= |src.toks|
    ensures at <= r.at <= |src.toks| && Evolves(env, r.env)
    decreases |src.toks|, |src.toks| - at, 11
  {
    ExecStatementList(src, at, env)
  }

  /** statement_list : statement (';' statement)*, one `;` before EOF allowed;
      it yields the value of the last statement it ran. */
  function ExecStatementList(src: Source, at: nat, env: Env): (r: Step)
    requires WellFormed(src) && at <= |src.toks|
    ensures at <= r.at <= |src.toks| && Evolves(env, r.env)
    decreases |src.toks|, |src.toks| - at, 10
  {
    var s := ExecStatement(src, at, env);
    if s.res.Err? then s else StatementListRest(src, s.at, s.res.value, s.env)
  }

  /** The `while` loop of `statement_list`; `last` is the value of the
      statement run most recently. */
  function StatementListRest(src: Source, at: nat, last: Option<Value>, env: Env): (r: Step)
    requires WellFormed(src) && at <= |src.toks|
    ensures at <= r.at <= |src.toks| && Evolves(env, r.env)
    decreases |src.toks|, |src.toks| - at, 9
  {
    if KindAt(src, at) == SEMI then
      var next := at + 1;
      if KindAt(src, next) == EOF then Step(Ok(last), next, env)
      else
        var s := ExecStatement(src, next, env);
        if s.res.Err? then s else StatementListRest(src, s.at, s.res.value, s.env)
    else
      Step(Ok(last), at, env)
  }

  /** statement : loop | if | print | ID '=' expr | comparison, chosen by the
      current token and, for assignment, the one after it. */
  function ExecStatement(src: Source, at: nat, env: Env): (r: Step)
    requires WellFormed(src) && at <= |src.toks|
    ensures at <= r.at <= |src.toks| && Evolves(env, r.env)
    decreases |src.toks|, |src.toks| - at, 8
  {
    var k := KindAt(src, at);
    if k == LOOP then ExecLoop(src, at, env)
    else if k == IF then ExecIf(src, at, env)
    else if k == PRINT then ExecPrint(src, at, env)
    else if k == ID && KindAt(src, at + 1) == ASSIGN then ExecAssignment(src, at, env)
    else
      match EvalComparison(src, at, env.vars)
      case Err(e) => Fail(e, at, env)
      case Ok(c) => Step(Ok(Some(c.v)), c.at, env)
  }

  /** print_statement : 'print' expr; the value goes to the output. */
  function ExecPrint(src: Source, at: nat, env: Env): (r: Step)
    requires WellFormed(src) && at <= |src.toks|
    ensures at <= r.at <= |src.toks| && Evolves(env, r.env)
    decreases |src.toks|, |src.toks| - at, 7
  {
    match Expect(src, at, PRINT)
    case Err(e) => Fail(e, at, env)
    case Ok(a1) =>
      match EvalExpr(src, a1, env.vars)
      case Err(e) => Fail(e, at, env)
      case Ok(v) => Step(Ok(None), v.at, env.(printed := env.printed + [v.v]))
  }

  /** assignment_statement : ID '=' expr; stores the value under the name. */
  function ExecAssignment(src: Source, at: nat, env: Env): (r: Step)
    requires WellFormed(src) && at <= |src.toks|
    ensures at <= r.at <= |src.toks| && Evolves(env, r.env)
    decreases |src.toks|, |src.toks| - at, 7
  {
    match Expect(src, at, ID)
    case Err(e) => Fail(e, at, env)
    case Ok(a1) =>
      var name := TokAt(src, at).value.s;
      match Expect(src, a1, ASSIGN)
      case Err(e) => Fail(e, at, env)
      case Ok(a2) =>
        match EvalExpr(src, a2, env.vars)
        case Err(e) => Fail(e, at, env)
        case Ok(v) =>
          ExprNeverBool(src, a2, env.vars);
          Step(Ok(None), v.at, env.(vars := env.vars[name := v.v]))
  }

  /** The parts of `loop i from A to B { ... }` read before the loop runs. */
  datatype RangedHeader = RangedHeader(name: string, start: int, end: int, body: seq<Tok>, at: nat)

  /** `loop N times { ... }` read before the loop runs. */
  datatype CountedHeader = CountedHeader(times: int, body: seq<Tok>, at: nat)

  /** After `loop`: ID 'from' expr 'to' expr block, each bound through `int()`. */
  function ParseRangedHeader(src: Source, at: nat, vars: map<string, Value>): (r: Result<RangedHeader, Error>)
    requires WellFormed(src) && at <= |src.toks|
    ensures r.Ok? ==> at < r.value.at <= |src.toks| && |r.value.body| < |src.toks|
    ensures r.Ok? ==> WellFormed(Source(src.text, r.value.body))
  {
    var a1 :- Expect(src, at, ID);
    var name := TokAt(src, at).value.s;
    var a2 :- Expect(src, a1, FROM);
    var s :- EvalExpr(src, a2, vars);
    var start :- ToInt(s.v);
    var a3 :- Expect(src, s.at, TO);
    var e :- EvalExpr(src, a3, vars);
    var end :- ToInt(e.v);
    var b :- ScanBlock(src, e.at);
    Ok(RangedHeader(name, start, end, b.block.body, b.at))
  }

  /** After `loop`: expr 'times' block, the count through `int()`. */
  function ParseCountedHeader(src: Source, at: nat, vars: map<string, Value>): (r: Result<CountedHeader, Error>)
    requires WellFormed(src) && at <= |src.toks|
    ensures r.Ok? ==> at < r.value.at <= |src.toks| && |r.value.body| < |src.toks|
    ensures r.Ok? ==> WellFormed(Source(src.text, r.value.body))
  {
    var s :- EvalExpr(src, at, vars);
    var times :- ToInt(s.v);
    var a1 :- Expect(src, s.at, TIMES);
    var b :- ScanBlock(src, a1);
    Ok(CountedHeader(times, b.block.body, b.at))
  }

  /** The number of values `range(start, end + step, step)` yields: at
      least one, stepping by 1 or -1 from `start`, the last being `end`. */
  function RangeCount(start: int, end: int): (n: nat)
    ensures n >= 1
    ensures start <= end ==> start + (n - 1) == end
    ensures end < start ==> start - (n - 1) == end
  {
    if start <= end then end - start + 1 else start - end + 1
  }

  /** loop_statement: an ID right after `loop` selects the ranged form. */
  function ExecLoop(src: Source, at: nat, env: Env): (r: Step)
    requires WellFormed(src) && at <= |src.toks|
    ensures at <= r.at <= |src.toks| && Evolves(env, r.env)
    decreases |src.toks|, |src.toks| - at, 7
  {
    match Expect(src, at, LOOP)
    case Err(e) => Fail(e, at, env)
    case Ok(a1) =>
      if KindAt(src, a1) == ID then
        match ParseRangedHeader(src, a1, env.vars)
        case Err(e) => Fail(e, at, env)
        case Ok(h) =>
          var step := if h.start <= h.end then 1 else -1;
          Conclude(RangeRun(src.text, h.body, h.name, h.start, step, RangeCount(h.start, h.end), env), h.at)
      else
        match ParseCountedHeader(src, a1, env.vars)
        case Err(e) => Fail(e, at, env)
        case Ok(h) => Conclude(CountedRun(src.text, h.body, Max0(h.times), env), h.at)
  }

  /** The parts of `if c then { ... } else { ... }` read before either block
      runs: the condition's value and both bodies. */
  datatype IfHeader = IfHeader(cond: Value, thenBody: seq<Tok>, elseBody: Option<seq<Tok>>, at: nat)

  function ParseIfHeader(src: Source, at: nat, vars: map<string, Value>): (r: Result<IfHeader, Error>)
    requires WellFormed(src) && at <= |src.toks|
    ensures r.Ok? ==> at < r.value.at <= |src.toks| && |r.value.thenBody| < |src.toks|
    ensures r.Ok? ==> WellFormed(Source(src.text, r.value.thenBody))
    ensures r.Ok? && r.value.elseBody.Some? ==>
              |r.value.elseBody.value| < |src.toks| && WellFormed(Source(src.text, r.value.elseBody.value))
  {
    var a1 :- Expect(src, at, IF);
    var c :- EvalComparison(src, a1, vars);
    var a2 :- Expect(src, c.at, THEN);
    IfBlocks(src, a2, c.v)
  }

  /** The then-block and, after `else`, the else-block. */
  function IfBlocks(src: Source, at: nat, cond: Value): (r: Result<IfHeader, Error>)
    requires WellFormed(src) && at <= |src.toks|
    ensures r.Ok? ==> at < r.value.at <= |src.toks| && |r.value.thenBody| < |src.toks|
    ensures r.Ok? ==> WellFormed(Source(src.text, r.value.thenBody))
    ensures r.Ok? && r.value.elseBody.Some? ==>
              |r.value.elseBody.value| < |src.toks| && WellFormed(Source(src.text, r.value.elseBody.value))
  {
    var tb :- ScanBlock(src, at);
    if KindAt(src, tb.at) == ELSE then
      var eb :- ScanBlock(src, tb.at + 1);
      Ok(IfHeader(cond, tb.block.body, Some(eb.block.body), eb.at))
    else
      Ok(IfHeader(cond, tb.block.body, None, tb.at))
  }

  /** if_statement: both blocks are cut out first, then at most one runs. */
  function ExecIf(src: Source, at: nat, env: Env): (r: Step)
    requires WellFormed(src) && at <= |src.toks|
    ensures at <= r.at <= |src.toks| && Evolves(env, r.env)
    decreases |src.toks|, |src.toks| - at, 7
  {
    match ParseIfHeader(src, at, env.vars)
    case Err(e) => Fail(e, at, env)
    case Ok(h) =>
      var eff :=
        if Truthy(h.cond) then RunBlock(src.text, h.thenBody, env)
        else if h.elseBody.Some? then RunBlock(src.text, h.elseBody.value, env)
        else Effect(None, env);
      Conclude(eff, h.at)
  }

  /** A fresh interpreter over a block body, sharing the state, runs
      `program` once. */
  function RunBlock(text: string, body: seq<Tok>, env: Env): (r: Effect)
    requires WellFormed(Source(text, body))
    ensures Evolves(env, r.env)
    decreases |body|, |body| + 1, 0
  {
    var s := ExecProgram(Source(text, body), 0, env);
    Effect(if s.res.Err? then Some(s.res.error) else None, s.env)
  }

  /** `for _ in range(n)`: the body runs `n` times, stopping at an exception. */
  function CountedRun(text: string, body: seq<Tok>, n: nat, env: Env): (r: Effect)
    requires WellFormed(Source(text, body))
    ensures Evolves(env, r.env)
    decreases |body|, |body| + 1, n
  {
    if n == 0 then Effect(None, env)
    else
      var e := RunBlock(text, body, env);
      if e.error.Some? then e else CountedRun(text, body, n - 1, e.env)
  }

  /** `n` more passes of the ranged loop, the next value being `i`: the value
      is written to the loop variable, then the body runs. */
  function RangeRun(text: string, body: seq<Tok>, name: string, i: int, step: int, n: nat, env: Env): (r: Effect)
    requires WellFormed(Source(text, body))
    ensures Evolves(env, r.env)
    decreases |body|, |body| + 1, n
  {
    if n == 0 then Effect(None, env)
    else
      var e := RunBlock(text, body, env.(vars := env.vars[name := Int(i)]));
      if e.error.Some? then e else RangeRun(text, body, name, i + step, step, n - 1, e.env)
  }
}
