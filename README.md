# Cacti in Dafny

Cacti is a small scripting language. It has integers, strings, `+ - * / //`,
comparisons, assignment, `print`, `if … then { … } else { … }`, counted loops
(`loop N times { … }`) and ranged loops (`loop i from A to B { … }`). Its
implementation has two parts:

- a character-level lexer, lexer.py;
- an interpreter, interpreter.py. It parses and evaluates in one pass over a
  two-token lookahead buffer. A block is not turned into a tree. The
  interpreter cuts the block's code out of the program text. A fresh
  sub-interpreter runs that code on every pass, sharing the caller's symbol
  table by reference.

This project models both parts in Dafny and proves properties of the model.

**Lexer.** The `Lexer.Lexer` class keeps the source's fields `pos` and
`current_char` and has the source's methods (`advance`, `integer`, `_id`,
`peek`, `get_next_token`). Each method is proved against the pure
description in `LexerSpec`. `LexerAsWritten` models the two-character
operator checks exactly as lexer.py writes them; see "## Findings".

**Interpreter.** The `Interpreter.Interpreter` class has a program, a cursor
into its token stream and the two buffered tokens. It also holds a
`SymbolTable` object and an `Output` object, both shared by reference with
every sub-interpreter. Each method is proved to compute what its pure
counterpart computes:

- `Expressions` holds `factor`, `term`, `expr` and `comparison`
  (`Factor`/`EvalFactor`, `Term`/`EvalTerm`, `Expr`/`EvalExpr`,
  `Comparison`/`EvalComparison`, `CompareWith`/`ComparisonRest`).
- `Statements` holds the statements and loops (`Program`/`ExecProgram`,
  `StatementList`/`ExecStatementList`, `Statement`/`ExecStatement`,
  `PrintStatement`/`ExecPrint`, `AssignmentStatement`/`ExecAssignment`,
  `LoopStatement`/`ExecLoop`, `IfStatement`/`ExecIf`, `RunBody`/`RunBlock`,
  `RunTimes`/`CountedRun`, `RunRange`/`RangeRun`).
- `Blocks` holds block extraction (`Block`/`ScanBlock`,
  `WalkToClose`/`MatchClose`).

Those functions take the program, the start position and the state (the
table and everything printed so far). The properties are proved as lemmas
about them:

- `Blocks` covers brace matching.
- `Expressions` covers values and errors.
- `StatementProperties` covers statement lists, assignment, `print`, `if`
  and loops.

Values follow Python's rules (`Values`):

- `bool` counts as an `int`.
- `str * int` repeats the string.
- `//` floors.
- Strings order by code point.
- `+`, `-`, `/`, `//` and the ordering comparisons raise TypeError on a
  string mixed with a number; `*` raises on two strings; `==` and `!=` on a
  string and a number yield False and True.

interpreter.py imports token kinds (strings, braces, `;`, `//`, `loop`,
`times`, `from`, `to`, `else`, `print`) and reads a `token_start_pos`
attribute, and lexer.py defines neither. The lexer that provides them is
not part of this model. The interpreter side therefore reads its own token
type (`Tokens`): each token carries its kind, its payload and the text
offset where it starts, and the model takes these as given.

Two points where the source says less than one might expect:

- The docstring at interpreter.py:93 names the form `loop N times`, but
  interpreter.py:96-99 sends every `loop` followed by an identifier to the
  ranged form. So `loop n times { … }` with a variable `n` fails with a
  syntax error on `times`, where `from` is expected; the model does the same.
- lexer.py:37-41 reserves only `if`, `then` and `end`, matched
  case-insensitively; every other word is an identifier.

## Model

| member | source | states |
|---|---|---|
| Values.Truthy | interpreter.py:153-158 | a value is false exactly when it is `0`, `""` or `False` |
| Values.Add | interpreter.py:252-260 | succeeds exactly when both operands are strings or both are numbers; strings concatenate (length and both halves stated), numbers add; otherwise TypeError |
| Values.Sub | interpreter.py:270-272 | succeeds exactly for two numbers, yielding their difference; a string operand is a TypeError |
| Values.Repeat | interpreter.py:235-237 | `s * n` has length `len(s) * max(n, 0)` |
| Values.RepeatAt | interpreter.py:235-237 | character `i` of copy `j` of a repeated string is character `i` of the string |
| Values.Mul | interpreter.py:235-237 | fails exactly for two strings; numbers multiply; a string times a number is a string of `len(s) * max(n, 0)` characters; never yields a bool |
| Values.TrueDiv | interpreter.py:238-243 | a zero divisor (`0` or `False`) raises the division error before anything else; otherwise a string operand is a TypeError and two numbers are the float case |
| Values.FloorDiv | interpreter.py:244-249 | the quotient is rounded toward negative infinity for either sign of the divisor |
| Values.FloorDivide | interpreter.py:244-249 | a zero divisor raises the division error; it succeeds with an int exactly for two numbers and a non-zero divisor; otherwise TypeError |
| Values.Pos | interpreter.py:199-201 | unary `+` succeeds exactly for numbers and yields the number as an int |
| Values.Neg | interpreter.py:202-204 | unary `-` succeeds exactly for numbers and yields the negated number as an int |
| Values.ToInt | interpreter.py:100-112 | `int()` of a loop bound succeeds exactly for numbers and yields their value |
| Values.PyEq | interpreter.py:168-171 | Python `==`: reflexive; never true between a string and a number; two strings are equal exactly when identical |
| Values.LexLess | interpreter.py:172-175 | Python `<` on strings: a proper prefix comes first, and nothing is less than one of its prefixes |
| Values.Less | interpreter.py:172-179 | `<` succeeds exactly when both operands are strings or both are numbers; otherwise TypeError |
| Values.Compare | interpreter.py:164-179 | each comparison yields a bool; `==` and `!=` always succeed with Python equality and its negation; ordering fails exactly on mixed kinds |
| Values.MixedComparison | interpreter.py:168-179 | a string against a number: `==` is False, `!=` is True, every ordering raises TypeError |
| Values.LexLessIrreflexive | interpreter.py:172-173 | no string is less than itself |
| Values.LexLessTransitive | interpreter.py:172-175 | string order is transitive |
| Values.LexLessTotal | interpreter.py:172-175 | any two strings are equal or ordered one way or the other |
| Values.StrLessEqIsNotGreater | interpreter.py:176-177 | `a <= b` on strings is `not (b < a)` |
| Tokens.Slice | interpreter.py:138 | Python's `text[a:b]`: the plain slice when the bounds are in order and inside the text, empty when `b <= a` |
| Tokens.Bump | interpreter.py:48-50 | pulling a token moves one position on, except at EOF, where the stream stays put |
| Tokens.EofOnlyAtEnd | interpreter.py:126-127 | in a well-formed program EOF is read exactly at the end of the token stream |
| Tokens.WellFormedSlice | interpreter.py:108 | the tokens of a block, over the same text, are again a well-formed program |
| LexerSpec.RunEnd | lexer.py:58-71 | the end of the maximal run of digits (or alphanumerics): every character before it is in the run, the one at it is not |
| LexerSpec.NatDigits | lexer.py:58-64 | every number has a non-empty decimal spelling made of digits |
| LexerSpec.DigitsValueOfNatDigits | lexer.py:58-64 | reading a number's decimal spelling gives the number back |
| LexerSpec.LeadingZero | lexer.py:58-64 | a leading zero does not change a numeral's value |
| LexerSpec.ToLower | lexer.py:74 | lower-casing keeps the length |
| LexerSpec.DigitsValue | lexer.py:64 | `int()` of a digit string is zero exactly when every digit is `0` |
| LexerSpec.KeywordOrId | lexer.py:74 | a word is an identifier with its own spelling exactly when its lower-case form is not in `RESERVED_KEYWORDS` (lexer.py:37-41); otherwise it is that keyword, valued by the lower-case spelling |
| LexerSpec.SingleCharKind | lexer.py:127-169 | exactly `< > = ( ) + - * /` are single-character operators, none of them EOF, a literal or a two-character operator |
| LexerSpec.SingleChar | lexer.py:127-171 | a single-character operator is one position long and valued by its character; any other character raises naming it |
| LexerSpec.KeywordOrIdCases | lexer.py:37-41 | a word is a keyword exactly when its lower-case form is reserved, with the lower-case spelling as value; any other word is an identifier that keeps its spelling |
| LexerSpec.KeywordsIgnoreCase | lexer.py:74 | any capitalisation of `if`, `then` or `end` yields that keyword |
| LexerSpec.ScanAt | lexer.py:98-171 | a token read at a non-blank character consumes at least that character |
| LexerSpec.Scan | lexer.py:91-173 | reading a token never moves backwards or past the end |
| LexerSpec.EofIffBlank | lexer.py:93-96 | EOF is produced exactly when only whitespace remains, and then the position is the end of the text |
| LexerSpec.SkipSpace | lexer.py:93-96 | the first non-blank position at or after `pos` |
| LexerSpec.ScanSkipsSpace | lexer.py:93-96 | reading a token from `pos` is reading it from the first non-blank character on |
| LexerSpec.NoSpaceInTokens | lexer.py:91-173 | no token's text contains whitespace |
| LexerSpec.IntegerLiteral | lexer.py:102-105 | a digit starts an INTEGER token: the maximal digit run, read as its decimal value |
| LexerSpec.SingleCharOperators | lexer.py:141-169 | each of `( ) + - * /` is a one-character token of its own kind |
| LexerSpec.TwoCharOperators | lexer.py:107-139 | `==`, `!=`, `<=`, `>=` are one token; a lone `<`, `>` or `=` is its own token; a lone `!` is illegal |
| LexerSpec.IllegalCharacters | lexer.py:171 | reading fails exactly at a character that no rule accepts, naming that character |
| Lexer.Lexer.constructor | lexer.py:45-48 | the lexer starts at position 0 with the first character current |
| Lexer.Lexer.Advance | lexer.py:50-56 | one position on, with the current character following it (None past the end) |
| Lexer.Lexer.Integer | lexer.py:58-64 | stops at the end of the digit run and yields the run's decimal value; an empty run is the `int("")` error |
| Lexer.Lexer.Id | lexer.py:66-74 | stops at the end of the alphanumeric run and yields the keyword or identifier for it |
| Lexer.Lexer.Peek | lexer.py:76-89 | yields the token `get_next_token` would read and, when that succeeds, restores the position and current character |
| Lexer.Lexer.GetNextToken | lexer.py:91-173 | yields exactly the token `Scan` describes from the starting position and stops after it; EOF without moving at the end |
| LexerAsWritten.ScanAsWritten | lexer.py:91-173 | `get_next_token` as written, nested `peek` calls bounded by fuel: it runs out of fuel only with `=`, `!`, `<` or `>` as the next non-blank character |
| LexerAsWritten.NeverReturnsOnOperator | lexer.py:107-125 | with `=`, `!`, `<` or `>` as the next non-blank character, no depth of nested `peek` calls returns |
| LexerAsWritten.AgreesElsewhere | lexer.py:91-173 | at any other position the code as written returns what `Scan` describes |
| LexerAsWritten.AssignmentIsNeverRead | lexer.py:107-139 | on `a = 1` the identifier is read, and then the lexer never returns where the intended lexer reads `=` |
| Blocks.MatchClose | interpreter.py:124-136 | the position found holds a `}` at or after the start |
| Blocks.MatchCloseStep | interpreter.py:128-136 | one step of the walk: the counter stays at least 1 and the search continues from the next token |
| Blocks.ScanBlock | interpreter.py:120-140 | a block ends after where it starts; its body is shorter than the program and well formed; the only errors are a missing `{` and an unterminated block |
| Blocks.MatchCloseNesting | interpreter.py:124-134 | the `}` found is the first point where the counter drops to 0: it stays at 1 or more before it |
| Blocks.NoMatchNesting | interpreter.py:125-127 | without a match the counter never reaches 0 |
| Blocks.NetAppend | interpreter.py:128-131 | the counter's net change over two runs of tokens is the sum of the two |
| Blocks.MatchedIsBalanced | interpreter.py:124-134 | the tokens up to the matching `}` close all they open, and no prefix closes more than it opens |
| Blocks.UnmatchedIff | interpreter.py:124-127 | there is no match exactly when no prefix of the rest closes more than it opens |
| Blocks.ScanBlockBalanced | interpreter.py:120-140 | a block read started on `{`; its body is exactly the tokens strictly between `{` and its matching `}`, and it is balanced |
| Blocks.ScanBlockCode | interpreter.py:123-138 | in a program lexed in text order, the code cut out runs from the first body token to the matching `}`, and every body token starts inside it |
| Blocks.ScanBlockUnterminated | interpreter.py:125-127 | the unterminated-block error is raised exactly when no `}` brings the counter back to 0 |
| Expressions.EvalFactor | interpreter.py:194-228 | a factor that evaluates consumes at least one token |
| Expressions.EvalTerm | interpreter.py:230-250 | a term that evaluates consumes at least one token |
| Expressions.EvalExpr | interpreter.py:262-273 | an expression that evaluates consumes at least one token |
| Expressions.EvalComparison | interpreter.py:162-180 | a comparison that evaluates consumes at least one token |
| Expressions.ComparisonRest | interpreter.py:165-179 | the right operand and its comparison with the left one yield a bool |
| Expressions.ComparisonWithOperator | interpreter.py:163-167 | after its left operand, an operator makes `comparison` read the right operand after it |
| Expressions.FactorNeverBool | interpreter.py:194-228 | with no bool in the table, no factor yields a bool |
| Expressions.TermNeverBool | interpreter.py:230-250 | with no bool in the table, no term yields a bool |
| Expressions.TermRestNeverBool | interpreter.py:233-249 | the `*`, `/`, `//` loop never turns a non-bool into a bool |
| Expressions.ExprNeverBool | interpreter.py:262-273 | with no bool in the table, no expression yields a bool (only `comparison` makes one) |
| Expressions.ExprRestNeverBool | interpreter.py:265-272 | the `+`, `-` loop never turns a non-bool into a bool |
| Expressions.UndefinedVariableRaises | interpreter.py:219-224 | an undefined identifier raises NameError at every level of the expression grammar |
| Expressions.ZeroDivisorRaises | interpreter.py:238-249 | `/` and `//` by a divisor that evaluates to zero raise the division error, whatever the left operand |
| Expressions.MinusIsLeftAssociative | interpreter.py:262-273 | `a - b - c` evaluates to `(a - b) - c` |
| Expressions.FloorDivIsLeftAssociative | interpreter.py:230-250 | `a // b // c` evaluates to `(a // b) // c` |
| Expressions.EightFloorFourFloorTwo | interpreter.py:244-249 | the two groupings differ: `(8 // 4) // 2` is 1, `8 // (4 // 2)` is 4 |
| Expressions.Expect | interpreter.py:52-58 | `eat(k)` succeeds exactly on a token of kind `k`, moving one token on; otherwise a syntax error naming both kinds |
| Expressions.TermRest | interpreter.py:233-249 | the `*`, `/`, `//` loop never moves backwards or past the end |
| Expressions.ExprRest | interpreter.py:265-272 | the `+`, `-` loop never moves backwards or past the end |
| Statements.ExecProgram | interpreter.py:61-62 | a program run never moves backwards; it keeps the table free of bools and only appends output |
| Statements.ExecStatementList | interpreter.py:64-72 | a statement list run keeps the table free of bools and only appends output |
| Statements.StatementListRest | interpreter.py:66-71 | the `;` loop keeps the table free of bools and only appends output |
| Statements.ExecStatement | interpreter.py:74-84 | every statement keeps the table free of bools and only appends output |
| Statements.ExecPrint | interpreter.py:86-90 | `print` keeps the table free of bools and only appends output |
| Statements.ExecAssignment | interpreter.py:182-191 | an assignment never stores a bool and leaves the output alone |
| Statements.ParseRangedHeader | interpreter.py:96-103 | a ranged-loop header that reads yields a well-formed body shorter than the program |
| Statements.ParseCountedHeader | interpreter.py:112-114 | a counted-loop header that reads yields a well-formed body shorter than the program |
| Statements.RangeCount | interpreter.py:105-106 | `range(start, end + step, step)` yields at least one value, stepping by 1 or -1 from `start`, the last being `end` |
| Statements.ExecLoop | interpreter.py:92-118 | a loop keeps the table free of bools and only appends output |
| Statements.ParseIfHeader | interpreter.py:144-151 | an `if` header that reads yields well-formed bodies shorter than the program |
| Statements.IfBlocks | interpreter.py:147-151 | the then-block and the optional else-block are well formed and shorter than the program |
| Statements.ExecIf | interpreter.py:142-159 | an `if` keeps the table free of bools and only appends output |
| Statements.RunBlock | interpreter.py:154-155 | a block run keeps the table free of bools and only appends output |
| Statements.CountedRun | interpreter.py:115-117 | the counted loop keeps the table free of bools and only appends output |
| Statements.RangeRun | interpreter.py:105-109 | the ranged loop keeps the table free of bools and only appends output |
| StatementProperties.StatementListStopsOffSemicolon | interpreter.py:64-72 | a statement list that succeeds stops at a token that is not `;` |
| StatementProperties.RestStopsOffSemicolon | interpreter.py:66-71 | the `;` loop that succeeds stops at a token that is not `;` |
| StatementProperties.TrailingSemicolonAccepted | interpreter.py:67-70 | one `;` right before the end is consumed and the last statement's value is the list's value |
| StatementProperties.LastStatementDecides | interpreter.py:64-72 | a statement that succeeds and is not followed by `;` decides the list: same value, end position and state |
| StatementProperties.EarlierStatementDiscarded | interpreter.py:66-71 | a statement followed by `;` and more has its value dropped; the rest of the list, run from the state it left, decides the outcome |
| StatementProperties.StatementDispatch | interpreter.py:74-84 | `loop`, `if`, `print` and an identifier followed by `=` select their statement, which yields None; anything else yields the comparison's value, stops where the comparison stops and changes nothing |
| StatementProperties.AssignmentFrame | interpreter.py:182-191 | an assignment stores the value of its expression under its own name, changes no other entry and prints nothing; a failed one changes nothing |
| StatementProperties.PrintAppends | interpreter.py:86-90 | `print` appends exactly the value of its expression to the output and leaves the table alone |
| StatementProperties.IfReadsBothBlocksFirst | interpreter.py:144-153 | an error in the condition or either block raises before any block runs, and nothing changes |
| StatementProperties.IfFalseWithoutElse | interpreter.py:153-159 | a false condition without `else` runs nothing and yields None |
| StatementProperties.IfRunsOneBlock | interpreter.py:153-158 | a true condition runs the then-block and a false one the else-block, on the same shared state |
| StatementProperties.IdentifierCountIsRangedLoop | interpreter.py:96-99 | `loop n times` with an identifier `n` fails expecting `from` |
| StatementProperties.IncrementValue | interpreter.py:262-273 | `c + 1` evaluates to one more than `c` |
| StatementProperties.RunIncrement | interpreter.py:182-191 | a block `c = c + 1` adds one to `c` and changes nothing else |
| StatementProperties.IncrementAddsOne | interpreter.py:182-191 | `c = c + 1` adds one to `c` in every state where `c` holds an int |
| StatementProperties.CountedIncrement | interpreter.py:112-117 | `n` passes of a counted loop whose body adds one to `c` add exactly `n` to `c` |
| StatementProperties.RangedIncrementPasses | interpreter.py:105-109 | `n` passes of a ranged loop over such a body add `n` to `c` and leave the loop variable at the last value written |
| StatementProperties.RangedIncrement | interpreter.py:96-109 | `loop i from A to B { c = c + 1 }` adds `abs(B - A) + 1` to `c` and leaves `i` at `B` |
| Interpreter.SymbolTable.constructor | interpreter.py:45 | a fresh table is empty |
| Interpreter.Interpreter.constructor | interpreter.py:39-45 | the buffer holds the first two tokens; the table passed in is shared, not copied, or a fresh empty one is made |
| Interpreter.Interpreter.Advance | interpreter.py:48-50 | the next token becomes current and exactly one token is pulled |
| Interpreter.Interpreter.Eat | interpreter.py:52-58 | advances exactly when the current token has the expected kind; otherwise a syntax error naming both kinds, with the buffer untouched |
| Interpreter.Interpreter.Program | interpreter.py:61-62 | result, position and state are those of `ExecProgram` from the starting position and state |
| Interpreter.Interpreter.StatementList | interpreter.py:64-72 | result, position and state are those of `ExecStatementList` |
| Interpreter.Interpreter.Statement | interpreter.py:74-84 | result, position and state are those of `ExecStatement` |
| Interpreter.Interpreter.PrintStatement | interpreter.py:86-90 | result, position and state (output appended) are those of `ExecPrint` |
| Interpreter.Interpreter.AssignmentStatement | interpreter.py:182-191 | result, position and state (table entry written) are those of `ExecAssignment` |
| Interpreter.Interpreter.LoopStatement | interpreter.py:92-118 | result, position and state are those of `ExecLoop` |
| Interpreter.Interpreter.ReadRangedHeader | interpreter.py:96-103 | reads the ranged-loop header as `ParseRangedHeader` does and stops after the block |
| Interpreter.Interpreter.ReadCountedHeader | interpreter.py:112-114 | reads the counted-loop header as `ParseCountedHeader` does and stops after the block |
| Interpreter.Interpreter.RunRange | interpreter.py:105-109 | the `for` loop over the range has the effect and error of `RangeRun` |
| Interpreter.Interpreter.RunTimes | interpreter.py:115-117 | the `for` loop over `range(times)` has the effect and error of `CountedRun` with `max(times, 0)` passes |
| Interpreter.Interpreter.RunBody | interpreter.py:116-117 | a sub-interpreter over the body, sharing table and output, has the effect of `RunBlock` |
| Interpreter.Interpreter.Block | interpreter.py:120-140 | yields the block and stops where `ScanBlock` says, or raises its error |
| Interpreter.Interpreter.WalkToClose | interpreter.py:124-136 | the nesting walk stops on the matching `}` and yields its offset, or raises UnterminatedBlock when there is none |
| Interpreter.Interpreter.IfStatement | interpreter.py:142-159 | result, position and state are those of `ExecIf` |
| Interpreter.Interpreter.ReadIfHeader | interpreter.py:144-151 | reads condition and blocks as `ParseIfHeader` does |
| Interpreter.Interpreter.ReadIfBlocks | interpreter.py:147-151 | reads the then-block and the optional else-block as `IfBlocks` does |
| Interpreter.Interpreter.Comparison | interpreter.py:162-180 | value and position are those of `EvalComparison` |
| Interpreter.Interpreter.CompareWith | interpreter.py:165-179 | value and position are those of `ComparisonRest` |
| Interpreter.Interpreter.Factor | interpreter.py:194-228 | value and position are those of `EvalFactor` |
| Interpreter.Interpreter.Term | interpreter.py:230-250 | value and position are those of `EvalTerm` |
| Interpreter.Interpreter.Expr | interpreter.py:262-273 | value and position are those of `EvalExpr` |

## Left out

- Floats: a true division `/` of two numbers with a non-zero divisor yields the error `FloatNotModelled` instead of a float. Nothing downstream of a float is modelled.
- Values.ToInt: `int()` of a string loop bound (Python's numeral parsing) is the error `ConversionNotModelled` rather than a parsed number.
- Character classes are ASCII only. Python's `isspace`, `isalpha`, `isdigit` and `isalnum` also accept other Unicode characters.
- Error messages and the `@pos=` offsets in them are not modelled. An error is its kind.
- Python's recursion-depth limit is not modelled. Nested blocks and loops run to any depth.
- The interactive loop of main.py is not part of this model; it is input/output plumbing.
- `print` writes to stdout in the source. Here it appends the value to an `Output` trace object, shared like the table.
- The lexer that produces strings, braces, `;`, `//` and the `loop`/`times`/`from`/`to`/`else`/`print` keywords, and that provides `token_start_pos`, is not part of this model. The interpreter reads a token sequence whose tokens carry their start offsets.
- Re-lexing of block code: a sub-interpreter receives the tokens strictly between the braces, over the same text, rather than lexing the cut-out code string again. `Blocks.ScanBlockCode` relates the two: the code string spans exactly those tokens.
- Block code offsets: the cut-out code runs from the first token after `{` to the matching `}`, as the comment at interpreter.py:123 intends. The source reads both offsets from `token_start_pos`, which, behind the two-token buffer, may belong to the lookahead token; that lexer attribute is not part of this model.
- Lexer.Lexer.Peek: when the nested `get_next_token` raises, the contract does not say where the position is left.
- Lexer.Lexer.GetNextToken: models the intended two-character operator check (the next character is `=`), not the recursion lexer.py writes; `LexerAsWritten` models the latter.

## Findings

| source | as written | input that shows it | evidently intended | confidence | as-written member | corrected member |
|---|---|---|---|---|---|---|
| lexer.py:107-125 | the checks for `==`, `!=`, `<=`, `>=` call `peek()`, which calls `get_next_token` from the same, unadvanced position; that call reaches the same check and peeks again, so the lexer never returns (a RecursionError in Python) | `a = 1`: after `a`, reading `=` never returns | the character after `=`, `!`, `<` or `>` decides: if it is `=`, a two-character operator; otherwise the single-character token | high; not executed | LexerAsWritten.AssignmentIsNeverRead | LexerSpec.TwoCharOperators |
