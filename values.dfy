/** Runtime values and the Python operators the interpreter applies to them.

    The interpreter evaluates with Python's own operators, so each operator is
    written out here with Python's rules: `bool` is a subclass of `int`
    (True counts as 1), `*` repeats a string, `//` floors, strings compare
    lexicographically by code point, and a pair of operand kinds an operator
    does not support raises TypeError. */
module Values {
  import opened Common
  import opened Tokens

  datatype Value = Int(i: int) | Str(s: string) | Bool(b: bool)

  /** The exceptions the interpreter can raise, by kind. */
  datatype Error =
    | SyntaxError(expected: Kind, found: Kind)   // `eat` met the wrong kind
    | InvalidFactor(found: Kind)                 // `factor` met a token that starts no factor
    | UndefinedVariable(name: string)            // NameError
    | DivisionByZero
    | TypeMismatch                               // TypeError
    | UnterminatedBlock                          // EOF before the matching `}`
    | FloatNotModelled                           // a true division that would yield a float
    | ConversionNotModelled                      // `int()` applied to a string

  /** The value as a Python number (`int` or `bool`), if it is one. */
  function Num(v: Value): Option<int> {
    match v
    case Int(i) => Some(i)
    case Bool(b) => Some(if b then 1 else 0)
    case Str(_) => None
  }

  /** Python's truth value of a value, as `if` tests it. */
  function Truthy(v: Value): (t: bool)
    ensures !t <==> v in {Int(0), Str([]), Bool(false)}
  {
    match v
    case Bool(b) => b
    case Int(i) => i != 0
    case Str(s) => |s| > 0
  }

  /** `_safe_add`: two strings concatenate, two numbers add, anything else is a
      TypeError. */
  function Add(a: Value, b: Value): (r: Result<Value, Error>)
    ensures r.Ok? <==> a.Str? == b.Str?
    ensures r.Err? ==> r.error == TypeMismatch
    ensures r.Ok? && a.Str? ==> r.value.Str? && |r.value.s| == |a.s| + |b.s|
    ensures r.Ok? && a.Str? ==> r.value.s[..|a.s|] == a.s && r.value.s[|a.s|..] == b.s
    ensures r.Ok? && !a.Str? ==> r.value == Int(Num(a).value + Num(b).value)
  {
    if a.Str? && b.Str? then Ok(Str(a.s + b.s))
    else if Num(a).Some? && Num(b).Some? then Ok(Int(Num(a).value + Num(b).value))
    else Err(TypeMismatch)
  }

  /** Python `a - b`: numbers only. */
  function Sub(a: Value, b: Value): (r: Result<Value, Error>)
    ensures r.Ok? <==> !a.Str? && !b.Str?
    ensures r.Err? ==> r.error == TypeMismatch
    ensures r.Ok? ==> r.value == Int(Num(a).value - Num(b).value)
  {
    if Num(a).Some? && Num(b).Some? then Ok(Int(Num(a).value - Num(b).value))
    else Err(TypeMismatch)
  }

  function Max0(n: int): nat {
    if n < 0 then 0 else n
  }

  /** `s * n` for a string `s`: `n` copies of `s`, none when `n <= 0`. */
  function Repeat(s: string, n: int): (r: string)
    ensures |r| == |s| * Max0(n)
    decreases Max0(n)
  {
    if n <= 0 then [] else
      var rest := Repeat(s, n - 1);
      assert |s| * Max0(n) == |s| + |s| * Max0(n - 1);
      s + rest
  }

  /** Python `a * b`: numbers multiply, a string and a number repeat the
      string, two strings are a TypeError. */
  function Mul(a: Value, b: Value): (r: Result<Value, Error>)
    ensures r.Ok? <==> !(a.Str? && b.Str?)
    ensures r.Err? ==> r.error == TypeMismatch
    ensures r.Ok? ==> (r.value.Str? <==> a.Str? || b.Str?) && !r.value.Bool?
    ensures r.Ok? && !a.Str? && !b.Str? ==> r.value == Int(Num(a).value * Num(b).value)
    ensures r.Ok? && a.Str? ==> |r.value.s| == |a.s| * Max0(Num(b).value)
    ensures r.Ok? && b.Str? ==> |r.value.s| == |b.s| * Max0(Num(a).value)
  {
    match (a, b)
    case (Str(s), Str(_)) => Err(TypeMismatch)
    case (Str(s), _) => Ok(Str(Repeat(s, Num(b).value)))
    case (_, Str(s)) => Ok(Str(Repeat(s, Num(a).value)))
    case _ => Ok(Int(Num(a).value * Num(b).value))
  }

  /** The divisor check `divisor == 0` of `/` and `//`: in Python it holds for
      `0` and for `False`, never for a string. */
  predicate IsZero(v: Value) {
    Num(v) == Some(0)
  }

  /** Python `a / b` after the zero check.  Division of two numbers yields a
      float, which this model does not represent. */
  function TrueDiv(a: Value, b: Value): (r: Result<Value, Error>)
    ensures r.Err?
    ensures r.error == DivisionByZero <==> IsZero(b)
    ensures !IsZero(b) ==> (r.error == TypeMismatch <==> a.Str? || b.Str?)
  {
    if IsZero(b) then Err(DivisionByZero)
    else if Num(a).Some? && Num(b).Some? then Err(FloatNotModelled)
    else Err(TypeMismatch)
  }

  /** Python's `//` on integers: rounds the quotient toward negative infinity
      (Dafny's `/` is Euclidean, so a negative divisor is handled apart). */
  function FloorDiv(a: int, b: int): (q: int)
    requires b != 0
    ensures b > 0 ==> b * q <= a < b * q + b
    ensures b < 0 ==> b * q + b < a <= b * q
  {
    if b > 0 then a / b else (-a) / (-b)
  }

  /** Python `a // b` after the zero check. */
  function FloorDivide(a: Value, b: Value): (r: Result<Value, Error>)
    ensures r == Err(DivisionByZero) <==> IsZero(b)
    ensures r.Ok? <==> !a.Str? && !b.Str? && !IsZero(b)
    ensures r.Err? && !IsZero(b) ==> r.error == TypeMismatch
    ensures r.Ok? ==> r.value.Int?
  {
    if IsZero(b) then Err(DivisionByZero)
    else if Num(a).Some? && Num(b).Some? then Ok(Int(FloorDiv(Num(a).value, Num(b).value)))
    else Err(TypeMismatch)
  }

  /** Unary `+v` and `-v`: numbers only; a `bool` becomes an `int`. */
  function Pos(v: Value): (r: Result<Value, Error>)
    ensures r.Ok? <==> !v.Str?
    ensures r.Ok? ==> r.value.Int? && Some(r.value.i) == Num(v)
    ensures r.Err? ==> r.error == TypeMismatch
  {
    if Num(v).Some? then Ok(Int(Num(v).value)) else Err(TypeMismatch)
  }

  function Neg(v: Value): (r: Result<Value, Error>)
    ensures r.Ok? <==> !v.Str?
    ensures r.Ok? ==> r.value.Int? && Some(-r.value.i) == Num(v)
    ensures r.Err? ==> r.error == TypeMismatch
  {
    if Num(v).Some? then Ok(Int(-Num(v).value)) else Err(TypeMismatch)
  }

  /** `int(v)` as the loop statement applies it to a loop bound.  Parsing a
      string as a numeral is not modelled. */
  function ToInt(v: Value): (r: Result<int, Error>)
    ensures r.Ok? <==> !v.Str?
    ensures r.Ok? ==> Some(r.value) == Num(v)
  {
    if Num(v).Some? then Ok(Num(v).value) else Err(ConversionNotModelled)
  }

  /** Python's `==` on two values: numbers by value, strings by contents,
      a string never equals a number. */
  predicate PyEq(a: Value, b: Value): (eq: bool)
    ensures a == b ==> eq
    ensures eq ==> a.Str? == b.Str?
    ensures eq && a.Str? ==> a == b
  {
    if Num(a).Some? && Num(b).Some? then Num(a) == Num(b)
    else a.Str? && b.Str? && a.s == b.s
  }

  /** Python's ordering of strings: lexicographic by code point, a proper
      prefix first. */
  predicate LexLess(a: string, b: string): (lt: bool)
    ensures lt ==> |b| > 0
    ensures |a| < |b| && a == b[..|a|] ==> lt
    ensures lt && |a| >= |b| ==> a[..|b|] != b
    decreases |a|
  {
    |b| > 0 && (|a| == 0 || a[0] < b[0] || (a[0] == b[0] && LexLess(a[1..], b[1..])))
  }

  /** Python `a < b`: numbers by value, strings lexicographically, a string
      against a number is a TypeError. */
  function Less(a: Value, b: Value): (r: Result<bool, Error>)
    ensures r.Ok? <==> a.Str? == b.Str?
    ensures r.Err? ==> r.error == TypeMismatch
  {
    if Num(a).Some? && Num(b).Some? then Ok(Num(a).value < Num(b).value)
    else if a.Str? && b.Str? then Ok(LexLess(a.s, b.s))
    else Err(TypeMismatch)
  }

  predicate IsComparison(k: Kind) {
    k == EQ || k == NE || k == LT || k == GT || k == LTE || k == GTE
  }

  /** The comparison operators of `comparison` (interpreter.py:168-179). */
  function Compare(op: Kind, a: Value, b: Value): (r: Result<Value, Error>)
    requires IsComparison(op)
    ensures r.Ok? ==> r.value.Bool?
    ensures r.Ok? <==> op == EQ || op == NE || a.Str? == b.Str?
    ensures r.Err? ==> r.error == TypeMismatch
    ensures op == EQ ==> r == Ok(Bool(PyEq(a, b)))
    ensures op == NE ==> r == Ok(Bool(!PyEq(a, b)))
  {
    match op
    case EQ => Ok(Bool(PyEq(a, b)))
    case NE => Ok(Bool(!PyEq(a, b)))
    case LT => var l :- Less(a, b); Ok(Bool(l))
    case GT => var l :- Less(b, a); Ok(Bool(l))
    case LTE => var l :- Less(a, b); Ok(Bool(l || PyEq(a, b)))
    case GTE => var l :- Less(b, a); Ok(Bool(l || PyEq(a, b)))
  }

  // ---------------------------------------------------------------------
  // Properties of the operators

  /** A repetition is made of whole copies: character `i` of copy `j` is
      character `i` of the string. */
  lemma {:induction false} RepeatAt(s: string, n: int, j: nat, i: nat)
    requires j < Max0(n) && i < |s|
    ensures j * |s| + i < |Repeat(s, n)| && Repeat(s, n)[j * |s| + i] == s[i]
    decreases Max0(n)
  {
    if j > 0 {
      RepeatAt(s, n - 1, j - 1, i);
      assert j * |s| + i == |s| + ((j - 1) * |s| + i);
    }
  }

  /** A string compared with a number: `==` is False, `!=` True, and every
      ordering operator raises TypeError. */
  lemma MixedComparison(op: Kind, a: Value, b: Value)
    requires IsComparison(op) && a.Str? != b.Str?
    ensures op == EQ ==> Compare(op, a, b) == Ok(Bool(false))
    ensures op == NE ==> Compare(op, a, b) == Ok(Bool(true))
    ensures op != EQ && op != NE ==> Compare(op, a, b) == Err(TypeMismatch)
  {
  }

  lemma {:induction false} LexLessIrreflexive(a: string)
    ensures !LexLess(a, a)
    decreases |a|
  {
    if |a| > 0 {
      LexLessIrreflexive(a[1..]);
    }
  }

  lemma {:induction false} LexLessTransitive(a: string, b: string, c: string)
    requires LexLess(a, b) && LexLess(b, c)
    ensures LexLess(a, c)
    decreases |a|
  {
    if |a| > 0 && a[0] == b[0] && b[0] == c[0] {
      LexLessTransitive(a[1..], b[1..], c[1..]);
    }
  }

  /** Any two strings are ordered one way or the other, or are equal. */
  lemma {:induction false} LexLessTotal(a: string, b: string)
    ensures LexLess(a, b) || a == b || LexLess(b, a)
    decreases |a|
  {
    if |a| > 0 && |b| > 0 && a[0] == b[0] {
      LexLessTotal(a[1..], b[1..]);
      if a[1..] == b[1..] {
        assert a == [a[0]] + a[1..] && b == [b[0]] + b[1..];
      }
    }
  }

  /** `<=` on strings holds exactly when `>` does not. */
  lemma StrLessEqIsNotGreater(a: string, b: string)
    ensures Compare(LTE, Str(a), Str(b)) == Ok(Bool(!LexLess(b, a)))
  {
    LexLessTotal(a, b);
    if LexLess(a, b) && LexLess(b, a) {
      LexLessTransitive(a, b, a);
      LexLessIrreflexive(a);
    }
    if a == b {
      LexLessIrreflexive(a);
    }
  }
}
