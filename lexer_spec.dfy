/** What the lexer of lexer.py reads from a text position, as a function.

    Character classes are the ASCII cases of Python's `isspace`, `isalpha`,
    `isdigit` and `isalnum`.  The two-character operators `==`, `!=`, `<=`
    and `>=` are recognised when the character after the first one is `=`;
    how lexer.py:107-125 actually decides this is modelled in
    `LexerAsWritten`. */
module LexerSpec {
  import opened Common

  /** The kinds lexer.py defines (lexer.py:5-20). */
  datatype Kind =
    | IF | THEN | END | ASSIGN | ID | INTEGER | PLUS | MINUS | ASTERISK | SLASH
    | LPAREN | RPAREN | EOF | EQ | NE | LT | GT | LTE | GTE

  /** A token's value: the number of an integer literal, the text of any
      other token, and nothing (Python's None) for EOF. */
  datatype TokenValue = NoValue | Number(n: nat) | Text(s: string)

  /** `Token` (lexer.py:24-31). */
  datatype Token = Token(kind: Kind, value: TokenValue)

  /** Lexing fails on a character no rule accepts, or when `int()` gets an
      empty numeral. */
  datatype LexError = IllegalChar(c: char) | EmptyNumeral

  /** A token together with the text position after it. */
  datatype Lexed = Lexed(token: Token, pos: nat)

  function EofToken(): Token {
    Token(EOF, NoValue)
  }

  predicate IsSpace(c: char) {
    c == ' ' || '\t' <= c <= '\r' || '\U{1c}' <= c <= '\U{1f}'
  }

  predicate IsDigit(c: char) {
    '0' <= c <= '9'
  }

  predicate IsAlpha(c: char) {
    'a' <= c <= 'z' || 'A' <= c <= 'Z'
  }

  predicate IsAlnum(c: char) {
    IsAlpha(c) || IsDigit(c)
  }

  /** The character at `pos`, or None (lexer.py's `current_char` at the end). */
  function CharAt(text: string, pos: nat): Option<char> {
    if pos < |text| then Some(text[pos]) else None
  }

  /** The two character runs the lexer reads greedily. */
  datatype Run = Digits | Alnums

  predicate InRun(c: char, run: Run) {
    if run == Digits then IsDigit(c) else IsAlnum(c)
  }

  /** The end of the maximal run of `run` characters starting at `pos`. */
  function RunEnd(text: string, pos: nat, run: Run): (e: nat)
    requires pos <= |text|
    ensures pos <= e <= |text|
    ensures forall k | pos <= k < e :: InRun(text[k], run)
    ensures e < |text| ==> !InRun(text[e], run)
    decreases |text| - pos
  {
    if pos < |text| && InRun(text[pos], run) then RunEnd(text, pos + 1, run) else pos
  }

  // ---------------------------------------------------------------------
  // Integer literals

  function DigitOf(c: char): nat
    requires IsDigit(c)
  {
    c as int - '0' as int
  }

  function DigitChar(d: nat): (c: char)
    requires d < 10
    ensures IsDigit(c) && DigitOf(c) == d
  {
    ('0' as int + d) as char
  }

  predicate AllDigits(s: string) {
    forall k | 0 <= k < |s| :: IsDigit(s[k])
  }

  /** Python's `int()` of a string of decimal digits: zero exactly when
      every digit is `0`. */
  function DigitsValue(s: string): (n: nat)
    requires AllDigits(s)
    ensures n == 0 <==> forall k | 0 <= k < |s| :: s[k] == '0'
  {
    if s == [] then 0 else 10 * DigitsValue(s[..|s| - 1]) + DigitOf(s[|s| - 1])
  }

  /** The decimal spelling of a number, without leading zeros. */
  function NatDigits(n: nat): (s: string)
    ensures AllDigits(s) && |s| > 0
  {
    if n < 10 then [DigitChar(n)] else NatDigits(n / 10) + [DigitChar(n % 10)]
  }

  /** Reading the decimal spelling of a number gives the number back. */
  lemma {:induction false} DigitsValueOfNatDigits(n: nat)
    ensures DigitsValue(NatDigits(n)) == n
  {
    if n >= 10 {
      var s := NatDigits(n);
      assert s[..|s| - 1] == NatDigits(n / 10);
      DigitsValueOfNatDigits(n / 10);
    }
  }

  /** Leading zeros do not change the value. */
  lemma {:induction false} LeadingZero(s: string)
    requires AllDigits(s)
    ensures DigitsValue("0" + s) == DigitsValue(s)
  {
    if s != [] {
      assert ("0" + s)[..|"0" + s| - 1] == "0" + s[..|s| - 1];
      LeadingZero(s[..|s| - 1]);
    } else {
      assert ("0" + s)[..0] == [];
    }
  }

  // ---------------------------------------------------------------------
  // Identifiers and keywords

  function ToLowerChar(c: char): char {
    if 'A' <= c <= 'Z' then (c as int + 32) as char else c
  }

  function ToLower(s: string): (t: string)
    ensures |t| == |s|
  {
    if s == [] then [] else [ToLowerChar(s[0])] + ToLower(s[1..])
  }

  /** `RESERVED_KEYWORDS` (lexer.py:37-41). */
  const Reserved: map<string, Token> :=
    map["if" := Token(IF, Text("if")), "then" := Token(THEN, Text("then")), "end" := Token(END, Text("end"))]

  /** `RESERVED_KEYWORDS.get(word.lower(), Token(ID, word))` */
  function KeywordOrId(word: string): (t: Token)
    ensures t.kind == ID <==> ToLower(word) !in Reserved
    ensures t.kind == ID ==> t.value == Text(word)
    ensures t.kind != ID ==> t == Reserved[ToLower(word)] && t.value == Text(ToLower(word))
  {
    var lower := ToLower(word);
    if lower in Reserved then Reserved[lower] else Token(ID, Text(word))
  }

  /** A word is a keyword exactly when its lower-case form is one, and the
      keyword's value is its lower-case spelling; any other word is an
      identifier that keeps the spelling it was written with. */
  lemma KeywordOrIdCases(word: string)
    ensures KeywordOrId(word).kind in {IF, THEN, END} <==> ToLower(word) in {"if", "then", "end"}
    ensures KeywordOrId(word).kind in {IF, THEN, END} ==> KeywordOrId(word).value == Text(ToLower(word))
    ensures KeywordOrId(word).kind !in {IF, THEN, END} ==> KeywordOrId(word) == Token(ID, Text(word))
  {
  }

  /** Keywords are matched regardless of case. */
  lemma {:induction false} KeywordsIgnoreCase(word: string, keyword: string)
    requires keyword in {"if", "then", "end"} && |word| == |keyword|
    requires forall k | 0 <= k < |word| :: ToLowerChar(word[k]) == keyword[k]
    ensures KeywordOrId(word) == Reserved[keyword]
  {
    LowerByChars(word, keyword);
  }

  lemma {:induction false} LowerByChars(word: string, lower: string)
    requires |word| == |lower|
    requires forall k | 0 <= k < |word| :: ToLowerChar(word[k]) == lower[k]
    ensures ToLower(word) == lower
  {
    if word != [] {
      LowerByChars(word[1..], lower[1..]);
    }
  }

  // ---------------------------------------------------------------------
  // One token

  /** A character that starts a two-character operator when `=` follows. */
  predicate StartsTwoChar(c: char) {
    c == '=' || c == '!' || c == '<' || c == '>'
  }

  function TwoCharKind(c: char): Kind
    requires StartsTwoChar(c)
  {
    if c == '=' then EQ else if c == '!' then NE else if c == '<' then LTE else GTE
  }

  /** The character after `pos` is `=`. */
  predicate FollowedByEquals(text: string, pos: nat) {
    pos + 1 < |text| && text[pos + 1] == '='
  }

  /** The single-character operators, `=` being assignment. */
  function SingleCharKind(c: char): (k: Option<Kind>)
    ensures k.Some? <==> c in "<>=()+-*/"
    ensures k.Some? ==> k.value !in {EOF, ID, INTEGER, EQ, NE, LTE, GTE}
  {
    if c == '<' then Some(LT)
    else if c == '>' then Some(GT)
    else if c == '=' then Some(ASSIGN)
    else if c == '(' then Some(LPAREN)
    else if c == ')' then Some(RPAREN)
    else if c == '+' then Some(PLUS)
    else if c == '-' then Some(MINUS)
    else if c == '*' then Some(ASTERISK)
    else if c == '/' then Some(SLASH)
    else None
  }

  /** A one-character operator token, or the illegal-character error. */
  function SingleChar(text: string, pos: nat): (r: Result<Lexed, LexError>)
    requires pos < |text|
    ensures r.Ok? <==> text[pos] in "<>=()+-*/"
    ensures r.Ok? ==> r.value.pos == pos + 1 && r.value.token.value == Text([text[pos]])
    ensures r.Err? ==> r.error == IllegalChar(text[pos])
  {
    match SingleCharKind(text[pos])
    case Some(k) => Ok(Lexed(Token(k, Text([text[pos]])), pos + 1))
    case None => Err(IllegalChar(text[pos]))
  }

  /** The token starting at a character that is not whitespace. */
  function ScanAt(text: string, pos: nat): (r: Result<Lexed, LexError>)
    requires pos < |text| && !IsSpace(text[pos])
    ensures r.Ok? ==> pos < r.value.pos <= |text|
  {
    var c := text[pos];
    if IsAlpha(c) then
      var e := RunEnd(text, pos, Alnums);
      Ok(Lexed(KeywordOrId(text[pos..e]), e))
    else if IsDigit(c) then
      var e := RunEnd(text, pos, Digits);
      Ok(Lexed(Token(INTEGER, Number(DigitsValue(text[pos..e]))), e))
    else if StartsTwoChar(c) && FollowedByEquals(text, pos) then
      Ok(Lexed(Token(TwoCharKind(c), Text([c, '='])), pos + 2))
    else
      SingleChar(text, pos)
  }

  /** `get_next_token` from `pos`: whitespace is skipped, the end of the text
      gives EOF. */
  function Scan(text: string, pos: nat): (r: Result<Lexed, LexError>)
    requires pos <= |text|
    ensures r.Ok? ==> pos <= r.value.pos <= |text|
    decreases |text| - pos
  {
    if pos == |text| then Ok(Lexed(EofToken(), pos))
    else if IsSpace(text[pos]) then Scan(text, pos + 1)
    else ScanAt(text, pos)
  }

  // ---------------------------------------------------------------------
  // Properties

  /** Scanning yields EOF exactly when nothing but whitespace is left, and
      then it stays at the end of the text, so every later call yields EOF
      again. */
  lemma {:induction false} EofIffBlank(text: string, pos: nat)
    requires pos <= |text|
    ensures (Scan(text, pos).Ok? && Scan(text, pos).value.token.kind == EOF) <==>
              forall k | pos <= k < |text| :: IsSpace(text[k])
    ensures Scan(text, pos).Ok? && Scan(text, pos).value.token.kind == EOF ==>
              Scan(text, pos) == Ok(Lexed(EofToken(), |text|))
    decreases |text| - pos
  {
    if pos < |text| && IsSpace(text[pos]) {
      EofIffBlank(text, pos + 1);
    }
  }

  /** The position of the first character at or after `pos` that is not
      whitespace. */
  function SkipSpace(text: string, pos: nat): (q: nat)
    requires pos <= |text|
    ensures pos <= q <= |text|
    ensures forall k | pos <= k < q :: IsSpace(text[k])
    ensures q < |text| ==> !IsSpace(text[q])
    decreases |text| - pos
  {
    if pos < |text| && IsSpace(text[pos]) then SkipSpace(text, pos + 1) else pos
  }

  /** A token is read from the first non-blank character on: scanning from
      `pos` is scanning from there. */
  lemma {:induction false} ScanSkipsSpace(text: string, pos: nat)
    requires pos <= |text|
    ensures var q := SkipSpace(text, pos);
            Scan(text, pos) == if q == |text| then Ok(Lexed(EofToken(), q)) else ScanAt(text, q)
    decreases |text| - pos
  {
    if pos < |text| && IsSpace(text[pos]) {
      ScanSkipsSpace(text, pos + 1);
    }
  }

  /** No token value contains whitespace: a token's text is a slice of the
      program without blanks. */
  lemma NoSpaceInTokens(text: string, pos: nat)
    requires pos <= |text|
    requires Scan(text, pos).Ok? && Scan(text, pos).value.token.value.Text?
    ensures forall c | c in Scan(text, pos).value.token.value.s :: !IsSpace(c)
  {
    ScanSkipsSpace(text, pos);
    var q := SkipSpace(text, pos);
    var c := text[q];
    if IsAlpha(c) {
      var e := RunEnd(text, q, Alnums);
      var w := text[q..e];
      forall ch | ch in ToLower(w) ensures !IsSpace(ch) {
        var k :| 0 <= k < |ToLower(w)| && ToLower(w)[k] == ch;
        LowerAt(w, k);
      }
      KeywordOrIdCases(w);
    }
  }

  lemma {:induction false} LowerAt(s: string, k: nat)
    requires k < |s|
    ensures ToLower(s)[k] == ToLowerChar(s[k])
  {
    if k > 0 {
      LowerAt(s[1..], k - 1);
    }
  }

  /** An integer literal is the maximal run of digits, read as its decimal
      value. */
  lemma IntegerLiteral(text: string, pos: nat)
    requires pos < |text| && IsDigit(text[pos])
    ensures var e := RunEnd(text, pos, Digits);
            && Scan(text, pos) == Ok(Lexed(Token(INTEGER, Number(DigitsValue(text[pos..e]))), e))
            && pos < e && (e < |text| ==> !IsDigit(text[e]))
  {
  }

  /** Each of `( ) + - * /` is a token of its own kind whose value is the
      character, one position long. */
  lemma SingleCharOperators(text: string, pos: nat)
    requires pos < |text| && text[pos] in "()+-*/"
    ensures Scan(text, pos) == Ok(Lexed(Token(SingleCharKind(text[pos]).value, Text([text[pos]])), pos + 1))
  {
  }

  /** `==`, `!=`, `<=` and `>=` are read as one token; a `<`, `>` or `=` not
      followed by `=` is a token of its own, and so is nothing starting with
      `!`. */
  lemma TwoCharOperators(text: string, pos: nat)
    requires pos < |text| && StartsTwoChar(text[pos])
    ensures FollowedByEquals(text, pos) ==>
              Scan(text, pos) == Ok(Lexed(Token(TwoCharKind(text[pos]), Text([text[pos], '='])), pos + 2))
    ensures !FollowedByEquals(text, pos) && text[pos] != '!' ==>
              Scan(text, pos) == Ok(Lexed(Token(SingleCharKind(text[pos]).value, Text([text[pos]])), pos + 1))
    ensures !FollowedByEquals(text, pos) && text[pos] == '!' ==> Scan(text, pos) == Err(IllegalChar('!'))
  {
  }

  /** Scanning fails exactly at a character that is not blank, not
      alphanumeric, not an operator and not the start of `!=`. */
  lemma IllegalCharacters(text: string, pos: nat)
    requires pos < |text| && !IsSpace(text[pos])
    ensures var c := text[pos];
            Scan(text, pos).Err? <==>
              !IsAlnum(c) && SingleCharKind(c).None? && !(c == '!' && FollowedByEquals(text, pos))
    ensures Scan(text, pos).Err? ==> Scan(text, pos) == Err(IllegalChar(text[pos]))
  {
  }
}
