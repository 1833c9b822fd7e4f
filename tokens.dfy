/** The token stream the interpreter reads.

    interpreter.py imports more token kinds than lexer.py defines (strings,
    braces, semicolons, `//`, the loop keywords, `else`, `print`) and reads a
    start offset for each token.  The interpreter therefore gets its own
    token universe here: every kind it imports, each token carrying its
    payload and the offset in the program text where it starts.  A program
    is its text together with the tokens lexed from it; reading past the
    last token yields `EOF` forever, as a lexer does once its input is
    exhausted. */
module Tokens {

  /** The kinds interpreter.py imports (interpreter.py:3-35). */
  datatype Kind =
    | STRING | LOOP | TIMES | FROM | TO | LBRACE | RBRACE | SEMI
    | ID | ASSIGN | INTEGER | PLUS | MINUS | ASTERISK | SLASH | IDIV
    | LPAREN | RPAREN | EOF | IF | THEN | ELSE | PRINT
    | EQ | NE | LT | GT | LTE | GTE

  /** A token's `value`: an integer literal's number, a string literal's
      contents or an identifier's name; nothing for the other kinds. */
  datatype Payload = NoPayload | IntP(n: int) | TextP(s: string)

  datatype Tok = Tok(kind: Kind, value: Payload, start: nat)

  /** A program: its text and the tokens lexed from it, without the final EOF. */
  datatype Source = Source(text: string, toks: seq<Tok>)

  /** What a lexer guarantees of each token it emits: the payload matches the
      kind, the token starts inside the text, and EOF only ever comes from
      running off the end. */
  predicate TokenOK(t: Tok, text: string) {
    && t.kind != EOF
    && (t.kind == INTEGER ==> t.value.IntP?)
    && (t.kind == STRING || t.kind == ID ==> t.value.TextP?)
    && t.start < |text|
  }

  /** Every token is well formed. */
  predicate WellFormed(src: Source) {
    forall i | 0 <= i < |src.toks| :: TokenOK(src.toks[i], src.text)
  }

  /** Tokens appear in text order, as a lexer emits them. */
  predicate InTextOrder(src: Source) {
    forall i, j | 0 <= i < j < |src.toks| :: src.toks[i].start <= src.toks[j].start
  }

  /** Python's `text[a:b]` for non-negative bounds: both are clamped to the
      length, and the slice is empty when `a` is not before `b`. */
  function Slice(text: string, a: nat, b: nat): (s: string)
    ensures a <= b <= |text| ==> s == text[a..b]
    ensures b <= a ==> s == []
  {
    var a' := if a < |text| then a else |text|;
    var b' := if b < |text| then b else |text|;
    if a' < b' then text[a'..b'] else []
  }

  function EofToken(src: Source): Tok {
    Tok(EOF, NoPayload, |src.text|)
  }

  /** The token at stream position `i`; EOF once the stream is exhausted. */
  function TokAt(src: Source, i: nat): Tok {
    if i < |src.toks| then src.toks[i] else EofToken(src)
  }

  function KindAt(src: Source, i: nat): Kind {
    TokAt(src, i).kind
  }

  /** The stream position after one more token has been pulled: pulling at
      the end yields EOF again and stays put. */
  function Bump(src: Source, i: nat): (j: nat)
    requires i <= |src.toks|
    ensures j <= |src.toks|
    ensures KindAt(src, i) != EOF ==> j == i + 1
    ensures KindAt(src, i) == EOF && WellFormed(src) ==> j == i
  {
    if i < |src.toks| then i + 1 else i
  }

  /** In a well-formed program EOF is read exactly once the stream is
      exhausted. */
  lemma EofOnlyAtEnd(src: Source, i: nat)
    requires WellFormed(src) && i <= |src.toks|
    ensures KindAt(src, i) == EOF <==> i == |src.toks|
  {
    if i < |src.toks| {
      assert TokenOK(src.toks[i], src.text);
    }
  }

  /** The tokens between two positions of a well-formed program, over the
      same text, form a well-formed program. */
  lemma WellFormedSlice(src: Source, a: nat, b: nat)
    requires WellFormed(src) && a <= b <= |src.toks|
    ensures WellFormed(Source(src.text, src.toks[a..b]))
  {
    var sub := Source(src.text, src.toks[a..b]);
    forall i | 0 <= i < |sub.toks|
      ensures TokenOK(sub.toks[i], sub.text)
    {
      assert sub.toks[i] == src.toks[a + i];
    }
  }
}
