/** `get_next_token` as lexer.py:91-173 writes it.

    The checks for `==`, `!=`, `<=` and `>=` (lexer.py:107-125) ask
    `self.peek().value == "="`.  `peek` (lexer.py:76-89) saves the position
    and calls `get_next_token` again, from the same, unadvanced position, so
    that call reaches the same check and calls `peek` again.  Nothing
    changes between the nested calls, so on `=`, `!`, `<` or `>` the lexer
    never returns (in Python it ends in RecursionError).

    The depth of nested calls is bounded here by `fuel`; running out of it
    is `OutOfFuel`.  The lemmas show that every fuel runs out exactly when
    the next non-blank character is one of those four, and that otherwise
    this function agrees with `LexerSpec.Scan`. */
module LexerAsWritten {
  import opened Common
  import opened LexerSpec

  /** A call either returns (a token or an exception) or needs more nested
      calls than the fuel allows. */
  datatype Outcome = Returns(r: Result<Lexed, LexError>) | OutOfFuel

  function ScanAsWritten(text: string, pos: nat, fuel: nat): (o: Outcome)
    requires pos <= |text|
    ensures o.OutOfFuel? ==> OperatorAhead(text, pos)
    decreases fuel, |text| - pos
  {
    if pos == |text| then Returns(Ok(Lexed(EofToken(), pos)))
    else if IsSpace(text[pos]) then ScanAsWritten(text, pos + 1, fuel)
    else
      var c := text[pos];
      if IsAlpha(c) || IsDigit(c) then Returns(ScanAt(text, pos))
      else if StartsTwoChar(c) then
        if fuel == 0 then OutOfFuel
        else
          // `peek()`: a nested `get_next_token` from this same position
          match ScanAsWritten(text, pos, fuel - 1)
          case OutOfFuel => OutOfFuel
          case Returns(Err(e)) => Returns(Err(e))
          case Returns(Ok(peeked)) =>
            if peeked.token.value == Text("=") then Returns(Ok(Lexed(Token(TwoCharKind(c), Text([c, '='])), pos + 2)))
            else Returns(SingleChar(text, pos))
      else Returns(SingleChar(text, pos))
  }

  /** The next non-blank character starts one of the peeking checks. */
  predicate OperatorAhead(text: string, pos: nat)
    requires pos <= |text|
  {
    var q := SkipSpace(text, pos);
    q < |text| && StartsTwoChar(text[q])
  }

  /** With `=`, `!`, `<` or `>` ahead, no depth of nested calls is enough
      (and, by the contract of `ScanAsWritten`, only then does the fuel run
      out). */
  lemma {:induction false} NeverReturnsOnOperator(text: string, pos: nat, fuel: nat)
    requires pos <= |text| && OperatorAhead(text, pos)
    ensures ScanAsWritten(text, pos, fuel) == OutOfFuel
    decreases fuel, |text| - pos
  {
    if IsSpace(text[pos]) {
      NeverReturnsOnOperator(text, pos + 1, fuel);
    } else if fuel > 0 {
      NeverReturnsOnOperator(text, pos, fuel - 1);
    }
  }

  /** Anywhere else the code as written returns what `Scan` describes, with
      no nested call at all. */
  lemma {:induction false} AgreesElsewhere(text: string, pos: nat, fuel: nat)
    requires pos <= |text| && !OperatorAhead(text, pos)
    ensures ScanAsWritten(text, pos, fuel) == Returns(Scan(text, pos))
    decreases |text| - pos
  {
    if pos < |text| && IsSpace(text[pos]) {
      AgreesElsewhere(text, pos + 1, fuel);
    }
  }

  /** In `a = 1` the lexer returns `a` and then never returns: the
      assignment `=` it should read is never produced. */
  lemma AssignmentIsNeverRead(fuel: nat)
    ensures Scan("a = 1", 0) == Ok(Lexed(Token(ID, Text("a")), 1))
    ensures ScanAsWritten("a = 1", 0, fuel) == Returns(Ok(Lexed(Token(ID, Text("a")), 1)))
    ensures Scan("a = 1", 1) == Ok(Lexed(Token(ASSIGN, Text("=")), 3))
    ensures ScanAsWritten("a = 1", 1, fuel) == OutOfFuel
  {
    var text := "a = 1";
    assert RunEnd(text, 1, Alnums) == 1;
    assert RunEnd(text, 0, Alnums) == 1;
    assert text[0..1] == "a";
    assert ToLower("a") == "a";
    assert SkipSpace(text, 1) == 2;
    NeverReturnsOnOperator(text, 1, fuel);
  }
}
