/** The `Lexer` object (lexer.py:44-173): a text, the position `pos` and the
    character under it, `current_char`, advanced one character at a time.
    Each method is proved to do what `LexerSpec` says of the position it
    started from. */
module Lexer {
  import opened Common
  import opened LexerSpec

  class Lexer {
    const text: string
    var pos: nat
    var currentChar: Option<char>

    /** `current_char` is the character at `pos`, None past the end, and
        `pos` never passes the end. */
    predicate Valid()
      reads this
    {
      pos <= |text| && currentChar == CharAt(text, pos)
    }

    constructor (text: string)
      ensures Valid() && this.text == text && pos == 0
    {
      this.text := text;
      pos := 0;
      currentChar := if |text| > 0 then Some(text[0]) else None;
    }

    /** `advance`: one position on; `current_char` follows. */
    method Advance()
      requires Valid()
      modifies this
      ensures pos == old(pos) + 1 && currentChar == CharAt(text, pos)
      ensures old(pos) < |text| ==> Valid()
    {
      pos := pos + 1;
      if pos > |text| - 1 {
        currentChar := None;
      } else {
        currentChar := Some(text[pos]);
      }
    }

    /** `integer`: the maximal run of digits from `pos`, read as a decimal
        number; `int("")` raises when there is none. */
    method Integer() returns (r: Result<nat, LexError>)
      requires Valid()
      modifies this
      ensures Valid() && pos == RunEnd(text, old(pos), Digits)
      ensures r.Ok? <==> old(pos) < pos
      ensures r.Err? ==> r.error == EmptyNumeral
      ensures r.Ok? ==> AllDigits(text[old(pos)..pos]) && r.value == DigitsValue(text[old(pos)..pos])
    {
      var result := "";
      while currentChar.Some? && IsDigit(currentChar.value)
        invariant Valid() && old(pos) <= pos
        invariant result == text[old(pos)..pos] && AllDigits(result)
        invariant RunEnd(text, old(pos), Digits) == RunEnd(text, pos, Digits)
        decreases |text| - pos
      {
        result := result + [currentChar.value];
        Advance();
      }
      if result == "" {
        return Err(EmptyNumeral);
      }
      return Ok(DigitsValue(result));
    }

    /** `_id`: the maximal alphanumeric run from `pos`, as a keyword token
        when its lower-case form is reserved and as an identifier otherwise. */
    method Id() returns (t: Token)
      requires Valid()
      modifies this
      ensures Valid() && pos == RunEnd(text, old(pos), Alnums)
      ensures t == KeywordOrId(text[old(pos)..pos])
    {
      var result := "";
      while currentChar.Some? && IsAlnum(currentChar.value)
        invariant Valid() && old(pos) <= pos
        invariant result == text[old(pos)..pos]
        invariant RunEnd(text, old(pos), Alnums) == RunEnd(text, pos, Alnums)
        decreases |text| - pos
      {
        result := result + [currentChar.value];
        Advance();
      }
      return KeywordOrId(result);
    }

    /** `peek`: the token `get_next_token` would return; the position and
        the current character are put back afterwards.  (An exception
        raised while peeking leaves them where it was raised.) */
    method Peek() returns (r: Result<Token, LexError>)
      requires Valid()
      modifies this
      ensures Valid()
      ensures r.Ok? ==> pos == old(pos) && currentChar == old(currentChar)
      ensures r == match Scan(text, old(pos))
                   case Ok(l) => Ok(l.token)
                   case Err(e) => Err(e)
    {
      var originalPos := pos;
      var originalCurrentChar := currentChar;
      var token :- GetNextToken();
      pos := originalPos;
      currentChar := originalCurrentChar;
      return Ok(token);
    }

    /** `get_next_token`: skips whitespace, then reads one token; EOF once
        the text is exhausted. */
    method GetNextToken() returns (r: Result<Token, LexError>)
      requires Valid()
      modifies this
      ensures Valid() && old(pos) <= pos
      ensures Scan(text, old(pos)) == match r
                                       case Ok(t) => Ok(Lexed(t, pos))
                                       case Err(e) => Err(e)
      ensures old(currentChar).None? ==> r == Ok(EofToken()) && pos == old(pos) && currentChar.None?
    {
      while currentChar.Some?
        invariant Valid() && old(pos) <= pos
        invariant Scan(text, old(pos)) == Scan(text, pos)
        decreases |text| - pos
      {
        var c := currentChar.value;
        if IsSpace(c) {
          Advance();
          continue;
        }
        if IsAlpha(c) {
          var t := Id();
          return Ok(t);
        }
        if IsDigit(c) {
          var value := Integer();
          return Ok(Token(INTEGER, Number(value.value)));
        }
        if StartsTwoChar(c) && FollowedByEquals(text, pos) {
          Advance();
          Advance();
          return Ok(Token(TwoCharKind(c), Text([c, '='])));
        }
        var single := SingleCharKind(c);
        if single.Some? {
          var token := Token(single.value, Text([c]));
          Advance();
          return Ok(token);
        }
        return Err(IllegalChar(c));
      }
      return Ok(EofToken());
    }
  }
}
