/** Block extraction (`block`, interpreter.py:120-140).

    After the opening `{` the interpreter walks the tokens with a nesting
    counter that starts at 1, goes up at every `{` and down at every `}`; the
    `}` that brings it to 0 closes the block, and reaching EOF first is an
    error.  The block's code is the text from the first token after `{` up to
    that `}`.  The body is re-run by a fresh interpreter; this model hands
    that interpreter the tokens strictly between the braces. */
module Blocks {
  import opened Common
  import opened Tokens
  import opened Values

  /** How a token moves the nesting counter. */
  function Delta(t: Tok): int {
    if t.kind == LBRACE then 1 else if t.kind == RBRACE then -1 else 0
  }

  /** The net change of the nesting counter over a run of tokens. */
  function Net(s: seq<Tok>): int {
    if s == [] then 0 else Delta(s[0]) + Net(s[1..])
  }

  /** The position of the `}` that brings a counter standing at `depth` back
      to 0, scanning from position `i`; None when the tokens run out first. */
  function MatchClose(toks: seq<Tok>, i: nat, depth: nat): (r: Option<nat>)
    requires i <= |toks| && depth >= 1
    ensures r.Some? ==> i <= r.value < |toks| && toks[r.value].kind == RBRACE
    decreases |toks| - i
  {
    if i == |toks| then None
    else if toks[i].kind == LBRACE then MatchClose(toks, i + 1, depth + 1)
    else if toks[i].kind == RBRACE then
      if depth == 1 then Some(i) else MatchClose(toks, i + 1, depth - 1)
    else MatchClose(toks, i + 1, depth)
  }

  /** One token of the scan: unless it is the closing `}`, the search goes
      on from the next token with the counter moved by the token's delta. */
  lemma MatchCloseStep(toks: seq<Tok>, i: nat, depth: nat)
    requires i < |toks| && depth >= 1 && !(toks[i].kind == RBRACE && depth == 1)
    ensures depth + Delta(toks[i]) >= 1
    ensures MatchClose(toks, i, depth) == MatchClose(toks, i + 1, depth + Delta(toks[i]))
  {
  }

  /** A block: its code (a slice of the program text) and the tokens lexed
      from that code. */
  datatype BlockCode = BlockCode(code: string, body: seq<Tok>)

  datatype BlockAt = BlockAt(block: BlockCode, at: nat)

  /** `block()` started at stream position `at`: eat `{`, find the matching
      `}`, cut out the code, eat the `}`. */
  function ScanBlock(src: Source, at: nat): (r: Result<BlockAt, Error>)
    requires WellFormed(src) && at <= |src.toks|
    ensures r.Ok? ==> at < r.value.at <= |src.toks|
    ensures r.Ok? ==> |r.value.block.body| < |src.toks|
    ensures r.Ok? ==> WellFormed(Source(src.text, r.value.block.body))
    ensures r.Err? ==> r.error in {SyntaxError(LBRACE, KindAt(src, at)), UnterminatedBlock}
  {
    if KindAt(src, at) != LBRACE then Err(SyntaxError(LBRACE, KindAt(src, at)))
    else
      var first := at + 1;
      match MatchClose(src.toks, first, 1)
      case None => Err(UnterminatedBlock)
      case Some(c) =>
        WellFormedSlice(src, first, c);
        var code := Slice(src.text, TokAt(src, first).start, src.toks[c].start);
        Ok(BlockAt(BlockCode(code, src.toks[first..c]), c + 1))
  }

  // ---------------------------------------------------------------------
  // The block is exactly what lies between `{` and its matching `}`

  lemma NetStep(toks: seq<Tok>, i: nat, k: nat)
    requires i < k <= |toks|
    ensures Net(toks[i..k]) == Delta(toks[i]) + Net(toks[i + 1..k])
  {
    assert toks[i..k][1..] == toks[i + 1..k];
  }

  lemma {:induction false} NetAppend(a: seq<Tok>, b: seq<Tok>)
    ensures Net(a + b) == Net(a) + Net(b)
  {
    if a != [] {
      assert (a + b)[0] == a[0] && (a + b)[1..] == a[1..] + b;
      NetAppend(a[1..], b);
      assert Net(a + b) == Delta(a[0]) + Net(a[1..] + b);
    } else {
      assert a + b == b;
    }
  }

  /** The match found is the first point where the counter returns to 0: it
      stays at 1 or more up to the matching `}`, which brings it to 0. */
  lemma {:induction false} MatchCloseNesting(toks: seq<Tok>, i: nat, depth: nat)
    requires i <= |toks| && depth >= 1 && MatchClose(toks, i, depth).Some?
    ensures var c := MatchClose(toks, i, depth).value;
            && depth + Net(toks[i..c + 1]) == 0
            && forall k | i <= k <= c :: depth + Net(toks[i..k]) >= 1
    decreases |toks| - i
  {
    var c := MatchClose(toks, i, depth).value;
    assert toks[i..i] == [];
    if toks[i].kind == RBRACE && depth == 1 {
      assert toks[i..i + 1][1..] == [];
    } else {
      var d := depth + Delta(toks[i]);
      MatchCloseStep(toks, i, depth);
      MatchCloseNesting(toks, i + 1, d);
      forall k | i < k <= c + 1
        ensures Net(toks[i..k]) == Delta(toks[i]) + Net(toks[i + 1..k])
      {
        NetStep(toks, i, k);
      }
    }
  }

  /** Without a match the counter never reaches 0. */
  lemma {:induction false} NoMatchNesting(toks: seq<Tok>, i: nat, depth: nat)
    requires i <= |toks| && depth >= 1 && MatchClose(toks, i, depth).None?
    ensures forall k | i <= k <= |toks| :: depth + Net(toks[i..k]) >= 1
    decreases |toks| - i
  {
    assert toks[i..i] == [];
    if i < |toks| {
      var d := depth + Delta(toks[i]);
      MatchCloseStep(toks, i, depth);
      NoMatchNesting(toks, i + 1, d);
      forall k | i < k <= |toks|
        ensures Net(toks[i..k]) == Delta(toks[i]) + Net(toks[i + 1..k])
      {
        NetStep(toks, i, k);
      }
    }
  }

  /** The tokens from `first` up to the `}` matching a `{` just before
      `first` close all they open, and no prefix of them closes more than it
      opens. */
  lemma MatchedIsBalanced(toks: seq<Tok>, first: nat, c: nat)
    requires first <= |toks| && MatchClose(toks, first, 1) == Some(c)
    ensures Net(toks[first..c]) == 0
    ensures forall k | 0 <= k <= c - first :: Net(toks[first..c][..k]) >= 0
  {
    MatchCloseNesting(toks, first, 1);
    var body := toks[first..c];
    assert toks[first..c + 1] == body + [toks[c]];
    NetAppend(body, [toks[c]]);
    assert Net([toks[c]]) == -1;
    forall k | 0 <= k <= |body|
      ensures Net(body[..k]) >= 0
    {
      assert body[..k] == toks[first..first + k];
    }
  }

  /** Without a match for a `{` just before `first`, no prefix of the rest
      closes more than it opens; with one, the prefix through it does. */
  lemma UnmatchedIff(toks: seq<Tok>, first: nat)
    requires first <= |toks|
    ensures var rest := toks[first..];
            MatchClose(toks, first, 1).None? <==> forall k | 0 <= k <= |rest| :: Net(rest[..k]) >= 0
  {
    var rest := toks[first..];
    forall k | 0 <= k <= |rest|
      ensures rest[..k] == toks[first..first + k]
    {
    }
    if MatchClose(toks, first, 1).None? {
      NoMatchNesting(toks, first, 1);
    } else {
      MatchCloseNesting(toks, first, 1);
      var c := MatchClose(toks, first, 1).value;
      assert rest[..c + 1 - first] == toks[first..c + 1];
    }
  }

  /** A successful `block()` started on a `{`; the body is the run of tokens
      strictly between the braces, it is balanced (every prefix opens at
      least as many braces as it closes, and the whole closes all it opens,
      so the `}` after it is the match). */
  lemma ScanBlockBalanced(src: Source, at: nat)
    requires WellFormed(src) && at <= |src.toks|
    requires ScanBlock(src, at).Ok?
    ensures var b := ScanBlock(src, at).value;
            var c := b.at - 1;
            && KindAt(src, at) == LBRACE && at < c && src.toks[c].kind == RBRACE
            && b.block.body == src.toks[at + 1..c]
            && Net(b.block.body) == 0
            && (forall k | 0 <= k <= |b.block.body| :: Net(b.block.body[..k]) >= 0)
  {
    var c := MatchClose(src.toks, at + 1, 1).value;
    MatchedIsBalanced(src.toks, at + 1, c);
  }

  /** In a program lexed in text order, the code cut out of the text runs
      from the first body token up to the matching `}`, and every body token
      starts inside it. */
  lemma ScanBlockCode(src: Source, at: nat)
    requires WellFormed(src) && InTextOrder(src) && at <= |src.toks|
    requires ScanBlock(src, at).Ok?
    ensures var b := ScanBlock(src, at).value;
            var c := b.at - 1;
            && TokAt(src, at + 1).start <= src.toks[c].start
            && b.block.code == src.text[TokAt(src, at + 1).start .. src.toks[c].start]
            && (forall t | t in b.block.body :: TokAt(src, at + 1).start <= t.start <= src.toks[c].start)
  {
    var first := at + 1;
    var c := MatchClose(src.toks, first, 1).value;
    var body := src.toks[first..c];
    forall t | t in body
      ensures TokAt(src, first).start <= t.start <= src.toks[c].start
    {
      var j :| 0 <= j < |body| && body[j] == t;
      assert t == src.toks[first + j];
    }
  }

  /** `block()` fails with UnterminatedBlock exactly when no `}` after the
      `{` brings the counter back to 0. */
  lemma ScanBlockUnterminated(src: Source, at: nat)
    requires WellFormed(src) && at <= |src.toks| && KindAt(src, at) == LBRACE
    ensures var rest := src.toks[at + 1..];
            ScanBlock(src, at) == Err(UnterminatedBlock) <==>
              forall k | 0 <= k <= |rest| :: Net(rest[..k]) >= 0
  {
    UnmatchedIff(src.toks, at + 1);
  }
}
