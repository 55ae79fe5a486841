/** What the expression parser computes, stated against an independent
    reference: the parser returns `e` exactly when `e` is a `Canonical` tree,
    the stream spells it from the start (`Spells`, over `Width(e)` tokens) and
    the next token cannot continue it. `RoundTrip` closes the loop with
    `Unparse`, which writes a tree back out as tokens. Precedence and left
    associativity are what `Canonical` says about the nesting of operators;
    `ParserExamples` instantiates it. */
module ParserProps {
  import opened Wrappers
  import opened Tokens
  import opened Ast
  import opened Parser
  import opened ParserSteps
  import opened ParserSpec
  import opened ParserSpelling
  import opened ParserReading
  import opened ParserComplete
  import opened ParserSound

  // ---------------------------------------------------------------------------
  // The characterisation

  /** Whatever `Parse` returns is canonical, spelled by the stream, and
      followed by a token that is not a binary operator. */
  lemma ParseGivesCanonical(toks: seq<Token>, e: Expr)
    requires ValidTokens(toks) && LiteralsDecoded(toks) && Parse(toks).expr == Some(e)
    ensures Canonical(e) && Spells(toks, 0, e) && Stops(toks, Width(e), 4)
  {
    SoundLayer(toks, 4, 0);
  }

  /** Every canonical tree spelled at the start of the stream, and followed by
      a token that is not a binary operator, is what `Parse` returns. */
  lemma ParseFindsCanonical(toks: seq<Token>, e: Expr)
    requires ValidTokens(toks)
    requires Canonical(e) && Spells(toks, 0, e) && Stops(toks, Width(e), 4)
    ensures Parse(toks) == ParseOutcome(Some(e), [])
  {
    CanonicalLevel(e);
    Complete(toks, 4, e, 0);
  }

  /** The parser builds only the four node forms this snapshot's `Expr`
      declares: Binary, Grouping, Literal and Unary. */
  lemma ParserForms(toks: seq<Token>, e: Expr)
    requires ValidTokens(toks) && LiteralsDecoded(toks) && Parse(toks).expr == Some(e)
    ensures IsParserExpr(e)
  {
    ParseGivesCanonical(toks, e);
  }

  /** `Parse` returns `e` if and only if `e` is a canonical tree, the stream
      starts with its spelling, and the token after it is not a binary
      operator (anything else after it is left unread). */
  lemma ParseIff(toks: seq<Token>, e: Expr)
    requires ValidTokens(toks) && LiteralsDecoded(toks)
    ensures Parse(toks).expr == Some(e) <==>
              Canonical(e) && Spells(toks, 0, e) && Stops(toks, Width(e), 4)
  {
    if Parse(toks).expr == Some(e) {
      ParseGivesCanonical(toks, e);
    } else if Canonical(e) && Spells(toks, 0, e) && Stops(toks, Width(e), 4) {
      ParseFindsCanonical(toks, e);
    }
  }

  /** The round trip: a canonical tree, written out and closed by EOF, parses
      back to itself. */
  lemma RoundTrip(e: Expr, eof: Token)
    requires Canonical(e) && eof.kind == EOF
    ensures IsParserExpr(e)
    ensures Parse(Unparse(e) + [eof]) == ParseOutcome(Some(e), [])
  {
    CanonicalLevel(e);
    UnparseSpells(e, eof);
    Complete(Unparse(e) + [eof], 4, e, 0);
  }
}
