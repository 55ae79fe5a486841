/** The parser's behaviour on small inputs, each stated for every choice of
    literal and operator tokens: left associativity, precedence, nested
    prefix operators, the two syntax errors, and input left unread. */
module ParserExamples {
  import opened Wrappers
  import opened Tokens
  import opened Ast
  import opened Parser
  import opened ParserSteps
  import opened ParserSpec
  import opened ParserSpelling
  import opened ParserComplete
  import opened ParserProps

  /** A literal token the scanner produced: NUMBER and STRING carry their value. */
  predicate LiteralToken(t: Token)
  {
    && IsLiteralKind(t.kind)
    && (t.kind == NUMBER ==> t.literal.NumLit?)
    && (t.kind == STRING ==> t.literal.StrLit?)
  }

  /** The tree a literal token parses to. */
  function Leaf(t: Token): Expr
  {
    Literal(TokenLit(t))
  }

  /** `a op1 b op2 c` groups to the left when `op1` binds at least as tightly
      as `op2`: `1 - 2 - 3` is `(1 - 2) - 3` and `1 * 2 + 3` is `(1 * 2) + 3`. */
  lemma GroupsLeft(a: Token, op1: Token, b: Token, op2: Token, c: Token, eof: Token)
    requires LiteralToken(a) && LiteralToken(b) && LiteralToken(c) && eof.kind == EOF
    requires 1 <= OpLevel(op1.kind) <= OpLevel(op2.kind)
    ensures Parse([a, op1, b, op2, c, eof]) ==
              ParseOutcome(Some(Binary(Binary(Leaf(a), op1, Leaf(b)), op2, Leaf(c))), [])
  {
    var toks := [a, op1, b, op2, c, eof];
    LiteralReadsBack(a);
    LiteralReadsBack(b);
    LiteralReadsBack(c);
    var left := Binary(Leaf(a), op1, Leaf(b));
    assert Width(Leaf(a)) == 1 && Width(Leaf(b)) == 1;
    assert Spells(toks, 0, Leaf(a)) && toks[1] == op1 && Spells(toks, 2, Leaf(b));
    assert Spells(toks, 0, left) && Width(left) == 3;
    ParseFindsCanonical(toks, Binary(left, op2, Leaf(c)));
  }

  /** `a op1 b op2 c` groups to the right when `op2` binds more tightly:
      `1 + 2 * 3` is `1 + (2 * 3)`. */
  lemma TighterOnTheRight(a: Token, op1: Token, b: Token, op2: Token, c: Token, eof: Token)
    requires LiteralToken(a) && LiteralToken(b) && LiteralToken(c) && eof.kind == EOF
    requires 1 <= OpLevel(op2.kind) < OpLevel(op1.kind)
    ensures Parse([a, op1, b, op2, c, eof]) ==
              ParseOutcome(Some(Binary(Leaf(a), op1, Binary(Leaf(b), op2, Leaf(c)))), [])
  {
    var toks := [a, op1, b, op2, c, eof];
    LiteralReadsBack(a);
    LiteralReadsBack(b);
    LiteralReadsBack(c);
    var right := Binary(Leaf(b), op2, Leaf(c));
    assert Spells(toks, 2, right) && Width(right) == 3;
    ParseFindsCanonical(toks, Binary(Leaf(a), op1, right));
  }

  /** Prefix operators nest to the right: `- - 1` and `! - 1`. */
  lemma PrefixesNest(u1: Token, u2: Token, a: Token, eof: Token)
    requires IsUnaryOp(u1.kind) && IsUnaryOp(u2.kind) && LiteralToken(a) && eof.kind == EOF
    ensures Parse([u1, u2, a, eof]) == ParseOutcome(Some(Unary(u1, Unary(u2, Leaf(a)))), [])
  {
    LiteralReadsBack(a);
    var toks := [u1, u2, a, eof];
    assert Width(Leaf(a)) == 1;
    assert Width(Unary(u2, Leaf(a))) == 2;
    assert Spells(toks, 1, Unary(u2, Leaf(a)));
    ParseFindsCanonical(toks, Unary(u1, Unary(u2, Leaf(a))));
  }

  /** A token that cannot start an expression (a closing parenthesis, a binary
      operator that is not also a prefix one, a keyword, EOF itself) is
      reported as "Expect expression." at that token. */
  lemma NoExpression(toks: seq<Token>)
    requires ValidTokens(toks)
    requires !IsLiteralKind(toks[0].kind) && toks[0].kind != LEFT_PAREN && !IsUnaryOp(toks[0].kind)
    ensures Parse(toks) == ParseOutcome(None, [Diagnostic(toks[0], ExpectExpression)])
  {
    PrimaryOther(toks, 0);
    UnaryPrimary(toks, 0);
    LayerFails(toks, 4, 0);
  }

  /** An unclosed group is reported as "Expect ')' after expression." at the
      token where the `)` should be. */
  lemma Unclosed(lp: Token, a: Token, eof: Token)
    requires lp.kind == LEFT_PAREN && LiteralToken(a) && eof.kind == EOF
    ensures Parse([lp, a, eof]) == ParseOutcome(None, [Diagnostic(eof, ExpectRightParen)])
  {
    var toks := [lp, a, eof];
    LiteralReadsBack(a);
    Complete(toks, 4, Leaf(a), 1);
    PrimaryGroup(toks, 0, Leaf(a), 2);
    UnaryPrimary(toks, 0);
    LayerFails(toks, 4, 0);
  }

  /** The parser stops after one expression: in `1 2` the `2` is left unread
      and the result is `1`. */
  lemma TrailingUnread(a: Token, b: Token, eof: Token)
    requires LiteralToken(a) && LiteralToken(b) && eof.kind == EOF
    ensures Parse([a, b, eof]) == ParseOutcome(Some(Leaf(a)), [])
  {
    LiteralReadsBack(a);
    ParseFindsCanonical([a, b, eof], Leaf(a));
  }
}
