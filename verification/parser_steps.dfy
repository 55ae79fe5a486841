/** Single-step facts about the parser's functions: what one test of the
    current token decides. The proofs about whole parses are built from
    these. */
module ParserSteps {
  import opened Wrappers
  import opened Tokens
  import opened Ast
  import opened Parser

  /** A kind is one of level `k`'s operators exactly when its level is `k`. */
  lemma LevelOpsExact(kind: TokenType, k: nat)
    requires 1 <= k <= 4
    ensures kind in LevelOps(k) <==> OpLevel(kind) == k
  {
  }

  /** Matching a level's operator list consumes exactly the tokens of that level. */
  lemma LevelMatch(toks: seq<Token>, q: nat, k: nat)
    requires ValidTokens(toks) && q < |toks| && 1 <= k <= 4
    ensures Match(toks, q, LevelOps(k)).0 <==> OpLevel(toks[q].kind) == k
  {
    LevelOpsExact(toks[q].kind, k);
  }

  /** One turn of a layer's loop, in terms of the token under the cursor:
      a token that is not one of this level's operators ends the loop... */
  lemma TailStop(toks: seq<Token>, k: nat, left: Expr, q: nat)
    requires ValidTokens(toks) && q < |toks| && 1 <= k <= 4
    requires OpLevel(toks[q].kind) != k
    ensures Tail(toks, k, left, q) == Parsed(left, q)
  {
    LevelOpsExact(toks[q].kind, k);
  }

  /** ...an operator followed by a bad operand fails with the operand's error... */
  lemma TailFail(toks: seq<Token>, k: nat, left: Expr, q: nat)
    requires ValidTokens(toks) && q < |toks| && 1 <= k <= 4
    requires OpLevel(toks[q].kind) == k && Layer(toks, k - 1, q + 1).SyntaxError?
    ensures Tail(toks, k, left, q) == Layer(toks, k - 1, q + 1)
  {
    LevelOpsExact(toks[q].kind, k);
  }

  /** ...and an operator followed by an operand folds it in to the left. */
  lemma TailFold(toks: seq<Token>, k: nat, left: Expr, q: nat, op: Token, right: Expr, q': nat)
    requires ValidTokens(toks) && q < |toks| && 1 <= k <= 4
    requires toks[q] == op && OpLevel(op.kind) == k
    requires Layer(toks, k - 1, q + 1) == Parsed(right, q')
    ensures q' < |toks|
    ensures Tail(toks, k, left, q) == Tail(toks, k, Binary(left, op, right), q')
  {
  }

  /** Matching the prefix operators consumes exactly `!` and `-`. */
  lemma UnaryMatch(toks: seq<Token>, p: nat)
    requires ValidTokens(toks) && p < |toks|
    ensures Match(toks, p, [BANG, MINUS]).0 <==> IsUnaryOp(toks[p].kind)
  {
  }

  /** `primary` on a keyword or literal token: a literal, one token long. */
  lemma PrimaryLiteral(toks: seq<Token>, p: nat)
    requires ValidTokens(toks) && p < |toks| && IsLiteralKind(toks[p].kind)
    ensures ParsePrimary(toks, p) == Parsed(Literal(TokenLit(toks[p])), p + 1)
  {
  }

  /** `primary` on `(`: the inner expression must be followed by `)`. */
  lemma PrimaryGroup(toks: seq<Token>, p: nat, inner: Expr, q: nat)
    requires ValidTokens(toks) && p < |toks| && toks[p].kind == LEFT_PAREN
    requires ParseExpression(toks, p + 1) == Parsed(inner, q)
    ensures q < |toks|
    ensures ParsePrimary(toks, p) ==
              if toks[q].kind == RIGHT_PAREN then Parsed(Grouping(inner), q + 1)
              else SyntaxError(Diagnostic(toks[q], ExpectRightParen))
  {
  }

  /** `primary` on `(` whose inner expression fails: the same failure. */
  lemma PrimaryGroupFail(toks: seq<Token>, p: nat)
    requires ValidTokens(toks) && p < |toks| && toks[p].kind == LEFT_PAREN
    requires ParseExpression(toks, p + 1).SyntaxError?
    ensures ParsePrimary(toks, p) == ParseExpression(toks, p + 1)
  {
  }

  /** `primary` on any other token (EOF included): "Expect expression." at it. */
  lemma PrimaryOther(toks: seq<Token>, p: nat)
    requires ValidTokens(toks) && p < |toks|
    requires !IsLiteralKind(toks[p].kind) && toks[p].kind != LEFT_PAREN
    ensures ParsePrimary(toks, p) == SyntaxError(Diagnostic(toks[p], ExpectExpression))
  {
  }

  /** A token other than EOF is never the last one. */
  lemma NotLast(toks: seq<Token>, p: nat)
    requires ValidTokens(toks) && p < |toks| && toks[p].kind != EOF
    ensures p + 1 < |toks|
  {
  }

  /** `unary` on a prefix operator: the operator applied to the next unary,
      or that unary's error. */
  lemma UnaryStep(toks: seq<Token>, p: nat)
    requires ValidTokens(toks) && p + 1 < |toks| && IsUnaryOp(toks[p].kind)
    ensures ParseUnary(toks, p) == match ParseUnary(toks, p + 1)
              case Parsed(x, q) => Parsed(Unary(toks[p], x), q)
              case SyntaxError(d) => SyntaxError(d)
  {
    var next := Advance(toks, p);
    assert next == p + 1 && Previous(toks, next) == toks[p];
    match ParseUnary(toks, next)
    case Parsed(x, q) =>
      assert ParseUnary(toks, p) == Parsed(Unary(toks[p], x), q);
    case SyntaxError(d) =>
  }

  lemma UnaryFold(toks: seq<Token>, p: nat, x: Expr, q: nat)
    requires ValidTokens(toks) && p + 1 < |toks| && IsUnaryOp(toks[p].kind)
    requires ParseUnary(toks, p + 1) == Parsed(x, q)
    ensures ParseUnary(toks, p) == Parsed(Unary(toks[p], x), q)
  {
    UnaryStep(toks, p);
  }

  lemma UnaryFail(toks: seq<Token>, p: nat)
    requires ValidTokens(toks) && p + 1 < |toks| && IsUnaryOp(toks[p].kind)
    requires ParseUnary(toks, p + 1).SyntaxError?
    ensures ParseUnary(toks, p) == ParseUnary(toks, p + 1)
  {
    UnaryStep(toks, p);
  }

  /** `unary` on anything else is `primary`. */
  lemma UnaryPrimary(toks: seq<Token>, p: nat)
    requires ValidTokens(toks) && p < |toks| && !IsUnaryOp(toks[p].kind)
    ensures ParseUnary(toks, p) == ParsePrimary(toks, p)
  {
  }

  /** A failing operand fails every layer above it with the same error. */
  lemma {:induction false} LayerFails(toks: seq<Token>, k: nat, p: nat)
    requires ValidTokens(toks) && p < |toks| && k <= 4 && ParseUnary(toks, p).SyntaxError?
    ensures Layer(toks, k, p) == ParseUnary(toks, p)
  {
    if k > 0 {
      var j: nat := k - 1;
      LayerFails(toks, j, p);
      LayerPassesFailure(toks, k, j, p);
    }
  }

  /** A layer whose first operand fails fails with the same error. */
  lemma LayerPassesFailure(toks: seq<Token>, k: nat, j: nat, p: nat)
    requires ValidTokens(toks) && p < |toks| && k == j + 1 && k <= 4 && Layer(toks, j, p).SyntaxError?
    ensures Layer(toks, k, p) == Layer(toks, j, p)
  {
  }
}
