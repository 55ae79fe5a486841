/** Facts about spellings: how the spelling of each form splits into the
    spellings of its parts, and the structural reading `Spells` agrees with
    the written-out one. */
module ParserSpelling {
  import opened Wrappers
  import opened Tokens
  import opened Ast
  import opened Parser
  import opened ParserSteps
  import opened ParserSpec

  // ---------------------------------------------------------------------------
  // Small facts

  lemma CanonicalLevel(e: Expr)
    requires Canonical(e)
    ensures IsParserExpr(e) && Level(e) <= 4
  {
  }

  lemma {:induction false} SpellsLength(toks: seq<Token>, p: nat, u: seq<Token>)
    requires SpellsAt(toks, p, u)
    ensures p + |u| <= |toks|
    decreases |u|
  {
    if u != [] {
      SpellsLength(toks, p + 1, u[1..]);
    }
  }

  lemma {:induction false} SpellsSplit(toks: seq<Token>, p: nat, a: seq<Token>, b: seq<Token>)
    ensures SpellsAt(toks, p, a + b) <==> SpellsAt(toks, p, a) && SpellsAt(toks, p + |a|, b)
    decreases |a|
  {
    if a == [] {
      assert a + b == b;
      if SpellsAt(toks, p, b) {
        SpellsLength(toks, p, b);
      }
    } else {
      assert (a + b)[0] == a[0];
      assert (a + b)[1..] == a[1..] + b;
      SpellsSplit(toks, p + 1, a[1..], b);
    }
  }

  /** The pointwise reading of `SpellsAt`. */
  lemma {:induction false} SpellsPointwise(toks: seq<Token>, p: nat, u: seq<Token>)
    requires p + |u| <= |toks| && forall i :: 0 <= i < |u| ==> ReadsAs(toks[p + i], u[i])
    ensures SpellsAt(toks, p, u)
    decreases |u|
  {
    if u != [] {
      assert ReadsAs(toks[p + 0], u[0]);
      forall i | 0 <= i < |u[1..]|
        ensures ReadsAs(toks[p + 1 + i], u[1..][i])
      {
        assert ReadsAs(toks[p + (i + 1)], u[i + 1]);
      }
      SpellsPointwise(toks, p + 1, u[1..]);
    }
  }

  /** A level-`k` operator stops every tighter layer. */
  lemma StopsBelow(toks: seq<Token>, q: nat, k: nat)
    requires q < |toks| && 1 <= k && OpLevel(toks[q].kind) == k
    ensures Stops(toks, q, k - 1)
  {
  }

  /** Operators are not erased by normalisation. */
  lemma OperatorKept(kind: TokenType)
    requires 1 <= OpLevel(kind) || IsUnaryOp(kind)
    ensures !Erased(kind)
  {
  }

  /** An operator token survives normalisation only as itself. */
  lemma OperatorReads(t: Token, op: Token)
    requires !Erased(op.kind) && ReadsAs(t, op)
    ensures t == op
  {
  }

  // ---------------------------------------------------------------------------
  // How the spelling of each form splits into the spellings of its parts

  lemma SpellsOne(toks: seq<Token>, m: nat, t: Token)
    ensures SpellsAt(toks, m, [t]) <==> m < |toks| && ReadsAs(toks[m], t)
  {
    assert [t][1..] == [];
  }

  lemma SpellsAround(toks: seq<Token>, p: nat, a: seq<Token>, t: Token, b: seq<Token>)
    ensures SpellsAt(toks, p, a + [t] + b) <==>
              && SpellsAt(toks, p, a)
              && p + |a| < |toks| && ReadsAs(toks[p + |a|], t)
              && SpellsAt(toks, p + |a| + 1, b)
  {
    SpellsSplit(toks, p, a + [t], b);
    SpellsSplit(toks, p, a, [t]);
    SpellsOne(toks, p + |a|, t);
  }

  lemma SpellsBinary(toks: seq<Token>, p: nat, l: Expr, op: Token, r: Expr, m: nat)
    requires 1 <= OpLevel(op.kind) && m == p + |Unparse(l)|
    ensures |Unparse(Binary(l, op, r))| == |Unparse(l)| + 1 + |Unparse(r)|
    ensures SpellsAt(toks, p, Unparse(Binary(l, op, r))) <==>
              && SpellsAt(toks, p, Unparse(l))
              && m < |toks| && toks[m] == op
              && SpellsAt(toks, m + 1, Unparse(r))
  {
    OperatorKept(op.kind);
    SpellsAround(toks, p, Unparse(l), op, Unparse(r));
    if m < |toks| && ReadsAs(toks[m], op) {
      OperatorReads(toks[m], op);
    }
  }

  lemma SpellsUnary(toks: seq<Token>, p: nat, op: Token, x: Expr)
    requires IsUnaryOp(op.kind)
    ensures |Unparse(Unary(op, x))| == 1 + |Unparse(x)|
    ensures SpellsAt(toks, p, Unparse(Unary(op, x))) <==>
              p < |toks| && toks[p] == op && SpellsAt(toks, p + 1, Unparse(x))
  {
    OperatorKept(op.kind);
    SpellsSplit(toks, p, [op], Unparse(x));
    SpellsOne(toks, p, op);
    if p < |toks| && ReadsAs(toks[p], op) {
      OperatorReads(toks[p], op);
    }
  }

  lemma SpellsGrouping(toks: seq<Token>, p: nat, x: Expr)
    ensures |Unparse(Grouping(x))| == |Unparse(x)| + 2
    ensures SpellsAt(toks, p, Unparse(Grouping(x))) <==>
              && p < |toks| && toks[p].kind == LEFT_PAREN
              && SpellsAt(toks, p + 1, Unparse(x))
              && p + 1 + |Unparse(x)| < |toks| && toks[p + 1 + |Unparse(x)|].kind == RIGHT_PAREN
  {
    SpellsAround(toks, p, [LeftParen] + Unparse(x), RightParen, []);
    SpellsSplit(toks, p, [LeftParen], Unparse(x));
    SpellsOne(toks, p, LeftParen);
    assert Unparse(Grouping(x)) == [LeftParen] + Unparse(x) + [RightParen] + [];
  }

  lemma SpellsLiteral(toks: seq<Token>, p: nat, l: Lit)
    ensures |Unparse(Literal(l))| == 1
    ensures SpellsAt(toks, p, Unparse(Literal(l))) <==> p < |toks| && ReadsAs(toks[p], LitToken(l))
  {
    SpellsOne(toks, p, LitToken(l));
  }

  /** Two canonical operands around an operator of a looser level make a
      canonical tree, spelled by their spellings around the operator. */
  lemma JoinBinary(toks: seq<Token>, p: nat, l: Expr, op: Token, r: Expr, q: nat)
    requires 1 <= OpLevel(op.kind) && Level(l) <= OpLevel(op.kind) && Level(r) < OpLevel(op.kind)
    requires Canonical(l) && Canonical(r)
    requires Spells(toks, p, l) && q == p + Width(l) && q < |toks| && toks[q] == op
    requires Spells(toks, q + 1, r)
    ensures Canonical(Binary(l, op, r)) && Level(Binary(l, op, r)) == OpLevel(op.kind)
    ensures Spells(toks, p, Binary(l, op, r))
    ensures p + Width(Binary(l, op, r)) == q + 1 + Width(r)
  {
  }

  /** A sound inner expression between `(` and `)` makes a sound group. */
  lemma JoinGrouping(toks: seq<Token>, p: nat, inner: Expr, q: nat)
    requires p < |toks| && toks[p].kind == LEFT_PAREN
    requires SoundAt(toks, 4, p + 1, Parsed(inner, q))
    requires toks[q].kind == RIGHT_PAREN && q + 1 < |toks|
    ensures SoundAt(toks, 0, p, Parsed(Grouping(inner), q + 1))
  {
  }

  /** A prefix operator before a sound operand makes a sound unary form. */
  lemma JoinUnary(toks: seq<Token>, p: nat, x: Expr, q: nat)
    requires p < |toks| && IsUnaryOp(toks[p].kind)
    requires SoundAt(toks, 0, p + 1, Parsed(x, q))
    ensures SoundAt(toks, 0, p, Parsed(Unary(toks[p], x), q))
  {
  }

  /** A decoded literal token reads as the token its literal writes back. */
  lemma LiteralReadsBack(t: Token)
    requires IsLiteralKind(t.kind)
    requires t.kind == NUMBER ==> t.literal.NumLit?
    requires t.kind == STRING ==> t.literal.StrLit?
    ensures ReadsAs(t, LitToken(TokenLit(t)))
  {
  }
}
