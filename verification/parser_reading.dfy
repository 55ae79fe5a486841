/** The written-out spelling `Unparse` read back structurally: tokens that
    spell `Unparse(e)` spell `e` in the sense of `Spells`. */
module ParserReading {
  import opened Wrappers
  import opened Tokens
  import opened Ast
  import opened Parser
  import opened ParserSpec
  import opened ParserSpelling

  /** Tokens that spell `Unparse(e)` spell `e` read structurally. */
  lemma {:induction false} ReadBack(toks: seq<Token>, p: nat, e: Expr)
    requires Canonical(e) && SpellsAt(toks, p, Unparse(e))
    ensures Width(e) == |Unparse(e)| && Spells(toks, p, e)
    decreases e, 1
  {
    match e
    case Binary(l, op, r) => ReadBackBinary(toks, p, l, op, r);
    case Grouping(x) => ReadBackGrouping(toks, p, x);
    case Literal(l) => SpellsLiteral(toks, p, l);
    case Unary(op, x) => ReadBackUnary(toks, p, op, x);
  }

  lemma {:induction false} ReadBackBinary(toks: seq<Token>, p: nat, l: Expr, op: Token, r: Expr)
    requires Canonical(l) && Canonical(r) && 1 <= OpLevel(op.kind)
    requires SpellsAt(toks, p, Unparse(Binary(l, op, r)))
    ensures Width(Binary(l, op, r)) == |Unparse(Binary(l, op, r))|
    ensures Spells(toks, p, Binary(l, op, r))
    decreases Binary(l, op, r), 0
  {
    SpellsBinary(toks, p, l, op, r, p + |Unparse(l)|);
    ReadBack(toks, p, l);
    ReadBack(toks, p + Width(l) + 1, r);
  }

  lemma {:induction false} ReadBackGrouping(toks: seq<Token>, p: nat, x: Expr)
    requires Canonical(x) && SpellsAt(toks, p, Unparse(Grouping(x)))
    ensures Width(Grouping(x)) == |Unparse(Grouping(x))|
    ensures Spells(toks, p, Grouping(x))
    decreases Grouping(x), 0
  {
    SpellsGrouping(toks, p, x);
    ReadBack(toks, p + 1, x);
  }

  lemma {:induction false} ReadBackUnary(toks: seq<Token>, p: nat, op: Token, x: Expr)
    requires Canonical(x) && IsUnaryOp(op.kind) && SpellsAt(toks, p, Unparse(Unary(op, x)))
    ensures Width(Unary(op, x)) == |Unparse(Unary(op, x))|
    ensures Spells(toks, p, Unary(op, x))
    decreases Unary(op, x), 0
  {
    SpellsUnary(toks, p, op, x);
    ReadBack(toks, p + 1, x);
  }

  /** Written out and closed by EOF, a canonical tree is spelled by its own
      tokens. */
  lemma UnparseSpells(e: Expr, eof: Token)
    requires Canonical(e)
    ensures Width(e) == |Unparse(e)|
    ensures Spells(Unparse(e) + [eof], 0, e)
  {
    var toks := Unparse(e) + [eof];
    forall i | 0 <= i < |Unparse(e)|
      ensures ReadsAs(toks[i], Unparse(e)[i])
    {
      assert toks[i] == Unparse(e)[i];
    }
    SpellsPointwise(toks, 0, Unparse(e));
    ReadBack(toks, 0, e);
  }
}
