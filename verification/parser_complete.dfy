/** Completeness of the expression parser: it rebuilds every canonical tree
    from the tokens that spell it. */
module ParserComplete {
  import opened Wrappers
  import opened Tokens
  import opened Ast
  import opened Parser
  import opened ParserSteps
  import opened ParserSpec
  import opened ParserSpelling

  // ---------------------------------------------------------------------------
  // Completeness: the parser rebuilds every canonical tree from its spelling

  /** At level 0, `ParseUnary` reads back a unary or primary form. */
  lemma {:induction false} CompleteUnary(toks: seq<Token>, e: Expr, p: nat)
    requires ValidTokens(toks) && Canonical(e) && Level(e) == 0
    requires Spells(toks, p, e) && p + Width(e) < |toks|
    ensures ParseUnary(toks, p) == Parsed(e, p + Width(e))
    decreases e, 0, 1
  {
    match e
    case Unary(op, x) => CompleteUnaryOp(toks, op, x, p);
    case Literal(l) => CompleteLiteral(toks, l, p);
    case Grouping(x) => CompleteGrouping(toks, x, p);
  }

  lemma {:induction false} CompleteUnaryOp(toks: seq<Token>, op: Token, x: Expr, p: nat)
    requires ValidTokens(toks) && Canonical(Unary(op, x))
    requires Spells(toks, p, Unary(op, x)) && p + 1 + Width(x) < |toks|
    ensures ParseUnary(toks, p) == Parsed(Unary(op, x), p + 1 + Width(x))
    decreases Unary(op, x), 0, 0
  {
    CompleteUnary(toks, x, p + 1);
    UnaryFold(toks, p, x, p + 1 + Width(x));
  }

  lemma CompleteLiteral(toks: seq<Token>, l: Lit, p: nat)
    requires ValidTokens(toks)
    requires Spells(toks, p, Literal(l)) && p + 1 < |toks|
    ensures ParseUnary(toks, p) == Parsed(Literal(l), p + 1)
  {
    assert toks[p].kind == LitToken(l).kind;
    UnaryPrimary(toks, p);
    PrimaryLiteral(toks, p);
  }

  lemma {:induction false} CompleteGrouping(toks: seq<Token>, x: Expr, p: nat)
    requires ValidTokens(toks) && Canonical(x)
    requires Spells(toks, p, Grouping(x)) && p + 2 + Width(x) < |toks|
    ensures ParseUnary(toks, p) == Parsed(Grouping(x), p + 2 + Width(x))
    decreases Grouping(x), 0, 0
  {
    CanonicalLevel(x);
    Complete(toks, 4, x, p + 1);
    UnaryPrimary(toks, p);
    PrimaryGroup(toks, p, x, p + 1 + Width(x));
  }

  /** Parsing a canonical tree of level at most `k` at level `k`, followed by
      a token that no layer up to `k` continues on, yields exactly the tree. */
  lemma {:induction false} Complete(toks: seq<Token>, k: nat, e: Expr, p: nat)
    requires ValidTokens(toks) && k <= 4 && Canonical(e) && Level(e) <= k
    requires Spells(toks, p, e) && Stops(toks, p + Width(e), k)
    ensures Layer(toks, k, p) == Parsed(e, p + Width(e))
    decreases e, k, 4
  {
    if k == 0 {
      CompleteUnary(toks, e, p);
    } else {
      CompleteLayer(toks, k, e, p);
    }
  }

  /** `Complete` at a binary layer: fold up to `e`, then the loop stops. */
  lemma {:induction false} CompleteLayer(toks: seq<Token>, k: nat, e: Expr, p: nat)
    requires ValidTokens(toks) && 1 <= k <= 4 && Canonical(e) && Level(e) <= k
    requires Spells(toks, p, e) && Stops(toks, p + Width(e), k)
    ensures Layer(toks, k, p) == Parsed(e, p + Width(e))
    decreases e, k, 3
  {
    var first, q := Fold(toks, k, e, p);
    TailStop(toks, k, e, p + Width(e));
  }

  /** The left fold of a layer: parsing the operand at level `k - 1` gives
      some `first`, and continuing the level-`k` loop from it ends in the same
      place as continuing the loop with the whole of `e` already folded. */
  lemma {:induction false} Fold(toks: seq<Token>, k: nat, e: Expr, p: nat) returns (first: Expr, q: nat)
    requires ValidTokens(toks) && 1 <= k <= 4 && Canonical(e) && Level(e) <= k
    requires Spells(toks, p, e) && Stops(toks, p + Width(e), k - 1)
    ensures Layer(toks, k - 1, p) == Parsed(first, q) && q < |toks|
    ensures Tail(toks, k, first, q) == Tail(toks, k, e, p + Width(e))
    decreases e, k, 2
  {
    if Level(e) < k {
      Complete(toks, k - 1, e, p);
      first, q := e, p + Width(e);
    } else {
      first, q := FoldTop(toks, k, e, p);
    }
  }

  /** `Fold` on a tree whose top operator is of level `k` itself. */
  lemma {:induction false} FoldTop(toks: seq<Token>, k: nat, e: Expr, p: nat) returns (first: Expr, q: nat)
    requires ValidTokens(toks) && 1 <= k <= 4 && Canonical(e) && Level(e) == k
    requires Spells(toks, p, e) && Stops(toks, p + Width(e), k - 1)
    ensures Layer(toks, k - 1, p) == Parsed(first, q) && q < |toks|
    ensures Tail(toks, k, first, q) == Tail(toks, k, e, p + Width(e))
    decreases e, k, 1
  {
    match e
    case Binary(l, op, r) =>
      first, q := FoldBinary(toks, k, l, op, r, p, p + Width(l), p + Width(l) + 1 + Width(r));
  }

  /** The binary step of `Fold`, stated on the parts of `Binary(l, op, r)`. */
  lemma {:induction false} FoldBinary(toks: seq<Token>, k: nat, l: Expr, op: Token, r: Expr, p: nat, m: nat, end: nat)
    returns (first: Expr, q: nat)
    requires ValidTokens(toks) && 1 <= k <= 4 && OpLevel(op.kind) == k
    requires Canonical(l) && Level(l) <= k && Canonical(r) && Level(r) < k
    requires m == p + Width(l) && end == m + 1 + Width(r)
    requires Spells(toks, p, l)
    requires m < |toks| && toks[m] == op
    requires Spells(toks, m + 1, r)
    requires Stops(toks, end, k - 1)
    ensures Layer(toks, k - 1, p) == Parsed(first, q) && q < |toks|
    ensures Tail(toks, k, first, q) == Tail(toks, k, Binary(l, op, r), end)
    decreases Binary(l, op, r), k, 0
  {
    first, q := Fold(toks, k, l, p);
    FoldRight(toks, k, l, op, r, m, end);
  }

  /** The right operand of a fold: it parses at the next tighter level,
      so the loop steps over `op r` in one go. */
  lemma FoldRight(toks: seq<Token>, k: nat, l: Expr, op: Token, r: Expr, m: nat, end: nat)
    requires ValidTokens(toks) && 1 <= k <= 4 && OpLevel(op.kind) == k
    requires Canonical(r) && Level(r) < k && end == m + 1 + Width(r)
    requires m < |toks| && toks[m] == op
    requires Spells(toks, m + 1, r) && Stops(toks, end, k - 1)
    ensures Tail(toks, k, l, m) == Tail(toks, k, Binary(l, op, r), end)
    decreases Binary(l, op, r), k, 0, 0
  {
    Complete(toks, k - 1, r, m + 1);
    TailFold(toks, k, l, m, op, r, end);
  }
}
