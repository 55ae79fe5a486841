/** Soundness of the expression parser: whatever it builds is a canonical
    tree spelled by exactly the tokens it consumed. */
module ParserSound {
  import opened Wrappers
  import opened Tokens
  import opened Ast
  import opened Parser
  import opened ParserSteps
  import opened ParserSpec
  import opened ParserSpelling

  // ---------------------------------------------------------------------------
  // Soundness: whatever the parser builds is canonical and spelled by the
  // tokens it consumed

  /** A parenthesised group is sound when its inner expression is. */
  lemma {:induction false} SoundGroup(toks: seq<Token>, p: nat)
    requires ValidTokens(toks) && LiteralsDecoded(toks) && p < |toks| && toks[p].kind == LEFT_PAREN
    ensures SoundAt(toks, 0, p, ParsePrimary(toks, p))
    decreases |toks| - p, 0
  {
    SoundLayer(toks, 4, p + 1);
    match ParseExpression(toks, p + 1)
    case Parsed(inner, q) =>
      SoundGroupClose(toks, p, inner, q);
    case SyntaxError(_) =>
      PrimaryGroupFail(toks, p);
  }

  /** The group's closing parenthesis: present, or the error the parser
      reports in its place. */
  lemma SoundGroupClose(toks: seq<Token>, p: nat, inner: Expr, q: nat)
    requires ValidTokens(toks) && p < |toks| && toks[p].kind == LEFT_PAREN
    requires ParseExpression(toks, p + 1) == Parsed(inner, q)
    requires SoundAt(toks, 4, p + 1, Parsed(inner, q))
    ensures SoundAt(toks, 0, p, ParsePrimary(toks, p))
  {
    PrimaryGroup(toks, p, inner, q);
    if toks[q].kind == RIGHT_PAREN {
      NotLast(toks, q);
      JoinGrouping(toks, p, inner, q);
    }
  }

  lemma {:induction false} SoundPrimary(toks: seq<Token>, p: nat)
    requires ValidTokens(toks) && LiteralsDecoded(toks) && p < |toks|
    ensures SoundAt(toks, 0, p, ParsePrimary(toks, p))
    decreases |toks| - p, 1
  {
    if toks[p].kind == LEFT_PAREN {
      SoundGroup(toks, p);
    } else if IsLiteralKind(toks[p].kind) {
      PrimaryLiteral(toks, p);
      LiteralReadsBack(toks[p]);
    } else {
      PrimaryOther(toks, p);
    }
  }

  lemma {:induction false} SoundUnary(toks: seq<Token>, p: nat)
    requires ValidTokens(toks) && LiteralsDecoded(toks) && p < |toks|
    ensures SoundAt(toks, 0, p, ParseUnary(toks, p))
    decreases |toks| - p, 3
  {
    if IsUnaryOp(toks[p].kind) {
      SoundPrefix(toks, p);
    } else {
      UnaryPrimary(toks, p);
      SoundPrimary(toks, p);
    }
  }

  /** A prefix operator applied to a sound operand is sound. */
  lemma {:induction false} SoundPrefix(toks: seq<Token>, p: nat)
    requires ValidTokens(toks) && LiteralsDecoded(toks) && p < |toks| && IsUnaryOp(toks[p].kind)
    ensures SoundAt(toks, 0, p, ParseUnary(toks, p))
    decreases |toks| - p, 2
  {
    NotLast(toks, p);
    SoundUnary(toks, p + 1);
    match ParseUnary(toks, p + 1)
    case Parsed(x, q) =>
      UnaryFold(toks, p, x, q);
      JoinUnary(toks, p, x, q);
    case SyntaxError(_) =>
      UnaryFail(toks, p);
  }

  lemma {:induction false} SoundLayer(toks: seq<Token>, k: nat, p: nat)
    requires ValidTokens(toks) && LiteralsDecoded(toks) && p < |toks| && k <= 4
    ensures SoundAt(toks, k, p, Layer(toks, k, p))
    decreases |toks| - p, 2 * k + 4
  {
    if k == 0 {
      SoundUnary(toks, p);
    } else {
      SoundLayer(toks, k - 1, p);
      match Layer(toks, k - 1, p)
      case Parsed(first, q) =>
        SoundTail(toks, k, first, q, p);
      case SyntaxError(_) =>
    }
  }

  lemma {:induction false} SoundTail(toks: seq<Token>, k: nat, left: Expr, q: nat, p: nat)
    requires ValidTokens(toks) && LiteralsDecoded(toks) && q < |toks| && 1 <= k <= 4
    requires Canonical(left) && Level(left) <= k
    requires Spells(toks, p, left) && q == p + Width(left) && Stops(toks, q, k - 1)
    ensures SoundAt(toks, k, p, Tail(toks, k, left, q))
    decreases |toks| - q, 2 * k + 3
  {
    if OpLevel(toks[q].kind) != k {
      TailStop(toks, k, left, q);
    } else {
      SoundTailOp(toks, k, left, q, p);
    }
  }

  /** The loop on one of its operators: the next operand is sound, and either
      its error is the result or the fold continues. */
  lemma {:induction false} SoundTailOp(toks: seq<Token>, k: nat, left: Expr, q: nat, p: nat)
    requires ValidTokens(toks) && LiteralsDecoded(toks) && q < |toks| && 1 <= k <= 4
    requires Canonical(left) && Level(left) <= k
    requires Spells(toks, p, left) && q == p + Width(left)
    requires OpLevel(toks[q].kind) == k
    ensures SoundAt(toks, k, p, Tail(toks, k, left, q))
    decreases |toks| - q, 2 * k + 2
  {
    NotLast(toks, q);
    SoundLayer(toks, k - 1, q + 1);
    var r := Layer(toks, k - 1, q + 1);
    if r.Parsed? {
      SoundTailFold(toks, k, left, q, p, r.e, r.pos);
    } else {
      TailFail(toks, k, left, q);
    }
  }

  /** One fold of the loop keeps the accumulated tree sound. */
  lemma {:induction false} SoundTailFold(toks: seq<Token>, k: nat, left: Expr, q: nat, p: nat, right: Expr, q': nat)
    requires ValidTokens(toks) && LiteralsDecoded(toks) && q < |toks| && 1 <= k <= 4
    requires Canonical(left) && Level(left) <= k
    requires Spells(toks, p, left) && q == p + Width(left)
    requires OpLevel(toks[q].kind) == k
    requires Layer(toks, k - 1, q + 1) == Parsed(right, q')
    requires SoundAt(toks, k - 1, q + 1, Parsed(right, q'))
    ensures SoundAt(toks, k, p, Tail(toks, k, left, q))
    decreases |toks| - q, 2 * k + 1
  {
    TailFold(toks, k, left, q, toks[q], right, q');
    JoinBinary(toks, p, left, toks[q], right, q);
    SoundTail(toks, k, Binary(left, toks[q], right), q', p);
  }
}
