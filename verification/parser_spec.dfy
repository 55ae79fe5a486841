/** The reference the parser is measured against: the trees the grammar
    admits (`Canonical`), the tokens that spell a tree (`Unparse`, read
    structurally by `Spells`), and where a layer of the grammar must stop. */
module ParserSpec {
  import opened Wrappers
  import opened Tokens
  import opened Ast
  import opened Parser

  // ---------------------------------------------------------------------------
  // The reference: trees the parser can build and the tokens that spell them

  /** Precedence level of the top of a tree: a binary node has its operator's
      level, the unary and primary forms have level 0. */
  function Level(e: Expr): nat
  {
    match e
    case Binary(_, op, _) => OpLevel(op.kind)
    case _ => 0
  }

  /** The trees the grammar admits: the parser's four forms, nested as
      `WellNested` says. */
  predicate Canonical(e: Expr)
  {
    IsParserExpr(e) && WellNested(e)
  }

  /** A binary operator's left operand binds at most as loosely as the
      operator (left associativity), its right operand strictly tighter; a
      unary `!`/`-` applies to a unary or primary form. */
  predicate WellNested(e: Expr)
  {
    match e
    case Binary(l, op, r) =>
      && 1 <= OpLevel(op.kind)
      && Level(l) <= OpLevel(op.kind) && Level(r) < OpLevel(op.kind)
      && WellNested(l) && WellNested(r)
    case Unary(op, x) => IsUnaryOp(op.kind) && Level(x) == 0 && WellNested(x)
    case Grouping(x) => WellNested(x)
    case Literal(_) => true
    case _ => false
  }

  /** Kinds whose token the tree does not keep: only kind (and, for NUMBER
      and STRING, the decoded literal) survive into the tree. */
  predicate Erased(k: TokenType)
  {
    k.NIL? || k.TRUE? || k.FALSE? || k.NUMBER? || k.STRING? || k.LEFT_PAREN? || k.RIGHT_PAREN?
  }

  /** Stream token `t` stands for token `u` of a spelling: the same kind,
      the same decoded literal for NUMBER and STRING, and for every kind the
      tree keeps (the operators) the very same token. */
  predicate ReadsAs(t: Token, u: Token)
  {
    && t.kind == u.kind
    && (if t.kind.NUMBER? || t.kind.STRING? then t.literal == u.literal
        else Erased(t.kind) || t == u)
  }

  function LitToken(l: Lit): Token
  {
    match l
    case NilLit => Token(NIL, "", NilLit, 0)
    case BoolLit(b) => Token(if b then TRUE else FALSE, "", NilLit, 0)
    case NumLit(_) => Token(NUMBER, "", l, 0)
    case StrLit(_) => Token(STRING, "", l, 0)
  }

  const LeftParen := Token(LEFT_PAREN, "", NilLit, 0)
  const RightParen := Token(RIGHT_PAREN, "", NilLit, 0)

  /** The tokens that spell a tree of the parser's four forms; the other
      forms are never read back and spell nothing. */
  function Unparse(e: Expr): seq<Token>
  {
    match e
    case Binary(l, op, r) => Unparse(l) + [op] + Unparse(r)
    case Grouping(x) => [LeftParen] + Unparse(x) + [RightParen]
    case Literal(l) => [LitToken(l)]
    case Unary(op, x) => [op] + Unparse(x)
    case _ => []
  }

  /** `toks` spells `u` from position `p`, up to what the tree forgets. */
  predicate SpellsAt(toks: seq<Token>, p: nat, u: seq<Token>)
    decreases |u|
  {
    if u == [] then p <= |toks|
    else p < |toks| && ReadsAs(toks[p], u[0]) && SpellsAt(toks, p + 1, u[1..])
  }

  /** The number of tokens that spell a tree of the parser's forms. */
  function Width(e: Expr): nat
  {
    match e
    case Binary(l, _, r) => Width(l) + 1 + Width(r)
    case Grouping(x) => Width(x) + 2
    case Unary(_, x) => 1 + Width(x)
    case _ => 1
  }

  /** `toks` spells `e` from position `p`, read off the tree node by node;
      `ReadBack` shows that `SpellsAt(toks, p, Unparse(e))` implies it. */
  predicate Spells(toks: seq<Token>, p: nat, e: Expr)
    decreases e
  {
    match e
    case Binary(l, op, r) =>
      && Spells(toks, p, l)
      && p + Width(l) < |toks| && toks[p + Width(l)] == op
      && Spells(toks, p + Width(l) + 1, r)
    case Grouping(x) =>
      && p < |toks| && toks[p].kind == LEFT_PAREN
      && Spells(toks, p + 1, x)
      && p + 1 + Width(x) < |toks| && toks[p + 1 + Width(x)].kind == RIGHT_PAREN
    case Literal(l) => p < |toks| && ReadsAs(toks[p], LitToken(l))
    case Unary(op, x) => p < |toks| && toks[p] == op && Spells(toks, p + 1, x)
    case _ => false
  }

  /** The token at `q` exists and is not a binary operator of level 1..k, so
      no layer up to level `k` continues past it. */
  predicate Stops(toks: seq<Token>, q: nat, k: nat)
  {
    q < |toks| && !(1 <= OpLevel(toks[q].kind) <= k)
  }

  /** The scanner's guarantee that NUMBER and STRING tokens carry a number
      and a string. */
  predicate LiteralsDecoded(toks: seq<Token>)
  {
    forall i :: 0 <= i < |toks| ==>
      (toks[i].kind == NUMBER ==> toks[i].literal.NumLit?) &&
      (toks[i].kind == STRING ==> toks[i].literal.StrLit?)
  }

  // ---------------------------------------------------------------------------
  // What a successful parse promises

  /** The facts a successful parse at level `k` from `p` guarantees. */
  predicate SoundAt(toks: seq<Token>, k: nat, p: nat, r: ParseResult)
  {
    r.Parsed? ==>
      && Canonical(r.e) && Level(r.e) <= k
      && Spells(toks, p, r.e)
      && r.pos == p + Width(r.e)
      && Stops(toks, r.pos, k)
  }
}
