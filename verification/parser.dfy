/** The recursive-descent expression parser. Every parsing function is a pure
    function of the token sequence and a cursor position; the cursor only moves
    forward. The grammar, lowest precedence first:

      expression -> equality
      equality   -> comparison ( ( "!=" | "==" ) comparison )*
      comparison -> term ( ( ">" | ">=" | "<" | "<=" ) term )*
      term       -> factor ( ( "-" | "+" ) factor )*
      factor     -> unary ( ( "/" | "*" ) unary )*
      unary      -> ( "!" | "-" ) unary | primary
      primary    -> NUMBER | STRING | "true" | "false" | "nil" | "(" expression ")"

    The four left-associative binary layers share one definition, `Layer`,
    indexed by precedence level: 4 equality, 3 comparison, 2 term, 1 factor;
    level 0 is `ParseUnary`. */
module Parser {
  import opened Wrappers
  import opened Tokens
  import opened Ast

  /** A syntax error as handed to the diagnostics collaborator: the token at
      which it was detected and the message. */
  datatype Diagnostic = Diagnostic(at: Token, msg: string)

  /** Outcome of one parsing function: the tree and the cursor after it, or the
      syntax error that aborted the whole parse. */
  datatype ParseResult = Parsed(e: Expr, pos: nat) | SyntaxError(diag: Diagnostic)

  /** Outcome of `Parse`: the expression, or none plus the reported error. */
  datatype ParseOutcome = ParseOutcome(expr: Option<Expr>, errors: seq<Diagnostic>)

  const ExpectExpression := "Expect expression."
  const ExpectRightParen := "Expect ')' after expression."

  // ---------------------------------------------------------------------------
  // Cursor primitives

  predicate IsAtEnd(toks: seq<Token>, p: nat)
    requires p < |toks|
  {
    toks[p].kind == EOF
  }

  function Peek(toks: seq<Token>, p: nat): Token
    requires p < |toks|
  {
    toks[p]
  }

  function Previous(toks: seq<Token>, p: nat): Token
    requires 0 < p <= |toks|
  {
    toks[p - 1]
  }

  /** Does the current token have the given kind? Never true at EOF. */
  predicate Check(toks: seq<Token>, p: nat, kind: TokenType)
    requires p < |toks|
  {
    if IsAtEnd(toks, p) then false else Peek(toks, p).kind == kind
  }

  /** Consume the current token unless it is EOF. */
  function Advance(toks: seq<Token>, p: nat): (q: nat)
    requires ValidTokens(toks) && p < |toks|
    ensures q < |toks|
    ensures q == p || (q == p + 1 && toks[p].kind != EOF)
    ensures toks[p].kind != EOF ==> q == p + 1
  {
    if !IsAtEnd(toks, p) then p + 1 else p
  }

  /** Consume the current token if it has any of the given kinds (the
      source tries them in order; which one matched is never used). Returns
      whether it matched and the new cursor. */
  function Match(toks: seq<Token>, p: nat, kinds: seq<TokenType>): (r: (bool, nat))
    requires ValidTokens(toks) && p < |toks|
    ensures r.0 <==> (toks[p].kind != EOF && toks[p].kind in kinds)
    ensures r.1 == (if r.0 then p + 1 else p)
    ensures r.1 < |toks|
  {
    if !IsAtEnd(toks, p) && Peek(toks, p).kind in kinds then (true, Advance(toks, p))
    else (false, p)
  }

  /** Consume a token of the expected kind, or report `msg` at the current token. */
  function Consume(toks: seq<Token>, p: nat, kind: TokenType, msg: string): (r: Result<nat, Diagnostic>)
    requires ValidTokens(toks) && p < |toks|
    ensures r.Success? <==> (kind != EOF && toks[p].kind == kind)
    ensures r.Success? ==> r.value == p + 1 && r.value < |toks|
    ensures r.Failure? ==> r.error == Diagnostic(toks[p], msg)
  {
    if Check(toks, p, kind) then Success(Advance(toks, p))
    else Failure(Diagnostic(Peek(toks, p), msg))
  }

  // ---------------------------------------------------------------------------
  // Precedence levels

  /** The operator kinds a binary layer loops on. */
  function LevelOps(k: nat): seq<TokenType>
    requires 1 <= k <= 4
  {
    if k == 4 then [BANG_EQUAL, EQUAL_EQUAL]
    else if k == 3 then [GREATER, GREATER_EQUAL, LESS, LESS_EQUAL]
    else if k == 2 then [MINUS, PLUS]
    else [SLASH, STAR]
  }

  /** The level of a binary operator kind; 0 for every other kind. */
  function OpLevel(kind: TokenType): (k: nat)
    ensures k <= 4
  {
    if kind.BANG_EQUAL? || kind.EQUAL_EQUAL? then 4
    else if kind.GREATER? || kind.GREATER_EQUAL? || kind.LESS? || kind.LESS_EQUAL? then 3
    else if kind.MINUS? || kind.PLUS? then 2
    else if kind.SLASH? || kind.STAR? then 1
    else 0
  }

  /** The cursor fact every successful parsing function guarantees: it
      consumed at least one token and stayed inside the sequence. */
  predicate Progress(toks: seq<Token>, p: nat, r: ParseResult)
  {
    r.Parsed? ==> p < r.pos < |toks|
  }

  // ---------------------------------------------------------------------------
  // The grammar

  /** expression -> equality */
  function ParseExpression(toks: seq<Token>, p: nat): (r: ParseResult)
    requires ValidTokens(toks) && p < |toks|
    ensures Progress(toks, p, r)
    decreases |toks| - p, 11
  {
    Layer(toks, 4, p)
  }

  /** A binary layer: one operand of the next tighter level, then a loop. */
  function Layer(toks: seq<Token>, k: nat, p: nat): (r: ParseResult)
    requires ValidTokens(toks) && p < |toks| && k <= 4
    ensures Progress(toks, p, r)
    decreases |toks| - p, 2 * k + 2
  {
    if k == 0 then ParseUnary(toks, p)
    else
      match Layer(toks, k - 1, p)
      case Parsed(left, q) => Tail(toks, k, left, q)
      case SyntaxError(d) => SyntaxError(d)
  }

  /** The loop of a binary layer: while the current token is one of this
      level's operators, parse the next operand and fold to the left. The
      loop test is `Match(toks, q, LevelOps(k))`, written through `OpLevel`
      (`LevelMatch` shows the two agree). */
  function Tail(toks: seq<Token>, k: nat, left: Expr, q: nat): (r: ParseResult)
    requires ValidTokens(toks) && q < |toks| && 1 <= k <= 4
    ensures r.Parsed? ==> q <= r.pos < |toks|
    decreases |toks| - q, 2 * k + 1
  {
    if OpLevel(Peek(toks, q).kind) != k then Parsed(left, q)
    else
      var q1 := Advance(toks, q);
      var operator := Previous(toks, q1);
      match Layer(toks, k - 1, q1)
      case Parsed(right, q2) => Tail(toks, k, Binary(left, operator, right), q2)
      case SyntaxError(d) => SyntaxError(d)
  }

  /** The prefix operators `!` and `-`. */
  predicate IsUnaryOp(kind: TokenType)
  {
    kind == BANG || kind == MINUS
  }

  /** unary -> ( "!" | "-" ) unary | primary  (right-recursive). The test is
      `Match(toks, p, [BANG, MINUS])`, written through `IsUnaryOp`
      (`UnaryMatch` shows the two agree). */
  function ParseUnary(toks: seq<Token>, p: nat): (r: ParseResult)
    requires ValidTokens(toks) && p < |toks|
    ensures Progress(toks, p, r)
    decreases |toks| - p, 1
  {
    if IsUnaryOp(Peek(toks, p).kind) then
      var q := Advance(toks, p);
      var operator := Previous(toks, q);
      match ParseUnary(toks, q)
      case Parsed(right, q') => Parsed(Unary(operator, right), q')
      case SyntaxError(d) => SyntaxError(d)
    else ParsePrimary(toks, p)
  }

  /** primary -> NUMBER | STRING | "true" | "false" | "nil" | "(" expression ")" */
  function ParsePrimary(toks: seq<Token>, p: nat): (r: ParseResult)
    requires ValidTokens(toks) && p < |toks|
    ensures Progress(toks, p, r)
    decreases |toks| - p, 0
  {
    if IsLiteralKind(toks[p].kind) then Parsed(Literal(TokenLit(toks[p])), p + 1)
    else if toks[p].kind == LEFT_PAREN then
      match ParseExpression(toks, p + 1)
      case Parsed(inner, q) =>
        if toks[q].kind == RIGHT_PAREN then Parsed(Grouping(inner), q + 1)
        else SyntaxError(Diagnostic(toks[q], ExpectRightParen))
      case SyntaxError(d) => SyntaxError(d)
    else SyntaxError(Diagnostic(toks[p], ExpectExpression))
  }

  /** The literal a keyword or literal token stands for in `primary`. */
  function TokenLit(t: Token): Lit
  {
    if t.kind.FALSE? then BoolLit(false)
    else if t.kind.TRUE? then BoolLit(true)
    else if t.kind.NIL? then NilLit
    else t.literal
  }

  predicate IsLiteralKind(kind: TokenType)
  {
    kind == FALSE || kind == TRUE || kind == NIL || kind == NUMBER || kind == STRING
  }

  /** Parse one expression from the start of the stream. A syntax error is
      reported once and yields no expression; tokens after a complete
      expression are left unconsumed. */
  function Parse(toks: seq<Token>): (r: ParseOutcome)
    requires ValidTokens(toks)
    ensures r.expr.Some? ==> r.errors == []
    ensures r.expr.None? ==> |r.errors| == 1
  {
    match ParseExpression(toks, 0)
    case Parsed(e, _) => ParseOutcome(Some(e), [])
    case SyntaxError(d) => ParseOutcome(None, [d])
  }

  // ---------------------------------------------------------------------------
  // Error recovery

  /** A statement boundary at cursor `j`: EOF, just after a `;`, or before a
      keyword that starts a statement. */
  predicate Boundary(toks: seq<Token>, j: nat)
    requires 0 < j < |toks|
  {
    toks[j].kind == EOF || toks[j - 1].kind == SEMICOLON || StartsStatement(toks[j].kind)
  }

  /** Discard tokens up to the next statement boundary. Returns the new
      cursor, or `None` when the initial `advance` asks for the token before
      position 0 (an EOF-only stream), where the host throws. */
  method Synchronize(toks: seq<Token>, p: nat) returns (r: Option<nat>)
    requires ValidTokens(toks) && p < |toks|
    ensures r.None? <==> (p == 0 && toks[0].kind == EOF)
    ensures r.Some? && toks[p].kind == EOF ==> r.value == p
    ensures r.Some? && toks[p].kind != EOF ==>
              && p < r.value < |toks|
              && Boundary(toks, r.value)
              && (forall j :: p < j < r.value ==> !Boundary(toks, j))
  {
    if p == 0 && IsAtEnd(toks, p) {
      return None;
    }
    var cur := Advance(toks, p);
    while !IsAtEnd(toks, cur)
      invariant cur < |toks|
      invariant toks[p].kind == EOF ==> cur == p
      invariant toks[p].kind != EOF ==> p < cur
      invariant forall j :: p < j < cur ==> !Boundary(toks, j)
      decreases |toks| - cur
    {
      if Previous(toks, cur).kind == SEMICOLON {
        return Some(cur);
      }
      if StartsStatement(Peek(toks, cur).kind) {
        return Some(cur);
      }
      cur := Advance(toks, cur);
    }
    return Some(cur);
  }
}
