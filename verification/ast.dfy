/** The abstract syntax tree: one closed sum type per node family, so that a
    single `match` replaces each visitor interface of the source. */
module Ast {
  import opened Wrappers
  import opened Tokens

  /** Expression nodes: the full eleven-variant set that the evaluator handles.
      The parser of this snapshot produces only Binary, Grouping, Literal and
      Unary (see `IsParserExpr`). */
  datatype Expr =
    | Assign(name: Token, value: Expr)
    | Binary(left: Expr, operator: Token, right: Expr)
    | Call(callee: Expr, paren: Token, arguments: seq<Expr>)
    | Grouping(expression: Expr)
    | Literal(lit: Lit)
    | Logical(left: Expr, operator: Token, right: Expr)
    | Set(target: Expr, name: Token, right: Expr)
    | Unary(operator: Token, right: Expr)
    | Variable(name: Token)
    | Array(values: ExprList)
    | Subscript(target: Expr, name: Token, index: Expr)

  /** The element list of an array literal, which the host allows to be
      null. */
  datatype ExprList = NullList | ExprList(exprs: seq<Expr>)

  /** Statement nodes. Absent parts (else branch, initializer, return value)
      are `None`. */
  datatype Stmt =
    | Block(statements: seq<Stmt>)
    | Expression(expression: Expr)
    | Function(decl: FunDecl)
    | If(condition: Expr, thenBranch: Stmt, elseBranch: Option<Stmt>)
    | Print(expression: Expr)
    | Return(keyword: Token, value: Option<Expr>)
    | Var(name: Token, initializer: Option<Expr>)
    | While(condition: Expr, body: Stmt)

  /** A function declaration: name, ordered parameters, body. */
  datatype FunDecl = FunDecl(name: Token, params: seq<Token>, body: seq<Stmt>)

  /** The four expression forms the expression parser builds. */
  predicate IsParserExpr(e: Expr)
  {
    match e
    case Binary(l, _, r) => IsParserExpr(l) && IsParserExpr(r)
    case Grouping(x) => IsParserExpr(x)
    case Literal(_) => true
    case Unary(_, x) => IsParserExpr(x)
    case _ => false
  }
}
