/** The token stream the parser consumes. The scanner that produces it is not
    part of this model; only the shape of its output is. */
module Tokens {

  /** The closed set of lexical categories. The names are the language's own. */
  datatype TokenType =
    // single-character tokens
    | LEFT_PAREN | RIGHT_PAREN | LEFT_BRACE | RIGHT_BRACE
    | LEFT_BRACKET | RIGHT_BRACKET | COMMA | DOT | MINUS | PLUS
    | SEMICOLON | SLASH | STAR
    // one- or two-character tokens
    | BANG | BANG_EQUAL | EQUAL | EQUAL_EQUAL
    | GREATER | GREATER_EQUAL | LESS | LESS_EQUAL
    // literals
    | IDENTIFIER | STRING | NUMBER
    // keywords
    | AND | CLASS | ELSE | FALSE | FUN | FOR | IF | NIL | OR
    | PRINT | RETURN | SUPER | THIS | TRUE | VAR | WHILE
    | EOF

  /** The decoded literal a token (or a literal expression) carries:
      the host's null, a boolean, a double or a string. */
  datatype Lit = NilLit | BoolLit(b: bool) | NumLit(n: real) | StrLit(s: string)

  /** An immutable token. */
  datatype Token = Token(kind: TokenType, lexeme: string, literal: Lit, line: int)

  /** A token stream as the scanner delivers it: never empty and closed by EOF. */
  predicate ValidTokens(toks: seq<Token>)
  {
    |toks| > 0 && toks[|toks| - 1].kind == EOF
  }

  /** The keywords that begin a declaration or statement. */
  predicate StartsStatement(k: TokenType)
  {
    k.CLASS? || k.FUN? || k.VAR? || k.FOR? || k.IF? || k.WHILE? || k.PRINT? || k.RETURN?
  }
}
