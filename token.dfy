/**
 * Tokens (src/token.rs). The lexer itself is not modelled: the parser is
 * fed the sequence of items the lexer would produce.
 */
module Tokens {
  import opened Wrappers
  import opened Values

  datatype LexingError = InvalidNumber

  /** `Token`, plus the end marker `EOF` that the parser and `Precedence::from_token` use. */
  datatype Token =
    // Single character tokens
    | Plus | Minus | Star | Slash
    | LParen | RParen | LBrace | RBrace | Semicolon | Comma | Dot
    // One or two character tokens
    | Bang | BangEqual | Equal | EqualEqual
    | Greater | GreaterEqual | Less | LessEqual
    // Literals
    | Identifier(name: string) | String(text: string) | Number(number: F64)
    // Keywords
    | And | Class | Else | False | For | Fun | If | Nil
    | Or | Print | Return | Super | Var | While
    // End of input
    | EOF

  /**
   * One item of the lexer's output: what `next()` yields, the line count
   * the lexer holds afterwards (its `extras.0`) and the matched text (its `slice()`).
   */
  datatype Lexeme = Lexeme(token: Result<Token, LexingError>, line: nat, slice: string)
}
