/** Token kinds, positions and the closed word lists (token/token.go). */
module Tokens {

  datatype TokenType =
    | ILLEGAL | EOF | NEWLINE
    | IDENT | INTEGER | FLOAT | STRING
    | ASSIGN | EQ | NEQ | LT | GT | LTEQ | GTEQ
    | PLUS | MINUS | BANG | ASTERISK | SLASH | PERCENT | AND | OR
    | LPAREN | RPAREN | LBRACE | RBRACE | LBRACKET | RBRACKET | COMMA | COLON | DOT
    | LET | CONST | INPUT | OUTPUT | FUNCTION | IF | ELSE | TRUE | FALSE

  /** A line and column, both counted from one. */
  datatype Pos = Pos(line: nat, col: nat)

  datatype Token = Token(pos: Pos, typ: TokenType, lit: string)

  const KEYWORDS: map<string, TokenType> := map[
    "let" := LET, "const" := CONST, "input" := INPUT, "output" := OUTPUT, "function" := FUNCTION,
    "if" := IF, "else" := ELSE, "true" := TRUE, "false" := FALSE
  ]

  /** Names the lexer emits as IDENT but no script may declare. */
  const RESERVED_IDENTS: set<string> := {"emit", "Init", "Run"}

  function LookupIdent(word: string): TokenType {
    if word in KEYWORDS then KEYWORDS[word] else IDENT
  }

  predicate IsIdentStart(c: char) {
    'a' <= c <= 'z' || 'A' <= c <= 'Z' || c == '_'
  }

  predicate IsDigit(c: char) {
    '0' <= c <= '9'
  }

  predicate IsIdentPart(c: char) {
    IsIdentStart(c) || IsDigit(c)
  }

  predicate IsIdent(s: string) {
    s != "" && IsIdentStart(s[0]) && forall i | 0 <= i < |s| :: IsIdentPart(s[i])
  }
}
