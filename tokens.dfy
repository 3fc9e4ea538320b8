/** Lexical categories and tokens of the Gorilla language (package token). */
module Tokens {

  import opened Options

  /** The token types. In the source a token type is a string and every
      type is one of a closed set of string constants; here a type is the
      position of its constant in `TypeNames`, and `TypeName` gives the
      string back. Types are only ever compared for equality. */
  newtype TokenType = t: int | 0 <= t < 34

  const Illegal: TokenType := 0
  const Eof: TokenType := 1
  const Ident: TokenType := 2
  const Int: TokenType := 3
  const Assign: TokenType := 4
  const Plus: TokenType := 5
  const Minus: TokenType := 6
  const Bang: TokenType := 7
  const Asterisk: TokenType := 8
  const Slash: TokenType := 9
  const Lt: TokenType := 10
  const Gt: TokenType := 11
  const Eq: TokenType := 12
  const NotEq: TokenType := 13
  const Le: TokenType := 14
  const Ge: TokenType := 15
  const And: TokenType := 16
  const Or: TokenType := 17
  const Comma: TokenType := 18
  const Semicolon: TokenType := 19
  const Colon: TokenType := 20
  const LParen: TokenType := 21
  const RParen: TokenType := 22
  const LBrace: TokenType := 23
  const RBrace: TokenType := 24
  const LBracket: TokenType := 25
  const RBracket: TokenType := 26
  const Function: TokenType := 27
  const Let: TokenType := 28
  const True: TokenType := 29
  const False: TokenType := 30
  const If: TokenType := 31
  const Else: TokenType := 32
  const Return: TokenType := 33

  /** The string value of each token type constant, in the order of the
      constants above. `And` and `Or` are used by the lexer and the
      precedence table but have no declaration in the token package; they
      are given the spelling of their operators. */
  const TypeNames: seq<string> := [
    "ILLEGAL", "EOF", "IDENT", "INT", "=", "+", "-", "!", "*", "/", "<", ">",
    "==", "!=", "<=", ">=", "&&", "||", ",", ";", ":", "(", ")", "{", "}",
    "[", "]", "FN", "LET", "TRUE", "FALSE", "IF", "ELSE", "RETURN"
  ]

  function TypeName(t: TokenType): string
  {
    TypeNames[t]
  }

  /** Reads a type name back: the inverse of `TypeName`. */
  function TypeOfName(s: string): Option<TokenType>
  {
    if s == "ILLEGAL" then Some(Illegal)
    else if s == "EOF" then Some(Eof)
    else if s == "IDENT" then Some(Ident)
    else if s == "INT" then Some(Int)
    else if s == "=" then Some(Assign)
    else if s == "+" then Some(Plus)
    else if s == "-" then Some(Minus)
    else if s == "!" then Some(Bang)
    else if s == "*" then Some(Asterisk)
    else if s == "/" then Some(Slash)
    else if s == "<" then Some(Lt)
    else if s == ">" then Some(Gt)
    else if s == "==" then Some(Eq)
    else if s == "!=" then Some(NotEq)
    else if s == "<=" then Some(Le)
    else if s == ">=" then Some(Ge)
    else if s == "&&" then Some(And)
    else if s == "||" then Some(Or)
    else if s == "," then Some(Comma)
    else if s == ";" then Some(Semicolon)
    else if s == ":" then Some(Colon)
    else if s == "(" then Some(LParen)
    else if s == ")" then Some(RParen)
    else if s == "{" then Some(LBrace)
    else if s == "}" then Some(RBrace)
    else if s == "[" then Some(LBracket)
    else if s == "]" then Some(RBracket)
    else if s == "FN" then Some(Function)
    else if s == "LET" then Some(Let)
    else if s == "TRUE" then Some(True)
    else if s == "FALSE" then Some(False)
    else if s == "IF" then Some(If)
    else if s == "ELSE" then Some(Else)
    else if s == "RETURN" then Some(Return)
    else None
  }

  /** Reading a type's name gives the type back. */
  lemma TypeNameRoundTrip(t: TokenType)
    ensures TypeOfName(TypeName(t)) == Some(t)
  {
    match t as int
    case 0 =>
    case 1 =>
    case 2 =>
    case 3 =>
    case 4 =>
    case 5 =>
    case 6 =>
    case 7 =>
    case 8 =>
    case 9 =>
    case 10 =>
    case 11 =>
    case 12 =>
    case 13 =>
    case 14 =>
    case 15 =>
    case 16 =>
    case 17 =>
    case 18 =>
    case 19 =>
    case 20 =>
    case 21 =>
    case 22 =>
    case 23 =>
    case 24 =>
    case 25 =>
    case 26 =>
    case 27 =>
    case 28 =>
    case 29 =>
    case 30 =>
    case 31 =>
    case 32 =>
    case _ =>
  }

  /** All token type constants are pairwise distinct strings. */
  lemma TypeNameInjective(t: TokenType, u: TokenType)
    ensures TypeName(t) == TypeName(u) ==> t == u
  {
    TypeNameRoundTrip(t);
    TypeNameRoundTrip(u);
  }

  /** The keyword table. Matching is exact, so "True" is a keyword and
      "true" is not. */
  const Keywords: map<string, TokenType> := map[
    "fn" := Function,
    "let" := Let,
    "True" := True,
    "False" := False,
    "if" := If,
    "else" := Else,
    "return" := Return
  ]

  predicate IsKeywordType(t: TokenType)
  {
    t in {Function, Let, True, False, If, Else, Return}
  }

  /** Classifies a scanned identifier: its keyword type on an exact match of
      a table key, `Ident` otherwise. */
  function GetTokenType(identifier: string): (r: TokenType)
    ensures identifier in Keywords ==> r == Keywords[identifier]
    ensures identifier !in Keywords ==> r == Ident
    ensures r == Ident || IsKeywordType(r)
  {
    if identifier in Keywords then Keywords[identifier] else Ident
  }

  /** Every keyword is at least two letters long, so a one-letter name is
      an identifier. */
  lemma SingleLetterIsIdent(c: char)
    ensures GetTokenType([c]) == Ident
  {
    forall w | w in Keywords ensures |w| >= 2 {
    }
  }

  /** Distinct keyword spellings map to distinct token types. */
  lemma KeywordsInjective(a: string, b: string)
    requires a in Keywords && b in Keywords && a != b
    ensures Keywords[a] != Keywords[b]
  {
  }

  /** Only the table's exact spellings are keywords: the lower-case
      booleans stay identifiers. */
  lemma KeywordsAreCaseSensitive()
    ensures GetTokenType("True") == True && GetTokenType("False") == False
    ensures GetTokenType("true") == Ident && GetTokenType("false") == Ident
    ensures GetTokenType("Let") == Ident && GetTokenType("IF") == Ident
  {
  }

  /** A byte of source text. Source text is a Go string, that is, a sequence
      of bytes; a byte is written here as a character below 256. */
  type Byte = c: char | c as int < 256 witness '\0'

  /** A token is a type with the text it was read from, nothing more. */
  datatype Token = Token(kind: TokenType, literal: string)

  /** Builds a one-character token from a single byte, without validation. */
  function NewToken(kind: TokenType, c: Byte): (t: Token)
    ensures t.kind == kind
    ensures |t.literal| == 1 && t.literal[0] == c
  {
    Token(kind, [c])
  }
}
