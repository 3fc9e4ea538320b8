/** The lexer object (package lexer): a cursor over the input that is moved
    byte by byte. Each method is proved to compute what module `LexSpec`
    says one step of lexing yields. */
module Lexing {

  import opened Tokens
  import opened LexSpec

  class Lexer {
    const input: seq<Byte>
    var pos: nat
    var nextPos: nat
    var currentChar: Byte

    /** The cursor is well formed: the look-ahead position is one past the
        cursor and the current byte is the byte under the cursor (0 past the
        end). */
    predicate Valid()
      reads this
    {
      nextPos == pos + 1 && currentChar == CharAt(input, pos)
    }

    /** A lexer at the start of `input`, the first byte loaded. */
    constructor (input: seq<Byte>)
      ensures Valid() && this.input == input && pos == 0
    {
      this.input := input;
      pos := 0;
      nextPos := 0;
      currentChar := '\0';
      new;
      ReadChar();
    }

    /** Moves the cursor to the look-ahead position and loads its byte. */
    method ReadChar()
      modifies this
      ensures pos == old(nextPos) && nextPos == old(nextPos) + 1
      ensures currentChar == CharAt(input, pos)
    {
      pos := nextPos;
      if nextPos < |input| {
        currentChar := input[pos];
      } else {
        currentChar := '\0';
      }
      nextPos := nextPos + 1;
    }

    /** The byte after the cursor, without moving. */
    function NextChar(): (c: Byte)
      reads this
      ensures Valid() ==> c == CharAt(input, pos + 1)
    {
      if nextPos >= |input| then '\0' else input[nextPos]
    }

    /** Reads the identifier that starts under the cursor: the cursor ends on
        its last byte, and the bytes read are the maximal letter run. */
    method ReadIdentifier() returns (s: string)
      requires Valid() && IsValidLetter(currentChar)
      modifies this
      ensures Valid()
      ensures pos + 1 == RunEnd(input, old(pos), Letters)
      ensures s == input[old(pos)..pos + 1]
    {
      var startPos := pos;
      while IsValidLetter(NextChar())
        invariant Valid() && startPos <= pos < |input|
        invariant RunEnd(input, startPos, Letters) == RunEnd(input, pos + 1, Letters)
        decreases |input| - pos
      {
        ReadChar();
      }
      s := input[startPos..pos + 1];
    }

    /** Reads the integer literal that starts under the cursor, as
        `ReadIdentifier` does for digits. */
    method ReadInteger() returns (s: string)
      requires Valid() && IsNumber(currentChar)
      modifies this
      ensures Valid()
      ensures pos + 1 == RunEnd(input, old(pos), Digits)
      ensures s == input[old(pos)..pos + 1]
    {
      var startPos := pos;
      while IsNumber(NextChar())
        invariant Valid() && startPos <= pos < |input|
        invariant RunEnd(input, startPos, Digits) == RunEnd(input, pos + 1, Digits)
        decreases |input| - pos
      {
        ReadChar();
      }
      s := input[startPos..pos + 1];
    }

    /** Moves the cursor over whitespace. */
    method Skip()
      requires Valid()
      modifies this
      ensures Valid() && pos == SkipSpace(input, old(pos))
    {
      while currentChar == ' ' || currentChar == '\t' || currentChar == '\n' || currentChar == '\r'
        invariant Valid() && old(pos) <= pos
        invariant SkipSpace(input, old(pos)) == SkipSpace(input, pos)
        decreases |input| + 1 - pos
      {
        ReadChar();
      }
    }

    /** A new lexer over the same input, at its start. */
    method Copy() returns (lx: Lexer)
      ensures fresh(lx) && lx.Valid() && lx.input == input && lx.pos == 0
    {
      lx := new Lexer(input);
    }

    /** Reads the next token. The final advance past the token's last byte is
        deferred in the source, so it happens on every path, including EOF:
        each return below is preceded by it. */
    method GetNextToken() returns (t: Token)
      requires Valid()
      modifies this
      ensures Valid() && (t, pos) == Scan(input, old(pos))
    {
      Skip();
      var kind := Illegal;
      match currentChar {
      case '\0' =>
        t := EofToken;
        ReadChar();
        return;
      case '=' =>
        if NextChar() == '=' {
          ReadChar();
          t := Token(Eq, "==");
          ReadChar();
          return;
        } else {
          kind := Assign;
        }
      case '!' =>
        if NextChar() == '=' {
          ReadChar();
          t := Token(NotEq, "!=");
          ReadChar();
          return;
        } else {
          kind := Bang;
        }
      case '<' =>
        if NextChar() == '=' {
          ReadChar();
          t := Token(Le, "<=");
          ReadChar();
          return;
        } else {
          kind := Lt;
        }
      case '>' =>
        if NextChar() == '=' {
          ReadChar();
          t := Token(Ge, ">=");
          ReadChar();
          return;
        } else {
          kind := Gt;
        }
      case '+' => kind := Plus;
      case '-' => kind := Minus;
      case '*' => kind := Asterisk;
      case '/' => kind := Slash;
      case '(' => kind := LParen;
      case ')' => kind := RParen;
      case '{' => kind := LBrace;
      case '}' => kind := RBrace;
      case ',' => kind := Comma;
      case ';' => kind := Semicolon;
      case ':' => kind := Colon;
      case '&' =>
        if NextChar() == '&' {
          ReadChar();
          t := Token(And, "&&");
          ReadChar();
          return;
        } else {
          kind := Illegal;
        }
      case '|' =>
        if NextChar() == '|' {
          ReadChar();
          t := Token(Or, "||");
          ReadChar();
          return;
        } else {
          kind := Illegal;
        }
      case _ =>
        t := ReadWord();
        return;
      }
      if kind == Illegal {
        t := IllegalToken;
      } else {
        t := NewToken(kind, currentChar);
      }
      ReadChar();
    }

    /** The `default` arm of the token switch: an identifier or keyword, an
        integer literal, or ILLEGAL for any other byte. */
    method ReadWord() returns (t: Token)
      requires Valid() && !IsSpace(currentChar) && currentChar != '\0'
      requires Operator(currentChar, NextChar()).None?
      modifies this
      ensures Valid() && (t, pos) == Scan(input, old(pos))
    {
      if IsValidLetter(currentChar) {
        var ident := ReadIdentifier();
        t := Token(GetTokenType(ident), ident);
      } else if IsNumber(currentChar) {
        var literal := ReadInteger();
        t := Token(Int, literal);
      } else {
        t := IllegalToken;
      }
      ReadChar();
    }
  }
}
