/** What one call of the lexer returns, as functions of the input and the
    cursor position (package lexer). The `Lexer` class in module `Lexing`
    is proved to compute exactly these. */
module LexSpec {

  import opened Options
  import opened Tokens

  /** The byte under a cursor position; 0 once the position is past the end. */
  function CharAt(input: seq<Byte>, p: nat): Byte
  {
    if p < |input| then input[p] else '\0'
  }

  predicate IsValidLetter(c: Byte)
  {
    ('a' <= c <= 'z') || ('A' <= c <= 'Z') || c == '_'
  }

  predicate IsNumber(c: Byte)
  {
    '0' <= c <= '9'
  }

  /** The four bytes `skip` passes over. */
  predicate IsSpace(c: Byte)
  {
    c == ' ' || c == '\t' || c == '\n' || c == '\r'
  }

  /** The two kinds of maximal run the lexer reads. */
  datatype Run = Letters | Digits

  predicate InRun(c: Byte, run: Run)
  {
    match run
    case Letters => IsValidLetter(c)
    case Digits => IsNumber(c)
  }

  /** The first position at or after `p` whose byte is not whitespace. */
  function SkipSpace(input: seq<Byte>, p: nat): (q: nat)
    ensures p <= q
    ensures q == p || q <= |input|
    ensures !IsSpace(CharAt(input, q))
    ensures forall i | p <= i < q :: IsSpace(CharAt(input, i))
    decreases |input| - p
  {
    if IsSpace(CharAt(input, p)) then SkipSpace(input, p + 1) else p
  }

  /** The end of the maximal run of `run` bytes that starts at `p`. */
  function RunEnd(input: seq<Byte>, p: nat, run: Run): (q: nat)
    ensures p <= q
    ensures q == p || q <= |input|
    ensures !InRun(CharAt(input, q), run)
    ensures forall i | p <= i < q :: InRun(CharAt(input, i), run)
    decreases |input| - p
  {
    if InRun(CharAt(input, p), run) then RunEnd(input, p + 1, run) else p
  }

  const IllegalToken: Token := Token(Illegal, TypeName(Illegal))
  const EofToken: Token := Token(Eof, "EOF")

  /** The operator and delimiter arm of the lexer's switch: the token that
      starts with byte `c` when the byte after it is `peek`, and its width.
      `&` and `|` not doubled give ILLEGAL; `None` for any other byte. */
  function Operator(c: Byte, peek: Byte): Option<(Token, nat)>
  {
    match c
    case '=' => Some(if peek == '=' then (Token(Eq, "=="), 2) else (NewToken(Assign, c), 1))
    case '!' => Some(if peek == '=' then (Token(NotEq, "!="), 2) else (NewToken(Bang, c), 1))
    case '<' => Some(if peek == '=' then (Token(Le, "<="), 2) else (NewToken(Lt, c), 1))
    case '>' => Some(if peek == '=' then (Token(Ge, ">="), 2) else (NewToken(Gt, c), 1))
    case '+' => Some((NewToken(Plus, c), 1))
    case '-' => Some((NewToken(Minus, c), 1))
    case '*' => Some((NewToken(Asterisk, c), 1))
    case '/' => Some((NewToken(Slash, c), 1))
    case '(' => Some((NewToken(LParen, c), 1))
    case ')' => Some((NewToken(RParen, c), 1))
    case '{' => Some((NewToken(LBrace, c), 1))
    case '}' => Some((NewToken(RBrace, c), 1))
    case ',' => Some((NewToken(Comma, c), 1))
    case ';' => Some((NewToken(Semicolon, c), 1))
    case ':' => Some((NewToken(Colon, c), 1))
    case '&' => Some(if peek == '&' then (Token(And, "&&"), 2) else (IllegalToken, 1))
    case '|' => Some(if peek == '|' then (Token(Or, "||"), 2) else (IllegalToken, 1))
    case _ => None
  }

  /** An operator token is spelled by the bytes it was read from: one byte,
      or two when the peeked byte completes it. */
  lemma OperatorSpelling(c: Byte, peek: Byte)
    requires Operator(c, peek).Some?
    ensures var (t, w) := Operator(c, peek).value;
      && t.kind !in {Eof, Ident, Int}
      && (w == 1 || w == 2)
      && (t.kind != Illegal ==> t.literal == if w == 1 then [c] else [c, peek])
      && (w == 2 ==> peek != '\0')
      && !IsSpace(c) && c != '\0' && !IsValidLetter(c) && !IsNumber(c)
  {
  }

  /** One call of GetNextToken on a lexer whose cursor is at `p`: the token
      returned and the cursor afterwards. Whitespace is skipped first; the
      byte after the token start is peeked for the two-character operators;
      identifiers and integers are maximal runs; the final advance past the
      token's last byte always happens, also after EOF. */
  function Scan(input: seq<Byte>, p: nat): (r: (Token, nat))
    ensures r.1 > SkipSpace(input, p)
    ensures r.0.kind == Eof <==> CharAt(input, SkipSpace(input, p)) == '\0'
    ensures r.0.kind != Eof ==> r.1 <= |input|
  {
    var s := SkipSpace(input, p);
    var c := CharAt(input, s);
    if c == '\0' then (EofToken, s + 1)
    else match Operator(c, CharAt(input, s + 1))
      case Some((t, w)) =>
        OperatorSpelling(c, CharAt(input, s + 1));
        (t, s + w)
      case None =>
        if IsValidLetter(c) then
          var e := RunEnd(input, s, Letters);
          (Token(GetTokenType(input[s..e]), input[s..e]), e)
        else if IsNumber(c) then
          var e := RunEnd(input, s, Digits);
          (Token(Int, input[s..e]), e)
        else (IllegalToken, s + 1)
  }

  /** Past the end of the input every call returns EOF and moves on by one. */
  lemma ScanPastEnd(input: seq<Byte>, p: nat)
    requires |input| <= p
    ensures Scan(input, p) == (EofToken, p + 1)
  {
  }

  /** Every token other than EOF and ILLEGAL is spelled by exactly the bytes
      it was read from, none of them whitespace. */
  lemma ScanLiteral(input: seq<Byte>, p: nat)
    requires Scan(input, p).0.kind !in {Eof, Illegal}
    ensures SkipSpace(input, p) < Scan(input, p).1 <= |input|
    ensures Scan(input, p).0.literal == input[SkipSpace(input, p)..Scan(input, p).1]
    ensures NoSpaces(Scan(input, p).0.literal)
  {
    var s := SkipSpace(input, p);
    var c := CharAt(input, s);
    if Operator(c, CharAt(input, s + 1)).Some? {
      OperatorLiteral(input, s);
    } else if IsValidLetter(c) {
      RunHasNoSpace(input, s, Letters);
    } else {
      RunHasNoSpace(input, s, Digits);
    }
  }

  /** An operator other than ILLEGAL read at `s` is spelled by the bytes at
      `s`, none of them whitespace. */
  lemma OperatorLiteral(input: seq<Byte>, s: nat)
    requires CharAt(input, s) != '\0'
    requires Operator(CharAt(input, s), CharAt(input, s + 1)).Some?
    requires Operator(CharAt(input, s), CharAt(input, s + 1)).value.0.kind != Illegal
    ensures var (t, w) := Operator(CharAt(input, s), CharAt(input, s + 1)).value;
            s + w <= |input| && t.literal == input[s..s + w] && NoSpaces(t.literal)
  {
    var c := CharAt(input, s);
    var peek := CharAt(input, s + 1);
    OperatorSpelling(c, peek);
    var w := Operator(c, peek).value.1;
    assert s < |input|;
    assert w == 2 ==> s + 1 < |input|;
    assert input[s..s + w] == if w == 1 then [c] else [c, peek];
  }

  predicate NoSpaces(x: seq<Byte>)
  {
    forall i | 0 <= i < |x| :: !IsSpace(x[i])
  }

  /** A run read from a byte in the run is non-empty, lies inside the input
      and holds no whitespace. */
  lemma RunHasNoSpace(input: seq<Byte>, s: nat, run: Run)
    requires InRun(CharAt(input, s), run)
    ensures s < RunEnd(input, s, run) <= |input|
    ensures NoSpaces(input[s..RunEnd(input, s, run)])
  {
    var e := RunEnd(input, s, run);
    forall i | 0 <= i < e - s ensures !IsSpace(input[s..e][i]) {
      assert input[s..e][i] == CharAt(input, s + i);
      assert InRun(CharAt(input, s + i), run);
    }
  }

  /** Tokens of the calls that start before the end of the input, in call
      order. Every later call returns EOF. */
  function LexFrom(input: seq<Byte>, p: nat): (ts: seq<Token>)
    ensures |input| <= p ==> ts == []
    decreases |input| - p
  {
    if |input| <= p then []
    else [Scan(input, p).0] + LexFrom(input, Scan(input, p).1)
  }

  /** The token stream read as an endless sequence: EOF after the end. */
  function TokenAt(ts: seq<Token>, i: nat): Token
  {
    if i < |ts| then ts[i] else EofToken
  }

  /** The cursor after `n` calls made from cursor `p`. */
  function PosAfter(input: seq<Byte>, p: nat, n: nat): nat
    decreases n
  {
    if n == 0 then p else PosAfter(input, Scan(input, p).1, n - 1)
  }

  lemma {:induction false} PosAfterGrows(input: seq<Byte>, p: nat, n: nat)
    ensures PosAfter(input, p, n) >= p + n
    decreases n
  {
    if n > 0 {
      PosAfterGrows(input, Scan(input, p).1, n - 1);
    }
  }

  lemma {:induction false} PosAfterStep(input: seq<Byte>, p: nat, n: nat)
    ensures PosAfter(input, p, n + 1) == Scan(input, PosAfter(input, p, n)).1
    decreases n
  {
    if n > 0 {
      PosAfterStep(input, Scan(input, p).1, n - 1);
    }
  }

  /** The n-th call made from cursor `p` returns the n-th token of the
      padded stream, and the cursor is past the end of the input exactly
      when the finite part of the stream is used up. */
  lemma {:induction false} StreamAgrees(input: seq<Byte>, p: nat, n: nat)
    ensures Scan(input, PosAfter(input, p, n)).0 == TokenAt(LexFrom(input, p), n)
    ensures |input| <= PosAfter(input, p, n) <==> |LexFrom(input, p)| <= n
    decreases n
  {
    if |input| <= p {
      PosAfterGrows(input, p, n);
      ScanPastEnd(input, PosAfter(input, p, n));
    } else {
      var (t, q) := Scan(input, p);
      var rest := LexFrom(input, q);
      assert LexFrom(input, p) == [t] + rest;
      if n == 0 {
        assert PosAfter(input, p, n) == p;
      } else {
        StreamAgrees(input, q, n - 1);
        assert PosAfter(input, p, n) == PosAfter(input, q, n - 1);
        assert TokenAt([t] + rest, n) == TokenAt(rest, n - 1);
      }
    }
  }

  /** One more call from the cursor reached after `n` calls returns token
      `n` of the stream and leaves the cursor reached after `n + 1` calls. */
  lemma Advance(input: seq<Byte>, p: nat, n: nat)
    ensures Scan(input, PosAfter(input, p, n)) == (TokenAt(LexFrom(input, p), n), PosAfter(input, p, n + 1))
  {
    StreamAgrees(input, p, n);
    PosAfterStep(input, p, n);
  }

  /** The input with its whitespace bytes removed. */
  function NonSpace(s: seq<Byte>): seq<Byte>
  {
    if s == [] then []
    else (if IsSpace(s[0]) then [] else [s[0]]) + NonSpace(s[1..])
  }

  lemma {:induction false} NonSpaceAppend(a: seq<Byte>, b: seq<Byte>)
    ensures NonSpace(a + b) == NonSpace(a) + NonSpace(b)
  {
    if a != [] {
      assert (a + b)[0] == a[0];
      assert (a + b)[1..] == a[1..] + b;
      NonSpaceAppend(a[1..], b);
    } else {
      assert a + b == b;
    }
  }

  lemma {:induction false} NonSpaceOfSpaces(s: seq<Byte>)
    requires forall i | 0 <= i < |s| :: IsSpace(s[i])
    ensures NonSpace(s) == []
  {
    if s != [] {
      NonSpaceOfSpaces(s[1..]);
    }
  }

  lemma {:induction false} NonSpaceOfNoSpaces(s: seq<Byte>)
    requires NoSpaces(s)
    ensures NonSpace(s) == s
  {
    if s != [] {
      NonSpaceOfNoSpaces(s[1..]);
    }
  }

  /** The concatenated literals of the tokens other than EOF. */
  function Spelling(ts: seq<Token>): string
  {
    if ts == [] then []
    else (if ts[0].kind == Eof then [] else ts[0].literal) + Spelling(ts[1..])
  }

  predicate NoNul(input: seq<Byte>)
  {
    forall i | 0 <= i < |input| :: input[i] != '\0'
  }

  predicate NoIllegal(ts: seq<Token>)
  {
    forall i | 0 <= i < |ts| :: ts[i].kind != Illegal
  }

  /** Lexing loses nothing but whitespace: on input without NUL bytes that
      yields no ILLEGAL token, the literals before EOF spell the input with
      its whitespace removed. */
  lemma {:induction false} SpellingRoundTrip(input: seq<Byte>, p: nat)
    requires p <= |input| && NoNul(input) && NoIllegal(LexFrom(input, p))
    ensures Spelling(LexFrom(input, p)) == NonSpace(input[p..])
    decreases |input| - p
  {
    if p < |input| {
      var s := SkipSpace(input, p);
      var (t, q) := Scan(input, p);
      var ts := LexFrom(input, p);
      assert ts == [t] + LexFrom(input, q);
      assert ts[1..] == LexFrom(input, q);
      LeadingSpaces(input, p);
      if s == |input| {
        assert LexFrom(input, q) == [];
        assert input[s..] == [];
      } else {
        assert ts[0] == t;
        TokenSpelling(input, p);
        NoIllegalTail(ts);
        SpellingRoundTrip(input, q);
      }
    }
  }

  /** The whitespace skipped before a token adds nothing to the spelling. */
  lemma LeadingSpaces(input: seq<Byte>, p: nat)
    requires p <= |input|
    ensures SkipSpace(input, p) <= |input|
    ensures NonSpace(input[p..]) == NonSpace(input[SkipSpace(input, p)..])
  {
    var s := SkipSpace(input, p);
    assert input[p..] == input[p..s] + input[s..];
    NonSpaceAppend(input[p..s], input[s..]);
    forall i | 0 <= i < |input[p..s]| ensures IsSpace(input[p..s][i]) {
      assert input[p..s][i] == CharAt(input, p + i);
    }
    NonSpaceOfSpaces(input[p..s]);
  }

  /** A token other than EOF and ILLEGAL contributes its literal to the
      spelling, and the input after it the rest. */
  lemma TokenSpelling(input: seq<Byte>, p: nat)
    requires Scan(input, p).0.kind !in {Eof, Illegal}
    ensures Scan(input, p).1 <= |input|
    ensures NonSpace(input[SkipSpace(input, p)..]) == Scan(input, p).0.literal + NonSpace(input[Scan(input, p).1..])
  {
    var s := SkipSpace(input, p);
    var (t, q) := Scan(input, p);
    ScanLiteral(input, p);
    assert input[s..] == input[s..q] + input[q..];
    NonSpaceAppend(input[s..q], input[q..]);
    NonSpaceOfNoSpaces(input[s..q]);
  }

  lemma NoIllegalTail(ts: seq<Token>)
    requires ts != [] && NoIllegal(ts)
    ensures NoIllegal(ts[1..])
  {
    forall i | 0 <= i < |ts[1..]| ensures ts[1..][i].kind != Illegal {
      assert ts[1..][i] == ts[i + 1];
    }
  }

  /** A NUL byte inside the input reads as EOF, but the cursor moves past it
      and the following call goes on with the rest of the input: EOF sticks
      only at the real end. */
  lemma EmbeddedNulIsNotSticky()
    ensures LexFrom("a\0b", 0) == [Token(Ident, "a"), EofToken, Token(Ident, "b")]
  {
    var input: seq<Byte> := "a\0b";
    ScanSingleLetter(input, 2);
    assert LexFrom(input, 2) == [Token(Ident, "b")];
    assert Scan(input, 1) == (EofToken, 2) by {
      assert SkipSpace(input, 1) == 1;
    }
    assert LexFrom(input, 1) == [EofToken, Token(Ident, "b")];
    ScanSingleLetter(input, 0);
  }

  /** A lower-case letter followed by a NUL byte, or by the end of the
      input, reads as a one-letter identifier. */
  lemma ScanSingleLetter(input: seq<Byte>, p: nat)
    requires p < |input| && 'a' <= input[p] <= 'z' && CharAt(input, p + 1) == '\0'
    ensures Scan(input, p) == (Token(Ident, [input[p]]), p + 1)
  {
    assert SkipSpace(input, p) == p;
    assert Operator(input[p], '\0').None?;
    assert RunEnd(input, p + 1, Letters) == p + 1;
    assert RunEnd(input, p, Letters) == p + 1;
    assert input[p..p + 1] == [input[p]];
    SingleLetterIsIdent(input[p]);
  }

  /** Once the real end is reached every further call returns EOF. */
  lemma {:induction false} EofSticksAtEnd(input: seq<Byte>, p: nat, n: nat)
    requires |input| <= p
    ensures Scan(input, PosAfter(input, p, n)) == (EofToken, p + n + 1)
    decreases n
  {
    if n > 0 {
      ScanPastEnd(input, p);
      EofSticksAtEnd(input, p + 1, n - 1);
    }
  }

  /** A two-character operator is read only when its bytes are adjacent;
      a lone `&` is ILLEGAL. */
  lemma TwoCharOperators()
    ensures Scan("!=", 0) == (Token(NotEq, "!="), 2)
    ensures Scan("! =", 0) == (Token(Bang, "!"), 1)
    ensures Scan(" <= ", 0) == (Token(Le, "<="), 3)
    ensures Scan("&&", 0) == (Token(And, "&&"), 2)
    ensures Scan("& &", 0) == (IllegalToken, 1)
  {
    assert SkipSpace("!=", 0) == 0;
    assert SkipSpace("! =", 0) == 0;
    assert SkipSpace(" <= ", 1) == 1;
    assert SkipSpace("&&", 0) == 0;
    assert SkipSpace("& &", 0) == 0;
  }
}
