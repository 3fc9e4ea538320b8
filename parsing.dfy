/** The parser object (package parser): a lexer, a two-token look-ahead
    window and an error list, all updated in place. Every parsing method is
    proved to return what the function of the same name in module
    `ParseSpec` returns and, unless it halts, to leave the state that
    function leaves. */
module Parsing {

  import opened Options
  import opened Tokens
  import opened LexSpec
  import opened Lexing
  import opened IntLiterals
  import opened Ast
  import opened Precedences
  import opened ParseSpec

  /** The tokens of a stream before its first EOF. */
  function UntilEof(ts: seq<Token>): (r: seq<Token>)
    ensures r <= ts
    ensures forall i | 0 <= i < |r| :: r[i].kind != Eof
    ensures |r| < |ts| ==> ts[|r|].kind == Eof
  {
    if ts == [] || ts[0].kind == Eof then [] else [ts[0]] + UntilEof(ts[1..])
  }

  /** A prefix free of EOF that stops at an EOF, or at the end of the
      stream, is what `UntilEof` keeps. */
  lemma {:induction false} UntilEofIs(ts: seq<Token>, n: nat)
    requires n <= |ts| && TokenAt(ts, n).kind == Eof
    requires forall i | 0 <= i < n :: ts[i].kind != Eof
    ensures UntilEof(ts) == ts[..n]
  {
    if n > 0 {
      UntilEofIs(ts[1..], n - 1);
      assert ts[..n] == [ts[0]] + ts[1..][..n - 1];
    }
  }

  /** One turn of the `skipToSemicolon` loop, with token `k` current and
      not `;`, after `k + 2` calls of the lexer from `start` that left its
      cursor at `pos`. When the cursor is at the end of the input and token
      `k + 1` is not `;` either, the stream has no `;` from `k` on.
      Otherwise token `k` is a real one, and the first `;` from `k` is the
      first from `k + 1`. */
  lemma SkipStep(input: seq<Byte>, start: nat, k: nat, pos: nat, next: Token)
    requires pos == PosAfter(input, start, k + 2)
    requires next == TokenAt(LexFrom(input, start), k + 1)
    requires TokenAt(LexFrom(input, start), k).kind != Semicolon
    ensures |input| <= pos && next.kind != Semicolon ==> SemicolonFrom(LexFrom(input, start), k).None?
    ensures pos < |input| || next.kind == Semicolon ==>
              k < |LexFrom(input, start)| &&
              SemicolonFrom(LexFrom(input, start), k) == SemicolonFrom(LexFrom(input, start), k + 1)
  {
    var ts := LexFrom(input, start);
    StreamAgrees(input, start, k + 2);
    if |input| <= pos && next.kind != Semicolon {
      assert |ts| <= k + 2;
    } else {
      SemicolonFromStep(ts, k);
    }
  }

  class Parser {
    var lx: Lexer
    var currentToken: Token
    var nextToken: Token
    var errors: seq<string>

    /** The token stream the lexer produces from where the parser took it
        over, the lexer position at that moment, and the index in that
        stream of the current token. */
    ghost var ts: seq<Token>
    ghost var start: nat
    ghost var k: nat

    /** The window is in step with the lexer: the current and next tokens
        are tokens `k` and `k + 1` of the stream, and the lexer has produced
        exactly the tokens before `k + 2`. */
    ghost predicate Valid()
      reads this, lx
    {
      lx.Valid() && Synced(lx.input, start, ts, k, lx.pos, currentToken, nextToken)
    }

    ghost function State(): PState
      reads this
    {
      PState(k, errors)
    }

    /** The lexer object and the stream it stands for stay the same. */
    twostate predicate Kept()
      reads this
    {
      lx == old(lx) && ts == old(ts) && start == old(start)
    }

    /** `NewParser`: takes over `lexer` and pulls two tokens, so that the
        current token is the lexer's next token and the next token the one
        after it. */
    constructor (lexer: Lexer)
      requires lexer.Valid()
      modifies lexer
      ensures Valid() && lx == lexer && errors == []
      ensures ts == LexFrom(lexer.input, old(lexer.pos)) && k == 0
    {
      lx := lexer;
      errors := [];
      ts := LexFrom(lexer.input, lexer.pos);
      start := lexer.pos;
      k := 0;
      currentToken := EofToken;
      nextToken := EofToken;
      new;
      Prime();
    }

    /** The two `loadNextToken` calls that open a parse: the first token of
        the stream becomes current and the second one next. */
    method Prime()
      requires lx.Valid() && ts == LexFrom(lx.input, start) && lx.pos == start
      modifies this, lx
      ensures Valid() && Kept() && k == 0 && errors == old(errors)
    {
      Advance(lx.input, start, 0);
      var first := lx.GetNextToken();
      Advance(lx.input, start, 1);
      var second := lx.GetNextToken();
      currentToken := first;
      nextToken := second;
      k := 0;
    }

    /** `loadNextToken`: the next token becomes current and one new token is
        pulled from the lexer. */
    method LoadNextToken()
      requires Valid()
      modifies this, lx
      ensures Valid() && Kept() && State() == Load(old(State()))
      ensures errors == old(errors) && k == old(k) + 1 && currentToken == old(nextToken)
    {
      ghost var pos := lx.pos;
      var t := lx.GetNextToken();
      SyncedStep(lx.input, start, ts, k, pos, currentToken, nextToken, t, lx.pos);
      currentToken, nextToken := nextToken, t;
      k := k + 1;
    }

    /** `reset`: a fresh lexer over the same input from its first byte, an
        empty error list, and two tokens pulled. */
    method Reset()
      requires Valid()
      modifies this
      ensures Valid() && fresh(lx) && lx.input == old(lx.input)
      ensures start == 0 && k == 0 && errors == []
    {
      lx := lx.Copy();
      errors := [];
      ts := LexFrom(lx.input, 0);
      start := 0;
      Prime();
    }

    /** `GetTokens`: restarts, then collects the tokens before the first EOF
        and leaves EOF as the current token. */
    method GetTokens() returns (tokens: seq<Token>)
      requires Valid()
      modifies this
      ensures Valid() && fresh(lx) && lx.input == old(lx.input) && errors == []
      ensures tokens == UntilEof(LexFrom(lx.input, 0))
      ensures currentToken.kind == Eof
    {
      Reset();
      tokens := [];
      while currentToken.kind != Eof
        invariant Valid() && fresh(lx) && lx.input == old(lx.input) && errors == []
        invariant start == 0 && k <= |ts|
        invariant tokens == ts[..k] && forall i | 0 <= i < k :: ts[i].kind != Eof
        decreases |ts| - k
      {
        tokens := tokens + [currentToken];
        LoadNextToken();
      }
      UntilEofIs(ts, k);
    }

    // ------------------------------------------------------------ errors

    /** `raiseError`. */
    method RaiseError(msg: string)
      requires Valid()
      modifies this
      ensures Valid() && Kept() && k == old(k)
      ensures State() == Raise(old(State()), msg)
    {
      errors := errors + [ErrorEntry(msg)];
    }

    /** `raiseErrorAndPanic`: the message is recorded, then the parser
        panics with its error list, returned here as the halt. */
    method RaiseErrorAndPanic(msg: string) returns (h: Halt)
      requires Valid()
      modifies this
      ensures Valid() && Kept() && k == old(k)
      ensures State() == Raise(old(State()), msg) && h == Panic(errors)
    {
      RaiseError(msg);
      h := Panic(errors);
    }

    method RaiseNextTokenError(expected: TokenType)
      requires Valid()
      modifies this
      ensures Valid() && Kept() && k == old(k)
      ensures State() == ParseSpec.RaiseNextTokenError(ts, old(State()), expected)
    {
      RaiseError("Expected " + TypeName(expected) + " token, got " + TypeName(nextToken.kind) + " token instead");
    }

    method RaiseTokenError(expected: TokenType)
      requires Valid()
      modifies this
      ensures Valid() && Kept() && k == old(k)
      ensures State() == ParseSpec.RaiseTokenError(ts, old(State()), expected)
    {
      RaiseError("Expected " + TypeName(expected) + " token, got " + TypeName(currentToken.kind) + " token instead");
    }

    method RaiseExpressionError()
      requires Valid()
      modifies this
      ensures Valid() && Kept() && k == old(k)
      ensures State() == ParseSpec.RaiseExpressionError(ts, old(State()))
    {
      RaiseError("Expected expression, got " + TypeName(nextToken.kind) + " token instead");
    }

    /** `raiseBloackStatementError`: one entry per statement, then one for
        the current and next tokens. */
    method RaiseBlockStatementError(statements: seq<Stmt>)
      requires Valid()
      modifies this
      ensures Valid() && Kept() && k == old(k)
      ensures State() == ParseSpec.RaiseBlockStatementError(ts, old(State()), statements)
    {
      for i := 0 to |statements|
        invariant Valid() && Kept() && k == old(k)
        invariant errors == old(errors) + ParsedLines(statements, i)
      {
        RaiseError(ParsedLine(i, statements[i]));
      }
      RaiseError("current token: " + currentToken.literal + " Next token: " + nextToken.literal);
    }

    // -------------------------------------------------------- precedence

    function GetCurrentPrecedence(): (r: nat)
      reads this, lx
      requires Valid()
      ensures r == CurrentPrecedence(ts, State())
    {
      RankOf(currentToken.kind)
    }

    method GetNextPrecedence() returns (prec: nat)
      requires Valid()
      modifies this
      ensures Valid() && Kept()
      ensures Ranked(prec, State()) == NextPrecedence(ts, old(State()))
    {
      if nextToken.kind == Semicolon {
        RaiseError("Unexpected semicolon;");
        return Lowest;
      }
      var nextIsPrefix := nextToken.kind == Minus || nextToken.kind == Bang;
      if nextIsPrefix && GetCurrentPrecedence() > Lowest {
        return PrefixRank;
      }
      return RankOf(nextToken.kind);
    }

    // ------------------------------------------------------- expressions

    /** `parseExpression(parent)`. */
    method ParseExpression(parent: nat) returns (out: Outcome<Expr>)
      requires Valid()
      modifies this, lx
      ensures Valid() && Kept()
      ensures out == ParseSpec.ParseExpression(ts, old(State()), parent).out
      ensures !out.Halted? ==> State() == ParseSpec.ParseExpression(ts, old(State()), parent).st
      decreases Rem(ts, k), 6
    {
      var value := PrefixValue();
      if !value.Ok? {
        return value;
      }
      out := FinishExpression(value.value, parent);
    }

    /** The switch at the head of `parseExpression`. */
    method PrefixValue() returns (out: Outcome<Expr>)
      requires Valid()
      modifies this, lx
      ensures Valid() && Kept()
      ensures out == ParseSpec.PrefixValue(ts, old(State())).out
      ensures !out.Halted? ==> State() == ParseSpec.PrefixValue(ts, old(State())).st
      decreases Rem(ts, k), 5
    {
      var cur := currentToken;
      if cur.kind == Ident {
        out := Ok(Identifier(cur));
      } else if cur.kind == True || cur.kind == False {
        out := Ok(BoolLiteral(cur));
      } else if cur.kind == Int {
        var lit := NewIntegerLiteral(cur);
        if lit.Failed? {
          RaiseError(ErrorText(lit.err, cur.literal));
          return Nil;
        }
        out := Ok(lit.value);
      } else if cur.kind == Function {
        out := ParseFunctionLiteral();
      } else if cur.kind == LParen || cur.kind == Bang || cur.kind == Minus {
        out := ParsePrefix();
      } else {
        var h := RaiseErrorAndPanic("Unexpected token for parseExpression: " + TypeName(cur.kind));
        out := Halted(h);
      }
    }

    /** The part of `parseExpression` after its prefix value: the infix loop
        and the optional `if … else …` suffix. */
    method FinishExpression(expr: Expr, parent: nat) returns (out: Outcome<Expr>)
      requires Valid() && Built(expr)
      modifies this, lx
      ensures Valid() && Kept()
      ensures out == ParseSpec.FinishExpression(ts, old(State()), expr, parent).out
      ensures !out.Halted? ==> State() == ParseSpec.FinishExpression(ts, old(State()), expr, parent).st
      decreases Rem(ts, k), 4
    {
      if nextToken.kind == Semicolon {
        return Ok(expr);
      }
      out := FoldInfix(expr, parent);
      if out.Ok? {
        out := IfSuffix(out.value);
      }
    }

    /** The optional `if … else …` suffix of `parseExpression`. */
    method IfSuffix(expr: Expr) returns (out: Outcome<Expr>)
      requires Valid() && Built(expr)
      modifies this, lx
      ensures Valid() && Kept()
      ensures out == ParseSpec.IfSuffix(ts, old(State()), expr).out
      ensures !out.Halted? ==> State() == ParseSpec.IfSuffix(ts, old(State()), expr).st
      decreases Rem(ts, k), 2
    {
      if nextToken.kind != If {
        return Ok(expr);
      }
      out := ParseIfElseExpression(expr);
      if out.Nil? {
        RaiseError("Could not parse if-else expression");
      }
    }

    /** The infix loop of `parseExpression`: while the next operator binds
        tighter than `parent`, it is folded into the expression; the loop
        also stops after a fold when a `;` comes next. */
    method FoldInfix(expr: Expr, parent: nat) returns (out: Outcome<Expr>)
      requires Valid() && Built(expr)
      modifies this, lx
      ensures Valid() && Kept()
      ensures out == ParseSpec.FoldInfix(ts, old(State()), expr, parent).out
      ensures !out.Halted? ==> State() == ParseSpec.FoldInfix(ts, old(State()), expr, parent).st
      decreases Rem(ts, k), 3
    {
      ghost var goal := ParseSpec.FoldInfix(ts, State(), expr, parent);
      var left := expr;
      var prec: nat := GetNextPrecedence();
      while prec > parent
        invariant Valid() && Kept() && Built(left)
        invariant FoldWith(ts, State(), left, parent, prec) == goal
        decreases Rem(ts, k)
      {
        var stop;
        out, stop, prec := FoldTurn(left, parent, prec);
        if stop {
          return;
        }
        left := out.value;
      }
      return Ok(left);
    }

    /** The body of the infix loop: one fold, then, unless it failed or a
        `;` comes next, the precedence that decides whether the loop goes
        on. */
    method FoldTurn(left: Expr, parent: nat, ghost prec: nat) returns (out: Outcome<Expr>, stop: bool, next: nat)
      requires Valid() && Built(left) && prec > parent
      modifies this, lx
      ensures Valid() && Kept()
      ensures stop ==> out == FoldWith(ts, old(State()), left, parent, prec).out
      ensures stop && !out.Halted? ==> State() == FoldWith(ts, old(State()), left, parent, prec).st
      ensures !stop ==> out.Ok? && Built(out.value) && Rem(ts, k) < Rem(ts, old(k))
      ensures !stop ==> FoldWith(ts, State(), out.value, parent, next) == FoldWith(ts, old(State()), left, parent, prec)
      decreases Rem(ts, k), 2
    {
      ghost var before := State();
      out := InfixStep(left);
      if !out.Ok? || nextToken.kind == Semicolon {
        FoldStops(ts, before, left, parent, prec);
        return out, true, 0;
      }
      ghost var folded := State();
      assert folded == ParseSpec.InfixStep(ts, before, left).st;
      FoldContinues(ts, before, left, parent, prec);
      next := GetNextPrecedence();
      assert Ranked(next, State()) == NextPrecedence(ts, folded);
      stop := false;
    }

    /** One turn of the infix loop. */
    method InfixStep(left: Expr) returns (out: Outcome<Expr>)
      requires Valid() && Built(left)
      modifies this, lx
      ensures Valid() && Kept()
      ensures out == ParseSpec.InfixStep(ts, old(State()), left).out
      ensures !out.Halted? ==> State() == ParseSpec.InfixStep(ts, old(State()), left).st
      decreases Rem(ts, k), 1
    {
      out := ParseInfix(left);
      if out.Nil? {
        RaiseError("Could not parse infix expression");
      }
    }

    /** `parseInfix(left)`. */
    method ParseInfix(left: Expr) returns (out: Outcome<Expr>)
      requires Valid() && Built(left)
      modifies this, lx
      ensures Valid() && Kept()
      ensures out == ParseSpec.ParseInfix(ts, old(State()), left).out
      ensures !out.Halted? ==> State() == ParseSpec.ParseInfix(ts, old(State()), left).st
      decreases Rem(ts, k), 0
    {
      LoadNextToken();
      var operator := currentToken;
      LoadNextToken();
      assert operator == Next(ts, old(State())) && State() == Load(Load(old(State())));
      if !IsInfixOperator(operator.kind) {
        RaiseError("Unexpected Infix operator " + TypeName(operator.kind));
        return Nil;
      }
      RealToken(ts, old(k) + 1);
      out := InfixRight(operator, left);
    }

    /** The right operand of `parseInfix`, parsed at the rank the operator
        had as the current token. */
    method InfixRight(operator: Token, left: Expr) returns (out: Outcome<Expr>)
      requires Valid() && IsInfixOperator(operator.kind) && Built(left)
      modifies this, lx
      ensures Valid() && Kept()
      ensures out == ParseSpec.InfixRight(ts, old(State()), operator, left).out
      ensures !out.Halted? ==> State() == ParseSpec.InfixRight(ts, old(State()), operator, left).st
      decreases Rem(ts, k), 7
    {
      out := ParseExpression(RankOf(operator.kind));
      match out {
        case Halted(_) =>
        case Nil => RaiseInfixError(operator);
        case Ok(e) => out := Ok(Infix(operator, left, e));
      }
    }

    /** The report of a failed right operand, by operator class. */
    method RaiseInfixError(operator: Token)
      requires Valid()
      modifies this
      ensures Valid() && Kept() && k == old(k)
      ensures State() == InfixFailure(old(State()), operator)
    {
      var t := operator.kind;
      if t == Lt || t == Gt {
        RaiseError(" comparison error " + operator.literal);
      } else if t == And || t == Or {
        RaiseError("Could not parse logical expression");
      } else if !(t == Eq || t == NotEq || t == Le || t == Ge) {
        RaiseError(" algorithmic error " + operator.literal);
      }
    }

    /** `parseIfElseExpression(left)`: the next token must be `if`. */
    method ParseIfElseExpression(left: Expr) returns (out: Outcome<Expr>)
      requires Valid() && Built(left)
      modifies this, lx
      ensures Valid() && Kept()
      ensures out == ParseSpec.ParseIfElseExpression(ts, old(State()), left).out
      ensures !out.Halted? ==> State() == ParseSpec.ParseIfElseExpression(ts, old(State()), left).st
      decreases Rem(ts, k), 1
    {
      LoadNextToken();
      if currentToken.kind != If {
        RaiseTokenError(If);
        return Nil;
      }
      out := IfCondition(left);
    }

    /** The condition of the ternary, with `if` current. */
    method IfCondition(left: Expr) returns (out: Outcome<Expr>)
      requires Valid() && currentToken.kind == If && Built(left)
      modifies this, lx
      ensures Valid() && Kept()
      ensures out == ParseSpec.IfCondition(ts, old(State()), left).out
      ensures !out.Halted? ==> State() == ParseSpec.IfCondition(ts, old(State()), left).st
      decreases Rem(ts, k), 0
    {
      RealToken(ts, k);
      LoadNextToken();
      var condition := ParseExpression(Lowest);
      match condition {
        case Halted(_) => return condition;
        case Nil =>
          RaiseError("Could not parse if expression");
          return Nil;
        case Ok(c) => out := ElseExpression(left, c);
      }
    }

    /** The rest of `parseIfElseExpression(left)` after the condition `c`:
        a missing `else` is reported, and parsing goes on regardless. */
    method ElseExpression(left: Expr, c: Expr) returns (out: Outcome<Expr>)
      requires Valid() && Built(left) && Built(c)
      modifies this, lx
      ensures Valid() && Kept()
      ensures out == ParseSpec.ElseExpression(ts, old(State()), left, c).out
      ensures !out.Halted? ==> State() == ParseSpec.ElseExpression(ts, old(State()), left, c).st
      decreases Rem(ts, k), 8
    {
      LoadNextToken();
      if currentToken.kind != Else {
        RaiseTokenError(Else);
      }
      out := ElseOperand(left, c);
    }

    /** The alternative of the ternary. */
    method ElseOperand(left: Expr, c: Expr) returns (out: Outcome<Expr>)
      requires Valid() && Built(left) && Built(c)
      modifies this, lx
      ensures Valid() && Kept()
      ensures out == ParseSpec.ElseOperand(ts, old(State()), left, c).out
      ensures !out.Halted? ==> State() == ParseSpec.ElseOperand(ts, old(State()), left, c).st
      decreases Rem(ts, k), 7
    {
      LoadNextToken();
      var right := ParseExpression(Lowest);
      match right {
        case Halted(_) => return right;
        case Nil =>
          RaiseError("Could not parse else expression");
          return Nil;
        case Ok(e) => return Ok(Trinary(left, c, e));
      }
    }

    /** `parsePrefix`. */
    method ParsePrefix() returns (out: Outcome<Expr>)
      requires Valid()
      modifies this, lx
      ensures Valid() && Kept()
      ensures out == ParseSpec.ParsePrefix(ts, old(State())).out
      ensures !out.Halted? ==> State() == ParseSpec.ParsePrefix(ts, old(State())).st
      decreases Rem(ts, k), 4
    {
      var cur := currentToken;
      if cur.kind == Bang || cur.kind == Minus {
        out := PrefixOperation();
      } else if cur.kind == LParen {
        out := Grouped();
      } else {
        RaiseError("Unexpected Prefix operator " + TypeName(cur.kind));
        out := Nil;
      }
    }

    /** The `(` arm of `parsePrefix`. */
    method Grouped() returns (out: Outcome<Expr>)
      requires Valid() && currentToken.kind == LParen
      modifies this, lx
      ensures Valid() && Kept()
      ensures out == ParseSpec.Grouped(ts, old(State())).out
      ensures !out.Halted? ==> State() == ParseSpec.Grouped(ts, old(State())).st
      decreases Rem(ts, k), 3
    {
      RealToken(ts, k);
      LoadNextToken();
      var inner := ParseExpression(Lowest);
      match inner {
        case Halted(_) => return inner;
        case Nil =>
          RaiseError("Could not parse LPAREN expression");
          return Nil;
        case Ok(e) => out := CloseParen(e);
      }
    }

    /** The `)` after a grouped expression. */
    method CloseParen(e: Expr) returns (out: Outcome<Expr>)
      requires Valid()
      modifies this, lx
      ensures Valid() && Kept()
      ensures out == ParseSpec.CloseParen(ts, old(State()), e).out
      ensures State() == ParseSpec.CloseParen(ts, old(State()), e).st
    {
      if nextToken.kind != RParen {
        RaiseNextTokenError(RParen);
        return Nil;
      }
      LoadNextToken();
      return Ok(e);
    }

    /** The `!`/`-` arm of `parsePrefix`. */
    method PrefixOperation() returns (out: Outcome<Expr>)
      requires Valid() && (currentToken.kind == Bang || currentToken.kind == Minus)
      modifies this, lx
      ensures Valid() && Kept()
      ensures out == ParseSpec.PrefixOperation(ts, old(State())).out
      ensures !out.Halted? ==> State() == ParseSpec.PrefixOperation(ts, old(State())).st
      decreases Rem(ts, k), 3
    {
      var operator := currentToken;
      RealToken(ts, k);
      LoadNextToken();
      var operand := ParseExpression(PrefixRank);
      match operand {
        case Halted(_) => return operand;
        case Nil =>
          RaiseError("Could not parse expression after prefix operator " + operator.literal);
          return Nil;
        case Ok(e) => out := PrefixResult(operator, e);
      }
    }

    /** The result of the `!`/`-` arm for its operand `e`. */
    method PrefixResult(operator: Token, e: Expr) returns (out: Outcome<Expr>)
      requires Valid() && (operator.kind == Bang || operator.kind == Minus) && Built(e)
      modifies this
      ensures Valid() && Kept()
      ensures out == ParseSpec.PrefixResult(old(State()), operator, e).out
      ensures State() == ParseSpec.PrefixResult(old(State()), operator, e).st
    {
      if operator.kind == Minus && e.GetTokenType() == Int {
        var literal := "-" + e.GetTokenLiteral();
        var lit := NewIntegerLiteral(Token(Int, literal));
        if lit.Failed? {
          RaiseError(ErrorText(lit.err, literal));
          return Nil;
        }
        return Ok(lit.value);
      }
      return Ok(Prefix(operator, e));
    }

    /** The `fn` arm of `parseExpression`: `(`, the parameter loop, and then
        the call of the function-definition parser, which is not part of
        this model. */
    method ParseFunctionLiteral() returns (out: Outcome<Expr>)
      requires Valid()
      modifies this, lx
      ensures Valid() && Kept()
      ensures out == ParseSpec.ParseFunctionLiteral(ts, old(State())).out
      ensures !out.Halted? ==> State() == ParseSpec.ParseFunctionLiteral(ts, old(State())).st
    {
      if nextToken.kind != LParen {
        RaiseNextTokenError(LParen);
        return Nil;
      }
      LoadNextToken();
      if nextToken.kind == RParen {
        LoadNextToken();
      }
      var params := ParamLoop();
      match params {
        case Ok(_) => return Halted(Unmodelled);
        case Nil => return Nil;
      }
    }

    /** The parameter loop of the `fn` arm: until `)` is current, an
        identifier must come next; it is taken and the token after it made
        current. */
    method ParamLoop() returns (out: Outcome<seq<Token>>)
      requires Valid()
      modifies this, lx
      ensures Valid() && Kept()
      ensures out == ParseSpec.ParamLoop(ts, old(State()), []).out
      ensures State() == ParseSpec.ParamLoop(ts, old(State()), []).st
    {
      var signature: seq<Token> := [];
      ghost var goal := ParseSpec.ParamLoop(ts, State(), []);
      while currentToken.kind != RParen
        invariant Valid() && Kept()
        invariant ParseSpec.ParamLoop(ts, State(), signature) == goal
        decreases Rem(ts, k)
      {
        if nextToken.kind != Ident {
          RaiseNextTokenError(Ident);
          return Nil;
        }
        RealToken(ts, k + 1);
        LoadNextToken();
        signature := signature + [currentToken];
        LoadNextToken();
      }
      return Ok(signature);
    }

    // -------------------------------------------------------- statements

    /** `skipToSemicolon`: loads tokens until `;` is current. When the lexer
        has reached the end of its input and neither token of the window is
        `;`, no `;` can ever become current; the source loops forever there,
        and the model reports the hang instead. */
    method SkipToSemicolon() returns (out: Outcome<()>)
      requires Valid()
      modifies this, lx
      ensures Valid() && Kept()
      ensures out == ParseSpec.SkipToSemicolon(ts, old(State())).out
      ensures !out.Halted? ==> State() == ParseSpec.SkipToSemicolon(ts, old(State())).st
    {
      while currentToken.kind != Semicolon
        invariant Valid() && Kept() && errors == old(errors) && old(k) <= k
        invariant SemicolonFrom(ts, old(k)) == SemicolonFrom(ts, k)
        decreases Rem(ts, k)
      {
        var hang := SkipTurn();
        if hang {
          return Halted(Hang);
        }
      }
      assert SemicolonFrom(ts, old(k)) == Some(k);
      return Ok(());
    }

    /** One turn of the skipping loop: it hangs once the lexer is spent
        and no `;` is in the window; otherwise it loads the next token. */
    method SkipTurn() returns (hang: bool)
      requires Valid() && currentToken.kind != Semicolon
      modifies this, lx
      ensures Valid() && Kept() && errors == old(errors)
      ensures hang ==> SemicolonFrom(ts, old(k)).None?
      ensures !hang ==> k == old(k) + 1 && Rem(ts, k) < Rem(ts, old(k))
      ensures !hang ==> SemicolonFrom(ts, old(k)) == SemicolonFrom(ts, k)
    {
      SkipStep(lx.input, start, k, lx.pos, nextToken);
      if lx.pos >= |lx.input| && nextToken.kind != Semicolon {
        return true;
      }
      LoadNextToken();
      return false;
    }

    /** `parseStatement`, by the type of the current token. */
    method ParseStatement() returns (out: Outcome<Stmt>)
      requires Valid()
      modifies this, lx
      ensures Valid() && Kept()
      ensures out == ParseSpec.ParseStatement(ts, old(State())).out
      ensures !out.Halted? ==> State() == ParseSpec.ParseStatement(ts, old(State())).st
      decreases Rem(ts, k), 2
    {
      var cur := currentToken;
      if cur.kind == Let {
        out := ParseLet();
      } else if cur.kind == Return {
        out := ParseReturn();
      } else if cur.kind == If {
        out := ParseIfElseStatement();
        if out.Nil? {
          RaiseError("Could not parse if statement");
        }
      } else if cur.kind == LBrace {
        out := ParseBlockStatement();
        if out.Nil? {
          RaiseError("Could not parse block statement");
        }
      } else if cur.kind == RBrace {
        out := Nil;
      } else if cur.kind == Semicolon {
        RaiseError("Unexpected token: " + cur.literal);
        out := Nil;
      } else {
        RaiseError("Unexpected token: " + cur.literal);
        LoadNextToken();
        out := Nil;
      }
    }

    /** The `let` arm of `parseStatement`. */
    method ParseLet() returns (out: Outcome<Stmt>)
      requires Valid() && currentToken.kind == Let
      modifies this, lx
      ensures Valid() && Kept()
      ensures out == ParseSpec.ParseLet(ts, old(State())).out
      ensures !out.Halted? ==> State() == ParseSpec.ParseLet(ts, old(State())).st
    {
      if nextToken.kind != Ident {
        RaiseNextTokenError(Ident);
        return Nil;
      }
      LoadNextToken();
      var name := currentToken;
      LoadNextToken();
      if currentToken.kind != Assign {
        RaiseNextTokenError(Assign);
        return Nil;
      }
      LoadNextToken();
      out := LetValue(name);
    }

    /** The value of a `let`, after the `=`. */
    method LetValue(name: Token) returns (out: Outcome<Stmt>)
      requires Valid() && name.kind == Ident
      modifies this, lx
      ensures Valid() && Kept()
      ensures out == ParseSpec.LetValue(ts, old(State()), name).out
      ensures !out.Halted? ==> State() == ParseSpec.LetValue(ts, old(State()), name).st
    {
      var value := ParseExpression(Lowest);
      match value {
        case Halted(h) => return Halted(h);
        case Nil =>
          RaiseExpressionError();
          return Nil;
        case Ok(e) =>
          LoadNextToken();
          out := StatementEnd(LetStatement(name, e));
      }
    }

    /** The end of a `let` or `return` statement: the skip to `;`. */
    method StatementEnd(s: Stmt) returns (out: Outcome<Stmt>)
      requires Valid()
      modifies this, lx
      ensures Valid() && Kept()
      ensures out == ParseSpec.StatementEnd(ts, old(State()), s).out
      ensures !out.Halted? ==> State() == ParseSpec.StatementEnd(ts, old(State()), s).st
    {
      var skip := SkipToSemicolon();
      if skip.Halted? {
        return Halted(skip.halt);
      }
      return Ok(s);
    }

    /** The `return` arm of `parseStatement`. */
    method ParseReturn() returns (out: Outcome<Stmt>)
      requires Valid() && currentToken.kind == Return
      modifies this, lx
      ensures Valid() && Kept()
      ensures out == ParseSpec.ParseReturn(ts, old(State())).out
      ensures !out.Halted? ==> State() == ParseSpec.ParseReturn(ts, old(State())).st
    {
      LoadNextToken();
      if currentToken.kind == Semicolon {
        return Ok(ReturnStatement(None));
      }
      var value := ParseExpression(Lowest);
      match value {
        case Halted(h) => return Halted(h);
        case Nil =>
          RaiseExpressionError();
          return Nil;
        case Ok(e) => out := StatementEnd(ReturnStatement(Some(e)));
      }
    }

    /** `parseBlockStament`: `{`, then statements until `}`, which is
        consumed; the first failing statement reports the block so far. */
    method ParseBlockStatement() returns (out: Outcome<Stmt>)
      requires Valid()
      modifies this, lx
      ensures Valid() && Kept()
      ensures out == ParseSpec.ParseBlock(ts, old(State())).out
      ensures !out.Halted? ==> State() == ParseSpec.ParseBlock(ts, old(State())).st
      decreases Rem(ts, k), 1
    {
      if currentToken.kind != LBrace {
        RaiseNextTokenError(LBrace);
        return Nil;
      }
      RealToken(ts, k);
      LoadNextToken();
      ghost var goal := BlockLoop(ts, State(), []);
      var statements: seq<Stmt> := [];
      while currentToken.kind != RBrace
        invariant Valid() && Kept() && Rem(ts, k) < Rem(ts, old(k))
        invariant BlockLoop(ts, State(), statements) == goal
        decreases Rem(ts, k)
      {
        var s := ParseStatement();
        match s {
          case Halted(h) => return Halted(h);
          case Nil =>
            RaiseBlockStatementError(statements);
            return Nil;
          case Ok(x) =>
            statements := statements + [x];
        }
        if currentToken.kind == Semicolon {
          LoadNextToken();
        }
      }
      LoadNextToken();
      return Ok(BlockStatement(statements));
    }

    /** `parseIfElseStatement` up to its condition. */
    method ParseIfElseStatement() returns (out: Outcome<Stmt>)
      requires Valid()
      modifies this, lx
      ensures Valid() && Kept()
      ensures out == ParseSpec.ParseIfElseStatement(ts, old(State())).out
      ensures !out.Halted? ==> State() == ParseSpec.ParseIfElseStatement(ts, old(State())).st
      decreases Rem(ts, k), 1
    {
      if nextToken.kind != LParen {
        RaiseNextTokenError(LParen);
        return Nil;
      }
      RealToken(ts, k + 1);
      LoadNextToken();
      var condition := ParseExpression(Lowest);
      match condition {
        case Halted(h) => return Halted(h);
        case Nil =>
          RaiseExpressionError();
          return Nil;
        case Ok(c) =>
          LoadNextToken();
          out := IfBlock(c);
      }
    }

    /** The block of an if statement and, after `else`, its alternative. */
    method IfBlock(c: Expr) returns (out: Outcome<Stmt>)
      requires Valid() && Built(c)
      modifies this, lx
      ensures Valid() && Kept()
      ensures out == ParseSpec.IfBlock(ts, old(State()), c).out
      ensures !out.Halted? ==> State() == ParseSpec.IfBlock(ts, old(State()), c).st
      decreases Rem(ts, k), 2
    {
      var block := ParseBlockStatement();
      match block {
        case Halted(h) => return Halted(h);
        case Nil =>
          RaiseError("Could not parse block statement");
          return Nil;
        case Ok(b) =>
          if currentToken.kind != Else {
            return Ok(IfStatement(c, b, None));
          }
          LoadNextToken();
          out := ElseBranch(c, b);
      }
    }

    /** The alternative after `else`: an if statement through
        `ParseStatement`, or a block. */
    method ElseBranch(c: Expr, b: Stmt) returns (out: Outcome<Stmt>)
      requires Valid() && Built(c) && b.BlockStatement? && BuiltStmt(b)
      modifies this, lx
      ensures Valid() && Kept()
      ensures out == ParseSpec.ElseBranch(ts, old(State()), c, b).out
      ensures !out.Halted? ==> State() == ParseSpec.ElseBranch(ts, old(State()), c, b).st
      decreases Rem(ts, k), 3
    {
      if currentToken.kind == If {
        var alt := ParseStatement();
        match alt {
          case Halted(h) => return Halted(h);
          case Nil =>
            RaiseError("Could not parse else if statement");
            return Nil;
          case Ok(x) => return Ok(IfStatement(c, b, Some(x)));
        }
      } else {
        var alt := ParseBlockStatement();
        match alt {
          case Halted(h) => return Halted(h);
          case Nil =>
            RaiseError("Could not parse else statement");
            return Nil;
          case Ok(x) => return Ok(IfStatement(c, b, Some(x)));
        }
      }
    }

    // ----------------------------------------------------------- program

    /** `ParseProgram`: statements until EOF is current; a `;` after a
        statement is consumed; the first failing statement ends the parse
        with an error entry and `ok` false. */
    method ParseProgram() returns (out: Outcome<ProgramResult>)
      requires Valid()
      modifies this, lx
      ensures Valid() && Kept()
      ensures out == ParseSpec.ParseProgram(ts, old(State())).out
      ensures !out.Halted? ==> State() == ParseSpec.ParseProgram(ts, old(State())).st
    {
      ghost var goal := ProgramLoop(ts, State(), []);
      var statements: seq<Stmt> := [];
      while currentToken.kind != Eof
        invariant Valid() && Kept()
        invariant ProgramLoop(ts, State(), statements) == goal
        decreases Rem(ts, k)
      {
        var s := ParseStatement();
        match s {
          case Halted(h) => return Halted(h);
          case Nil =>
            RaiseError("Could not parse statement with token: " + currentToken.literal);
            return Ok(ProgramResult(statements, false));
          case Ok(x) =>
            statements := statements + [x];
        }
        if currentToken.kind == Semicolon {
          LoadNextToken();
        }
      }
      return Ok(ProgramResult(statements, true));
    }
  }
}
