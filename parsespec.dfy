/** What the parser computes (package parser), as functions over the
    token stream. A parser state is the index of the current token in the
    stream `ts`, read as endless by padding it with EOF, together with the
    error list; the next token is the one after the current. Each function
    returns the outcome of one parsing routine and the state it leaves.
    The `Parser` class in module `Parsing` is proved to compute exactly
    these. */
module ParseSpec {

  import opened Options
  import opened Tokens
  import opened LexSpec
  import opened IntLiterals
  import opened Ast
  import opened Precedences

  datatype PState = PState(k: nat, errors: seq<string>)

  /** Ways a routine can stop without returning: a panic raised after
      recording an error (its payload is the error list), a loop that would
      never end, and a call into the function-definition parser, which is
      not part of this model. */
  datatype Halt = Panic(payload: seq<string>) | Hang | Unmodelled

  /** A routine returns a node, returns nil (the failure result), or halts. */
  datatype Outcome<T> = Ok(value: T) | Nil | Halted(halt: Halt)

  datatype Step<T> = Step(out: Outcome<T>, st: PState)

  /** A precedence, and the state computing it left. */
  datatype Ranked = Ranked(prec: nat, st: PState)

  /** The result of parsing a whole program: the statements parsed, in
      order, and whether every statement parsed. */
  datatype ProgramResult = ProgramResult(statements: seq<Stmt>, ok: bool)

  // ---------------------------------------------------------------- cursor

  /** How many real tokens remain from index `k`: the termination measure. */
  function Rem(ts: seq<Token>, k: nat): nat
  {
    if k < |ts| then |ts| - k else 0
  }

  function Cur(ts: seq<Token>, st: PState): Token
  {
    TokenAt(ts, st.k)
  }

  function Next(ts: seq<Token>, st: PState): Token
  {
    TokenAt(ts, st.k + 1)
  }

  /** `loadNextToken`: the next token becomes current. */
  function Load(st: PState): PState
  {
    st.(k := st.k + 1)
  }

  /** A parser over `input` that took the lexer over at cursor `start` is
      in step with stream `ts` when `ts` is what the lexer produces from
      `start`, the lexer has been called `k + 2` times, and `current` and
      `next` are tokens `k` and `k + 1`. */
  predicate Synced(input: seq<Byte>, start: nat, ts: seq<Token>, k: nat, pos: nat, current: Token, next: Token)
  {
    && ts == LexFrom(input, start)
    && pos == PosAfter(input, start, k + 2)
    && current == TokenAt(ts, k)
    && next == TokenAt(ts, k + 1)
  }

  /** One more call of the lexer keeps a parser in step: the next token
      becomes current and the token returned becomes next. */
  lemma SyncedStep(input: seq<Byte>, start: nat, ts: seq<Token>, k: nat, pos: nat, current: Token, next: Token, t: Token, pos': nat)
    requires Synced(input, start, ts, k, pos, current, next)
    requires (t, pos') == Scan(input, pos)
    ensures Synced(input, start, ts, k + 1, pos', next, t)
  {
    Advance(input, start, k + 2);
  }

  /** Only a real token can have a type other than EOF. */
  lemma RealToken(ts: seq<Token>, i: nat)
    requires TokenAt(ts, i).kind != Eof
    ensures i < |ts| && Rem(ts, i + 1) < Rem(ts, i)
  {
  }

  /** A routine that did not halt left the cursor where it was or further on,
      and only appended to the error list. */
  predicate Advanced<T>(st: PState, r: Step<T>)
  {
    r.out.Halted? || (st.k <= r.st.k && st.errors <= r.st.errors)
  }

  // ---------------------------------------------------------------- errors

  function ErrorEntry(msg: string): string
  {
    "Parser error: " + msg
  }

  /** `raiseError`: appends exactly one entry. */
  function Raise(st: PState, msg: string): (r: PState)
    ensures r.k == st.k && r.errors == st.errors + [ErrorEntry(msg)]
  {
    st.(errors := st.errors + [ErrorEntry(msg)])
  }

  /** `raiseErrorAndPanic`: records the message, then panics with the list. */
  function RaiseAndPanic<T>(st: PState, msg: string): (r: Step<T>)
    ensures r.out == Halted(Panic(st.errors + [ErrorEntry(msg)]))
  {
    var st1 := Raise(st, msg);
    Step(Halted(Panic(st1.errors)), st1)
  }

  /** `raiseNextTokenError`: the message names the type of the next token,
      whichever token the caller was checking. */
  function RaiseNextTokenError(ts: seq<Token>, st: PState, expected: TokenType): PState
  {
    Raise(st, "Expected " + TypeName(expected) + " token, got " + TypeName(Next(ts, st).kind) + " token instead")
  }

  /** The token-check error of the ternary parser, whose helper is not part
      of this model: one entry naming the expected and the current type. */
  function RaiseTokenError(ts: seq<Token>, st: PState, expected: TokenType): PState
  {
    Raise(st, "Expected " + TypeName(expected) + " token, got " + TypeName(Cur(ts, st).kind) + " token instead")
  }

  /** `raiseExpressionError`: names the type of the next token. */
  function RaiseExpressionError(ts: seq<Token>, st: PState): PState
  {
    Raise(st, "Expected expression, got " + TypeName(Next(ts, st).kind) + " token instead")
  }

  function ParsedLine(i: nat, s: Stmt): string
  {
    "Prased [" + Decimal(i) + "]: " + s.ToString()
  }

  /** The entries for the first `n` already-parsed statements, in index order. */
  function ParsedLines(stmts: seq<Stmt>, n: nat): (r: seq<string>)
    requires n <= |stmts|
    ensures |r| == n
  {
    if n == 0 then [] else ParsedLines(stmts, n - 1) + [ErrorEntry(ParsedLine(n - 1, stmts[n - 1]))]
  }

  /** `raiseBloackStatementError`: one entry per statement already parsed,
      then one naming the current and the next token. */
  function RaiseBlockStatementError(ts: seq<Token>, st: PState, stmts: seq<Stmt>): (r: PState)
    ensures r.k == st.k && |r.errors| == |st.errors| + |stmts| + 1
  {
    var lines := ParsedLines(stmts, |stmts|);
    Raise(st.(errors := st.errors + lines),
          "current token: " + Cur(ts, st).literal + " Next token: " + Next(ts, st).literal)
  }

  // ------------------------------------------------------------- the trees

  /** The binary operators the infix parser accepts. */
  predicate IsInfixOperator(t: TokenType)
  {
    t in {Plus, Minus, Asterisk, Slash, Eq, NotEq, Le, Ge, Lt, Gt, And, Or}
  }

  /** The expressions the parser can build: tokens of the right type,
      integer literals carrying the value of their text, no minus sign left
      around an integer literal, and no function nodes. */
  predicate Built(e: Expr)
  {
    match e
    case Identifier(t) => t.kind == Ident
    case BoolLiteral(t) => t.kind == True || t.kind == False
    case IntegerLiteral(t, v) => t.kind == Int && ParseInt(t.literal) == Converted(v)
    case Prefix(op, x) => (op.kind == Bang || op.kind == Minus) && Built(x) && !(op.kind == Minus && x.IntegerLiteral?)
    case Infix(op, l, r) => IsInfixOperator(op.kind) && Built(l) && Built(r)
    case Trinary(l, c, r) => Built(l) && Built(c) && Built(r)
    case FunctionLiteral(_, _) => false
    case FunctionCall(_, _) => false
  }

  /** The statements the parser can build: an if statement's block is a
      block, and its alternative is a block or another if statement. */
  predicate BuiltStmt(s: Stmt)
  {
    match s
    case LetStatement(name, v) => name.kind == Ident && Built(v)
    case ReturnStatement(v) => v.Some? ==> Built(v.value)
    case BlockStatement(ss) => forall i | 0 <= i < |ss| :: BuiltStmt(ss[i])
    case IfStatement(c, b, alt) =>
      Built(c) && b.BlockStatement? && BuiltStmt(b) &&
      (alt.Some? ==> (alt.value.BlockStatement? || alt.value.IfStatement?) && BuiltStmt(alt.value))
  }

  // ------------------------------------------------------------ precedence

  /** `getCurrentPrecedence`. */
  function CurrentPrecedence(ts: seq<Token>, st: PState): nat
  {
    RankOf(Cur(ts, st).kind)
  }

  /** `getNextPrecedence`: a `;` ahead is reported and ranks lowest; a `-`
      or `!` ahead ranks as a prefix operator when the current token has a
      rank of its own; otherwise the table decides. */
  function NextPrecedence(ts: seq<Token>, st: PState): (r: Ranked)
    ensures r.st.k == st.k && st.errors <= r.st.errors
    ensures r.prec > Lowest ==> Next(ts, st).kind != Semicolon && r.st == st
  {
    var next := Next(ts, st).kind;
    if next == Semicolon then Ranked(Lowest, Raise(st, "Unexpected semicolon;"))
    else if (next == Minus || next == Bang) && CurrentPrecedence(ts, st) > Lowest then Ranked(PrefixRank, st)
    else Ranked(RankOf(next), st)
  }

  // ----------------------------------------------------------- expressions

  /** `parseExpression(parent)`: a prefix value, then binary operators that
      bind tighter than `parent`, then an optional `if … else …` suffix. */
  function ParseExpression(ts: seq<Token>, st: PState, parent: nat): (r: Step<Expr>)
    ensures Advanced(st, r)
    ensures r.out.Ok? ==> Built(r.out.value) && st.k < |ts|
    ensures r.out.Nil? ==> |st.errors| < |r.st.errors|
    decreases Rem(ts, st.k), 6
  {
    var value := PrefixValue(ts, st);
    if !value.out.Ok? then value
    else FinishExpression(ts, value.st, value.out.value, parent)
  }

  /** The value `parseExpression` starts from, chosen by the type of the
      current token; any other type panics. */
  function PrefixValue(ts: seq<Token>, st: PState): (r: Step<Expr>)
    ensures Advanced(st, r)
    ensures r.out.Ok? ==> Built(r.out.value) && st.k < |ts|
    ensures r.out.Nil? ==> |st.errors| < |r.st.errors|
    ensures Cur(ts, st).kind !in {Ident, True, False, Int, Function, LParen, Bang, Minus} ==>
      r.out == Halted(Panic(st.errors + [ErrorEntry("Unexpected token for parseExpression: " + TypeName(Cur(ts, st).kind))]))
    decreases Rem(ts, st.k), 5
  {
    var cur := Cur(ts, st);
    if cur.kind == Ident then Step(Ok(Identifier(cur)), st)
    else if cur.kind == True || cur.kind == False then Step(Ok(BoolLiteral(cur)), st)
    else if cur.kind == Int then
      (match NewIntegerLiteral(cur)
       case Converted(e) => Step(Ok(e), st)
       case Failed(err) => Step(Nil, Raise(st, ErrorText(err, cur.literal))))
    else if cur.kind == Function then ParseFunctionLiteral(ts, st)
    else if cur.kind == LParen || cur.kind == Bang || cur.kind == Minus then ParsePrefix(ts, st)
    else RaiseAndPanic(st, "Unexpected token for parseExpression: " + TypeName(cur.kind))
  }

  /** The part of `parseExpression` after the prefix value `expr`. */
  function FinishExpression(ts: seq<Token>, st: PState, expr: Expr, parent: nat): (r: Step<Expr>)
    requires Built(expr)
    ensures Advanced(st, r)
    ensures r.out.Ok? ==> Built(r.out.value)
    ensures r.out.Nil? ==> |st.errors| < |r.st.errors|
    decreases Rem(ts, st.k), 4
  {
    if Next(ts, st).kind == Semicolon then Step(Ok(expr), st)
    else
      var folded := FoldInfix(ts, st, expr, parent);
      if !folded.out.Ok? then folded
      else IfSuffix(ts, folded.st, folded.out.value)
  }

  /** The optional `if … else …` suffix after the infix loop. */
  function IfSuffix(ts: seq<Token>, st: PState, expr: Expr): (r: Step<Expr>)
    requires Built(expr)
    ensures Advanced(st, r)
    ensures r.out.Ok? ==> Built(r.out.value)
    ensures r.out.Nil? ==> |st.errors| < |r.st.errors|
    decreases Rem(ts, st.k), 2
  {
    if Next(ts, st).kind != If then Step(Ok(expr), st)
    else
      var t := ParseIfElseExpression(ts, st, expr);
      if t.out.Nil? then Step(Nil, Raise(t.st, "Could not parse if-else expression"))
      else t
  }

  /** The infix loop of `parseExpression`, from the evaluation of its
      condition. */
  function FoldInfix(ts: seq<Token>, st: PState, expr: Expr, parent: nat): (r: Step<Expr>)
    requires Built(expr)
    ensures Advanced(st, r)
    ensures r.out.Ok? ==> Built(r.out.value)
    ensures r.out.Nil? ==> |st.errors| < |r.st.errors|
    decreases Rem(ts, st.k), 3
  {
    var ranked := NextPrecedence(ts, st);
    FoldWith(ts, ranked.st, expr, parent, ranked.prec)
  }

  /** The infix loop once its condition has computed `prec`: while the next
      operator binds tighter than `parent`, fold it in; stop after a fold
      when a `;` comes next. */
  function FoldWith(ts: seq<Token>, st: PState, expr: Expr, parent: nat, prec: nat): (r: Step<Expr>)
    requires Built(expr)
    ensures Advanced(st, r)
    ensures r.out.Ok? ==> Built(r.out.value)
    ensures r.out.Nil? ==> |st.errors| < |r.st.errors|
    decreases Rem(ts, st.k), 2
  {
    if prec <= parent then Step(Ok(expr), st)
    else
      var inf := InfixStep(ts, st, expr);
      if !inf.out.Ok? || Next(ts, inf.st).kind == Semicolon then inf
      else FoldInfix(ts, inf.st, inf.out.value, parent)
  }

  /** Folding stops before an operator that does not bind tighter than the
      parent rank, and a `;` after the value stops the expression before
      any folding: the value alone is the expression. */
  lemma ExpressionStops(ts: seq<Token>, st: PState, parent: nat)
    requires PrefixValue(ts, st).out.Ok?
    requires var at := PrefixValue(ts, st).st;
      Next(ts, at).kind == Semicolon || (Next(ts, at).kind != If && RankOf(Next(ts, at).kind) <= parent)
    requires var at := PrefixValue(ts, st).st;
      Next(ts, at).kind in {Minus, Bang} ==> CurrentPrecedence(ts, at) == Lowest || PrefixRank <= parent
    ensures ParseExpression(ts, st, parent) == PrefixValue(ts, st)
  {
    var value := PrefixValue(ts, st);
    var v, at := value.out.value, value.st;
    if Next(ts, at).kind != Semicolon {
      assert NextPrecedence(ts, at).prec <= parent && NextPrecedence(ts, at).st == at;
      assert FoldInfix(ts, at, v, parent) == Step(Ok(v), at);
      assert IfSuffix(ts, at, v) == Step(Ok(v), at);
    }
    assert FinishExpression(ts, at, v, parent) == Step(Ok(v), at);
  }

  /** A turn of the infix loop that ends it: its result is the loop's. */
  lemma FoldStops(ts: seq<Token>, st: PState, left: Expr, parent: nat, prec: nat)
    requires Built(left) && prec > parent
    requires var r := InfixStep(ts, st, left); !r.out.Ok? || Next(ts, r.st).kind == Semicolon
    ensures FoldWith(ts, st, left, parent, prec) == InfixStep(ts, st, left)
  {
  }

  /** A turn of the infix loop that goes on: the loop continues from the
      folded expression with the precedence computed after it. */
  lemma FoldContinues(ts: seq<Token>, st: PState, left: Expr, parent: nat, prec: nat)
    requires Built(left) && prec > parent
    requires var r := InfixStep(ts, st, left); r.out.Ok? && Next(ts, r.st).kind != Semicolon
    ensures var r := InfixStep(ts, st, left);
            var ranked := NextPrecedence(ts, r.st);
            FoldWith(ts, ranked.st, r.out.value, parent, ranked.prec) == FoldWith(ts, st, left, parent, prec)
  {
  }

  /** One turn of the infix loop: `parseInfix`, with its failure reported. */
  function InfixStep(ts: seq<Token>, st: PState, left: Expr): (r: Step<Expr>)
    requires Built(left)
    ensures Advanced(st, r)
    ensures r.out.Ok? ==> Built(r.out.value) && Rem(ts, r.st.k) < Rem(ts, st.k)
    ensures r.out.Nil? ==> |st.errors| < |r.st.errors|
    decreases Rem(ts, st.k), 1
  {
    var inf := ParseInfix(ts, st, left);
    if inf.out.Nil? then Step(Nil, Raise(inf.st, "Could not parse infix expression")) else inf
  }

  /** `parseInfix(left)`: the next token is the operator, which must be a
      binary operator. */
  function ParseInfix(ts: seq<Token>, st: PState, left: Expr): (r: Step<Expr>)
    requires Built(left)
    ensures Advanced(st, r)
    ensures r.out.Ok? ==> Built(r.out.value) && Rem(ts, r.st.k) < Rem(ts, st.k)
    ensures r.out.Ok? ==> r.out.value.Infix? && r.out.value.left == left && r.out.value.operator == Next(ts, st)
    ensures r.out.Nil? ==> |st.errors| < |r.st.errors|
    decreases Rem(ts, st.k), 0
  {
    var operator := Next(ts, st);
    var st2 := Load(Load(st));
    if !IsInfixOperator(operator.kind) then
      Step(Nil, Raise(st2, "Unexpected Infix operator " + TypeName(operator.kind)))
    else
      RealToken(ts, st.k + 1);
      InfixRight(ts, st2, operator, left)
  }

  /** The right operand of a binary operator, parsed at the operator's own
      rank, so that operators of equal rank group to the left. */
  function InfixRight(ts: seq<Token>, st: PState, operator: Token, left: Expr): (r: Step<Expr>)
    requires IsInfixOperator(operator.kind) && Built(left)
    ensures Advanced(st, r)
    ensures r.out.Ok? ==> Built(r.out.value) && st.k < |ts|
    ensures r.out.Ok? ==> r.out.value.Infix? && r.out.value.left == left && r.out.value.operator == operator
    ensures r.out.Nil? ==> |st.errors| < |r.st.errors|
    decreases Rem(ts, st.k), 7
  {
    var right := ParseExpression(ts, st, RankOf(operator.kind));
    match right.out
    case Halted(h) => right
    case Nil => Step(Nil, InfixFailure(right.st, operator))
    case Ok(e) => Step(Ok(Infix(operator, left, e)), right.st)
  }

  /** The report of an infix operator whose right operand failed: by
      operator class, except that equality and ordering operators add no
      entry of their own. */
  function InfixFailure(st: PState, operator: Token): PState
  {
    var t := operator.kind;
    if t == Lt || t == Gt then Raise(st, " comparison error " + operator.literal)
    else if t == And || t == Or then Raise(st, "Could not parse logical expression")
    else if t == Eq || t == NotEq || t == Le || t == Ge then st
    else Raise(st, " algorithmic error " + operator.literal)
  }

  /** `parseIfElseExpression(left)`: the next token must be `if`. */
  function ParseIfElseExpression(ts: seq<Token>, st: PState, left: Expr): (r: Step<Expr>)
    requires Built(left)
    ensures Advanced(st, r)
    ensures r.out.Ok? ==> Built(r.out.value)
    ensures r.out.Ok? ==> r.out.value.Trinary? && r.out.value.left == left
    ensures r.out.Nil? ==> |st.errors| < |r.st.errors|
    decreases Rem(ts, st.k), 1
  {
    var st1 := Load(st);
    if Cur(ts, st1).kind != If then Step(Nil, RaiseTokenError(ts, st1, If))
    else IfCondition(ts, st1, left)
  }

  /** `left if condition`, with `if` current; the rest is
      `ElseExpression`. */
  function IfCondition(ts: seq<Token>, st: PState, left: Expr): (r: Step<Expr>)
    requires Cur(ts, st).kind == If && Built(left)
    ensures Advanced(st, r)
    ensures r.out.Ok? ==> Built(r.out.value)
    ensures r.out.Ok? ==> r.out.value.Trinary? && r.out.value.left == left
    ensures r.out.Nil? ==> |st.errors| < |r.st.errors|
    decreases Rem(ts, st.k), 0
  {
    RealToken(ts, st.k);
    var cond := ParseExpression(ts, Load(st), Lowest);
    match cond.out
    case Halted(h) => cond
    case Nil => Step(Nil, Raise(cond.st, "Could not parse if expression"))
    case Ok(c) => ElseExpression(ts, cond.st, left, c)
  }

  /** The rest of `parseIfElseExpression` after the condition `c`: the
      token after the condition is expected to be `else`. A missing `else`
      is reported but the node is still built. */
  function ElseExpression(ts: seq<Token>, st: PState, left: Expr, c: Expr): (r: Step<Expr>)
    requires Built(left) && Built(c)
    ensures Advanced(st, r)
    ensures r.out.Ok? ==> Built(r.out.value)
    ensures r.out.Ok? ==> r.out.value.Trinary? && r.out.value.left == left && r.out.value.condition == c
    ensures r.out.Nil? ==> |st.errors| < |r.st.errors|
    ensures Next(ts, st).kind != Else && !r.out.Halted? ==> RaiseTokenError(ts, Load(st), Else).errors <= r.st.errors
    decreases Rem(ts, st.k), 8
  {
    var st1 := Load(st);
    var st2 := if Cur(ts, st1).kind != Else then RaiseTokenError(ts, st1, Else) else st1;
    ElseOperand(ts, st2, left, c)
  }

  /** The alternative of the ternary, parsed after the `else` position. */
  function ElseOperand(ts: seq<Token>, st: PState, left: Expr, c: Expr): (r: Step<Expr>)
    requires Built(left) && Built(c)
    ensures Advanced(st, r)
    ensures r.out.Ok? ==> Built(r.out.value)
    ensures r.out.Ok? ==> r.out.value.Trinary? && r.out.value.left == left && r.out.value.condition == c
    ensures r.out.Nil? ==> |st.errors| < |r.st.errors|
    decreases Rem(ts, st.k), 7
  {
    ElseTail(ParseExpression(ts, Load(st), Lowest), left, c)
  }

  /** The ternary node once its alternative `right` has been parsed. */
  function ElseTail(right: Step<Expr>, left: Expr, c: Expr): (r: Step<Expr>)
    ensures r.out.Ok? ==> r.out.value.Trinary? && r.out.value.left == left && r.out.value.condition == c
    ensures r.out.Halted? == right.out.Halted? && (!r.out.Halted? ==> r.st.k == right.st.k && right.st.errors <= r.st.errors)
    ensures r.out.Nil? ==> |right.st.errors| < |r.st.errors|
  {
    match right.out
    case Halted(h) => right
    case Nil => Step(Nil, Raise(right.st, "Could not parse else expression"))
    case Ok(e) => Step(Ok(Trinary(left, c, e)), right.st)
  }

  /** `parsePrefix`: `!x` and `-x`, and `( e )`; any other type fails. */
  function ParsePrefix(ts: seq<Token>, st: PState): (r: Step<Expr>)
    ensures Advanced(st, r)
    ensures r.out.Ok? ==> Built(r.out.value) && st.k < |ts|
    ensures r.out.Nil? ==> |st.errors| < |r.st.errors|
    decreases Rem(ts, st.k), 4
  {
    var cur := Cur(ts, st);
    if cur.kind == Bang || cur.kind == Minus then PrefixOperation(ts, st)
    else if cur.kind == LParen then Grouped(ts, st)
    else Step(Nil, Raise(st, "Unexpected Prefix operator " + TypeName(cur.kind)))
  }

  /** The `(` arm of `parsePrefix`: the inner expression itself, once the
      `)` after it is found and made current. */
  function Grouped(ts: seq<Token>, st: PState): (r: Step<Expr>)
    requires Cur(ts, st).kind == LParen
    ensures Advanced(st, r)
    ensures r.out.Ok? ==> Built(r.out.value) && st.k < |ts|
    ensures r.out.Nil? ==> |st.errors| < |r.st.errors|
    decreases Rem(ts, st.k), 3
  {
    RealToken(ts, st.k);
    GroupedTail(ts, ParseExpression(ts, Load(st), Lowest))
  }

  /** The `(` arm once its inner expression has been parsed: a `)` must
      come next, and is made current. */
  function GroupedTail(ts: seq<Token>, inner: Step<Expr>): (r: Step<Expr>)
    ensures r.out.Halted? == inner.out.Halted?
    ensures !r.out.Halted? ==> inner.st.k <= r.st.k && inner.st.errors <= r.st.errors
    ensures r.out.Ok? ==> inner.out == r.out
    ensures r.out.Nil? ==> |inner.st.errors| < |r.st.errors|
  {
    match inner.out
    case Halted(h) => inner
    case Nil => Step(Nil, Raise(inner.st, "Could not parse LPAREN expression"))
    case Ok(e) => CloseParen(ts, inner.st, e)
  }

  /** The `)` that must follow a grouped expression `e`; it is made
      current. */
  function CloseParen(ts: seq<Token>, st: PState, e: Expr): (r: Step<Expr>)
    ensures !r.out.Halted? && st.k <= r.st.k && st.errors <= r.st.errors
    ensures r.out.Ok? ==> r.out.value == e
    ensures r.out.Nil? ==> |st.errors| < |r.st.errors|
  {
    if Next(ts, st).kind != RParen then Step(Nil, RaiseNextTokenError(ts, st, RParen))
    else Step(Ok(e), Load(st))
  }

  /** The `!`/`-` arm of `parsePrefix`: the operand is parsed at prefix
      rank, and a minus sign is folded into an integer literal operand. */
  function PrefixOperation(ts: seq<Token>, st: PState): (r: Step<Expr>)
    requires Cur(ts, st).kind == Bang || Cur(ts, st).kind == Minus
    ensures Advanced(st, r)
    ensures r.out.Ok? ==> Built(r.out.value) && st.k < |ts|
    ensures r.out.Nil? ==> |st.errors| < |r.st.errors|
    decreases Rem(ts, st.k), 3
  {
    var operator := Cur(ts, st);
    RealToken(ts, st.k);
    var operand := ParseExpression(ts, Load(st), PrefixRank);
    match operand.out
    case Halted(h) => operand
    case Nil => Step(Nil, Raise(operand.st, "Could not parse expression after prefix operator " + operator.literal))
    case Ok(e) => PrefixResult(operand.st, operator, e)
  }

  /** What the `!`/`-` arm returns for its operand `e`: `-` followed by an
      integer literal is converted again as one negative literal. */
  function PrefixResult(st: PState, operator: Token, e: Expr): (r: Step<Expr>)
    requires operator.kind == Bang || operator.kind == Minus
    requires Built(e)
    ensures !r.out.Halted? && r.st.k == st.k && st.errors <= r.st.errors
    ensures r.out.Ok? ==> Built(r.out.value)
    ensures r.out.Nil? ==> |st.errors| < |r.st.errors|
  {
    if operator.kind == Minus && e.GetTokenType() == Int then
      var literal := "-" + e.GetTokenLiteral();
      match NewIntegerLiteral(Token(Int, literal))
      case Failed(err) => Step(Nil, Raise(st, ErrorText(err, literal)))
      case Converted(lit) => Step(Ok(lit), st)
    else
      BuiltIntType(e);
      Step(Ok(Prefix(operator, e)), st)
  }

  /** Among built expressions, exactly the integer literals report INT: the
      minus fold applies to them and to nothing else. */
  lemma BuiltIntType(e: Expr)
    requires Built(e)
    ensures e.GetTokenType() == Int <==> e.IntegerLiteral?
  {
  }

  /** The `fn` arm of `parseExpression` up to its call of the
      function-definition parser: `(`, then the parameter loop. */
  function ParseFunctionLiteral(ts: seq<Token>, st: PState): (r: Step<Expr>)
    ensures Advanced(st, r)
    ensures r.out.Ok? ==> false
    ensures r.out.Nil? ==> |st.errors| < |r.st.errors|
  {
    if Next(ts, st).kind != LParen then Step(Nil, RaiseNextTokenError(ts, st, LParen))
    else
      var st1 := Load(st);
      var st2 := if Next(ts, st1).kind == RParen then Load(st1) else st1;
      var params := ParamLoop(ts, st2, []);
      match params.out
      case Ok(_) => Step(Halted(Unmodelled), params.st)
      case Nil => Step(Nil, params.st)
      case Halted(h) => Step(Halted(h), params.st)
  }

  /** The parameter loop: until the current token is `)`, an identifier must
      come next; it is taken and the token after it becomes current. */
  function ParamLoop(ts: seq<Token>, st: PState, signature: seq<Token>): (r: Step<seq<Token>>)
    ensures !r.out.Halted? && Advanced(st, r)
    ensures r.out.Ok? ==> signature <= r.out.value && Cur(ts, r.st).kind == RParen
    ensures r.out.Ok? ==> forall i | 0 <= i < |r.out.value| :: i >= |signature| ==> r.out.value[i].kind == Ident
    ensures r.out.Nil? ==> |st.errors| < |r.st.errors|
    decreases Rem(ts, st.k)
  {
    if Cur(ts, st).kind == RParen then Step(Ok(signature), st)
    else if Next(ts, st).kind != Ident then Step(Nil, RaiseNextTokenError(ts, st, Ident))
    else
      RealToken(ts, st.k + 1);
      var st1 := Load(st);
      ParamLoop(ts, Load(st1), signature + [Cur(ts, st1)])
  }

  // ------------------------------------------------------------ statements

  /** The index of the first `;` at or after `k`, if the stream has one. */
  function SemicolonFrom(ts: seq<Token>, k: nat): (r: Option<nat>)
    ensures r.Some? ==> k <= r.value < |ts| && ts[r.value].kind == Semicolon
    ensures r.Some? ==> forall j | k <= j < r.value :: ts[j].kind != Semicolon
    ensures r.None? <==> forall j | k <= j < |ts| :: ts[j].kind != Semicolon
    decreases |ts| - k
  {
    if k >= |ts| then None
    else if ts[k].kind == Semicolon then Some(k)
    else SemicolonFrom(ts, k + 1)
  }

  /** Past a token other than `;`, the first `;` is the same. */
  lemma SemicolonFromStep(ts: seq<Token>, k: nat)
    requires TokenAt(ts, k).kind != Semicolon
    ensures SemicolonFrom(ts, k) == SemicolonFrom(ts, k + 1)
  {
  }

  /** `skipToSemicolon`: the current token becomes the next `;`; with no `;`
      left the loop never ends, because the stream repeats EOF. */
  function SkipToSemicolon(ts: seq<Token>, st: PState): (r: Step<()>)
    ensures r.out.Halted? <==> SemicolonFrom(ts, st.k).None?
    ensures r.out.Halted? ==> r.out.halt == Hang
    ensures !r.out.Halted? ==> r.st.errors == st.errors && st.k <= r.st.k && Cur(ts, r.st).kind == Semicolon
  {
    match SemicolonFrom(ts, st.k)
    case None => Step(Halted(Hang), st)
    case Some(j) => Step(Ok(()), st.(k := j))
  }

  /** `let <ident> = <expr>`, then everything up to the next `;` is
      skipped. */
  function ParseLet(ts: seq<Token>, st: PState): (r: Step<Stmt>)
    requires Cur(ts, st).kind == Let
    ensures Advanced(st, r)
    ensures r.out.Ok? ==> BuiltStmt(r.out.value) && r.out.value.LetStatement? && Rem(ts, r.st.k) < Rem(ts, st.k)
    ensures r.out.Ok? ==> Cur(ts, r.st).kind == Semicolon
    ensures r.out.Nil? ==> |st.errors| < |r.st.errors|
    ensures Next(ts, st).kind != Ident ==> r == Step(Nil, RaiseNextTokenError(ts, st, Ident))
    ensures Next(ts, st).kind == Ident && TokenAt(ts, st.k + 2).kind != Assign ==>
      r == Step(Nil, RaiseNextTokenError(ts, PState(st.k + 2, st.errors), Assign))
    ensures r.out.Ok? ==> Next(ts, st).kind == Ident && TokenAt(ts, st.k + 2).kind == Assign
    ensures r.out.Ok? ==> r.out.value.name == Next(ts, st)
    ensures r.out.Ok? ==>
      var value := ParseExpression(ts, PState(st.k + 3, st.errors), Lowest);
      value.out.Ok? && r.out.value.value == value.out.value
  {
    if Next(ts, st).kind != Ident then Step(Nil, RaiseNextTokenError(ts, st, Ident))
    else
      var st1 := Load(st);
      var name := Cur(ts, st1);
      var st2 := Load(st1);
      if Cur(ts, st2).kind != Assign then Step(Nil, RaiseNextTokenError(ts, st2, Assign))
      else LetValue(ts, Load(st2), name)
  }

  /** The value of a `let`, parsed after the `=`. */
  function LetValue(ts: seq<Token>, st: PState, name: Token): (r: Step<Stmt>)
    requires name.kind == Ident
    ensures Advanced(st, r)
    ensures r.out.Ok? ==> BuiltStmt(r.out.value) && r.out.value.LetStatement? && st.k < r.st.k
    ensures r.out.Ok? ==> Cur(ts, r.st).kind == Semicolon
    ensures r.out.Nil? ==> |st.errors| < |r.st.errors|
    ensures r.out.Ok? <==>
      ParseExpression(ts, st, Lowest).out.Ok? && SemicolonFrom(ts, ParseExpression(ts, st, Lowest).st.k + 1).Some?
    ensures r.out.Ok? ==>
      var value := ParseExpression(ts, st, Lowest);
      value.out.Ok? && r.out.value == LetStatement(name, value.out.value)
  {
    var value := ParseExpression(ts, st, Lowest);
    match value.out
    case Halted(h) => Step(Halted(h), value.st)
    case Nil => Step(Nil, RaiseExpressionError(ts, value.st))
    case Ok(e) => StatementEnd(ts, Load(value.st), LetStatement(name, e))
  }

  /** The end of a `let` or `return` statement `s`: everything up to the
      next `;` is skipped. */
  function StatementEnd(ts: seq<Token>, st: PState, s: Stmt): (r: Step<Stmt>)
    ensures !r.out.Halted? ==> r.out == Ok(s) && r.st == SkipToSemicolon(ts, st).st
    ensures r.out.Halted? <==> SemicolonFrom(ts, st.k).None?
    ensures Advanced(st, r)
    ensures r.out.Ok? ==> Cur(ts, r.st).kind == Semicolon
  {
    var skip := SkipToSemicolon(ts, st);
    if skip.out.Halted? then Step(Halted(skip.out.halt), skip.st)
    else Step(Ok(s), skip.st)
  }

  /** `return;` or `return <expr>`, then everything up to the next `;` is
      skipped. */
  function ParseReturn(ts: seq<Token>, st: PState): (r: Step<Stmt>)
    requires Cur(ts, st).kind == Return
    ensures Advanced(st, r)
    ensures r.out.Ok? ==> BuiltStmt(r.out.value) && r.out.value.ReturnStatement? && Rem(ts, r.st.k) < Rem(ts, st.k)
    ensures r.out.Ok? ==> Cur(ts, r.st).kind == Semicolon
    ensures r.out.Nil? ==> |st.errors| < |r.st.errors|
    ensures Next(ts, st).kind == Semicolon ==> r == Step(Ok(ReturnStatement(None)), Load(st))
    ensures Next(ts, st).kind != Semicolon && r.out.Ok? ==>
      var value := ParseExpression(ts, Load(st), Lowest);
      value.out.Ok? && r.out.value == ReturnStatement(Some(value.out.value)) && r.st == SkipToSemicolon(ts, value.st).st
  {
    var st1 := Load(st);
    if Cur(ts, st1).kind == Semicolon then Step(Ok(ReturnStatement(None)), st1)
    else
      var value := ParseExpression(ts, st1, Lowest);
      match value.out
      case Halted(h) => Step(Halted(h), value.st)
      case Nil => Step(Nil, RaiseExpressionError(ts, value.st))
      case Ok(e) => StatementEnd(ts, value.st, ReturnStatement(Some(e)))
  }

  /** `parseStatement`, by the type of the current token. A `}` fails
      without an error entry and without moving; a `;` fails with an entry
      and without moving; any other unexpected token fails, with an entry,
      and is consumed. */
  function ParseStatement(ts: seq<Token>, st: PState): (r: Step<Stmt>)
    ensures Advanced(st, r)
    ensures r.out.Ok? ==> BuiltStmt(r.out.value) && Rem(ts, r.st.k) < Rem(ts, st.k)
    ensures r.out.Ok? && Cur(ts, st).kind == If ==> r.out.value.IfStatement?
    ensures r.out.Nil? && Cur(ts, st).kind != RBrace ==> |st.errors| < |r.st.errors|
    ensures r.out.Ok? ==> Cur(ts, st).kind in {Let, Return, If, LBrace}
    ensures r.out.Ok? && Cur(ts, st).kind == Let ==> r.out.value.LetStatement?
    ensures r.out.Ok? && Cur(ts, st).kind == Return ==> r.out.value.ReturnStatement?
    ensures r.out.Ok? && Cur(ts, st).kind == LBrace ==> r.out.value.BlockStatement?
    ensures Cur(ts, st).kind == If && r.out.Nil? ==>
      |r.st.errors| > 0 && r.st.errors[|r.st.errors| - 1] == ErrorEntry("Could not parse if statement")
    ensures Cur(ts, st).kind == RBrace ==> r == Step(Nil, st)
    ensures Cur(ts, st).kind == Semicolon ==> r == Step(Nil, Raise(st, "Unexpected token: " + Cur(ts, st).literal))
    ensures Cur(ts, st).kind !in {Let, Return, If, LBrace, RBrace, Semicolon} ==>
      r == Step(Nil, Load(Raise(st, "Unexpected token: " + Cur(ts, st).literal)))
    decreases Rem(ts, st.k), 2
  {
    var cur := Cur(ts, st);
    if cur.kind == Let then ParseLet(ts, st)
    else if cur.kind == Return then ParseReturn(ts, st)
    else if cur.kind == If then
      var s := ParseIfElseStatement(ts, st);
      if s.out.Nil? then Step(Nil, Raise(s.st, "Could not parse if statement")) else s
    else if cur.kind == LBrace then
      var b := ParseBlock(ts, st);
      if b.out.Nil? then Step(Nil, Raise(b.st, "Could not parse block statement")) else b
    else if cur.kind == RBrace then Step(Nil, st)
    else if cur.kind == Semicolon then Step(Nil, Raise(st, "Unexpected token: " + cur.literal))
    else Step(Nil, Load(Raise(st, "Unexpected token: " + cur.literal)))
  }

  /** `parseBlockStament`: `{`, statements up to `}`, and the `}` is
      consumed. */
  function ParseBlock(ts: seq<Token>, st: PState): (r: Step<Stmt>)
    ensures Advanced(st, r)
    ensures r.out.Ok? ==> r.out.value.BlockStatement? && BuiltStmt(r.out.value) && Rem(ts, r.st.k) < Rem(ts, st.k)
    ensures r.out.Nil? ==> |st.errors| < |r.st.errors|
    ensures Cur(ts, st).kind != LBrace ==> r == Step(Nil, RaiseNextTokenError(ts, st, LBrace))
    ensures r.out.Ok? ==> st.k < r.st.k && TokenAt(ts, r.st.k - 1).kind == RBrace
    decreases Rem(ts, st.k), 1
  {
    if Cur(ts, st).kind != LBrace then Step(Nil, RaiseNextTokenError(ts, st, LBrace))
    else
      RealToken(ts, st.k);
      BlockLoop(ts, Load(st), [])
  }

  /** The statement loop of `parseBlockStament`, with the statements parsed
      so far. A failing statement reports the whole block so far. */
  function BlockLoop(ts: seq<Token>, st: PState, stmts: seq<Stmt>): (r: Step<Stmt>)
    ensures Advanced(st, r)
    ensures r.out.Ok? ==> r.out.value.BlockStatement? && stmts <= r.out.value.statements
    ensures r.out.Ok? ==> forall i | |stmts| <= i < |r.out.value.statements| :: BuiltStmt(r.out.value.statements[i])
    ensures r.out.Ok? ==> st.k < r.st.k && TokenAt(ts, r.st.k - 1).kind == RBrace
    ensures r.out.Nil? ==> |st.errors| < |r.st.errors|
    decreases Rem(ts, st.k), 3
  {
    if Cur(ts, st).kind == RBrace then Step(Ok(BlockStatement(stmts)), Load(st))
    else
      var s := ParseStatement(ts, st);
      match s.out
      case Halted(h) => Step(Halted(h), s.st)
      case Nil => Step(Nil, RaiseBlockStatementError(ts, s.st, stmts))
      case Ok(x) =>
        var st1 := if Cur(ts, s.st).kind == Semicolon then Load(s.st) else s.st;
        BlockLoop(ts, st1, stmts + [x])
  }

  /** `parseIfElseStatement`: `if` followed by a condition that starts at
      `(`, then a block, then optionally `else` with either another `if`
      statement or a block. */
  function ParseIfElseStatement(ts: seq<Token>, st: PState): (r: Step<Stmt>)
    ensures Advanced(st, r)
    ensures r.out.Ok? ==> r.out.value.IfStatement? && BuiltStmt(r.out.value) && Rem(ts, r.st.k) < Rem(ts, st.k)
    ensures r.out.Nil? ==> |st.errors| < |r.st.errors|
    ensures Next(ts, st).kind != LParen ==> r == Step(Nil, RaiseNextTokenError(ts, st, LParen))
    ensures r.out.Ok? ==>
      var cond := ParseExpression(ts, Load(st), Lowest);
      cond.out.Ok? && r.out.value.condition == cond.out.value
    decreases Rem(ts, st.k), 1
  {
    if Next(ts, st).kind != LParen then Step(Nil, RaiseNextTokenError(ts, st, LParen))
    else
      RealToken(ts, st.k + 1);
      var cond := ParseExpression(ts, Load(st), Lowest);
      match cond.out
      case Halted(h) => Step(Halted(h), cond.st)
      case Nil => Step(Nil, RaiseExpressionError(ts, cond.st))
      case Ok(c) => IfBlock(ts, Load(cond.st), c)
  }

  /** The part of `parseIfElseStatement` after the condition `c`: the block
      and, when `else` follows, the alternative. */
  function IfBlock(ts: seq<Token>, st: PState, c: Expr): (r: Step<Stmt>)
    requires Built(c)
    ensures Advanced(st, r)
    ensures r.out.Ok? ==> r.out.value.IfStatement? && BuiltStmt(r.out.value) && Rem(ts, r.st.k) < Rem(ts, st.k)
    ensures r.out.Nil? ==> |st.errors| < |r.st.errors|
    ensures r.out.Ok? ==>
      var block := ParseBlock(ts, st);
      && block.out.Ok? && r.out.value.condition == c && r.out.value.block == block.out.value
      && (r.out.value.alternative.None? <==> Cur(ts, block.st).kind != Else)
    decreases Rem(ts, st.k), 2
  {
    var block := ParseBlock(ts, st);
    match block.out
    case Halted(h) => Step(Halted(h), block.st)
    case Nil => Step(Nil, Raise(block.st, "Could not parse block statement"))
    case Ok(b) =>
      if Cur(ts, block.st).kind != Else then Step(Ok(IfStatement(c, b, None)), block.st)
      else ElseBranch(ts, Load(block.st), c, b)
  }

  /** The alternative after `else`: an `if` statement through
      `parseStatement`, to any depth, or else a block. */
  function ElseBranch(ts: seq<Token>, st: PState, c: Expr, b: Stmt): (r: Step<Stmt>)
    requires Built(c) && b.BlockStatement? && BuiltStmt(b)
    ensures Advanced(st, r)
    ensures r.out.Ok? ==> r.out.value.IfStatement? && BuiltStmt(r.out.value) && Rem(ts, r.st.k) < Rem(ts, st.k)
    ensures r.out.Nil? ==> |st.errors| < |r.st.errors|
    ensures r.out.Ok? ==> r.out.value.condition == c && r.out.value.block == b && r.out.value.alternative.Some?
    ensures r.out.Ok? ==> (r.out.value.alternative.value.IfStatement? <==> Cur(ts, st).kind == If)
    ensures r.out.Ok? && Cur(ts, st).kind != If ==> r.out.value.alternative.value.BlockStatement?
    decreases Rem(ts, st.k), 3
  {
    if Cur(ts, st).kind == If then
      var alt := ParseStatement(ts, st);
      match alt.out
      case Halted(h) => Step(Halted(h), alt.st)
      case Nil => Step(Nil, Raise(alt.st, "Could not parse else if statement"))
      case Ok(x) => Step(Ok(IfStatement(c, b, Some(x))), alt.st)
    else
      var alt := ParseBlock(ts, st);
      match alt.out
      case Halted(h) => Step(Halted(h), alt.st)
      case Nil => Step(Nil, Raise(alt.st, "Could not parse else statement"))
      case Ok(x) => Step(Ok(IfStatement(c, b, Some(x))), alt.st)
  }

  // --------------------------------------------------------------- program

  /** The loop of `ParseProgram`: statements until the current token is EOF;
      a `;` after a statement is consumed; the first failing statement ends
      the loop with an error entry and `ok` false. */
  function ProgramLoop(ts: seq<Token>, st: PState, stmts: seq<Stmt>): (r: Step<ProgramResult>)
    ensures Advanced(st, r)
    ensures r.out.Ok? ==> stmts <= r.out.value.statements
    ensures r.out.Ok? ==> forall i | |stmts| <= i < |r.out.value.statements| :: BuiltStmt(r.out.value.statements[i])
    ensures r.out.Ok? && r.out.value.ok ==> Cur(ts, r.st).kind == Eof
    ensures r.out.Ok? && !r.out.value.ok ==> |st.errors| < |r.st.errors|
    ensures !r.out.Nil?
    decreases Rem(ts, st.k)
  {
    if Cur(ts, st).kind == Eof then Step(Ok(ProgramResult(stmts, true)), st)
    else
      var s := ParseStatement(ts, st);
      match s.out
      case Halted(h) => Step(Halted(h), s.st)
      case Nil =>
        Step(Ok(ProgramResult(stmts, false)),
             Raise(s.st, "Could not parse statement with token: " + Cur(ts, s.st).literal))
      case Ok(x) =>
        var st1 := if Cur(ts, s.st).kind == Semicolon then Load(s.st) else s.st;
        ProgramLoop(ts, st1, stmts + [x])
  }

  /** `ParseProgram` on a parser whose state is `st`. */
  function ParseProgram(ts: seq<Token>, st: PState): (r: Step<ProgramResult>)
    ensures Advanced(st, r) && !r.out.Nil?
    ensures r.out.Ok? ==> forall i | 0 <= i < |r.out.value.statements| :: BuiltStmt(r.out.value.statements[i])
    ensures r.out.Ok? && !r.out.value.ok ==> |r.st.errors| > |st.errors|
  {
    ProgramLoop(ts, st, [])
  }
}
