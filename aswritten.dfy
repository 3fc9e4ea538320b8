/** Two failure paths of the parser as the source writes them. After a
    failed call the routines return `nil, !ok`, and since `ok` holds the
    callee's `false` at that point, they report success with a nil node.
    Module `ParseSpec` models the evidently intended `nil, false`; the
    functions here model the flag as written, are proved to agree with
    `ParseSpec` in everything but the flag, and the lemmas show inputs on
    which the flag is wrong. */
module AsWritten {

  import opened Options
  import opened Tokens
  import opened IntLiterals
  import opened Ast
  import opened Precedences
  import opened ParseSpec

  /** The two results of a Go parsing routine: a node that may be nil, and
      the ok flag. */
  datatype Returned<T> = Returned(node: Option<T>, ok: bool)

  /** What a caller sees that reads the node and ignores the flag. */
  function NodeOnly<T>(r: Step<Returned<T>>): (s: Step<T>)
    ensures s.st == r.st
    ensures s.out.Halted? <==> r.out.Halted?
  {
    match r.out
    case Halted(h) => Step(Halted(h), r.st)
    case Nil => Step(Nil, r.st)
    case Ok(Returned(node, _)) => if node.Some? then Step(Ok(node.value), r.st) else Step(Nil, r.st)
  }

  // ------------------------------------------------------------ parsePrefix

  /** `parsePrefix` as written: when the operand of `!`/`-` or the inner
      expression of `( … )` fails, the arm records its error and returns a
      nil node with the flag set. */
  function ParsePrefixAsWritten(ts: seq<Token>, st: PState): (r: Step<Returned<Expr>>)
    ensures NodeOnly(r) == ParsePrefix(ts, st)
    ensures r.out.Ok? && r.out.value.node.Some? ==> r.out.value.ok
    ensures !r.out.Nil?
  {
    var cur := Cur(ts, st);
    if cur.kind == Bang || cur.kind == Minus then
      var operand := ParseExpression(ts, Load(st), PrefixRank);
      match operand.out
      case Halted(h) => Step(Halted(h), operand.st)
      case Nil =>
        Step(Ok(Returned(None, true)),
             Raise(operand.st, "Could not parse expression after prefix operator " + cur.literal))
      case Ok(e) =>
        var res := PrefixResult(operand.st, cur, e);
        Step(Ok(Returned(if res.out.Ok? then Some(res.out.value) else None, res.out.Ok?)), res.st)
    else if cur.kind == LParen then
      var inner := ParseExpression(ts, Load(st), Lowest);
      match inner.out
      case Halted(h) => Step(Halted(h), inner.st)
      case Nil => Step(Ok(Returned(None, true)), Raise(inner.st, "Could not parse LPAREN expression"))
      case Ok(e) =>
        var close := CloseParen(ts, inner.st, e);
        Step(Ok(Returned(if close.out.Ok? then Some(e) else None, close.out.Ok?)), close.st)
    else
      Step(Ok(Returned(None, false)), Raise(st, "Unexpected Prefix operator " + TypeName(cur.kind)))
  }

  /** The tokens of `-08;`: the literal `08` is octal with a digit 8. */
  const BadOperand: seq<Token> := [Token(Minus, "-"), Token(Int, "08"), Token(Semicolon, ";")]

  /** On `-08;` the operand fails, two errors are recorded, and yet the
      routine as written reports success with a nil node, where the
      intended routine fails. */
  lemma PrefixFailureReportedAsSuccess()
    ensures ParsePrefixAsWritten(BadOperand, PState(0, [])).out == Ok(Returned(None, true))
    ensures |ParsePrefixAsWritten(BadOperand, PState(0, [])).st.errors| == 2
    ensures ParsePrefix(BadOperand, PState(0, [])).out == Nil
  {
    OctalLiterals();
    assert PrefixValue(BadOperand, PState(1, [])).out == Nil;
  }

  // --------------------------------------------------- parseIfElseStatement

  /** `parseIfElseStatement` as written: a failed condition, a failed
      block or a failed `else` block returns a nil node with the flag set;
      a missing `(` and a failed `else if` return it cleared. */
  function ParseIfElseStatementAsWritten(ts: seq<Token>, st: PState): (r: Step<Returned<Stmt>>)
    ensures NodeOnly(r) == ParseIfElseStatement(ts, st)
    ensures r.out.Ok? && r.out.value.node.Some? ==> r.out.value.ok
    ensures !r.out.Nil?
  {
    if Next(ts, st).kind != LParen then Step(Ok(Returned(None, false)), RaiseNextTokenError(ts, st, LParen))
    else
      var cond := ParseExpression(ts, Load(st), Lowest);
      match cond.out
      case Halted(h) => Step(Halted(h), cond.st)
      case Nil => Step(Ok(Returned(None, true)), RaiseExpressionError(ts, cond.st))
      case Ok(c) => IfBlockAsWritten(ts, Load(cond.st), c)
  }

  /** The block after the condition, as written. */
  function IfBlockAsWritten(ts: seq<Token>, st: PState, c: Expr): (r: Step<Returned<Stmt>>)
    requires Built(c)
    ensures NodeOnly(r) == IfBlock(ts, st, c)
    ensures r.out.Ok? && r.out.value.node.Some? ==> r.out.value.ok
    ensures !r.out.Nil?
  {
    var block := ParseBlock(ts, st);
    match block.out
    case Halted(h) => Step(Halted(h), block.st)
    case Nil => Step(Ok(Returned(None, true)), Raise(block.st, "Could not parse block statement"))
    case Ok(b) =>
      if Cur(ts, block.st).kind != Else then Step(Ok(Returned(Some(IfStatement(c, b, None)), true)), block.st)
      else ElseBranchAsWritten(ts, Load(block.st), c, b)
  }

  /** The alternative after `else`, as written. */
  function ElseBranchAsWritten(ts: seq<Token>, st: PState, c: Expr, b: Stmt): (r: Step<Returned<Stmt>>)
    requires Built(c) && b.BlockStatement? && BuiltStmt(b)
    ensures NodeOnly(r) == ElseBranch(ts, st, c, b)
    ensures r.out.Ok? && r.out.value.node.Some? ==> r.out.value.ok
    ensures !r.out.Nil?
  {
    if Cur(ts, st).kind == If then
      var alt := ParseStatement(ts, st);
      match alt.out
      case Halted(h) => Step(Halted(h), alt.st)
      case Nil => Step(Ok(Returned(None, false)), Raise(alt.st, "Could not parse else if statement"))
      case Ok(x) => Step(Ok(Returned(Some(IfStatement(c, b, Some(x))), true)), alt.st)
    else
      var alt := ParseBlock(ts, st);
      match alt.out
      case Halted(h) => Step(Halted(h), alt.st)
      case Nil => Step(Ok(Returned(None, true)), Raise(alt.st, "Could not parse else statement"))
      case Ok(x) => Step(Ok(Returned(Some(IfStatement(c, b, Some(x))), true)), alt.st)
  }

  /** The `if` arm of `parseStatement` over the routine as written: the
      flag alone decides whether "Could not parse if statement" is
      recorded, and a nil node with the flag set passes through without
      it. The outcome is the intended one; the error list is the intended
      one or lacks its last entry. */
  function IfArmAsWritten(ts: seq<Token>, st: PState): (r: Step<Stmt>)
    requires Cur(ts, st).kind == If
    ensures r.out == ParseStatement(ts, st).out
    ensures !r.out.Halted? ==> r.st.k == ParseStatement(ts, st).st.k && r.st.errors <= ParseStatement(ts, st).st.errors
  {
    var s := ParseIfElseStatementAsWritten(ts, st);
    match s.out
    case Halted(h) => Step(Halted(h), s.st)
    case Ok(Returned(node, ok)) =>
      if !ok then Step(Nil, Raise(s.st, "Could not parse if statement"))
      else if node.None? then Step(Nil, s.st)
      else Step(Ok(node.value), s.st)
    case Nil => Step(Nil, s.st)
  }

  /** The tokens of `if (x) 5;`: no block after the condition. */
  const NoBlock: seq<Token> := [
    Token(If, "if"), Token(LParen, "("), Token(Ident, "x"), Token(RParen, ")"),
    Token(Int, "5"), Token(Semicolon, ";")
  ]

  /** The condition `(x)` parses and leaves `)` current. */
  lemma NoBlockCondition()
    ensures ParseExpression(NoBlock, PState(1, []), Lowest) == Step(Ok(Identifier(Token(Ident, "x"))), PState(3, []))
  {
    var x := Identifier(Token(Ident, "x"));
    assert PrefixValue(NoBlock, PState(2, [])) == Step(Ok(x), PState(2, []));
    ExpressionStops(NoBlock, PState(2, []), Lowest);
    assert Grouped(NoBlock, PState(1, [])) == Step(Ok(x), PState(3, []));
    assert PrefixValue(NoBlock, PState(1, [])) == Step(Ok(x), PState(3, []));
    ExpressionStops(NoBlock, PState(1, []), Lowest);
  }

  /** On `if (x) 5;` the missing block is reported, and the routine as
      written returns its nil node with the flag set, so the `if` arm
      records two entries where the intended parser records three. */
  lemma IfFailureLosesEntry()
    ensures ParseIfElseStatementAsWritten(NoBlock, PState(0, [])).out == Ok(Returned(None, true))
    ensures |IfArmAsWritten(NoBlock, PState(0, [])).st.errors| == 2
    ensures |ParseStatement(NoBlock, PState(0, [])).st.errors| == 3
  {
    NoBlockCondition();
    assert ParseBlock(NoBlock, PState(4, [])).out == Nil;
  }
}
