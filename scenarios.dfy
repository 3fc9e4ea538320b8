/** Programs from the parser's and the evaluator's own tests, parsed by the
    functions of `ParseSpec`. The parser programs are given as the token
    streams the lexer yields for them; the evaluator's program is also
    lexed from its text. Each fact about a part of a program is its own
    lemma, and the whole program is assembled from those small steps. */
module Scenarios {

  import opened Options
  import opened Tokens
  import opened LexSpec
  import opened IntLiterals
  import opened Ast
  import opened Precedences
  import opened ParseSpec
  import opened Objects
  import opened Repl

  function S(k: nat): PState
  {
    PState(k, [])
  }

  // ------------------------------------------------ return -y * -1 + 1;

  /** The tokens of `return -y * -1 + 1;`. */
  const Arith: seq<Token> := [
    Token(Return, "return"), Token(Minus, "-"), Token(Ident, "y"), Token(Asterisk, "*"),
    Token(Minus, "-"), Token(Int, "1"), Token(Plus, "+"), Token(Int, "1"), Token(Semicolon, ";")
  ]

  const Y: Expr := Identifier(Token(Ident, "y"))
  const NegY: Expr := Prefix(Token(Minus, "-"), Y)
  const MinusOne: Expr := IntegerLiteral(Token(Int, "-1"), -1)
  const One: Expr := IntegerLiteral(Token(Int, "1"), 1)
  const Times: Expr := Infix(Token(Asterisk, "*"), NegY, MinusOne)
  const Total: Expr := Infix(Token(Plus, "+"), Times, One)

  lemma SmallLiterals()
    ensures ParseInt("1") == Converted(1)
    ensures ParseInt("-1") == Converted(-1)
    ensures ParseInt("5") == Converted(5)
    ensures ParseInt("-5") == Converted(-5)
  {
    assert "-1"[1..] == "1";
    assert "-5"[1..] == "5";
    assert "1"[1..] == [] && "5"[1..] == [];
  }

  /** `-y`: the operand `y` is parsed at prefix rank and stops before `*`. */
  lemma ArithNegY()
    ensures PrefixOperation(Arith, S(1)) == Step(Ok(NegY), S(2))
  {
    assert PrefixValue(Arith, S(2)) == Step(Ok(Y), S(2));
    ExpressionStops(Arith, S(2), PrefixRank);
  }

  /** The `1` of `-1` is parsed at prefix rank and stops before `+`. */
  lemma ArithOperandOne()
    ensures ParseExpression(Arith, S(5), PrefixRank) == Step(Ok(One), S(5))
  {
    SmallLiterals();
    assert PrefixValue(Arith, S(5)) == Step(Ok(One), S(5));
    ExpressionStops(Arith, S(5), PrefixRank);
  }

  /** A minus sign before the literal `1` folds into the literal `-1`. */
  lemma ArithMinusFold()
    ensures PrefixValue(Arith, S(4)) == Step(Ok(MinusOne), S(5))
  {
    ArithOperandOne();
    SmallLiterals();
    assert "-" + One.GetTokenLiteral() == "-1";
    assert NewIntegerLiteral(Token(Int, "-1")) == Converted(MinusOne);
    assert PrefixResult(S(5), Token(Minus, "-"), One) == Step(Ok(MinusOne), S(5));
    assert PrefixOperation(Arith, S(4)) == Step(Ok(MinusOne), S(5));
  }

  /** `-1` after `*` is one negative literal, and stops before `+`. */
  lemma ArithMinusOne()
    ensures ParseExpression(Arith, S(4), Precedences.Product) == Step(Ok(MinusOne), S(5))
  {
    ArithMinusFold();
    ExpressionStops(Arith, S(4), Precedences.Product);
  }

  lemma ArithTimes()
    ensures InfixStep(Arith, S(2), NegY) == Step(Ok(Times), S(5))
  {
    ArithMinusOne();
    assert InfixRight(Arith, S(4), Token(Asterisk, "*"), NegY) == Step(Ok(Times), S(5));
    assert ParseInfix(Arith, S(2), NegY) == Step(Ok(Times), S(5));
  }

  lemma ArithOne()
    ensures ParseExpression(Arith, S(7), Sum) == Step(Ok(One), S(7))
  {
    SmallLiterals();
    assert PrefixValue(Arith, S(7)) == Step(Ok(One), S(7));
    ExpressionStops(Arith, S(7), Sum);
  }

  lemma ArithTotal()
    ensures InfixStep(Arith, S(5), Times) == Step(Ok(Total), S(7))
  {
    ArithOne();
    assert InfixRight(Arith, S(7), Token(Plus, "+"), Times) == Step(Ok(Total), S(7));
    assert ParseInfix(Arith, S(5), Times) == Step(Ok(Total), S(7));
  }

  /** After `-y * -1`, `+` binds tighter than the statement level and is
      folded; the `;` after its operand ends the loop. */
  lemma ArithFoldPlus()
    ensures FoldInfix(Arith, S(5), Times, Lowest) == Step(Ok(Total), S(7))
  {
    ArithTotal();
    assert NextPrecedence(Arith, S(5)) == Ranked(Sum, S(5));
    FoldStops(Arith, S(5), Times, Lowest, Sum);
  }

  lemma ArithFoldTimes()
    ensures FoldInfix(Arith, S(2), NegY, Lowest) == Step(Ok(Total), S(7))
  {
    ArithTimes();
    assert NextPrecedence(Arith, S(2)) == Ranked(Precedences.Product, S(2));
    FoldContinues(Arith, S(2), NegY, Lowest, Precedences.Product);
    ArithFoldPlus();
  }

  lemma ArithExpression()
    ensures ParseExpression(Arith, S(1), Lowest) == Step(Ok(Total), S(7))
  {
    ArithNegY();
    assert PrefixValue(Arith, S(1)) == Step(Ok(NegY), S(2));
    ArithFoldTimes();
    assert IfSuffix(Arith, S(7), Total) == Step(Ok(Total), S(7));
  }

  lemma ArithStatement()
    ensures ParseStatement(Arith, S(0)) == Step(Ok(ReturnStatement(Some(Total))), S(8))
  {
    ArithExpression();
    assert SemicolonFrom(Arith, 7) == Some(8);
    assert ParseReturn(Arith, S(0)) == Step(Ok(ReturnStatement(Some(Total))), S(8));
  }

  lemma ArithLoopStart()
    ensures ProgramLoop(Arith, S(0), []) == ProgramLoop(Arith, S(9), [ReturnStatement(Some(Total))])
  {
    ArithStatement();
    assert [] + [ReturnStatement(Some(Total))] == [ReturnStatement(Some(Total))];
  }

  lemma ArithLoopEnd()
    ensures ProgramLoop(Arith, S(9), [ReturnStatement(Some(Total))]) ==
            Step(Ok(ProgramResult([ReturnStatement(Some(Total))], true)), S(9))
  {
    assert Cur(Arith, S(9)) == EofToken;
  }

  /** `return -y * -1 + 1;` parses as `((-y * -1) + 1)`: operators of
      higher rank group first, `-1` is one literal, and the program is one
      return statement. */
  lemma ArithProgram()
    ensures ParseProgram(Arith, S(0)) == Step(Ok(ProgramResult([ReturnStatement(Some(Total))], true)), S(9))
  {
    ArithLoopStart();
    ArithLoopEnd();
  }

  /** The tree of `-y * -1 + 1` prints fully parenthesised. */
  lemma ArithPrinted()
    ensures Total.ToString() == "(((- y) * -1) + 1)"
  {
    assert NegY.ToString() == "(- y)";
    assert Times.ToString() == "((- y) * -1)";
  }

  // ------------------------------------------------------- let x = -5;

  /** The tokens of `let x = -5;`. */
  const LetNeg: seq<Token> := [
    Token(Let, "let"), Token(Ident, "x"), Token(Assign, "="), Token(Minus, "-"), Token(Int, "5"),
    Token(Semicolon, ";")
  ]

  const X: Token := Token(Ident, "x")
  const MinusFive: Expr := IntegerLiteral(Token(Int, "-5"), -5)

  lemma LetNegValue()
    ensures ParseExpression(LetNeg, S(3), Lowest) == Step(Ok(MinusFive), S(4))
  {
    var five := IntegerLiteral(Token(Int, "5"), 5);
    SmallLiterals();
    assert PrefixValue(LetNeg, S(4)) == Step(Ok(five), S(4));
    ExpressionStops(LetNeg, S(4), PrefixRank);
    assert "-" + five.GetTokenLiteral() == "-5";
    assert NewIntegerLiteral(Token(Int, "-5")) == Converted(MinusFive);
    assert PrefixOperation(LetNeg, S(3)) == Step(Ok(MinusFive), S(4));
    ExpressionStops(LetNeg, S(3), Lowest);
  }

  /** `let x = -5;` binds `x` to the single literal `-5`, not to a prefix
      operation. */
  lemma LetNegStatement()
    ensures ParseStatement(LetNeg, S(0)) == Step(Ok(LetStatement(X, MinusFive)), S(5))
  {
    LetNegValue();
    assert SemicolonFrom(LetNeg, 5) == Some(5);
    assert LetValue(LetNeg, S(3), X) == Step(Ok(LetStatement(X, MinusFive)), S(5));
  }

  // --------------------------------------------------- return !z || x;

  /** The tokens of `return !z || x;`. */
  const Logic: seq<Token> := [
    Token(Return, "return"), Token(Bang, "!"), Token(Ident, "z"), Token(Or, "||"), Token(Ident, "x"),
    Token(Semicolon, ";")
  ]

  const NotZ: Expr := Prefix(Token(Bang, "!"), Identifier(Token(Ident, "z")))
  const Either: Expr := Infix(Token(Or, "||"), NotZ, Identifier(X))

  /** The operand of `!` is parsed at prefix rank, so it stops before
      `||`. */
  lemma LogicNotZ()
    ensures PrefixValue(Logic, S(1)) == Step(Ok(NotZ), S(2))
  {
    assert PrefixValue(Logic, S(2)) == Step(Ok(Identifier(Token(Ident, "z"))), S(2));
    ExpressionStops(Logic, S(2), PrefixRank);
    assert PrefixOperation(Logic, S(1)) == Step(Ok(NotZ), S(2));
  }

  lemma LogicOr()
    ensures InfixStep(Logic, S(2), NotZ) == Step(Ok(Either), S(4))
  {
    assert PrefixValue(Logic, S(4)) == Step(Ok(Identifier(X)), S(4));
    ExpressionStops(Logic, S(4), Precedences.Product);
    assert InfixRight(Logic, S(4), Token(Or, "||"), NotZ) == Step(Ok(Either), S(4));
    assert ParseInfix(Logic, S(2), NotZ) == Step(Ok(Either), S(4));
  }

  /** `!z || x` is `(!z) || x`. */
  lemma LogicExpression()
    ensures ParseExpression(Logic, S(1), Lowest) == Step(Ok(Either), S(4))
  {
    LogicNotZ();
    LogicOr();
    assert NextPrecedence(Logic, S(2)) == Ranked(Precedences.Product, S(2));
    FoldStops(Logic, S(2), NotZ, Lowest, Precedences.Product);
    assert FoldInfix(Logic, S(2), NotZ, Lowest) == Step(Ok(Either), S(4));
    assert IfSuffix(Logic, S(4), Either) == Step(Ok(Either), S(4));
  }

  lemma LogicStatement()
    ensures ParseStatement(Logic, S(0)) == Step(Ok(ReturnStatement(Some(Either))), S(5))
  {
    LogicExpression();
    assert SemicolonFrom(Logic, 4) == Some(5);
    assert ParseReturn(Logic, S(0)) == Step(Ok(ReturnStatement(Some(Either))), S(5));
  }

  // ------------------------------------------ return 1 + 2 if x else 3;

  /** The tokens of `return 1 + 2 if x else 3;`. */
  const Choice: seq<Token> := [
    Token(Return, "return"), Token(Int, "1"), Token(Plus, "+"), Token(Int, "2"), Token(If, "if"),
    Token(Ident, "x"), Token(Else, "else"), Token(Int, "3"), Token(Semicolon, ";")
  ]

  const Two: Expr := IntegerLiteral(Token(Int, "2"), 2)
  const Three: Expr := IntegerLiteral(Token(Int, "3"), 3)
  const Pick: Expr := Trinary(Two, Identifier(X), Three)
  const OnePlusPick: Expr := Infix(Token(Plus, "+"), One, Pick)

  lemma ChoiceLiterals()
    ensures ParseInt("2") == Converted(2) && ParseInt("3") == Converted(3)
  {
    assert "2"[1..] == [] && "3"[1..] == [];
  }

  /** The condition `x` stops before `else`, and the alternative `3`
      before `;`. */
  lemma ChoiceBranches()
    ensures ElseExpression(Choice, S(5), Two, Identifier(X)) == Step(Ok(Pick), S(7))
  {
    ChoiceLiterals();
    assert PrefixValue(Choice, S(7)) == Step(Ok(Three), S(7));
    ExpressionStops(Choice, S(7), Lowest);
    assert ElseOperand(Choice, S(6), Two, Identifier(X)) == Step(Ok(Pick), S(7));
  }

  lemma ChoiceCondition()
    ensures ParseIfElseExpression(Choice, S(3), Two) == Step(Ok(Pick), S(7))
  {
    assert PrefixValue(Choice, S(5)) == Step(Ok(Identifier(X)), S(5));
    ExpressionStops(Choice, S(5), Lowest);
    ChoiceBranches();
    assert IfCondition(Choice, S(4), Two) == Step(Ok(Pick), S(7));
  }

  /** The right operand of `+` is the innermost expression that sees the
      `if`, so the suffix wraps only `2`. */
  lemma ChoiceRight()
    ensures ParseExpression(Choice, S(3), Sum) == Step(Ok(Pick), S(7))
  {
    ChoiceLiterals();
    ChoiceCondition();
    assert PrefixValue(Choice, S(3)) == Step(Ok(Two), S(3));
    assert NextPrecedence(Choice, S(3)) == Ranked(Lowest, S(3));
    assert FoldInfix(Choice, S(3), Two, Sum) == Step(Ok(Two), S(3));
    assert IfSuffix(Choice, S(3), Two) == Step(Ok(Pick), S(7));
  }

  lemma ChoicePlus()
    ensures InfixStep(Choice, S(1), One) == Step(Ok(OnePlusPick), S(7))
  {
    ChoiceRight();
    assert InfixRight(Choice, S(3), Token(Plus, "+"), One) == Step(Ok(OnePlusPick), S(7));
    assert ParseInfix(Choice, S(1), One) == Step(Ok(OnePlusPick), S(7));
  }

  /** `1 + 2 if x else 3` is `1 + (2 if x else 3)`. */
  lemma ChoiceExpression()
    ensures ParseExpression(Choice, S(1), Lowest) == Step(Ok(OnePlusPick), S(7))
  {
    SmallLiterals();
    ChoicePlus();
    assert PrefixValue(Choice, S(1)) == Step(Ok(One), S(1));
    assert NextPrecedence(Choice, S(1)) == Ranked(Sum, S(1));
    FoldStops(Choice, S(1), One, Lowest, Sum);
    assert FoldInfix(Choice, S(1), One, Lowest) == Step(Ok(OnePlusPick), S(7));
    assert IfSuffix(Choice, S(7), OnePlusPick) == Step(Ok(OnePlusPick), S(7));
  }

  // ------------------------------------------------------ 1 if x then 3;

  /** The tokens of `1 if x then 3;`: a ternary whose `else` is missing. */
  const Loose: seq<Token> := [
    Token(Int, "1"), Token(If, "if"), Token(Ident, "x"), Token(Ident, "then"), Token(Int, "3"), Token(Semicolon, ";")
  ]

  const MissingElse: string := ErrorEntry("Expected " + "ELSE" + " token, got " + "IDENT" + " token instead")
  const OneOrThree: Expr := Trinary(One, Identifier(X), Three)

  /** The `then` standing where `else` belongs is reported by its type. */
  lemma LooseReport()
    ensures RaiseTokenError(Loose, S(3), Else) == PState(3, [MissingElse])
  {
    assert Cur(Loose, S(3)).kind == Ident by {}
    assert TypeName(Else) == "ELSE" && TypeName(Ident) == "IDENT" by {}
  }

  /** Whatever stands where `else` belongs is reported and skipped, and the
      alternative is parsed from the token after it. */
  lemma LooseBranches()
    ensures ElseExpression(Loose, S(2), One, Identifier(X)) == Step(Ok(OneOrThree), PState(4, [MissingElse]))
  {
    ChoiceLiterals();
    LooseReport();
    assert PrefixValue(Loose, PState(4, [MissingElse])) == Step(Ok(Three), PState(4, [MissingElse]));
    ExpressionStops(Loose, PState(4, [MissingElse]), Lowest);
    assert ElseOperand(Loose, PState(3, [MissingElse]), One, Identifier(X)) == Step(Ok(OneOrThree), PState(4, [MissingElse]));
  }

  lemma LooseCondition()
    ensures ParseIfElseExpression(Loose, S(0), One) == Step(Ok(OneOrThree), PState(4, [MissingElse]))
  {
    assert PrefixValue(Loose, S(2)) == Step(Ok(Identifier(X)), S(2));
    ExpressionStops(Loose, S(2), Lowest);
    LooseBranches();
    assert IfCondition(Loose, S(1), One) == Step(Ok(OneOrThree), PState(4, [MissingElse]));
  }

  /** `1 if x then 3` still yields the ternary `1 if x else 3`, with the
      missing `else` as the only error on the list. */
  lemma LooseExpression()
    ensures ParseExpression(Loose, S(0), Lowest) == Step(Ok(OneOrThree), PState(4, [MissingElse]))
  {
    SmallLiterals();
    LooseCondition();
    assert PrefixValue(Loose, S(0)) == Step(Ok(One), S(0));
    assert NextPrecedence(Loose, S(0)) == Ranked(Lowest, S(0));
    assert FoldInfix(Loose, S(0), One, Lowest) == Step(Ok(One), S(0));
    assert IfSuffix(Loose, S(0), One) == Step(Ok(OneOrThree), PState(4, [MissingElse]));
    assert FinishExpression(Loose, S(0), One, Lowest) == Step(Ok(OneOrThree), PState(4, [MissingElse]));
  }

  /** The tokens of `1 if x 3;`: the `else` is missing and nothing stands
      in its place. */
  const Bare: seq<Token> := [Token(Int, "1"), Token(If, "if"), Token(Ident, "x"), Token(Int, "3"), Token(Semicolon, ";")]

  const BareElse: string := ErrorEntry("Expected " + "ELSE" + " token, got " + "INT" + " token instead")

  lemma BareReport()
    ensures RaiseTokenError(Bare, S(3), Else) == PState(3, [BareElse])
  {
    assert Cur(Bare, S(3)).kind == Int by {}
    assert TypeName(Else) == "ELSE" && TypeName(Int) == "INT" by {}
  }

  /** Here the `3` is taken for the missing `else`, so the alternative is
      parsed from `;` and the parser panics. */
  lemma BareElsePanics()
    ensures ElseExpression(Bare, S(2), One, Identifier(X)).out
         == Halted(Halt.Panic([BareElse, ErrorEntry("Unexpected token for parseExpression: " + ";")]))
  {
    BareReport();
    assert Cur(Bare, S(4)).kind == Semicolon by {}
    assert TypeName(Semicolon) == ";" by {}
    var panic := Halted(Halt.Panic([BareElse, ErrorEntry("Unexpected token for parseExpression: " + ";")]));
    assert [BareElse] + [ErrorEntry("Unexpected token for parseExpression: " + ";")]
        == [BareElse, ErrorEntry("Unexpected token for parseExpression: " + ";")];
    assert PrefixValue(Bare, PState(4, [BareElse])).out == panic;
    assert ParseExpression(Bare, PState(4, [BareElse]), Lowest).out == panic;
    assert ElseOperand(Bare, PState(3, [BareElse]), One, Identifier(X)).out == panic;
  }

  // ------------------------------------------------------- let x = 5

  /** The tokens of `let x = 5`, with no `;` after it. */
  const Unended: seq<Token> := [Token(Let, "let"), Token(Ident, "x"), Token(Assign, "="), Token(Int, "5")]

  /** A `let` with no `;` after it never finishes: the skip to the next `;`
      reads EOF forever. */
  lemma UnendedLetHangs()
    ensures ParseStatement(Unended, S(0)).out == Halted(Hang)
    ensures ParseProgram(Unended, S(0)).out == Halted(Hang)
  {
    SmallLiterals();
    assert PrefixValue(Unended, S(3)) == Step(Ok(IntegerLiteral(Token(Int, "5"), 5)), S(3));
    ExpressionStops(Unended, S(3), Lowest);
    assert SemicolonFrom(Unended, 4) == None;
    assert LetValue(Unended, S(3), X).out == Halted(Hang);
  }

  // ------------------------------------------------------- return 5;

  /** The input of the evaluator's test: `return 5;` on an indented line. */
  const ReturnFive: seq<Byte> := "\n\t\treturn 5;\n\t"

  /** Its tokens: the call that skips the trailing whitespace starts before
      the end and returns EOF. */
  const FiveTokens: seq<Token> := [Token(Return, "return"), Token(Int, "5"), Token(Semicolon, ";"), EofToken]

  const Five: Expr := IntegerLiteral(Token(Int, "5"), 5)

  lemma FiveScanKeyword()
    ensures Scan(ReturnFive, 0) == (Token(Return, "return"), 9)
  {
    assert SkipSpace(ReturnFive, 0) == 3;
    assert RunEnd(ReturnFive, 3, Letters) == 9;
    assert ReturnFive[3..9] == "return";
  }

  lemma FiveScanRest()
    ensures Scan(ReturnFive, 9) == (Token(Int, "5"), 11)
    ensures Scan(ReturnFive, 11) == (Token(Semicolon, ";"), 12)
    ensures Scan(ReturnFive, 12) == (EofToken, 15)
  {
    assert SkipSpace(ReturnFive, 9) == 10;
    assert RunEnd(ReturnFive, 10, Digits) == 11;
    assert ReturnFive[10..11] == "5";
    assert SkipSpace(ReturnFive, 11) == 11;
    assert SkipSpace(ReturnFive, 12) == 14;
  }

  lemma FiveLexed()
    ensures LexFrom(ReturnFive, 0) == FiveTokens
  {
    FiveScanKeyword();
    FiveScanRest();
    assert LexFrom(ReturnFive, 12) == [EofToken];
  }

  lemma FiveStatement()
    ensures ParseStatement(FiveTokens, S(0)) == Step(Ok(ReturnStatement(Some(Five))), S(2))
  {
    SmallLiterals();
    assert PrefixValue(FiveTokens, S(1)) == Step(Ok(Five), S(1));
    ExpressionStops(FiveTokens, S(1), Lowest);
    assert SemicolonFrom(FiveTokens, 1) == Some(2);
  }

  lemma FiveProgram()
    ensures ParseProgram(FiveTokens, S(0)) == Step(Ok(ProgramResult([ReturnStatement(Some(Five))], true)), S(3))
  {
    FiveStatement();
    assert [] + [ReturnStatement(Some(Five))] == [ReturnStatement(Some(Five))];
    assert ProgramLoop(FiveTokens, S(3), [ReturnStatement(Some(Five))]) ==
           Step(Ok(ProgramResult([ReturnStatement(Some(Five))], true)), S(3));
  }

  /** The literal 5 evaluates to the integer 5, which compares equal to
      the expected object. */
  lemma FiveEvaluates()
    ensures EvalExpression(Five) == Value(IntObject(5))
    ensures ObjIsEqual(Some(IntObject(5)), Some(IntObject(5))) == Value(true)
  {
    SmallLiterals();
  }

  /** The evaluator's test: the indented line `return 5;` lexes, parses as
      one return statement, and its value evaluates to the integer 5, which
      compares equal to the expected object. */
  lemma ReturnFiveEvaluates()
    ensures ParseProgram(LexFrom(ReturnFive, 0), S(0)).out == Ok(ProgramResult([ReturnStatement(Some(Five))], true))
    ensures EvalExpression(Five) == Value(IntObject(5))
    ensures ObjIsEqual(Some(IntObject(5)), Some(IntObject(5))) == Value(true)
  {
    var ts := LexFrom(ReturnFive, 0);
    FiveLexed();
    FiveProgram();
    assert ParseProgram(ts, S(0)).out == Ok(ProgramResult([ReturnStatement(Some(Five))], true));
    FiveEvaluates();
  }
}
