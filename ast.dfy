/** Syntax tree nodes (package ast). Expressions and statements are
    immutable values; the getters and the string rendering are functions
    on them. */
module Ast {

  import opened Options
  import opened Tokens
  import opened IntLiterals

  datatype Expr =
    | Identifier(token: Token)
    | BoolLiteral(token: Token)
    | IntegerLiteral(token: Token, value: Int64)
    | Prefix(operator: Token, operand: Expr)
    | Infix(operator: Token, left: Expr, right: Expr)
    | Trinary(left: Expr, condition: Expr, right: Expr)
    | FunctionLiteral(signature: seq<Token>, body: Option<Stmt>)
    | FunctionCall(name: Token, arguments: seq<Expr>)
  {
    /** The token type a node reports. An identifier and a call always
        report IDENT, whatever their token says. */
    function GetTokenType(): TokenType
    {
      match this
      case Identifier(_) => Ident
      case BoolLiteral(t) => t.kind
      case IntegerLiteral(_, _) => Int
      case Prefix(op, _) => op.kind
      case Infix(op, _, _) => op.kind
      case Trinary(_, _, _) => If
      case FunctionLiteral(_, _) => Function
      case FunctionCall(_, _) => Ident
    }

    function GetTokenLiteral(): string
    {
      match this
      case Identifier(t) => t.literal
      case BoolLiteral(t) => t.literal
      case IntegerLiteral(t, _) => t.literal
      case Prefix(op, _) => op.literal
      case Infix(op, _, _) => op.literal
      case Trinary(_, _, _) => "if"
      case FunctionLiteral(_, _) => "fn"
      case FunctionCall(name, _) => name.literal
    }

    /** The printed form of a node. Literals print their token text; a prefix
        operation prints fully parenthesised. */
    function ToString(): string
      decreases this, 1
    {
      match this
      case Identifier(t) => t.literal
      case BoolLiteral(t) => t.literal
      case IntegerLiteral(t, _) => t.literal
      case Prefix(op, operand) => "(" + op.literal + " " + operand.ToString() + ")"
      case Infix(op, left, right) => "(" + left.ToString() + " " + op.literal + " " + right.ToString() + ")"
      case Trinary(left, condition, right) =>
        "(" + left.ToString() + " if " + condition.ToString() + " else " + right.ToString() + ")"
      case FunctionLiteral(signature, body) =>
        "fn " + "(" + Join(Literals(signature), ", ") + ")" + " " +
        (match body case Some(b) => b.ToString() case None => "{}")
      case FunctionCall(name, arguments) =>
        name.literal + "(" + Join(ExprStrings(arguments), ", ") + ")"
    }
  }

  datatype Stmt =
    | LetStatement(name: Token, value: Expr)
    | ReturnStatement(returnValue: Option<Expr>)
    | BlockStatement(statements: seq<Stmt>)
    | IfStatement(condition: Expr, block: Stmt, alternative: Option<Stmt>)
  {
    function ToString(): string
      decreases this, 1
    {
      match this
      case LetStatement(name, value) => "let " + name.literal + " = " + value.ToString() + ";"
      case ReturnStatement(None) => "return;"
      case ReturnStatement(Some(v)) => "return " + v.ToString() + ";"
      case BlockStatement(statements) => "{ " + Join(StmtStrings(statements), " ") + " }"
      case IfStatement(condition, block, None) => "if " + condition.ToString() + " " + block.ToString()
      case IfStatement(condition, block, Some(alt)) =>
        "if " + condition.ToString() + " " + block.ToString() + " else " + alt.ToString()
    }
  }

  /** The rendering of each expression of a list, in order: the strings a
      rendering loop over a list of expressions writes. `Expr` and `Stmt`
      are separate types with no common supertype here, so statements have
      their own `StmtStrings`. */
  function ExprStrings(es: seq<Expr>): (r: seq<string>)
    ensures |r| == |es|
    ensures forall i | 0 <= i < |es| :: r[i] == es[i].ToString()
    decreases es, 0
  {
    if es == [] then [] else [es[0].ToString()] + ExprStrings(es[1..])
  }

  /** The rendering of each statement of a block, in order. */
  function StmtStrings(ss: seq<Stmt>): (r: seq<string>)
    ensures |r| == |ss|
    ensures forall i | 0 <= i < |ss| :: r[i] == ss[i].ToString()
    decreases ss, 0
  {
    if ss == [] then [] else [ss[0].ToString()] + StmtStrings(ss[1..])
  }

  function Literals(ts: seq<Token>): (r: seq<string>)
    ensures |r| == |ts| && forall i | 0 <= i < |ts| :: r[i] == ts[i].literal
  {
    if ts == [] then [] else [ts[0].literal] + Literals(ts[1..])
  }

  /** The items written one after another with `sep` between neighbours,
      as the rendering loops write them into their buffer. */
  function Join(items: seq<string>, sep: string): string
  {
    if items == [] then ""
    else if |items| == 1 then items[0]
    else items[0] + sep + Join(items[1..], sep)
  }

  /** Each loop iteration after the first writes the separator and then the
      next item. */
  lemma {:induction false} JoinSnoc(items: seq<string>, x: string, sep: string)
    requires items != []
    ensures Join(items + [x], sep) == Join(items, sep) + sep + x
  {
    if |items| == 1 {
      assert (items + [x])[1..] == [x];
    } else {
      assert (items + [x])[1..] == items[1..] + [x];
      JoinSnoc(items[1..], x, sep);
    }
  }

  /** Separators appear only between items: `|items| - 1` of them. */
  lemma {:induction false} JoinLength(items: seq<string>, sep: string)
    ensures |Join(items, sep)| == TotalLength(items) + (if items == [] then 0 else (|items| - 1) * |sep|)
  {
    if |items| > 1 {
      JoinLength(items[1..], sep);
    }
  }

  function TotalLength(items: seq<string>): nat
  {
    if items == [] then 0 else |items[0]| + TotalLength(items[1..])
  }

  /** The name of an identifier is its token text. */
  function GetName(e: Expr): (name: string)
    requires e.Identifier?
    ensures name == e.GetTokenLiteral() && name == e.ToString()
  {
    e.token.literal
  }

  /** A boolean literal's value is decided by its token type alone. */
  function GetBoolValue(e: Expr): (b: bool)
    requires e.BoolLiteral?
    ensures b <==> e.GetTokenType() == True
  {
    e.token.kind == True
  }

  /** The operands of a prefix operation: exactly its one operand. */
  function GetOperands(e: Expr): (r: seq<Expr>)
    requires e.Prefix?
    ensures |r| == 1 && r[0] == e.operand && r[0] < e
  {
    [e.operand]
  }

  /** The operator type of a prefix operation is its reported token type,
      the type of its operator token. */
  function GetOperatorType(e: Expr): (t: TokenType)
    requires e.Prefix?
    ensures t == e.GetTokenType() && t == e.operator.kind
  {
    e.GetTokenType()
  }

  /** Builds an integer literal node from a token: the value is the token
      text converted as `strconv.ParseInt(text, 0, 64)` converts it, and a
      conversion error is passed on. */
  function NewIntegerLiteral(t: Token): (r: Conversion<Expr>)
    ensures r.Converted? <==> ParseInt(t.literal).Converted?
    ensures r.Failed? ==> r.err == ParseInt(t.literal).err
    ensures r.Converted? ==> r.value.IntegerLiteral? && r.value.GetTokenType() == Int
    ensures r.Converted? ==> r.value.GetTokenLiteral() == t.literal && r.value.ToString() == t.literal
    ensures r.Converted? ==> r.value.value == ParseInt(t.literal).value
  {
    match ParseInt(t.literal)
    case Converted(v) => Converted(IntegerLiteral(t, v))
    case Failed(e) => Failed(e)
  }

  /** A prefix operation prints as its operator and operand in parentheses. */
  lemma PrefixToString(op: Token, operand: Expr)
    ensures Prefix(op, operand).ToString() == "(" + op.literal + " " + operand.ToString() + ")"
    ensures Prefix(op, operand).GetTokenLiteral() == op.literal
  {
  }

  /** A call prints as its name and its arguments between parentheses,
      separated by ", ". */
  lemma CallToString(name: Token, a: Expr, b: Expr)
    ensures FunctionCall(name, [a, b]).ToString() == name.literal + "(" + a.ToString() + ", " + b.ToString() + ")"
  {
    PairStrings(a, b);
    JoinPair(a.ToString(), b.ToString(), ", ");
  }

  /** A call without arguments prints an empty pair of parentheses. */
  lemma CallWithoutArguments(name: Token)
    ensures FunctionCall(name, []).ToString() == name.literal + "()"
  {
  }

  lemma PairStrings(a: Expr, b: Expr)
    ensures ExprStrings([a, b]) == [a.ToString(), b.ToString()]
  {
    assert [a, b][1..] == [b];
  }

  /** A function literal without a body prints "{}" in its place. */
  lemma FunctionLiteralToString(x: Token, y: Token)
    ensures FunctionLiteral([], None).ToString() == "fn () {}"
    ensures FunctionLiteral([x, y], None).ToString() == "fn (" + x.literal + ", " + y.literal + ") {}"
  {
    assert Literals([x, y]) == [x.literal, y.literal];
    JoinPair(x.literal, y.literal, ", ");
  }

  lemma JoinPair(p: string, q: string, sep: string)
    ensures Join([p, q], sep) == p + sep + q
  {
    assert [p, q][1..] == [q];
  }
}
