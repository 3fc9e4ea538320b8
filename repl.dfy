/** The evaluator of the read-eval-print loop (package repl): literals
    evaluate to values, `==` compares the values of its operands, and
    every other node evaluates to none. */
module Repl {

  import opened Options
  import opened Tokens
  import opened Ast
  import opened Objects

  /** An evaluation returns a value or panics with a message. */
  datatype Eval<T> = Value(value: T) | Panic(message: string)

  /** `objIsEqual`; an argument that is nil is `None`. A nil argument
      panics. Otherwise objects of different types are unequal, and objects
      of one type compare by value, so the comparison is exactly equality
      of values. */
  function ObjIsEqual(left: Option<Object>, right: Option<Object>): (r: Eval<bool>)
    ensures r.Panic? <==> left.None? || right.None?
    ensures r.Panic? ==> r.message == "Cannot compare nil objects"
    ensures r.Value? ==> (r.value <==> left.value == right.value)
  {
    if left.None? || right.None? then Panic("Cannot compare nil objects")
    else
      var l, r := left.value, right.value;
      SameTypeSameKind(l, r);
      if l.GetType() != r.GetType() then Value(false)
      else
        match l
        case BoolObject(a) => Value(a == r.boolValue)
        case IntObject(a) => Value(a == r.intValue)
        case NoneObject => Value(true)
  }

  /** `evalExpression`. Both operands of an infix node are evaluated, left
      first, before its operator is looked at; `==` is the only operator
      with a value, and any other panics. */
  function EvalExpression(e: Expr): (r: Eval<Object>)
    ensures r.Value? && e.IntegerLiteral? ==> r.value == IntObject(e.value)
    ensures r.Value? && (e.BoolLiteral? || e.Infix?) ==> r.value.BoolObject?
    ensures r.Value? && e.BoolLiteral? ==> (r.value.boolValue <==> e.token.kind == True)
    ensures r.Value? ==> (r.value.NoneObject? <==> !(e.BoolLiteral? || e.IntegerLiteral? || e.Infix?))
  {
    match e
    case BoolLiteral(_) => Value(BoolObject(GetBoolValue(e)))
    case IntegerLiteral(_, v) => Value(IntObject(v))
    case Infix(op, l, r) =>
      var left := EvalExpression(l);
      if left.Panic? then Panic(left.message)
      else
        var right := EvalExpression(r);
        if right.Panic? then Panic(right.message)
        else if op.kind == Eq then
          match ObjIsEqual(Some(left.value), Some(right.value))
          case Value(b) => Value(BoolObject(b))
          case Panic(m) => Panic(m)
        else Panic("")
    case _ => Value(NoneObject)
  }

  /** The expressions every infix node of which is an `==`. */
  predicate EqualityOnly(e: Expr)
  {
    match e
    case Infix(op, l, r) => op.kind == Eq && EqualityOnly(l) && EqualityOnly(r)
    case _ => true
  }

  /** Evaluation panics exactly when some infix operator in the expression
      is not `==`: literals, identifiers and the other nodes never panic,
      and the nil comparison panic can never happen. */
  lemma {:induction false} EvalPanicsExactly(e: Expr)
    ensures EvalExpression(e).Panic? <==> !EqualityOnly(e)
  {
    match e
    case Infix(op, l, r) =>
      EvalPanicsExactly(l);
      EvalPanicsExactly(r);
    case _ =>
  }

  /** `a == b` evaluates to whether `a` and `b` evaluate to the same
      value. */
  lemma EqualityEvaluation(op: Token, a: Expr, b: Expr)
    requires op.kind == Eq
    requires EvalExpression(a).Value? && EvalExpression(b).Value?
    ensures EvalExpression(Infix(op, a, b)) ==
      Value(BoolObject(EvalExpression(a).value == EvalExpression(b).value))
  {
  }

  /** An expression compared with itself by `==` is true whenever it
      evaluates at all. */
  lemma SelfEquality(op: Token, a: Expr)
    requires op.kind == Eq && EqualityOnly(a)
    ensures EvalExpression(Infix(op, a, a)) == Value(BoolObject(true))
  {
    EvalPanicsExactly(a);
    EqualityEvaluation(op, a, a);
  }
}
