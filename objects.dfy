/** Runtime values (package object): none, a boolean or a 64-bit integer,
    each with its type tag and its printed form. */
module Objects {

  import opened IntLiterals

  /** The type tags are strings in the source. */
  type ObjectType = string

  const NoneType: ObjectType := "NONE"
  const BoolType: ObjectType := "BOOL"
  const IntType: ObjectType := "INT"

  datatype Object = NoneObject | BoolObject(boolValue: bool) | IntObject(intValue: Int64)
  {
    function GetType(): ObjectType
    {
      match this
      case NoneObject => NoneType
      case BoolObject(_) => BoolType
      case IntObject(_) => IntType
    }

    /** The printed form: `None`, `true`/`false` as `%t` prints them, and
        the integer in decimal as `%d` prints it. */
    function Inspect(): string
    {
      match this
      case NoneObject => "None"
      case BoolObject(b) => if b then "true" else "false"
      case IntObject(v) => Decimal(v as int)
    }
  }

  /** The three tags are distinct: two objects have the same tag exactly
      when they are the same kind of value. */
  lemma SameTypeSameKind(a: Object, b: Object)
    ensures a.GetType() == b.GetType() <==>
      (a.NoneObject? && b.NoneObject?) || (a.BoolObject? && b.BoolObject?) || (a.IntObject? && b.IntObject?)
  {
    assert NoneType[0] == 'N' && BoolType[0] == 'B' && IntType[0] == 'I';
  }

  /** The printed form of a value can be read back: an integer's text
      converts back to the integer, and a boolean prints as `true` exactly
      when it is true. */
  lemma InspectRoundTrip(o: Object)
    ensures o.IntObject? ==> ParseInt(o.Inspect()) == Converted(o.intValue)
    ensures o.BoolObject? ==> (o.Inspect() == "true" <==> o.boolValue)
  {
    if o.IntObject? {
      FormatRoundTrip(o.intValue);
    }
  }

  /** Two values of the same type that print the same are the same value. */
  lemma InspectInjective(a: Object, b: Object)
    requires a.GetType() == b.GetType() && a.Inspect() == b.Inspect()
    ensures a == b
  {
    SameTypeSameKind(a, b);
    InspectRoundTrip(a);
    InspectRoundTrip(b);
  }
}
