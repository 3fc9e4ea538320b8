/** Integer literal conversion as the front end uses it: Go's
    `strconv.ParseInt(text, 0, 64)` for the texts the lexer and the parser
    can produce (an optional sign followed by bytes), and the decimal
    rendering used by `%d` and `strconv.Itoa`. */
module IntLiterals {

  /** Go's `int64`. */
  newtype Int64 = x: int | -0x8000_0000_0000_0000 <= x < 0x8000_0000_0000_0000

  const Int64Max: int := 0x7fff_ffff_ffff_ffff
  const Int64MinMagnitude: int := 0x8000_0000_0000_0000
  /** The largest value the unsigned scan accepts before it reports a range error. */
  const MaxUint64: int := 0xffff_ffff_ffff_ffff

  /** The two errors of package strconv. */
  datatype NumError = ErrSyntax | ErrRange

  datatype Conversion<T> = Converted(value: T) | Failed(err: NumError)

  predicate IsDigit(c: char)
  {
    '0' <= c <= '9'
  }

  function DigitOf(c: char): nat
    requires IsDigit(c)
  {
    c as int - '0' as int
  }

  function DigitChar(d: nat): (c: char)
    requires d < 10
    ensures IsDigit(c) && DigitOf(c) == d
  {
    ('0' as int + d) as char
  }

  /** One iteration of the unsigned scan: a byte that is not a digit of the
      base is a syntax error; a value that would exceed 64 bits is a range
      error, reported at once so later bytes are not looked at. */
  function Shift(n: nat, c: char, base: nat): Conversion<nat>
  {
    if !IsDigit(c) || DigitOf(c) >= base then Failed(ErrSyntax)
    else if n * base + DigitOf(c) > MaxUint64 then Failed(ErrRange)
    else Converted(n * base + DigitOf(c))
  }

  /** The unsigned scan over the digit bytes `s`, from the value `n` read so far. */
  function Accumulate(s: string, base: nat, n: nat): Conversion<nat>
  {
    if s == [] then Converted(n)
    else match Shift(n, s[0], base)
      case Converted(m) => Accumulate(s[1..], base, m)
      case Failed(e) => Failed(e)
  }

  /** `strconv.ParseUint(s, 0, 64)`: a leading `0` selects octal, anything
      else decimal. */
  function ParseUint(s: string): Conversion<nat>
  {
    if s == [] then Failed(ErrSyntax)
    else if s[0] == '0' then Accumulate(s[1..], 8, 0)
    else Accumulate(s, 10, 0)
  }

  /** `strconv.ParseInt(s, 0, 64)`: an optional sign, then the unsigned scan,
      then the check against the `int64` range. */
  function ParseInt(s: string): (r: Conversion<Int64>)
    ensures r.Converted? ==> s != [] && (r.value < 0 ==> s[0] == '-')
  {
    if s == [] then Failed(ErrSyntax)
    else
      var neg := s[0] == '-';
      var body := if s[0] == '+' || s[0] == '-' then s[1..] else s;
      match ParseUint(body)
      case Failed(e) => Failed(e)
      case Converted(u) =>
        if !neg && u > Int64Max then Failed(ErrRange)
        else if neg && u > Int64MinMagnitude then Failed(ErrRange)
        else Converted((if neg then -(u as int) else u) as Int64)
  }

  /** The text of a conversion error (the quoting of the text is exact for
      the sign-and-digit texts that reach it). */
  function ErrorText(err: NumError, s: string): string
  {
    "strconv.ParseInt: parsing \"" + s + "\": " +
    (match err
     case ErrSyntax => "invalid syntax"
     case ErrRange => "value out of range")
  }

  /** Decimal digits of a natural number, most significant first. */
  function NatToDecimal(n: nat): (s: string)
    ensures |s| >= 1 && forall i | 0 <= i < |s| :: IsDigit(s[i])
    ensures s[0] == '0' <==> n == 0
    decreases n
  {
    if n < 10 then [DigitChar(n)] else NatToDecimal(n / 10) + [DigitChar(n % 10)]
  }

  /** `strconv.Itoa` and `fmt.Sprintf("%d", …)`: decimal, with a leading `-`
      for negative values. */
  function Decimal(i: int): string
  {
    if i < 0 then "-" + NatToDecimal(-i) else NatToDecimal(i)
  }

  /** The value of a digit string in a base, by its last digit: an
      independent reference for the scan. */
  function Value(s: string, base: nat): nat
    requires forall i | 0 <= i < |s| :: IsDigit(s[i])
  {
    if s == [] then 0 else Value(s[..|s| - 1], base) * base + DigitOf(s[|s| - 1])
  }

  predicate AllDigitsBelow(s: string, base: nat)
  {
    forall i | 0 <= i < |s| :: IsDigit(s[i]) && DigitOf(s[i]) < base
  }

  /** Scanning one more byte is one more `Shift` after the scan of the rest. */
  lemma {:induction false} AccumulateSnoc(s: string, c: char, base: nat, n: nat)
    ensures Accumulate(s + [c], base, n) ==
      match Accumulate(s, base, n)
      case Converted(m) => Shift(m, c, base)
      case Failed(e) => Failed(e)
    decreases |s|
  {
    if s == [] {
      assert s + [c] == [c];
      assert [c][1..] == [];
    } else {
      assert (s + [c])[0] == s[0];
      assert (s + [c])[1..] == s[1..] + [c];
      match Shift(n, s[0], base)
      case Converted(m) => AccumulateSnoc(s[1..], c, base, m);
      case Failed(e) =>
    }
  }

  /** The scan of a string of valid digits yields their value, or a range
      error exactly when the value needs more than 64 bits. */
  lemma {:induction false} AccumulateValue(s: string, base: nat)
    requires base >= 1 && AllDigitsBelow(s, base)
    ensures Accumulate(s, base, 0) ==
      if Value(s, base) <= MaxUint64 then Converted(Value(s, base)) else Failed(ErrRange)
    decreases |s|
  {
    if s != [] {
      var p, c := s[..|s| - 1], s[|s| - 1];
      assert s == p + [c];
      assert AllDigitsBelow(p, base) by {
        forall i | 0 <= i < |p| ensures IsDigit(p[i]) && DigitOf(p[i]) < base {
          assert p[i] == s[i];
        }
      }
      AccumulateValue(p, base);
      AccumulateSnoc(p, c, base, 0);
      var vp := Value(p, base);
      assert Value(s, base) == vp * base + DigitOf(c);
      if vp > MaxUint64 {
        MulMonotone(vp, base);
      } else {
        assert Accumulate(s, base, 0) == Shift(vp, c, base);
      }
    }
  }

  lemma MulMonotone(a: nat, b: nat)
    requires b >= 1
    ensures a * b >= a
  {
  }

  /** Digits appended one by one give the value by the reference definition. */
  lemma {:induction false} ValueOfDecimal(n: nat)
    ensures AllDigitsBelow(NatToDecimal(n), 10)
    ensures Value(NatToDecimal(n), 10) == n
    decreases n
  {
    var s := NatToDecimal(n);
    if n >= 10 {
      ValueOfDecimal(n / 10);
      assert s[..|s| - 1] == NatToDecimal(n / 10);
    }
  }

  /** Rendering an `int64` in decimal and converting the text back gives
      the same value, for every `int64`, the most negative one included. */
  lemma FormatRoundTrip(v: Int64)
    ensures ParseInt(Decimal(v as int)) == Converted(v)
  {
    var m: nat := if v < 0 then -(v as int) else v as int;
    var digits := NatToDecimal(m);
    ValueOfDecimal(m);
    if m == 0 {
      assert Decimal(v as int) == "0";
    } else {
      AccumulateValue(digits, 10);
      assert ParseUint(digits) == Converted(m);
      if v < 0 {
        assert Decimal(v as int)[1..] == digits;
      }
    }
  }

  /** A digit string whose value is 0 has only zero digits. */
  lemma {:induction false} ZeroValue(s: string)
    requires AllDigitsBelow(s, 10) && s != [] && Value(s, 10) == 0
    ensures s[0] == '0'
    decreases |s|
  {
    if |s| > 1 {
      var p := s[..|s| - 1];
      assert AllDigitsBelow(p, 10) by {
        forall i | 0 <= i < |p| ensures IsDigit(p[i]) && DigitOf(p[i]) < 10 {
          assert p[i] == s[i];
        }
      }
      ZeroValue(p);
      assert p[0] == s[0];
    }
  }

  /** A canonical decimal text (no leading zero) is the rendering of its
      own value. */
  lemma {:induction false} DecimalOfValue(s: string)
    requires s != [] && AllDigitsBelow(s, 10) && (s[0] == '0' ==> |s| == 1)
    ensures NatToDecimal(Value(s, 10)) == s
    decreases |s|
  {
    var c := s[|s| - 1];
    assert DigitChar(DigitOf(c)) == c;
    if |s| > 1 {
      var p := s[..|s| - 1];
      assert AllDigitsBelow(p, 10) by {
        forall i | 0 <= i < |p| ensures IsDigit(p[i]) && DigitOf(p[i]) < 10 {
          assert p[i] == s[i];
        }
      }
      assert p[0] == s[0];
      DecimalOfValue(p);
      if Value(p, 10) == 0 {
        ZeroValue(p);
      }
      var n := Value(s, 10);
      assert n / 10 == Value(p, 10) && n % 10 == DigitOf(c);
      assert s == p + [c];
    }
  }

  /** An integer literal in canonical form keeps a text equal to the
      decimal rendering of the value it converts to. */
  lemma CanonicalLiteral(s: string, neg: bool)
    requires s != [] && AllDigitsBelow(s, 10) && (s[0] == '0' ==> |s| == 1)
    requires neg ==> s[0] != '0'
    requires ParseInt(if neg then "-" + s else s).Converted?
    ensures Decimal(ParseInt(if neg then "-" + s else s).value as int) == if neg then "-" + s else s
  {
    if neg {
      CanonicalNegative(s);
    } else {
      CanonicalUnsigned(s);
    }
  }

  lemma CanonicalUnsigned(s: string)
    requires s != [] && AllDigitsBelow(s, 10) && (s[0] == '0' ==> |s| == 1)
    requires ParseInt(s).Converted?
    ensures Decimal(ParseInt(s).value as int) == s
  {
    DecimalOfValue(s);
    DecimalLiteral(s);
  }

  lemma CanonicalNegative(s: string)
    requires s != [] && AllDigitsBelow(s, 10) && s[0] != '0'
    requires ParseInt("-" + s).Converted?
    ensures Decimal(ParseInt("-" + s).value as int) == "-" + s
  {
    DecimalOfValue(s);
    NegativeDecimalLiteral(s);
    if Value(s, 10) == 0 {
      ZeroValue(s);
    }
  }

  /** A literal with no sign and no leading zero is read in decimal. */
  lemma DecimalLiteral(s: string)
    requires s != [] && AllDigitsBelow(s, 10) && (s[0] == '0' ==> |s| == 1)
    ensures ParseInt(s) ==
      if Value(s, 10) <= Int64Max then Converted(Value(s, 10) as Int64) else Failed(ErrRange)
  {
    if s[0] == '0' {
      assert s == "0";
    } else {
      AccumulateValue(s, 10);
    }
  }

  /** A leading `0` makes the literal octal: 8 and 9 are then syntax errors. */
  lemma OctalLiterals()
    ensures ParseInt("010") == Converted(8)
    ensures ParseInt("-017") == Converted(-15)
    ensures ParseInt("08") == Failed(ErrSyntax)
    ensures ParseInt("0") == Converted(0)
  {
    assert Accumulate("10", 8, 0) == Converted(8) by {
      assert "10"[1..] == "0";
      assert "0"[1..] == [];
    }
    assert Accumulate("17", 8, 0) == Converted(15) by {
      assert "17"[1..] == "7";
      assert "7"[1..] == [];
    }
  }

  /** A minus sign before a decimal literal: accepted down to the most
      negative `int64`, a range error below it. */
  lemma NegativeDecimalLiteral(s: string)
    requires s != [] && AllDigitsBelow(s, 10) && s[0] != '0'
    ensures ParseInt("-" + s) ==
      if Value(s, 10) <= Int64MinMagnitude then Converted(-(Value(s, 10) as int) as Int64)
      else Failed(ErrRange)
  {
    assert ("-" + s)[1..] == s;
    AccumulateValue(s, 10);
  }

  /** Texts the parser can produce by folding minus signs: one sign is
      accepted, two are a syntax error. */
  lemma SignedLiterals()
    ensures ParseInt("-5") == Converted(-5)
    ensures ParseInt("--5") == Failed(ErrSyntax)
    ensures ParseInt("-") == Failed(ErrSyntax)
  {
    assert "-5"[1..] == "5";
    assert "5"[1..] == [];
  }
}
