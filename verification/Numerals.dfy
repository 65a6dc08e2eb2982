/** Which texts are read as numbers, and as which: a sign, digits with at most one point, and an exponent. */
module Numerals {
  import opened DecimalText
  import opened Floats
  import opened NumberText
  import opened Wrappers

  predicate IsSign(s: string) {
    s == "" || s == "+" || s == "-"
  }

  datatype Exponent = NoExponent | Exponent(letter: char, sign: string, digits: string) {
    predicate Ok() {
      Exponent? ==> (letter == 'e' || letter == 'E') && IsSign(sign) && digits != "" && AllDigits(digits)
    }

    function Text(): string {
      if NoExponent? then "" else [letter] + (sign + digits)
    }

    function Power(): int
      requires Ok()
    {
      if NoExponent? then 0 else if sign == "-" then -(NatOf(digits) as int) else NatOf(digits)
    }
  }

  /** The fraction is missing when there is no point. */
  datatype Decimal = Decimal(sign: string, whole: string, fraction: Option<string>, exponent: Exponent) {
    function Places(): string {
      if fraction.Some? then fraction.value else ""
    }

    predicate Ok() {
      && IsSign(sign) && AllDigits(whole) && AllDigits(Places()) && exponent.Ok()
      && (whole != "" || Places() != "")
    }

    function Text(): string {
      sign + (whole + ((if fraction.Some? then "." + fraction.value else "") + exponent.Text()))
    }

    /** The double nearest to the decimal; minus zero keeps its sign. */
    function Reads(): F64
      requires Ok()
    {
      AppendedDigits(whole, Places());
      RoundSigned(sign == "-", NatOf(whole + Places()), exponent.Power() - |Places()|)
    }
  }

  lemma AppendedDigits(a: string, b: string)
    requires AllDigits(a) && AllDigits(b)
    ensures AllDigits(a + b)
  {
  }

  lemma SignSplits(t: string) returns (sign: string)
    ensures IsSign(sign) && t == sign + Unsigned(t) && (sign == "-" <==> IsNegative(t))
    ensures sign == "" ==> Unsigned(t) == t
  {
    sign := if t != [] && (t[0] == '+' || t[0] == '-') then t[..1] else "";
  }

  lemma SignJoins(sign: string, u: string)
    requires IsSign(sign) && (u == [] || (u[0] != '+' && u[0] != '-'))
    ensures Unsigned(sign + u) == u && (IsNegative(sign + u) <==> sign == "-")
  {
    if sign == "" {
      assert sign + u == u;
    } else {
      assert (sign + u)[1..] == u;
    }
  }

  lemma ExponentSound(t: string) returns (e: Exponent)
    requires ReadExponent(t).Some?
    ensures e.Ok() && e.Text() == t && ReadExponent(t) == Some(e.Power())
  {
    hide NatOf, AllDigits;
    if t == [] {
      e := NoExponent;
    } else {
      var sign := SignSplits(t[1..]);
      e := Exponent(t[0], sign, Unsigned(t[1..]));
      assert t == [t[0]] + t[1..];
    }
  }

  lemma ExponentComplete(e: Exponent)
    requires e.Ok()
    ensures ReadExponent(e.Text()) == Some(e.Power())
    ensures e.Text() != [] ==> !IsDigit(e.Text()[0]) && e.Text()[0] != '.'
  {
    hide NatOf;
    if e.Exponent? {
      assert IsDigit(e.digits[0]);
      SignJoins(e.sign, e.digits);
      assert e.Text()[1..] == e.sign + e.digits;
    }
  }

  /** The mantissa of a decimal's text, without its sign. */
  lemma MantissaComplete(whole: string, fraction: Option<string>, exponent: string)
    requires AllDigits(whole) && (fraction.Some? ==> AllDigits(fraction.value))
    requires exponent != [] ==> !IsDigit(exponent[0]) && exponent[0] != '.'
    ensures var places := if fraction.Some? then fraction.value else "";
            ReadMantissa(whole + ((if fraction.Some? then "." + fraction.value else "") + exponent)) ==
            Mantissa(whole + places, |places|, exponent)
  {
    if fraction.Some? {
      var f := fraction.value;
      var u := whole + ("." + f + exponent);
      assert "." + f + exponent == "." + (f + exponent);
      SpanOf(whole, "." + (f + exponent));
      assert u[..|whole|] == whole && u[|whole| + 1..] == f + exponent;
      SpanOf(f, exponent);
      assert (f + exponent)[..|f|] == f && (f + exponent)[|f|..] == exponent;
    } else {
      assert "" + exponent == exponent && whole + "" == whole;
      SpanOf(whole, exponent);
      assert (whole + exponent)[..|whole|] == whole && (whole + exponent)[|whole|..] == exponent;
    }
  }

  lemma MantissaSound(u: string) returns (whole: string, fraction: Option<string>)
    ensures AllDigits(whole) && (fraction.Some? ==> AllDigits(fraction.value))
    ensures var m := ReadMantissa(u);
            var places := if fraction.Some? then fraction.value else "";
            && u == whole + ((if fraction.Some? then "." + fraction.value else "") + m.exponent)
            && m.digits == whole + places && m.places == |places|
  {
    hide DigitSpan, AllDigits;
    var a := DigitSpan(u);
    whole := u[..a];
    if a < |u| && u[a] == '.' {
      var rest := u[a + 1..];
      var b := DigitSpan(rest);
      fraction := Some(rest[..b]);
      Cut(u, a, b);
    } else {
      fraction := None;
      assert u == whole + u[a..] && whole + "" == whole && "" + u[a..] == u[a..];
    }
  }

  lemma Cut(u: string, a: nat, b: nat)
    requires a < |u| && u[a] == '.' && b <= |u| - a - 1
    ensures var rest := u[a + 1..]; u == u[..a] + ("." + rest[..b] + rest[b..])
  {
  }

  lemma DecimalSound(t: string) returns (d: Decimal)
    requires ReadF64(t).Some?
    ensures d.Ok() && d.Text() == t && ReadF64(t) == Some(d.Reads())
  {
    hide ReadMantissa, ReadExponent, NatOf, RoundSigned, Exponent.Text, Exponent.Ok, Exponent.Power;
    var sign := SignSplits(t);
    var whole, fraction := MantissaSound(Unsigned(t));
    var e := ExponentSound(ReadMantissa(Unsigned(t)).exponent);
    d := Decimal(sign, whole, fraction, e);
  }

  lemma DecimalComplete(d: Decimal)
    requires d.Ok()
    ensures ReadF64(d.Text()) == Some(d.Reads())
  {
    hide ReadMantissa, ReadExponent, NatOf, RoundSigned, Exponent.Text, Exponent.Ok, Exponent.Power;
    ExponentComplete(d.exponent);
    MantissaComplete(d.whole, d.fraction, d.exponent.Text());
    var u := d.whole + ((if d.fraction.Some? then "." + d.fraction.value else "") + d.exponent.Text());
    DecimalFirst(d, u);
    SignJoins(d.sign, u);
  }

  lemma DecimalFirst(d: Decimal, u: string)
    requires d.Ok() && u == d.whole + ((if d.fraction.Some? then "." + d.fraction.value else "") + d.exponent.Text())
    ensures u != [] && (IsDigit(u[0]) || u[0] == '.')
  {
    hide Exponent.Text, Exponent.Ok;
    if d.whole != [] {
      assert u[0] == d.whole[0];
    }
  }

  /** A text is read as a float exactly when it is a decimal's, and then as the double nearest to that decimal. */
  lemma ReadsExactlyTheDecimals(t: string, x: F64)
    ensures ReadF64(t) == Some(x) <==> exists d: Decimal :: d.Ok() && d.Text() == t && d.Reads() == x
  {
    hide ReadF64, Decimal.Ok, Decimal.Text, Decimal.Reads;
    if ReadF64(t) == Some(x) {
      var d := DecimalSound(t);
    }
    if d: Decimal :| d.Ok() && d.Text() == t && d.Reads() == x {
      DecimalComplete(d);
    }
  }

  /** And as an i64 when it is digits with at most a sign, in range. */
  lemma ReadsExactlyTheIntegers(t: string, n: int)
    ensures ReadI64(t) == Some(n) <==>
              exists sign, digits ::
                && IsSign(sign) && digits != "" && AllDigits(digits) && t == sign + digits
                && n == (if sign == "-" then -(NatOf(digits) as int) else NatOf(digits))
                && -0x8000_0000_0000_0000 <= n < 0x8000_0000_0000_0000
  {
    hide NatOf;
    if ReadI64(t) == Some(n) {
      var sign := SignSplits(t);
      assert t == sign + Unsigned(t);
    }
    if sign, digits :| && IsSign(sign) && digits != "" && AllDigits(digits) && t == sign + digits
                       && n == (if sign == "-" then -(NatOf(digits) as int) else NatOf(digits))
                       && -0x8000_0000_0000_0000 <= n < 0x8000_0000_0000_0000 {
      assert IsDigit(digits[0]);
      SignJoins(sign, digits);
    }
  }
}
