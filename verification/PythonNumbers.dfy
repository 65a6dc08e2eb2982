/** The Rust parser reads every number Python writes: a float always as that float. */
module PythonNumbers {
  import opened DecimalText
  import opened Floats
  import opened NumberText
  import opened PythonText
  import opened Wrappers

  // ----- exponents -----

  lemma ReadTwoDigits(n: nat)
    ensures var t := TwoDigits(n); t != [] && AllDigits(t) && NatOf(t) == n
  {
    NatOfDigits(n);
    if n < 10 {
      ZeroPrefix(Zeros(1), Digits(n));
      assert Zeros(1) == "0";
    }
  }

  lemma ReadExponentText(e: int)
    ensures ReadExponent(ExponentText(e)) == Some(e)
    ensures ExponentText(e) != [] && !IsDigit(ExponentText(e)[0]) && ExponentText(e)[0] != '.'
  {
    hide TwoDigits, NatOf, AllDigits;
    var n := if e < 0 then -e else e;
    ReadTwoDigits(n);
    SignedExponent(if e < 0 then '-' else '+', TwoDigits(n));
  }

  lemma SignedExponent(sign: char, digits: string)
    requires (sign == '-' || sign == '+') && digits != [] && AllDigits(digits)
    ensures var n: int := NatOf(digits);
            ReadExponent("e" + ([sign] + digits)) == Some(if sign == '-' then -n else n)
  {
    hide NatOf, AllDigits;
    var signed := [sign] + digits;
    assert ("e" + signed)[1..] == signed && signed[1..] == digits;
  }

  /** Digits with a point among them or none, before an exponent. */
  lemma MantissaBefore(ip: string, fp: string, exponent: string)
    requires AllDigits(ip) && AllDigits(fp)
    requires exponent != [] && !IsDigit(exponent[0]) && exponent[0] != '.'
    ensures ReadMantissa(ip + exponent) == Mantissa(ip, 0, exponent)
    ensures ReadMantissa(ip + "." + fp + exponent) == Mantissa(ip + fp, |fp|, exponent)
  {
    SpanOf(ip, exponent);
    assert (ip + exponent)[..|ip|] == ip && (ip + exponent)[|ip|..] == exponent;
    var u := ip + "." + fp + exponent;
    assert u == ip + ("." + (fp + exponent));
    SpanOf(ip, "." + (fp + exponent));
    assert u[..|ip|] == ip && u[|ip| + 1..] == fp + exponent;
    SpanOf(fp, exponent);
    assert (fp + exponent)[..|fp|] == fp && (fp + exponent)[|fp|..] == exponent;
  }

  lemma ReadScientific(m: nat, p: int)
    ensures ReadsAs(Scientific(m, p), Scale10(m as real, p)) && !AllDigits(Scientific(m, p))
  {
    hide ReadMantissa, Digits, ExponentText, ReadExponent, Scale10, NatOf;
    var s := Digits(m);
    var e := p + |s| - 1;
    var t := ExponentText(e);
    NatOfDigits(m);
    ReadExponentText(e);
    assert s[..1] + s[1..] == s;
    if |s| == 1 {
      MantissaBefore(s, [], t);
      NotAllDigits(s, t);
    } else {
      MantissaBefore(s[..1], s[1..], t);
      NotAllDigits(s[..1] + "." + s[1..], t);
    }
  }

  lemma NotAllDigits(s: string, t: string)
    requires t != [] && !IsDigit(t[0])
    ensures !AllDigits(s + t)
  {
    assert (s + t)[|s|] == t[0];
  }

  /** The text of a positive float reads as its decimal, and never as an integer. */
  lemma ReadRepr(m: nat, p: int)
    ensures ReadsAs(Repr(m, p), Scale10(m as real, p)) && !AllDigits(Repr(m, p))
    ensures StartsWithDigit(Repr(m, p)) && NumberChars(Repr(m, p))
  {
    hide Digits, Positional, Scientific, ReadMantissa, ReadExponent, AllDigits, NatOf;
    var point := |Digits(m)| + p;
    if point <= -4 || point > 16 {
      ReadScientific(m, p);
      ScientificChars(m, p);
    } else if p >= 0 {
      ReadWholePositional(m, p);
      Scale10Whole(m, p);
      PositionalChars(m, p);
      ReadWholeTenth(Positional(m, p));
      AppendChars(Positional(m, p), ".0");
    } else {
      ReadPointPositional(m, p);
      PositionalChars(m, p);
    }
  }

  lemma AppendChars(s: string, t: string)
    requires StartsWithDigit(s) && NumberChars(s) && NumberChars(t)
    ensures StartsWithDigit(s + t) && NumberChars(s + t)
  {
  }

  lemma ScientificChars(m: nat, p: int)
    ensures StartsWithDigit(Scientific(m, p)) && NumberChars(Scientific(m, p))
  {
    hide Digits, TwoDigits, StartsWithDigit, NumberChars, AllDigits;
    var s := Digits(m);
    var e := p + |s| - 1;
    var n := if e < 0 then -e else e;
    ReadTwoDigits(n);
    ExponentChars(if e < 0 then "-" else "+", TwoDigits(n));
    if |s| == 1 {
      DigitChars(s);
      AppendChars(s, ExponentText(e));
    } else {
      PartDigits(s);
      PointedChars(s[..1], s[1..]);
      AppendChars(s[..1] + "." + s[1..], ExponentText(e));
    }
  }

  lemma PartDigits(s: string)
    requires AllDigits(s) && s != []
    ensures AllDigits(s[..1]) && AllDigits(s[1..])
  {
  }

  lemma ExponentChars(sign: string, digits: string)
    requires AllDigits(digits) && (sign == "-" || sign == "+")
    ensures NumberChars("e" + (sign + digits))
  {
  }

  /** A finite float is read back as itself, never as an integer. */
  lemma ReadPyFloat(x: F64)
    requires IsDouble(x) && (x.NegZero? || x.Fin?)
    ensures var t := PyFloatText(x); ReadF64(t) == Some(x) && ReadI64(t) == None && LooksNumeric(t)
  {
    hide IsDouble, ReadF64, ReadI64, LooksNumeric, Repr;
    if x.NegZero? || x.v == 0.0 {
      ReadZeroText();
    } else if x.v > 0.0 {
      var (m, p) := Shortest(x.v);
      ReadSignedRepr(x.v, m, p, false);
    } else {
      NegatedDouble(x.v);
      var (m, p) := Shortest(-x.v);
      ReadSignedRepr(-x.v, m, p, true);
    }
  }

  lemma ReadSignedRepr(a: real, m: nat, p: int, neg: bool)
    requires a > 0.0 && ReadsBack(a, m, p)
    ensures var t := if neg then "-" + Repr(m, p) else Repr(m, p);
            && ReadF64(t) == Some(Fin(if neg then -a else a)) && ReadI64(t) == None && LooksNumeric(t)
  {
    hide ReadMantissa, ReadExponent, Round, Repr, ReadF64, LooksNumeric, NumberChars;
    var u := Repr(m, p);
    var t := if neg then "-" + u else u;
    ReadRepr(m, p);
    Scale10Positive(m as real, p);
    SignedText(u, neg);
    ReadSignedI64(t);
    ReadSignedF64(t, Scale10(m as real, p), a);
  }

  /** An integer is read as it is, or beyond i64 as the double it rounds to. */
  lemma ReadPyInt(n: int)
    ensures LooksNumeric(IntText(n))
    ensures ReadI64(IntText(n)) == if InI64(n) then Some(n) else None
    ensures ReadF64(IntText(n)).Some? && (n != 0 ==> ReadF64(IntText(n)).value == Round(n as real))
  {
    hide Round, Digits, LooksNumeric, NatOf, NumberChars;
    var m := if n < 0 then -n else n;
    var s := Digits(m);
    NatOfDigits(m);
    DigitChars(s);
    SignedText(s, n < 0);
    ReadSignedI64(IntText(n));
    SpanOf(s, []);
    assert s + [] == s && s[..|s|] == s;
    assert ReadMantissa(s) == Mantissa(s, 0, []);
  }
}
