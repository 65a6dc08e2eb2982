/** What the JSON printer's text never holds: control characters, and exponents. */
module JsonPlainText {
  import opened DecimalText
  import opened Floats
  import opened JsonRoundTrip
  import opened JsonText
  import opened JsonValues
  import opened NumberText

  predicate NoControls(t: string) {
    forall i :: 0 <= i < |t| ==> t[i] >= ' '
  }

  lemma BothPlain(s: string, t: string)
    requires NoControls(s) && NoControls(t)
    ensures NoControls(s + t)
  {
  }

  lemma {:induction false} EscapedIsPlain(s: string)
    ensures NoControls(EscapedAll(s))
  {
    if s != [] {
      EscapedIsPlain(s[1..]);
      CharIsPlain(s[0]);
      BothPlain(Escaped(s[0]), EscapedAll(s[1..]));
    }
  }

  lemma CharIsPlain(c: char)
    ensures NoControls(Escaped(c))
  {
    if 0 <= c as int < 0x20 {
      HexIsPlain(c as int / 16);
      HexIsPlain(c as int % 16);
    }
  }

  lemma HexIsPlain(d: nat)
    requires d < 16
    ensures HexDigit(d) >= ' '
  {
  }

  lemma StrIsPlain(s: string)
    ensures NoControls(StrText(s))
  {
    EscapedIsPlain(s);
    hide EscapedAll;
  }

  lemma ScalarIsPlain(j: Json)
    requires Valid(j) && !j.Arr? && !j.Obj?
    ensures NoControls(Dump(j))
  {
    match j {
      case Int(n) =>
        hide IntText, LooksNumeric;
        IntLooksNumeric(n);
        NumericIsPlain(IntText(n));
      case Num(x) =>
        hide FloatText, IsDouble, LooksNumeric, ReadI64, ReadF64, PrintedInteger;
        if x.NegZero? || x.Fin? {
          FiniteText(x);
          NumericIsPlain(FloatText(x));
        } else {
          SpecialIsPlain(x);
        }
      case Str(s) =>
        hide StrText;
        StrIsPlain(s);
      case _ =>
    }
  }

  lemma NumericIsPlain(t: string)
    requires LooksNumeric(t)
    ensures NoControls(t)
  {
  }

  lemma SpecialIsPlain(x: F64)
    requires x.NaN? || x.Inf?
    ensures NoControls(FloatText(x))
  {
  }

  /** Every control character in a value's strings is escaped, and nothing else writes one. */
  lemma {:induction false} DumpHasNoControls(j: Json)
    requires Valid(j)
    ensures NoControls(Dump(j))
    decreases j, 0
  {
    hide NoControls;
    match j {
      case Arr(items) =>
        ItemsArePlain(items);
        Brackets("[", DumpItems(items), "]");
      case Obj(fields) =>
        FieldsArePlain(fields);
        Brackets("{", DumpFields(fields), "}");
      case _ => ScalarIsPlain(j);
    }
  }

  lemma Brackets(a: string, t: string, b: string)
    requires NoControls(t) && (a == "[" || a == "{") && (b == "]" || b == "}")
    ensures NoControls(a + (t + b))
  {
  }

  lemma Separated(s: string, t: string, c: char)
    requires NoControls(s) && NoControls(t) && c >= ' '
    ensures NoControls(s + ([c] + t))
  {
  }

  lemma {:induction false} ItemsArePlain(items: seq<Json>)
    requires forall x :: x in items ==> Valid(x)
    ensures NoControls(DumpItems(items))
    decreases items, 1
  {
    hide Dump, Valid;
    if items != [] {
      DumpHasNoControls(items[0]);
      ItemsArePlain(items[1..]);
      Separated(Dump(items[0]), DumpItems(items[1..]), ',');
    }
  }

  lemma {:induction false} FieldsArePlain(fields: seq<Field>)
    requires forall f :: f in fields ==> Valid(f.value)
    ensures NoControls(DumpFields(fields))
    decreases fields, 1
  {
    hide Dump, Valid, StrText;
    if fields != [] {
      var f := fields[0];
      StrIsPlain(f.key);
      DumpHasNoControls(f.value);
      Separated(StrText(f.key), Dump(f.value), ':');
      FieldsArePlain(fields[1..]);
      Separated(DumpField(f), DumpFields(fields[1..]), ',');
    }
  }

  // ----- floats -----

  /** Digits, and at most a point among them. */
  predicate Positioned(t: string) {
    forall i :: 0 <= i < |t| ==> IsDigit(t[i]) || t[i] == '.'
  }

  lemma PositionalIsPlain(m: nat, p: int)
    ensures Positioned(Positional(m, p))
  {
    hide Digits, Zeros;
    var s := Digits(m);
    if p < 0 && -p < |s| {
      assert Positioned(s[..|s| + p]) && Positioned(s[|s| + p..]);
    }
  }

  /** However small or large, a float is written in full, without an exponent; Python writes one from 10^16 on. */
  lemma FloatHasNoExponent(x: F64)
    requires IsDouble(x) && (x.NegZero? || x.Fin?)
    ensures Positioned(Unsigned(FloatText(x)))
  {
    hide IsDouble, PositiveText, Positioned, NumberChars, StartsWithDigit, LooksNumeric, Unsigned;
    if x.NegZero? || x.v == 0.0 {
      ZeroIsPlain();
    } else if x.v > 0.0 {
      PositiveIsPlain(x.v);
      PositiveTextChars(x.v);
      SignedText(PositiveText(x.v), false);
    } else {
      NegatedDouble(x.v);
      PositiveIsPlain(-x.v);
      PositiveTextChars(-x.v);
      SignedText(PositiveText(-x.v), true);
    }
  }

  lemma ZeroIsPlain()
    ensures Positioned(Unsigned("-0.0")) && Positioned(Unsigned("0.0"))
  {
  }

  lemma PositiveIsPlain(x: real)
    requires x > 0.0 && IsDouble(Fin(x))
    ensures Positioned(PositiveText(x))
  {
    hide IsDouble, Positional, Digits;
    if !(IsWhole(x) && x < TEN_16 as real) {
      var (m, p) := Shortest(x);
      PositionalIsPlain(m, p);
    }
  }
}
