/**
 The parser undoes the printer, exactly as far as the nesting cap and the printed floats allow,
 and canonical keys are exact for the hand-written equality.
 */
module JsonRoundTrip {
  import opened DecimalText
  import opened Floats
  import opened JsonParsing
  import opened JsonText
  import opened JsonValues
  import opened KeptDigits
  import opened NumberText
  import opened Wrappers

  /** The value the parser makes of `j`'s text: a float printed as an i64 comes back as that integer. */
  ghost function Reparsed(j: Json): Json
    requires Valid(j)
    decreases j, 0
  {
    match j
    case Num(x) => if PrintedInteger(x).Some? then Int(PrintedInteger(x).value) else j
    case Arr(items) => Arr(ReparsedItems(items))
    case Obj(fields) => Obj(ReparsedFields(fields))
    case _ => j
  }

  ghost function ReparsedItems(items: seq<Json>): (r: seq<Json>)
    requires forall x :: x in items ==> Valid(x)
    ensures |r| == |items| && forall i :: 0 <= i < |items| ==> r[i] == Reparsed(items[i])
  {
    if items == [] then [] else [Reparsed(items[0])] + ReparsedItems(items[1..])
  }

  ghost function ReparsedFields(fields: seq<Field>): (r: seq<Field>)
    requires forall f :: f in fields ==> Valid(f.value)
    ensures |r| == |fields|
    ensures forall i :: 0 <= i < |fields| ==> r[i] == Field(fields[i].key, Reparsed(fields[i].value))
  {
    if fields == [] then []
    else [Field(fields[0].key, Reparsed(fields[0].value))] + ReparsedFields(fields[1..])
  }

  // ----- strings -----

  lemma {:induction false} StringRoundTrip(s: string, rest: string)
    ensures StringBody(EscapedAll(s) + ("\"" + rest)) == Done(s, rest)
  {
    if s == [] {
      StringEnd(rest);
      assert EscapedAll(s) + ("\"" + rest) == "\"" + rest;
    } else {
      hide StringBody, Escaped;
      var tail := EscapedAll(s[1..]) + ("\"" + rest);
      StringRoundTrip(s[1..], rest);
      CharRoundTrip(s[0], tail);
      EscapedFirst(s, "\"" + rest);
      assert [s[0]] + s[1..] == s;
    }
  }

  lemma EscapedFirst(s: string, end: string)
    requires s != []
    ensures EscapedAll(s) + end == Escaped(s[0]) + (EscapedAll(s[1..]) + end)
  {
    hide Escaped;
  }

  lemma StringEnd(rest: string)
    ensures StringBody("\"" + rest) == Done([], rest)
  {
    assert ("\"" + rest)[1..] == rest;
  }

  lemma CharRoundTrip(c: char, tail: string)
    ensures StringBody(Escaped(c) + tail) == Prepend([c], StringBody(tail))
  {
    var e := Escaped(c);
    if e[0] == '\\' {
      hide StringBody;
      EscapeStart(e[1..], tail);
      assert e == "\\" + e[1..];
      EscapeRoundTrip(c, tail);
    } else {
      assert (e + tail)[1..] == tail;
    }
  }

  lemma EscapeStart(e: string, tail: string)
    ensures StringBody("\\" + e + tail)
         == match Escape(e + tail) {
              case Failed(x) => Failed(x)
              case Done(c, rest) => Prepend([c], StringBody(rest))
            }
  {
    hide Escape;
    assert ("\\" + e + tail)[1..] == e + tail;
  }

  lemma EscapeRoundTrip(c: char, tail: string)
    requires Escaped(c)[0] == '\\'
    ensures Escape(Escaped(c)[1..] + tail) == Done(c, tail)
  {
    hide UnicodeEscape;
    var e := Escaped(c)[1..];
    if |e| == 1 {
      assert (e + tail)[1..] == tail;
    } else {
      var x, y := HexDigit(c as int / 16), HexDigit(c as int % 16);
      assert e == ['u', '0', '0', x, y];
      assert e[1..] == ['0', '0', x, y];
      assert (e + tail)[1..] == e[1..] + tail;
      ControlRoundTrip(c as int, tail);
    }
  }

  lemma HexDigitValue(d: nat)
    requires d < 16
    ensures HexValue(HexDigit(d)) == Some(d)
  {
  }

  lemma HexAppend(s: string, d: nat)
    requires d < 16 && HexNumber(s).Some?
    ensures HexNumber(s + [HexDigit(d)]) == Some(HexNumber(s).value * 16 + d)
  {
    HexDigitValue(d);
    assert (s + [HexDigit(d)])[..|s|] == s;
  }

  lemma ControlRoundTrip(n: nat, tail: string)
    requires n < 0x20
    ensures UnicodeEscape(['0', '0', HexDigit(n / 16), HexDigit(n % 16)] + tail) == Done(n as char, tail)
  {
    hide HexNumber;
    var h := ['0', '0', HexDigit(n / 16), HexDigit(n % 16)];
    assert HexNumber([]) == Some(0) by {
      EmptyHex();
    }
    HexAppend([], 0);
    assert [] + [HexDigit(0)] == [HexDigit(0)];
    HexAppend([HexDigit(0)], 0);
    HexAppend([HexDigit(0)] + [HexDigit(0)], n / 16);
    HexAppend([HexDigit(0)] + [HexDigit(0)] + [HexDigit(n / 16)], n % 16);
    assert h == [HexDigit(0)] + [HexDigit(0)] + [HexDigit(n / 16)] + [HexDigit(n % 16)];
    assert (h + tail)[..4] == h && (h + tail)[4..] == tail;
  }

  lemma EmptyHex()
    ensures HexNumber([]) == Some(0)
  {
  }

  // ----- numbers -----

  predicate Delimited(rest: string) {
    rest == [] || !IsNumberChar(rest[0])
  }

  lemma {:induction false} SpanOfNumber(t: string, rest: string)
    requires NumberChars(t) && Delimited(rest)
    ensures NumberSpan(t + rest) == |t|
  {
    if t == [] {
      assert t + rest == rest;
    } else {
      assert (t + rest)[1..] == t[1..] + rest;
      SpanOfNumber(t[1..], rest);
    }
  }

  lemma NumberRoundTrip(t: string, rest: string, depth: nat, cap: nat)
    requires LooksNumeric(t) && Delimited(rest) && (ReadI64(t).Some? || ReadF64(t).Some?)
    requires depth <= cap
    ensures ParseValue(t + rest, depth, cap)
         == Done(if ReadI64(t).Some? then Int(ReadI64(t).value) else Num(ReadF64(t).value), rest)
  {
    hide ReadI64, ReadF64;
    SpanOfNumber(t, rest);
    assert (t + rest)[..|t|] == t && (t + rest)[|t|..] == rest;
    NumberStart(t, rest, depth, cap);
  }

  lemma NumberStart(t: string, rest: string, depth: nat, cap: nat)
    requires LooksNumeric(t) && depth <= cap
    ensures ParseValue(t + rest, depth, cap) == Number(t + rest)
  {
    hide Number, ReadI64, ReadF64, NumberSpan;
    var s := t + rest;
    if IsNegative(t) {
      assert t[1] == t[1..][0];
    }
    NumericStart(s, depth, cap);
  }

  lemma NumericStart(s: string, depth: nat, cap: nat)
    requires |s| > 0 && depth <= cap && (IsDigit(s[0]) || (s[0] == '-' && |s| > 1 && IsDigit(s[1])))
    ensures ParseValue(s, depth, cap) == Number(s)
  {
    hide Number;
    assert SkipWs(s) == s;
    if s[0] == '-' {
      assert s[1] != "-Infinity"[1];
    }
  }

  lemma IntLooksNumeric(n: int)
    ensures LooksNumeric(IntText(n))
  {
    var s := Digits(if n < 0 then -n else n);
    DigitChars(s);
    SignedText(s, n < 0);
  }

  // ----- values -----

  /** The nesting cap decides whether `v` comes back. */
  function Capped(v: Json, rest: string, depth: nat, cap: nat): Parsed<Json> {
    if depth <= cap then Done(v, rest) else Failed(TooDeep)
  }

  lemma {:induction false} ValueRoundTrip(j: Json, rest: string, depth: nat, cap: nat)
    requires Valid(j) && Delimited(rest)
    ensures ParseValue(Dump(j) + rest, depth, cap) == Capped(Reparsed(j), rest, depth + Depth(j), cap)
    decreases j, 0
  {
    hide ParseValue;
    if depth > cap {
      PastCap(Dump(j) + rest, depth, cap);
    } else if j.Arr? {
      ArrayRoundTrip(j.items, rest, depth, cap);
    } else if j.Obj? {
      ObjectRoundTrip(j.fields, rest, depth, cap);
    } else {
      ScalarRoundTrip(j, rest, depth, cap);
    }
  }

  lemma PastCap(text: string, depth: nat, cap: nat)
    requires depth > cap
    ensures ParseValue(text, depth, cap) == Failed(TooDeep)
  {
  }

  lemma ScalarRoundTrip(j: Json, rest: string, depth: nat, cap: nat)
    requires Valid(j) && Delimited(rest) && depth <= cap && !j.Arr? && !j.Obj?
    ensures ParseValue(Dump(j) + rest, depth, cap) == Done(Reparsed(j), rest)
  {
    hide ParseValue, EscapedAll, ReadI64, ReadF64, FloatText, IntText, StringBody;
    match j {
      case Int(n) =>
        IntLooksNumeric(n);
        ReadIntText(n);
        NumberRoundTrip(IntText(n), rest, depth, cap);
      case Num(x) => FloatRoundTrip(x, rest, depth, cap);
      case Str(s) =>
        StringRoundTrip(s, rest);
        assert Dump(j) + rest == "\"" + (EscapedAll(s) + ("\"" + rest));
        StringStart(EscapedAll(s) + ("\"" + rest), depth, cap);
      case _ => LiteralRoundTrip(j, rest, depth, cap);
    }
  }

  lemma LiteralRoundTrip(j: Json, rest: string, depth: nat, cap: nat)
    requires depth <= cap && (j.Null? || j.Bool? || j == Num(NaN) || (j.Num? && j.x.Inf?))
    ensures ParseValue(Dump(j) + rest, depth, cap) == Done(j, rest)
  {
    var s := Dump(j) + rest;
    assert SkipWs(s) == s && s[|Dump(j)|..] == rest && Dump(j) <= s;
  }

  lemma StringStart(inner: string, depth: nat, cap: nat)
    requires depth <= cap && StringBody(inner).Done?
    ensures ParseValue("\"" + inner, depth, cap) == Done(Str(StringBody(inner).value), StringBody(inner).rest)
  {
    hide StringBody;
    var s := "\"" + inner;
    assert s[1..] == inner && SkipWs(s) == s;
  }

  lemma ArrayStart(inner: string, depth: nat, cap: nat)
    requires depth <= cap && inner != [] && !IsWs(inner[0])
    ensures ParseValue("[" + inner, depth, cap)
         == if inner[0] == ']' then Done(Arr([]), inner[1..]) else ParseItems(inner, depth, cap, [])
  {
    hide ParseItems;
    var s := "[" + inner;
    assert s[1..] == inner && SkipWs(s) == s && SkipWs(inner) == inner;
  }

  lemma ObjectStart(inner: string, depth: nat, cap: nat)
    requires depth <= cap && inner != [] && !IsWs(inner[0])
    ensures ParseValue("{" + inner, depth, cap)
         == if inner[0] == '}' then Done(Obj([]), inner[1..]) else ParseFields(inner, depth, cap, [])
  {
    hide ParseFields;
    var s := "{" + inner;
    assert s[1..] == inner && SkipWs(s) == s && SkipWs(inner) == inner;
  }

  lemma {:induction false} ArrayRoundTrip(items: seq<Json>, rest: string, depth: nat, cap: nat)
    requires Valid(Arr(items)) && depth <= cap
    ensures ParseValue(Dump(Arr(items)) + rest, depth, cap)
         == Capped(Reparsed(Arr(items)), rest, depth + Depth(Arr(items)), cap)
    decreases items, 2
  {
    hide ParseValue, ParseItems, DumpItems, ItemsDepth, ReparsedItems, KeysAscend;
    var inner := DumpItems(items) + ("]" + rest);
    Assoc("[", DumpItems(items) + "]", rest);
    Assoc(DumpItems(items), "]", rest);
    if items == [] {
      EmptyText();
      assert inner == "]" + rest && inner[1..] == rest;
      ArrayStart(inner, depth, cap);
    } else {
      DumpStart(items[0]);
      ItemText(items, "]" + rest);
      assert inner[0] == Dump(items[0])[0];
      ArrayStart(inner, depth, cap);
      ItemsRoundTrip(items, rest, depth, cap, []);
      assert [] + ReparsedItems(items) == ReparsedItems(items);
    }
  }

  lemma {:induction false} ObjectRoundTrip(fields: seq<Field>, rest: string, depth: nat, cap: nat)
    requires Valid(Obj(fields)) && depth <= cap
    ensures ParseValue(Dump(Obj(fields)) + rest, depth, cap)
         == Capped(Reparsed(Obj(fields)), rest, depth + Depth(Obj(fields)), cap)
    decreases fields, 2
  {
    hide ParseValue, ParseFields, DumpFields, DumpField, StringBody, FieldsDepth, ReparsedFields, KeysAscend;
    var inner := DumpFields(fields) + ("}" + rest);
    Assoc("{", DumpFields(fields) + "}", rest);
    Assoc(DumpFields(fields), "}", rest);
    if fields == [] {
      EmptyText();
      assert inner == "}" + rest && inner[1..] == rest;
      ObjectStart(inner, depth, cap);
    } else {
      FieldsText(fields, "}" + rest);
      FieldStart(fields[0]);
      ObjectStart(inner, depth, cap);
      assert [] + fields == fields;
      FieldsRoundTrip(fields, rest, depth, cap, []);
      assert [] + ReparsedFields(fields) == ReparsedFields(fields);
    }
  }

  lemma FloatRoundTrip(x: F64, rest: string, depth: nat, cap: nat)
    requires IsDouble(x) && Delimited(rest) && depth <= cap
    ensures ParseValue(FloatText(x) + rest, depth, cap) == Done(Reparsed(Num(x)), rest)
  {
    hide ParseValue, ReadI64, ReadF64, PrintedInteger, IsDouble, LooksNumeric, PositiveText;
    if x.NegZero? || x.Fin? {
      FiniteText(x);
      NumberRoundTrip(FloatText(x), rest, depth, cap);
    } else {
      LiteralRoundTrip(Num(x), rest, depth, cap);
      SpecialReparsed(x);
    }
  }

  lemma SpecialReparsed(x: F64)
    requires x.NaN? || x.Inf?
    ensures Reparsed(Num(x)) == Num(x)
  {
  }

  lemma FiniteText(x: F64)
    requires IsDouble(x) && (x.NegZero? || x.Fin?)
    ensures var t := FloatText(x);
            ReadF64(t) == Some(x) && ReadI64(t) == PrintedInteger(x) && LooksNumeric(t)
  {
    hide FloatText, ReadI64, ReadF64, PrintedInteger, LooksNumeric, Round;
    ReadFloatText(x);
  }

  /** A value's text starts with neither white space nor a closing bracket. */
  lemma DumpStart(j: Json)
    requires Valid(j)
    ensures Dump(j) != [] && !IsWs(Dump(j)[0]) && Dump(j)[0] != ']'
  {
    match j {
      case Int(n) =>
        hide IntText;
        IntLooksNumeric(n);
        NumericFirst(IntText(n));
      case Num(x) =>
        hide FloatText, IsDouble, LooksNumeric;
        if x.NegZero? || x.Fin? {
          FiniteText(x);
          NumericFirst(FloatText(x));
        } else {
          SpecialFirst(x);
        }
      case _ =>
    }
  }

  lemma SpecialFirst(x: F64)
    requires x.NaN? || x.Inf?
    ensures FloatText(x) != [] && !IsWs(FloatText(x)[0]) && FloatText(x)[0] != ']'
  {
  }

  lemma NumericFirst(t: string)
    requires LooksNumeric(t)
    ensures t != [] && !IsWs(t[0]) && t[0] != ']'
  {
  }

  /** One step of the loop over an array's elements. */
  lemma ItemStep(text: string, v: Json, rest: string, depth: nat, cap: nat, before: seq<Json>)
    requires ParseValue(text, depth + 1, cap) == Done(v, rest)
    requires StartsWith(rest, ',') || StartsWith(rest, ']')
    ensures ParseItems(text, depth, cap, before)
         == if rest[0] == ',' then ParseItems(rest[1..], depth, cap, before + [v])
            else Done(Arr(before + [v]), rest[1..])
  {
    hide ParseValue;
    assert SkipWs(rest) == rest;
  }

  lemma ItemFails(text: string, e: ParseError, depth: nat, cap: nat, before: seq<Json>)
    requires ParseValue(text, depth + 1, cap) == Failed(e)
    ensures ParseItems(text, depth, cap, before) == Failed(e)
  {
    hide ParseValue;
  }

  lemma {:induction false} ItemsRoundTrip(items: seq<Json>, rest: string, depth: nat, cap: nat, before: seq<Json>)
    requires items != [] && depth <= cap && forall x :: x in items ==> Valid(x)
    ensures ParseItems(DumpItems(items) + ("]" + rest), depth, cap, before)
         == Capped(Arr(before + ReparsedItems(items)), rest, depth + 1 + ItemsDepth(items), cap)
    decreases items, 1
  {
    hide ParseValue, ParseItems, Dump, DumpItems, Depth, Reparsed, ReparsedItems;
    var tail := if |items| > 1 then "," + (DumpItems(items[1..]) + ("]" + rest)) else "]" + rest;
    var text := DumpItems(items) + ("]" + rest);
    ItemText(items, "]" + rest);
    ValueRoundTrip(items[0], tail, depth + 1, cap);
    var v := Reparsed(items[0]);
    FirstReparsed(items, before);
    if depth + 1 + Depth(items[0]) > cap {
      ItemFails(text, TooDeep, depth, cap, before);
    } else {
      ItemStep(text, v, tail, depth, cap, before);
      if |items| > 1 {
        assert tail[1..] == DumpItems(items[1..]) + ("]" + rest);
        ItemsRoundTrip(items[1..], rest, depth, cap, before + [v]);
      } else {
        assert tail[1..] == rest;
      }
    }
  }

  lemma Cons<T>(a: seq<T>, x: T, b: seq<T>)
    ensures a + ([x] + b) == a + [x] + b
  {
  }

  lemma FirstReparsed(items: seq<Json>, before: seq<Json>)
    requires items != [] && forall x :: x in items ==> Valid(x)
    ensures before + ReparsedItems(items) == before + [Reparsed(items[0])] + ReparsedItems(items[1..])
    ensures |items| == 1 ==> before + ReparsedItems(items) == before + [Reparsed(items[0])]
  {
    hide Reparsed, Valid;
    Cons(before, Reparsed(items[0]), ReparsedItems(items[1..]));
  }

  lemma FirstReparsedField(fields: seq<Field>, before: seq<Field>)
    requires fields != [] && forall f :: f in fields ==> Valid(f.value)
    ensures var g := Field(fields[0].key, Reparsed(fields[0].value));
            && before + ReparsedFields(fields) == before + [g] + ReparsedFields(fields[1..])
            && (|fields| == 1 ==> before + ReparsedFields(fields) == before + [g])
  {
    hide Reparsed, Valid;
    Cons(before, Field(fields[0].key, Reparsed(fields[0].value)), ReparsedFields(fields[1..]));
  }

  /** An array's text splits after the first element. */
  lemma ItemText(items: seq<Json>, end: string)
    requires items != [] && forall x :: x in items ==> Valid(x)
    ensures var tail := if |items| > 1 then "," + (DumpItems(items[1..]) + end) else end;
            DumpItems(items) + end == Dump(items[0]) + tail
  {
    hide Dump;
    if |items| > 1 {
      Assoc(Dump(items[0]), "," + DumpItems(items[1..]), end);
      Assoc(",", DumpItems(items[1..]), end);
    }
  }

  lemma {:induction false} InsertLast(fields: seq<Field>, f: Field)
    requires forall g :: g in fields ==> Less(g.key, f.key)
    ensures Insert(fields, f) == fields + [f]
  {
    if fields != [] {
      assert fields[0] in fields;
      LessAsymmetric(fields[0].key, f.key);
      InsertLast(fields[1..], f);
    }
  }

  lemma {:induction false} LessAsymmetric(a: string, b: string)
    requires Less(a, b)
    ensures a != b && !Less(b, a)
  {
    if a != [] && a[0] == b[0] {
      LessAsymmetric(a[1..], b[1..]);
    }
  }

  /** One field, read up to what follows its value. */
  lemma {:induction false} FieldRoundTrip(f: Field, tail: string, depth: nat, cap: nat)
    requires Valid(f.value) && Delimited(tail) && depth <= cap
    ensures var r := ParseField(DumpField(f) + tail, depth, cap);
            if depth + 1 + Depth(f.value) <= cap then r == Done(Field(f.key, Reparsed(f.value)), tail)
            else r == Failed(TooDeep)
    decreases f, 1
  {
    hide ParseValue, StringBody, EscapedAll, Dump, DumpField, Depth, Reparsed, Valid;
    var value := Dump(f.value) + tail;
    var inner := EscapedAll(f.key) + ("\"" + (":" + value));
    var s := "\"" + inner;
    FieldText(f, tail);
    StringRoundTrip(f.key, ":" + value);
    ValueRoundTrip(f.value, tail, depth + 1, cap);
    assert SkipWs(s) == s && s[1..] == inner;
    assert SkipWs(":" + value) == ":" + value && (":" + value)[1..] == value;
  }

  /** One step of the loop over an object's fields. */
  lemma FieldStep(text: string, f: Field, rest: string, depth: nat, cap: nat, before: seq<Field>)
    requires ParseField(text, depth, cap) == Done(f, rest)
    requires StartsWith(rest, ',') || StartsWith(rest, '}')
    requires Insert(before, f) == before + [f]
    ensures ParseFields(text, depth, cap, before)
         == if rest[0] == ',' then ParseFields(rest[1..], depth, cap, before + [f])
            else Done(Obj(before + [f]), rest[1..])
  {
    hide ParseField, Insert;
    assert SkipWs(rest) == rest;
  }

  lemma FieldFails(text: string, e: ParseError, depth: nat, cap: nat, before: seq<Field>)
    requires ParseField(text, depth, cap) == Failed(e)
    ensures ParseFields(text, depth, cap, before) == Failed(e)
  {
    hide ParseField;
  }

  /** One turn of the loop over an object's fields. */
  lemma {:induction false} FieldsTurn(fields: seq<Field>, rest: string, depth: nat, cap: nat, before: seq<Field>)
    requires fields != [] && depth <= cap && forall f :: f in fields ==> Valid(f.value)
    requires KeysAscend(before + fields)
    ensures var r := ParseFields(DumpFields(fields) + ("}" + rest), depth, cap, before);
            var more := before + [Field(fields[0].key, Reparsed(fields[0].value))];
            && KeysAscend(more + fields[1..])
            && r == if depth + 1 + Depth(fields[0].value) > cap then Failed(TooDeep)
                    else if |fields| == 1 then Done(Obj(more), rest)
                    else ParseFields(DumpFields(fields[1..]) + ("}" + rest), depth, cap, more)
    decreases fields, 0
  {
    hide ParseField, ParseFields, Dump, DumpField, DumpFields, Depth, Reparsed, Insert, KeysAscend, Valid, SkipWs;
    var tail := if |fields| > 1 then "," + (DumpFields(fields[1..]) + ("}" + rest)) else "}" + rest;
    var text := DumpFields(fields) + ("}" + rest);
    FieldsText(fields, "}" + rest);
    FieldRoundTrip(fields[0], tail, depth, cap);
    var g := Field(fields[0].key, Reparsed(fields[0].value));
    AppendField(before, g, fields);
    if depth + 1 + Depth(fields[0].value) > cap {
      FieldFails(text, TooDeep, depth, cap, before);
    } else {
      FieldStep(text, g, tail, depth, cap, before);
      assert tail[1..] == if |fields| > 1 then DumpFields(fields[1..]) + ("}" + rest) else rest;
    }
  }

  lemma {:induction false} FieldsRoundTrip(fields: seq<Field>, rest: string, depth: nat, cap: nat, before: seq<Field>)
    requires fields != [] && depth <= cap && forall f :: f in fields ==> Valid(f.value)
    requires KeysAscend(before + fields)
    ensures ParseFields(DumpFields(fields) + ("}" + rest), depth, cap, before)
         == Capped(Obj(before + ReparsedFields(fields)), rest, depth + 1 + FieldsDepth(fields), cap)
    decreases fields, 1
  {
    hide ParseFields, DumpFields, Depth, Reparsed, ReparsedFields, KeysAscend, Valid;
    FieldsTurn(fields, rest, depth, cap, before);
    FirstReparsedField(fields, before);
    if |fields| > 1 && depth + 1 + Depth(fields[0].value) <= cap {
      FieldsRoundTrip(fields[1..], rest, depth, cap, before + [Field(fields[0].key, Reparsed(fields[0].value))]);
    }
  }

  lemma EmptyText()
    ensures DumpItems([]) == [] && DumpFields([]) == []
  {
  }

  lemma FieldStart(f: Field)
    requires Valid(f.value)
    ensures DumpField(f) != [] && DumpField(f)[0] == '\"'
  {
    hide Dump, EscapedAll;
  }

  lemma Assoc(a: string, b: string, c: string)
    ensures (a + b) + c == a + (b + c)
  {
  }

  /** A field's text, with what follows it. */
  lemma FieldText(f: Field, end: string)
    requires Valid(f.value)
    ensures DumpField(f) + end == "\"" + (EscapedAll(f.key) + ("\"" + (":" + (Dump(f.value) + end))))
  {
    hide Dump, EscapedAll;
    var d := Dump(f.value);
    Assoc(StrText(f.key), ":" + d, end);
    Assoc(":", d, end);
    Assoc("\"", EscapedAll(f.key) + "\"", ":" + (d + end));
    Assoc(EscapedAll(f.key), "\"", ":" + (d + end));
  }

  /** An object's text splits after the first field. */
  lemma FieldsText(fields: seq<Field>, end: string)
    requires fields != [] && forall f :: f in fields ==> Valid(f.value)
    ensures var tail := if |fields| > 1 then "," + (DumpFields(fields[1..]) + end) else end;
            DumpFields(fields) + end == DumpField(fields[0]) + tail
  {
    hide DumpField;
    if |fields| > 1 {
      Assoc(DumpField(fields[0]), "," + DumpFields(fields[1..]), end);
      Assoc(",", DumpFields(fields[1..]), end);
    }
  }

  /** A field read after its smaller ones goes last, and the rest still follow it in order. */
  lemma AppendField(before: seq<Field>, g: Field, fields: seq<Field>)
    requires fields != [] && KeysAscend(before + fields) && fields[0].key == g.key
    ensures Insert(before, g) == before + [g]
    ensures KeysAscend(before + [g] + fields[1..])
  {
    forall b | b in before ensures Less(b.key, g.key) {
      var i :| 0 <= i < |before| && before[i] == b;
      assert (before + fields)[i] == b && (before + fields)[|before|] == fields[0];
    }
    InsertLast(before, g);
    assert before + fields == before + [fields[0]] + fields[1..];
    KeysOnly(before, fields[0], g, fields[1..]);
  }

  lemma KeysOnly(a: seq<Field>, f: Field, g: Field, b: seq<Field>)
    requires KeysAscend(a + [f] + b) && f.key == g.key
    ensures KeysAscend(a + [g] + b)
  {
    var s, t := a + [f] + b, a + [g] + b;
    forall i, j | 0 <= i < j < |t|
      ensures Less(t[i].key, t[j].key)
    {
      assert t[i].key == s[i].key && t[j].key == s[j].key;
    }
  }

  // ----- main results about the text -----

  /** Parsing a value's text fails exactly past the nesting cap, and then only for that reason. */
  lemma ParseOfDump(j: Json)
    requires Valid(j)
    ensures Parse(Dump(j)) == if Depth(j) <= MAX_DEPTH then Done(Reparsed(j), []) else Failed(TooDeep)
  {
    hide ParseValue;
    assert Dump(j) + [] == Dump(j);
    ValueRoundTrip(j, [], 0, MAX_DEPTH);
  }

  /** Every float in `j` is one that comes back from its text. */
  predicate FloatsComeBack(j: Json) {
    match j
    case Num(x) => ComesBack(x)
    case Arr(items) => forall i :: 0 <= i < |items| ==> FloatsComeBack(items[i])
    case Obj(fields) => forall i :: 0 <= i < |fields| ==> FloatsComeBack(fields[i].value)
    case _ => true
  }

  lemma ReparsedNumber(x: F64)
    requires Valid(Num(x))
    ensures Equal(Reparsed(Num(x)), Num(x)) <==> ComesBack(x)
  {
    hide IsDouble, ComesBack, PrintedInteger;
    ComesBackExactly(x);
    if PrintedInteger(x).Some? {
      PrintedIntegerRange(x);
    }
  }

  lemma {:induction false} ReparsedEqual(j: Json)
    requires Valid(j)
    ensures Equal(Reparsed(j), j) <==> FloatsComeBack(j)
    decreases j
  {
    hide ComesBack, IsDouble, PrintedInteger;
    match j {
      case Num(x) =>
        ReparsedNumber(x);
      case Arr(items) =>
        forall i | 0 <= i < |items|
          ensures Equal(ReparsedItems(items)[i], items[i]) <==> FloatsComeBack(items[i])
        {
          ReparsedEqual(items[i]);
        }
      case Obj(fields) =>
        forall i | 0 <= i < |fields|
          ensures Equal(ReparsedFields(fields)[i].value, fields[i].value) <==> FloatsComeBack(fields[i].value)
        {
          ReparsedEqual(fields[i].value);
        }
      case _ =>
    }
  }

  /**
   The parser undoes the printer: a value comes back equal exactly when it nests at most 512 deep
   and no large whole float in it has a rounder number next to it that rounds to it.
   */
  lemma ParserUndoesPrinter(j: Json)
    requires Valid(j)
    ensures var r := Parse(Dump(j));
            r.Done? && Equal(r.value, j) <==> Depth(j) <= MAX_DEPTH && FloatsComeBack(j)
  {
    ParseOfDump(j);
    ReparsedEqual(j);
  }

  /** The float 2^60 does not come back: its text is read as the integer 1152921504606847000. */
  lemma LossyRoundTrip()
    ensures var j := Num(Fin(TWO_60));
            && Valid(j)
            && Parse(Dump(j)) == Done(Int(1152921504606847000), [])
            && !Equal(Int(1152921504606847000), j)
  {
    hide Round, ParseValue;
    LossyDouble();
    ParseOfDump(Num(Fin(TWO_60)));
  }

  /** A float alone comes back exactly on that condition, so only large whole floats inside i64's range can be lost. */
  lemma OnlyLargeWholeFloatsAreLost(x: F64)
    requires Valid(Num(x))
    ensures Equal(Reparsed(Num(x)), Num(x)) <==> ComesBack(x)
    ensures !Equal(Reparsed(Num(x)), Num(x)) ==>
              IsI64Float(x) && (Value(x) >= TEN_16 as real || Value(x) <= -(TEN_16 as real))
  {
    hide Round, KeepsDigits;
    ReparsedNumber(x);
  }

  // ----- canonical keys -----

  /** A normal form's text is read back as the same value: nothing left in it is printed as another kind of number. */
  lemma {:induction false} ReparsedNormal(j: Json)
    requires Valid(j)
    ensures Valid(Normal(j)) && Reparsed(Normal(j)) == Normal(j)
    decreases j
  {
    NormalIsValid(j);
    match j {
      case Num(x) =>
        hide IsDouble;
        if PrintedInteger(x).Some? {
          PrintedIntegerRange(x);
        }
      case Arr(items) =>
        forall i | 0 <= i < |items|
          ensures ReparsedItems(NormalItems(items))[i] == NormalItems(items)[i]
        {
          ReparsedNormal(items[i]);
        }
      case Obj(fields) =>
        forall i | 0 <= i < |fields|
          ensures ReparsedFields(NormalFields(fields))[i] == NormalFields(fields)[i]
        {
          ReparsedNormal(fields[i].value);
        }
      case _ =>
    }
  }

  /** Canonical keys are exact: two values have the same key exactly when they are equal. */
  lemma CanonicalIsExact(a: Json, b: Json)
    requires Valid(a) && Valid(b)
    ensures Canonical(a) == Canonical(b) <==> Equal(a, b)
  {
    hide *;
    EqualIffSameNormal(a, b);
    CanonicalIsDumpOfNormal(a);
    CanonicalIsDumpOfNormal(b);
    ReparsedNormal(a);
    ReparsedNormal(b);
    DumpIsExact(Normal(a), Normal(b));
  }

  /** Values the parser gives back unchanged are told apart by their texts. */
  lemma DumpIsExact(x: Json, y: Json)
    requires Valid(x) && Valid(y) && Reparsed(x) == x && Reparsed(y) == y
    ensures Dump(x) == Dump(y) ==> x == y
  {
    hide ParseValue, Dump, Valid, Reparsed;
    var cap := Depth(x) + Depth(y);
    ValueRoundTrip(x, [], 0, cap);
    ValueRoundTrip(y, [], 0, cap);
  }
}
