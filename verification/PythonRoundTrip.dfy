/** The Rust parser undoes Python's printer: what the worker sends is what the harness reads. */
module PythonRoundTrip {
  import opened Floats
  import opened JsonAccepts
  import opened JsonGrammar
  import opened JsonParsing
  import opened JsonRoundTrip
  import opened JsonText
  import opened JsonValues
  import opened NumberText
  import opened PythonNumbers
  import opened PythonText
  import opened Wrappers

  // ----- strings -----

  lemma HexTextRead(n: nat, tail: string)
    requires n < 0x1_0000
    ensures Hex4(HexText(n) + tail) == Done(n, tail)
  {
    hide HexNumber, HexDigit;
    var a, b, c, d := n / 16 / 16 / 16, n / 16 / 16 % 16, n / 16 % 16, n % 16;
    FourDigits(n);
    EmptyHex();
    HexAppend([], a);
    assert [] + [HexDigit(a)] == [HexDigit(a)];
    HexAppend([HexDigit(a)], b);
    HexAppend([HexDigit(a)] + [HexDigit(b)], c);
    HexAppend([HexDigit(a)] + [HexDigit(b)] + [HexDigit(c)], d);
    var h := HexText(n);
    assert h == [HexDigit(a)] + [HexDigit(b)] + [HexDigit(c)] + [HexDigit(d)];
    assert (h + tail)[..4] == h && (h + tail)[4..] == tail;
    NoSign(a);
  }

  lemma FourDigits(n: nat)
    requires n < 0x1_0000
    ensures n / 16 / 16 / 16 < 16
    ensures ((n / 16 / 16 / 16 * 16 + n / 16 / 16 % 16) * 16 + n / 16 % 16) * 16 + n % 16 == n
  {
    var a := n / 16;
    var b := a / 16;
    assert n == a * 16 + n % 16 && a == b * 16 + a % 16 && b == b / 16 * 16 + b % 16;
  }

  lemma NoSign(d: nat)
    requires d < 16
    ensures HexDigit(d) != '+'
  {
  }

  lemma PairEscape(s: string, hi: nat, second: string, lo: nat, tail: string)
    requires Hex4(s) == Done(hi, second) && 0xD800 <= hi < 0xDC00
    requires "\\u" <= second && Hex4(second[2..]) == Done(lo, tail)
    ensures UnicodeEscape(s) == Done(CharOf(0x1_0000 + (hi - 0xD800) * 0x400 + lo % 0x400), tail)
  {
    hide Hex4, CharOf;
  }

  /** A character beyond the first plane is read back from its two halves. */
  lemma PairRead(n: nat, tail: string)
    requires 0x1_0000 <= n < 0x11_0000
    ensures var k := n - 0x1_0000;
            UnicodeEscape(HexText(0xD800 + k / 0x400) + ("\\u" + HexText(0xDC00 + k % 0x400)) + tail) ==
            Done(n as char, tail)
  {
    hide HexText, Hex4, UnicodeEscape;
    var k := n - 0x1_0000;
    var hi, lo := 0xD800 + k / 0x400, 0xDC00 + k % 0x400;
    var second := "\\u" + HexText(lo) + tail;
    assert HexText(hi) + ("\\u" + HexText(lo)) + tail == HexText(hi) + second;
    HexTextRead(hi, second);
    assert second[2..] == HexText(lo) + tail;
    HexTextRead(lo, tail);
    PairEscape(HexText(hi) + second, hi, second, lo, tail);
    Halves(k);
  }

  lemma Halves(k: nat)
    ensures (0xDC00 + k % 0x400) % 0x400 == k % 0x400 && k / 0x400 * 0x400 + k % 0x400 == k
  {
  }

  lemma CodeRead(n: nat, tail: string)
    requires n < 0xD800 || 0xE000 <= n < 0x1_0000
    ensures UnicodeEscape(HexText(n) + tail) == Done(n as char, tail)
  {
    hide HexText, Hex4;
    HexTextRead(n, tail);
  }

  lemma AsciiCharRead(c: char, tail: string)
    ensures StringBody(AsciiEscaped(c) + tail) == Prepend([c], StringBody(tail))
  {
    var t := AsciiEscaped(c);
    if t[0] == '\\' {
      hide StringBody;
      EscapeStart(t[1..], tail);
      assert t == "\\" + t[1..];
      AsciiEscapeRead(c, tail);
    } else {
      assert (t + tail)[1..] == tail;
    }
  }

  lemma NamedRead(c: char, tail: string)
    requires |AsciiEscaped(c)| == 2
    ensures Escape(AsciiEscaped(c)[1..] + tail) == Done(c, tail)
  {
    hide UnicodeEscape, HexText;
    var t := AsciiEscaped(c)[1..];
    assert (t + tail)[1..] == tail;
  }

  lemma EscapeCode(rest: string)
    ensures Escape("u" + rest) == UnicodeEscape(rest)
  {
    hide UnicodeEscape;
    assert ("u" + rest)[1..] == rest;
  }

  lemma AsciiEscapeRead(c: char, tail: string)
    requires AsciiEscaped(c)[0] == '\\'
    ensures Escape(AsciiEscaped(c)[1..] + tail) == Done(c, tail)
  {
    hide UnicodeEscape, HexText, Escape;
    var t := AsciiEscaped(c)[1..];
    var n := c as int;
    if |t| == 1 {
      NamedRead(c, tail);
    } else if n < 0x1_0000 {
      assert t + tail == "u" + (HexText(n) + tail);
      EscapeCode(HexText(n) + tail);
      CodeRead(n, tail);
    } else {
      var k := n - 0x1_0000;
      var rest := HexText(0xD800 + k / 0x400) + ("\\u" + HexText(0xDC00 + k % 0x400));
      assert t + tail == "u" + (rest + tail);
      EscapeCode(rest + tail);
      PairRead(n, tail);
    }
  }

  /** Every string comes back from its ASCII text, whatever its characters. */
  lemma {:induction false} AsciiRoundTrip(s: string, rest: string)
    ensures StringBody(AsciiText(s) + ("\"" + rest)) == Done(s, rest)
  {
    if s == [] {
      StringEnd(rest);
      assert AsciiText(s) + ("\"" + rest) == "\"" + rest;
    } else {
      hide StringBody, AsciiEscaped;
      var tail := AsciiText(s[1..]) + ("\"" + rest);
      AsciiRoundTrip(s[1..], rest);
      AsciiCharRead(s[0], tail);
      Assoc(AsciiEscaped(s[0]), AsciiText(s[1..]), "\"" + rest);
      assert [s[0]] + s[1..] == s;
    }
  }

  // ----- escapes no printer writes -----

  /** Hexadecimal digits are read in either case, and a slash may be escaped. */
  lemma OtherSpellings(d: nat, tail: string)
    requires d < 16
    ensures HexValue("0123456789ABCDEF"[d]) == Some(d) == HexValue("0123456789abcdef"[d])
    ensures Escape("/" + tail) == Done('/', tail)
  {
    assert ("/" + tail)[1..] == tail;
  }

  /** A plus sign is taken for the first of the four digits. */
  lemma PlusTaken(n: nat, tail: string)
    requires n < 0x1000
    ensures Hex4("+" + HexText(n)[1..] + tail) == Done(n, tail)
  {
    hide HexNumber, HexDigit, HexText;
    var t := HexText(n);
    ThreeDigits(n);
    assert ("+" + t[1..] + tail)[1..4] == t[1..] && ("+" + t[1..] + tail)[4..] == tail;
  }

  lemma ThreeDigits(n: nat)
    requires n < 0x1000
    ensures HexNumber(HexText(n)[1..]) == Some(n)
  {
    hide HexNumber, HexDigit;
    var b, c, d := n / 16 / 16 % 16, n / 16 % 16, n % 16;
    FourDigits(n);
    EmptyHex();
    HexAppend([], b);
    assert [] + [HexDigit(b)] == [HexDigit(b)];
    HexAppend([HexDigit(b)], c);
    HexAppend([HexDigit(b)] + [HexDigit(c)], d);
    assert HexText(n)[1..] == [HexDigit(b)] + [HexDigit(c)] + [HexDigit(d)];
  }

  /** Half of a pair by itself, as Python writes for a string that holds one, becomes the replacement character. */
  lemma LoneSurrogate(n: nat, tail: string)
    requires 0xD800 <= n < 0xE000 && !("\\u" <= tail)
    ensures UnicodeEscape(HexText(n) + tail) == Done('\U{FFFD}', tail)
  {
    hide HexText, Hex4;
    HexTextRead(n, tail);
  }

  // ----- values -----

  /** What Rust makes of a value: integers past i64 are rounded to doubles, and fields are put in key order. */
  function PyRead(j: Json): Json
    decreases j, 0
  {
    match j
    case Int(n) => if InI64(n) then j else Num(Round(n as real))
    case Arr(items) => Arr(PyReadItems(items))
    case Obj(fields) => Obj(SortFields(PyReadFields(fields)))
    case _ => j
  }

  function PyReadItems(items: seq<Json>): (r: seq<Json>)
    ensures |r| == |items| && forall i :: 0 <= i < |items| ==> r[i] == PyRead(items[i])
  {
    if items == [] then [] else [PyRead(items[0])] + PyReadItems(items[1..])
  }

  function PyReadFields(fields: seq<Field>): (r: seq<Field>)
    ensures |r| == |fields|
    ensures forall i :: 0 <= i < |fields| ==> r[i] == Field(fields[i].key, PyRead(fields[i].value))
  {
    if fields == [] then [] else [Field(fields[0].key, PyRead(fields[0].value))] + PyReadFields(fields[1..])
  }

  lemma {:induction false} PyRoundTrip(j: Json, rest: string, depth: nat, cap: nat)
    requires Writable(j) && Delimited(rest)
    ensures ParseValue(PyDump(j) + rest, depth, cap) == Capped(PyRead(j), rest, depth + Depth(j), cap)
    decreases j, 0
  {
    hide ParseValue;
    if depth > cap {
      PastCap(PyDump(j) + rest, depth, cap);
    } else if j.Arr? {
      PyArrayRead(j.items, rest, depth, cap);
    } else if j.Obj? {
      PyObjectRead(j.fields, rest, depth, cap);
    } else {
      PyScalarRead(j, rest, depth, cap);
    }
  }

  lemma PyScalarRead(j: Json, rest: string, depth: nat, cap: nat)
    requires Writable(j) && Delimited(rest) && depth <= cap && !j.Arr? && !j.Obj?
    ensures ParseValue(PyDump(j) + rest, depth, cap) == Done(PyRead(j), rest)
  {
    hide ParseValue, AsciiText, ReadI64, ReadF64, PyFloatText, IntText, StringBody, LooksNumeric, IsDouble, Round;
    match j {
      case Int(n) =>
        ReadPyInt(n);
        NumberRoundTrip(IntText(n), rest, depth, cap);
      case Num(x) =>
        if x.NegZero? || x.Fin? {
          ReadPyFloat(x);
          NumberRoundTrip(PyFloatText(x), rest, depth, cap);
        } else {
          SpecialTexts(x);
          LiteralRoundTrip(j, rest, depth, cap);
        }
      case Str(s) =>
        AsciiRoundTrip(s, rest);
        Assoc("\"", AsciiText(s) + "\"", rest);
        Assoc(AsciiText(s), "\"", rest);
        StringStart(AsciiText(s) + ("\"" + rest), depth, cap);
      case _ => LiteralRoundTrip(j, rest, depth, cap);
    }
  }

  lemma SpecialTexts(x: F64)
    requires x.NaN? || x.Inf?
    ensures PyFloatText(x) == FloatText(x)
  {
  }

  /** A value's text starts with neither white space nor a closing bracket. */
  lemma PyDumpStart(j: Json)
    requires Writable(j)
    ensures PyDump(j) != [] && !IsWs(PyDump(j)[0]) && PyDump(j)[0] != ']'
  {
    match j {
      case Int(n) =>
        hide IntText, LooksNumeric, ReadI64, ReadF64;
        ReadPyInt(n);
        NumericFirst(IntText(n));
      case Num(x) =>
        hide PyFloatText, IsDouble, LooksNumeric, ReadI64, ReadF64;
        if x.NegZero? || x.Fin? {
          ReadPyFloat(x);
          NumericFirst(PyFloatText(x));
        } else {
          SpecialTexts(x);
          SpecialFirst(x);
        }
      case _ =>
    }
  }

  lemma PyEmpty()
    ensures PyDumpItems([]) == [] && PyDumpFields([]) == []
  {
  }

  /** The parser skips the space after a comma or a colon. */
  lemma SpaceSkipped(text: string, depth: nat, cap: nat)
    ensures ParseValue(" " + text, depth, cap) == ParseValue(text, depth, cap)
  {
    hide Literal, Number, ParseItems, ParseFields, StringBody;
    assert (" " + text)[1..] == text;
    assert SkipWs(" " + text) == SkipWs(text);
  }

  lemma SpaceInItems(text: string, depth: nat, cap: nat, before: seq<Json>)
    ensures ParseItems(" " + text, depth, cap, before) == ParseItems(text, depth, cap, before)
  {
    SpaceSkipped(text, depth + 1, cap);
    hide ParseValue;
  }

  lemma SpaceInFields(text: string, depth: nat, cap: nat, before: seq<Field>)
    ensures ParseFields(" " + text, depth, cap, before) == ParseFields(text, depth, cap, before)
  {
    SpaceInField(text, depth, cap);
    hide ParseField;
  }

  lemma SpaceInField(text: string, depth: nat, cap: nat)
    ensures ParseField(" " + text, depth, cap) == ParseField(text, depth, cap)
  {
    hide ParseValue, StringBody;
    assert (" " + text)[1..] == text;
    assert SkipWs(" " + text) == SkipWs(text);
  }

  lemma {:induction false} PyArrayRead(items: seq<Json>, rest: string, depth: nat, cap: nat)
    requires Writable(Arr(items)) && depth <= cap
    ensures ParseValue(PyDump(Arr(items)) + rest, depth, cap)
         == Capped(PyRead(Arr(items)), rest, depth + Depth(Arr(items)), cap)
    decreases items, 2
  {
    hide ParseValue, ParseItems, PyDumpItems, ItemsDepth, PyReadItems;
    var inner := PyDumpItems(items) + ("]" + rest);
    Assoc("[", PyDumpItems(items) + "]", rest);
    Assoc(PyDumpItems(items), "]", rest);
    if items == [] {
      PyEmpty();
      assert inner == "]" + rest && inner[1..] == rest;
      ArrayStart(inner, depth, cap);
      NothingRead();
    } else {
      PyDumpStart(items[0]);
      PyItemText(items, "]" + rest);
      assert inner[0] == PyDump(items[0])[0];
      ArrayStart(inner, depth, cap);
      PyItemsRead(items, rest, depth, cap, []);
      assert [] + PyReadItems(items) == PyReadItems(items);
    }
  }

  /** What stands between one element and the rest. */
  lemma Tails(text: string, end: char)
    ensures (", " + text)[1..] == " " + text && ([end] + text)[1..] == text
  {
  }

  lemma NothingRead()
    ensures PyReadItems([]) == [] && SortFields(PyReadFields([])) == []
  {
  }

  lemma PyItemText(items: seq<Json>, end: string)
    requires items != [] && forall x :: x in items ==> Writable(x)
    ensures var tail := if |items| > 1 then ", " + (PyDumpItems(items[1..]) + end) else end;
            PyDumpItems(items) + end == PyDump(items[0]) + tail
  {
    hide PyDump;
    if |items| > 1 {
      Assoc(PyDump(items[0]), ", " + PyDumpItems(items[1..]), end);
      Assoc(", ", PyDumpItems(items[1..]), end);
    }
  }

  lemma FirstRead(items: seq<Json>, before: seq<Json>)
    requires items != []
    ensures before + PyReadItems(items) == before + [PyRead(items[0])] + PyReadItems(items[1..])
    ensures |items| == 1 ==> before + PyReadItems(items) == before + [PyRead(items[0])]
  {
    hide PyRead;
    Cons(before, PyRead(items[0]), PyReadItems(items[1..]));
  }

  lemma {:induction false} PyItemsRead(items: seq<Json>, rest: string, depth: nat, cap: nat, before: seq<Json>)
    requires items != [] && depth <= cap && forall x :: x in items ==> Writable(x)
    ensures ParseItems(PyDumpItems(items) + ("]" + rest), depth, cap, before)
         == Capped(Arr(before + PyReadItems(items)), rest, depth + 1 + ItemsDepth(items), cap)
    decreases items, 1
  {
    hide ParseValue, ParseItems, PyDump, PyDumpItems, Depth, PyRead, PyReadItems;
    var tail := if |items| > 1 then ", " + (PyDumpItems(items[1..]) + ("]" + rest)) else "]" + rest;
    var text := PyDumpItems(items) + ("]" + rest);
    PyItemText(items, "]" + rest);
    PyRoundTrip(items[0], tail, depth + 1, cap);
    var v := PyRead(items[0]);
    FirstRead(items, before);
    if depth + 1 + Depth(items[0]) > cap {
      ItemFails(text, TooDeep, depth, cap, before);
    } else {
      ItemStep(text, v, tail, depth, cap, before);
      if |items| > 1 {
        var more := PyDumpItems(items[1..]) + ("]" + rest);
        Tails(more, ']');
        SpaceInItems(more, depth, cap, before + [v]);
        PyItemsRead(items[1..], rest, depth, cap, before + [v]);
      } else {
        Tails(rest, ']');
      }
    }
  }

  // ----- objects -----

  lemma PyFieldStart(f: Field)
    requires Writable(f.value)
    ensures PyDumpField(f) != [] && PyDumpField(f)[0] == '\"'
  {
    hide PyDump, AsciiText;
  }

  lemma {:induction false} PyObjectRead(fields: seq<Field>, rest: string, depth: nat, cap: nat)
    requires Writable(Obj(fields)) && depth <= cap
    ensures ParseValue(PyDump(Obj(fields)) + rest, depth, cap)
         == Capped(PyRead(Obj(fields)), rest, depth + Depth(Obj(fields)), cap)
    decreases fields, 2
  {
    hide ParseValue, ParseFields, PyDumpFields, PyDumpField, StringBody, FieldsDepth, PyReadFields, SortFields;
    var inner := PyDumpFields(fields) + ("}" + rest);
    Assoc("{", PyDumpFields(fields) + "}", rest);
    Assoc(PyDumpFields(fields), "}", rest);
    if fields == [] {
      PyEmpty();
      assert inner == "}" + rest && inner[1..] == rest;
      ObjectStart(inner, depth, cap);
      NothingRead();
    } else {
      PyFieldsText(fields, "}" + rest);
      PyFieldStart(fields[0]);
      ObjectStart(inner, depth, cap);
      PyFieldsRead(fields, rest, depth, cap, []);
      assert [] + PyReadFields(fields) == PyReadFields(fields);
      assert SortFields([]) == [] by { NothingSorted(); }
    }
  }

  lemma NothingSorted()
    ensures SortFields([]) == []
  {
  }

  lemma PyFieldsText(fields: seq<Field>, end: string)
    requires fields != [] && forall f :: f in fields ==> Writable(f.value)
    ensures var tail := if |fields| > 1 then ", " + (PyDumpFields(fields[1..]) + end) else end;
            PyDumpFields(fields) + end == PyDumpField(fields[0]) + tail
  {
    hide PyDumpField;
    if |fields| > 1 {
      Assoc(PyDumpField(fields[0]), ", " + PyDumpFields(fields[1..]), end);
      Assoc(", ", PyDumpFields(fields[1..]), end);
    }
  }

  lemma PyFieldText(f: Field, end: string)
    requires Writable(f.value)
    ensures PyDumpField(f) + end == "\"" + (AsciiText(f.key) + ("\"" + (":" + (" " + (PyDump(f.value) + end)))))
  {
    hide PyDump, AsciiText;
    var d := PyDump(f.value);
    Assoc(PyStrText(f.key), ": " + d, end);
    Assoc(": ", d, end);
    assert ": " + (d + end) == ":" + (" " + (d + end));
    Assoc("\"", AsciiText(f.key) + "\"", ":" + (" " + (d + end)));
    Assoc(AsciiText(f.key), "\"", ":" + (" " + (d + end)));
  }

  lemma {:induction false} PyFieldRead(f: Field, tail: string, depth: nat, cap: nat)
    requires Writable(f.value) && Delimited(tail) && depth <= cap
    ensures var r := ParseField(PyDumpField(f) + tail, depth, cap);
            if depth + 1 + Depth(f.value) <= cap then r == Done(Field(f.key, PyRead(f.value)), tail)
            else r == Failed(TooDeep)
    decreases f, 1
  {
    hide ParseValue, StringBody, AsciiText, PyDump, PyDumpField, Depth, PyRead, Writable;
    var value := PyDump(f.value) + tail;
    var spaced := " " + value;
    var inner := AsciiText(f.key) + ("\"" + (":" + spaced));
    var s := "\"" + inner;
    PyFieldText(f, tail);
    AsciiRoundTrip(f.key, ":" + spaced);
    PyRoundTrip(f.value, tail, depth + 1, cap);
    SpaceSkipped(value, depth + 1, cap);
    assert SkipWs(s) == s && s[1..] == inner;
    assert SkipWs(":" + spaced) == ":" + spaced && (":" + spaced)[1..] == spaced;
  }

  /** One step of the loop over an object's fields. */
  lemma AnyFieldStep(text: string, f: Field, rest: string, depth: nat, cap: nat, before: seq<Field>)
    requires ParseField(text, depth, cap) == Done(f, rest)
    requires StartsWith(rest, ',') || StartsWith(rest, '}')
    ensures ParseFields(text, depth, cap, before)
         == if rest[0] == ',' then ParseFields(rest[1..], depth, cap, Insert(before, f))
            else Done(Obj(Insert(before, f)), rest[1..])
  {
    hide ParseField, Insert;
    assert SkipWs(rest) == rest;
  }

  lemma SortedOneMore(before: seq<Field>, f: Field)
    ensures SortFields(before + [f]) == Insert(SortFields(before), f)
  {
    assert (before + [f])[..|before + [f]| - 1] == before;
  }

  lemma FirstReadField(fields: seq<Field>, before: seq<Field>)
    requires fields != []
    ensures var g := Field(fields[0].key, PyRead(fields[0].value));
            && before + PyReadFields(fields) == before + [g] + PyReadFields(fields[1..])
            && (|fields| == 1 ==> before + PyReadFields(fields) == before + [g])
  {
    hide PyRead;
    Cons(before, Field(fields[0].key, PyRead(fields[0].value)), PyReadFields(fields[1..]));
  }

  /** One turn of the loop over an object's fields. */
  lemma {:induction false} PyFieldsTurn(fields: seq<Field>, rest: string, depth: nat, cap: nat, before: seq<Field>)
    requires fields != [] && depth <= cap && forall f :: f in fields ==> Writable(f.value)
    ensures var r := ParseFields(PyDumpFields(fields) + ("}" + rest), depth, cap, before);
            var more := Insert(before, Field(fields[0].key, PyRead(fields[0].value)));
            r == if depth + 1 + Depth(fields[0].value) > cap then Failed(TooDeep)
                 else if |fields| == 1 then Done(Obj(more), rest)
                 else ParseFields(PyDumpFields(fields[1..]) + ("}" + rest), depth, cap, more)
    decreases fields, 0
  {
    hide ParseField, ParseFields, PyDump, PyDumpField, PyDumpFields, Depth, PyRead, Insert, SkipWs, Writable;
    var tail := if |fields| > 1 then ", " + (PyDumpFields(fields[1..]) + ("}" + rest)) else "}" + rest;
    var text := PyDumpFields(fields) + ("}" + rest);
    PyFieldsText(fields, "}" + rest);
    PyFieldRead(fields[0], tail, depth, cap);
    var g := Field(fields[0].key, PyRead(fields[0].value));
    if depth + 1 + Depth(fields[0].value) > cap {
      FieldFails(text, TooDeep, depth, cap, before);
    } else {
      AnyFieldStep(text, g, tail, depth, cap, before);
      if |fields| > 1 {
        var more := PyDumpFields(fields[1..]) + ("}" + rest);
        Tails(more, '}');
        SpaceInFields(more, depth, cap, Insert(before, g));
      } else {
        Tails(rest, '}');
      }
    }
  }

  /** The loop keeps the fields read so far in key order, each put in its place, a later equal key winning. */
  lemma {:induction false} PyFieldsRead(fields: seq<Field>, rest: string, depth: nat, cap: nat, before: seq<Field>)
    requires fields != [] && depth <= cap && forall f :: f in fields ==> Writable(f.value)
    ensures ParseFields(PyDumpFields(fields) + ("}" + rest), depth, cap, SortFields(before))
         == Capped(Obj(SortFields(before + PyReadFields(fields))), rest, depth + 1 + FieldsDepth(fields), cap)
    decreases fields, 1
  {
    hide ParseFields, PyDumpFields, Depth, PyRead, PyReadFields, Insert, SortFields, Writable;
    PyFieldsTurn(fields, rest, depth, cap, SortFields(before));
    var g := Field(fields[0].key, PyRead(fields[0].value));
    FirstReadField(fields, before);
    SortedOneMore(before, g);
    if |fields| > 1 && depth + 1 + Depth(fields[0].value) <= cap {
      PyFieldsRead(fields[1..], rest, depth, cap, before + [g]);
    }
  }

  // ----- main results -----

  /** Rust reads whatever Python writes, up to 512 levels deep. */
  lemma ParseOfPyDump(j: Json)
    requires Writable(j)
    ensures Parse(PyDump(j)) == if Depth(j) <= MAX_DEPTH then Done(PyRead(j), []) else Failed(TooDeep)
  {
    hide ParseValue, PyDump, PyRead, Depth, Writable;
    assert PyDump(j) + [] == PyDump(j);
    PyRoundTrip(j, [], 0, MAX_DEPTH);
  }

  /** A value Rust can hold comes back exactly, its floats as floats: Python, unlike Rust, always marks a float. */
  lemma {:induction false} HeldIsKept(j: Json)
    requires Valid(j)
    ensures Writable(j) && PyRead(j) == j
    decreases j
  {
    hide KeysAscend, IsDouble, SortFields;
    match j {
      case Arr(items) =>
        forall i | 0 <= i < |items| ensures Writable(items[i]) && PyReadItems(items)[i] == items[i] {
          HeldIsKept(items[i]);
        }
        assert PyReadItems(items) == items;
      case Obj(fields) =>
        forall i | 0 <= i < |fields| ensures Writable(fields[i].value) && PyReadFields(fields)[i] == fields[i] {
          HeldIsKept(fields[i].value);
        }
        assert PyReadFields(fields) == fields;
        SortedStay(fields);
      case _ =>
    }
  }

  lemma {:induction false} SortedStay(fields: seq<Field>)
    requires KeysAscend(fields)
    ensures SortFields(fields) == fields
  {
    hide Less;
    if fields != [] {
      var n := |fields| - 1;
      SortedStay(fields[..n]);
      InsertLast(fields[..n], fields[n]);
      assert fields[..n] + [fields[n]] == fields;
    }
  }

  // ----- what may stand around a value -----

  /** White space around a value is skipped, and anything else after it is refused. */
  lemma NothingElseAfter(before: string, j: Json, after: string)
    requires Writable(j) && Blank(before) && Delimited(after)
    ensures Parse(before + (PyDump(j) + after)) ==
            if Depth(j) > MAX_DEPTH then Failed(TooDeep)
            else if Blank(after) then Done(PyRead(j), [])
            else Failed(TrailingCharacters)
  {
    hide ParseValue, PyDump, PyRead, Depth, Writable;
    BlankBefore(before, PyDump(j) + after, 0, MAX_DEPTH);
    PyRoundTrip(j, after, 0, MAX_DEPTH);
    SkippedIsBlank(after);
  }

  /** The parser undoes Python's printer: every value within the cap comes back exactly as it was. */
  lemma ParserUndoesPython(j: Json)
    requires Valid(j)
    ensures Writable(j)
    ensures Parse(PyDump(j)) == if Depth(j) <= MAX_DEPTH then Done(j, []) else Failed(TooDeep)
  {
    hide ParseValue;
    HeldIsKept(j);
    ParseOfPyDump(j);
  }
}
