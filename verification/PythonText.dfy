/** The JSON text Python's `json.dumps` writes, as the worker does for every payload: ASCII only, spaced. */
module PythonText {
  import opened DecimalText
  import opened Floats
  import opened JsonText
  import opened JsonValues
  import opened NumberText

  // ----- strings -----

  function HexText(n: nat): (t: string)
    requires n < 0x1_0000
    ensures |t| == 4
  {
    [HexDigit(n / 16 / 16 / 16), HexDigit(n / 16 / 16 % 16), HexDigit(n / 16 % 16), HexDigit(n % 16)]
  }

  /** One character inside a string: what is no printable ASCII goes by name, by code, or by two surrogates. */
  function AsciiEscaped(c: char): (t: string)
    ensures t != []
  {
    var n := c as int;
    if c == '\"' then "\\\""
    else if c == '\\' then "\\\\"
    else if c == '\n' then "\\n"
    else if c == '\r' then "\\r"
    else if c == '\t' then "\\t"
    else if c == '\U{8}' then "\\b"
    else if c == '\U{C}' then "\\f"
    else if ' ' <= c <= '~' then [c]
    else if n < 0x1_0000 then "\\u" + HexText(n)
    else
      var k := n - 0x1_0000;
      "\\u" + HexText(0xD800 + k / 0x400) + ("\\u" + HexText(0xDC00 + k % 0x400))
  }

  function AsciiText(s: string): string {
    if s == [] then [] else AsciiEscaped(s[0]) + AsciiText(s[1..])
  }

  // ----- floats -----

  function TwoDigits(n: nat): string {
    if n < 10 then "0" + Digits(n) else Digits(n)
  }

  /** An exponent with its sign and at least two digits. */
  function ExponentText(e: int): string {
    "e" + ((if e < 0 then "-" else "+") + TwoDigits(if e < 0 then -e else e))
  }

  /** One digit before the point, and the rest after it. */
  function Scientific(m: nat, p: int): string {
    var s := Digits(m);
    (if |s| == 1 then s else s[..1] + "." + s[1..]) + ExponentText(p + |s| - 1)
  }

  /** `repr` of a float, from its digits: with an exponent below 0.0001 and from 10^16 on. */
  function Repr(m: nat, p: int): string {
    var point := |Digits(m)| + p;
    if point <= -4 || point > 16 then Scientific(m, p)
    else if p >= 0 then Positional(m, p) + ".0"
    else Positional(m, p)
  }

  ghost function PyFloatText(x: F64): string
    requires IsDouble(x)
  {
    match x
    case NaN => "NaN"
    case Inf(neg) => if neg then "-Infinity" else "Infinity"
    case NegZero => "-0.0"
    case Fin(v) =>
      if v == 0.0 then "0.0"
      else if v > 0.0 then var (m, p) := Shortest(v); Repr(m, p)
      else NegatedDouble(v); var (m, p) := Shortest(-v); "-" + Repr(m, p)
  }

  // ----- values -----

  /** What Python can write: keys in any order, integers of any size. */
  predicate Writable(j: Json) {
    match j
    case Num(x) => IsDouble(x)
    case Arr(items) => forall x :: x in items ==> Writable(x)
    case Obj(fields) => forall f :: f in fields ==> Writable(f.value)
    case _ => true
  }

  ghost function PyDump(j: Json): string
    requires Writable(j)
    decreases j, 0
  {
    match j
    case Null => "null"
    case Bool(b) => if b then "true" else "false"
    case Int(n) => IntText(n)
    case Num(x) => PyFloatText(x)
    case Str(s) => PyStrText(s)
    case Arr(items) => "[" + (PyDumpItems(items) + "]")
    case Obj(fields) => "{" + (PyDumpFields(fields) + "}")
  }

  function PyStrText(s: string): string {
    "\"" + (AsciiText(s) + "\"")
  }

  ghost function PyDumpItems(items: seq<Json>): string
    requires forall x :: x in items ==> Writable(x)
  {
    if items == [] then ""
    else if |items| == 1 then PyDump(items[0])
    else PyDump(items[0]) + (", " + PyDumpItems(items[1..]))
  }

  ghost function PyDumpField(f: Field): string
    requires Writable(f.value)
    decreases f, 1
  {
    PyStrText(f.key) + (": " + PyDump(f.value))
  }

  ghost function PyDumpFields(fields: seq<Field>): string
    requires forall f :: f in fields ==> Writable(f.value)
  {
    if fields == [] then ""
    else if |fields| == 1 then PyDumpField(fields[0])
    else PyDumpField(fields[0]) + (", " + PyDumpFields(fields[1..]))
  }
}
