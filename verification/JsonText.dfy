/** The JSON printer: compact text, and the canonical key an unordered comparison sorts by. */
module JsonText {
  import opened JsonValues
  import opened NumberText

  function HexDigit(d: nat): (c: char)
    requires d < 16
    ensures '0' <= c <= '9' || 'a' <= c <= 'f'
  {
    "0123456789abcdef"[d]
  }

  /** One character inside a JSON string (section 7 of RFC 8259). */
  function Escaped(c: char): (t: string)
    ensures t != []
  {
    if c == '"' then "\\\""
    else if c == '\\' then "\\\\"
    else if c == '\n' then "\\n"
    else if c == '\r' then "\\r"
    else if c == '\t' then "\\t"
    else if c as int < 0x20 then "\\u00" + [HexDigit(c as int / 16), HexDigit(c as int % 16)]
    else [c]
  }

  function EscapedAll(s: string): string {
    if s == [] then [] else Escaped(s[0]) + EscapedAll(s[1..])
  }

  function StrText(s: string): string {
    "\"" + (EscapedAll(s) + "\"")
  }

  ghost function Dump(j: Json): string
    requires Valid(j)
    decreases j, 0
  {
    match j
    case Null => "null"
    case Bool(b) => if b then "true" else "false"
    case Int(n) => IntText(n)
    case Num(x) => FloatText(x)
    case Str(s) => StrText(s)
    case Arr(items) => "[" + (DumpItems(items) + "]")
    case Obj(fields) => "{" + (DumpFields(fields) + "}")
  }

  ghost function DumpItems(items: seq<Json>): string
    requires forall x :: x in items ==> Valid(x)
  {
    if items == [] then ""
    else if |items| == 1 then Dump(items[0])
    else Dump(items[0]) + ("," + DumpItems(items[1..]))
  }

  ghost function DumpField(f: Field): string
    requires Valid(f.value)
    decreases f, 1
  {
    StrText(f.key) + (":" + Dump(f.value))
  }

  ghost function DumpFields(fields: seq<Field>): string
    requires forall f :: f in fields ==> Valid(f.value)
  {
    if fields == [] then ""
    else if |fields| == 1 then DumpField(fields[0])
    else DumpField(fields[0]) + ("," + DumpFields(fields[1..]))
  }

  // ----- canonical keys -----

  /** `[T]::join(",")`. */
  function Joined(parts: seq<string>): string {
    if parts == [] then "" else if |parts| == 1 then parts[0] else parts[0] + ("," + Joined(parts[1..]))
  }

  /** `Json::canonical`: the dump, but a float that is an i64 in value is written as that integer. */
  ghost function Canonical(j: Json): string
    requires Valid(j)
    decreases j, 0
  {
    match j
    case Num(x) => if IsI64Float(x) then Dump(Int(Value(x).Floor)) else Dump(j)
    case Arr(items) => "[" + (Joined(CanonicalItems(items)) + "]")
    case Obj(fields) => "{" + (Joined(CanonicalFields(fields)) + "}")
    case _ => Dump(j)
  }

  ghost function CanonicalItems(items: seq<Json>): (r: seq<string>)
    requires forall x :: x in items ==> Valid(x)
    ensures |r| == |items|
  {
    if items == [] then [] else [Canonical(items[0])] + CanonicalItems(items[1..])
  }

  ghost function CanonicalFields(fields: seq<Field>): (r: seq<string>)
    requires forall f :: f in fields ==> Valid(f.value)
    ensures |r| == |fields|
  {
    if fields == [] then []
    else [Dump(Str(fields[0].key)) + (":" + Canonical(fields[0].value))] + CanonicalFields(fields[1..])
  }

  /** A canonical key is the plain text of the normal form. */
  lemma {:induction false} CanonicalIsDumpOfNormal(j: Json)
    requires Valid(j)
    ensures Valid(Normal(j)) && Canonical(j) == Dump(Normal(j))
    decreases j, 0
  {
    NormalIsValid(j);
    match j {
      case Arr(items) => CanonicalItemsText(items);
      case Obj(fields) => CanonicalFieldsText(fields);
      case _ =>
    }
  }

  lemma {:induction false} CanonicalItemsText(items: seq<Json>)
    requires forall x :: x in items ==> Valid(x)
    ensures forall x :: x in NormalItems(items) ==> Valid(x)
    ensures Joined(CanonicalItems(items)) == DumpItems(NormalItems(items))
  {
    NormalIsValid(Arr(items));
    if items != [] {
      CanonicalIsDumpOfNormal(items[0]);
      CanonicalItemsText(items[1..]);
      assert NormalItems(items)[1..] == NormalItems(items[1..]);
      assert CanonicalItems(items)[1..] == CanonicalItems(items[1..]);
    }
  }

  lemma {:induction false} CanonicalFieldsText(fields: seq<Field>)
    requires forall f :: f in fields ==> Valid(f.value)
    ensures forall f :: f in NormalFields(fields) ==> Valid(f.value)
    ensures Joined(CanonicalFields(fields)) == DumpFields(NormalFields(fields))
  {
    if fields != [] {
      hide Canonical, Dump, Normal, StrText;
      CanonicalIsDumpOfNormal(fields[0].value);
      DumpFieldText(fields[0].key, Normal(fields[0].value));
      CanonicalFieldsText(fields[1..]);
      assert NormalFields(fields)[1..] == NormalFields(fields[1..]);
      assert CanonicalFields(fields)[1..] == CanonicalFields(fields[1..]);
    }
  }

  lemma DumpFieldText(key: string, value: Json)
    requires Valid(value)
    ensures DumpField(Field(key, value)) == Dump(Str(key)) + (":" + Dump(value))
  {
  }
}
