/** What the recursive-descent JSON parser accepts and returns, as functions on the text that is left. */
module JsonParsing {
  import opened Floats
  import opened JsonValues
  import opened NumberText
  import opened Wrappers

  datatype ParseError =
    | TooDeep
    | UnexpectedEnd
    | InvalidLiteral
    | ExpectedItemEnd
    | ExpectedKey
    | ExpectedColon
    | ExpectedFieldEnd
    | UnexpectedCharacter
    | InvalidNumber
    | UnterminatedString
    | BadEscape
    | TrailingCharacters

  /** A value and the text after it, or an error. */
  datatype Parsed<+T> = Done(value: T, rest: string) | Failed(error: ParseError)

  const MAX_DEPTH := 512

  predicate IsWs(c: char) {
    c in " \t\n\r"
  }

  function SkipWs(s: string): (r: string)
    ensures |r| <= |s|
  {
    if s != [] && IsWs(s[0]) then SkipWs(s[1..]) else s
  }

  function Literal(s: string, lit: string, v: Json): Parsed<Json> {
    if lit <= s then Done(v, s[|lit|..]) else Failed(InvalidLiteral)
  }

  // ----- strings -----

  function HexValue(c: char): Option<nat> {
    if '0' <= c <= '9' then Some(c as int - '0' as int)
    else if 'a' <= c <= 'f' then Some(c as int - 'a' as int + 10)
    else if 'A' <= c <= 'F' then Some(c as int - 'A' as int + 10)
    else None
  }

  function HexNumber(s: string): Option<nat> {
    if s == [] then Some(0)
    else
      var hi := HexNumber(s[..|s| - 1]);
      var lo := HexValue(s[|s| - 1]);
      if hi.None? || lo.None? then None else Some(hi.value * 16 + lo.value)
  }

  /** Four characters read by `u32::from_str_radix`, which also takes a leading plus sign. */
  function Hex4(s: string): (r: Parsed<nat>)
    ensures r.Done? ==> |s| >= 4 && r.rest == s[4..]
  {
    if |s| < 4 then Failed(BadEscape)
    else
      var h := HexNumber(if s[0] == '+' then s[1..4] else s[..4]);
      if h.None? then Failed(BadEscape) else Done(h.value, s[4..])
  }

  /** `char::from_u32`, with the replacement character for what is not a scalar value. */
  function CharOf(code: nat): char {
    if code < 0xD800 || 0xE000 <= code < 0x11_0000 then code as char else '\U{FFFD}'
  }

  /** A `\u` escape after its `u`: two of them when the first is a high surrogate. */
  function UnicodeEscape(s: string): (r: Parsed<char>)
    ensures r.Done? ==> |r.rest| < |s|
  {
    match Hex4(s)
    case Failed(e) => Failed(e)
    case Done(hi, rest) =>
      if 0xD800 <= hi < 0xDC00 && "\\u" <= rest then
        match Hex4(rest[2..]) {
          case Failed(e) => Failed(e)
          case Done(lo, rest) => Done(CharOf(0x1_0000 + (hi - 0xD800) * 0x400 + lo % 0x400), rest)
        }
      else Done(CharOf(hi), rest)
  }

  /** An escape after its backslash. */
  function Escape(s: string): (r: Parsed<char>)
    ensures r.Done? ==> |r.rest| < |s|
  {
    if s == [] then Failed(BadEscape)
    else
      var rest := s[1..];
      match s[0]
      case 'n' => Done('\n', rest)
      case 't' => Done('\t', rest)
      case 'r' => Done('\r', rest)
      case 'b' => Done('\U{8}', rest)
      case 'f' => Done('\U{C}', rest)
      case '/' => Done('/', rest)
      case '\\' => Done('\\', rest)
      case '\"' => Done('\"', rest)
      case 'u' => UnicodeEscape(rest)
      case _ => Failed(BadEscape)
  }

  function Prepend(s: string, r: Parsed<string>): Parsed<string> {
    if r.Done? then Done(s + r.value, r.rest) else r
  }

  /** A string after its opening quote. */
  function StringBody(s: string): (r: Parsed<string>)
    ensures r.Done? ==> |r.rest| < |s|
    decreases |s|
  {
    if s == [] then Failed(UnterminatedString)
    else if s[0] == '\"' then Done([], s[1..])
    else if s[0] == '\\' then
      match Escape(s[1..])
      case Failed(e) => Failed(e)
      case Done(c, rest) => Prepend([c], StringBody(rest))
    else Prepend([s[0]], StringBody(s[1..]))
  }

  // ----- numbers -----

  function NumberSpan(s: string): (n: nat)
    ensures n <= |s|
  {
    if s != [] && IsNumberChar(s[0]) then 1 + NumberSpan(s[1..]) else 0
  }

  function Number(s: string): Parsed<Json> {
    var n := NumberSpan(s);
    var t := s[..n];
    if n == 0 then Failed(UnexpectedCharacter)
    else if ReadI64(t).Some? then Done(Int(ReadI64(t).value), s[n..])
    else if ReadF64(t).Some? then Done(Num(ReadF64(t).value), s[n..])
    else Failed(InvalidNumber)
  }

  // ----- values -----

  /** `BTreeMap::insert`: the later of two equal keys wins. */
  function Insert(fields: seq<Field>, f: Field): seq<Field> {
    if fields == [] then [f]
    else if fields[0].key == f.key then [f] + fields[1..]
    else if Less(f.key, fields[0].key) then [f] + fields
    else [fields[0]] + Insert(fields[1..], f)
  }

  /** Fields inserted one after another. */
  function SortFields(e: seq<Field>): seq<Field> {
    if e == [] then [] else Insert(SortFields(e[..|e| - 1]), e[|e| - 1])
  }

  function StartsWith(s: string, c: char): bool {
    s != [] && s[0] == c
  }

  function ParseValue(text: string, depth: nat, cap: nat): (r: Parsed<Json>)
    ensures r.Done? ==> |r.rest| < |text|
    decreases |text|, 0
  {
    var s := SkipWs(text);
    if depth > cap then Failed(TooDeep)
    else if s == [] then Failed(UnexpectedEnd)
    else if s[0] == 'n' then Literal(s, "null", Null)
    else if s[0] == 't' then Literal(s, "true", Bool(true))
    else if s[0] == 'f' then Literal(s, "false", Bool(false))
    else if s[0] == '\"' then
      match StringBody(s[1..])
      case Failed(e) => Failed(e)
      case Done(t, rest) => Done(Str(t), rest)
    else if s[0] == 'N' then Literal(s, "NaN", Num(NaN))
    else if s[0] == 'I' then Literal(s, "Infinity", Num(Inf(false)))
    else if "-Infinity" <= s then Done(Num(Inf(true)), s[|"-Infinity"|..])
    else if s[0] == '[' then
      var inner := SkipWs(s[1..]);
      if StartsWith(inner, ']') then Done(Arr([]), inner[1..]) else ParseItems(inner, depth, cap, [])
    else if s[0] == '{' then
      var inner := SkipWs(s[1..]);
      if StartsWith(inner, '}') then Done(Obj([]), inner[1..]) else ParseFields(inner, depth, cap, [])
    else Number(s)
  }

  /** The rest of an array, from an element on. */
  function ParseItems(s: string, depth: nat, cap: nat, items: seq<Json>): (r: Parsed<Json>)
    ensures r.Done? ==> |r.rest| < |s|
    decreases |s|, 1
  {
    match ParseValue(s, depth + 1, cap)
    case Failed(e) => Failed(e)
    case Done(v, rest) =>
      var rest := SkipWs(rest);
      if StartsWith(rest, ',') then ParseItems(rest[1..], depth, cap, items + [v])
      else if StartsWith(rest, ']') then Done(Arr(items + [v]), rest[1..])
      else Failed(ExpectedItemEnd)
  }

  /** A key, a colon and a value. */
  function ParseField(text: string, depth: nat, cap: nat): (r: Parsed<Field>)
    ensures r.Done? ==> |r.rest| < |text|
    decreases |text|, 1
  {
    var s := SkipWs(text);
    if !StartsWith(s, '\"') then Failed(ExpectedKey)
    else
      match StringBody(s[1..])
      case Failed(e) => Failed(e)
      case Done(key, rest) =>
        var rest := SkipWs(rest);
        if !StartsWith(rest, ':') then Failed(ExpectedColon)
        else
          match ParseValue(rest[1..], depth + 1, cap)
          case Failed(e) => Failed(e)
          case Done(v, rest) => Done(Field(key, v), rest)
  }

  /** The rest of an object, from a field on. */
  function ParseFields(s: string, depth: nat, cap: nat, fields: seq<Field>): (r: Parsed<Json>)
    ensures r.Done? ==> |r.rest| < |s|
    decreases |s|, 2
  {
    match ParseField(s, depth, cap)
    case Failed(e) => Failed(e)
    case Done(f, rest) =>
      var rest := SkipWs(rest);
      var fields := Insert(fields, f);
      if StartsWith(rest, ',') then ParseFields(rest[1..], depth, cap, fields)
      else if StartsWith(rest, '}') then Done(Obj(fields), rest[1..])
      else Failed(ExpectedFieldEnd)
  }

  /** `Json::parse`: one value and nothing but white space after it. */
  function Parse(text: string): Parsed<Json> {
    match ParseValue(text, 0, MAX_DEPTH)
    case Failed(e) => Failed(e)
    case Done(v, rest) => if SkipWs(rest) == [] then Done(v, []) else Failed(TrailingCharacters)
  }
}
