/**
  * The texts the JSON parser takes, as syntax trees with all their white space: what a tree spells, what it
  * means, and which trees are well formed.
  */
module JsonGrammar {
  import opened Arithmetic
  import opened Floats
  import opened JsonParsing
  import opened JsonValues
  import opened NumberText
  import opened Wrappers

  /** One character of a string, as it is written. */
  datatype Piece =
    | Plain(c: char)
    | Named(letter: char)
    | Code(hex: string)
    | Pair(hi: string, lo: string)

  datatype Syntax =
    | Word(text: string, value: Json)
    | Numeral(text: string)
    | Quoted(body: seq<Piece>)
    | List(inner: string, parts: seq<Part>)          // `inner`: what stands between the brackets of an empty list
    | Object(inner: string, members: seq<Member>)

  datatype Part = Part(before: string, value: Syntax, after: string)

  datatype Member = Member(before: string, key: seq<Piece>, colon: string, part: Part)

  // ----- strings -----

  function PieceText(p: Piece): (t: string)
    ensures t != []
  {
    match p
    case Plain(c) => [c]
    case Named(letter) => "\\" + [letter]
    case Code(hex) => "\\u" + hex
    case Pair(hi, lo) => "\\u" + (hi + ("\\u" + lo))
  }

  function Body(ps: seq<Piece>): string {
    if ps == [] then [] else PieceText(ps[0]) + Body(ps[1..])
  }

  /** What stands for a letter after a backslash. */
  function NameMeans(letter: char): Option<char> {
    match letter
    case 'n' => Some('\n')
    case 't' => Some('\t')
    case 'r' => Some('\r')
    case 'b' => Some('\U{8}')
    case 'f' => Some('\U{C}')
    case '/' => Some('/')
    case '\\' => Some('\\')
    case '\"' => Some('\"')
    case _ => None
  }

  /** Four hexadecimal digits, of which a plus sign may be the first. */
  predicate IsHex(h: string) {
    |h| == 4 && Hex4(h).Done?
  }

  function HexMeans(h: string): nat
    requires IsHex(h)
  {
    Hex4(h).value
  }

  predicate IsHigh(n: nat) {
    0xD800 <= n < 0xDC00
  }

  predicate PieceOk(p: Piece) {
    match p
    case Plain(c) => c != '\"' && c != '\\'
    case Named(letter) => NameMeans(letter).Some?
    case Code(hex) => IsHex(hex)
    case Pair(hi, lo) => IsHex(hi) && IsHigh(HexMeans(hi)) && IsHex(lo)
  }

  function PieceMeans(p: Piece): char
    requires PieceOk(p)
  {
    match p
    case Plain(c) => c
    case Named(letter) => NameMeans(letter).value
    case Code(hex) => CharOf(HexMeans(hex))
    case Pair(hi, lo) => CharOf(0x1_0000 + (HexMeans(hi) - 0xD800) * 0x400 + HexMeans(lo) % 0x400)
  }

  /** The first half of a pair stands alone only where no other code follows. */
  predicate StandsAlone(p: Piece, rest: string) {
    p.Code? && IsHex(p.hex) && IsHigh(HexMeans(p.hex)) ==> !("\\u" <= rest)
  }

  predicate BodyOk(ps: seq<Piece>) {
    ps != [] ==> PieceOk(ps[0]) && StandsAlone(ps[0], Body(ps[1..]) + "\"") && BodyOk(ps[1..])
  }

  function BodyMeans(ps: seq<Piece>): string
    requires BodyOk(ps)
  {
    if ps == [] then [] else [PieceMeans(ps[0])] + BodyMeans(ps[1..])
  }

  // ----- values -----

  predicate Blank(t: string) {
    forall i :: 0 <= i < |t| ==> t[i] == ' ' || t[i] == '\t' || t[i] == '\n' || t[i] == '\r'
  }

  function TextOf(t: Syntax): string {
    match t
    case Word(text, _) => text
    case Numeral(text) => text
    case Quoted(body) => "\"" + (Body(body) + "\"")
    case List(inner, parts) => "[" + ((if parts == [] then inner else PartsText(parts)) + "]")
    case Object(inner, members) => "{" + ((if members == [] then inner else MembersText(members)) + "}")
  }

  function PartText(p: Part): string {
    p.before + (TextOf(p.value) + p.after)
  }

  function PartsText(parts: seq<Part>): string
    requires parts != []
  {
    if |parts| == 1 then PartText(parts[0]) else PartText(parts[0]) + ("," + PartsText(parts[1..]))
  }

  function MemberText(m: Member): string {
    m.before + ("\"" + (Body(m.key) + ("\"" + (m.colon + (":" + PartText(m.part))))))
  }

  function MembersText(members: seq<Member>): string
    requires members != []
  {
    if |members| == 1 then MemberText(members[0]) else MemberText(members[0]) + ("," + MembersText(members[1..]))
  }

  predicate WordOk(text: string, value: Json) {
    || (text == "null" && value == Null)
    || (text == "true" && value == Bool(true))
    || (text == "false" && value == Bool(false))
    || (text == "NaN" && value == Num(NaN))
    || (text == "Infinity" && value == Num(Inf(false)))
    || (text == "-Infinity" && value == Num(Inf(true)))
  }

  /** A run of number characters that Rust reads as an i64, or else as an f64. */
  predicate NumeralOk(text: string) {
    text != [] && NumberChars(text) && (ReadI64(text).Some? || ReadF64(text).Some?)
  }

  predicate Spaced(p: Part) {
    Blank(p.before) && Blank(p.after)
  }

  predicate KeyOk(m: Member) {
    Blank(m.before) && BodyOk(m.key) && Blank(m.colon) && Spaced(m.part)
  }

  predicate Ok(t: Syntax) {
    match t
    case Word(text, value) => WordOk(text, value)
    case Numeral(text) => NumeralOk(text)
    case Quoted(body) => BodyOk(body)
    case List(inner, parts) => Blank(inner) && forall i :: 0 <= i < |parts| ==> Spaced(parts[i]) && Ok(parts[i].value)
    case Object(inner, members) =>
      Blank(inner) && forall i :: 0 <= i < |members| ==> KeyOk(members[i]) && Ok(members[i].part.value)
  }

  predicate PartsOk(parts: seq<Part>) {
    forall i :: 0 <= i < |parts| ==> Spaced(parts[i]) && Ok(parts[i].value)
  }

  predicate MembersOk(members: seq<Member>) {
    forall i :: 0 <= i < |members| ==> KeyOk(members[i]) && Ok(members[i].part.value)
  }

  function Means(t: Syntax): Json
    requires Ok(t)
  {
    match t
    case Word(_, value) => value
    case Numeral(text) => if ReadI64(text).Some? then Int(ReadI64(text).value) else Num(ReadF64(text).value)
    case Quoted(body) => Str(BodyMeans(body))
    case List(_, parts) => Arr(PartsMean(parts))
    case Object(_, members) => Obj(SortFields(MembersMean(members)))
  }

  function PartsMean(parts: seq<Part>): (r: seq<Json>)
    requires PartsOk(parts)
    ensures |r| == |parts|
  {
    if parts == [] then [] else [Means(parts[0].value)] + PartsMean(parts[1..])
  }

  function MemberMeans(m: Member): Field
    requires KeyOk(m) && Ok(m.part.value)
  {
    Field(BodyMeans(m.key), Means(m.part.value))
  }

  function MembersMean(members: seq<Member>): (r: seq<Field>)
    requires MembersOk(members)
    ensures |r| == |members|
  {
    if members == [] then [] else [MemberMeans(members[0])] + MembersMean(members[1..])
  }

  /** How deep the tree nests; a list or an object with nothing in it does not. */
  function Nesting(t: Syntax): nat {
    match t
    case List(_, parts) => if parts == [] then 0 else 1 + PartsNesting(parts)
    case Object(_, members) => if members == [] then 0 else 1 + MembersNesting(members)
    case _ => 0
  }

  function PartsNesting(parts: seq<Part>): nat {
    if parts == [] then 0 else Max(Nesting(parts[0].value), PartsNesting(parts[1..]))
  }

  function MembersNesting(members: seq<Member>): nat {
    if members == [] then 0 else Max(Nesting(members[0].part.value), MembersNesting(members[1..]))
  }
}
