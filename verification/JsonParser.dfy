/** The recursive-descent JSON parser itself: a cursor moved over the text, proved against the parsing functions. */
module JsonParser {
  import opened Floats
  import opened JsonParsing
  import opened JsonValues
  import opened NumberText
  import opened Wrappers

  datatype Outcome<+T> = Ok(value: T) | Err(error: ParseError)

  /** The outcome is what the parsing function says, with the cursor after the value on success. */
  ghost predicate Agrees<T(!new)>(r: Outcome<T>, rest: string, p: Parsed<T>) {
    match p
    case Done(v, end) => r == Ok(v) && rest == end
    case Failed(e) => r == Err(e)
  }

  class Parser {
    const b: string
    var i: nat

    constructor (text: string)
      ensures b == text && i == 0
    {
      b := text;
      i := 0;
    }

    ghost predicate Valid()
      reads this
    {
      i <= |b|
    }

    method Ws()
      requires Valid()
      modifies this
      ensures Valid() && i >= old(i) && b[i..] == SkipWs(b[old(i)..])
    {
      while i < |b| && IsWs(b[i])
        invariant old(i) <= i <= |b|
        invariant SkipWs(b[i..]) == SkipWs(b[old(i)..])
      {
        assert b[i..][1..] == b[i + 1..];
        i := i + 1;
      }
    }

    function Peek(): Option<char>
      requires Valid()
      reads this
    {
      if i < |b| then Some(b[i]) else None
    }

    method ExpectLit(lit: string, v: Json) returns (r: Outcome<Json>)
      requires Valid()
      modifies this
      ensures Valid() && i >= old(i) && Agrees(r, b[i..], Literal(b[old(i)..], lit, v))
    {
      if lit <= b[i..] {
        assert b[i..][|lit|..] == b[i + |lit|..];
        i := i + |lit|;
        r := Ok(v);
      } else {
        r := Err(InvalidLiteral);
      }
    }

    method ReadNumber() returns (r: Outcome<Json>)
      requires Valid()
      modifies this
      ensures Valid() && i >= old(i) && Agrees(r, b[i..], Number(b[old(i)..]))
    {
      hide ReadI64, ReadF64, IsNumberChar;
      var start := i;
      while i < |b| && IsNumberChar(b[i])
        invariant start <= i <= |b|
        invariant NumberSpan(b[start..]) == i - start + NumberSpan(b[i..])
      {
        assert b[i..][1..] == b[i + 1..];
        i := i + 1;
      }
      var t := b[start..i];
      assert t == b[start..][..i - start] && b[start..][i - start..] == b[i..];
      if t == "" {
        return Err(UnexpectedCharacter);
      }
      var n := ReadI64(t);
      if n.Some? {
        return Ok(Int(n.value));
      }
      var x := ReadF64(t);
      if x.Some? {
        return Ok(Num(x.value));
      }
      return Err(InvalidNumber);
    }

    method ReadHex4() returns (r: Outcome<nat>)
      requires Valid()
      modifies this
      ensures Valid() && i >= old(i) && Agrees(r, b[i..], Hex4(b[old(i)..]))
    {
      if i + 4 > |b| {
        return Err(BadEscape);
      }
      var h := b[i..i + 4];
      assert h == b[i..][..4] && h[1..] == b[i..][1..4] && b[i..][4..] == b[i + 4..];
      i := i + 4;
      var n := HexNumber(if h[0] == '+' then h[1..] else h);
      r := if n.Some? then Ok(n.value) else Err(BadEscape);
    }

    method ReadUnicodeEscape() returns (r: Outcome<char>)
      requires Valid()
      modifies this
      ensures Valid() && i >= old(i) && Agrees(r, b[i..], UnicodeEscape(b[old(i)..]))
    {
      var hi := ReadHex4();
      if hi.Err? {
        return Err(hi.error);
      }
      if 0xD800 <= hi.value < 0xDC00 && "\\u" <= b[i..] {
        assert b[i..][2..] == b[i + 2..];
        i := i + 2;
        var lo := ReadHex4();
        if lo.Err? {
          return Err(lo.error);
        }
        return Ok(CharOf(0x1_0000 + (hi.value - 0xD800) * 0x400 + lo.value % 0x400));
      }
      return Ok(CharOf(hi.value));
    }

    method ReadEscape() returns (r: Outcome<char>)
      requires Valid()
      modifies this
      ensures Valid() && i >= old(i) && Agrees(r, b[i..], Escape(b[old(i)..]))
    {
      if i == |b| {
        return Err(BadEscape);
      }
      var e := b[i];
      assert b[i..][1..] == b[i + 1..];
      i := i + 1;
      match e
      case 'n' => r := Ok('\n');
      case 't' => r := Ok('\t');
      case 'r' => r := Ok('\r');
      case 'b' => r := Ok('\U{8}');
      case 'f' => r := Ok('\U{C}');
      case '/' => r := Ok('/');
      case '\\' => r := Ok('\\');
      case '\"' => r := Ok('\"');
      case 'u' => r := ReadUnicodeEscape();
      case _ => r := Err(BadEscape);
    }

    /** The run of characters up to the next quote or backslash. */
    method PlainRun() returns (run: string)
      requires Valid()
      modifies this
      ensures Valid() && i >= old(i) && (i == |b| || b[i] == '\"' || b[i] == '\\')
      ensures StringBody(b[old(i)..]) == Prepend(run, StringBody(b[i..]))
    {
      hide Escape;
      var start := i;
      ghost var body := StringBody(b[i..]);
      PrependNothing(body);
      assert b[start..i] == "";
      while i < |b| && b[i] != '\"' && b[i] != '\\'
        invariant start <= i <= |b|
        invariant body == Prepend(b[start..i], StringBody(b[i..]))
      {
        assert b[i..][1..] == b[i + 1..];
        assert b[start..i] + [b[i]] == b[start..i + 1];
        PrependTwice(b[start..i], [b[i]], StringBody(b[i + 1..]));
        i := i + 1;
      }
      run := b[start..i];
    }

    /** Called with the cursor on the opening quote. */
    method ReadString() returns (r: Outcome<string>)
      requires Valid() && i < |b|
      modifies this
      ensures Valid() && i > old(i) && Agrees(r, b[i..], StringBody(b[old(i) + 1..]))
    {
      hide Escape;
      i := i + 1;
      ghost var body := StringBody(b[i..]);
      var out := "";
      PrependNothing(body);
      while true
        invariant old(i) < i <= |b|
        invariant body == Prepend(out, StringBody(b[i..]))
        decreases |b| - i
      {
        var run := PlainRun();
        PrependTwice(out, run, StringBody(b[i..]));
        out := out + run;
        if i == |b| {
          return Err(UnterminatedString);
        }
        assert b[i..][1..] == b[i + 1..];
        if b[i] == '\"' {
          assert out + "" == out;
          i := i + 1;
          return Ok(out);
        }
        i := i + 1;
        var c := ReadEscape();
        if c.Err? {
          return Err(c.error);
        }
        PrependTwice(out, [c.value], StringBody(b[i..]));
        out := out + [c.value];
      }
    }

    method Value(depth: nat) returns (r: Outcome<Json>)
      requires Valid()
      modifies this
      ensures Valid() && i >= old(i) && Agrees(r, b[i..], ParseValue(b[old(i)..], depth, MAX_DEPTH))
      decreases |b| - i, 1
    {
      hide StringBody, Number, ParseItems, ParseFields, SkipWs;
      if depth > MAX_DEPTH {
        return Err(TooDeep);
      }
      Ws();
      match Peek()
      case None => r := Err(UnexpectedEnd);
      case Some('n') => r := ExpectLit("null", Null);
      case Some('t') => r := ExpectLit("true", Bool(true));
      case Some('f') => r := ExpectLit("false", Bool(false));
      case Some('\"') =>
        assert b[i..][1..] == b[i + 1..];
        var s := ReadString();
        r := if s.Ok? then Ok(Str(s.value)) else Err(s.error);
      case Some('N') => r := ExpectLit("NaN", Num(NaN));
      case Some('I') => r := ExpectLit("Infinity", Num(Inf(false)));
      case Some('[') =>
        assert b[i..][1..] == b[i + 1..];
        i := i + 1;
        r := Array(depth);
      case Some('{') =>
        assert b[i..][1..] == b[i + 1..];
        i := i + 1;
        r := Object(depth);
      case Some(_) =>
        if "-Infinity" <= b[i..] {
          r := ExpectLit("-Infinity", Num(Inf(true)));
        } else {
          r := ReadNumber();
        }
    }

    /** The loop over an array, after its opening bracket. */
    method Array(depth: nat) returns (r: Outcome<Json>)
      requires Valid()
      modifies this
      ensures Valid() && i >= old(i)
      ensures var inner := SkipWs(b[old(i)..]);
              Agrees(r, b[i..],
                     if StartsWith(inner, ']') then Done(Arr([]), inner[1..])
                     else ParseItems(inner, depth, MAX_DEPTH, []))
      decreases |b| - i, 2
    {
      hide ParseValue, ParseItems, SkipWs;
      Ws();
      if Peek() == Some(']') {
        assert b[i..][1..] == b[i + 1..];
        i := i + 1;
        return Ok(Arr([]));
      }
      var v := [];
      ghost var all := ParseItems(b[i..], depth, MAX_DEPTH, v);
      while true
        invariant old(i) <= i <= |b|
        invariant all == ParseItems(b[i..], depth, MAX_DEPTH, v)
        decreases |b| - i
      {
        ghost var s := b[i..];
        var x := Value(depth + 1);
        if x.Err? {
          ItemTurn(s, depth, v, "");
          return Err(x.error);
        }
        Ws();
        ItemTurn(s, depth, v, b[i..]);
        v := v + [x.value];
        if i < |b| {
          assert b[i..][1..] == b[i + 1..];
        }
        if Peek() == Some(',') {
          i := i + 1;
        } else if Peek() == Some(']') {
          i := i + 1;
          return Ok(Arr(v));
        } else {
          return Err(ExpectedItemEnd);
        }
      }
    }

    /** A key, a colon and a value. */
    method ReadField(depth: nat) returns (r: Outcome<Field>)
      requires Valid()
      modifies this
      ensures Valid() && i >= old(i) && Agrees(r, b[i..], ParseField(b[old(i)..], depth, MAX_DEPTH))
      decreases |b| - i, 2
    {
      hide ParseValue, SkipWs, StringBody;
      Ws();
      if Peek() != Some('\"') {
        return Err(ExpectedKey);
      }
      assert b[i..][1..] == b[i + 1..];
      var key := ReadString();
      if key.Err? {
        return Err(key.error);
      }
      Ws();
      if Peek() != Some(':') {
        return Err(ExpectedColon);
      }
      assert b[i..][1..] == b[i + 1..];
      i := i + 1;
      var x := Value(depth + 1);
      r := if x.Ok? then Ok(Field(key.value, x.value)) else Err(x.error);
    }

    /** The loop over an object, after its opening brace. */
    method Object(depth: nat) returns (r: Outcome<Json>)
      requires Valid()
      modifies this
      ensures Valid() && i >= old(i)
      ensures var inner := SkipWs(b[old(i)..]);
              Agrees(r, b[i..],
                     if StartsWith(inner, '}') then Done(Obj([]), inner[1..])
                     else ParseFields(inner, depth, MAX_DEPTH, []))
      decreases |b| - i, 3
    {
      hide ParseField, ParseFields, SkipWs, Insert;
      Ws();
      if Peek() == Some('}') {
        assert b[i..][1..] == b[i + 1..];
        i := i + 1;
        return Ok(Obj([]));
      }
      var m := [];
      ghost var all := ParseFields(b[i..], depth, MAX_DEPTH, m);
      while true
        invariant old(i) <= i <= |b|
        invariant all == ParseFields(b[i..], depth, MAX_DEPTH, m)
        decreases |b| - i
      {
        ghost var s := b[i..];
        var f := ReadField(depth);
        if f.Err? {
          FieldTurn(s, depth, m, "");
          return Err(f.error);
        }
        Ws();
        FieldTurn(s, depth, m, b[i..]);
        m := Insert(m, f.value);
        if i < |b| {
          assert b[i..][1..] == b[i + 1..];
        }
        if Peek() == Some(',') {
          i := i + 1;
        } else if Peek() == Some('}') {
          i := i + 1;
          return Ok(Obj(m));
        } else {
          return Err(ExpectedFieldEnd);
        }
      }
    }
  }

  lemma PrependTwice(a: string, b: string, r: Parsed<string>)
    ensures Prepend(a, Prepend(b, r)) == Prepend(a + b, r)
  {
    if r.Done? {
      assert a + (b + r.value) == a + b + r.value;
    }
  }

  lemma PrependNothing(r: Parsed<string>)
    ensures Prepend("", r) == r
  {
    if r.Done? {
      assert "" + r.value == r.value;
    }
  }

  /** One turn of the loop over an array's elements. */
  lemma ItemTurn(s: string, depth: nat, items: seq<Json>, t: string)
    requires var x := ParseValue(s, depth + 1, MAX_DEPTH); x.Done? ==> t == SkipWs(x.rest)
    ensures var x := ParseValue(s, depth + 1, MAX_DEPTH);
            ParseItems(s, depth, MAX_DEPTH, items) ==
            if x.Failed? then Failed(x.error)
            else if StartsWith(t, ',') then ParseItems(t[1..], depth, MAX_DEPTH, items + [x.value])
            else if StartsWith(t, ']') then Done(Arr(items + [x.value]), t[1..])
            else Failed(ExpectedItemEnd)
  {
    hide ParseValue, SkipWs;
  }

  /** One turn of the loop over an object's fields. */
  lemma FieldTurn(s: string, depth: nat, fields: seq<Field>, t: string)
    requires var f := ParseField(s, depth, MAX_DEPTH); f.Done? ==> t == SkipWs(f.rest)
    ensures var f := ParseField(s, depth, MAX_DEPTH);
            ParseFields(s, depth, MAX_DEPTH, fields) ==
            if f.Failed? then Failed(f.error)
            else if StartsWith(t, ',') then ParseFields(t[1..], depth, MAX_DEPTH, Insert(fields, f.value))
            else if StartsWith(t, '}') then Done(Obj(Insert(fields, f.value)), t[1..])
            else Failed(ExpectedFieldEnd)
  {
    hide ParseField, SkipWs, Insert;
  }

  /** `Json::parse`. */
  method ParseText(text: string) returns (r: Outcome<Json>)
    ensures Agrees(r, [], Parse(text))
  {
    var p := new Parser(text);
    assert p.b[p.i..] == text;
    r := p.Value(0);
    if r.Ok? {
      p.Ws();
      if p.i != |text| {
        r := Err(TrailingCharacters);
      }
    }
  }
}
