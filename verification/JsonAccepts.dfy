/** The JSON parser takes exactly the texts of the grammar that nest within its cap, and reads what they mean. */
module JsonAccepts {
  import opened Arithmetic
  import opened JsonGrammar
  import opened JsonParsing
  import opened JsonRoundTrip
  import opened JsonValues
  import opened NumberText

  // ----- white space -----

  lemma {:induction false} BlankSkipped(w: string, text: string)
    requires Blank(w)
    ensures SkipWs(w + text) == SkipWs(text)
  {
    if w == [] {
      assert w + text == text;
    } else {
      assert (w + text)[1..] == w[1..] + text;
      BlankSkipped(w[1..], text);
    }
  }

  lemma {:induction false} SkippedIsBlank(t: string)
    ensures SkipWs(t) == [] <==> Blank(t)
  {
    if t != [] {
      SkippedIsBlank(t[1..]);
      if Blank(t[1..]) && IsWs(t[0]) {
        forall i | 0 < i < |t| ensures IsWs(t[i]) { assert t[i] == t[1..][i - 1]; }
      }
    }
  }

  /** What is skipped is white space, up to the first other character. */
  lemma {:induction false} Skipped(t: string) returns (w: string)
    ensures Blank(w) && t == w + SkipWs(t)
    ensures SkipWs(t) != [] ==> !IsWs(SkipWs(t)[0])
    ensures SkipWs(SkipWs(t)) == SkipWs(t)
  {
    if t != [] && IsWs(t[0]) {
      w := Skipped(t[1..]);
      w := [t[0]] + w;
    } else {
      w := [];
    }
  }

  lemma BlankBefore(w: string, text: string, depth: nat, cap: nat)
    requires Blank(w)
    ensures ParseValue(w + text, depth, cap) == ParseValue(text, depth, cap)
  {
    hide Literal, Number, ParseItems, ParseFields, StringBody;
    BlankSkipped(w, text);
  }

  // ----- strings -----

  /** Only the first four characters matter. */
  lemma HexPrefix(s: string)
    requires |s| >= 4
    ensures Hex4(s).Done? <==> IsHex(s[..4])
    ensures IsHex(s[..4]) ==> Hex4(s) == Done(HexMeans(s[..4]), s[4..])
  {
    hide HexNumber;
    assert s[..4][..4] == s[..4] && s[..4][1..4] == s[1..4];
  }

  lemma EscapeSound(s: string) returns (p: Piece)
    requires Escape(s).Done?
    ensures PieceOk(p) && "\\" + s == PieceText(p) + Escape(s).rest
    ensures PieceMeans(p) == Escape(s).value && StandsAlone(p, Escape(s).rest)
  {
    hide Escape, UnicodeEscape, PieceOk, PieceText, PieceMeans, StandsAlone;
    EscapeIsSome(s);
    if s[0] == 'u' {
      EscapeOfCode(s[1..]);
      assert s == "u" + s[1..] && "\\" + s == "\\u" + s[1..];
      p := CodeSound(s[1..]);
    } else {
      p := NamedSound(s);
    }
  }

  lemma EscapeIsSome(s: string)
    requires Escape(s).Done?
    ensures s != []
  {
  }

  lemma NamedSound(s: string) returns (p: Piece)
    requires Escape(s).Done? && s[0] != 'u'
    ensures PieceOk(p) && "\\" + s == PieceText(p) + Escape(s).rest
    ensures PieceMeans(p) == Escape(s).value && StandsAlone(p, Escape(s).rest)
  {
    hide UnicodeEscape;
    p := Named(s[0]);
    assert "\\" + s == "\\" + [s[0]] + s[1..];
  }

  lemma CodeSound(s: string) returns (p: Piece)
    requires UnicodeEscape(s).Done?
    ensures PieceOk(p) && "\\u" + s == PieceText(p) + UnicodeEscape(s).rest
    ensures PieceMeans(p) == UnicodeEscape(s).value && StandsAlone(p, UnicodeEscape(s).rest)
  {
    hide Hex4, CharOf, HexMeans, IsHex;
    var hex := s[..4];
    HexPrefix(s);
    var rest := s[4..];
    assert s == hex + rest;
    if IsHigh(HexMeans(hex)) && "\\u" <= rest {
      HexPrefix(rest[2..]);
      var lo := rest[2..][..4];
      p := Pair(hex, lo);
      assert rest == "\\u" + (lo + rest[2..][4..]);
      PairSplits(hex, lo, rest[2..][4..]);
    } else {
      p := Code(hex);
      Assoc("\\u", hex, rest);
    }
  }

  lemma PairSplits(hex: string, lo: string, rest: string)
    ensures "\\u" + (hex + ("\\u" + (lo + rest))) == "\\u" + (hex + ("\\u" + lo)) + rest
  {
    Assoc("\\u", lo, rest);
    Assoc(hex, "\\u" + lo, rest);
    Assoc("\\u", hex + ("\\u" + lo), rest);
  }

  /** The first character of a string's body, and the rest of it. */
  lemma FirstPiece(s: string) returns (p: Piece, rest: string)
    requires StringBody(s).Done? && s[0] != '\"'
    ensures PieceOk(p) && StandsAlone(p, rest) && s == PieceText(p) + rest && |rest| < |s|
    ensures StringBody(rest).Done? && StringBody(s) == Prepend([PieceMeans(p)], StringBody(rest))
  {
    hide Escape, PieceOk, PieceText, PieceMeans, StandsAlone;
    if s[0] == '\\' {
      p := EscapeSound(s[1..]);
      rest := Escape(s[1..]).rest;
      assert s == "\\" + s[1..];
    } else {
      p, rest := Plain(s[0]), s[1..];
      PlainPiece(s[0], rest);
      assert s == [s[0]] + rest;
    }
  }

  lemma {:induction false} StringSound(s: string) returns (ps: seq<Piece>)
    requires StringBody(s).Done?
    ensures BodyOk(ps) && s == Body(ps) + ("\"" + StringBody(s).rest) && BodyMeans(ps) == StringBody(s).value
    decreases |s|
  {
    if s[0] == '\"' {
      ps := [];
      assert s == "\"" + s[1..];
    } else {
      var p, rest := FirstPiece(s);
      hide StringBody, PieceOk, PieceText, PieceMeans, StandsAlone, BodyOk, Body, BodyMeans;
      var more := StringSound(rest);
      ps := [p] + more;
      var end := StringBody(rest).rest;
      Assoc(Body(more), "\"", end);
      AloneShorter(p, Body(more) + "\"", end);
      BodyFirst(p, more);
      Assoc(PieceText(p), Body(more), "\"" + end);
    }
  }

  lemma PlainPiece(c: char, rest: string)
    requires c != '\"' && c != '\\'
    ensures var p := Plain(c); PieceOk(p) && PieceText(p) == [c] && PieceMeans(p) == c && StandsAlone(p, rest)
  {
  }

  lemma BodyFirst(p: Piece, more: seq<Piece>)
    requires PieceOk(p) && StandsAlone(p, Body(more) + "\"") && BodyOk(more)
    ensures var ps := [p] + more;
            BodyOk(ps) && Body(ps) == PieceText(p) + Body(more) && BodyMeans(ps) == [PieceMeans(p)] + BodyMeans(more)
  {
    assert ([p] + more)[1..] == more;
  }

  lemma AloneShorter(p: Piece, a: string, b: string)
    requires StandsAlone(p, a + b)
    ensures StandsAlone(p, a)
  {
    assert "\\u" <= a ==> "\\u" <= a + b;
  }

  lemma AloneLonger(p: Piece, a: string, b: string)
    requires StandsAlone(p, a + "\"")
    ensures StandsAlone(p, a + ("\"" + b))
  {
    if "\\u" <= a + ("\"" + b) {
      assert (a + ("\"" + b))[0] == '\\' && (a + ("\"" + b))[1] == 'u';
      assert |a| > 0 && (a + "\"")[0] == '\\';
      assert |a| > 1 && (a + "\"")[1] == 'u';
    }
  }

  lemma PieceRead(p: Piece, tail: string)
    requires PieceOk(p) && StandsAlone(p, tail)
    ensures StringBody(PieceText(p) + tail) == Prepend([PieceMeans(p)], StringBody(tail))
  {
    hide StringBody, UnicodeEscape, HexMeans, IsHex, CharOf, Escape;
    match p {
      case Plain(c) => PlainRead(c, tail);
      case Named(letter) =>
        EscapeStart([letter], tail);
        NameRead(letter, tail);
      case Code(hex) =>
        EscapeStart("u" + hex, tail);
        assert "\\u" + hex + tail == "\\" + ("u" + hex) + tail;
        assert "u" + hex + tail == "u" + (hex + tail);
        EscapeOfCode(hex + tail);
        CodeIsRead(hex, tail);
      case Pair(hi, lo) =>
        var codes := hi + ("\\u" + lo);
        EscapeStart("u" + codes, tail);
        assert "\\u" + codes + tail == "\\" + ("u" + codes) + tail;
        assert "u" + codes + tail == "u" + (codes + tail);
        EscapeOfCode(codes + tail);
        PairIsRead(hi, lo, tail);
    }
  }

  lemma PlainRead(c: char, tail: string)
    requires c != '\"' && c != '\\'
    ensures StringBody([c] + tail) == Prepend([c], StringBody(tail))
  {
    assert ([c] + tail)[1..] == tail;
  }

  lemma NameRead(letter: char, tail: string)
    requires NameMeans(letter).Some?
    ensures Escape([letter] + tail) == Done(NameMeans(letter).value, tail)
  {
    hide UnicodeEscape;
    assert ([letter] + tail)[1..] == tail;
  }

  lemma EscapeOfCode(rest: string)
    ensures Escape("u" + rest) == UnicodeEscape(rest)
  {
    hide UnicodeEscape;
    assert ("u" + rest)[1..] == rest;
  }

  lemma CodeIsRead(hex: string, tail: string)
    requires IsHex(hex) && (IsHigh(HexMeans(hex)) ==> !("\\u" <= tail))
    ensures UnicodeEscape(hex + tail) == Done(CharOf(HexMeans(hex)), tail)
  {
    hide Hex4, CharOf;
    HexPrefix(hex + tail);
    assert (hex + tail)[..4] == hex && (hex + tail)[4..] == tail;
  }

  lemma PairIsRead(hi: string, lo: string, tail: string)
    requires IsHex(hi) && IsHigh(HexMeans(hi)) && IsHex(lo)
    ensures UnicodeEscape(hi + ("\\u" + lo) + tail) ==
            Done(CharOf(0x1_0000 + (HexMeans(hi) - 0xD800) * 0x400 + HexMeans(lo) % 0x400), tail)
  {
    hide Hex4, CharOf;
    var second := "\\u" + (lo + tail);
    var s := hi + second;
    assert hi + ("\\u" + lo) + tail == s;
    HexPrefix(s);
    assert s[..4] == hi && s[4..] == second;
    HexPrefix(lo + tail);
    assert second[2..] == lo + tail && (lo + tail)[..4] == lo && (lo + tail)[4..] == tail;
  }

  lemma {:induction false} StringComplete(ps: seq<Piece>, rest: string)
    requires BodyOk(ps)
    ensures StringBody(Body(ps) + ("\"" + rest)) == Done(BodyMeans(ps), rest)
  {
    if ps == [] {
      StringEnd(rest);
      assert Body(ps) + ("\"" + rest) == "\"" + rest;
    } else {
      hide StringBody, PieceText, PieceMeans, PieceOk, StandsAlone;
      var tail := Body(ps[1..]) + ("\"" + rest);
      StringComplete(ps[1..], rest);
      AloneLonger(ps[0], Body(ps[1..]), rest);
      PieceRead(ps[0], tail);
      Assoc(PieceText(ps[0]), Body(ps[1..]), "\"" + rest);
    }
  }

  // ----- numbers -----

  lemma {:induction false} SpanSound(s: string)
    ensures var n := NumberSpan(s); NumberChars(s[..n]) && Delimited(s[n..])
  {
    if s != [] && IsNumberChar(s[0]) {
      SpanSound(s[1..]);
      var n := NumberSpan(s);
      assert s[..n] == [s[0]] + s[1..][..n - 1] && s[n..] == s[1..][n - 1..];
    }
  }

  lemma NumeralComplete(text: string, rest: string, depth: nat, cap: nat)
    requires NumeralOk(text) && Delimited(rest) && depth <= cap
    ensures ParseValue(text + rest, depth, cap) == Done(Means(Numeral(text)), rest)
  {
    hide ReadI64, ReadF64;
    SpanOfNumber(text, rest);
    assert (text + rest)[..|text|] == text && (text + rest)[|text|..] == rest;
    MoreThanSign(text);
    NumeralStart(text + rest, depth, cap);
  }

  lemma MoreThanSign(text: string)
    requires NumeralOk(text)
    ensures text[0] == '-' ==> |text| > 1
  {
    hide ReadI64, ReadF64;
    assert text[0] == '-' && |text| == 1 ==> text == "-";
    SignAlone();
  }

  lemma SignAlone()
    ensures ReadI64("-").None? && ReadF64("-").None?
  {
    assert Unsigned("-") == [];
  }

  lemma NumberCharOnly(c: char)
    requires IsNumberChar(c)
    ensures !IsWs(c) && c != 'n' && c != 't' && c != 'f' && c != 'N' && c != 'I'
    ensures c != '\"' && c != '[' && c != '{'
  {
  }

  lemma NumeralStart(s: string, depth: nat, cap: nat)
    requires s != [] && IsNumberChar(s[0]) && depth <= cap && (s[0] == '-' ==> |s| > 1 && s[1] != 'I')
    ensures ParseValue(s, depth, cap) == Number(s)
  {
    NumberCharOnly(s[0]);
    hide Number, Literal, ParseItems, ParseFields, StringBody, IsNumberChar;
    assert SkipWs(s) == s;
    assert s[0] == '-' ==> s[1] != "-Infinity"[1];
  }

  // ----- what is accepted is in the grammar -----

  /** After a numeral no other number character may follow. */
  predicate Ends(t: Syntax, rest: string) {
    t.Numeral? ==> Delimited(rest)
  }

  predicate StartsWord(s: string) {
    s != [] && (s[0] == 'n' || s[0] == 't' || s[0] == 'f' || s[0] == 'N' || s[0] == 'I' || "-Infinity" <= s)
  }

  lemma WordCases(s: string, depth: nat, cap: nat) returns (text: string, value: Json)
    requires StartsWord(s) && SkipWs(s) == s && ParseValue(s, depth, cap).Done?
    ensures WordOk(text, value) && text <= s && ParseValue(s, depth, cap) == Done(value, s[|text|..])
  {
    hide Number, ParseItems, ParseFields, StringBody;
    text, value := match s[0] {
      case 'n' => "null"
      case 't' => "true"
      case 'f' => "false"
      case 'N' => "NaN"
      case 'I' => "Infinity"
      case _ => "-Infinity"
    }, ParseValue(s, depth, cap).value;
  }

  lemma WordSound(s: string, depth: nat, cap: nat) returns (t: Syntax)
    requires StartsWord(s) && SkipWs(s) == s && ParseValue(s, depth, cap).Done?
    ensures Ok(t) && !t.Numeral? && Nesting(t) == 0 && s == TextOf(t) + ParseValue(s, depth, cap).rest
    ensures Means(t) == ParseValue(s, depth, cap).value
  {
    hide ParseValue, WordOk;
    var text, value := WordCases(s, depth, cap);
    t := Word(text, value);
    assert s == text + s[|text|..];
  }

  lemma QuotedSound(s: string, depth: nat, cap: nat) returns (t: Syntax)
    requires s != [] && s[0] == '\"' && SkipWs(s) == s && ParseValue(s, depth, cap).Done?
    ensures Ok(t) && !t.Numeral? && Nesting(t) == 0 && s == TextOf(t) + ParseValue(s, depth, cap).rest
    ensures Means(t) == ParseValue(s, depth, cap).value
  {
    hide StringBody, Body, BodyOk, BodyMeans;
    var ps := StringSound(s[1..]);
    t := Quoted(ps);
    var rest := StringBody(s[1..]).rest;
    Assoc("\"", Body(ps) + "\"", rest);
    Assoc(Body(ps), "\"", rest);
    assert s == "\"" + s[1..];
  }

  lemma NumeralSound(s: string, depth: nat, cap: nat) returns (t: Syntax)
    requires s != [] && SkipWs(s) == s && ParseValue(s, depth, cap).Done?
    requires !StartsWord(s) && s[0] != '\"' && s[0] != '[' && s[0] != '{'
    ensures Ok(t) && Nesting(t) == 0 && s == TextOf(t) + ParseValue(s, depth, cap).rest
    ensures Means(t) == ParseValue(s, depth, cap).value && Ends(t, ParseValue(s, depth, cap).rest)
  {
    hide ReadI64, ReadF64, NumberSpan;
    SpanSound(s);
    var n := NumberSpan(s);
    t := Numeral(s[..n]);
    assert s == s[..n] + s[n..];
  }

  lemma {:induction false} ValueSound(text: string, depth: nat, cap: nat) returns (w: string, t: Syntax)
    requires ParseValue(text, depth, cap).Done?
    ensures Blank(w) && Ok(t) && text == w + (TextOf(t) + ParseValue(text, depth, cap).rest)
    ensures Means(t) == ParseValue(text, depth, cap).value && depth + Nesting(t) <= cap
    ensures Ends(t, ParseValue(text, depth, cap).rest)
    decreases |text|, 4
  {
    w := Skipped(text);
    var s := SkipWs(text);
    BlankBefore(w, s, depth, cap);
    DoneMeans(s, depth, cap);
    hide ParseValue;
    if s[0] == '[' {
      t := ListSound(s, depth, cap);
    } else if s[0] == '{' {
      t := ObjectSound(s, depth, cap);
    } else if s[0] == '\"' {
      t := QuotedSound(s, depth, cap);
    } else if StartsWord(s) {
      t := WordSound(s, depth, cap);
    } else {
      t := NumeralSound(s, depth, cap);
    }
  }

  lemma DoneMeans(s: string, depth: nat, cap: nat)
    requires ParseValue(s, depth, cap).Done? && SkipWs(s) == s
    ensures depth <= cap && s != []
  {
    hide Literal, Number, ParseItems, ParseFields, StringBody;
  }

  lemma ListCases(s: string, depth: nat, cap: nat)
    requires s != [] && s[0] == '[' && SkipWs(s) == s && depth <= cap
    ensures var inner := SkipWs(s[1..]);
            ParseValue(s, depth, cap) ==
            if StartsWith(inner, ']') then Done(Arr([]), inner[1..]) else ParseItems(inner, depth, cap, [])
  {
    hide ParseItems;
  }

  lemma {:induction false} ListSound(s: string, depth: nat, cap: nat) returns (t: Syntax)
    requires s != [] && s[0] == '[' && SkipWs(s) == s && depth <= cap && ParseValue(s, depth, cap).Done?
    ensures Ok(t) && !t.Numeral? && s == TextOf(t) + ParseValue(s, depth, cap).rest
    ensures Means(t) == ParseValue(s, depth, cap).value && depth + Nesting(t) <= cap
    decreases |s|, 3
  {
    hide ParseValue, ParseItems, PartsText, PartsMean, PartsNesting, TextOf, Ok, Means, Nesting, Blank;
    ListCases(s, depth, cap);
    var w := Skipped(s[1..]);
    var inner := SkipWs(s[1..]);
    assert s == "[" + (w + inner);
    if StartsWith(inner, ']') {
      t := List(w, []);
      assert inner == "]" + inner[1..];
      EmptyTrees(w, inner[1..]);
    } else {
      var parts := ItemsSound(inner, depth, cap, []);
      t := ListTree(w, parts, ParseValue(s, depth, cap).rest);
      assert [] + PartsMean(parts) == PartsMean(parts);
    }
  }

  lemma EmptyTrees(w: string, rest: string)
    requires Blank(w)
    ensures var t := List(w, []);
            && Ok(t) && TextOf(t) + rest == "[" + (w + ("]" + rest)) && Means(t) == Arr([]) && Nesting(t) == 0
    ensures var t := Object(w, []);
            && Ok(t) && TextOf(t) + rest == "{" + (w + ("}" + rest)) && Means(t) == Obj([]) && Nesting(t) == 0
  {
    NoParts();
    EmptyListText(w, rest);
  }

  lemma ListTree(w: string, parts: seq<Part>, rest: string) returns (t: Syntax)
    requires Blank(w) && parts != [] && PartsOk(parts)
    ensures t.List? && Ok(t) && TextOf(t) + rest == "[" + (w + (PartsText(parts) + ("]" + rest)))
    ensures Means(t) == Arr(PartsMean(parts)) && Nesting(t) == 1 + PartsNesting(parts)
  {
    hide PartsText, PartsMean, PartsNesting;
    var all := Led(w, parts);
    LedKeeps(w, parts);
    t := List([], all);
    Assoc("[", PartsText(all) + "]", rest);
    Assoc(PartsText(all), "]", rest);
    Assoc(w, PartsText(parts), "]" + rest);
  }

  lemma ObjectTree(w: string, members: seq<Member>, rest: string) returns (t: Syntax)
    requires Blank(w) && members != [] && MembersOk(members)
    ensures t.Object? && Ok(t) && TextOf(t) + rest == "{" + (w + (MembersText(members) + ("}" + rest)))
    ensures Means(t) == Obj(SortFields(MembersMean(members))) && Nesting(t) == 1 + MembersNesting(members)
  {
    hide MembersText, MembersMean, MembersNesting, SortFields;
    var all := LedMembers(w, members);
    LedMembersKeep(w, members);
    t := Object([], all);
    Assoc("{", MembersText(all) + "}", rest);
    Assoc(MembersText(all), "}", rest);
    Assoc(w, MembersText(members), "}" + rest);
  }

  lemma NoParts()
    ensures PartsMean([]) == [] && MembersMean([]) == [] && SortFields([]) == []
  {
  }

  /** The white space after the opening bracket goes to the first element. */
  function Led(w: string, parts: seq<Part>): seq<Part>
    requires parts != []
  {
    parts[0 := parts[0].(before := w + parts[0].before)]
  }

  lemma LedKeeps(w: string, parts: seq<Part>)
    requires parts != [] && Blank(w) && PartsOk(parts)
    ensures var all := Led(w, parts);
            && PartsOk(all) && PartsText(all) == w + PartsText(parts)
            && PartsMean(all) == PartsMean(parts) && PartsNesting(all) == PartsNesting(parts)
  {
    hide Ok, TextOf, Means, Nesting;
    var all := Led(w, parts);
    assert all[1..] == parts[1..];
    var p := parts[0];
    Assoc(w, p.before, TextOf(p.value) + p.after);
    assert PartText(all[0]) == w + PartText(p);
    if |parts| > 1 {
      Assoc(w, PartText(p), "," + PartsText(parts[1..]));
    }
  }

  lemma ItemCases(s: string, depth: nat, cap: nat, items: seq<Json>)
    requires ParseItems(s, depth, cap, items).Done?
    ensures var r := ParseValue(s, depth + 1, cap);
            && r.Done?
            && var after := SkipWs(r.rest);
               if StartsWith(after, ',') then
                 ParseItems(s, depth, cap, items) == ParseItems(after[1..], depth, cap, items + [r.value])
               else
                 StartsWith(after, ']') && ParseItems(s, depth, cap, items) == Done(Arr(items + [r.value]), after[1..])
  {
    hide ParseValue;
  }

  lemma {:induction false} ItemsSound(s: string, depth: nat, cap: nat, items: seq<Json>) returns (parts: seq<Part>)
    requires ParseItems(s, depth, cap, items).Done?
    ensures parts != [] && PartsOk(parts)
    ensures s == PartsText(parts) + ("]" + ParseItems(s, depth, cap, items).rest)
    ensures ParseItems(s, depth, cap, items).value == Arr(items + PartsMean(parts))
    ensures depth + 1 + PartsNesting(parts) <= cap
    decreases |s|, 5
  {
    hide ParseValue, ParseItems, TextOf, Ok, Means, Nesting, PartsText, PartsMean, PartsNesting;
    hide Blank, SkipWs, IsWs, PartText;
    ItemCases(s, depth, cap, items);
    var w, t := ValueSound(s, depth + 1, cap);
    var r := ParseValue(s, depth + 1, cap);
    var gap := Skipped(r.rest);
    var after := SkipWs(r.rest);
    var p := Part(w, t, gap);
    PartSplits(p, after);
    assert after == [after[0]] + after[1..];
    if StartsWith(after, ',') {
      var more := ItemsSound(after[1..], depth, cap, items + [r.value]);
      parts := [p] + more;
      PartsJoin(p, more);
      var rest := ParseItems(s, depth, cap, items).rest;
      Assoc(",", PartsText(more), "]" + rest);
      Assoc(PartText(p), "," + PartsText(more), "]" + rest);
      assert items + [r.value] + PartsMean(more) == items + PartsMean(parts);
    } else {
      parts := [p];
      OnePart(p);
    }
  }

  lemma PartSplits(p: Part, after: string)
    ensures p.before + (TextOf(p.value) + (p.after + after)) == PartText(p) + after
  {
    hide TextOf;
    Assoc(TextOf(p.value), p.after, after);
    Assoc(p.before, TextOf(p.value) + p.after, after);
  }

  lemma PartsJoin(p: Part, more: seq<Part>)
    requires more != [] && Spaced(p) && Ok(p.value) && PartsOk(more)
    ensures var parts := [p] + more;
            && PartsOk(parts) && PartsText(parts) == PartText(p) + ("," + PartsText(more))
            && PartsMean(parts) == [Means(p.value)] + PartsMean(more)
            && PartsNesting(parts) == Max(Nesting(p.value), PartsNesting(more))
  {
    hide Ok, TextOf, Means, Nesting;
    assert ([p] + more)[1..] == more;
  }

  lemma OnePart(p: Part)
    requires Spaced(p) && Ok(p.value)
    ensures PartsOk([p]) && PartsText([p]) == PartText(p)
    ensures PartsMean([p]) == [Means(p.value)] && PartsNesting([p]) == Nesting(p.value)
  {
    hide Ok, TextOf, Means, Nesting;
    assert [p][1..] == [];
  }

  lemma ObjectCases(s: string, depth: nat, cap: nat)
    requires s != [] && s[0] == '{' && SkipWs(s) == s && depth <= cap
    ensures var inner := SkipWs(s[1..]);
            ParseValue(s, depth, cap) ==
            if StartsWith(inner, '}') then Done(Obj([]), inner[1..]) else ParseFields(inner, depth, cap, [])
  {
    hide ParseFields;
  }

  lemma {:induction false} ObjectSound(s: string, depth: nat, cap: nat) returns (t: Syntax)
    requires s != [] && s[0] == '{' && SkipWs(s) == s && depth <= cap && ParseValue(s, depth, cap).Done?
    ensures Ok(t) && !t.Numeral? && s == TextOf(t) + ParseValue(s, depth, cap).rest
    ensures Means(t) == ParseValue(s, depth, cap).value && depth + Nesting(t) <= cap
    decreases |s|, 3
  {
    hide ParseValue, ParseFields, MembersText, MembersMean, MembersNesting, SortFields, TextOf, Ok, Means, Nesting;
    hide Blank;
    ObjectCases(s, depth, cap);
    var w := Skipped(s[1..]);
    var inner := SkipWs(s[1..]);
    assert s == "{" + (w + inner);
    NoParts();
    if StartsWith(inner, '}') {
      t := Object(w, []);
      assert inner == "}" + inner[1..];
      EmptyTrees(w, inner[1..]);
    } else {
      var members := FieldsSound(inner, depth, cap, []);
      t := ObjectTree(w, members, ParseValue(s, depth, cap).rest);
      assert [] + MembersMean(members) == MembersMean(members);
    }
  }

  function LedMembers(w: string, members: seq<Member>): seq<Member>
    requires members != []
  {
    members[0 := members[0].(before := w + members[0].before)]
  }

  lemma LedMembersKeep(w: string, members: seq<Member>)
    requires members != [] && Blank(w) && MembersOk(members)
    ensures var all := LedMembers(w, members);
            && MembersOk(all) && MembersText(all) == w + MembersText(members)
            && MembersMean(all) == MembersMean(members) && MembersNesting(all) == MembersNesting(members)
  {
    hide Ok, TextOf, Means, Nesting, PartText, Body, BodyOk, BodyMeans;
    var all := LedMembers(w, members);
    assert all[1..] == members[1..];
    var m := members[0];
    Assoc(w, m.before, "\"" + (Body(m.key) + ("\"" + (m.colon + (":" + PartText(m.part))))));
    assert MemberText(all[0]) == w + MemberText(m);
    if |members| > 1 {
      Assoc(w, MemberText(m), "," + MembersText(members[1..]));
    }
  }

  lemma FieldCases(text: string, depth: nat, cap: nat)
    requires ParseField(text, depth, cap).Done?
    ensures var s := SkipWs(text);
            && StartsWith(s, '\"') && StringBody(s[1..]).Done?
            && var after := SkipWs(StringBody(s[1..]).rest);
               && StartsWith(after, ':') && ParseValue(after[1..], depth + 1, cap).Done?
               && var r := ParseValue(after[1..], depth + 1, cap);
                  ParseField(text, depth, cap) == Done(Field(StringBody(s[1..]).value, r.value), r.rest)
  {
    hide ParseValue, StringBody;
  }

  /** A field, without the white space after it. */
  lemma {:induction false} FieldSound(text: string, depth: nat, cap: nat) returns (m: Member)
    requires ParseField(text, depth, cap).Done?
    ensures KeyOk(m) && Ok(m.part.value) && m.part.after == []
    ensures text == MemberText(m) + ParseField(text, depth, cap).rest
    ensures MemberMeans(m) == ParseField(text, depth, cap).value && depth + 1 + Nesting(m.part.value) <= cap
    decreases |text|, 5
  {
    hide ParseValue, ParseField, StringBody, TextOf, Ok, Means, Nesting, Body, BodyOk, BodyMeans;
    NothingIsBlank();
    hide Blank, SkipWs, IsWs;
    FieldCases(text, depth, cap);
    var before := Skipped(text);
    var s := SkipWs(text);
    var ps := StringSound(s[1..]);
    var colon := Skipped(StringBody(s[1..]).rest);
    var after := SkipWs(StringBody(s[1..]).rest);
    var w, t := ValueSound(after[1..], depth + 1, cap);
    m := Member(before, ps, colon, Part(w, t, []));
    var rest := ParseField(text, depth, cap).rest;
    assert s == "\"" + s[1..] && after == ":" + after[1..];
    assert TextOf(t) + [] == TextOf(t);
    MemberSplits(before, ps, colon, w, TextOf(t), rest);
  }

  lemma NothingIsBlank()
    ensures Blank([])
  {
  }

  lemma MemberSplits(before: string, ps: seq<Piece>, colon: string, w: string, t: string, rest: string)
    ensures before + ("\"" + (Body(ps) + ("\"" + (colon + (":" + (w + t)))))) + rest ==
            before + ("\"" + (Body(ps) + ("\"" + (colon + (":" + (w + (t + rest)))))))
  {
    hide Body;
    Assoc(w, t, rest);
    Assoc(":", w + t, rest);
    Assoc(colon, ":" + (w + t), rest);
    Assoc("\"", colon + (":" + (w + t)), rest);
    Assoc(Body(ps), "\"" + (colon + (":" + (w + t))), rest);
    Assoc("\"", Body(ps) + ("\"" + (colon + (":" + (w + t)))), rest);
    Assoc(before, "\"" + (Body(ps) + ("\"" + (colon + (":" + (w + t))))), rest);
  }

  lemma FieldsCases(s: string, depth: nat, cap: nat, fields: seq<Field>)
    requires ParseFields(s, depth, cap, fields).Done?
    ensures var r := ParseField(s, depth, cap);
            && r.Done?
            && var after := SkipWs(r.rest);
               var more := Insert(fields, r.value);
               if StartsWith(after, ',') then
                 ParseFields(s, depth, cap, fields) == ParseFields(after[1..], depth, cap, more)
               else StartsWith(after, '}') && ParseFields(s, depth, cap, fields) == Done(Obj(more), after[1..])
  {
    hide ParseField, Insert;
  }

  lemma {:induction false} FieldsSound(s: string, depth: nat, cap: nat, before: seq<Field>)
    returns (members: seq<Member>)
    requires ParseFields(s, depth, cap, SortFields(before)).Done?
    ensures members != [] && MembersOk(members)
    ensures s == MembersText(members) + ("}" + ParseFields(s, depth, cap, SortFields(before)).rest)
    ensures ParseFields(s, depth, cap, SortFields(before)).value == Obj(SortFields(before + MembersMean(members)))
    ensures depth + 1 + MembersNesting(members) <= cap
    decreases |s|, 6
  {
    hide ParseField, ParseFields, TextOf, Ok, Means, Nesting, MembersText, MembersMean, MembersNesting;
    hide SortFields, Insert, MemberText, MemberMeans, KeyOk, Blank, SkipWs, IsWs;
    FieldsCases(s, depth, cap, SortFields(before));
    var m0 := FieldSound(s, depth, cap);
    var r := ParseField(s, depth, cap);
    var gap := Skipped(r.rest);
    var after := SkipWs(r.rest);
    var m := m0.(part := m0.part.(after := gap));
    GapAfter(m0, gap, after);
    SortedNext(before, r.value);
    assert after == [after[0]] + after[1..];
    if StartsWith(after, ',') {
      var more := FieldsSound(after[1..], depth, cap, before + [r.value]);
      members := [m] + more;
      MembersJoin(m, more);
      var rest := ParseFields(s, depth, cap, SortFields(before)).rest;
      Assoc(",", MembersText(more), "}" + rest);
      Assoc(MemberText(m), "," + MembersText(more), "}" + rest);
      assert before + [r.value] + MembersMean(more) == before + MembersMean(members);
    } else {
      members := [m];
      OneMember(m);
    }
  }

  lemma SortedNext(before: seq<Field>, f: Field)
    ensures SortFields(before + [f]) == Insert(SortFields(before), f)
  {
    assert (before + [f])[..|before + [f]| - 1] == before;
  }

  lemma GapAfter(m: Member, gap: string, after: string)
    requires KeyOk(m) && Ok(m.part.value) && m.part.after == [] && Blank(gap)
    ensures var n := m.(part := m.part.(after := gap));
            && KeyOk(n) && Ok(n.part.value) && MemberMeans(n) == MemberMeans(m)
            && Nesting(n.part.value) == Nesting(m.part.value)
            && MemberText(m) + (gap + after) == MemberText(n) + after
  {
    hide Ok, TextOf, Means, Nesting, Body, BodyOk, BodyMeans;
    var t := TextOf(m.part.value);
    assert t + [] == t;
    MemberSplits(m.before, m.key, m.colon, m.part.before, t, gap + after);
    MemberSplits(m.before, m.key, m.colon, m.part.before, t + gap, after);
    Assoc(t, gap, after);
  }

  lemma MembersJoin(m: Member, more: seq<Member>)
    requires more != [] && KeyOk(m) && Ok(m.part.value) && MembersOk(more)
    ensures var members := [m] + more;
            && MembersOk(members) && MembersText(members) == MemberText(m) + ("," + MembersText(more))
            && MembersMean(members) == [MemberMeans(m)] + MembersMean(more)
            && MembersNesting(members) == Max(Nesting(m.part.value), MembersNesting(more))
  {
    hide Ok, MemberText, MemberMeans, Nesting, KeyOk;
    assert ([m] + more)[1..] == more;
  }

  lemma OneMember(m: Member)
    requires KeyOk(m) && Ok(m.part.value)
    ensures MembersOk([m]) && MembersText([m]) == MemberText(m)
    ensures MembersMean([m]) == [MemberMeans(m)] && MembersNesting([m]) == Nesting(m.part.value)
  {
    hide Ok, MemberText, MemberMeans, Nesting, KeyOk;
    assert [m][1..] == [];
  }

  // ----- what is in the grammar is accepted -----

  /** A tree's text starts with neither white space nor a closing bracket. */
  lemma SyntaxStart(t: Syntax)
    requires Ok(t)
    ensures TextOf(t) != [] && !IsWs(TextOf(t)[0]) && TextOf(t)[0] != ']'
  {
    hide PartsText, MembersText, Body, WordOk, NumeralOk;
    match t {
      case Word(text, value) => WordStart(text, value);
      case Numeral(text) => NumeralFirst(text);
      case _ =>
    }
  }

  lemma WordStart(text: string, value: Json)
    requires WordOk(text, value)
    ensures text != [] && !IsWs(text[0]) && text[0] != ']'
  {
  }

  lemma NumeralFirst(text: string)
    requires NumeralOk(text)
    ensures text != [] && !IsWs(text[0]) && text[0] != ']'
  {
    hide ReadI64, ReadF64;
  }

  lemma WordComplete(text: string, value: Json, rest: string, depth: nat, cap: nat)
    requires WordOk(text, value) && depth <= cap
    ensures ParseValue(text + rest, depth, cap) == Done(value, rest)
  {
    var s := text + rest;
    assert SkipWs(s) == s && s[|text|..] == rest && text <= s;
  }

  lemma {:induction false} ValueComplete(w: string, t: Syntax, rest: string, depth: nat, cap: nat)
    requires Blank(w) && Ok(t) && Ends(t, rest)
    ensures ParseValue(w + (TextOf(t) + rest), depth, cap) == Capped(Means(t), rest, depth + Nesting(t), cap)
    decreases t, 0
  {
    hide ParseValue, TextOf, Ok, Means, Nesting, Blank, Delimited;
    BlankBefore(w, TextOf(t) + rest, depth, cap);
    if depth > cap {
      PastCap(TextOf(t) + rest, depth, cap);
    } else if t.List? {
      ListComplete(t.inner, t.parts, rest, depth, cap);
    } else if t.Object? {
      ObjectComplete(t.inner, t.members, rest, depth, cap);
    } else {
      LeafComplete(t, rest, depth, cap);
    }
  }

  lemma LeafComplete(t: Syntax, rest: string, depth: nat, cap: nat)
    requires Ok(t) && !t.List? && !t.Object? && Ends(t, rest) && depth <= cap
    ensures ParseValue(TextOf(t) + rest, depth, cap) == Done(Means(t), rest) && Nesting(t) == 0
  {
    hide ParseValue, WordOk, NumeralOk, BodyOk, Body, BodyMeans, ReadI64, ReadF64;
    match t {
      case Word(text, value) => WordComplete(text, value, rest, depth, cap);
      case Numeral(text) => NumeralComplete(text, rest, depth, cap);
      case Quoted(body) => QuotedComplete(body, rest, depth, cap);
    }
  }

  lemma QuotedComplete(body: seq<Piece>, rest: string, depth: nat, cap: nat)
    requires BodyOk(body) && depth <= cap
    ensures ParseValue(TextOf(Quoted(body)) + rest, depth, cap) == Done(Str(BodyMeans(body)), rest)
  {
    hide ParseValue, StringBody, Body, BodyMeans, BodyOk;
    StringComplete(body, rest);
    Assoc("\"", Body(body) + "\"", rest);
    Assoc(Body(body), "\"", rest);
    StringStart(Body(body) + ("\"" + rest), depth, cap);
  }

  lemma ListHead(w: string, inner: string, depth: nat, cap: nat)
    requires Blank(w) && depth <= cap && inner != [] && !IsWs(inner[0])
    ensures ParseValue("[" + (w + inner), depth, cap) ==
            if inner[0] == ']' then Done(Arr([]), inner[1..]) else ParseItems(inner, depth, cap, [])
  {
    hide ParseItems;
    var s := "[" + (w + inner);
    assert s[1..] == w + inner && SkipWs(s) == s;
    BlankSkipped(w, inner);
  }

  lemma ItemsBlank(w: string, s: string, depth: nat, cap: nat, items: seq<Json>)
    requires Blank(w)
    ensures ParseItems(w + s, depth, cap, items) == ParseItems(s, depth, cap, items)
  {
    BlankBefore(w, s, depth + 1, cap);
    hide ParseValue;
  }

  lemma {:induction false} ListComplete(inner: string, parts: seq<Part>, rest: string, depth: nat, cap: nat)
    requires Ok(List(inner, parts)) && depth <= cap
    ensures var t := List(inner, parts);
            ParseValue(TextOf(t) + rest, depth, cap) == Capped(Means(t), rest, depth + Nesting(t), cap)
    decreases parts, 2
  {
    hide *;
    ListIs(inner, parts);
    if parts == [] {
      EmptyIsRead(inner, rest, depth, cap);
    } else {
      ListText(inner, parts, rest);
      ListOpens(parts, rest, depth, cap);
      ItemsComplete(parts, rest, depth, cap, []);
      assert [] + PartsMean(parts) == PartsMean(parts);
    }
  }

  lemma EmptyIsRead(inner: string, rest: string, depth: nat, cap: nat)
    requires Blank(inner) && depth <= cap
    ensures var t := List(inner, []);
            && Ok(t) && ParseValue(TextOf(t) + rest, depth, cap) == Capped(Means(t), rest, depth + Nesting(t), cap)
    ensures var t := Object(inner, []);
            && Ok(t) && ParseValue(TextOf(t) + rest, depth, cap) == Capped(Means(t), rest, depth + Nesting(t), cap)
  {
    hide ParseValue, TextOf, Ok, Means, Nesting, Blank;
    EmptyTrees(inner, rest);
    BracketIsNoBlank();
    ListHead(inner, "]" + rest, depth, cap);
    ObjectHead(inner, "}" + rest, depth, cap);
    assert ("]" + rest)[1..] == rest && ("}" + rest)[1..] == rest;
  }

  /** The parser goes from the opening bracket of a list to its first element. */
  lemma ListOpens(parts: seq<Part>, rest: string, depth: nat, cap: nat)
    requires parts != [] && PartsOk(parts) && depth <= cap
    ensures var text := PartsText(parts) + ("]" + rest);
            ParseValue("[" + text, depth, cap) == ParseItems(text, depth, cap, [])
  {
    hide ParseValue, ParseItems, PartsText, TextOf, Ok, Blank, SkipWs, IsWs;
    var p := parts[0];
    assert Spaced(p) && Ok(p.value);
    SyntaxStart(p.value);
    var more := FirstPart(parts, "]" + rest);
    hide PartsOk;
    var inner := TextOf(p.value) + more;
    assert inner[0] == TextOf(p.value)[0];
    ListHead(p.before, inner, depth, cap);
    ItemsBlank(p.before, inner, depth, cap, []);
  }

  lemma ListIs(inner: string, parts: seq<Part>)
    requires Ok(List(inner, parts))
    ensures Blank(inner) && PartsOk(parts) && Means(List(inner, parts)) == Arr(PartsMean(parts))
    ensures Nesting(List(inner, parts)) == if parts == [] then 0 else 1 + PartsNesting(parts)
    ensures parts != [] ==> Ok(parts[0].value) && Blank(parts[0].before)
  {
  }

  lemma ObjectIs(inner: string, members: seq<Member>)
    requires Ok(Object(inner, members))
    ensures Blank(inner) && MembersOk(members)
    ensures Means(Object(inner, members)) == Obj(SortFields(MembersMean(members)))
    ensures Nesting(Object(inner, members)) == if members == [] then 0 else 1 + MembersNesting(members)
    ensures members != [] ==> Blank(members[0].before)
  {
  }

  lemma BracketIsNoBlank()
    ensures !IsWs(']') && !IsWs('}') && !IsWs('\"')
  {
  }

  lemma EmptyListText(inner: string, rest: string)
    ensures TextOf(List(inner, [])) + rest == "[" + (inner + ("]" + rest))
    ensures TextOf(Object(inner, [])) + rest == "{" + (inner + ("}" + rest))
  {
    Assoc("[", inner + "]", rest);
    Assoc(inner, "]", rest);
    Assoc("{", inner + "}", rest);
    Assoc(inner, "}", rest);
  }

  lemma ListText(inner: string, parts: seq<Part>, rest: string)
    requires parts != []
    ensures TextOf(List(inner, parts)) + rest == "[" + (PartsText(parts) + ("]" + rest))
  {
    hide PartsText;
    Assoc("[", PartsText(parts) + "]", rest);
    Assoc(PartsText(parts), "]", rest);
  }

  /** A list's text splits after the first element's value. */
  lemma FirstPart(parts: seq<Part>, end: string) returns (more: string)
    requires parts != []
    ensures more == parts[0].after + (if |parts| == 1 then end else "," + (PartsText(parts[1..]) + end))
    ensures PartsText(parts) + end == parts[0].before + (TextOf(parts[0].value) + more)
  {
    hide TextOf;
    var p := parts[0];
    var tail := if |parts| == 1 then end else "," + (PartsText(parts[1..]) + end);
    more := p.after + tail;
    PartSplits(p, tail);
    if |parts| > 1 {
      Assoc(PartText(p), "," + PartsText(parts[1..]), end);
      Assoc(",", PartsText(parts[1..]), end);
    }
  }

  /** White space and a delimiter end a numeral. */
  lemma GapDelimits(gap: string, tail: string)
    requires Blank(gap) && tail != [] && !IsNumberChar(tail[0])
    ensures Delimited(gap + tail)
  {
  }

  lemma SpacedItemStep(text: string, v: Json, gap: string, tail: string, depth: nat, cap: nat, before: seq<Json>)
    requires ParseValue(text, depth + 1, cap) == Done(v, gap + tail) && Blank(gap)
    requires StartsWith(tail, ',') || StartsWith(tail, ']')
    ensures ParseItems(text, depth, cap, before)
         == if tail[0] == ',' then ParseItems(tail[1..], depth, cap, before + [v])
            else Done(Arr(before + [v]), tail[1..])
  {
    hide ParseValue;
    BlankSkipped(gap, tail);
    assert SkipWs(tail) == tail;
  }

  lemma {:induction false} ItemsComplete(parts: seq<Part>, rest: string, depth: nat, cap: nat, before: seq<Json>)
    requires parts != [] && PartsOk(parts) && depth <= cap
    ensures ParseItems(PartsText(parts) + ("]" + rest), depth, cap, before)
         == Capped(Arr(before + PartsMean(parts)), rest, depth + 1 + PartsNesting(parts), cap)
    decreases parts, 1
  {
    hide ParseValue, ParseItems, TextOf, PartsText, Means, PartsMean, Nesting, PartsNesting, Ok;
    var p := parts[0];
    var tail := if |parts| == 1 then "]" + rest else "," + (PartsText(parts[1..]) + ("]" + rest));
    var text := PartsText(parts) + ("]" + rest);
    var more := FirstPart(parts, "]" + rest);
    GapDelimits(p.after, tail);
    ValueComplete(p.before, p.value, p.after + tail, depth + 1, cap);
    FirstMeans(parts, before);
    if depth + 1 + Nesting(p.value) > cap {
      ItemFails(text, TooDeep, depth, cap, before);
    } else {
      SpacedItemStep(text, Means(p.value), p.after, tail, depth, cap, before);
      if |parts| > 1 {
        assert tail[1..] == PartsText(parts[1..]) + ("]" + rest);
        ItemsComplete(parts[1..], rest, depth, cap, before + [Means(p.value)]);
      } else {
        assert tail[1..] == rest;
      }
    }
  }

  lemma FirstMeans(parts: seq<Part>, before: seq<Json>)
    requires parts != [] && PartsOk(parts)
    ensures PartsOk(parts[1..])
    ensures before + PartsMean(parts) == before + [Means(parts[0].value)] + PartsMean(parts[1..])
    ensures |parts| == 1 ==> before + PartsMean(parts) == before + [Means(parts[0].value)]
    ensures PartsNesting(parts) == Max(Nesting(parts[0].value), PartsNesting(parts[1..]))
    ensures |parts| == 1 ==> PartsNesting(parts) == Nesting(parts[0].value)
  {
    hide Means, Ok, Nesting;
    Cons(before, Means(parts[0].value), PartsMean(parts[1..]));
  }

  lemma ObjectHead(w: string, inner: string, depth: nat, cap: nat)
    requires Blank(w) && depth <= cap && inner != [] && !IsWs(inner[0])
    ensures ParseValue("{" + (w + inner), depth, cap) ==
            if inner[0] == '}' then Done(Obj([]), inner[1..]) else ParseFields(inner, depth, cap, [])
  {
    hide ParseFields;
    var s := "{" + (w + inner);
    assert s[1..] == w + inner && SkipWs(s) == s;
    BlankSkipped(w, inner);
  }

  lemma FieldsBlank(w: string, s: string, depth: nat, cap: nat, fields: seq<Field>)
    requires Blank(w)
    ensures ParseFields(w + s, depth, cap, fields) == ParseFields(s, depth, cap, fields)
  {
    FieldBlank(w, s, depth, cap);
    hide ParseField;
  }

  lemma FieldBlank(w: string, s: string, depth: nat, cap: nat)
    requires Blank(w)
    ensures ParseField(w + s, depth, cap) == ParseField(s, depth, cap)
  {
    hide ParseValue, StringBody;
    BlankSkipped(w, s);
  }

  lemma {:induction false} ObjectComplete(inner: string, members: seq<Member>, rest: string, depth: nat, cap: nat)
    requires Ok(Object(inner, members)) && depth <= cap
    ensures var t := Object(inner, members);
            ParseValue(TextOf(t) + rest, depth, cap) == Capped(Means(t), rest, depth + Nesting(t), cap)
    decreases members, 3
  {
    hide *;
    ObjectIs(inner, members);
    if members == [] {
      EmptyIsRead(inner, rest, depth, cap);
    } else {
      ObjectText(inner, members, rest);
      ObjectOpens(members, rest, depth, cap);
      NoParts();
      FieldsComplete(members, rest, depth, cap, []);
      assert [] + MembersMean(members) == MembersMean(members);
    }
  }

  /** And from the opening brace of an object to its first key. */
  lemma ObjectOpens(members: seq<Member>, rest: string, depth: nat, cap: nat)
    requires members != [] && MembersOk(members) && depth <= cap
    ensures var text := MembersText(members) + ("}" + rest);
            ParseValue("{" + text, depth, cap) == ParseFields(text, depth, cap, [])
  {
    hide ParseValue, ParseFields, MembersText, TextOf, Ok, Blank, SkipWs, IsWs, Body, BodyOk;
    var m := members[0];
    assert KeyOk(m);
    var more := FirstMember(members, "}" + rest);
    hide MembersOk;
    BracketIsNoBlank();
    ObjectHead(m.before, "\"" + more, depth, cap);
    FieldsBlank(m.before, "\"" + more, depth, cap, []);
  }

  lemma ObjectText(inner: string, members: seq<Member>, rest: string)
    requires members != []
    ensures TextOf(Object(inner, members)) + rest == "{" + (MembersText(members) + ("}" + rest))
  {
    hide MembersText;
    Assoc("{", MembersText(members) + "}", rest);
    Assoc(MembersText(members), "}", rest);
  }

  /** An object's text splits after the quote that opens the first key. */
  lemma FirstMember(members: seq<Member>, end: string) returns (more: string)
    requires members != []
    ensures MembersText(members) + end == members[0].before + ("\"" + more)
    ensures var m := members[0];
            var tail := if |members| == 1 then end else "," + (MembersText(members[1..]) + end);
            var value := m.part.before + (TextOf(m.part.value) + (m.part.after + tail));
            more == Body(m.key) + ("\"" + (m.colon + (":" + value)))
  {
    hide TextOf, Body;
    var m := members[0];
    var t := TextOf(m.part.value);
    var tail := if |members| == 1 then end else "," + (MembersText(members[1..]) + end);
    more := Body(m.key) + ("\"" + (m.colon + (":" + (m.part.before + (t + (m.part.after + tail))))));
    MemberSplits(m.before, m.key, m.colon, m.part.before, t + m.part.after, tail);
    Assoc(t, m.part.after, tail);
    assert MemberText(m) + tail == m.before + ("\"" + more);
    if |members| == 1 {
      assert MembersText(members) + end == MemberText(m) + tail;
    } else {
      Assoc(MemberText(m), "," + MembersText(members[1..]), end);
      Assoc(",", MembersText(members[1..]), end);
    }
  }

  lemma {:induction false} FieldComplete(m: Member, tail: string, depth: nat, cap: nat)
    requires KeyOk(m) && Ok(m.part.value) && depth <= cap && Ends(m.part.value, m.part.after + tail)
    ensures var value := m.part.before + (TextOf(m.part.value) + (m.part.after + tail));
            var text := m.before + ("\"" + (Body(m.key) + ("\"" + (m.colon + (":" + value)))));
            ParseField(text, depth, cap) ==
            if depth + 1 + Nesting(m.part.value) > cap then Failed(TooDeep)
            else Done(MemberMeans(m), m.part.after + tail)
    decreases m, 1
  {
    hide ParseValue, StringBody, TextOf, Ok, Means, Nesting, Body, BodyOk, BodyMeans;
    var value := m.part.before + (TextOf(m.part.value) + (m.part.after + tail));
    var spaced := m.colon + (":" + value);
    var s := "\"" + (Body(m.key) + ("\"" + spaced));
    FieldBlank(m.before, s, depth, cap);
    StringComplete(m.key, spaced);
    ValueComplete(m.part.before, m.part.value, m.part.after + tail, depth + 1, cap);
    BlankSkipped(m.colon, ":" + value);
    assert SkipWs(s) == s && s[1..] == Body(m.key) + ("\"" + spaced);
    assert SkipWs(":" + value) == ":" + value && (":" + value)[1..] == value;
  }

  lemma SpacedFieldStep(text: string, f: Field, gap: string, tail: string, depth: nat, cap: nat, before: seq<Field>)
    requires ParseField(text, depth, cap) == Done(f, gap + tail) && Blank(gap)
    requires StartsWith(tail, ',') || StartsWith(tail, '}')
    ensures ParseFields(text, depth, cap, before)
         == if tail[0] == ',' then ParseFields(tail[1..], depth, cap, Insert(before, f))
            else Done(Obj(Insert(before, f)), tail[1..])
  {
    hide ParseField, Insert;
    BlankSkipped(gap, tail);
    assert SkipWs(tail) == tail;
  }

  lemma {:induction false} FieldsComplete(members: seq<Member>, rest: string, depth: nat, cap: nat, before: seq<Field>)
    requires members != [] && MembersOk(members) && depth <= cap
    ensures ParseFields(MembersText(members) + ("}" + rest), depth, cap, SortFields(before))
         == Capped(Obj(SortFields(before + MembersMean(members))), rest, depth + 1 + MembersNesting(members), cap)
    decreases members, 2
  {
    hide ParseField, ParseFields, TextOf, MembersText, MemberMeans, MembersMean, Nesting, MembersNesting, Ok, KeyOk;
    hide Body, SortFields, Insert;
    var m := members[0];
    var tail := if |members| == 1 then "}" + rest else "," + (MembersText(members[1..]) + ("}" + rest));
    var text := MembersText(members) + ("}" + rest);
    var more := FirstMember(members, "}" + rest);
    KeySpaced(m);
    GapDelimits(m.part.after, tail);
    FieldComplete(m, tail, depth, cap);
    FirstMemberMeans(members, before);
    SortedNext(before, MemberMeans(m));
    if depth + 1 + Nesting(m.part.value) > cap {
      FieldFails(text, TooDeep, depth, cap, SortFields(before));
    } else {
      SpacedFieldStep(text, MemberMeans(m), m.part.after, tail, depth, cap, SortFields(before));
      if |members| > 1 {
        assert tail[1..] == MembersText(members[1..]) + ("}" + rest);
        FieldsComplete(members[1..], rest, depth, cap, before + [MemberMeans(m)]);
      } else {
        assert tail[1..] == rest;
      }
    }
  }

  lemma KeySpaced(m: Member)
    requires KeyOk(m)
    ensures Blank(m.part.after)
  {
  }

  lemma FirstMemberMeans(members: seq<Member>, before: seq<Field>)
    requires members != [] && MembersOk(members)
    ensures MembersOk(members[1..])
    ensures before + MembersMean(members) == before + [MemberMeans(members[0])] + MembersMean(members[1..])
    ensures |members| == 1 ==> before + MembersMean(members) == before + [MemberMeans(members[0])]
    ensures MembersNesting(members) == Max(Nesting(members[0].part.value), MembersNesting(members[1..]))
    ensures |members| == 1 ==> MembersNesting(members) == Nesting(members[0].part.value)
  {
    hide MemberMeans, Ok, KeyOk, Nesting;
    Cons(before, MemberMeans(members[0]), MembersMean(members[1..]));
  }

  // ----- whole documents -----

  /** The document is the text of this tree with white space around it. */
  ghost predicate Spells(text: string, before: string, t: Syntax, after: string) {
    Blank(before) && Ok(t) && Blank(after) && text == before + (TextOf(t) + after)
  }

  /**
    * The parser takes exactly the documents of the grammar that nest at most 512 deep, and reads what they mean:
    * one tree with white space around it, of which no other tree is a reading with another meaning.
    */
  lemma ParsesExactlyTheGrammar(text: string, v: Json)
    ensures Parse(text) == Done(v, []) <==>
              exists before, t, after ::
                Spells(text, before, t, after) && Nesting(t) <= MAX_DEPTH && Means(t) == v
  {
    hide ParseValue, TextOf, Ok, Means, Nesting, Blank;
    if Parse(text) == Done(v, []) {
      var w, t := ValueSound(text, 0, MAX_DEPTH);
      var after := ParseValue(text, 0, MAX_DEPTH).rest;
      SkippedIsBlank(after);
      assert Spells(text, w, t, after);
    }
    if before, t, after :| Spells(text, before, t, after) && Nesting(t) <= MAX_DEPTH && Means(t) == v {
      BlankDelimits(after);
      ValueComplete(before, t, after, 0, MAX_DEPTH);
      SkippedIsBlank(after);
    }
  }

  lemma BlankDelimits(after: string)
    requires Blank(after)
    ensures Delimited(after)
  {
  }

  /** A document of the grammar that nests deeper fails for that reason. */
  lemma DeeperIsTooDeep(text: string, before: string, t: Syntax, after: string)
    requires Spells(text, before, t, after) && Nesting(t) > MAX_DEPTH
    ensures Parse(text) == Failed(TooDeep)
  {
    hide ParseValue, TextOf, Ok, Means, Nesting, Blank;
    BlankDelimits(after);
    ValueComplete(before, t, after, 0, MAX_DEPTH);
  }
}
