/** How numbers are written by the JSON printer and read back by the JSON parser. */
module NumberText {
  import opened DecimalText
  import opened Floats
  import opened Wrappers

  const I64_MIN := -0x8000_0000_0000_0000
  const I64_MAX := 0x7FFF_FFFF_FFFF_FFFF

  /** Whole floats from here on are printed without a point. */
  const TEN_16: nat := 10000000000000000

  predicate InI64(n: int) {
    I64_MIN <= n <= I64_MAX
  }

  // ----- printing -----

  function IntText(n: int): string {
    if n < 0 then "-" + Digits(-n) else Digits(n)
  }

  /** `v` times ten to the `p`. */
  function Scale10(v: real, p: int): real
    decreases if p < 0 then -p else p
  {
    if p == 0 then v else if p > 0 then 10.0 * Scale10(v, p - 1) else Scale10(v, p + 1) / 10.0
  }

  /** The decimal `m` times ten to the `p` reads back as the double `x`. */
  predicate ReadsBack(x: real, m: nat, p: int) {
    m > 0 && Round(Scale10(m as real, p)) == Fin(x)
  }

  /** How far the decimal `m` times ten to the `p` is from `x`. */
  function Distance(x: real, m: nat, p: int): real {
    var d := Scale10(m as real, p) - x;
    if d < 0.0 then -d else d
  }

  /** A decimal with the fewest digits among those that read back as `x`. */
  ghost predicate IsShort(x: real, m: nat, p: int) {
    && ReadsBack(x, m, p)
    && forall m': nat, p' :: ReadsBack(x, m', p') ==> |Digits(m)| <= |Digits(m')|
  }

  /** One of the shortest decimals, and of those one closest to `x`. */
  ghost predicate IsShortest(x: real, m: nat, p: int) {
    && IsShort(x, m, p)
    && forall m': nat, p' :: IsShort(x, m', p') ==> Distance(x, m, p) <= Distance(x, m', p')
  }

  /** The decimal std's formatter chooses for a positive double; of two equally close ones either. */
  ghost function Shortest(x: real): (d: (nat, int))
    requires x > 0.0 && IsDouble(Fin(x))
    ensures IsShortest(x, d.0, d.1)
  {
    HasShortest(x);
    var m: nat, p :| IsShortest(x, m, p);
    (m, p)
  }

  /** A decimal in positional notation, without an exponent. */
  function Positional(m: nat, p: int): string {
    var s := Digits(m);
    if p >= 0 then s + Zeros(p)
    else if -p < |s| then s[..|s| + p] + "." + s[|s| + p..]
    else "0" + "." + (Zeros(-p - |s|) + s)
  }

  ghost function PositiveText(x: real): string
    requires x > 0.0 && IsDouble(Fin(x))
  {
    if IsWhole(x) && x < TEN_16 as real then Digits(x.Floor) + ".0"
    else var (m, p) := Shortest(x); Positional(m, p)
  }

  ghost function FloatText(x: F64): string
    requires IsDouble(x)
  {
    match x
    case NaN => "NaN"
    case Inf(neg) => if neg then "-Infinity" else "Infinity"
    case NegZero => "-0.0"
    case Fin(v) =>
      if v == 0.0 then "0.0"
      else if v > 0.0 then PositiveText(v)
      else NegatedDouble(v); "-" + PositiveText(-v)
  }

  lemma NegatedDouble(v: real)
    requires v < 0.0 && IsDouble(Fin(v))
    ensures IsDouble(Fin(-v))
  {
  }

  // ----- reading -----

  function SignedI64(neg: bool, n: int): Option<int> {
    var k := if neg then -n else n;
    if InI64(k) then Some(k) else None
  }

  /** The length of the run of digits `s` starts with. */
  function DigitSpan(s: string): (n: nat)
    ensures n <= |s| && AllDigits(s[..n])
    ensures n < |s| ==> !IsDigit(s[n])
  {
    if s == [] || !IsDigit(s[0]) then 0
    else
      var n := DigitSpan(s[1..]);
      assert s[..n + 1] == [s[0]] + s[1..][..n];
      n + 1
  }

  function Unsigned(t: string): string {
    if t != [] && t[0] in "+-" then t[1..] else t
  }

  predicate IsNegative(t: string) {
    t != [] && t[0] == '-'
  }

  /** `str::parse::<i64>`: an optional sign and at least one digit, within range. */
  function ReadI64(t: string): Option<int> {
    var u := Unsigned(t);
    if u == [] || !AllDigits(u) then None
    else SignedI64(IsNegative(t), NatOf(u))
  }

  /** The value of an exponent part, `e` or `E` included; empty means zero. */
  function ReadExponent(s: string): Option<int> {
    if s == [] then Some(0)
    else if s[0] !in "eE" then None
    else
      var u := Unsigned(s[1..]);
      if u == [] || !AllDigits(u) then None
      else
        var n: int := NatOf(u);
        Some(if IsNegative(s[1..]) then -n else n)
  }

  /** The digits before an exponent part, how many of them follow the point, and the exponent part. */
  datatype Mantissa = Mantissa(digits: string, places: int, exponent: string)

  function ReadMantissa(u: string): (m: Mantissa)
    ensures AllDigits(m.digits)
  {
    var a := DigitSpan(u);
    if a < |u| && u[a] == '.' then
      var rest := u[a + 1..];
      var b := DigitSpan(rest);
      Mantissa(u[..a] + rest[..b], b, rest[b..])
    else
      Mantissa(u[..a], 0, u[a..])
  }

  /** `str::parse::<f64>` on text made of the number characters: correctly rounded. */
  function ReadF64(t: string): Option<F64> {
    var m := ReadMantissa(Unsigned(t));
    var exponent := ReadExponent(m.exponent);
    if m.digits == [] || exponent.None? then None
    else Some(RoundSigned(IsNegative(t), NatOf(m.digits), exponent.value - m.places))
  }

  function RoundSigned(neg: bool, m: nat, p: int): F64 {
    if neg && m == 0 then NegZero
    else if neg then Round(-Scale10(m as real, p))
    else Round(Scale10(m as real, p))
  }

  // ----- powers of ten -----

  lemma {:induction false} Scale10Positive(v: real, p: int)
    requires v >= 0.0
    ensures Scale10(v, p) >= 0.0 && (v > 0.0 ==> Scale10(v, p) > 0.0)
    decreases if p < 0 then -p else p
  {
    if p > 0 {
      Scale10Positive(v, p - 1);
    } else if p < 0 {
      Scale10Positive(v, p + 1);
    }
  }

  lemma {:induction false} Scale10Whole(m: nat, p: nat)
    ensures Scale10(m as real, p) == (m * Pow10(p)) as real
  {
    if p > 0 {
      Scale10Whole(m, p - 1);
      assert 10 * (m * Pow10(p - 1)) == m * Pow10(p);
    }
  }

  // ----- every double has a decimal -----

  lemma {:induction false} BinaryIsDecimal(q: nat, e: int) returns (m: nat, p: int)
    requires q > 0
    ensures m > 0 && Scale10(m as real, p) == Scale(q as real, e)
    decreases if e < 0 then -e else e
  {
    if e == 0 {
      m, p := q, 0;
    } else if e > 0 {
      var m', p' := BinaryIsDecimal(q, e - 1);
      m, p := 2 * m', p';
      Scale10Linear(2, m', p);
    } else {
      var m', p' := BinaryIsDecimal(q, e + 1);
      m, p := 5 * m', p' - 1;
      Scale10Linear(5, m', p);
      assert Scale10(m' as real, p') == 10.0 * Scale10(m' as real, p);
    }
  }

  lemma {:induction false} Scale10Linear(c: nat, m: nat, p: int)
    ensures Scale10((c * m) as real, p) == c as real * Scale10(m as real, p)
    decreases if p < 0 then -p else p
  {
    if p > 0 {
      Scale10Linear(c, m, p - 1);
    } else if p < 0 {
      Scale10Linear(c, m, p + 1);
    }
  }

  lemma HasShortest(x: real)
    requires x > 0.0 && IsDouble(Fin(x))
    ensures exists m: nat, p :: IsShortest(x, m, p)
  {
    var e := LastPlace(x);
    var q := NearestEven(Scale(x, -e));
    if q <= 0 {
      ScaleMonotone(q as real, 0.0, e);
      ScaleZero(e);
      assert false;
    }
    var m, p := BinaryIsDecimal(q, e);
    FewestDigits(x, m, p);
    var m': nat, p' :| IsShort(x, m', p');
    HasClosest(x, m', p');
  }

  lemma {:induction false} FewestDigits(x: real, m: nat, p: int)
    requires ReadsBack(x, m, p)
    ensures exists m': nat, p' :: IsShort(x, m', p')
    decreases |Digits(m)|
  {
    if !IsShort(x, m, p) {
      var m': nat, p' :| ReadsBack(x, m', p') && |Digits(m')| < |Digits(m)|;
      FewestDigits(x, m', p');
    }
  }

  /** The shortest decimals of a double are finitely many, so one of them is closest. */
  lemma HasClosest(x: real, m: nat, p: int)
    requires x > 0.0 && IsShort(x, m, p)
    ensures exists m': nat, p' :: IsShortest(x, m', p')
  {
    hide IsShort;
    var bound, lo, hi := ShortInRange(x, m, p);
    var s := set m': nat, p' | m' < bound && lo <= p' < hi && IsShort(x, m', p') :: (m', p');
    assert (m, p) in s;
    var d := ClosestOf(x, s);
    forall m': nat, p' | IsShort(x, m', p')
      ensures Distance(x, d.0, d.1) <= Distance(x, m', p')
    {
      assert (m', p') in s;
    }
    assert IsShortest(x, d.0, d.1);
  }

  lemma {:induction false} ClosestOf(x: real, s: set<(nat, int)>) returns (d: (nat, int))
    requires s != {}
    ensures d in s && forall c :: c in s ==> Distance(x, d.0, d.1) <= Distance(x, c.0, c.1)
    decreases |s|
  {
    hide Distance;
    var c :| c in s;
    d := c;
    if s != {c} {
      var c' := ClosestOf(x, s - {c});
      if Distance(x, c'.0, c'.1) <= Distance(x, c.0, c.1) {
        d := c';
      }
    }
  }

  /** Numbers of one length that read back as `x` have their last digit within a fixed range of places. */
  lemma ShortInRange(x: real, m: nat, p: int) returns (bound: nat, lo: int, hi: int)
    requires x > 0.0 && IsShort(x, m, p)
    ensures forall m': nat, p' :: IsShort(x, m', p') ==> m' < bound && lo <= p' < hi
  {
    bound := Pow10(|Digits(m)|);
    lo := SmallPower(x, bound);
    hi := (2.0 * x).Floor + 1;
    forall m': nat, p' | IsShort(x, m', p')
      ensures m' < bound && lo <= p' < hi
    {
      DigitsBound(m');
      Scale10Positive(m' as real, p');
      ReadsMagnitude(x, Scale10(m' as real, p'));
      RoundsWithinTwice(Scale10(m' as real, p'));
      if p' < lo {
        Scale10Grows(m', p', bound, lo);
        assert false;
      }
      if p' >= hi {
        LargePower(m', p');
        assert false;
      }
    }
  }

  /** A power of ten that takes `bound` below half of `x`. */
  lemma SmallPower(x: real, bound: nat) returns (p: int)
    requires x > 0.0
    ensures 2.0 * Scale10(bound as real, p) < x
  {
    var r := 2.0 * (bound as real) / x;
    assert r * x == 2.0 * bound as real;
    assert r >= 0.0;
    var n: int := r.Floor + 1;
    p := -n;
    LargePower(1, n);
    Scale10Inverse(bound as real, n);
    Scale10Positive(1.0, n);
    Quotient(Scale10(bound as real, p), Scale10(1.0, n), x, r, bound as real);
  }

  lemma Quotient(s: real, t: real, x: real, r: real, b: real)
    requires x > 0.0 && r < t && r * x == 2.0 * b && s * t == b && t > 0.0
    ensures 2.0 * s < x
  {
    assert (t - r) * x > 0.0;
    PositiveFactor(t, x - 2.0 * s);
  }

  lemma PositiveFactor(t: real, u: real)
    requires t > 0.0 && t * u > 0.0
    ensures u > 0.0
  {
  }

  lemma {:induction false} Scale10Inverse(v: real, n: int)
    requires n >= 0
    ensures Scale10(v, -n) * Scale10(1.0, n) == v
  {
    if n > 0 {
      Scale10Inverse(v, n - 1);
      var s, t := Scale10(v, -n), Scale10(1.0, n - 1);
      assert s * (10.0 * t) == (10.0 * s) * t;
    }
  }

  lemma {:induction false} LargePower(m: nat, p: nat)
    requires m > 0
    ensures Scale10(m as real, p) > p as real
  {
    if p > 0 {
      LargePower(m, p - 1);
    }
  }

  /** Neither a smaller number nor a smaller power of ten gives more. */
  lemma {:induction false} Scale10Grows(m: nat, p: int, n: nat, q: int)
    requires m <= n && p <= q
    ensures Scale10(m as real, p) <= Scale10(n as real, q)
    decreases q - p
  {
    if p < q {
      Scale10Grows(m, p, n, q - 1);
      Scale10Positive(n as real, q - 1);
      Scale10Positive(n as real, q);
    } else {
      Scale10Monotone(m as real, n as real, p);
    }
  }

  lemma {:induction false} Scale10Monotone(a: real, b: real, p: int)
    requires a <= b
    ensures Scale10(a, p) <= Scale10(b, p)
    decreases if p < 0 then -p else p
  {
    if p > 0 {
      Scale10Monotone(a, b, p - 1);
    } else if p < 0 {
      Scale10Monotone(a, b, p + 1);
    }
  }

  // ----- reading undoes printing -----

  lemma {:induction false} SpanOf(d: string, rest: string)
    requires AllDigits(d) && (rest == [] || !IsDigit(rest[0]))
    ensures DigitSpan(d + rest) == |d|
  {
    if d == [] {
      assert d + rest == rest;
    } else {
      assert (d + rest)[1..] == d[1..] + rest;
      SpanOf(d[1..], rest);
    }
  }

  lemma ReadIntText(n: int)
    requires InI64(n)
    ensures ReadI64(IntText(n)) == Some(n)
  {
    var m := if n < 0 then -n else n;
    NatOfDigits(m);
    if n < 0 {
      ReadDigitsSigned(Digits(m));
    } else {
      ReadDigits(m);
    }
  }

  lemma ReadDigits(m: nat)
    ensures ReadI64(Digits(m)) == SignedI64(false, m)
  {
    NatOfDigits(m);
    assert IsDigit(Digits(m)[0]);
  }

  lemma ReadDigitsSigned(s: string)
    requires s != [] && AllDigits(s)
    ensures ReadI64("-" + s) == SignedI64(true, NatOf(s))
  {
    assert ("-" + s)[1..] == s;
  }

  /** What reading the text `t` as an unsigned decimal must give. */
  ghost predicate ReadsAs(t: string, v: real) {
    var r := ReadMantissa(t);
    var e := ReadExponent(r.exponent);
    && e.Some? && r.digits != []
    && Scale10(NatOf(r.digits) as real, e.value - r.places) == v
  }

  lemma ReadPositional(m: nat, p: int)
    ensures ReadsAs(Positional(m, p), Scale10(m as real, p))
  {
    if p >= 0 {
      ReadWholePositional(m, p);
    } else {
      ReadPointPositional(m, p);
    }
  }

  lemma ReadWholePositional(m: nat, p: nat)
    ensures ReadsAs(Positional(m, p), Scale10(m as real, p))
    ensures AllDigits(Positional(m, p)) && NatOf(Positional(m, p)) == m * Pow10(p)
  {
    var t := Positional(m, p);
    NatOfDigits(m);
    NatOfConcat(Digits(m), Zeros(p));
    NatOfZeros(p);
    SpanOf(t, []);
    assert t + [] == t && t[..|t|] == t;
    Scale10Whole(m, p);
  }

  lemma ReadPointPositional(m: nat, p: int)
    requires p < 0
    ensures ReadsAs(Positional(m, p), Scale10(m as real, p))
    ensures !AllDigits(Positional(m, p))
  {
    hide AllDigits, ReadMantissa, Digits, Zeros, NatOf, Scale10;
    var s := Digits(m);
    NatOfDigits(m);
    if -p < |s| {
      PointInside(s, |s| + p);
    } else {
      PointBefore(s, -p - |s|);
    }
  }

  lemma PointInside(s: string, k: nat)
    requires AllDigits(s) && k < |s|
    ensures var t := s[..k] + "." + s[k..];
            ReadMantissa(t) == Mantissa(s, |s| - k, []) && !AllDigits(t)
  {
    SplitAtPoint(s[..k], s[k..]);
    assert s[..k] + s[k..] == s;
    assert (s[..k] + "." + s[k..])[k] == '.';
  }

  lemma PointBefore(s: string, k: nat)
    requires AllDigits(s)
    ensures var f := "0" + (Zeros(k) + s);
            AllDigits(f) && NatOf(f) == NatOf(s)
    ensures var t := "0" + "." + (Zeros(k) + s);
            ReadMantissa(t) == Mantissa("0" + (Zeros(k) + s), k + |s|, []) && !AllDigits(t)
  {
    ZeroPrefix(Zeros(1), s);
    ZeroPrefix(Zeros(k), s);
    var f := Zeros(k) + s;
    ZeroPrefix(Zeros(1), f);
    assert Zeros(1) == "0";
    SplitAtPoint("0", f);
    PointIsNoDigit("0", f);
  }

  lemma PointIsNoDigit(ip: string, fp: string)
    ensures !AllDigits(ip + "." + fp)
  {
    assert (ip + "." + fp)[|ip|] == '.';
  }

  lemma ZeroPrefix(z: string, s: string)
    requires z == Zeros(|z|) && AllDigits(s)
    ensures AllDigits(z + s) && NatOf(z + s) == NatOf(s)
  {
    NatOfConcat(z, s);
    NatOfZeros(|z|);
  }

  lemma SplitAtPoint(ip: string, fp: string)
    requires AllDigits(ip) && AllDigits(fp)
    ensures ReadMantissa(ip + "." + fp) == Mantissa(ip + fp, |fp|, [])
  {
    var u := ip + "." + fp;
    assert u == ip + ("." + fp);
    SpanOf(ip, "." + fp);
    assert u[..|ip|] == ip && u[|ip| + 1..] == fp;
    SpanOf(fp, []);
    assert fp + [] == fp;
  }

  lemma ReadWholeTenth(s: string)
    requires s != [] && AllDigits(s)
    ensures ReadsAs(s + ".0", NatOf(s) as real) && !AllDigits(s + ".0")
  {
    hide AllDigits, ReadMantissa;
    AppendZero(s);
    assert s + "." + "0" == s + ".0";
    SplitAtPoint(s, Zeros(1));
    PointIsNoDigit(s, "0");
  }

  lemma AppendZero(s: string)
    requires AllDigits(s)
    ensures Zeros(1) == "0"
    ensures AllDigits(s + Zeros(1))
    ensures Scale10(NatOf(s + Zeros(1)) as real, -1) == NatOf(s) as real
  {
    NatOfConcat(s, Zeros(1));
    NatOfZeros(1);
    assert Pow10(1) == 10;
  }

  /** The integer the parser reads from the text of the positive double `x`, when it reads one. */
  ghost function PrintedMagnitude(x: real): Option<nat>
    requires x > 0.0 && IsDouble(Fin(x))
  {
    if IsWhole(x) && x < TEN_16 as real then None
    else var (m, p) := Shortest(x); if p >= 0 then Some(m * Pow10(p)) else None
  }

  lemma ReadPositiveText(x: real)
    requires x > 0.0 && IsDouble(Fin(x))
    ensures exists v :: v > 0.0 && ReadsAs(PositiveText(x), v) && Round(v) == Fin(x)
    ensures var t := PositiveText(x);
            if PrintedMagnitude(x).None? then !AllDigits(t)
            else AllDigits(t) && NatOf(t) == PrintedMagnitude(x).value
  {
    if IsWhole(x) && x < TEN_16 as real {
      ReadWholeTenth(Digits(x.Floor));
      NatOfDigits(x.Floor);
      assert ReadsAs(PositiveText(x), x);
    } else {
      var (m, p) := Shortest(x);
      ReadPositional(m, p);
      Scale10Positive(m as real, p);
      assert ReadsAs(PositiveText(x), Scale10(m as real, p));
      if p >= 0 {
        ReadWholePositional(m, p);
      } else {
        ReadPointPositional(m, p);
      }
    }
  }

  // ----- the text of a double -----

  predicate IsNumberChar(c: char) {
    c in "+-0123456789.eE"
  }

  predicate NumberChars(t: string) {
    forall i :: 0 <= i < |t| ==> IsNumberChar(t[i])
  }

  /** The `Int` the parser reads from the text printed for `x`, if it reads one rather than a float. */
  ghost function PrintedInteger(x: F64): Option<int>
    requires IsDouble(x)
  {
    if !x.Fin? || x.v == 0.0 then None
    else if x.v > 0.0 then
      var n := PrintedMagnitude(x.v);
      if n.None? then None else SignedI64(false, n.value)
    else
      NegatedDouble(x.v);
      var n := PrintedMagnitude(-x.v);
      if n.None? then None else SignedI64(true, n.value)
  }

  predicate StartsWithDigit(t: string) {
    t != [] && IsDigit(t[0])
  }

  /** Text the parser takes for a number, whole: it starts like one and holds only number characters. */
  predicate LooksNumeric(t: string) {
    && NumberChars(t)
    && (StartsWithDigit(t) || (IsNegative(t) && StartsWithDigit(t[1..])))
  }

  lemma PositiveTextChars(x: real)
    requires x > 0.0 && IsDouble(Fin(x))
    ensures StartsWithDigit(PositiveText(x)) && NumberChars(PositiveText(x))
  {
    hide IsDouble, StartsWithDigit, NumberChars, Positional;
    if IsWhole(x) && x < TEN_16 as real {
      assert Digits(x.Floor) + "." + "0" == PositiveText(x);
      PointedChars(Digits(x.Floor), "0");
    } else {
      var (m, p) := Shortest(x);
      PositionalChars(m, p);
    }
  }

  lemma PositionalChars(m: nat, p: int)
    ensures StartsWithDigit(Positional(m, p)) && NumberChars(Positional(m, p))
  {
    hide Digits, Zeros, StartsWithDigit, NumberChars;
    var s := Digits(m);
    if p >= 0 {
      DigitChars(s + Zeros(p));
    } else {
      if -p < |s| {
        PointedChars(s[..|s| + p], s[|s| + p..]);
      } else {
        PointedChars("0", Zeros(-p - |s|) + s);
      }
    }
  }

  lemma DigitChars(t: string)
    requires t != [] && AllDigits(t)
    ensures StartsWithDigit(t) && NumberChars(t)
  {
  }

  lemma PointedChars(ip: string, fp: string)
    requires ip != [] && AllDigits(ip) && AllDigits(fp)
    ensures StartsWithDigit(ip + "." + fp) && NumberChars(ip + "." + fp)
  {
  }

  lemma ReadSigned(t: string, v: real)
    requires ReadsAs(Unsigned(t), v) && v > 0.0
    ensures ReadF64(t) == Some(Round(if IsNegative(t) then -v else v))
  {
    hide Round, Scale10, ReadMantissa, ReadExponent;
    var m := ReadMantissa(Unsigned(t));
    NonzeroDigits(NatOf(m.digits), ReadExponent(m.exponent).value - m.places);
  }

  lemma NonzeroDigits(m: nat, p: int)
    requires Scale10(m as real, p) > 0.0
    ensures m > 0
  {
    Scale10Zero(p);
  }

  lemma {:induction false} Scale10Zero(p: int)
    ensures Scale10(0.0, p) == 0.0
    decreases if p < 0 then -p else p
  {
    if p > 0 {
      Scale10Zero(p - 1);
    } else if p < 0 {
      Scale10Zero(p + 1);
    }
  }

  /** What the parser makes of the text `t` printed for `x`. */
  ghost predicate ReadsFloat(t: string, x: F64)
    requires IsDouble(x)
  {
    && ReadF64(t) == Some(x)
    && ReadI64(t) == PrintedInteger(x)
    && LooksNumeric(t)
  }

  lemma ReadFloatText(x: F64)
    requires IsDouble(x) && (x.NegZero? || x.Fin?)
    ensures ReadsFloat(FloatText(x), x)
  {
    hide IsDouble, ReadF64, ReadI64, LooksNumeric, PrintedMagnitude;
    if x.NegZero? || x.v == 0.0 {
      ReadZeroText();
    } else if x.v > 0.0 {
      ReadNonzero(x.v, false, PositiveText(x.v));
    } else {
      NegatedDouble(x.v);
      ReadNonzero(-x.v, true, "-" + PositiveText(-x.v));
    }
  }

  lemma ReadNonzero(a: real, neg: bool, t: string)
    requires a > 0.0 && IsDouble(Fin(a))
    requires t == if neg then "-" + PositiveText(a) else PositiveText(a)
    ensures ReadF64(t) == Some(Fin(if neg then -a else a))
    ensures ReadI64(t) ==
            match PrintedMagnitude(a) {
              case None => None
              case Some(n) => SignedI64(neg, n)
            }
    ensures LooksNumeric(t)
  {
    var u := PositiveText(a);
    ReadPositiveText(a);
    PositiveTextChars(a);
    SignedText(u, neg);
    ReadSignedI64(t);
    var v :| v > 0.0 && ReadsAs(u, v) && Round(v) == Fin(a);
    ReadSignedF64(t, v, a);
  }

  lemma ReadSignedF64(t: string, v: real, a: real)
    requires v > 0.0 && ReadsAs(Unsigned(t), v) && Round(v) == Fin(a) && a > 0.0
    ensures ReadF64(t) == Some(Fin(if IsNegative(t) then -a else a))
  {
    ReadSigned(t, v);
    RoundOpposite(v);
  }

  lemma SignedText(u: string, neg: bool)
    requires StartsWithDigit(u) && NumberChars(u)
    ensures var t := if neg then "-" + u else u;
            Unsigned(t) == u && IsNegative(t) == neg && LooksNumeric(t)
  {
    assert ("-" + u)[1..] == u;
  }

  lemma ReadSignedI64(t: string)
    requires StartsWithDigit(Unsigned(t))
    ensures var u := Unsigned(t);
            ReadI64(t) == if AllDigits(u) then SignedI64(IsNegative(t), NatOf(u)) else None
  {
  }

  lemma RoundOpposite(v: real)
    requires v > 0.0 && Round(v).Fin? && Round(v).v > 0.0
    ensures Round(-v) == Fin(-Round(v).v)
  {
  }

  lemma ReadZeroText()
    ensures ReadF64("0.0") == Some(Fin(0.0)) && ReadI64("0.0") == None && LooksNumeric("0.0")
    ensures ReadF64("-0.0") == Some(NegZero) && ReadI64("-0.0") == None && LooksNumeric("-0.0")
  {
    var u := "0" + "." + "0";
    assert u == "0.0" && "-" + u == "-0.0";
    SignedText(u, false);
    SignedText(u, true);
    PointIsNoDigit("0", "0");
    SplitAtPoint("0", "0");
    DoubleZero();
    RoundZero();
    Scale10Zero(-1);
  }

  lemma DoubleZero()
    ensures AllDigits("0" + "0") && NatOf("0" + "0") == 0
  {
    assert "0" + "0" == Zeros(2);
    NatOfZeros(2);
  }

  lemma RoundZero()
    ensures Round(0.0) == Fin(0.0)
  {
    Pow2Positive(1024);
    var e := LastPlace(0.0);
    ScaleZero(-e);
    ScaleZero(e);
    assert RoundMagnitude(0.0) == 0.0;
  }

  // ----- which doubles are read back as integers -----

  const TWO_63 := 9223372036854775808.0

  lemma Read63(a: int)
    requires 0 <= a < 0x8000_0000_0000_0000 && RoundMagnitude(a as real) == TWO_63
    ensures a >= 0x7FFF_FFFF_FFFF_FE00
  {
    hide RoundMagnitude;
    Pow2Values();
    if a <= 0x4000_0000_0000_0000 {
      RoundAtMost(a as real, 62);
    } else {
      assert IsLastPlace(a as real, 10);
      RoundAt(a as real, 10, 1024.0);
      assert NearestEven(a as real / 1024.0) == 0x20_0000_0000_0000;
    }
  }

  lemma Round63()
    ensures Round(9223372036854776000.0) == Fin(TWO_63)
  {
    hide Round, RoundMagnitude;
    Pow2Values();
    assert IsLastPlace(9223372036854776000.0, 11);
    assert NearestEven(9223372036854776000.0 / 2048.0) == 0x10_0000_0000_0000;
    RoundAt(9223372036854776000.0, 11, 2048.0);
    RoundInRange(9223372036854776000.0, 9223372036854775808.0);
  }

  lemma ShortestOf63(m: nat, p: int)
    requires IsShortest(TWO_63, m, p)
    ensures |Digits(m)| <= 16
  {
    hide Round;
    Round63();
    Pow10Sixteen();
    DigitsAtMost(9223372036854776, 16);
    Scale10Whole(9223372036854776, 3);
    assert Pow10(3) == 1000;
    assert ReadsBack(TWO_63, 9223372036854776, 3);
  }

  /** The first double past i64 is not printed as an i64, although the largest i64 would round to it. */
  lemma Print63(m: nat, p: nat)
    requires IsShortest(TWO_63, m, p)
    ensures m * Pow10(p) > I64_MAX
  {
    hide Round;
    var n := m * Pow10(p);
    assert m < TEN_16 by {
      ShortestOf63(m, p);
      DigitsBound(m);
      Pow10Grows(|Digits(m)|, 16);
      Pow10Sixteen();
    }
    NoSuchMultiple(m, p);
    if n <= I64_MAX {
      ReadsBackWhole(TWO_63, m, p);
      Read63(n);
    }
  }

  lemma ReadsBackWhole(x: real, m: nat, p: nat)
    requires ReadsBack(x, m, p)
    ensures RoundMagnitude((m * Pow10(p)) as real) == x
  {
    hide RoundMagnitude;
    Scale10Whole(m, p);
  }

  lemma Pow10Sixteen()
    ensures Pow10(16) == TEN_16
  {
    assert Pow10(4) == 10000;
    Pow10Add(4, 4);
    Pow10Add(8, 8);
  }

  lemma NoSuchMultiple(m: nat, p: nat)
    requires m < TEN_16
    ensures !(0x7FFF_FFFF_FFFF_FE00 <= m * Pow10(p) <= 0x7FFF_FFFF_FFFF_FFFF)
  {
    if p >= 3 {
      var k := Thousands(m, p);
    } else {
      SmallPower10(p);
    }
  }

  lemma SmallPower10(p: nat)
    ensures p <= 3 ==> Pow10(p) == if p == 0 then 1 else if p == 1 then 10 else if p == 2 then 100 else 1000
  {
  }

  lemma Thousands(m: nat, p: nat) returns (k: nat)
    requires p >= 3
    ensures m * Pow10(p) == 1000 * k
  {
    SmallPower10(3);
    hide Pow10;
    Pow10Add(3, p - 3);
    k := m * Pow10(p - 3);
    Regroup3(m, 1000, Pow10(p - 3));
  }

  lemma Regroup3(m: nat, c: nat, t: nat)
    ensures m * (c * t) == c * (m * t)
  {
  }

  /** A double is printed as an i64 only if it is whole, at least 10^16 in magnitude, and in range itself. */
  lemma PrintedIntegerRange(x: F64)
    requires IsDouble(x) && PrintedInteger(x).Some?
    ensures x.Fin? && IsWhole(x.v) && -TWO_63 <= x.v < TWO_63
    ensures x.v >= TEN_16 as real || x.v <= -(TEN_16 as real)
  {
    hide Round;
    var a := if x.v > 0.0 then x.v else -x.v;
    if x.v < 0.0 {
      NegatedDouble(x.v);
    }
    PrintedMagnitudeRange(a);
    WholeOpposite(a);
  }

  lemma WholeOpposite(a: real)
    requires IsWhole(a)
    ensures IsWhole(-a)
  {
    var n := a.Floor;
    assert (-n) as real == -a && (-a).Floor == -n;
  }

  lemma PrintedMagnitudeRange(a: real)
    requires a > 0.0 && IsDouble(Fin(a)) && PrintedMagnitude(a).Some?
    ensures IsWhole(a) && a >= TEN_16 as real
    ensures PrintedMagnitude(a).value <= -I64_MIN ==> a <= TWO_63
    ensures PrintedMagnitude(a).value <= I64_MAX ==> a < TWO_63
  {
    var (m, p) := Shortest(a);
    var n := m * Pow10(p);
    Scale10Whole(m, p);
    RoundWhole(n as real);
    Pow2Values();
    if n <= -I64_MIN {
      RoundAtMost(n as real, 63);
    }
    if a == TWO_63 {
      Print63(m, p);
    }
  }

  // ----- a double whose text reads back as a different number -----

  const TWO_60 := 1152921504606846976.0

  lemma Round60()
    ensures IsDouble(Fin(TWO_60)) && Round(1152921504606847000.0) == Fin(TWO_60)
  {
    hide Round, RoundMagnitude;
    Pow2Values();
    assert IsLastPlace(TWO_60, 8) && IsLastPlace(1152921504606847000.0, 8);
    assert NearestEven(TWO_60 / 256.0) == 0x10_0000_0000_0000;
    assert NearestEven(1152921504606847000.0 / 256.0) == 0x10_0000_0000_0000;
    RoundAt(TWO_60, 8, 256.0);
    RoundInRange(TWO_60, 1152921504606846976.0);
    RoundAt(1152921504606847000.0, 8, 256.0);
    RoundInRange(1152921504606847000.0, 1152921504606846976.0);
  }

  /** What rounds to 2^60 is within one last place of it. */
  lemma Read60(v: real)
    requires v >= 0.0 && RoundMagnitude(v) == TWO_60
    ensures TWO_60 - 256.0 <= v <= TWO_60 + 256.0
  {
    hide RoundMagnitude;
    Pow2Values();
    if v >= Scale(1.0, 61) {
      RoundAtLeast(v, 61);
    } else if v >= TWO_60 {
      assert IsLastPlace(v, 8);
      RoundAt(v, 8, 256.0);
    } else if v > Scale(1.0, 59) {
      assert IsLastPlace(v, 7);
      RoundAt(v, 7, 128.0);
    } else {
      RoundAtMost(v, 59);
    }
  }

  lemma Print60(m: nat, p: int)
    requires IsShortest(TWO_60, m, p)
    ensures p >= 0 && m * Pow10(p) == 1152921504606847000
  {
    hide Round;
    Round60();
    Pow10Sixteen();
    Scale10Whole(1152921504606847, 3);
    assert Pow10(3) == 1000;
    assert ReadsBack(TWO_60, 1152921504606847, 3);
    DigitsAtMost(1152921504606847, 16);
    DigitsBound(m);
    Pow10Grows(|Digits(m)|, 16);
    Scale10Positive(m as real, p);
    ReadsMagnitude(TWO_60, Scale10(m as real, p));
    Read60(Scale10(m as real, p));
    if p < 0 {
      Scale10Shrinks(m as real, p);
      assert false;
    }
    Scale10Whole(m, p);
    OnlyMultiple(m, p);
  }

  lemma ReadsMagnitude(x: real, v: real)
    requires Round(v) == Fin(x) && v > 0.0
    ensures RoundMagnitude(v) == x
  {
  }

  lemma {:induction false} Scale10Shrinks(v: real, p: int)
    requires v >= 0.0 && p <= 0
    ensures 0.0 <= Scale10(v, p) <= v
    decreases -p
  {
    if p < 0 {
      Scale10Shrinks(v, p + 1);
    }
  }

  lemma OnlyMultiple(m: nat, p: nat)
    requires m < TEN_16
    ensures 1152921504606846720 <= m * Pow10(p) <= 1152921504606847232 ==>
            m * Pow10(p) == 1152921504606847000
  {
    if p >= 3 {
      var k := Thousands(m, p);
    } else {
      SmallPower10(p);
    }
  }

  /** 2^60 prints as 1152921504606847000, which the parser reads as that integer. */
  lemma LossyDouble()
    ensures IsDouble(Fin(TWO_60)) && PrintedInteger(Fin(TWO_60)) == Some(1152921504606847000)
  {
    hide Round;
    Round60();
    var (m, p) := Shortest(TWO_60);
    Print60(m, p);
  }
}
