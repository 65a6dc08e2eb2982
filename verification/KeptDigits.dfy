/**
 Which large whole floats keep their digits in print. The printer writes a float of magnitude
 10^16 or more with the fewest digits that read back as it, and fills up with zeros. The integer
 so written is the float itself exactly when no rounder number rounds to that float.
 */
module KeptDigits {
  import opened Arithmetic
  import opened DecimalText
  import opened Floats
  import opened NumberText
  import opened Wrappers

  const END_63: nat := 0x8000_0000_0000_0000

  /** How many zeros `n` ends in. */
  function TrailingZeros(n: nat): nat
    requires n > 0
  {
    if n % 10 == 0 then TrailingZeros(n / 10) + 1 else 0
  }

  /** `n` without the zeros at its end. */
  function Stripped(n: nat): nat
    requires n > 0
  {
    if n % 10 == 0 then Stripped(n / 10) else n
  }

  /** `n` is near `a`, ends in more zeros, and rounds to it. */
  predicate IsRounder(a: nat, n: nat)
    requires a > 0
  {
    && a - 512 <= n <= a + 512
    && n % Pow10(TrailingZeros(a) + 1) == 0
    && Round(n as real) == Fin(a as real)
  }

  predicate KeepsDigits(a: nat)
    requires a > 0
  {
    forall n: nat | a - 512 <= n <= a + 512 :: !IsRounder(a, n)
  }

  /** No decimal that reads back as `x` has fewer than `d` digits. */
  ghost predicate FewestIs(x: real, d: nat) {
    forall m: nat, p :: ReadsBack(x, m, p) ==> d <= |Digits(m)|
  }

  // ----- digits and zeros -----

  lemma {:induction false} StrippedTimes(n: nat)
    requires n > 0
    ensures Stripped(n) > 0 && n == Stripped(n) * Pow10(TrailingZeros(n))
  {
    if n % 10 == 0 {
      StrippedTimes(n / 10);
      var s, t := Stripped(n), Pow10(TrailingZeros(n / 10));
      assert 10 * (s * t) == s * (10 * t);
    }
  }

  lemma {:induction false} DigitsAtLeast(n: nat)
    requires n > 0
    ensures Pow10(|Digits(n)| - 1) <= n
  {
    if n >= 10 {
      DigitsAtLeast(n / 10);
    }
  }

  lemma {:induction false} DigitsMonotone(m: nat, n: nat)
    requires m <= n
    ensures |Digits(m)| <= |Digits(n)|
  {
    if m >= 10 {
      DigitsMonotone(m / 10, n / 10);
    }
  }

  lemma {:induction false} StrippedIsShorter(n: nat)
    requires n > 0
    ensures |Digits(Stripped(n))| <= |Digits(n)|
  {
    if n % 10 == 0 {
      StrippedIsShorter(n / 10);
    }
  }

  /** No way to write `a` itself has fewer digits than `a` without its trailing zeros. */
  lemma {:induction false} ExactDigits(a: nat, m: nat, p: nat)
    requires a > 0 && a == m * Pow10(p)
    ensures |Digits(Stripped(a))| <= |Digits(m)|
    decreases p
  {
    hide Digits;
    if p == 0 {
      StrippedIsShorter(a);
    } else {
      var b := m * Pow10(p - 1);
      TenTimesProduct(m, Pow10(p - 1));
      StrippedTenfold(b);
      ExactDigits(b, m, p - 1);
    }
  }

  lemma StrippedTenfold(b: nat)
    requires b > 0
    ensures Stripped(10 * b) == Stripped(b)
  {
  }

  /** The powers of ten on either side of `a`, in terms of its digits and zeros. */
  lemma Bracket(a: nat, d: nat, z: nat)
    requires a > 0 && d == |Digits(Stripped(a))| && z == TrailingZeros(a)
    ensures Pow10(d - 1 + z) <= a < Pow10(d + z)
  {
    hide Digits, Pow10;
    var s := Stripped(a);
    StrippedTimes(a);
    DigitsAtLeast(s);
    DigitsBound(s);
    Pow10Add(d - 1, z);
    Pow10Add(d, z);
    var t := Pow10(z);
    Times(Pow10(d - 1), s, t);
    TimesNext(s, Pow10(d), t);
  }

  lemma Times(m: nat, n: nat, t: nat)
    requires m <= n
    ensures m * t <= n * t
  {
  }

  lemma TimesNext(m: nat, n: nat, t: nat)
    requires m < n
    ensures m * t + t <= n * t
  {
    var k: nat := n - m - 1;
    assert (m + 1 + k) * t == m * t + t + k * t;
  }

  // ----- rounding to a -----

  /** Below 2^63 a double is at most 512 from what rounds to it. */
  lemma RoundsWithin512(n: nat, a: nat)
    requires a < END_63 && RoundMagnitude(n as real) == a as real
    ensures a - 512 <= n <= a + 512
  {
    hide RoundMagnitude, Scale;
    Pow2Values();
    if n >= END_63 {
      RoundAtLeast(n as real, 63);
      assert false;
    }
    var e := LastPlace(n as real);
    if e > 10 {
      Pow2Grows(63, e + 52);
      assert false;
    }
    RoundsNear(n as real, e);
    ScaleHalf(e);
    Pow2Grows(e, 10);
  }

  lemma RoundsTo(v: real, a: nat)
    requires v >= 0.0 && 0 < a < END_63
    ensures Round(v) == Fin(a as real) <==> RoundMagnitude(v) == a as real
  {
    hide RoundMagnitude;
    if RoundMagnitude(v) == a as real {
      RoundInRange(v, a as real);
    }
  }

  /** What lies between `a` and a number that rounds to `a` rounds to `a`. */
  lemma RoundsBetween(v: real, w: real, a: nat)
    requires v >= 0.0 && 0 < a < END_63 && IsDouble(Fin(a as real)) && Round(v) == Fin(a as real)
    requires v <= w <= a as real || a as real <= w <= v
    ensures Round(w) == Fin(a as real)
  {
    hide RoundMagnitude, Round;
    RoundsTo(v, a);
    RoundsTo(w, a);
    RoundsTo(a as real, a);
    if v <= w {
      RoundMonotone(v, w);
    } else {
      RoundMonotone(w, v);
    }
    if w <= a as real {
      RoundMonotone(w, a as real);
    } else {
      RoundMonotone(a as real, w);
    }
  }

  // ----- rounder numbers are shorter decimals -----

  /** A multiple of the next power of ten that rounds to `a` is a rounder number near it. */
  lemma MultipleIsRounder(a: nat, n: nat)
    requires 0 < a < END_63 && n % Pow10(TrailingZeros(a) + 1) == 0 && Round(n as real) == Fin(a as real)
    ensures !KeepsDigits(a)
  {
    hide Round, Pow10;
    RoundsTo(n as real, a);
    RoundsWithin512(n, a);
    assert IsRounder(a, n);
  }

  /** A decimal with fewer digits gives a rounder number near `a`: itself, or the power of ten between. */
  lemma FewerDigitsLost(a: nat, m: nat, p: int)
    requires TEN_16 <= a < END_63 && IsDouble(Fin(a as real)) && ReadsBack(a as real, m, p)
    requires |Digits(m)| < |Digits(Stripped(a))|
    ensures !KeepsDigits(a)
  {
    hide Round, Digits, Scale10, Pow10, IsDouble, KeepsDigits, TrailingZeros, Stripped;
    var z := TrailingZeros(a);
    if p > z {
      Scale10Whole(m, p);
      Multiple(m, p, z + 1);
      MultipleIsRounder(a, m * Pow10(p));
    } else {
      PowerBetween(a, m, p, |Digits(Stripped(a))|, z);
    }
  }

  lemma PowerBetween(a: nat, m: nat, p: int, d: nat, z: nat)
    requires TEN_16 <= a < END_63 && IsDouble(Fin(a as real)) && ReadsBack(a as real, m, p)
    requires d == |Digits(Stripped(a))| && z == TrailingZeros(a) && |Digits(m)| < d && p <= z
    ensures !KeepsDigits(a)
  {
    hide Round, Digits, Scale10, Pow10, IsDouble, KeepsDigits, TrailingZeros, Stripped;
    var t, n := Pow10(d - 1), Pow10(d - 1 + z);
    Bracket(a, d, z);
    DigitsBound(m);
    Pow10Grows(|Digits(m)|, d - 1);
    Pow10Add(d - 1, z);
    Scale10Grows(m, p, t, z);
    Scale10Whole(t, z);
    Scale10Positive(m as real, p);
    RoundsBetween(Scale10(m as real, p), n as real, a);
    Multiple(1, d - 1 + z, z + 1);
    MultipleIsRounder(a, n);
  }

  lemma Multiple(m: nat, p: nat, q: nat)
    requires q <= p
    ensures m * Pow10(p) % Pow10(q) == 0
  {
    hide Pow10;
    var t, k := Pow10(q), Pow10(p - q);
    Pow10Add(q, p - q);
    Regroup3(m, t, k);
    DivModUnique(t * (m * k), t, m * k, 0);
  }

  /** A rounder number near `a` gives a decimal with fewer digits. */
  lemma LostFewerDigits(a: nat, n: nat) returns (m: nat, p: nat)
    requires TEN_16 <= a < END_63 && IsDouble(Fin(a as real)) && IsRounder(a, n)
    ensures ReadsBack(a as real, m, p) && |Digits(m)| < |Digits(Stripped(a))|
  {
    hide Round, Digits, Scale10, Pow10, IsDouble;
    var d, z := |Digits(Stripped(a))|, TrailingZeros(a);
    Bracket(a, d, z);
    var t := Pow10(z + 1);
    m, p := n / t, z + 1;
    assert n == m * t;
    if n < Pow10(d + z) {
      FewDigits(m, n, d, z);
      Scale10Whole(m, p);
    } else {
      if d == 1 {
        OneDigit(a, z);
        assert false;
      }
      m, p := 1, d + z;
      Scale10Whole(m, p);
      RoundsBetween(n as real, Pow10(p) as real, a);
      SmallPowers();
    }
  }

  lemma SmallPowers()
    ensures Pow10(0) == 1 && Pow10(1) == 10 && |Digits(1)| == 1
  {
  }

  lemma FewDigits(m: nat, n: nat, d: nat, z: nat)
    requires 0 < n < Pow10(d + z) && n == m * Pow10(z + 1) && d > 0
    ensures d > 1 && 0 < m && |Digits(m)| < d
  {
    Pow10Add(d - 1, z + 1);
    assert m < Pow10(d - 1) by {
      hide Pow10;
      if m >= Pow10(d - 1) {
        Times(Pow10(d - 1), m, Pow10(z + 1));
      }
    }
    SmallPowers();
    assert d > 1;
    DigitsAtMost(m, d - 1);
  }

  /** With a single digit before its zeros, `a` is far from any number with more zeros. */
  lemma OneDigit(a: nat, z: nat)
    requires TEN_16 <= a < END_63 && z == TrailingZeros(a) && |Digits(Stripped(a))| == 1
    ensures a + 512 < Pow10(z + 1)
  {
    hide Digits, Pow10;
    var s := Stripped(a);
    StrippedTimes(a);
    DigitsBound(s);
    SmallPowers();
    TimesNext(s, 10, Pow10(z));
    Pow10Add(1, z);
    Pow10Sixteen();
    if z < 15 {
      Pow10Grows(z + 1, 16);
      assert false;
    }
    Pow10Grows(3, z);
    Thousand();
  }

  lemma Thousand()
    ensures Pow10(3) == 1000
  {
  }

  /** Keeping its digits, stated by rounding, is having the fewest: what can be checked is what matters. */
  lemma KeepsDigitsIsFewest(a: nat)
    requires TEN_16 <= a < END_63 && IsDouble(Fin(a as real))
    ensures KeepsDigits(a) <==> FewestIs(a as real, |Digits(Stripped(a))|)
  {
    hide IsDouble, IsRounder, ReadsBack, Digits;
    if !KeepsDigits(a) {
      var n: nat :| IsRounder(a, n);
      var m, p := LostFewerDigits(a, n);
    }
    if !FewestIs(a as real, |Digits(Stripped(a))|) {
      var m: nat, p :| ReadsBack(a as real, m, p) && |Digits(m)| < |Digits(Stripped(a))|;
      FewerDigitsLost(a, m, p);
    }
  }

  // ----- what is printed -----

  /** The decimal chosen for `a` is `a` itself exactly when its own digits are among the fewest. */
  lemma ShortestIsExact(a: nat, m: nat, p: int)
    requires a > 0 && IsDouble(Fin(a as real)) && IsShortest(a as real, m, p)
    ensures Scale10(m as real, p) == a as real <==> FewestIs(a as real, |Digits(Stripped(a))|)
  {
    var s, z := Stripped(a), TrailingZeros(a);
    StrippedTimes(a);
    Scale10Whole(s, z);
    if Scale10(m as real, p) == a as real {
      WholeValueDigits(a, m, p);
    }
    if FewestIs(a as real, |Digits(s)|) {
      assert ReadsBack(a as real, s, z);
      assert IsShort(a as real, s, z);
      assert Distance(a as real, s, z) == 0.0;
    }
  }

  lemma WholeValueDigits(a: nat, m: nat, p: int)
    requires a > 0 && Scale10(m as real, p) == a as real
    ensures |Digits(Stripped(a))| <= |Digits(m)|
  {
    if p >= 0 {
      Scale10Whole(m, p);
      ExactDigits(a, m, p);
    } else {
      Scale10Shrinks(m as real, p);
      StrippedIsShorter(a);
      DigitsMonotone(a, m);
    }
  }

  /** A shortest decimal with fewer digits than `a`'s own has no fraction. */
  lemma ShorterIsWhole(a: nat, m: nat, p: int)
    requires a > 0 && ReadsBack(a as real, m, p)
    requires |Digits(m)| < |Digits(Stripped(a))|
    ensures p >= 0
  {
    hide Digits, Scale10, Round, Pow10;
    if p < 0 {
      var d, z := |Digits(Stripped(a))|, TrailingZeros(a);
      var v := Scale10(m as real, p);
      Bracket(a, d, z);
      Pow10Grows(d - 1, d - 1 + z);
      DigitsBound(m);
      Pow10Grows(|Digits(m)|, d - 1);
      Scale10Grows(m, p, m, -1);
      TenthOf(m);
      Scale10Positive(m as real, p);
      ReadsMagnitude(a as real, v);
      RoundsWithinTwice(v);
      assert false;
    }
  }

  lemma TenthOf(m: nat)
    ensures Scale10(m as real, -1) == m as real / 10.0
  {
  }

  /** The integer printed for `a`, if one is, when it is below 2^63. */
  lemma PrintedWhole(a: nat)
    requires TEN_16 <= a < END_63 && IsDouble(Fin(a as real))
    ensures var n := PrintedMagnitude(a as real);
            if KeepsDigits(a) then n == None || n == Some(a)
            else n.Some? && n.value < END_63 && n.value != a
  {
    hide IsDouble, IsShortest, Scale10, Round, RoundMagnitude, Digits, Pow10, KeepsDigits;
    var x := a as real;
    var (m, p) := Shortest(x);
    KeepsDigitsIsFewest(a);
    ShortestIsExact(a, m, p);
    if !KeepsDigits(a) {
      FewerThanOwn(a, m, p);
      ShorterIsWhole(a, m, p);
    }
    if p >= 0 {
      Scale10Whole(m, p);
      ShortestReads(x, m, p);
      ReadsBackWhole(x, m, p);
      Below63(m * Pow10(p), a);
    }
  }

  lemma ShortestReads(x: real, m: nat, p: int)
    requires IsShortest(x, m, p)
    ensures ReadsBack(x, m, p)
  {
  }

  lemma FewerThanOwn(a: nat, m: nat, p: int)
    requires a > 0 && IsShortest(a as real, m, p) && !FewestIs(a as real, |Digits(Stripped(a))|)
    ensures ReadsBack(a as real, m, p) && |Digits(m)| < |Digits(Stripped(a))|
  {
  }

  lemma Below63(n: nat, a: nat)
    requires a < END_63 && RoundMagnitude(n as real) == a as real
    ensures n < END_63
  {
    Pow2Values();
    if n >= END_63 {
      RoundAtLeast(n as real, 63);
    }
  }

  /** A whole float that fits i64 and is printed without a point: 10^16 or more in magnitude. */
  predicate IsLarge(x: F64) {
    x.Fin? && IsWhole(x.v) && (TEN_16 as real <= x.v < TWO_63 || -TWO_63 < x.v <= -(TEN_16 as real))
  }

  function Magnitude(x: F64): nat
    requires IsLarge(x)
  {
    if x.v > 0.0 then x.v.Floor else -x.v.Floor
  }

  /** A large whole float comes back from its text when no rounder number rounds to it; every other float does. */
  predicate ComesBack(x: F64) {
    IsLarge(x) ==> KeepsDigits(Magnitude(x))
  }

  /** The integer read from a float's text, if one is, is the float exactly on that condition. */
  lemma ComesBackExactly(x: F64)
    requires IsDouble(x)
    ensures (PrintedInteger(x).Some? ==> PrintedInteger(x).value as real == x.v) <==> ComesBack(x)
  {
    hide IsDouble, PrintedMagnitude, KeepsDigits;
    if IsLarge(x) {
      var a := Magnitude(x);
      if x.v < 0.0 {
        NegatedDouble(x.v);
      }
      PrintedWhole(a);
    } else if PrintedInteger(x).Some? {
      PrintedIntegerRange(x);
      NegatedDouble(x.v);
      LeastInteger();
    }
  }

  /** 2^63 is not printed as an i64, so -2^63 is printed as itself if as an i64 at all. */
  lemma LeastInteger()
    requires IsDouble(Fin(TWO_63))
    ensures PrintedMagnitude(TWO_63).Some? ==> PrintedMagnitude(TWO_63).value > I64_MAX
  {
    hide IsDouble, IsShortest;
    var (m, p) := Shortest(TWO_63);
    if p >= 0 {
      Print63(m, p);
    }
  }

  // ----- a float with two shortest decimals -----

  const TIE := 18014398509481988.0

  lemma Power54()
    ensures Scale(1.0, 2) == 4.0 && Scale(1.0, 54) == 18014398509481984.0 && Scale(1.0, 55) == 36028797018963968.0
  {
    Pow2Values();
    ScaleStep(1.0, 54);
    ScaleStep(1.0, 55);
  }

  /** 2^54 + 4 is printed with its own digits, although 18014398509481987 reads back as it too and is as short. */
  lemma TieComesBack()
    ensures Round(18014398509481987.0) == Round(TIE) == Fin(TIE)
    ensures ComesBack(Fin(TIE))
  {
    hide Round, RoundMagnitude;
    var a: nat := 18014398509481988;
    Near54(18014398509481987);
    Near54(a);
    assert NearestEven(18014398509481987.0 / 4.0) == 4503599627370497;
    assert NearestEven(TIE / 4.0) == 4503599627370497;
    RoundsTo(18014398509481987.0, a);
    RoundsTo(TIE, a);
    forall n: nat | a - 512 <= n <= a + 512
      ensures !IsRounder(a, n)
    {
      if IsRounder(a, n) {
        assert Pow10(TrailingZeros(a) + 1) == 10;
        RoundsTo(n as real, a);
        Near54(n);
      }
    }
  }

  /** From 2^54 on, floats are multiples of four. */
  lemma Near54(n: nat)
    requires 18014398509481476 <= n <= 18014398509482500
    ensures n >= 18014398509481984 ==> RoundMagnitude(n as real) == NearestEven(n as real / 4.0) as real * 4.0
    ensures n < 18014398509481984 ==> RoundMagnitude(n as real) <= 18014398509481984.0
  {
    hide RoundMagnitude;
    Power54();
    if n >= 18014398509481984 {
      assert IsLastPlace(n as real, 2);
      RoundAt(n as real, 2, 4.0);
    } else {
      RoundAtMost(n as real, 54);
    }
  }
}
