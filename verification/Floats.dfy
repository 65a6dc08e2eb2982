/**
 The IEEE 754 binary64 values the JSON core carries, by exact real value, and rounding to
 the nearest double with ties to even.
 */
module Floats {

  /** `Fin(0.0)` is positive zero. */
  datatype F64 = NaN | Inf(neg: bool) | NegZero | Fin(v: real)

  /** `v` times two to the `e`. */
  function Scale(v: real, e: int): real
    decreases if e < 0 then -e else e
  {
    if e == 0 then v else if e > 0 then 2.0 * Scale(v, e - 1) else Scale(v, e + 1) / 2.0
  }

  /** `e` is the exponent of `a`'s last binary place: 53 significant bits, none below 2^-1074. */
  predicate IsLastPlace(a: real, e: int) {
    && -1074 <= e <= 971
    && (e == -1074 || Scale(1.0, e + 52) <= a)
    && (e == 971 || a < Scale(1.0, e + 53))
  }

  function LastPlace(a: real): (e: int)
    ensures IsLastPlace(a, e)
  {
    HasLastPlace(a, 971);
    LastPlaceUnique(a);
    var e :| -1074 <= e <= 971 && IsLastPlace(a, e);
    e
  }

  /** Nearest integer, ties to even. */
  function NearestEven(a: real): (q: int)
    ensures -0.5 <= a - q as real <= 0.5
  {
    var q := a.Floor;
    var frac := a - q as real;
    if frac < 0.5 || (frac == 0.5 && q % 2 == 0) then q else q + 1
  }

  /** A magnitude rounded to 53 significant bits, before the overflow check. */
  function RoundMagnitude(a: real): (r: real)
    requires a >= 0.0
  {
    var e := LastPlace(a);
    Scale(NearestEven(Scale(a, -e)) as real, e)
  }

  /** Round-to-nearest-even, as every correctly rounded reader of decimals does. */
  function Round(v: real): F64 {
    var r := RoundMagnitude(if v < 0.0 then -v else v);
    if r >= Scale(1.0, 1024) then Inf(v < 0.0)
    else if v < 0.0 then (if r == 0.0 then NegZero else Fin(-r))
    else Fin(r)
  }

  /** A finite value is a double exactly when rounding leaves it alone. */
  predicate IsDouble(x: F64) {
    x.Fin? ==> Round(x.v) == x
  }

  predicate IsWhole(v: real) {
    v == v.Floor as real
  }

  // ----- powers of two -----

  lemma ScaleStep(v: real, e: int)
    ensures Scale(v, e) == 2.0 * Scale(v, e - 1)
  {
  }

  lemma {:induction false} ScaleAdd(v: real, e: int, k: int)
    ensures Scale(Scale(v, e), k) == Scale(v, e + k)
    decreases if k < 0 then -k else k
  {
    if k > 0 {
      ScaleAdd(v, e, k - 1);
      ScaleStep(v, e + k);
    } else if k < 0 {
      ScaleAdd(v, e, k + 1);
      ScaleStep(v, e + k + 1);
    }
  }

  lemma {:induction false} ScaleMonotone(a: real, b: real, e: int)
    requires a <= b
    ensures Scale(a, e) <= Scale(b, e)
    decreases if e < 0 then -e else e
  {
    if e > 0 {
      ScaleMonotone(a, b, e - 1);
    } else if e < 0 {
      ScaleMonotone(a, b, e + 1);
    }
  }

  lemma {:induction false} Pow2Grows(a: int, b: int)
    requires a <= b
    ensures 0.0 < Scale(1.0, a) <= Scale(1.0, b)
    decreases b - a
  {
    if a < b {
      Pow2Grows(a, b - 1);
      ScaleStep(1.0, b);
    } else {
      Pow2Positive(a);
    }
  }

  lemma {:induction false} Pow2Positive(e: int)
    ensures Scale(1.0, e) > 0.0
    decreases if e < 0 then -e else e
  {
    if e > 0 {
      Pow2Positive(e - 1);
    } else if e < 0 {
      Pow2Positive(e + 1);
    }
  }

  lemma {:induction false} ScaleUpWhole(v: real, e: nat)
    requires IsWhole(v)
    ensures IsWhole(Scale(v, e))
  {
    if e > 0 {
      ScaleUpWhole(v, e - 1);
      assert Scale(v, e) == (2 * Scale(v, e - 1).Floor) as real;
    }
  }

  lemma {:induction false} HasLastPlace(a: real, hi: int)
    requires -1074 <= hi <= 971 && (hi == 971 || a < Scale(1.0, hi + 53))
    ensures exists e :: -1074 <= e <= 971 && IsLastPlace(a, e)
    decreases hi + 1074
  {
    if hi == -1074 || Scale(1.0, hi + 52) <= a {
      assert IsLastPlace(a, hi);
    } else {
      HasLastPlace(a, hi - 1);
    }
  }

  lemma LastPlaceUnique(a: real)
    ensures forall e, e' :: IsLastPlace(a, e) && IsLastPlace(a, e') ==> e == e'
  {
    forall e, e' | IsLastPlace(a, e) && IsLastPlace(a, e') && e < e'
      ensures false
    {
      Pow2Grows(e + 53, e' + 52);
    }
  }

  // ----- rounding -----

  /** Rounding a whole number gives a whole number. */
  lemma RoundWhole(a: real)
    requires a >= 0.0 && IsWhole(a)
    ensures IsWhole(RoundMagnitude(a))
  {
    var e := LastPlace(a);
    if e >= 0 {
      ScaleUpWhole(NearestEven(Scale(a, -e)) as real, e);
    } else {
      // Below 2^53 every whole number is a multiple of the last place.
      ScaleUpWhole(a, -e);
      ScaleAdd(a, -e, e);
    }
  }

  lemma NearestAtMost(q: int, a: real, b: int)
    requires a <= b as real && q as real - a <= 0.5
    ensures q <= b
  {
  }

  lemma NearestAtLeast(q: int, a: real, b: int)
    requires b as real <= a && a - q as real <= 0.5
    ensures b <= q
  {
  }

  lemma {:induction false} ScaleByConstant(c: real, k: nat)
    ensures Scale(c, k) == c * Scale(1.0, k)
  {
    if k > 0 {
      ScaleByConstant(c, k - 1);
      assert 2.0 * (c * Scale(1.0, k - 1)) == c * (2.0 * Scale(1.0, k - 1));
    }
  }

  /** The powers of two around the ends of i64 and of a double's exact integers. */
  lemma Pow2Values()
    ensures Scale(1.0, 7) == 128.0
    ensures Scale(1.0, 8) == 256.0
    ensures Scale(1.0, 10) == 1024.0
    ensures Scale(1.0, 11) == 2048.0
    ensures Scale(1.0, 52) == 4503599627370496.0
    ensures Scale(1.0, 53) == 9007199254740992.0
    ensures Scale(1.0, 59) == 576460752303423488.0
    ensures Scale(1.0, 60) == 1152921504606846976.0
    ensures Scale(1.0, 61) == 2305843009213693952.0
    ensures Scale(1.0, 62) == 4611686018427387904.0
    ensures Scale(1.0, 63) == 9223372036854775808.0
    ensures Scale(1.0, 64) == 18446744073709551616.0
  {
    assert Scale(1.0, 2) == 4.0;
    assert Scale(1.0, 4) == 16.0;
    assert Scale(1.0, 6) == 64.0;
    assert Scale(1.0, 8) == 256.0;
    assert Scale(1.0, 10) == 1024.0;
    Pow2Product(10, 10);
    Pow2Product(20, 20);
    Pow2Product(40, 10);
    assert Scale(1.0, 52) == 4.0 * Scale(1.0, 50);
    Pow2Product(50, 10);
    assert Scale(1.0, 62) == 4.0 * Scale(1.0, 60);
  }

  lemma Pow2Product(a: nat, b: nat)
    ensures Scale(1.0, a + b) == Scale(1.0, a) * Scale(1.0, b)
  {
    ScaleAdd(1.0, a, b);
    ScaleByConstant(Scale(1.0, a), b);
  }

  lemma ScaleDown(a: real, e: int, place: real)
    requires e >= 0 && place == Scale(1.0, e) && place > 0.0
    ensures Scale(a, -e) == a / place
  {
    ScaleAdd(a, -e, e);
    ScaleByConstant(Scale(a, -e), e);
  }

  /** Rounding when the last place is known: to the nearest multiple of it. */
  lemma RoundAt(a: real, e: int, place: real)
    requires e >= 0 && a >= 0.0 && IsLastPlace(a, e) && place == Scale(1.0, e) && place > 0.0
    ensures RoundMagnitude(a) == NearestEven(a / place) as real * place
  {
    hide NearestEven, IsLastPlace;
    LastPlaceUnique(a);
    ScaleDown(a, e, place);
    ScaleByConstant(NearestEven(a / place) as real, e);
  }

  lemma RoundInRange(a: real, r: real)
    requires a >= 0.0 && r == RoundMagnitude(a) && r < 18446744073709551616.0
    ensures Round(a) == Fin(r)
  {
    hide RoundMagnitude, Scale;
    Pow2Values();
    Pow2Grows(64, 1024);
  }

  // ----- rounding keeps order -----

  lemma NearestMonotone(a: real, b: real)
    requires a <= b
    ensures NearestEven(a) <= NearestEven(b)
  {
  }

  /** What has its last place at `e` rounds to at most 2^(e + 53). */
  lemma RoundUpTo(a: real, e: int)
    requires a >= 0.0 && IsLastPlace(a, e) && a < Scale(1.0, e + 53)
    ensures RoundMagnitude(a) <= Scale(1.0, e + 53)
  {
    hide NearestEven, Scale;
    LastPlaceUnique(a);
    var b := Scale(1.0, 53);
    assert Scale(a, -e) <= b && IsWhole(b) by {
      ScaleUpWhole(1.0, 53);
      ScaleMonotone(a, Scale(1.0, e + 53), -e);
      ScaleAdd(1.0, e + 53, -e);
    }
    NearestAtMost(NearestEven(Scale(a, -e)), Scale(a, -e), b.Floor);
    ScaleMonotone(NearestEven(Scale(a, -e)) as real, b, e);
    ScaleAdd(1.0, 53, e);
  }

  /** And to at least 2^(e + 52), unless it is subnormal. */
  lemma RoundDownTo(a: real, e: int)
    requires a >= 0.0 && IsLastPlace(a, e) && Scale(1.0, e + 52) <= a
    ensures RoundMagnitude(a) >= Scale(1.0, e + 52)
  {
    hide NearestEven, Scale;
    LastPlaceUnique(a);
    var b := Scale(1.0, 52);
    assert b <= Scale(a, -e) && IsWhole(b) by {
      ScaleUpWhole(1.0, 52);
      ScaleMonotone(Scale(1.0, e + 52), a, -e);
      ScaleAdd(1.0, e + 52, -e);
    }
    NearestAtLeast(NearestEven(Scale(a, -e)), Scale(a, -e), b.Floor);
    ScaleMonotone(b, NearestEven(Scale(a, -e)) as real, e);
    ScaleAdd(1.0, 52, e);
  }

  lemma RoundMonotone(a: real, b: real)
    requires 0.0 <= a <= b
    ensures RoundMagnitude(a) <= RoundMagnitude(b)
  {
    hide NearestEven, Scale;
    var e, e' := LastPlace(a), LastPlace(b);
    if e == e' {
      ScaleMonotone(a, b, -e);
      NearestMonotone(Scale(a, -e), Scale(b, -e));
      ScaleMonotone(NearestEven(Scale(a, -e)) as real, NearestEven(Scale(b, -e)) as real, e);
    } else if e < e' {
      hide RoundMagnitude;
      RoundUpTo(a, e);
      RoundDownTo(b, e');
      Pow2Grows(e + 53, e' + 52);
    } else {
      Pow2Grows(e' + 53, e + 52);
      assert false;
    }
  }

  lemma NearestOfWhole(v: real)
    requires IsWhole(v)
    ensures NearestEven(v) as real == v
  {
  }

  lemma PowerLastPlace(k: int)
    requires 52 <= k <= 63
    ensures Scale(1.0, k) > 0.0 && IsLastPlace(Scale(1.0, k), k - 52)
  {
    hide Scale;
    Pow2Grows(k, k + 1);
    ScaleStep(1.0, k + 1);
  }

  /** A power of two is a double. */
  lemma RoundPower(k: int)
    requires 52 <= k <= 63
    ensures Scale(1.0, k) > 0.0 && RoundMagnitude(Scale(1.0, k)) == Scale(1.0, k)
  {
    hide NearestEven, Scale, IsLastPlace;
    var a, e, b := Scale(1.0, k), k - 52, Scale(1.0, 52);
    PowerLastPlace(k);
    LastPlaceUnique(a);
    assert Scale(a, -e) == b && Scale(b, e) == a by {
      ScaleAdd(1.0, k, -e);
      ScaleAdd(1.0, 52, e);
    }
    ScaleUpWhole(1.0, 52);
    NearestOfWhole(b);
  }

  lemma RoundAtMost(a: real, k: int)
    requires 52 <= k <= 63 && 0.0 <= a <= Scale(1.0, k)
    ensures RoundMagnitude(a) <= Scale(1.0, k)
  {
    RoundMonotone(a, Scale(1.0, k));
    RoundPower(k);
  }

  lemma RoundAtLeast(a: real, k: int)
    requires 52 <= k <= 63 && Scale(1.0, k) <= a
    ensures a >= 0.0 && RoundMagnitude(a) >= Scale(1.0, k)
  {
    RoundPower(k);
    RoundMonotone(Scale(1.0, k), a);
  }

  lemma {:induction false} ScaleDifference(a: real, b: real, e: int)
    ensures Scale(a - b, e) == Scale(a, e) - Scale(b, e)
    decreases if e < 0 then -e else e
  {
    if e > 0 {
      ScaleDifference(a, b, e - 1);
    } else if e < 0 {
      ScaleDifference(a, b, e + 1);
    }
  }

  /** Rounding moves a number by at most half its last place. */
  lemma RoundsNear(a: real, e: int)
    requires a >= 0.0 && IsLastPlace(a, e)
    ensures -Scale(0.5, e) <= a - RoundMagnitude(a) <= Scale(0.5, e)
  {
    hide NearestEven, IsLastPlace, Scale;
    LastPlaceUnique(a);
    var b, q := Scale(a, -e), NearestEven(Scale(a, -e)) as real;
    ScaleAdd(a, -e, e);
    ScaleByZero(a);
    ScaleDifference(b, q, e);
    ScaleMonotone(b - q, 0.5, e);
    ScaleMonotone(-0.5, b - q, e);
    ScaleOpposite(0.5, e);
  }

  lemma ScaleByZero(a: real)
    ensures Scale(a, 0) == a
  {
  }

  lemma {:induction false} ScaleOpposite(a: real, e: int)
    ensures Scale(-a, e) == -Scale(a, e)
    decreases if e < 0 then -e else e
  {
    if e > 0 {
      ScaleOpposite(a, e - 1);
    } else if e < 0 {
      ScaleOpposite(a, e + 1);
    }
  }

  lemma {:induction false} ScaleZero(e: int)
    ensures Scale(0.0, e) == 0.0
    decreases if e < 0 then -e else e
  {
    if e > 0 {
      ScaleZero(e - 1);
    } else if e < 0 {
      ScaleZero(e + 1);
    }
  }

  lemma {:induction false} ScaleHalf(e: int)
    ensures 2.0 * Scale(0.5, e) == Scale(1.0, e)
    decreases if e < 0 then -e else e
  {
    if e > 0 {
      ScaleHalf(e - 1);
    } else if e < 0 {
      ScaleHalf(e + 1);
    }
  }

  /** What rounds to a positive double is within a factor of two of it. */
  lemma RoundsWithinTwice(v: real)
    requires v > 0.0 && RoundMagnitude(v) > 0.0
    ensures RoundMagnitude(v) <= 2.0 * v && v <= 2.0 * RoundMagnitude(v)
  {
    hide NearestEven, Scale, IsLastPlace;
    var e := LastPlace(v);
    RoundsNear(v, e);
    ScaleHalf(e);
    var q := NearestEven(Scale(v, -e));
    if q <= 0 {
      ScaleMonotone(q as real, 0.0, e);
      ScaleZero(e);
      assert false;
    }
    ScaleMonotone(1.0, q as real, e);
  }

  /** What rounding gives is a double: rounding it again changes nothing. */
  lemma RoundIsDouble(a: real)
    requires a >= 0.0
    ensures RoundMagnitude(a) >= 0.0 && RoundMagnitude(RoundMagnitude(a)) == RoundMagnitude(a)
  {
    hide Scale, NearestEven, IsLastPlace;
    var e := LastPlace(a);
    var q, r := NearestEven(Scale(a, -e)), RoundMagnitude(a);
    ResultLastPlace(a, e, r);
    if IsLastPlace(r, e) {
      ScaleAdd(q as real, e, -e);
      ScaleByZero(q as real);
      WholePlacesRound(r, e);
    } else {
      ScaleAdd(1.0, e + 53, -(e + 1));
      ScaleUpWhole(1.0, 52);
      WholePlacesRound(r, e + 1);
    }
  }

  lemma WholePlacesRound(r: real, e: int)
    requires r >= 0.0 && IsLastPlace(r, e) && IsWhole(Scale(r, -e))
    ensures RoundMagnitude(r) == r
  {
    hide Scale, NearestEven, IsLastPlace;
    LastPlaceUnique(r);
    NearestOfWhole(Scale(r, -e));
    ScaleAdd(r, -e, e);
    ScaleByZero(r);
  }

  /** The last place of a rounded number is the number's own, or one higher at a power of two. */
  lemma ResultLastPlace(a: real, e: int, r: real)
    requires a >= 0.0 && IsLastPlace(a, e) && r == RoundMagnitude(a)
    ensures r >= 0.0 && (IsLastPlace(r, e) || (r == Scale(1.0, e + 53) && IsLastPlace(r, e + 1)))
  {
    hide Scale, NearestEven, RoundMagnitude;
    RoundNotNegative(a);
    if e > -1074 {
      RoundDownTo(a, e);
    }
    if e < 971 {
      RoundUpTo(a, e);
      Pow2Grows(e + 53, e + 54);
      ScaleStep(1.0, e + 54);
    }
  }

  lemma RoundNotNegative(a: real)
    requires a >= 0.0
    ensures RoundMagnitude(a) >= 0.0
  {
    hide NearestEven, Scale;
    var e := LastPlace(a);
    ScaleMonotone(0.0, a, -e);
    ScaleZero(-e);
    ScaleZero(e);
    ScaleMonotone(0.0, NearestEven(Scale(a, -e)) as real, e);
  }
}
