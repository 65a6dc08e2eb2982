/** Which numbers JavaScript tells from every other i64: those whose double no neighbouring integer rounds to. */
module SharedDoubles {
  import opened Floats
  import opened NumberText

  /** No integer next to `n` in i64 rounds to the double `n` rounds to. */
  predicate Alone(n: int) {
    && (InI64(n - 1) ==> Round((n - 1) as real) != Round(n as real))
    && (InI64(n + 1) ==> Round((n + 1) as real) != Round(n as real))
  }

  /** The value of the double nearest to an integer. */
  function Nearest(n: int): real {
    if n < 0 then -RoundMagnitude((-n) as real) else RoundMagnitude(n as real)
  }

  // ----- rounding integers -----

  /** Up to 2^53 every whole number is a double. */
  lemma SmallWholeIsDouble(k: nat)
    requires k <= 0x20_0000_0000_0000
    ensures RoundMagnitude(k as real) == k as real
  {
    hide Scale, NearestEven;
    Pow2Values();
    if k == 0x20_0000_0000_0000 {
      RoundPower(53);
    } else {
      var e := LastPlace(k as real);
      if e > 0 {
        Pow2Grows(53, e + 52);
        assert false;
      }
      ScaleUpWhole(k as real, -e);
      NearestOfWhole(Scale(k as real, -e));
      ScaleAdd(k as real, -e, e);
      ScaleByZero(k as real);
    }
  }

  lemma RoundOfInteger(n: int)
    requires InI64(n)
    ensures Round(n as real) == Fin(Nearest(n))
    ensures IsWhole(Nearest(n)) && -TWO_63 <= Nearest(n) <= TWO_63
    ensures n != 0 ==> Nearest(n) != 0.0
  {
    hide RoundMagnitude, Scale;
    var a: nat := if n < 0 then -n else n;
    Pow2Values();
    Pow2Grows(64, 1024);
    RoundAtMost(a as real, 63);
    RoundWhole(a as real);
    SmallWholeIsDouble(1);
    SmallWholeIsDouble(0);
    RoundMonotone(0.0, a as real);
    if n != 0 {
      RoundMonotone(1.0, a as real);
    }
    if n < 0 {
      WholeOpposite(RoundMagnitude(a as real));
    }
  }

  lemma NearestGrows(m: int, n: int)
    requires m <= n
    ensures Nearest(m) <= Nearest(n)
  {
    hide RoundMagnitude;
    SmallWholeIsDouble(0);
    if n < 0 {
      RoundMonotone((-n) as real, (-m) as real);
    } else if m >= 0 {
      RoundMonotone(m as real, n as real);
    } else {
      RoundMonotone(0.0, (-m) as real);
      RoundMonotone(0.0, n as real);
    }
  }

  /** A number alone with its double shares it with no i64 at all. */
  lemma AloneSharesNone(n: int, k: int)
    requires InI64(n) && InI64(k) && Alone(n) && Round(k as real) == Round(n as real)
    ensures k == n
  {
    hide Round, Nearest;
    RoundOfInteger(n);
    RoundOfInteger(k);
    if k > n {
      NearestGrows(n, n + 1);
      NearestGrows(n + 1, k);
      RoundOfInteger(n + 1);
    } else if k < n {
      NearestGrows(k, n - 1);
      NearestGrows(n - 1, n);
      RoundOfInteger(n - 1);
    }
  }

  lemma EndRounds()
    ensures Nearest(I64_MAX) == TWO_63 && Nearest(I64_MAX - 1) == TWO_63
  {
    hide RoundMagnitude;
    Pow2Values();
    var a, b := I64_MAX as real, (I64_MAX - 1) as real;
    assert IsLastPlace(a, 10) && IsLastPlace(b, 10);
    RoundAt(a, 10, 1024.0);
    RoundAt(b, 10, 1024.0);
    assert NearestEven(a / 1024.0) == 0x20_0000_0000_0000;
    assert NearestEven(b / 1024.0) == 0x20_0000_0000_0000;
  }

  /** A number alone with its double is that double. */
  lemma AloneIsDouble(n: int)
    requires InI64(n) && Alone(n)
    ensures Nearest(n) == n as real
  {
    hide Round, Nearest;
    RoundOfInteger(n);
    var r := Nearest(n).Floor;
    if r <= I64_MAX {
      NearestIsDouble(n);
      RoundOfInteger(r);
      AloneSharesNone(n, r);
    } else if n == I64_MAX {
      EndRounds();
      RoundOfInteger(n - 1);
      assert false;
    } else {
      NearestGrows(n, n + 1);
      RoundOfInteger(n + 1);
      assert false;
    }
  }

  lemma NearestIsDouble(n: int)
    ensures IsWhole(Nearest(n)) ==> Nearest(Nearest(n).Floor) == Nearest(n)
  {
    hide RoundMagnitude;
    var a: nat := if n < 0 then -n else n;
    RoundIsDouble(a as real);
    SmallWholeIsDouble(0);
    RoundMonotone(0.0, a as real);
  }

  /** Small integers are alone. */
  lemma SmallIsAlone(n: int)
    requires -0x20_0000_0000_0000 < n < 0x20_0000_0000_0000
    ensures Alone(n)
  {
    hide Round;
    SmallRounds(n - 1);
    SmallRounds(n);
    SmallRounds(n + 1);
  }

  lemma SmallRounds(k: int)
    requires -0x20_0000_0000_0000 <= k <= 0x20_0000_0000_0000
    ensures Round(k as real) == Fin(k as real)
  {
    hide Round;
    SmallWholeIsDouble(if k < 0 then -k else k);
    RoundOfInteger(k);
  }
}
