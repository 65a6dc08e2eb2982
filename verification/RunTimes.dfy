/**
  * The times of a report's rows and their sum. Python adds from the left: integers exactly, until the first
  * float, when the total so far becomes a double; from there each integer becomes one too. An integer that
  * no double holds cannot, and raises.
  */
module RunTimes {
  import opened Comparison
  import opened Floats
  import opened JsonValues
  import opened NumberText
  import Words
  import opened Wrappers

  datatype Time = Whole(n: int) | Fraction(x: F64)

  // The value of a total with a float in it is not modelled.
  datatype Total = WholeTotal(n: int) | FloatTotal

  predicate IsZero(t: Time) {
    match t
    case Whole(n) => n == 0
    case Fraction(x) => x.NegZero? || x == Fin(0.0)
  }

  /** `time or 0`: a missing time counts as the integer zero, and so does a float zero. */
  function Counted(t: Option<Time>): Time {
    if t.None? || IsZero(t.value) then Whole(0) else t.value
  }

  predicate TooLarge(t: Time) {
    t.Whole? && Oversized(Int(t.n))
  }

  function Add(total: Total, t: Time): Option<Total> {
    match (total, t)
    case (WholeTotal(a), Whole(b)) => Some(WholeTotal(a + b))
    case (WholeTotal(a), Fraction(_)) => if Oversized(Int(a)) then None else Some(FloatTotal)
    case (FloatTotal, _) => if TooLarge(t) then None else Some(FloatTotal)
  }

  /** The sum from the left, if nothing raises on the way. */
  function Sum(times: seq<Option<Time>>): Option<Total> {
    if times == [] then Some(WholeTotal(0))
    else
      var before := Sum(times[..|times| - 1]);
      if before.None? then None else Add(before.value, Counted(times[|times| - 1]))
  }

  method SumTimes(times: seq<Option<Time>>) returns (total: Option<Total>)
    ensures total == Sum(times)
  {
    hide Add, Counted;
    total := Some(WholeTotal(0));
    for i := 0 to |times|
      invariant total == Sum(times[..i])
    {
      assert times[..i + 1][..i] == times[..i];
      total := if total.None? then None else Add(total.value, Counted(times[i]));
    }
    assert times[..|times|] == times;
  }

  // ----- when the sum raises -----

  /** The integers among the times, added up. */
  function WholeSum(times: seq<Option<Time>>): int {
    if times == [] then 0
    else
      var t := Counted(times[|times| - 1]);
      WholeSum(times[..|times| - 1]) + if t.Whole? then t.n else 0
  }

  predicate NoFraction(times: seq<Option<Time>>) {
    forall i :: 0 <= i < |times| ==> Counted(times[i]).Whole?
  }

  /** The first float among the times, zeros aside, is at `k`. */
  predicate FirstFraction(times: seq<Option<Time>>, k: nat) {
    k < |times| && Counted(times[k]).Fraction? && NoFraction(times[..k])
  }

  /** The integers before the first float add up to one that no double holds. */
  ghost predicate Clash(times: seq<Option<Time>>) {
    exists k: nat :: FirstFraction(times, k) && Oversized(Int(WholeSum(times[..k])))
  }

  /** After the first float there is an integer that no double holds. */
  ghost predicate LateClash(times: seq<Option<Time>>) {
    exists k: nat, i :: FirstFraction(times, k) && k < i < |times| && TooLarge(Counted(times[i]))
  }

  lemma NoneFirstAfter(times: seq<Option<Time>>, j: nat, k: nat)
    requires j < k && FirstFraction(times, j)
    ensures !FirstFraction(times, k)
  {
    if k < |times| {
      assert times[..k][j] == times[j];
    }
  }

  /** One more time: the first float stays where it was, or is the new one. */
  lemma FirstFractionOn(times: seq<Option<Time>>, k: nat)
    requires times != []
    ensures var n := |times| - 1;
            && (k < n ==> (FirstFraction(times, k) <==> FirstFraction(times[..n], k)))
            && (FirstFraction(times, n) <==> Counted(times[n]).Fraction? && NoFraction(times[..n]))
            && (k <= n ==> times[..n][..k] == times[..k])
  {
    hide Counted;
    var n := |times| - 1;
    if k < n {
      assert times[..n][..k] == times[..k] && times[..n][k] == times[k];
    }
  }

  lemma {:induction false} FractionOrNot(times: seq<Option<Time>>)
    ensures NoFraction(times) <==> forall k: nat :: !FirstFraction(times, k)
  {
    hide Counted;
    if !NoFraction(times) {
      var n := |times| - 1;
      FractionOrNot(times[..n]);
      if NoFraction(times[..n]) {
        assert FirstFraction(times, n);
      } else {
        var k: nat :| FirstFraction(times[..n], k);
        FirstFractionOn(times, k);
      }
    }
  }

  /** Without a float the sum is exact; with one it is a float, unless it raises there or later. */
  lemma {:induction false} SumIs(times: seq<Option<Time>>)
    ensures NoFraction(times) ==> Sum(times) == Some(WholeTotal(WholeSum(times)))
    ensures forall k: nat :: FirstFraction(times, k) ==>
              Sum(times) ==
              if Oversized(Int(WholeSum(times[..k]))) || (exists i :: k < i < |times| && TooLarge(Counted(times[i])))
              then None else Some(FloatTotal)
  {
    hide Counted, Oversized;
    if times != [] {
      var n := |times| - 1;
      var before := times[..n];
      SumIs(before);
      forall k: nat | FirstFraction(times, k)
        ensures Sum(times) ==
                if Oversized(Int(WholeSum(times[..k])))
                   || (exists i :: k < i < |times| && TooLarge(Counted(times[i])))
                then None else Some(FloatTotal)
      {
        FirstFractionOn(times, k);
        assert forall i :: 0 <= i < n ==> before[i] == times[i];
      }
    }
  }

  /** The sum raises exactly when a float meets integers that add up too far, or is followed by one too large. */
  lemma SumRaisesExactly(times: seq<Option<Time>>)
    ensures Sum(times).None? <==> Clash(times) || LateClash(times)
    ensures Sum(times).Some? && NoFraction(times) ==> Sum(times) == Some(WholeTotal(WholeSum(times)))
  {
    hide Counted, Oversized, Sum, WholeSum, FirstFraction, TooLarge;
    SumIs(times);
    FractionOrNot(times);
    if k: nat :| FirstFraction(times, k) {
      forall j: nat | j != k ensures !FirstFraction(times, j) {
        if j < k {
          if FirstFraction(times, j) { NoneFirstAfter(times, j, k); }
        } else {
          NoneFirstAfter(times, k, j);
        }
      }
    }
  }

  /** When every integer by itself fits a double, only the integers before the first float matter. */
  lemma FittingRaises(times: seq<Option<Time>>)
    requires forall i :: 0 <= i < |times| ==> !TooLarge(Counted(times[i]))
    ensures Sum(times).None? <==> Clash(times)
  {
    SumRaisesExactly(times);
  }

  /** A missing time and a zero, a float zero too, leave the sum as it was: they count as the integer zero. */
  lemma ZerosAddNothing(times: seq<Option<Time>>, t: Option<Time>)
    requires t in {None, Some(Whole(0)), Some(Fraction(Fin(0.0))), Some(Fraction(NegZero))}
    ensures Sum(times + [t]) == Sum(times)
  {
    hide Round, Oversized;
    var more := times + [t];
    assert more[..|more| - 1] == times && more[|more| - 1] == t;
    ZeroFits();
    hide Sum;
    AddZero(Sum(times));
    SumOn(times, t);
  }

  lemma ZeroFits()
    ensures !Oversized(Int(0))
  {
    hide Round;
    RoundZero();
  }

  lemma AddZero(total: Option<Total>)
    requires !Oversized(Int(0))
    ensures total.Some? ==> Add(total.value, Whole(0)) == total
  {
    hide Oversized;
  }

  lemma SumOn(times: seq<Option<Time>>, t: Option<Time>)
    ensures Sum(times + [t]) == if Sum(times).None? then None else Add(Sum(times).value, Counted(t))
  {
    hide Add, Counted;
    var more := times + [t];
    assert more[..|more| - 1] == times && more[|more| - 1] == t;
  }

  // ----- two integers and a float -----

  const HALF_RANGE: nat := 1023

  lemma {:induction false} PowersAgree(k: nat)
    ensures Words.Pow2(k) as real == Scale(1.0, k)
  {
    if k > 0 {
      PowersAgree(k - 1);
    }
  }

  /** 2^1023 is a double, and twice as much is too large for one. */
  lemma HalfRange()
    ensures !Oversized(Int(Words.Pow2(HALF_RANGE))) && Oversized(Int(2 * Words.Pow2(HALF_RANGE)))
  {
    hide Scale, RoundMagnitude, Words.Pow2;
    PowersAgree(HALF_RANGE);
    PowerTooLarge();
    ScaleStep(1.0, HALF_RANGE + 1);
    Pow2Grows(HALF_RANGE, HALF_RANGE + 1);
    LargestPower();
  }

  lemma LargestPower()
    ensures Scale(1.0, 1023) > 0.0 && RoundMagnitude(Scale(1.0, 1023)) == Scale(1.0, 1023)
  {
    hide Scale;
    Pow2Grows(1023, 1023);
    assert IsLastPlace(Scale(1.0, 1023), 971);
    ScaleAdd(1.0, 1023, -971);
    ScaleUpWhole(1.0, 52);
    WholePlacesRound(Scale(1.0, 1023), 971);
  }

  lemma TwoWholes(n: nat)
    ensures WholeSum([Some(Whole(n)), Some(Whole(n))]) == 2 * n
  {
    var t := Some(Whole(n));
    assert [t, t][..1] == [t] && [t][..0] == [];
    assert WholeSum([t]) == n;
  }

  /** 2^1023, 2^1023 and 0.5 each fit, and their sum raises. */
  lemma HugeTimesClash()
    ensures var big := Some(Whole(Words.Pow2(HALF_RANGE)));
            !TooLarge(Whole(Words.Pow2(HALF_RANGE))) && Clash([big, big, Some(Fraction(Fin(0.5)))])
  {
    hide Words.Pow2, Oversized;
    HalfRange();
    var big := Some(Whole(Words.Pow2(HALF_RANGE)));
    var times := [big, big, Some(Fraction(Fin(0.5)))];
    assert times[..2] == [big, big];
    TwoWholes(Words.Pow2(HALF_RANGE));
    assert FirstFraction(times, 2);
  }
}
