/** How the Python harness compares a returned value with the expected one, and when doing so raises. */
module Comparison {
  import opened DecimalText
  import opened Floats
  import opened JsonValues
  import opened UnorderedPython
  import opened Wrappers

  datatype Mode = Exact | Unordered | FloatTolerance(epsilon: real) | AnyOf

  predicate IsNumber(j: Json) {
    j.Int? || j.Num?
  }

  /** A number as a double: nothing when an integer is too large, which raises OverflowError. */
  function AsFloat(j: Json): Option<F64>
    requires IsNumber(j)
  {
    if j.Num? then Some(j.x)
    else if Round(j.n as real).Inf? then None
    else Some(Round(j.n as real))
  }

  /** The double `a - b` is within the tolerance of zero. */
  predicate DifferenceWithin(a: F64, b: F64, epsilon: real) {
    if a.NaN? || b.NaN? || a.Inf? || b.Inf? then false
    else
      var d := Round(Value(a) - Value(b));
      (d.NegZero? && 0.0 <= epsilon) || (d.Fin? && -epsilon <= d.v <= epsilon)
  }

  /** `_float_equal` on numbers: NaN first, then equality by value, then the difference; nothing when it raises. */
  function NumbersEqual(a: Json, b: Json, epsilon: real): Option<bool>
    requires IsNumber(a) && IsNumber(b)
  {
    var x, y := AsFloat(a), AsFloat(b);
    if x.None? then None
    else if x.value.NaN? then (if y.None? then None else Some(y.value.NaN?))
    else if PlainEqual(a, b) then Some(true)
    else if a.Int? && b.Int? then Some(-epsilon <= (a.n - b.n) as real <= epsilon)
    else if y.None? then None
    else Some(DifferenceWithin(x.value, y.value, epsilon))
  }

  /** `_float_equal`. */
  function FloatEqual(a: Json, b: Json, epsilon: real): Option<bool>
    decreases a, 0
  {
    if IsNumber(a) && IsNumber(b) then NumbersEqual(a, b, epsilon)
    else if a.Arr? && b.Arr? then
      if |a.items| != |b.items| then Some(false) else AllFloatEqual(a.items, b.items, epsilon)
    else Some(PyEqual(a, b))
  }

  /** Item by item, up to the first that differs or raises. */
  function AllFloatEqual(a: seq<Json>, b: seq<Json>, epsilon: real): Option<bool>
    requires |a| == |b|
    decreases a, 1
  {
    if a == [] then Some(true)
    else
      var first := FloatEqual(a[0], b[0], epsilon);
      if first == Some(true) then AllFloatEqual(a[1..], b[1..], epsilon) else first
  }

  /** `compare`: the verdict, or nothing when the comparison raises. */
  function Compare(actual: Json, expected: Json, mode: Mode): Option<bool> {
    match mode
    case Exact => Some(PyEqual(actual, expected))
    case Unordered => Some(PyUnordered(actual, expected))
    case FloatTolerance(epsilon) => FloatEqual(actual, expected, epsilon)
    case AnyOf =>
      var candidates := Candidates(expected);
      Some(exists i :: 0 <= i < |candidates| && PyEqual(actual, candidates[i]))
  }

  function Candidates(expected: Json): (r: seq<Json>)
    ensures !expected.Arr? ==> |r| == 1 && r[0] == expected
  {
    if expected.Arr? then expected.items else [expected]
  }

  // ----- what a comparison means: when it raises, and what it accepts -----

  /** An integer no double holds. */
  predicate Oversized(j: Json) {
    j.Int? && Round(j.n as real).Inf?
  }

  /** Two numbers of which the first is oversized, or the second while the first is a float. */
  predicate Clashes(a: Json, b: Json) {
    IsNumber(a) && IsNumber(b) && (Oversized(a) || (Oversized(b) && a.Num?))
  }

  function Magnitude(d: real): real {
    if d < 0.0 then -d else d
  }

  /** The distance is at most the tolerance: exactly for integers, else rounded once from that of two doubles. */
  predicate Within(a: Json, b: Json, epsilon: real)
    requires IsNumber(a) && IsNumber(b)
  {
    if a.Int? && b.Int? then Magnitude((a.n - b.n) as real) <= epsilon
    else
      var x, y := AsDouble(a), AsDouble(b);
      && IsFinite(x) && IsFinite(y)
      && var d := RoundMagnitude(Magnitude(Value(x) - Value(y)));
         d < Scale(1.0, 1024) && d <= epsilon
  }

  predicate IsFinite(x: F64) {
    x.NegZero? || x.Fin?
  }

  predicate IsNan(j: Json) {
    j.Num? && j.x.NaN?
  }

  /** Two numbers are near when both are NaN, the same by value, or within the tolerance. */
  predicate NumbersNear(a: Json, b: Json, epsilon: real)
    requires IsNumber(a) && IsNumber(b)
  {
    || (IsNan(a) && IsNan(b))
    || (Same(a, b) && !IsNan(a))
    || Within(a, b, epsilon)
  }

  /** What a comparison up to a tolerance accepts: lists position by position, what holds no number by value. */
  predicate Near(a: Json, b: Json, epsilon: real)
    decreases a
  {
    if IsNumber(a) && IsNumber(b) then NumbersNear(a, b, epsilon)
    else if a.Arr? && b.Arr? then
      |a.items| == |b.items| && forall i :: 0 <= i < |a.items| ==> Near(a.items[i], b.items[i], epsilon)
    else Same(a, b) && NanFree(a)
  }

  /**
    * At numbers, a clash that equality by value does not settle first; in lists of one length, the first
    * position that raises or is not near.
    */
  predicate Raises(a: Json, b: Json, epsilon: real)
    decreases a
  {
    if IsNumber(a) && IsNumber(b) then Clashes(a, b) && !(a.Num? && !a.x.NaN? && Same(a, b))
    else
      && a.Arr? && b.Arr? && |a.items| == |b.items|
      && exists i ::
           && 0 <= i < |a.items| && Raises(a.items[i], b.items[i], epsilon)
           && forall k :: 0 <= k < i ==>
                !Raises(a.items[k], b.items[k], epsilon) && Near(a.items[k], b.items[k], epsilon)
  }

  /** The answer that is meant: the candidates of `any_of` are the items of a list, or the one value. */
  ghost predicate Meets(actual: Json, expected: Json, mode: Mode) {
    match mode
    case Exact => Same(actual, expected) && NanFree(actual)
    case Unordered =>
      && SameUnordered(actual, expected)
      && ((actual.Arr? && expected.Arr? && ObjectFree(actual) && ObjectFree(expected)) || NanFree(actual))
    case FloatTolerance(epsilon) => Near(actual, expected, epsilon)
    case AnyOf =>
      && NanFree(actual)
      && if expected.Arr? then exists i :: 0 <= i < |expected.items| && Same(actual, expected.items[i])
         else Same(actual, expected)
  }

  // ----- the code does what is meant -----

  lemma PlainIsSame(a: Json, b: Json)
    requires PyValid(a) && PyValid(b) && IsNumber(a) && IsNumber(b)
    ensures PlainEqual(a, b) <==> Same(a, b) && !IsNan(a)
  {
    hide IsDouble;
  }

  /** A difference is within the tolerance when the distance is. */
  lemma DifferenceIsDistance(x: F64, y: F64, epsilon: real)
    ensures DifferenceWithin(x, y, epsilon) <==>
              && IsFinite(x) && IsFinite(y)
              && var d := RoundMagnitude(Magnitude(Value(x) - Value(y)));
                 d < Scale(1.0, 1024) && d <= epsilon
  {
    hide RoundMagnitude, Scale;
    if IsFinite(x) && IsFinite(y) {
      RoundNotNegative(Magnitude(Value(x) - Value(y)));
    }
  }

  /** Two numbers raise exactly at a clash that is not settled first, and are accepted exactly when near. */
  lemma NumbersDecide(a: Json, b: Json, epsilon: real)
    requires PyValid(a) && PyValid(b) && IsNumber(a) && IsNumber(b)
    ensures NumbersEqual(a, b, epsilon) ==
            if Raises(a, b, epsilon) then None else Some(Near(a, b, epsilon))
  {
    hide Same, PlainEqual, Round, DifferenceWithin, RoundMagnitude, Scale, IsDouble;
    PlainIsSame(a, b);
    AsFloatNan(a);
    AsFloatNan(b);
    var x, y := AsFloat(a), AsFloat(b);
    if x.Some? && y.Some? {
      DifferenceIsDistance(x.value, y.value, epsilon);
    }
  }

  /** No integer is read as NaN. */
  lemma AsFloatNan(j: Json)
    requires IsNumber(j)
    ensures AsFloat(j).Some? ==> (AsFloat(j).value.NaN? <==> IsNan(j))
  {
    hide RoundMagnitude, Scale;
  }

  /** So are any two values. */
  lemma {:induction false} ToleranceDecides(a: Json, b: Json, epsilon: real)
    requires PyValid(a) && PyValid(b)
    ensures FloatEqual(a, b, epsilon) == if Raises(a, b, epsilon) then None else Some(Near(a, b, epsilon))
    decreases a
  {
    hide Same, PyEqual, NumbersEqual, IsDouble;
    if IsNumber(a) && IsNumber(b) {
      NumbersDecide(a, b, epsilon);
    } else if a.Arr? && b.Arr? {
      if |a.items| == |b.items| {
        forall i | 0 <= i < |a.items|
          ensures FloatEqual(a.items[i], b.items[i], epsilon)
               == if Raises(a.items[i], b.items[i], epsilon) then None else Some(Near(a.items[i], b.items[i], epsilon))
        {
          ToleranceDecides(a.items[i], b.items[i], epsilon);
        }
        ListsDecide(a.items, b.items, epsilon);
      }
    } else {
      PyEqualIsSame(a, b);
    }
  }

  /** What the items' comparisons give: the induction hypothesis of `ToleranceDecides`. */
  predicate EachDecides(a: seq<Json>, b: seq<Json>, epsilon: real)
    requires |a| == |b|
  {
    forall i :: 0 <= i < |a| ==>
      FloatEqual(a[i], b[i], epsilon) ==
      if Raises(a[i], b[i], epsilon) then None else Some(Near(a[i], b[i], epsilon))
  }

  lemma ListsDecide(a: seq<Json>, b: seq<Json>, epsilon: real)
    requires |a| == |b| && EachDecides(a, b, epsilon)
    ensures FloatEqual(Arr(a), Arr(b), epsilon) ==
            if Raises(Arr(a), Arr(b), epsilon) then None else Some(Near(Arr(a), Arr(b), epsilon))
  {
    hide *;
    ListMeaning(a, b, epsilon);
    FirstRaises(a, b, epsilon);
    ItemsAccept(a, b, epsilon);
    AllDecide(a, b, epsilon);
    if AllNear(a, b, epsilon) {
      NoneRaise(a, b, epsilon);
    }
    TwoAnswers(AllFloatEqual(a, b, epsilon));
  }

  lemma TwoAnswers(r: Option<bool>)
    ensures r.None? || r == Some(true) || r == Some(false)
  {
    if r.Some? {
      var answer := r.value;
      if answer {
        assert r == Some(true);
      }
    }
  }

  predicate AllNear(a: seq<Json>, b: seq<Json>, epsilon: real)
    requires |a| == |b|
  {
    forall i :: 0 <= i < |a| ==> Near(a[i], b[i], epsilon)
  }

  predicate NoneRaises(a: seq<Json>, b: seq<Json>, epsilon: real)
    requires |a| == |b|
  {
    forall i :: 0 <= i < |a| ==> !Raises(a[i], b[i], epsilon)
  }

  /** The first position of two lists that is not accepted raises. */
  predicate RaisesAt(a: seq<Json>, b: seq<Json>, i: nat, epsilon: real)
    requires i < |a| == |b|
  {
    && Raises(a[i], b[i], epsilon)
    && forall k :: 0 <= k < i ==> !Raises(a[k], b[k], epsilon) && Near(a[k], b[k], epsilon)
  }

  predicate RaisesSomewhere(a: seq<Json>, b: seq<Json>, epsilon: real)
    requires |a| == |b|
  {
    exists i :: 0 <= i < |a| && RaisesAt(a, b, i, epsilon)
  }

  lemma FirstRaises(a: seq<Json>, b: seq<Json>, epsilon: real)
    requires |a| == |b| && EachDecides(a, b, epsilon)
    ensures AllFloatEqual(a, b, epsilon).None? <==> RaisesSomewhere(a, b, epsilon)
  {
    hide Raises, Near, FloatEqual, AllFloatEqual, AcceptsUpTo, RaisesAt, EachDecides;
    ItemsRaise(a, b, epsilon);
    forall i | 0 <= i < |a|
      ensures RaisesAt(a, b, i, epsilon) <==> FloatEqual(a[i], b[i], epsilon).None? && AcceptsUpTo(a, b, i, epsilon)
    {
      PositionDecides(a, b, i, epsilon);
    }
  }

  lemma PositionDecides(a: seq<Json>, b: seq<Json>, i: nat, epsilon: real)
    requires i < |a| == |b| && EachDecides(a, b, epsilon)
    ensures RaisesAt(a, b, i, epsilon) <==> FloatEqual(a[i], b[i], epsilon).None? && AcceptsUpTo(a, b, i, epsilon)
  {
    hide Raises, Near, FloatEqual;
  }

  lemma AllDecide(a: seq<Json>, b: seq<Json>, epsilon: real)
    requires |a| == |b| && EachDecides(a, b, epsilon)
    ensures AcceptsUpTo(a, b, |a|, epsilon) <==> AllNear(a, b, epsilon) && NoneRaises(a, b, epsilon)
  {
    hide Raises, Near, FloatEqual;
  }

  /** Where some position raises, a first one does. */
  lemma NoneRaise(a: seq<Json>, b: seq<Json>, epsilon: real)
    requires |a| == |b| && AllNear(a, b, epsilon)
    ensures RaisesSomewhere(a, b, epsilon) || NoneRaises(a, b, epsilon)
  {
    hide Raises, Near;
    if !RaisesSomewhere(a, b, epsilon) {
      for n := 0 to |a|
        invariant forall i :: 0 <= i < n ==> !Raises(a[i], b[i], epsilon)
      {
        assert !RaisesAt(a, b, n, epsilon);
      }
    }
  }

  lemma ListMeaning(a: seq<Json>, b: seq<Json>, epsilon: real)
    requires |a| == |b|
    ensures Raises(Arr(a), Arr(b), epsilon) <==> RaisesSomewhere(a, b, epsilon)
    ensures Near(Arr(a), Arr(b), epsilon) <==> AllNear(a, b, epsilon)
    ensures FloatEqual(Arr(a), Arr(b), epsilon) == AllFloatEqual(a, b, epsilon)
  {
    assert Raises(Arr(a), Arr(b), epsilon) <==>
        exists i ::
          && 0 <= i < |a| && Raises(a[i], b[i], epsilon)
          && forall k :: 0 <= k < i ==> !Raises(a[k], b[k], epsilon) && Near(a[k], b[k], epsilon);
    if RaisesSomewhere(a, b, epsilon) {
      var i :| 0 <= i < |a| && RaisesAt(a, b, i, epsilon);
      assert Raises(a[i], b[i], epsilon);
    }
    if i :| 0 <= i < |a| && Raises(a[i], b[i], epsilon)
            && forall k :: 0 <= k < i ==> !Raises(a[k], b[k], epsilon) && Near(a[k], b[k], epsilon) {
      assert RaisesAt(a, b, i, epsilon);
    }
  }

  predicate AcceptsUpTo(a: seq<Json>, b: seq<Json>, i: nat, epsilon: real)
    requires i <= |a| == |b|
  {
    forall k :: 0 <= k < i ==> FloatEqual(a[k], b[k], epsilon) == Some(true)
  }

  lemma {:induction false} ItemsRaise(a: seq<Json>, b: seq<Json>, epsilon: real)
    requires |a| == |b|
    ensures AllFloatEqual(a, b, epsilon).None? <==>
              exists i :: 0 <= i < |a| && FloatEqual(a[i], b[i], epsilon).None? && AcceptsUpTo(a, b, i, epsilon)
    decreases a
  {
    hide FloatEqual;
    if a != [] {
      var first := FloatEqual(a[0], b[0], epsilon);
      if first.None? {
        assert AcceptsUpTo(a, b, 0, epsilon);
      } else if first == Some(true) {
        ItemsRaise(a[1..], b[1..], epsilon);
        forall i | 0 < i < |a|
          ensures AcceptsUpTo(a, b, i, epsilon) <==> AcceptsUpTo(a[1..], b[1..], i - 1, epsilon)
        {
          AcceptsTail(a, b, i, epsilon);
        }
        if i :| 0 <= i < |a[1..]| && FloatEqual(a[1..][i], b[1..][i], epsilon).None?
                && AcceptsUpTo(a[1..], b[1..], i, epsilon) {
          assert FloatEqual(a[i + 1], b[i + 1], epsilon).None? && AcceptsUpTo(a, b, i + 1, epsilon);
        }
      }
    }
  }

  lemma AcceptsTail(a: seq<Json>, b: seq<Json>, i: nat, epsilon: real)
    requires 0 < i <= |a| == |b| && FloatEqual(a[0], b[0], epsilon) == Some(true)
    ensures AcceptsUpTo(a, b, i, epsilon) <==> AcceptsUpTo(a[1..], b[1..], i - 1, epsilon)
  {
    hide FloatEqual;
    if AcceptsUpTo(a[1..], b[1..], i - 1, epsilon) {
      forall k | 0 <= k < i ensures FloatEqual(a[k], b[k], epsilon) == Some(true) {
        if k > 0 { assert a[k] == a[1..][k - 1] && b[k] == b[1..][k - 1]; }
      }
    }
    if AcceptsUpTo(a, b, i, epsilon) {
      forall k | 0 <= k < i - 1 ensures FloatEqual(a[1..][k], b[1..][k], epsilon) == Some(true) {
        assert a[1..][k] == a[k + 1] && b[1..][k] == b[k + 1];
      }
    }
  }

  lemma {:induction false} ItemsAccept(a: seq<Json>, b: seq<Json>, epsilon: real)
    requires |a| == |b|
    ensures AllFloatEqual(a, b, epsilon) == Some(true) <==> AcceptsUpTo(a, b, |a|, epsilon)
    decreases a
  {
    hide FloatEqual;
    if a != [] && FloatEqual(a[0], b[0], epsilon) == Some(true) {
      ItemsAccept(a[1..], b[1..], epsilon);
      AcceptsTail(a, b, |a|, epsilon);
    }
  }

  /** Every mode decides what it is meant to; only comparing up to a tolerance can raise. */
  lemma CompareDecides(actual: Json, expected: Json, mode: Mode)
    requires PyValid(actual) && PyValid(expected)
    ensures Compare(actual, expected, mode) ==
            if mode.FloatTolerance? && Raises(actual, expected, mode.epsilon) then None
            else Some(Meets(actual, expected, mode))
  {
    hide FloatEqual, Raises, Near, PyEqual, Same, PyUnordered, SameUnordered, IsDouble, NanFree;
    match mode {
      case Exact => PyEqualIsSame(actual, expected);
      case Unordered => PyUnorderedDecides(actual, expected);
      case FloatTolerance(epsilon) => ToleranceDecides(actual, expected, epsilon);
      case AnyOf => AnyDecides(actual, expected);
    }
  }

  lemma AnyDecides(actual: Json, expected: Json)
    requires PyValid(actual) && PyValid(expected)
    ensures Compare(actual, expected, AnyOf) == Some(Meets(actual, expected, AnyOf))
  {
    hide PyEqual, Same, NanFree, IsDouble;
    var candidates := Candidates(expected);
    forall i | 0 <= i < |candidates|
      ensures PyEqual(actual, candidates[i]) <==> Same(actual, candidates[i]) && NanFree(actual)
    {
      PyEqualIsSame(actual, candidates[i]);
    }
    if Meets(actual, expected, AnyOf) {
      var i :| 0 <= i < |candidates| && Same(actual, candidates[i]);
      assert PyEqual(actual, candidates[i]);
    } else {
      assert forall i :: 0 <= i < |candidates| ==> !PyEqual(actual, candidates[i]);
    }
  }

  /** A comparison that raises has met an oversized integer in one of the two values. */
  lemma {:induction false} RaisesOnlyOnOversized(actual: Json, expected: Json, epsilon: real)
    requires Raises(actual, expected, epsilon)
    ensures HoldsOversized(actual) || HoldsOversized(expected)
    decreases actual
  {
    if !(IsNumber(actual) && IsNumber(expected)) {
      var i :| 0 <= i < |actual.items| && Raises(actual.items[i], expected.items[i], epsilon);
      RaisesOnlyOnOversized(actual.items[i], expected.items[i], epsilon);
    }
  }

  predicate HoldsOversized(j: Json) {
    match j
    case Int(_) => Oversized(j)
    case Arr(items) => exists i :: 0 <= i < |items| && HoldsOversized(items[i])
    case _ => false
  }

  // ----- the least power of ten no double holds is far below 10^400 -----

  const HUGE: nat := 400

  lemma {:induction false} TenAboveEight(k: nat)
    ensures Pow10(k) as real >= Scale(1.0, 3 * k)
  {
    if k > 0 {
      TenAboveEight(k - 1);
      ScaleStep(1.0, 3 * k);
      ScaleStep(1.0, 3 * k - 1);
      ScaleStep(1.0, 3 * k - 2);
      assert Pow10(k) == 10 * Pow10(k - 1);
    }
  }

  /** 10^400, with its 401 digits, is too large for a double. */
  lemma HugeIsOversized()
    ensures Oversized(Int(Pow10(HUGE))) && |Digits(Pow10(HUGE))| == HUGE + 1
  {
    hide Scale, Pow10, Digits, RoundMagnitude;
    TenAboveEight(HUGE);
    Pow2Grows(1024, 3 * HUGE);
    PowerTooLarge();
    RoundMonotone(Scale(1.0, 1024), Pow10(HUGE) as real);
    PowerDigits(HUGE);
  }

  /** The first power of two past the doubles. */
  lemma PowerTooLarge()
    ensures Scale(1.0, 1024) > 0.0 && RoundMagnitude(Scale(1.0, 1024)) == Scale(1.0, 1024)
  {
    hide Scale;
    Pow2Grows(1023, 1024);
    assert IsLastPlace(Scale(1.0, 1024), 971);
    ScaleAdd(1.0, 1024, -971);
    ScaleUpWhole(1.0, 53);
    WholePlacesRound(Scale(1.0, 1024), 971);
  }

  lemma {:induction false} PowerDigits(k: nat)
    ensures |Digits(Pow10(k))| == k + 1
  {
    if k > 0 {
      PowerDigits(k - 1);
      assert Pow10(k) / 10 == Pow10(k - 1) && Pow10(k) >= 10;
    }
  }

  /** A submission that honestly returns 10^400 where a float is expected makes the comparison raise. */
  lemma HugeAnswerRaises(expected: Json, epsilon: real)
    requires IsNumber(expected)
    ensures Raises(Int(Pow10(HUGE)), expected, epsilon)
  {
    hide Pow10, Digits, Round;
    HugeIsOversized();
  }
}
