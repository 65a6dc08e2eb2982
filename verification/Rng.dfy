/**
  * The random number generator handed to solutions, with its four words of state rewritten in place.
  * A draw may be rejected any number of times; each method is given the number of rejections it may
  * use up and says when it ran out.
  */
module RandomNumbers {
  import opened Wrappers
  import opened Words
  import opened RngState
  import opened RngUniform
  import opened Shuffling

  /** The first accepted word from a state and the state after it, or no word after `fuel` + 1 draws. */
  datatype Drawn = Drawn(word: Option<Word>, after: State)

  function Draw(s: State, n: Word, fuel: nat): Drawn
    requires n > 0
    decreases fuel
  {
    if Accepted(Output(s), n) then Drawn(Some(Output(s)), Step(s))
    else if fuel == 0 then Drawn(None, Step(s))
    else Draw(Step(s), n, fuel - 1)
  }

  ghost predicate RejectedBefore(s: State, n: Word, k: nat)
    requires n > 0
  {
    forall j: nat {:trigger After(s, j)} :: j < k ==> !Accepted(Output(After(s, j)), n)
  }

  /** A draw gives the first accepted word of the generator's sequence and stops right after it. */
  lemma {:induction false} DrawIsFirstAccepted(s: State, n: Word, fuel: nat) returns (k: nat)
    requires n > 0
    ensures k <= fuel && RejectedBefore(s, n, k)
    ensures Draw(s, n, fuel).after == After(s, k + 1)
    ensures Draw(s, n, fuel).word.Some? ==>
              Draw(s, n, fuel).word.value == Output(After(s, k)) && Accepted(Output(After(s, k)), n)
    ensures Draw(s, n, fuel).word.None? ==> k == fuel && RejectedBefore(s, n, fuel + 1)
    decreases fuel
  {
    hide Accepted, Output, Step;
    if Accepted(Output(s), n) || fuel == 0 {
      k := 0;
      assert After(s, 1) == After(Step(s), 0);
    } else {
      var k' := DrawIsFirstAccepted(Step(s), n, fuel - 1);
      k := k' + 1;
      RejectedLater(s, n, k);
      if Draw(s, n, fuel).word.None? { RejectedLater(s, n, fuel + 1); }
    }
  }

  lemma RejectedLater(s: State, n: Word, k: nat)
    requires n > 0 && k > 0 && !Accepted(Output(s), n) && RejectedBefore(Step(s), n, k - 1)
    ensures RejectedBefore(s, n, k)
  {
    hide Accepted, Output, Step;
    forall j: nat | j < k ensures !Accepted(Output(After(s, j)), n) {
      if j > 0 { assert After(s, j) == After(Step(s), j - 1); }
    }
  }

  /** The draws of a shuffle of `n` elements, fewer when one of them ran out of fuel. */
  datatype Draws = Draws(values: seq<nat>, after: State)

  function ShuffleDraws(s: State, n: nat, fuel: nat): Draws
    requires n < TWO_64
    decreases n
  {
    hide Draw, High;
    if n <= 1 then Draws([], s) else
      var d := Draw(s, n, fuel);
      if d.word.None? then Draws([], d.after) else
        var rest := ShuffleDraws(d.after, n - 1, fuel);
        Draws([High(d.word.value, n)] + rest.values, rest.after)
  }

  lemma {:induction false} ShuffleDrawsFit(s: State, n: nat, fuel: nat)
    requires n < TWO_64
    ensures var js := ShuffleDraws(s, n, fuel).values;
            |js| <= n && (|js| + 1 >= n ==> DrawsFit(n, js))
    decreases n
  {
    hide Draw, High;
    if n > 1 {
      var d := Draw(s, n, fuel);
      if d.word.Some? {
        ShuffleDrawsFit(d.after, n - 1, fuel);
        var rest := ShuffleDraws(d.after, n - 1, fuel).values;
        assert ([High(d.word.value, n)] + rest)[1..] == rest;
      }
    }
  }

  /** The draw for a half-open range, whose span always fits 64 bits. */
  function DrawIn(s: State, t: IntType, start: int, end: int, fuel: nat): Drawn
    requires t.Valid() && t.Holds(start) && t.Holds(end) && start < end
  {
    SpanIsExact(t, start, end);
    Draw(s, end - start, fuel)
  }

  datatype Sampled = Value(v: int) | EmptyRange | OutOfFuel

  class Rng {
    var s: array<Word>

    ghost predicate Valid()
      reads this
    {
      s.Length == 4
    }

    function Now(): State
      requires Valid()
      reads this, s
    {
      State(s[0], s[1], s[2], s[3])
    }

    static method SplitMix(x: Word) returns (counter: Word, z: Word)
      ensures counter == Next(x) && z == Mix(counter)
    {
      counter := (x + GOLDEN) % TWO_64;
      z := counter;
      z := Times(Fold(z, 30), FACTOR1);
      z := Times(Fold(z, 27), FACTOR2);
      z := Fold(z, 31);
    }

    constructor Seed(seed: Word)
      ensures Valid() && fresh(s) && Now() == Seeded(seed)
    {
      hide Mix, Next;
      var x, z0 := SplitMix(seed);
      var z1, z2, z3;
      x, z1 := SplitMix(x);
      x, z2 := SplitMix(x);
      x, z3 := SplitMix(x);
      s := new Word[] [z0, z1, z2, z3];
    }

    method NextU64() returns (out: Word)
      requires Valid()
      modifies s
      ensures out == Output(old(Now()))
      ensures Now() == Step(old(Now()))
    {
      hide Xor, Shl, RotateLeft, Times;
      out := Times(RotateLeft(Times(s[1], 5), 7), 9);
      var t := Shl(s[1], SHIFT);
      s[2] := Xor(s[2], s[0]);
      s[3] := Xor(s[3], s[1]);
      s[1] := Xor(s[1], s[2]);
      s[0] := Xor(s[0], s[3]);
      s[2] := Xor(s[2], t);
      s[3] := RotateLeft(s[3], TURN);
    }

    method Below(n: Word, fuel: nat) returns (r: Option<Word>)
      requires Valid() && n > 0
      modifies s
      ensures var d := Draw(old(Now()), n, fuel);
              && Now() == d.after
              && r == (if d.word.Some? then Some(High(d.word.value, n)) else None)
      ensures r.Some? ==> r.value < n
    {
      hide Output, Step, Low, High, Threshold;
      var w := NextU64();
      var spent := 0;
      if Low(w, n) < n {
        var threshold := Threshold(n);
        while Low(w, n) < threshold
          invariant spent <= fuel
          invariant Accepted(w, n) ==>
                      Draw(old(Now()), n, fuel) == Drawn(Some(w), Now())
          invariant !Accepted(w, n) ==>
                      Draw(old(Now()), n, fuel)
                      == if spent == fuel then Drawn(None, Now()) else Draw(Now(), n, fuel - spent - 1)
          decreases fuel - spent
        {
          if spent == fuel { return None; }
          w := NextU64();
          spent := spent + 1;
        }
      } else {
        EarlyTestIsSound(w, n);
      }
      r := Some(High(w, n));
    }

    /** A draw from `start..end` of the integer type `t`. */
    method GenRange(t: IntType, start: int, end: int, fuel: nat) returns (r: Sampled)
      requires Valid() && t.Valid() && t.Holds(start) && t.Holds(end)
      modifies s
      ensures start >= end ==> r == EmptyRange && Now() == old(Now())
      ensures start < end ==>
                var d := DrawIn(old(Now()), t, start, end, fuel);
                && Now() == d.after
                && r == if d.word.Some? then Value(Sample(t, start, end, d.word.value)) else OutOfFuel
      ensures r.Value? ==> start <= r.v < end
    {
      hide Draw, High;
      if start >= end { return EmptyRange; }
      SpanIsExact(t, start, end);
      var span := (end - start) % TWO_64;
      var k := Below(span, fuel);
      if k.None? { return OutOfFuel; }
      r := Value(t.Cast(start + k.value));
      SampleInRange(t, start, end, Draw(old(Now()), span, fuel).word.value);
    }

    /** A draw from `lo..=hi`. */
    method GenRangeInclusive(t: IntType, lo: int, hi: int, fuel: nat) returns (r: Sampled)
      requires Valid() && t.Valid() && t.Holds(lo) && t.Holds(hi)
      modifies s
      ensures lo > hi ==> r == EmptyRange && Now() == old(Now())
      ensures lo <= hi && Wide(lo, hi) ==>
                && Now() == Step(old(Now()))
                && r == Value(SampleInclusive(t, lo, hi, Output(old(Now()))))
      ensures lo <= hi && !Wide(lo, hi) ==>
                var d := Draw(old(Now()), hi - lo + 1, fuel);
                && Now() == d.after
                && r == if d.word.Some? then Value(SampleInclusive(t, lo, hi, d.word.value)) else OutOfFuel
      ensures r.Value? ==> lo <= r.v <= hi
    {
      hide Draw, High, Output, Step, SampleInclusive, IntType.Cast;
      if lo > hi { return EmptyRange; }
      var span := hi - lo + 1;
      var offset: Word;
      ghost var w: Word;
      if span > TWO_64 - 1 {
        offset := NextU64();
        w := offset;
      } else {
        var k := Below(span % TWO_64, fuel);
        if k.None? {
          SpanIsWord(t, lo, hi);
          return OutOfFuel;
        }
        offset := k.value;
        w := Draw(old(Now()), span % TWO_64, fuel).word.value;
      }
      r := Value(t.Cast(lo + offset));
      if !Wide(lo, hi) { SpanIsWord(t, lo, hi); }
      InclusiveFrom(t, lo, hi, w);
      SampleInclusiveInRange(t, lo, hi, w);
    }

    lemma SpanIsWord(t: IntType, lo: int, hi: int)
      requires t.Valid() && t.Holds(lo) && t.Holds(hi) && lo <= hi && !Wide(lo, hi)
      ensures (hi - lo + 1) % TWO_64 == hi - lo + 1
    {
      SampleInclusiveInRange(t, lo, hi, 0);
    }

    /** Shuffles `items` in place, or stops part way with them still rearranged. */
    method Shuffle<T>(items: array<T>, fuel: nat) returns (done: bool, ghost js: seq<nat>)
      requires Valid() && items.Length < TWO_64 && (items as object) != s
      modifies s, items
      ensures js == ShuffleDraws(old(Now()), items.Length, fuel).values
      ensures Now() == ShuffleDraws(old(Now()), items.Length, fuel).after
      ensures done <==> |js| + 1 >= items.Length
      ensures done ==> DrawsFit(items.Length, js) && items[..] == Shuffled(old(items[..]), js)
      ensures multiset(items[..]) == multiset(old(items[..]))
    {
      hide Swap, Shuffled, ShuffleDraws, DrawsFit, Midway, Draw, High, Distinct;
      var i := items.Length;
      js := [];
      MidwayStart(Now(), items[..], fuel);
      while i > 1
        invariant 0 <= i <= items.Length && (items.Length > 0 ==> i > 0)
        invariant |js| == items.Length - i
        invariant multiset(items[..]) == multiset(old(items[..]))
        invariant Midway(old(Now()), old(items[..]), js, items[..], i, Now(), fuel)
      {
        i := i - 1;
        MidwayStep(old(Now()), old(items[..]), js, items[..], i, Now(), fuel);
        var j := Below(i + 1, fuel);
        if j.None? { return false, js; }
        SwapKeeps(items[..], i, j.value);
        Exchange(items, i, j.value);
        js := js + [j.value];
      }
      MidwayEnd(old(Now()), old(items[..]), js, items[..], i, Now(), fuel);
      done := true;
    }

    static method Exchange<T>(items: array<T>, i: nat, j: nat)
      requires i < items.Length && j < items.Length
      modifies items
      ensures items[..] == Swap(old(items[..]), i, j)
    {
      items[i], items[j] := items[j], items[i];
    }
  }

  /** With `i` elements still to place, what remains of the draws, applied to them, completes the shuffle. */
  ghost predicate Midway<T>(first: State, s: seq<T>, js: seq<nat>, now: seq<T>, i: nat, after: State, fuel: nat)
    requires i <= |now| && i < TWO_64 && |s| < TWO_64
  {
    var rest := ShuffleDraws(after, i, fuel);
    && ShuffleDraws(first, |s|, fuel) == Draws(js + rest.values, rest.after)
    && (|rest.values| + 1 >= i ==> LeadsTo(s, js, now, i, rest.values))
  }

  lemma MidwayStart<T>(first: State, s: seq<T>, fuel: nat)
    requires |s| < TWO_64
    ensures Midway(first, s, [], s, |s|, first, fuel)
  {
    var rest := ShuffleDraws(first, |s|, fuel).values;
    ShuffleDrawsFit(first, |s|, fuel);
    LeadsFromStart(s, rest);
    assert [] + rest == rest;
  }

  lemma MidwayStep<T>(first: State, s: seq<T>, js: seq<nat>, now: seq<T>, i: nat, after: State, fuel: nat)
    requires 1 <= i < |now| && i < TWO_64 - 1 && |s| < TWO_64
    requires Midway(first, s, js, now, i + 1, after, fuel)
    ensures var d := Draw(after, i + 1, fuel);
            if d.word.None? then ShuffleDraws(first, |s|, fuel) == Draws(js, d.after)
            else var j := High(d.word.value, i + 1);
                 Midway(first, s, js + [j], Swap(now, i, j), i, d.after, fuel)
  {
    hide Draw, High, Swap, LeadsTo;
    var d := Draw(after, i + 1, fuel);
    if d.word.None? {
      assert js + [] == js;
    } else {
      var j := High(d.word.value, i + 1);
      var more := ShuffleDraws(d.after, i, fuel).values;
      assert ([j] + more)[1..] == more && js + ([j] + more) == js + [j] + more;
      if |more| + 1 >= i { LeadsOn(s, js, now, i, [j] + more); }
    }
  }

  lemma MidwayEnd<T>(first: State, s: seq<T>, js: seq<nat>, now: seq<T>, i: nat, after: State, fuel: nat)
    requires i <= |now| && i <= 1 && |s| < TWO_64
    requires Midway(first, s, js, now, i, after, fuel)
    ensures ShuffleDraws(first, |s|, fuel) == Draws(js, after)
    ensures DrawsFit(|s|, js) && now == Shuffled(s, js)
  {
    assert js + [] == js;
    LeadsToEnd(s, js, now, i);
  }
}
