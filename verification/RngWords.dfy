/** The words the generator gives: any four in a row come from exactly one state. */
module RngWords {
  import opened RngState
  import opened Words

  // 9 and 5 are odd, so each has an inverse modulo 2^64.
  const INVERSE9: Word := 0x8e38_e38e_38e3_8e39
  const INVERSE5: Word := 0xcccc_cccc_cccc_cccd

  /** The second word of a state that gives `w`. */
  function Unoutput(w: Word): Word {
    Times(RotateRight(Times(w, INVERSE9), 7), INVERSE5)
  }

  /** A word is given by exactly the states with one second word, so by 2^192 of them. */
  lemma WordIsSecond(s: State, w: Word)
    ensures Output(s) == w <==> s.s1 == Unoutput(w)
  {
    hide Times, RotateLeft, RotateRight;
    var x := Times(s.s1, 5);
    TimesUndone(s.s1, 5, INVERSE5);
    RotateUndone(x, 7);
    TimesUndone(RotateLeft(x, 7), 9, INVERSE9);
    var y := RotateRight(Times(w, INVERSE9), 7);
    TimesUndone(y, INVERSE5, 5);
    RotateUndone(Times(w, INVERSE9), 7);
    TimesUndone(w, INVERSE9, 9);
  }

  // ----- four words in a row -----

  datatype Four = Four(w0: Word, w1: Word, w2: Word, w3: Word)

  function FourWords(s: State): Four {
    Four(Output(s), Output(After(s, 1)), Output(After(s, 2)), Output(After(s, 3)))
  }

  /** The state after a step, from the second words of four states in a row. */
  function Middle(a: Word, b: Word, c: Word, d: Word): State {
    var s2 := Xor(Xor(a, b), Shl(a, SHIFT));
    var s0 := Xor(Xor(b, c), s2);
    var next2 := Xor(Xor(b, c), Shl(b, SHIFT));
    var next0 := Xor(Xor(c, d), next2);
    State(s0, b, s2, Xor(Xor(next0, s0), b))
  }

  /** The state that gives these words. */
  function StateGiving(f: Four): State {
    Unstep(Middle(Unoutput(f.w0), Unoutput(f.w1), Unoutput(f.w2), Unoutput(f.w3)))
  }

  /** What two second words in a row say about the rest. */
  lemma StepSeen(s: State)
    ensures var r, x := Step(s), Xor(s.s1, Step(s).s1);
            && x == Xor(s.s2, s.s0) && s.s0 == Xor(x, s.s2)
            && r.s2 == Xor(x, Shl(s.s1, SHIFT))
            && s.s3 == Xor(Xor(r.s0, s.s0), s.s1)
  {
    hide Xor, Shl, RotateLeft;
    var x, y := Xor(s.s2, s.s0), Xor(s.s3, s.s1);
    XorGroup(s.s1, x, x);
    XorCancels(s.s1, x);
    XorGroup(s.s1, Xor(s.s1, x), x);
    XorCancels(s.s2, s.s0);
    XorCancels(s.s0, y);
    XorCancels(s.s3, s.s1);
  }

  lemma MiddleOfStates(s: State)
    ensures var r := Step(s);
            Middle(s.s1, r.s1, Step(r).s1, Step(Step(r)).s1) == r
  {
    hide Step, Xor, Shl;
    var r := Step(s);
    StepSeen(s);
    StepSeen(r);
    StepSeen(Step(r));
  }

  lemma MiddleSteps(a: Word, b: Word, c: Word, d: Word)
    ensures var r := Middle(a, b, c, d);
            Unstep(r).s1 == a && r.s1 == b && Step(r).s1 == c && Step(Step(r)).s1 == d
  {
    hide Xor, Shl, RotateLeft, RotateRight, Unspread, Spread;
    var r := Middle(a, b, c, d);
    MiddleBefore(a, b);
    MiddleAfter(b, c, r.s2);
    var u := Step(r);
    var next2 := Xor(Xor(b, c), Shl(b, SHIFT));
    var next0 := Xor(Xor(c, d), next2);
    XorCancels(Xor(next0, r.s0), b);
    XorCancels(next0, r.s0);
    XorGroup(r.s0, Xor(next0, r.s0), 0);
    assert u.s0 == next0 && u.s2 == next2;
    MiddleAfter(c, d, next2);
  }

  lemma MiddleBefore(a: Word, b: Word)
    ensures Unspread(Xor(b, Xor(Xor(a, b), Shl(a, SHIFT))), SHIFT) == a
  {
    hide Xor, Shl, Unspread;
    var t := Shl(a, SHIFT);
    XorGroup(b, Xor(a, b), t);
    XorGroup(b, Xor(a, b), 0);
    XorCancels(a, b);
    SpreadUndone(a, SHIFT);
  }

  lemma MiddleAfter(b: Word, c: Word, x: Word)
    ensures Xor(x, Xor(Xor(b, c), x)) == Xor(b, c)
    ensures Xor(b, Xor(x, Xor(Xor(b, c), x))) == c
  {
    hide Xor;
    XorGroup(x, Xor(Xor(b, c), x), 0);
    XorCancels(Xor(b, c), x);
    XorGroup(b, Xor(b, c), 0);
    XorCancels(b, c);
  }

  lemma ThreeSteps(s: State)
    ensures After(s, 1) == Step(s) && After(s, 2) == Step(Step(s)) && After(s, 3) == Step(Step(Step(s)))
  {
    hide Step;
    assert After(Step(s), 1) == Step(Step(s));
    assert After(Step(s), 2) == After(Step(Step(s)), 1);
  }

  /** Every four words in a row are given by exactly one state: all of them are equally likely. */
  lemma FourWordsAreAState(s: State, f: Four)
    ensures FourWords(s) == f <==> s == StateGiving(f)
  {
    hide Step, Unstep, Output, Unoutput, After, Middle;
    ThreeSteps(s);
    StepIsBijection(s);
    MiddleOfStates(s);
    WordIsSecond(s, f.w0);
    WordIsSecond(After(s, 1), f.w1);
    WordIsSecond(After(s, 2), f.w2);
    WordIsSecond(After(s, 3), f.w3);
    var r := Middle(Unoutput(f.w0), Unoutput(f.w1), Unoutput(f.w2), Unoutput(f.w3));
    StepIsBijection(r);
    MiddleSteps(Unoutput(f.w0), Unoutput(f.w1), Unoutput(f.w2), Unoutput(f.w3));
  }

  // ----- further on in the sequence -----

  /** The state `k` draws before. */
  function Back(r: State, k: nat): State {
    if k == 0 then r else Unstep(Back(r, k - 1))
  }

  lemma {:induction false} AfterBack(s: State, r: State, k: nat)
    ensures After(s, k) == r <==> s == Back(r, k)
    decreases k
  {
    hide Step, Unstep;
    if k > 0 {
      AfterBack(Step(s), r, k - 1);
      StepIsBijection(s);
      StepIsBijection(Back(r, k - 1));
    }
  }

  /** The same holds from any draw on. */
  lemma FourWordsLater(s: State, k: nat, f: Four)
    ensures FourWords(After(s, k)) == f <==> s == Back(StateGiving(f), k)
  {
    hide After, FourWords, StateGiving, Back;
    FourWordsAreAState(After(s, k), f);
    AfterBack(s, StateGiving(f), k);
  }

  // ----- known words -----

  /** Bits above `k` meet none of the bits below. */
  lemma {:induction false} XorBelow(h: nat, x: nat, y: nat, k: nat)
    requires x < Pow2(k) && y < Pow2(k)
    ensures XorNat(h * Pow2(k) + x, y) == h * Pow2(k) + XorNat(x, y)
    decreases k
  {
    hide XorNat, Pow2;
    if k == 0 {
      XorZero(h);
      PowerStep(0);
    } else {
      PowerStep(k);
      HalfBelow(x, Pow2(k - 1));
      HalfBelow(y, Pow2(k - 1));
      XorBelow(h, x / 2, y / 2, k - 1);
      TwiceFactor(h, Pow2(k - 1));
      XorBelowStep(h * Pow2(k - 1), x, y);
    }
  }

  lemma PowerStep(k: nat)
    ensures Pow2(k) == if k == 0 then 1 else 2 * Pow2(k - 1)
  {
  }

  lemma HalfBelow(x: nat, p: nat)
    requires x < 2 * p
    ensures x / 2 < p
  {
  }

  lemma TwiceFactor(h: nat, p: nat)
    ensures h * (2 * p) == 2 * (h * p)
  {
  }

  lemma XorBelowStep(t: nat, x: nat, y: nat)
    requires XorNat(t + x / 2, y / 2) == t + XorNat(x / 2, y / 2)
    ensures XorNat(2 * t + x, y) == 2 * t + XorNat(x, y)
  {
    hide XorNat;
    var a := 2 * t + x;
    assert a / 2 == t + x / 2 && a % 2 == x % 2;
    XorHalves(a, y);
    XorHalves(x, y);
    SameParity(a, y, x, y);
    SameHalves(XorNat(a, y), 2 * t + XorNat(x, y));
  }

  lemma XorZero(h: nat)
    ensures XorNat(h, 0) == h && XorNat(0, 0) == 0
  {
  }

  /** A rotation that loses no bit multiplies by a power of two. */
  lemma {:induction false} RotateIsProduct(x: Word, k: nat)
    requires x * Pow2(k) < TWO_64
    ensures RotateLeft(x, k) == x * Pow2(k)
    decreases k
  {
    hide RotateLeftOnce, Pow2;
    PowerStep(k);
    if k > 0 {
      TwiceProduct(x, Pow2(k - 1));
      AtLeast(2 * x, Pow2(k - 1));
      RotateSmall(x);
      RotateIsProduct(2 * x, k - 1);
    }
  }

  lemma AtLeast(x: nat, t: nat)
    requires t > 0
    ensures x <= x * t
  {
    assert x * t == x + x * (t - 1);
  }

  lemma RotateSmall(x: Word)
    requires 2 * x < TWO_64
    ensures RotateLeftOnce(x) == 2 * x
  {
  }

  const BIT_18: nat := 262144
  const SIX_45: nat := 211106232532992

  lemma KnownPowers()
    ensures Pow2(7) == 128 && Pow2(17) == 131072 && Pow2(18) == BIT_18 && Pow2(45) * 6 == SIX_45
    ensures Pow2(45) == 35184372088832
  {
    assert Pow2(7) == 128 && Pow2(9) == 512;
    Pow2Adds(9, 8);
    Pow2Adds(9, 9);
    Pow2Adds(18, 18);
    Pow2Adds(36, 9);
  }

  lemma SmallXors()
    ensures XorNat(3, 1) == 2 && XorNat(4, 2) == 6 && XorNat(2, 2) == 0 && XorNat(1, 6) == 7
    ensures XorNat(2, 7) == 5 && XorNat(5, 7) == 2 && XorNat(5, 2) == 7
  {
  }

  lemma KnownXors()
    ensures XorNat(2, BIT_18) == BIT_18 + 2 && XorNat(BIT_18 + 2, 7) == BIT_18 + 5
    ensures XorNat(7, SIX_45) == SIX_45 + 7
    ensures XorNat(BIT_18 + 5, SIX_45 + 7) == SIX_45 + BIT_18 + 2
    ensures XorNat(BIT_18 + 5, SIX_45 + BIT_18 + 2) == SIX_45 + 7
  {
    hide XorNat, Pow2;
    KnownPowers();
    SmallXors();
    XorBelow(1, 0, 2, 18);
    XorComm(2, BIT_18);
    XorZero(2);
    XorComm(0, 2);
    XorBelow(1, 2, 7, 18);
    XorBelow(6, 0, 7, 45);
    XorComm(7, SIX_45);
    XorZero(7);
    XorComm(0, 7);
    XorBelow(6, 7, BIT_18 + 5, 45);
    XorComm(BIT_18 + 5, SIX_45 + 7);
    XorBelow(1, 5, 7, 18);
    XorComm(7, BIT_18 + 5);
    XorBelow(6, BIT_18 + 2, BIT_18 + 5, 45);
    XorComm(BIT_18 + 5, SIX_45 + BIT_18 + 2);
    XorTop(2, 5, true, true, 18);
    XorComm(2, 5);
  }

  lemma KnownShifts()
    ensures Shl(2, SHIFT) == BIT_18 && Shl(0, SHIFT) == 0 && RotateLeft(6, TURN) == SIX_45
    ensures RotateLeft(10, 7) == 1280 && RotateLeft(0, 7) == 0 && RotateLeft(1310745, 7) == 167775360
    ensures RotateLeft(1055531162664995, 7) == 135107988821119360
  {
    hide Pow2, Shl, RotateLeft;
    KnownPowers();
    ShlIsProduct(2, SHIFT);
    ShlIsProduct(0, SHIFT);
    RotateIsProduct(6, TURN);
    RotateIsProduct(10, 7);
    RotateIsProduct(0, 7);
    RotateIsProduct(1310745, 7);
    RotateIsProduct(1055531162664995, 7);
  }

  lemma FirstSteps()
    ensures var r := Step(State(1, 2, 3, 4));
            r.s1 == 0 && Step(r).s1 == BIT_18 + 5 && Step(Step(r)).s1 == SIX_45 + 7
  {
    hide XorNat, Shl, RotateLeft;
    SmallXors();
    KnownXors();
    KnownShifts();
    var r := Step(State(1, 2, 3, 4));
    assert r == State(7, 0, BIT_18 + 2, SIX_45);
    var u := Step(r);
    assert u.s0 == SIX_45 + 7 && u.s1 == BIT_18 + 5 && u.s2 == BIT_18 + 5;
  }

  lemma OutputOf(s: State, x: Word, y: Word)
    requires Times(s.s1, 5) == x && RotateLeft(x, 7) == y
    ensures Output(s) == Times(y, 9)
  {
    hide RotateLeft, Times;
  }

  lemma KnownProducts()
    ensures Times(2, 5) == 10 && Times(0, 5) == 0 && Times(262149, 5) == 1310745
    ensures Times(211106232532999, 5) == 1055531162664995
    ensures Times(1280, 9) == 11520 && Times(0, 9) == 0 && Times(167775360, 9) == 1509978240
    ensures Times(135107988821119360, 9) == 1215971899390074240
  {
  }

  /** The first words from the state (1, 2, 3, 4). */
  lemma FirstWords()
    ensures FourWords(State(1, 2, 3, 4)) == Four(11520, 0, 1509978240, 1215971899390074240)
  {
    hide Step, After, RotateLeft, Output, Times;
    KnownProducts();
    var s := State(1, 2, 3, 4);
    ThreeSteps(s);
    FirstSteps();
    KnownShifts();
    OutputOf(s, 10, 1280);
    OutputOf(Step(s), 0, 0);
    OutputOf(Step(Step(s)), 1310745, 167775360);
    OutputOf(Step(Step(Step(s))), 1055531162664995, 135107988821119360);
  }

  // ----- seeds -----

  /** The counter after `k` outputs of a SplitMix64 stream. */
  function Counter(seed: Word, k: nat): Word {
    (seed + k * 0x9e37_79b9_7f4a_7c15) % TWO_64
  }

  /** A seed's state is the first four outputs of its SplitMix64 stream, in order. */
  lemma SeededIsStream(seed: Word)
    ensures Seeded(seed) ==
            State(Mix(Counter(seed, 1)), Mix(Counter(seed, 2)), Mix(Counter(seed, 3)), Mix(Counter(seed, 4)))
  {
    hide Mix;
    CounterMoves(seed, 0);
    CounterMoves(seed, 1);
    CounterMoves(seed, 2);
    CounterMoves(seed, 3);
  }

  lemma CounterMoves(seed: Word, k: nat)
    ensures Next(Counter(seed, k)) == Counter(seed, k + 1)
  {
    var a: int := seed + k * GOLDEN;
    assert seed + (k + 1) * GOLDEN == a + GOLDEN;
    WrapAdds(a, GOLDEN);
  }

  lemma WrapAdds(a: int, c: int)
    ensures (a % TWO_64 + c) % TWO_64 == (a + c) % TWO_64
  {
    assert a + c == a % TWO_64 + c + TWO_64 * (a / TWO_64);
    AddWraps(a % TWO_64 + c, a / TWO_64);
  }

  /** Different seeds give different states. */
  lemma SeedsDiffer(seed: Word, other: Word)
    requires Seeded(seed) == Seeded(other)
    ensures seed == other
  {
    hide Mix, Unmix, Next;
    MixIsInjective(Next(seed));
    MixIsInjective(Next(other));
    NextIsInjective(seed, other);
  }

  lemma NextIsInjective(x: Word, y: Word)
    requires Next(x) == Next(y)
    ensures x == y
  {
  }
}
