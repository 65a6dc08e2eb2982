/** The state of the random number generator: xoshiro256** stepped from a SplitMix64 seed. */
module RngState {
  import opened Words

  datatype State = State(s0: Word, s1: Word, s2: Word, s3: Word)

  const ZERO := State(0, 0, 0, 0)

  // How far a step shifts one word and rotates another.
  const SHIFT: nat := 17
  const TURN: nat := 45

  /** The word a state gives. */
  function Output(s: State): Word {
    Times(RotateLeft(Times(s.s1, 5), 7), 9)
  }

  /** The state after `next_u64`, its exclusive-ors taken in order. */
  function Step(s: State): State {
    var t := Shl(s.s1, SHIFT);
    var s2 := Xor(s.s2, s.s0);
    var s3 := Xor(s.s3, s.s1);
    var s1 := Xor(s.s1, s2);
    var s0 := Xor(s.s0, s3);
    State(s0, s1, Xor(s2, t), RotateLeft(s3, TURN))
  }

  /** The state a step came from. */
  function Unstep(r: State): State {
    var s3 := RotateRight(r.s3, TURN);
    var s0 := Xor(r.s0, s3);
    var s1 := Unspread(Xor(r.s1, r.s2), SHIFT);
    var s2 := Xor(r.s2, Shl(s1, SHIFT));
    State(s0, s1, Xor(s2, s0), Xor(s3, s1))
  }

  lemma XorAcross(a: Word, b: Word)
    ensures Xor(Xor(a, b), Xor(b, Shl(a, SHIFT))) == Spread(a, SHIFT)
  {
    hide Xor, Shl;
    XorChains(a, b, Shl(a, SHIFT));
  }

  lemma XorMoves(a: Word, c: Word, d: Word)
    requires Spread(a, SHIFT) == Xor(c, d)
    ensures Xor(a, Xor(d, Shl(a, SHIFT))) == c
  {
    hide Xor, Shl;
    var t := Shl(a, SHIFT);
    XorGroup(d, t, 0);
    XorGroup(a, t, d);
    XorCancels(c, d);
  }

  /** A step is a bijection on states. */
  lemma StepIsBijection(s: State)
    ensures Unstep(Step(s)) == s
    ensures Step(Unstep(s)) == s
  {
    hide Step, Unstep;
    UnstepOfStep(s);
    StepOfUnstep(s);
  }

  lemma UnstepOfStep(s: State)
    ensures Unstep(Step(s)) == s
  {
    hide Xor, Shl, RotateLeft, RotateRight, Spread, Unspread;
    var s2, s3 := Xor(s.s2, s.s0), Xor(s.s3, s.s1);
    RotateUndone(s3, TURN);
    XorCancels(s.s0, s3);
    XorAcross(s.s1, s2);
    SpreadUndone(s.s1, SHIFT);
    XorCancels(s2, Shl(s.s1, SHIFT));
    XorCancels(s.s2, s.s0);
    XorCancels(s.s3, s.s1);
  }

  lemma StepOfUnstep(r: State)
    ensures Step(Unstep(r)) == r
  {
    hide Xor, Shl, RotateLeft, RotateRight, Spread, Unspread;
    var s := Unstep(r);
    var s2, s3 := Xor(r.s2, Shl(s.s1, SHIFT)), RotateRight(r.s3, TURN);
    RotateUndone(r.s3, TURN);
    XorCancels(s2, s.s0);
    XorCancels(s3, s.s1);
    XorCancels(r.s0, s3);
    XorCancels(r.s2, Shl(s.s1, SHIFT));
    UnspreadUndone(Xor(r.s1, r.s2), SHIFT);
    XorMoves(s.s1, r.s1, r.s2);
  }

  /** No run reaches the all-zero state, which a step cannot leave, from any other. */
  lemma StepKeepsNonzero(s: State)
    ensures Step(s) == ZERO <==> s == ZERO
  {
    hide Step, Unstep;
    StepIsBijection(s);
    ZeroStays();
  }

  lemma ZeroStays()
    ensures Step(ZERO) == ZERO && Unstep(ZERO) == ZERO
  {
    hide Xor, Shl, RotateLeft, RotateRight;
    Pow2Is64();
    hide Pow2;
    ShlIsProduct(0, SHIFT);
    ShlIsProduct(0, 2 * SHIFT);
    ShlIsProduct(0, 3 * SHIFT);
    RotateZero(TURN);
  }

  lemma {:induction false} RotateZero(k: nat)
    ensures RotateLeft(0, k) == 0 && RotateRight(0, k) == 0
  {
    if k > 0 { RotateZero(k - 1); }
  }

  /** The state after `k` draws. */
  function After(s: State, k: nat): State
    decreases k
  {
    if k == 0 then s else After(Step(s), k - 1)
  }

  lemma {:induction false} AfterIsInjective(s: State, t: State, k: nat)
    ensures After(s, k) == After(t, k) ==> s == t
    ensures After(s, k) == ZERO <==> s == ZERO
    decreases k
  {
    hide Step, Unstep;
    if k > 0 {
      AfterIsInjective(Step(s), Step(t), k - 1);
      StepIsBijection(s);
      StepIsBijection(t);
      StepKeepsNonzero(s);
    }
  }

  // ----- seeding -----

  const GOLDEN: Word := 0x9e37_79b9_7f4a_7c15
  const FACTOR1: Word := 0xbf58_476d_1ce4_e5b9
  const FACTOR2: Word := 0x94d0_49bb_1331_11eb

  /** One SplitMix64 output from its counter. */
  function Mix(x: Word): Word {
    Fold(Times(Fold(Times(Fold(x, 30), FACTOR1), 27), FACTOR2), 31)
  }

  function Next(x: Word): Word {
    (x + GOLDEN) % TWO_64
  }

  /** The state the counter's next four values give. */
  function Seeded(seed: Word): State {
    var a := Next(seed);
    var b := Next(a);
    var c := Next(b);
    State(Mix(a), Mix(b), Mix(c), Mix(Next(c)))
  }

  // Both multipliers are odd, so each has an inverse modulo 2^64.
  const INVERSE1: Word := 0x96de_1b17_3f11_9089
  const INVERSE2: Word := 0x3196_42b2_d24d_8ec3

  /** The counter an output came from. */
  function Unmix(r: Word): Word {
    Unfold(Times(Unfold(Times(Unfold(r, 31), INVERSE2), 27), INVERSE1), 30)
  }

  lemma MixIsInjective(x: Word)
    ensures Unmix(Mix(x)) == x
  {
    hide Fold, Unfold, Times;
    var y := Times(Fold(x, 30), FACTOR1);
    FoldUndone(Times(Fold(y, 27), FACTOR2), 31);
    TimesUndone(Fold(y, 27), FACTOR2, INVERSE2);
    FoldUndone(y, 27);
    TimesUndone(Fold(x, 30), FACTOR1, INVERSE1);
    FoldUndone(x, 30);
  }

  /** The four words of a seeded state are pairwise different, so it is never all zero. */
  lemma SeededWordsDiffer(seed: Word)
    ensures var s := Seeded(seed);
            && s.s0 != s.s1 && s.s0 != s.s2 && s.s0 != s.s3
            && s.s1 != s.s2 && s.s1 != s.s3 && s.s2 != s.s3
            && s != ZERO
  {
    hide Mix, Unmix, Next;
    var a := Next(seed);
    var b := Next(a);
    var c := Next(b);
    NextDiffers(a);
    NextDiffers(b);
    NextDiffers(c);
    MixIsInjective(a);
    MixIsInjective(b);
    MixIsInjective(c);
    MixIsInjective(Next(c));
  }

  lemma NextDiffers(x: Word)
    ensures x != Next(x) && x != Next(Next(x)) && x != Next(Next(Next(x)))
  {
  }

  /** From any seed, no number of draws gives the all-zero state. */
  lemma SeededNeverZero(seed: Word, k: nat)
    ensures After(Seeded(seed), k) != ZERO
  {
    hide Seeded, After;
    SeededWordsDiffer(seed);
    AfterIsInjective(Seeded(seed), ZERO, k);
  }
}
