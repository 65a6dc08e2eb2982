/** 64-bit words as the integers below 2^64, with the wrapping and bitwise operations used on them. */
module Words {
  const TWO_63 := 0x8000_0000_0000_0000
  const TWO_64 := 0x1_0000_0000_0000_0000

  type Word = x: int | 0 <= x < 0x1_0000_0000_0000_0000

  function Pow2(n: nat): (p: nat)
    ensures p > 0
  {
    if n == 0 then 1 else 2 * Pow2(n - 1)
  }

  lemma {:induction false} Pow2Adds(m: nat, n: nat)
    ensures Pow2(m + n) == Pow2(m) * Pow2(n)
  {
    if m > 0 {
      Pow2Adds(m - 1, n);
      assert Pow2(m) * Pow2(n) == 2 * (Pow2(m - 1) * Pow2(n));
    }
  }

  lemma Pow2Is64()
    ensures Pow2(63) == TWO_63 && Pow2(64) == TWO_64
  {
    assert Pow2(8) == 256;
    Pow2Adds(8, 8);
    Pow2Adds(16, 16);
    Pow2Adds(32, 32);
    assert Pow2(64) == 2 * Pow2(63);
  }

  // ----- exclusive or -----

  function XorNat(a: nat, b: nat): (r: nat)
    ensures a == 0 ==> r == b
    ensures b == 0 ==> r == a
  {
    if a == 0 && b == 0 then 0 else 2 * XorNat(a / 2, b / 2) + (a + b) % 2
  }

  lemma {:induction false} XorBound(a: nat, b: nat, n: nat)
    requires a < Pow2(n) && b < Pow2(n)
    ensures XorNat(a, b) < Pow2(n)
  {
    if n > 0 { XorBound(a / 2, b / 2, n - 1); }
  }

  lemma {:induction false} XorComm(a: nat, b: nat)
    ensures XorNat(a, b) == XorNat(b, a)
  {
    if a != 0 || b != 0 { XorComm(a / 2, b / 2); }
  }

  lemma {:induction false} XorSelf(a: nat)
    ensures XorNat(a, a) == 0
  {
    if a != 0 { XorSelf(a / 2); }
  }

  lemma XorHalves(a: nat, b: nat)
    ensures XorNat(a, b) / 2 == XorNat(a / 2, b / 2)
    ensures XorNat(a, b) % 2 == (a + b) % 2
  {
  }

  lemma SameHalves(x: nat, y: nat)
    requires x / 2 == y / 2 && x % 2 == y % 2
    ensures x == y
  {
  }

  lemma {:induction false} XorAssoc(a: nat, b: nat, c: nat)
    ensures XorNat(XorNat(a, b), c) == XorNat(a, XorNat(b, c))
  {
    hide XorNat;
    if a != 0 && b != 0 && c != 0 {
      XorAssoc(a / 2, b / 2, c / 2);
      XorHalves(a, b);
      XorHalves(b, c);
      XorHalves(XorNat(a, b), c);
      XorHalves(a, XorNat(b, c));
      SameHalves(XorNat(XorNat(a, b), c), XorNat(a, XorNat(b, c)));
    }
  }

  function TopBit(b: bool, n: nat): nat {
    if b then Pow2(n) else 0
  }

  lemma TopBitHalves(a: nat, s: bool, n: nat)
    requires n > 0
    ensures (a + TopBit(s, n)) / 2 == a / 2 + TopBit(s, n - 1)
    ensures (a + TopBit(s, n)) % 2 == a % 2
  {
  }

  /** The top bits of two numbers meet only each other. */
  lemma {:induction false} XorTop(a: nat, b: nat, s: bool, t: bool, n: nat)
    requires a < Pow2(n) && b < Pow2(n)
    ensures XorNat(a + TopBit(s, n), b + TopBit(t, n)) == XorNat(a, b) + TopBit(s != t, n)
  {
    hide XorNat, TopBit;
    if n == 0 {
      XorTopBase(s, t);
    } else {
      XorTop(a / 2, b / 2, s, t, n - 1);
      XorTopStep(a, b, s, t, n);
    }
  }

  lemma XorTopBase(s: bool, t: bool)
    ensures XorNat(TopBit(s, 0), TopBit(t, 0)) == XorNat(0, 0) + TopBit(s != t, 0)
  {
    assert XorNat(1, 1) == 2 * XorNat(0, 0);
  }

  lemma XorTopStep(a: nat, b: nat, s: bool, t: bool, n: nat)
    requires n > 0
    requires var x, y := a / 2 + TopBit(s, n - 1), b / 2 + TopBit(t, n - 1);
             XorNat(x, y) == XorNat(a / 2, b / 2) + TopBit(s != t, n - 1)
    ensures XorNat(a + TopBit(s, n), b + TopBit(t, n)) == XorNat(a, b) + TopBit(s != t, n)
  {
    hide XorNat, TopBit, Pow2;
    var x, y, r := a + TopBit(s, n), b + TopBit(t, n), XorNat(a, b);
    TopBitHalves(a, s, n);
    TopBitHalves(b, t, n);
    TopBitHalves(r, s != t, n);
    XorHalves(x, y);
    XorHalves(a, b);
    SameParity(x, y, a, b);
    SameHalves(XorNat(x, y), r + TopBit(s != t, n));
  }

  lemma SameParity(x: nat, y: nat, a: nat, b: nat)
    requires x % 2 == a % 2 && y % 2 == b % 2
    ensures (x + y) % 2 == (a + b) % 2
  {
  }

  function Xor(a: Word, b: Word): (r: Word)
    ensures a == 0 ==> r == b
    ensures b == 0 ==> r == a
  {
    Pow2Is64();
    XorBound(a, b, 64);
    XorNat(a, b)
  }

  lemma XorGroup(a: Word, b: Word, c: Word)
    ensures Xor(a, b) == Xor(b, a)
    ensures Xor(Xor(a, b), c) == Xor(a, Xor(b, c))
    ensures Xor(a, a) == 0
  {
    hide XorNat;
    XorComm(a, b);
    XorAssoc(a, b, c);
    XorSelf(a);
  }

  lemma XorCancels(a: Word, b: Word)
    ensures Xor(Xor(a, b), b) == a && Xor(Xor(a, b), a) == b
  {
    hide Xor;
    XorGroup(a, b, b);
    XorGroup(b, b, b);
    XorGroup(a, b, a);
    XorGroup(b, a, a);
    XorGroup(a, a, a);
  }

  // ----- wrapping multiplication -----

  function Times(x: Word, m: Word): Word {
    x * m % TWO_64
  }

  lemma AddWraps(r: int, z: int)
    ensures (r + TWO_64 * z) % TWO_64 == r % TWO_64
  {
  }

  lemma WrapInside(a: int, c: int)
    ensures (a % TWO_64) * c % TWO_64 == a * c % TWO_64
  {
    var q, r := a / TWO_64, a % TWO_64;
    assert a * c == r * c + TWO_64 * (q * c) by {
      assert a == r + TWO_64 * q;
    }
    AddWraps(r * c, q * c);
  }

  lemma ProductsAgree(x: int, m: int, i: int)
    ensures x * m * i == m * i * x
  {
  }

  /** Multiplying by a word and then by its inverse modulo 2^64 changes nothing. */
  lemma TimesUndone(x: Word, m: Word, i: Word)
    requires m * i % TWO_64 == 1
    ensures Times(Times(x, m), i) == x
  {
    hide Times;
    TimesTwice(x, m, i);
    ProductsAgree(x, m, i);
    TimesOne(m * i, x);
  }

  lemma TimesTwice(x: Word, m: Word, i: Word)
    ensures Times(Times(x, m), i) == x * m * i % TWO_64
  {
    WrapInside(x * m, i);
  }

  lemma TimesOne(a: int, x: Word)
    requires a % TWO_64 == 1
    ensures a * x % TWO_64 == x
  {
    WrapInside(a, x);
  }

  // ----- shifts and rotations, a bit at a time -----

  function Double(x: Word): Word {
    2 * x % TWO_64
  }

  function Shl(x: Word, k: nat): Word
    decreases k
  {
    if k == 0 then x else Shl(Double(x), k - 1)
  }

  function Shr(x: Word, k: nat): Word
    decreases k
  {
    if k == 0 then x else Shr(x / 2, k - 1)
  }

  function RotateLeftOnce(x: Word): Word {
    Double(x) + x / TWO_63
  }

  function RotateRightOnce(x: Word): Word {
    x / 2 + (if x % 2 == 1 then TWO_63 else 0)
  }

  function RotateLeft(x: Word, k: nat): Word
    decreases k
  {
    if k == 0 then x else RotateLeft(RotateLeftOnce(x), k - 1)
  }

  function RotateRight(x: Word, k: nat): Word
    decreases k
  {
    if k == 0 then x else RotateRightOnce(RotateRight(x, k - 1))
  }

  lemma RotateOnceUndone(x: Word)
    ensures RotateRightOnce(RotateLeftOnce(x)) == x
    ensures RotateLeftOnce(RotateRightOnce(x)) == x
  {
    RotateLeftFirst(x);
    RotateRightFirst(x);
  }

  lemma RotateLeftFirst(x: Word)
    ensures RotateRightOnce(RotateLeftOnce(x)) == x
  {
    if x < TWO_63 {
      assert RotateLeftOnce(x) == 2 * x;
    } else {
      assert RotateLeftOnce(x) == 2 * x - TWO_64 + 1;
    }
  }

  lemma RotateRightFirst(x: Word)
    ensures RotateLeftOnce(RotateRightOnce(x)) == x
  {
    var h := x / 2;
    if x % 2 == 1 {
      assert RotateRightOnce(x) == h + TWO_63 && 2 * (h + TWO_63) == 2 * h + TWO_64;
    } else {
      assert RotateRightOnce(x) == h && 2 * h == x;
    }
  }

  lemma {:induction false} RotateUndone(x: Word, k: nat)
    ensures RotateRight(RotateLeft(x, k), k) == x
    ensures RotateLeft(RotateRight(x, k), k) == x
    decreases k
  {
    hide RotateLeftOnce, RotateRightOnce;
    if k > 0 {
      RotateUndone(RotateLeftOnce(x), k - 1);
      RotateUndone(x, k - 1);
      RotateOnceUndone(x);
      RotateOnceUndone(RotateRight(x, k - 1));
    }
  }

  lemma TwiceProduct(x: int, t: int)
    ensures 2 * x * t == x * (2 * t)
  {
  }

  /** A left shift multiplies by a power of two and drops what overflows. */
  lemma {:induction false} ShlIsProduct(x: Word, k: nat)
    ensures Shl(x, k) == x * Pow2(k) % TWO_64
    decreases k
  {
    if k > 0 {
      ShlIsProduct(Double(x), k - 1);
      WrapInside(2 * x, Pow2(k - 1));
      TwiceProduct(x, Pow2(k - 1));
    }
  }

  lemma {:induction false} ShlAdds(x: Word, j: nat, k: nat)
    ensures Shl(Shl(x, j), k) == Shl(x, j + k)
    decreases j
  {
    if j > 0 { ShlAdds(Double(x), j - 1, k); }
  }

  lemma ShlEnds(x: Word, k: nat)
    requires k >= 64
    ensures Shl(x, k) == 0
  {
    hide Shl, Pow2;
    ShlAdds(x, 64, k - 64);
    ShlIsProduct(x, 64);
    Pow2Is64();
    AddWraps(0, x);
    ShlIsProduct(0, k - 64);
  }

  lemma {:induction false} ShrAdds(x: Word, j: nat, k: nat)
    ensures Shr(Shr(x, j), k) == Shr(x, j + k)
    decreases j
  {
    if j > 0 { ShrAdds(x / 2, j - 1, k); }
  }

  lemma {:induction false} ShrEnds(x: Word, k: nat)
    requires x < Pow2(k)
    ensures Shr(x, k) == 0
    decreases k
  {
    if k > 0 { ShrEnds(x / 2, k - 1); }
  }

  lemma {:induction false} Pow2Grows(j: nat, k: nat)
    requires j <= k
    ensures Pow2(j) <= Pow2(k)
  {
    if j < k { Pow2Grows(j, k - 1); }
  }

  lemma DoubleDropsTop(x: nat, s: bool)
    requires x < TWO_63
    ensures x + TopBit(s, 63) < TWO_64 && Double(x + TopBit(s, 63)) == 2 * x
  {
    hide Pow2;
    Pow2Is64();
  }

  lemma XorOfDoubles(a: Word, b: Word)
    ensures Double(Xor(a, b)) == Xor(Double(a), Double(b))
  {
    hide Pow2, XorNat;
    Pow2Is64();
    var s, t := a >= TWO_63, b >= TWO_63;
    var x, y := a - TopBit(s, 63), b - TopBit(t, 63);
    XorTop(x, y, s, t, 63);
    XorBound(x, y, 63);
    XorHalves(2 * x, 2 * y);
    assert 0 <= x < TWO_63 && 0 <= y < TWO_63 && Double(a) == 2 * x && Double(b) == 2 * y;
    hide Double;
    assert Xor(Double(a), Double(b)) == 2 * XorNat(x, y);
    DoubleDropsTop(XorNat(x, y), s != t);
  }

  lemma {:induction false} XorOfShl(a: Word, b: Word, k: nat)
    ensures Shl(Xor(a, b), k) == Xor(Shl(a, k), Shl(b, k))
    decreases k
  {
    hide Xor, Double;
    if k > 0 {
      XorOfDoubles(a, b);
      XorOfShl(Double(a), Double(b), k - 1);
    }
  }

  lemma {:induction false} XorOfShr(a: Word, b: Word, k: nat)
    ensures Shr(Xor(a, b), k) == Xor(Shr(a, k), Shr(b, k))
    decreases k
  {
    if k > 0 {
      XorHalves(a, b);
      hide XorNat;
      XorOfShr(a / 2, b / 2, k - 1);
    }
  }

  // ----- x ^ (x >> k) and x ^ (x << k) can be undone -----

  function Fold(x: Word, k: nat): Word {
    Xor(x, Shr(x, k))
  }

  function Unfold(y: Word, k: nat): Word {
    Xor(Xor(y, Shr(y, k)), Shr(y, 2 * k))
  }

  /** a ^ b ^ b ^ c ^ c ^ d, taken in pairs, is a ^ d. */
  lemma XorTelescopes(a: Word, b: Word, c: Word, d: Word)
    ensures Xor(Xor(Xor(a, b), Xor(b, c)), Xor(c, d)) == Xor(a, d)
  {
    hide Xor;
    XorChains(a, b, c);
    XorChains(a, c, d);
  }

  lemma XorChains(a: Word, b: Word, c: Word)
    ensures Xor(Xor(a, b), Xor(b, c)) == Xor(a, c)
  {
    hide Xor;
    XorGroup(Xor(a, b), b, c);
    XorCancels(a, b);
  }

  lemma FoldUndone(x: Word, k: nat)
    requires 22 <= k
    ensures Unfold(Fold(x, k), k) == x
  {
    hide Xor, Shr, Pow2;
    XorOfShr(x, Shr(x, k), k);
    XorOfShr(x, Shr(x, k), 2 * k);
    ShrAdds(x, k, k);
    ShrAdds(x, k, 2 * k);
    Pow2Is64();
    Pow2Grows(64, 3 * k);
    ShrEnds(x, 3 * k);
    XorTelescopes(x, Shr(x, k), Shr(x, 2 * k), 0);
  }

  function Spread(x: Word, k: nat): Word {
    Xor(x, Shl(x, k))
  }

  function Unspread(c: Word, k: nat): Word {
    Xor(Xor(Xor(c, Shl(c, k)), Shl(c, 2 * k)), Shl(c, 3 * k))
  }

  lemma SpreadUndone(x: Word, k: nat)
    requires 16 <= k
    ensures Unspread(Spread(x, k), k) == x
  {
    hide Xor, Shl;
    var y := Shl(x, k);
    XorOfShl(x, y, k);
    XorOfShl(x, y, 2 * k);
    XorOfShl(x, y, 3 * k);
    ShlAdds(x, k, k);
    ShlAdds(x, k, 2 * k);
    ShlAdds(x, k, 3 * k);
    ShlEnds(x, 4 * k);
    XorTelescopes(x, y, Shl(x, 2 * k), Shl(x, 3 * k));
    XorChains(x, Shl(x, 3 * k), 0);
  }

  lemma UnspreadUndone(c: Word, k: nat)
    requires 16 <= k
    ensures Spread(Unspread(c, k), k) == c
  {
    hide Xor, Shl;
    var c1, c2, c3 := Shl(c, k), Shl(c, 2 * k), Shl(c, 3 * k);
    XorOfShl(Xor(Xor(c, c1), c2), c3, k);
    XorOfShl(Xor(c, c1), c2, k);
    XorOfShl(c, c1, k);
    ShlAdds(c, k, k);
    ShlAdds(c, 2 * k, k);
    ShlAdds(c, 3 * k, k);
    ShlEnds(c, 4 * k);
    XorShifted(c, c1, c2, c3);
  }

  lemma XorShifted(c: Word, c1: Word, c2: Word, c3: Word)
    ensures Xor(Xor(Xor(Xor(c, c1), c2), c3), Xor(Xor(c1, c2), c3)) == c
  {
    hide Xor;
    var t := Xor(c1, c2);
    XorGroup(c, c1, c2);
    XorGroup(c, t, c3);
    XorCancels(c, Xor(t, c3));
  }
}
