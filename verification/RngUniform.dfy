/** Lemire's multiply-and-reject draw, and ranges of integer types drawn with it. */
module RngUniform {
  import opened Arithmetic
  import opened Words

  /** The low and high words of the 128-bit product of a draw and the bound. */
  function Low(w: Word, n: Word): Word {
    w * n % TWO_64
  }

  function High(w: Word, n: Word): (h: Word)
    ensures n > 0 ==> h < n
  {
    Cut(w, n);
    w * n / TWO_64
  }

  lemma Cut(w: Word, n: Word)
    ensures w * n >= 0 && 0 <= w * n / TWO_64 < TWO_64
    ensures n > 0 ==> w * n / TWO_64 < n
  {
    WordProduct(w, n);
    hide *;
    Quotient(w * n, n);
  }

  lemma WordProduct(w: Word, n: Word)
    ensures 0 <= w * n <= (TWO_64 - 1) * n
  {
    ProductGrows(w, TWO_64 - 1, n);
  }

  lemma ProductGrows(a: nat, b: nat, n: nat)
    requires a <= b
    ensures 0 <= a * n <= b * n
  {
    assert (b - a) * n >= 0;
  }

  lemma Quotient(a: int, n: Word)
    requires 0 <= a <= (TWO_64 - 1) * n
    ensures 0 <= a / TWO_64 < TWO_64 && (n > 0 ==> a / TWO_64 < n)
  {
    assert a == TWO_64 * (a / TWO_64) + a % TWO_64;
  }

  /** A larger word never gives a smaller value, and the least word gives the least. */
  lemma HighIsOrdered(w: Word, v: Word, n: Word)
    requires w <= v
    ensures High(w, n) <= High(v, n) && High(0, n) == 0
  {
    ProductGrows(w, v, n);
    hide *;
    QuotientGrows(w * n, v * n);
  }

  lemma QuotientGrows(a: int, b: int)
    requires a <= b
    ensures a / TWO_64 <= b / TWO_64
  {
  }

  /** 2^64 mod n, the size of the biased zone, computed without leaving 64 bits. */
  function Threshold(n: Word): Word
    requires n > 0
  {
    (TWO_64 - n) % n
  }

  predicate Accepted(w: Word, n: Word)
    requires n > 0
  {
    Low(w, n) >= Threshold(n)
  }

  lemma ModMinus(a: int, n: int)
    requires n > 0
    ensures (a - n) % n == a % n
  {
    var q, r := a / n, a % n;
    assert a - n == n * (q - 1) + r;
    DivModUnique(a - n, n, q - 1, r);
  }

  /** The threshold is 2^64 mod n, and the cheap first test never hides a rejection. */
  lemma ThresholdIsRemainder(n: Word)
    requires n > 0
    ensures Threshold(n) == TWO_64 % n && Threshold(n) < n
  {
    ModMinus(TWO_64, n);
  }

  lemma EarlyTestIsSound(w: Word, n: Word)
    requires n > 0 && Low(w, n) >= n
    ensures Accepted(w, n)
  {
    ThresholdIsRemainder(n);
  }

  // ----- exact uniformity -----

  /** The words that are accepted and give the value `k`. */
  ghost function Hits(n: Word, k: nat): set<int>
    requires n > 0
  {
    set w: int | 0 <= w < TWO_64 && Accepted(w, n) && High(w, n) == k
  }

  ghost function Rejects(n: Word): set<int>
    requires n > 0
  {
    set w: int | 0 <= w < TWO_64 && !Accepted(w, n)
  }

  function CeilDiv(a: int, n: int): int
    requires n > 0
  {
    (a + n - 1) / n
  }

  lemma CeilDivIsLeast(a: int, n: int, w: int)
    requires n > 0
    ensures CeilDiv(a, n) <= w <==> a <= w * n
  {
    var c, r := CeilDiv(a, n), (a + n - 1) % n;
    assert a + n - 1 == n * c + r;
    if c <= w {
      ProductOrder(n, c, w);
    } else {
      ProductOrder(n, w, c - 1);
    }
  }

  lemma ProductOrder(n: nat, a: int, b: int)
    requires a <= b
    ensures n * a <= n * b
  {
    assert n * (b - a) >= 0;
  }

  lemma CeilDivAdds(a: int, n: int, q: int)
    requires n > 0
    ensures CeilDiv(a + n * q, n) == CeilDiv(a, n) + q
  {
    var c, r := CeilDiv(a, n), (a + n - 1) % n;
    assert a + n * q + n - 1 == n * (c + q) + r;
    DivModUnique(a + n * q + n - 1, n, c + q, r);
  }

  ghost function Interval(a: int, b: int): (s: set<int>)
    requires a <= b
    ensures |s| == b - a
    ensures forall w :: w in s <==> a <= w < b
    decreases b - a
  {
    if a == b then {} else Interval(a, b - 1) + {b - 1}
  }

  /** The least word whose product with `n` reaches the accepted zone of `k`. */
  function FirstHit(n: Word, k: nat): int
    requires n > 0
  {
    CeilDiv(k * TWO_64 + TWO_64 % n, n)
  }

  lemma HitsBounds(n: Word, k: nat)
    requires k < n
    ensures 0 <= FirstHit(n, k) && FirstHit(n, k) + TWO_64 / n <= TWO_64
    ensures FirstHit(n, k) + TWO_64 / n == CeilDiv((k + 1) * TWO_64, n)
  {
    var q, t := TWO_64 / n, TWO_64 % n;
    hide CeilDiv;
    assert (k + 1) * TWO_64 == k * TWO_64 + t + n * q by {
      assert TWO_64 == n * q + t;
    }
    CeilDivAdds(k * TWO_64 + t, n, q);
    CeilDivIsLeast(k * TWO_64 + t, n, -1);
    CeilDivIsLeast((k + 1) * TWO_64, n, TWO_64);
    assert (k + 1) * TWO_64 <= TWO_64 * n;
  }

  /** A word is accepted with value `k` exactly when its product lies in k's zone above the threshold. */
  lemma HitIsZone(w: Word, n: Word, k: nat)
    requires n > 0
    ensures Accepted(w, n) && High(w, n) == k
       <==> k * TWO_64 + TWO_64 % n <= w * n < (k + 1) * TWO_64
  {
    ThresholdIsRemainder(n);
    hide Threshold;
    var p := w * n;
    assert p == TWO_64 * High(w, n) + Low(w, n);
    if k * TWO_64 + TWO_64 % n <= p < (k + 1) * TWO_64 {
      DivModUnique(p, TWO_64, k, p - TWO_64 * k);
    }
  }

  lemma HitsAreInterval(n: Word, k: nat)
    requires k < n
    ensures 0 <= FirstHit(n, k)
    ensures Hits(n, k) == Interval(FirstHit(n, k), FirstHit(n, k) + TWO_64 / n)
  {
    HitsBounds(n, k);
    var zone := Interval(FirstHit(n, k), FirstHit(n, k) + TWO_64 / n);
    forall w: Word ensures w in Hits(n, k) <==> w in zone {
      HitIsZone(w, n, k);
      CeilDivIsLeast(k * TWO_64 + TWO_64 % n, n, w);
      CeilDivIsLeast((k + 1) * TWO_64, n, w);
      hide CeilDiv, Accepted, High;
    }
  }

  /** A draw below `n` is exactly uniform: every value comes from the same number of words. */
  lemma DrawIsUniform(n: Word, k: nat)
    requires k < n
    ensures |Hits(n, k)| == TWO_64 / n
  {
    HitsAreInterval(n, k);
  }

  /** The accepted words with a value below `m`. */
  ghost function HitsBelow(n: Word, m: nat): set<int>
    requires n > 0
  {
    set w: int | 0 <= w < TWO_64 && Accepted(w, n) && High(w, n) < m
  }

  lemma {:induction false} HitsBelowSize(n: Word, m: nat)
    requires m <= n && n > 0
    ensures |HitsBelow(n, m)| == m * (TWO_64 / n)
    decreases m
  {
    hide Accepted, High;
    if m == 0 {
      assert HitsBelow(n, 0) == {};
    } else {
      HitsBelowSize(n, m - 1);
      DrawIsUniform(n, m - 1);
      assert HitsBelow(n, m) == HitsBelow(n, m - 1) + Hits(n, m - 1);
      assert HitsBelow(n, m - 1) !! Hits(n, m - 1);
      assert m * (TWO_64 / n) == (m - 1) * (TWO_64 / n) + TWO_64 / n;
    }
  }

  /** Exactly 2^64 mod n words are rejected. */
  lemma RejectsCount(n: Word)
    requires n > 0
    ensures |Rejects(n)| == TWO_64 % n
  {
    hide Accepted, Interval;
    var all := Interval(0, TWO_64);
    HitsBelowSize(n, n);
    forall w: Word ensures w in HitsBelow(n, n) <==> w !in Rejects(n) { assert High(w, n) < n; }
    hide High;
    assert all == HitsBelow(n, n) + Rejects(n);
    assert HitsBelow(n, n) !! Rejects(n);
    assert TWO_64 == n * (TWO_64 / n) + TWO_64 % n;
  }

  // ----- ranges of an integer type -----

  datatype IntType = IntType(bits: nat, signed: bool) {
    predicate Valid() {
      bits == 8 || bits == 16 || bits == 32 || bits == 64
    }

    function Min(): int
      requires Valid()
    {
      if signed then 0 - Pow2(bits - 1) else 0
    }

    function Max(): int
      requires Valid()
    {
      Min() + Pow2(bits) - 1
    }

    predicate Holds(x: int)
      requires Valid()
    {
      Min() <= x <= Max()
    }

    /** The conversion of a wider integer to this type, which keeps its low bits. */
    function Cast(x: int): int
      requires Valid()
    {
      (x - Min()) % Pow2(bits) + Min()
    }
  }

  lemma CastIsExact(t: IntType, x: int)
    requires t.Valid() && t.Holds(x)
    ensures t.Cast(x) == x
  {
    DivModUnique(x - t.Min(), Pow2(t.bits), 0, x - t.Min());
  }

  lemma WidthFits(t: IntType)
    requires t.Valid()
    ensures Pow2(t.bits) <= TWO_64
  {
    Pow2Is64();
    Pow2Grows(t.bits, 64);
  }

  /** The span of `start..end` as the code casts it to 64 bits. */
  function Span(start: int, end: int): Word {
    (end - start) % TWO_64
  }

  /** The value the word `w` gives in `start..end`. */
  function Sample(t: IntType, start: int, end: int, w: Word): int
    requires t.Valid()
  {
    t.Cast(start + High(w, Span(start, end)))
  }

  predicate Wide(lo: int, hi: int) {
    hi - lo + 1 > TWO_64 - 1
  }

  /** The offset of the word `w` in `lo..=hi`: a whole 64-bit range takes the word as it is. */
  function Offset(lo: int, hi: int, w: Word): int {
    if Wide(lo, hi) then w else High(w, (hi - lo + 1) % TWO_64)
  }

  predicate Usable(lo: int, hi: int, w: Word)
    requires lo <= hi
  {
    Wide(lo, hi) || ((hi - lo + 1) % TWO_64 > 0 && Accepted(w, (hi - lo + 1) % TWO_64))
  }

  function SampleInclusive(t: IntType, lo: int, hi: int, w: Word): int
    requires t.Valid()
  {
    t.Cast(lo + Offset(lo, hi, w))
  }

  /** The samples of a range run through it from its start, in the order of the words. */
  lemma SampleIsOrdered(t: IntType, start: int, end: int, w: Word, v: Word)
    requires t.Valid() && t.Holds(start) && t.Holds(end) && start < end && w <= v
    ensures start == Sample(t, start, end, 0) <= Sample(t, start, end, w) <= Sample(t, start, end, v) < end
  {
    hide High, IntType.Cast;
    SampleInRange(t, start, end, 0);
    SampleInRange(t, start, end, w);
    SampleInRange(t, start, end, v);
    HighIsOrdered(0, w, Span(start, end));
    HighIsOrdered(w, v, Span(start, end));
  }

  lemma InclusiveIsOrdered(t: IntType, lo: int, hi: int, w: Word, v: Word)
    requires t.Valid() && t.Holds(lo) && t.Holds(hi) && lo <= hi && w <= v
    ensures lo == SampleInclusive(t, lo, hi, 0) <= SampleInclusive(t, lo, hi, w)
    ensures SampleInclusive(t, lo, hi, w) <= SampleInclusive(t, lo, hi, v) <= hi
  {
    hide High, IntType.Cast;
    SampleInclusiveInRange(t, lo, hi, 0);
    SampleInclusiveInRange(t, lo, hi, w);
    SampleInclusiveInRange(t, lo, hi, v);
    var span := (hi - lo + 1) % TWO_64;
    HighIsOrdered(0, w, span);
    HighIsOrdered(w, v, span);
  }

  lemma SpanIsExact(t: IntType, start: int, end: int)
    requires t.Valid() && t.Holds(start) && t.Holds(end) && start < end
    ensures Span(start, end) == end - start > 0
  {
    WidthFits(t);
  }

  /** No sample wraps or leaves its half-open range, and the range is drawn with the exact span. */
  lemma SampleInRange(t: IntType, start: int, end: int, w: Word)
    requires t.Valid() && t.Holds(start) && t.Holds(end) && start < end
    ensures Span(start, end) == end - start
    ensures Sample(t, start, end, w) == start + High(w, end - start)
    ensures start <= Sample(t, start, end, w) < end
  {
    SpanIsExact(t, start, end);
    CastIsExact(t, start + High(w, end - start));
  }

  /** The accepted words that `start..end` turns into `v`. */
  ghost function RangeHits(t: IntType, start: int, end: int, v: int): set<int>
    requires t.Valid() && Span(start, end) > 0
  {
    set w: int | 0 <= w < TWO_64 && Accepted(w, Span(start, end)) && Sample(t, start, end, w) == v
  }

  /** Every value of a half-open range of any type comes from equally many words. */
  lemma RangeIsUniform(t: IntType, start: int, end: int, v: int)
    requires t.Valid() && t.Holds(start) && t.Holds(end) && start <= v < end
    ensures Span(start, end) > 0
    ensures |RangeHits(t, start, end, v)| == TWO_64 / (end - start)
  {
    SpanIsExact(t, start, end);
    hide Accepted, High;
    forall w: Word ensures w in RangeHits(t, start, end, v) <==> w in Hits(end - start, v - start) {
      SampleInRange(t, start, end, w);
    }
    assert RangeHits(t, start, end, v) == Hits(end - start, v - start);
    DrawIsUniform(end - start, v - start);
  }

  lemma InclusiveFrom(t: IntType, lo: int, hi: int, w: Word)
    requires t.Valid()
    ensures SampleInclusive(t, lo, hi, w) == t.Cast(lo + Offset(lo, hi, w))
  {
  }

  lemma SampleInclusiveInRange(t: IntType, lo: int, hi: int, w: Word)
    requires t.Valid() && t.Holds(lo) && t.Holds(hi) && lo <= hi
    ensures Wide(lo, hi) <==> hi - lo + 1 == TWO_64
    ensures !Wide(lo, hi) ==> (hi - lo + 1) % TWO_64 == hi - lo + 1
    ensures SampleInclusive(t, lo, hi, w) == lo + Offset(lo, hi, w)
    ensures lo <= SampleInclusive(t, lo, hi, w) <= hi
  {
    WidthFits(t);
    CastIsExact(t, lo + Offset(lo, hi, w));
  }

  ghost function InclusiveHits(t: IntType, lo: int, hi: int, v: int): set<int>
    requires t.Valid() && lo <= hi
  {
    set w: int | 0 <= w < TWO_64 && Usable(lo, hi, w) && SampleInclusive(t, lo, hi, w) == v
  }

  /** The same for an inclusive range, the whole of a 64-bit type included. */
  lemma InclusiveIsUniform(t: IntType, lo: int, hi: int, v: int)
    requires t.Valid() && t.Holds(lo) && t.Holds(hi) && lo <= v <= hi
    ensures |InclusiveHits(t, lo, hi, v)| == TWO_64 / (hi - lo + 1)
  {
    hide Accepted, High;
    var n := hi - lo + 1;
    forall w: Word ensures SampleInclusive(t, lo, hi, w) == lo + Offset(lo, hi, w) {
      SampleInclusiveInRange(t, lo, hi, w);
    }
    SampleInclusiveInRange(t, lo, hi, 0);
    if Wide(lo, hi) {
      assert InclusiveHits(t, lo, hi, v) == {v - lo};
    } else {
      assert InclusiveHits(t, lo, hi, v) == Hits(n, v - lo);
      DrawIsUniform(n, v - lo);
    }
  }
}
