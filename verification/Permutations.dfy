/** Permutations of positions, and sequences that agree up to one. */
module Permutations {
  predicate IsPermutation(p: seq<nat>, n: nat) {
    && |p| == n
    && (forall i :: 0 <= i < n ==> p[i] < n)
    && (forall i, j :: 0 <= i < j < n ==> p[i] != p[j])
  }

  function Without<T>(s: seq<T>, j: nat): (r: seq<T>)
    requires j < |s|
    ensures |r| == |s| - 1
  {
    s[..j] + s[j + 1..]
  }

  lemma WithoutMultiset<T>(s: seq<T>, j: nat)
    requires j < |s|
    ensures multiset(s) == multiset(Without(s, j)) + multiset{s[j]}
  {
    assert s == s[..j] + [s[j]] + s[j + 1..];
  }

  /** `p` lines `xs` up with equal elements of `ys`. */
  ghost predicate Aligns<K>(p: seq<nat>, xs: seq<K>, ys: seq<K>) {
    && |xs| == |ys|
    && IsPermutation(p, |xs|)
    && forall i :: 0 <= i < |xs| ==> xs[i] == ys[p[i]]
  }

  lemma {:induction false} AlignedHaveSameElements<K>(p: seq<nat>, xs: seq<K>, ys: seq<K>)
    requires Aligns(p, xs, ys)
    ensures multiset(xs) == multiset(ys)
    decreases |xs|
  {
    if xs != [] {
      var n := |xs| - 1;
      var j := p[n];
      var p' := seq(n, i requires 0 <= i < n => if p[i] > j then p[i] - 1 else p[i]);
      var xs', ys' := xs[..n], Without(ys, j);
      assert Aligns(p', xs', ys') by {
        forall i, k | 0 <= i < k < n ensures p'[i] != p'[k] {
          assert p[i] != j && p[k] != j && p[i] != p[k];
        }
      }
      AlignedHaveSameElements(p', xs', ys');
      WithoutMultiset(ys, j);
      assert xs == xs' + [xs[n]];
    }
  }

  lemma {:induction false} SameElementsAlign<K>(xs: seq<K>, ys: seq<K>) returns (p: seq<nat>)
    requires multiset(xs) == multiset(ys)
    ensures Aligns(p, xs, ys)
    decreases |xs|
  {
    SameSize(xs, ys);
    if xs == [] {
      p := [];
    } else {
      var n := |xs| - 1;
      assert xs[n] in multiset(ys);
      var j :| 0 <= j < |ys| && ys[j] == xs[n];
      var ys' := Without(ys, j);
      WithoutMultiset(ys, j);
      assert xs == xs[..n] + [xs[n]];
      Cancel(multiset(xs[..n]), multiset(ys'), xs[n]);
      var p' := SameElementsAlign(xs[..n], ys');
      p := Extend(p', j);
      ExtendAligns(p', xs, ys, j);
    }
  }

  function Extend(p: seq<nat>, j: nat): seq<nat> {
    seq(|p|, i requires 0 <= i < |p| => if p[i] >= j then p[i] + 1 else p[i]) + [j]
  }

  lemma ExtendAligns<K>(p: seq<nat>, xs: seq<K>, ys: seq<K>, j: nat)
    requires xs != [] && j < |ys| && ys[j] == xs[|xs| - 1]
    requires Aligns(p, xs[..|xs| - 1], Without(ys, j))
    ensures Aligns(Extend(p, j), xs, ys)
  {
    var n := |xs| - 1;
    var q := Extend(p, j);
    forall i, k | 0 <= i < k <= n ensures q[i] != q[k] {
      assert k < n ==> p[i] != p[k];
    }
    forall i | 0 <= i < n ensures xs[i] == ys[q[i]] {
      assert xs[..n][i] == Without(ys, j)[p[i]];
    }
  }

  lemma Cancel<K>(a: multiset<K>, b: multiset<K>, k: K)
    ensures a + multiset{k} == b + multiset{k} ==> a == b
  {
    if a + multiset{k} == b + multiset{k} {
      assert a == (a + multiset{k}) - multiset{k};
      assert b == (b + multiset{k}) - multiset{k};
    }
  }

  lemma SameSize<K>(xs: seq<K>, ys: seq<K>)
    requires multiset(xs) == multiset(ys)
    ensures |xs| == |ys|
  {
    assert |multiset(xs)| == |xs| && |multiset(ys)| == |ys|;
  }

  lemma RemovePair<K>(x: seq<K>, i: nat, y: seq<K>, j: nat)
    requires i < |x| && j < |y| && x[i] == y[j]
    ensures multiset(x[i..]) == multiset(y) <==> multiset(x[i + 1..]) == multiset(Without(y, j))
  {
    assert x[i..] == [x[i]] + x[i + 1..];
    WithoutMultiset(y, j);
    Cancel(multiset(x[i + 1..]), multiset(Without(y, j)), x[i]);
  }

  lemma KeyMissing<K>(x: seq<K>, i: nat, y: seq<K>)
    requires i < |x| && forall k :: 0 <= k < |y| ==> y[k] != x[i]
    ensures multiset(x[i..]) != multiset(y)
  {
    assert x[i..][0] == x[i];
    assert x[i] in multiset(x[i..]) && x[i] !in multiset(y);
  }
}
