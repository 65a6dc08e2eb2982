/** Fisher-Yates as a function of its draws. */
module Shuffling {
  function Swap<T>(s: seq<T>, i: nat, j: nat): (r: seq<T>)
    requires i < |s| && j < |s|
    ensures |r| == |s|
  {
    s[i := s[j]][j := s[i]]
  }

  /** One draw for each index from the last down to 1, each at most the index. */
  predicate DrawsFit(n: nat, js: seq<nat>) {
    if n <= 1 then js == [] else js != [] && js[0] < n && DrawsFit(n - 1, js[1..])
  }

  function Shuffled<T>(s: seq<T>, js: seq<nat>): (r: seq<T>)
    requires DrawsFit(|s|, js)
    ensures |r| == |s|
    decreases |s|
  {
    if |s| <= 1 then s else
      var i := |s| - 1;
      var t := Swap(s, i, js[0]);
      Shuffled(t[..i], js[1..]) + [t[i]]
  }

  /** The first draw picks the element that ends up last, and the last one takes its place. */
  lemma FirstDrawIsLast<T>(s: seq<T>, js: seq<nat>)
    requires DrawsFit(|s|, js) && |s| > 1
    ensures Shuffled(s, js)[|s| - 1] == s[js[0]]
    ensures Shuffled(s, js)[..|s| - 1] ==
            Shuffled((if js[0] < |s| - 1 then s[js[0] := s[|s| - 1]] else s)[..|s| - 1], js[1..])
  {
    hide Shuffled, Swap;
    var i := |s| - 1;
    var t := Swap(s, i, js[0]);
    FirstDraw(s, js);
    LastSwapped(s, js[0]);
    LastOfConcat(Shuffled(t[..i], js[1..]), t[i]);
  }

  lemma FirstDraw<T>(s: seq<T>, js: seq<nat>)
    requires DrawsFit(|s|, js) && |s| > 1
    ensures var i := |s| - 1;
            var t := Swap(s, i, js[0]);
            Shuffled(s, js) == Shuffled(t[..i], js[1..]) + [t[i]]
  {
    hide Swap;
  }

  lemma LastSwapped<T>(s: seq<T>, j: nat)
    requires j < |s|
    ensures var i := |s| - 1;
            var t := Swap(s, i, j);
            t[i] == s[j] && t[..i] == (if j < i then s[j := s[i]] else s)[..i]
  {
  }

  lemma LastOfConcat<T>(s: seq<T>, x: T)
    ensures (s + [x])[|s|] == x && (s + [x])[..|s|] == s
  {
  }

  predicate Distinct<T(==)>(s: seq<T>) {
    forall i, j :: 0 <= i < j < |s| ==> s[i] != s[j]
  }

  lemma SwapKeeps<T>(s: seq<T>, i: nat, j: nat)
    requires i < |s| && j < |s|
    ensures multiset(Swap(s, i, j)) == multiset(s)
    ensures Distinct(s) ==> Distinct(Swap(s, i, j))
  {
  }

  lemma Split<T>(s: seq<T>)
    requires |s| > 0
    ensures multiset(s) == multiset(s[..|s| - 1]) + multiset{s[|s| - 1]}
  {
    assert s == s[..|s| - 1] + [s[|s| - 1]];
  }

  /** Every shuffle rearranges its input. */
  lemma {:induction false} ShuffledIsPermutation<T>(s: seq<T>, js: seq<nat>)
    requires DrawsFit(|s|, js)
    ensures multiset(Shuffled(s, js)) == multiset(s)
    decreases |s|
  {
    if |s| > 1 {
      var i := |s| - 1;
      var t := Swap(s, i, js[0]);
      SwapKeeps(s, i, js[0]);
      Split(t);
      ShuffledIsPermutation(t[..i], js[1..]);
    }
  }

  /** On distinct elements, different draws give different orders. */
  lemma {:induction false} ShuffledIsInjective<T>(s: seq<T>, js: seq<nat>, ks: seq<nat>)
    requires Distinct(s) && DrawsFit(|s|, js) && DrawsFit(|s|, ks)
    requires Shuffled(s, js) == Shuffled(s, ks)
    ensures js == ks
    decreases |s|
  {
    if |s| > 1 {
      var i := |s| - 1;
      var t, u := Swap(s, i, js[0]), Swap(s, i, ks[0]);
      var a, b := Shuffled(t[..i], js[1..]), Shuffled(u[..i], ks[1..]);
      assert a == (a + [t[i]])[..i] && b == (b + [u[i]])[..i];
      assert (a + [t[i]])[i] == (b + [u[i]])[i];
      assert s[js[0]] == s[ks[0]];
      assert js[0] == ks[0];
      SwapKeeps(s, i, js[0]);
      ShuffledIsInjective(t[..i], js[1..], ks[1..]);
    }
  }

  function IndexOf<T(==)>(s: seq<T>, x: T): (i: nat)
    requires x in s
    ensures i < |s| && s[i] == x
  {
    if s[0] == x then 0 else 1 + IndexOf(s[1..], x)
  }

  lemma LastMember<T>(s: seq<T>, p: seq<T>)
    requires |p| > 0 && multiset(p) == multiset(s)
    ensures |p| == |s| && p[|p| - 1] in s
  {
    assert |multiset(p)| == |multiset(s)|;
    assert p[|p| - 1] in multiset(p);
  }

  /** The draws that lead from one order to another. */
  function DrawsTo<T(==)>(s: seq<T>, p: seq<T>): (js: seq<nat>)
    requires multiset(p) == multiset(s)
    ensures DrawsFit(|s|, js)
    decreases |s|
  {
    SameLength(s, p);
    if |s| <= 1 then [] else
      LastMember(s, p);
      var i := |s| - 1;
      var j := IndexOf(s, p[i]);
      DrawStep(s, p, j);
      [j] + DrawsTo(Swap(s, i, j)[..i], p[..i])
  }

  lemma SameLength<T>(s: seq<T>, p: seq<T>)
    requires multiset(p) == multiset(s)
    ensures |s| == |p|
  {
    assert |multiset(p)| == |multiset(s)|;
  }

  lemma DrawStep<T>(s: seq<T>, p: seq<T>, j: nat)
    requires multiset(p) == multiset(s) && |s| == |p| > 1
    requires j < |s| && s[j] == p[|s| - 1]
    ensures multiset(p[..|s| - 1]) == multiset(Swap(s, |s| - 1, j)[..|s| - 1])
  {
    var t := Swap(s, |s| - 1, j);
    SwapKeeps(s, |s| - 1, j);
    Split(t);
    Split(p);
    assert t[|s| - 1] == p[|s| - 1];
    hide Swap;
    assert multiset(p[..|s| - 1]) == multiset(p) - multiset{p[|s| - 1]};
    assert multiset(t[..|s| - 1]) == multiset(t) - multiset{p[|s| - 1]};
  }

  lemma OneOrder<T>(s: seq<T>, p: seq<T>)
    requires multiset(p) == multiset(s) && |s| <= 1
    ensures p == s
  {
    SameLength(s, p);
    if |s| == 1 { assert p[0] in multiset(s); }
  }

  lemma LastApart<T>(p: seq<T>)
    requires |p| > 0
    ensures p == p[..|p| - 1] + [p[|p| - 1]]
  {
  }

  /** Every order is reached, so with injectivity the draws and the orders pair off exactly. */
  lemma {:induction false} ShuffledIsSurjective<T>(s: seq<T>, p: seq<T>)
    requires multiset(p) == multiset(s)
    ensures Shuffled(s, DrawsTo(s, p)) == p
    decreases |s|
  {
    SameLength(s, p);
    if |s| <= 1 {
      OneOrder(s, p);
    } else {
      LastMember(s, p);
      var i := |s| - 1;
      var j := IndexOf(s, p[i]);
      DrawStep(s, p, j);
      var t := Swap(s, i, j);
      assert t[i] == p[i];
      var js := DrawsTo(t[..i], p[..i]);
      assert DrawsTo(s, p) == [j] + js;
      hide *;
      ShuffledIsSurjective(t[..i], p[..i]);
      ShuffledStep(s, j, js);
      LastApart(p);
    }
  }

  lemma ShuffledStep<T>(s: seq<T>, j: nat, js: seq<nat>)
    requires |s| > 1 && j < |s| && DrawsFit(|s| - 1, js)
    ensures DrawsFit(|s|, [j] + js)
    ensures var t := Swap(s, |s| - 1, j); Shuffled(s, [j] + js) == Shuffled(t[..|s| - 1], js) + [t[|s| - 1]]
  {
    assert ([j] + js)[1..] == js;
  }

  /** With `i` elements still to place, the rest of the draws applied to them completes the shuffle. */
  ghost predicate LeadsTo<T>(s: seq<T>, js: seq<nat>, now: seq<T>, i: nat, rest: seq<nat>)
    requires i <= |now|
  {
    && DrawsFit(i, rest) && DrawsFit(|s|, js + rest)
    && Shuffled(s, js + rest) == Shuffled(now[..i], rest) + now[i..]
  }

  lemma LeadsFromStart<T>(s: seq<T>, rest: seq<nat>)
    ensures DrawsFit(|s|, rest) ==> LeadsTo(s, [], s, |s|, rest)
  {
    assert [] + rest == rest && s[..|s|] == s;
  }

  lemma LeadsToEnd<T>(s: seq<T>, js: seq<nat>, now: seq<T>, i: nat)
    requires i <= |now| && i <= 1
    ensures LeadsTo(s, js, now, i, []) ==> DrawsFit(|s|, js) && now == Shuffled(s, js)
  {
    assert js + [] == js && now[..i] + now[i..] == now;
  }

  lemma SwapInPrefix<T>(s: seq<T>, i: nat, j: nat)
    requires j <= i < |s|
    ensures Swap(s, i, j)[..i] == Swap(s[..i + 1], i, j)[..i]
    ensures Swap(s, i, j)[i..] == [Swap(s[..i + 1], i, j)[i]] + s[i + 1..]
  {
  }

  /** Placing one more element by the next draw. */
  lemma LeadsOn<T>(s: seq<T>, js: seq<nat>, now: seq<T>, i: nat, rest: seq<nat>)
    requires 1 <= i < |now| && |rest| > 0
    requires LeadsTo(s, js, now, i + 1, rest)
    ensures rest[0] <= i && LeadsTo(s, js + [rest[0]], Swap(now, i, rest[0]), i, rest[1..])
  {
    var j := rest[0];
    SwapInPrefix(now, i, j);
    assert js + [j] + rest[1..] == js + rest;
    var t := Swap(now[..i + 1], i, j);
    assert Shuffled(now[..i + 1], rest) == Shuffled(t[..i], rest[1..]) + [t[i]];
    hide Shuffled, Swap;
    Regroup(Shuffled(t[..i], rest[1..]), [t[i]], now[i + 1..]);
  }

  lemma Regroup<T>(a: seq<T>, b: seq<T>, c: seq<T>)
    ensures (a + b) + c == a + (b + c)
  {
  }
}
