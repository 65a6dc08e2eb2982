/**
 Unordered comparison in the three judges: greedy find-and-remove (JavaScript, and Python's
 fallback), counting hashable keys (Python), and sorting canonical keys (Rust).
 */
module Unordered {
  import opened JsonRoundTrip
  import opened JsonText
  import opened JsonValues
  import opened Permutations

  /** The reference: some permutation of `b` matches `a` element by element. */
  ghost predicate Matching(p: seq<nat>, a: seq<Json>, b: seq<Json>) {
    && |a| == |b|
    && IsPermutation(p, |a|)
    && forall i :: 0 <= i < |a| ==> Equal(a[i], b[p[i]])
  }

  ghost predicate SameUpToOrder(a: seq<Json>, b: seq<Json>) {
    exists p :: Matching(p, a, b)
  }

  /** What an unordered comparison must accept: lists up to order, anything else by equality. */
  ghost predicate Accepts(a: Json, b: Json) {
    if a.Arr? && b.Arr? then SameUpToOrder(a.items, b.items) else Equal(a, b)
  }

  /** Any exact key turns the question into one about multisets of keys. */
  lemma KeysDecide<K>(a: seq<Json>, b: seq<Json>, ka: seq<K>, kb: seq<K>)
    requires |ka| == |a| && |kb| == |b|
    requires forall i, j :: 0 <= i < |a| && 0 <= j < |b| ==> (ka[i] == kb[j] <==> Equal(a[i], b[j]))
    ensures SameUpToOrder(a, b) <==> multiset(ka) == multiset(kb)
  {
    if SameUpToOrder(a, b) {
      var p :| Matching(p, a, b);
      AlignedHaveSameElements(p, ka, kb);
    }
    if multiset(ka) == multiset(kb) {
      var p := SameElementsAlign(ka, kb);
      assert Matching(p, a, b);
    }
  }

  /** Pairwise the same answers make the same lists accepted. */
  lemma SameMatching(a: seq<Json>, b: seq<Json>, a': seq<Json>, b': seq<Json>)
    requires |a'| == |a| && |b'| == |b|
    requires forall i, j :: 0 <= i < |a| && 0 <= j < |b| ==> (Equal(a'[i], b'[j]) <==> Equal(a[i], b[j]))
    ensures SameUpToOrder(a', b') <==> SameUpToOrder(a, b)
  {
    hide Equal;
    if p :| Matching(p, a, b) {
      assert Matching(p, a', b');
    }
    if p :| Matching(p, a', b') {
      assert Matching(p, a, b);
    }
  }

  // ----- Rust: sorted canonical keys -----

  predicate LessEq(a: string, b: string) {
    a == b || Less(a, b)
  }

  ghost predicate Sorted(keys: seq<string>) {
    forall i, j :: 0 <= i < j < |keys| ==> LessEq(keys[i], keys[j])
  }

  function InsertKey(k: string, keys: seq<string>): seq<string> {
    if keys == [] || LessEq(k, keys[0]) then [k] + keys else [keys[0]] + InsertKey(k, keys[1..])
  }

  /** `sort_unstable` on strings. */
  function SortKeys(keys: seq<string>): seq<string> {
    if keys == [] then [] else InsertKey(keys[0], SortKeys(keys[1..]))
  }

  ghost predicate RustUnordered(a: Json, b: Json)
    requires Valid(a) && Valid(b)
  {
    if a.Arr? && b.Arr? then
      |a.items| == |b.items| && SortKeys(CanonicalItems(a.items)) == SortKeys(CanonicalItems(b.items))
    else Equal(a, b)
  }

  lemma {:induction false} LessTransitive(a: string, b: string, c: string)
    requires Less(a, b) && Less(b, c)
    ensures Less(a, c)
  {
    if a != [] && a[0] == b[0] == c[0] {
      LessTransitive(a[1..], b[1..], c[1..]);
    }
  }

  lemma {:induction false} LessTotal(a: string, b: string)
    ensures a == b || Less(a, b) || Less(b, a)
  {
    if a != [] && b != [] && a[0] == b[0] {
      LessTotal(a[1..], b[1..]);
      assert a == [a[0]] + a[1..] && b == [b[0]] + b[1..];
    }
  }

  lemma {:induction false} InsertKeyAdds(k: string, keys: seq<string>)
    ensures multiset(InsertKey(k, keys)) == multiset(keys) + multiset{k}
  {
    hide LessEq;
    if keys != [] && !LessEq(k, keys[0]) {
      InsertKeyAdds(k, keys[1..]);
      assert keys == [keys[0]] + keys[1..];
    }
  }

  lemma {:induction false} InsertKeySorted(k: string, keys: seq<string>)
    requires Sorted(keys)
    ensures Sorted(InsertKey(k, keys))
  {
    hide Less, Sorted;
    if keys == [] {
      SortedFrom(k, keys);
    } else {
      SortedParts(keys);
      if LessEq(k, keys[0]) {
        forall j | 0 <= j < |keys| ensures LessEq(k, keys[j]) {
          if Less(k, keys[0]) && Less(keys[0], keys[j]) {
            LessTransitive(k, keys[0], keys[j]);
          }
        }
        SortedFrom(k, keys);
      } else {
        LessTotal(k, keys[0]);
        var rest := InsertKey(k, keys[1..]);
        InsertKeySorted(k, keys[1..]);
        InsertKeyAdds(k, keys[1..]);
        forall j | 0 <= j < |rest| ensures LessEq(keys[0], rest[j]) {
          AmongThem(rest, keys[1..], k, j);
        }
        SortedFrom(keys[0], rest);
      }
    }
  }

  lemma SortedParts(keys: seq<string>)
    requires keys != [] && Sorted(keys)
    ensures Sorted(keys[1..]) && forall j :: 0 <= j < |keys| ==> LessEq(keys[0], keys[j])
  {
    hide Less;
  }

  lemma AmongThem(rest: seq<string>, keys: seq<string>, k: string, j: nat)
    requires j < |rest| && multiset(rest) == multiset(keys) + multiset{k}
    ensures rest[j] == k || exists i :: 0 <= i < |keys| && keys[i] == rest[j]
  {
    assert rest[j] in multiset(rest);
    assert rest[j] == k || rest[j] in keys;
  }

  lemma SortedFrom(k: string, keys: seq<string>)
    requires Sorted(keys) && forall j :: 0 <= j < |keys| ==> LessEq(k, keys[j])
    ensures Sorted([k] + keys)
  {
    hide Less;
  }

  lemma {:induction false} SortKeysSorts(keys: seq<string>)
    ensures Sorted(SortKeys(keys)) && multiset(SortKeys(keys)) == multiset(keys)
  {
    if keys != [] {
      SortKeysSorts(keys[1..]);
      InsertKeySorted(keys[0], SortKeys(keys[1..]));
      InsertKeyAdds(keys[0], SortKeys(keys[1..]));
      assert keys == [keys[0]] + keys[1..];
    }
  }

  lemma {:induction false} SortedAreUnique(x: seq<string>, y: seq<string>)
    requires Sorted(x) && Sorted(y) && multiset(x) == multiset(y)
    ensures x == y
  {
    SameSize(x, y);
    if x != [] {
      SmallestFirst(x, y);
      SmallestFirst(y, x);
      if x[0] != y[0] {
        LessAsymmetric(x[0], y[0]);
      }
      assert x == [x[0]] + x[1..] && y == [y[0]] + y[1..];
      assert multiset(x) == multiset(x[1..]) + multiset{x[0]};
      assert multiset(y) == multiset(y[1..]) + multiset{y[0]};
      Cancel(multiset(x[1..]), multiset(y[1..]), x[0]);
      SortedAreUnique(x[1..], y[1..]);
    }
  }

  lemma SmallestFirst(x: seq<string>, y: seq<string>)
    requires Sorted(x) && multiset(x) == multiset(y) && x != [] && y != []
    ensures LessEq(x[0], y[0])
  {
    assert y[0] in multiset(x);
    var i :| 0 <= i < |x| && x[i] == y[0];
  }

  lemma SortedKeysDecide(x: seq<string>, y: seq<string>)
    ensures SortKeys(x) == SortKeys(y) <==> multiset(x) == multiset(y)
  {
    SortKeysSorts(x);
    SortKeysSorts(y);
    if multiset(x) == multiset(y) {
      SortedAreUnique(SortKeys(x), SortKeys(y));
    }
  }

  lemma {:induction false} CanonicalItemAt(items: seq<Json>, i: nat)
    requires i < |items| && forall x :: x in items ==> Valid(x)
    ensures CanonicalItems(items)[i] == Canonical(items[i])
  {
    if i > 0 {
      CanonicalItemAt(items[1..], i - 1);
    }
  }

  /** Sorting canonical keys accepts exactly the lists some permutation matches. */
  lemma RustAccepts(a: Json, b: Json)
    requires Valid(a) && Valid(b)
    ensures RustUnordered(a, b) <==> Accepts(a, b)
  {
    if a.Arr? && b.Arr? {
      var ka, kb := CanonicalItems(a.items), CanonicalItems(b.items);
      forall i, j | 0 <= i < |a.items| && 0 <= j < |b.items|
        ensures ka[i] == kb[j] <==> Equal(a.items[i], b.items[j])
      {
        CanonicalItemAt(a.items, i);
        CanonicalItemAt(b.items, j);
        CanonicalIsExact(a.items[i], b.items[j]);
      }
      KeysDecide(a.items, b.items, ka, kb);
      SortedKeysDecide(ka, kb);
      if multiset(ka) == multiset(kb) {
        SameSize(ka, kb);
      }
    }
  }

  lemma NormalItemsDecide(a: seq<Json>, b: seq<Json>)
    ensures SameUpToOrder(a, b) <==> multiset(NormalItems(a)) == multiset(NormalItems(b))
  {
    forall i, j | 0 <= i < |a| && 0 <= j < |b|
      ensures NormalItems(a)[i] == NormalItems(b)[j] <==> Equal(a[i], b[j])
    {
      EqualIffSameNormal(a[i], b[j]);
    }
    KeysDecide(a, b, NormalItems(a), NormalItems(b));
  }
}
