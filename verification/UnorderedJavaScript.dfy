/** The JavaScript harness's order-insensitive comparison, on the values JavaScript sees. */
module UnorderedJavaScript {
  import opened JavaScriptValues
  import opened JsonValues
  import opened Permutations
  import opened Unordered
  import opened Wrappers

  function SeenItems(items: seq<Json>): (r: seq<Json>)
    ensures |r| == |items| && forall i :: 0 <= i < |items| ==> r[i] == Seen(items[i])
  {
    TwinItems(JsReadItems(items))
  }

  /** What an unordered comparison must accept, on the values JavaScript sees. */
  ghost predicate JsAccepts(a: Json, b: Json) {
    if a.Arr? && b.Arr? then SameUpToOrder(SeenItems(a.items), SeenItems(b.items)) else Equal(Seen(a), Seen(b))
  }

  predicate AllValid(items: seq<Json>) {
    forall i :: 0 <= i < |items| ==> Valid(items[i])
  }

  method FindIndex(remaining: seq<Json>, item: Json) returns (at: Option<nat>)
    ensures at.Some? ==> at.value < |remaining| && DeepEqual(remaining[at.value], item)
    ensures at.None? ==> forall k :: 0 <= k < |remaining| ==> !DeepEqual(remaining[k], item)
  {
    hide DeepEqual;
    for k := 0 to |remaining|
      invariant forall m :: 0 <= m < k ==> !DeepEqual(remaining[m], item)
    {
      if DeepEqual(remaining[k], item) {
        return Some(k);
      }
    }
    return None;
  }

  /** The key two values share in JavaScript exactly when they are equal there. */
  function JsKeys(items: seq<Json>): (r: seq<Json>)
    ensures |r| == |items| && forall i :: 0 <= i < |items| ==> r[i] == Normal(Seen(items[i]))
  {
    NormalItems(SeenItems(items))
  }

  lemma FoundByKey(remaining: seq<Json>, item: Json)
    requires AllValid(remaining) && Valid(item)
    ensures forall k :: 0 <= k < |remaining| ==>
              (DeepEqual(remaining[k], item) <==> JsKeys(remaining)[k] == Normal(Seen(item)))
  {
    hide DeepEqual, Equal, Seen, Normal, Valid, JsKeys;
    forall k | 0 <= k < |remaining|
      ensures DeepEqual(remaining[k], item) <==> JsKeys(remaining)[k] == Normal(Seen(item))
    {
      DeepEqualIsEqual(remaining[k], item);
      EqualIffSameNormal(Seen(remaining[k]), Seen(item));
    }
  }

  lemma KeysWithout(items: seq<Json>, j: nat)
    requires j < |items| && AllValid(items)
    ensures JsKeys(Without(items, j)) == Without(JsKeys(items), j) && AllValid(Without(items, j))
  {
    hide Normal, Seen, Valid, JsKeys;
    var x, y := JsKeys(Without(items, j)), Without(JsKeys(items), j);
    forall i | 0 <= i < |x|
      ensures x[i] == y[i] && Valid(Without(items, j)[i])
    {
      assert Without(items, j)[i] == items[if i < j then i else i + 1];
    }
  }

  lemma JsKeysDecide(a: seq<Json>, b: seq<Json>)
    ensures SameUpToOrder(SeenItems(a), SeenItems(b)) <==> multiset(JsKeys(a)) == multiset(JsKeys(b))
  {
    hide Normal, Equal, Seen;
    var x, y := SeenItems(a), SeenItems(b);
    forall i, j | 0 <= i < |x| && 0 <= j < |y|
      ensures NormalItems(x)[i] == NormalItems(y)[j] <==> Equal(x[i], y[j])
    {
      EqualIffSameNormal(x[i], y[j]);
    }
    KeysDecide(x, y, JsKeys(a), JsKeys(b));
  }

  /** `multisetEqual`: find each item of `a` in what is left of `b` and splice it out. */
  method MultisetEqual(a: Json, b: Json) returns (r: bool)
    requires Valid(a) && Valid(b)
    ensures r <==> JsAccepts(a, b)
  {
    hide DeepEqual, Equal, Seen, SameUpToOrder;
    if !a.Arr? || !b.Arr? {
      DeepEqualIsEqual(a, b);
      return DeepEqual(a, b);
    }
    if |a.items| != |b.items| {
      OneLength(a.items, b.items);
      return false;
    }
    JsKeysDecide(a.items, b.items);
    r := SpliceEach(a.items, b.items);
  }

  lemma OneLength(a: seq<Json>, b: seq<Json>)
    requires |a| != |b|
    ensures !SameUpToOrder(SeenItems(a), SeenItems(b))
  {
  }

  method SpliceEach(a: seq<Json>, b: seq<Json>) returns (r: bool)
    requires |a| == |b| && AllValid(a) && AllValid(b)
    ensures r <==> multiset(JsKeys(a)) == multiset(JsKeys(b))
  {
    hide DeepEqual, JsKeys, Without, Valid, Normal, Seen;
    var remaining := b;
    ghost var keys := JsKeys(a);
    ghost var same := multiset(keys) == multiset(JsKeys(b));
    for i := 0 to |a|
      invariant |remaining| == |a| - i && AllValid(remaining)
      invariant same <==> multiset(keys[i..]) == multiset(JsKeys(remaining))
    {
      var at := FindIndex(remaining, a[i]);
      FoundByKey(remaining, a[i]);
      if at.None? {
        KeyMissing(keys, i, JsKeys(remaining));
        return false;
      }
      RemovePair(keys, i, JsKeys(remaining), at.value);
      KeysWithout(remaining, at.value);
      remaining := Without(remaining, at.value);
    }
    assert keys[|a|..] == [] && JsKeys(remaining) == [];
    return true;
  }
}
