/** The [[val, random index], ...] wire of a list with a second pointer, and the walk along `next`. */
module RandomLists {
  import opened Wrappers
  import opened CyclicLists
  import opened NodeNumbers

  datatype Item = Item(val: int, next: Option<nat>, random: Option<nat>)

  datatype Pair = Pair(val: int, random: Option<int>)

  predicate WellFormedPairs(w: seq<Pair>) {
    forall i :: 0 <= i < |w| && w[i].random.Some? ==> IsIndex(w[i].random.value, |w|)
  }

  predicate ValuesFit(w: seq<Pair>) {
    forall i :: 0 <= i < |w| ==> FitsI32(w[i].val)
  }

  /** The list a well-formed wire stands for. */
  function Chained(w: seq<Pair>): (h: seq<Item>)
    requires WellFormedPairs(w)
    ensures |h| == |w|
  {
    seq(|w|, i requires 0 <= i < |w| =>
      Item(w[i].val, if i + 1 < |w| then Some(i + 1) else None,
        if w[i].random.Some? then Some(w[i].random.value) else None))
  }

  datatype DecodedItems = Items(h: seq<Item>, head: Option<nat>) | Failed

  function Head(w: seq<Pair>): Option<nat> {
    if w == [] then None else Some(0)
  }

  method ChainNext(w: seq<Pair>) returns (h: seq<Item>)
    ensures |h| == |w|
    ensures forall i :: 0 <= i < |w| ==> h[i] == Item(w[i].val, if i + 1 < |w| then Some(i + 1) else None, None)
  {
    h := [];
    for i := 0 to |w|
      invariant |h| == i && forall k :: 0 <= k < i ==> h[k] == Item(w[k].val, None, None)
    {
      h := h + [Item(w[i].val, None, None)];
    }
    for i := 0 to |w|
      invariant |h| == |w|
      invariant forall k :: 0 <= k < i ==> h[k] == Item(w[k].val, if k + 1 < |w| then Some(k + 1) else None, None)
      invariant forall k :: i <= k < |w| ==> h[k] == Item(w[k].val, None, None)
    {
      if i + 1 < |w| { h := h[i := h[i].(next := Some(i + 1))]; }
    }
  }

  function PyTarget(w: seq<Pair>, i: nat): Option<nat>
    requires i < |w|
  {
    if w[i].random.None? then None else PyIndex(|w|, w[i].random.value)
  }

  /** Python's decoder, which wraps a negative index; on a well-formed wire it builds the list meant. */
  method BuildRandomList(w: seq<Pair>) returns (r: DecodedItems)
    ensures WellFormedPairs(w) ==> r == Items(Chained(w), Head(w))
    ensures r.Failed? <==> exists i :: 0 <= i < |w| && w[i].random.Some? && PyIndex(|w|, w[i].random.value).None?
    ensures r.Items? ==> |r.h| == |w| && forall i :: 0 <= i < |w| ==> r.h[i].random == PyTarget(w, i)
  {
    var h := ChainNext(w);
    for i := 0 to |w|
      invariant |h| == |w|
      invariant forall k :: 0 <= k < i ==> h[k].random == PyTarget(w, k)
      invariant forall k :: i <= k < |w| ==> h[k] == Item(w[k].val, if k + 1 < |w| then Some(k + 1) else None, None)
      invariant forall k :: 0 <= k < i && w[k].random.Some? ==> PyIndex(|w|, w[k].random.value).Some?
      invariant WellFormedPairs(w) ==> h[..i] == Chained(w)[..i]
    {
      if w[i].random.Some? {
        var target := PyIndex(|w|, w[i].random.value);
        if target.None? { return Failed; }
        h := h[i := h[i].(random := target)];
      }
    }
    assert WellFormedPairs(w) ==> h[..|w|] == h && Chained(w)[..|w|] == Chained(w);
    r := Items(h, Head(w));
  }

  /** Rust's decoder: accepts exactly the well-formed wires whose values fit, and builds the same list. */
  method DecodeRandom(w: seq<Pair>) returns (r: DecodedItems)
    ensures r.Items? <==> ValuesFit(w) && WellFormedPairs(w)
    ensures r.Items? ==> r == Items(Chained(w), Head(w))
  {
    for i := 0 to |w|
      invariant forall k :: 0 <= k < i ==> FitsI32(w[k].val) && (w[k].random.Some? ==> w[k].random.value >= 0)
    {
      if !FitsI32(w[i].val) { return Failed; }
      if w[i].random.Some? && w[i].random.value < 0 { return Failed; }
    }
    var h := ChainNext(w);
    for i := 0 to |w|
      invariant |h| == |w|
      invariant forall k :: 0 <= k < i && w[k].random.Some? ==> IsIndex(w[k].random.value, |w|)
      invariant forall k :: 0 <= k < i ==> h[k] == Item(w[k].val, if k + 1 < |w| then Some(k + 1) else None,
          if w[k].random.Some? && w[k].random.value >= 0 then Some(w[k].random.value) else None)
      invariant forall k :: i <= k < |w| ==> h[k] == Item(w[k].val, if k + 1 < |w| then Some(k + 1) else None, None)
    {
      if w[i].random.Some? {
        if w[i].random.value >= |w| { return Failed; }
        h := h[i := h[i].(random := Some(w[i].random.value))];
      }
    }
    assert h == Chained(w);
    r := Items(h, Head(w));
  }

  /** A wire that passes the checks made when a problem is loaded is the same list in both languages. */
  method LoadedWireAgrees(w: seq<Pair>) returns (python: DecodedItems, rust: DecodedItems)
    requires WellFormedPairs(w) && ValuesFit(w)
    ensures python == rust && python.Items?
  {
    python := BuildRandomList(w);
    rust := DecodeRandom(w);
  }

  // ----- walking `next` -----

  predicate Closed(h: seq<Item>) {
    forall i :: 0 <= i < |h| ==> (h[i].next.Some? ==> h[i].next.value < |h|)
  }

  /** `c` is the whole list from `link`, which ends. */
  predicate IsList(h: seq<Item>, link: Option<nat>, c: seq<nat>)
    decreases c
  {
    if c == [] then link.None? else
      && link == Some(c[0]) && c[0] < |h|
      && IsList(h, h[c[0]].next, c[1..])
  }

  lemma {:induction false} ListIsUnique(h: seq<Item>, link: Option<nat>, c: seq<nat>, d: seq<nat>)
    requires IsList(h, link, c) && IsList(h, link, d)
    ensures c == d
    decreases c
  {
    if c != [] {
      ListIsUnique(h, h[c[0]].next, c[1..], d[1..]);
      assert c == [c[0]] + c[1..] && d == [d[0]] + d[1..];
    }
  }

  lemma {:induction false} ListTail(h: seq<Item>, link: Option<nat>, c: seq<nat>, k: nat)
    requires IsList(h, link, c) && k < |c|
    ensures IsList(h, Some(c[k]), c[k..])
    decreases c
  {
    if k > 0 {
      ListTail(h, h[c[0]].next, c[1..], k - 1);
      assert c[1..][k - 1..] == c[k..];
    }
  }

  /** A list that ends meets no node twice. */
  lemma ListHasNoRepeat(h: seq<Item>, link: Option<nat>, c: seq<nat>)
    requires IsList(h, link, c)
    ensures forall i, j :: 0 <= i < j < |c| ==> c[i] != c[j]
  {
    forall i, j | 0 <= i < j < |c| ensures c[i] != c[j] {
      ListTail(h, link, c, i);
      ListTail(h, link, c, j);
      if c[i] == c[j] { ListIsUnique(h, Some(c[i]), c[i..], c[j..]); }
    }
  }

  /** The first nodes from `link`, and where the walk stands after them. */
  predicate IsWalk(h: seq<Item>, link: Option<nat>, c: seq<nat>, rest: Option<nat>)
    decreases c
  {
    if c == [] then link == rest else
      && link == Some(c[0]) && c[0] < |h|
      && IsWalk(h, h[c[0]].next, c[1..], rest)
  }

  lemma {:induction false} WalkExtends(h: seq<Item>, link: Option<nat>, c: seq<nat>, rest: Option<nat>)
    requires IsWalk(h, link, c, rest)
    ensures rest.None? ==> IsList(h, link, c)
    ensures rest.Some? && rest.value < |h| ==> IsWalk(h, link, c + [rest.value], h[rest.value].next)
    decreases c
  {
    if c != [] {
      WalkExtends(h, h[c[0]].next, c[1..], rest);
      if rest.Some? {
        assert (c + [rest.value])[1..] == c[1..] + [rest.value];
      }
    }
  }

  lemma {:induction false} WalkIsPrefix(h: seq<Item>, link: Option<nat>, c: seq<nat>, rest: Option<nat>, d: seq<nat>)
    requires IsWalk(h, link, c, rest) && IsList(h, link, d)
    ensures c <= d && IsList(h, rest, d[|c|..])
    decreases c
  {
    if c == [] {
      assert d[0..] == d;
    } else {
      WalkIsPrefix(h, h[c[0]].next, c[1..], rest, d[1..]);
      assert d[1..][|c| - 1..] == d[|c|..];
      assert c == [c[0]] + c[1..] && d == [d[0]] + d[1..];
    }
  }

  lemma RepeatMeansNoList(h: seq<Item>, link: Option<nat>, c: seq<nat>, n: nat)
    requires IsWalk(h, link, c, Some(n)) && n in c
    ensures forall d :: !IsList(h, link, d)
  {
    forall d | IsList(h, link, d) ensures false {
      WalkIsPrefix(h, link, c, Some(n), d);
      ListHasNoRepeat(h, link, d);
    }
  }

  datatype Walked = Order(nodes: seq<nat>) | Loops

  /** The nodes from `head` along `next`, or a refusal exactly when they loop. */
  method WalkNext(h: seq<Item>, head: Option<nat>) returns (r: Walked)
    requires Closed(h) && (head.Some? ==> head.value < |h|)
    ensures r.Order? ==> IsList(h, head, r.nodes)
    ensures r.Loops? ==> forall d :: !IsList(h, head, d)
  {
    hide IsList, IsWalk;
    var order: seq<nat>, seen: set<nat>, at: Option<nat> := [], {}, head;
    WalkStarts(h, head);
    while at.Some?
      invariant IsWalk(h, head, order, at)
      invariant seen == (set x | x in order) && (at.Some? ==> at.value < |h|)
      decreases Below(|h|) - seen
    {
      if at.value in seen {
        RepeatMeansNoList(h, head, order, at.value);
        return Loops;
      }
      WalkExtends(h, head, order, at);
      assert at.value in Below(|h|) - seen;
      seen := seen + {at.value};
      order := order + [at.value];
      at := h[at.value].next;
    }
    WalkExtends(h, head, order, at);
    r := Order(order);
  }

  lemma WalkStarts(h: seq<Item>, head: Option<nat>)
    ensures IsWalk(h, head, [], head)
  {
  }

  // ----- encoding -----

  /** Where a node stands in the list, if it is on it. */
  function Position(c: seq<nat>, n: nat): (p: Option<nat>)
    ensures p.Some? ==> p.value < |c| && c[p.value] == n
    ensures p.None? ==> n !in c
  {
    if c == [] then None
    else if c[|c| - 1] == n then Some(|c| - 1)
    else Position(c[..|c| - 1], n)
  }

  function Row(h: seq<Item>, c: seq<nat>, n: nat): Pair
    requires n < |h|
  {
    var p := if h[n].random.None? then None else Position(c, h[n].random.value);
    Pair(h[n].val, if p.None? then None else Some(p.value))
  }

  datatype EncodedPairs = Pairs(w: seq<Pair>) | Looping

  /** A random pointer is written as the position of its target in the returned list's own order. */
  method EncodeRandom(h: seq<Item>, head: Option<nat>) returns (r: EncodedPairs)
    requires Closed(h) && (head.Some? ==> head.value < |h|)
    ensures forall c :: IsList(h, head, c) ==>
              && r.Pairs? && |r.w| == |c|
              && (forall k :: 0 <= k < |c| ==> c[k] < |h| && r.w[k] == Row(h, c, c[k]))
    ensures (forall c :: !IsList(h, head, c)) ==> r.Looping?
  {
    var walked := WalkNext(h, head);
    if walked.Loops? { return Looping; }
    var order := walked.nodes;
    OnlyList(h, head, order);
    hide IsList;
    var index: map<nat, nat> := map[];
    for i := 0 to |order|
      invariant forall n :: n in index <==> n in order[..i]
      invariant forall n :: n in index ==> Position(order[..i], n) == Some(index[n])
    {
      index := index[order[i] := i];
      assert order[..i + 1][..i] == order[..i];
      assert order[..i + 1][i] == order[i];
    }
    assert order[..|order|] == order;
    var out: seq<Pair> := [];
    for i := 0 to |order|
      invariant |out| == i && forall k :: 0 <= k < i ==> out[k] == Row(h, order, order[k])
    {
      var target := h[order[i]].random;
      var at: Option<int> := None;
      if target.Some? && target.value in index { at := Some(index[target.value]); }
      out := out + [Pair(h[order[i]].val, at)];
    }
    r := Pairs(out);
  }

  lemma OnlyList(h: seq<Item>, link: Option<nat>, c: seq<nat>)
    requires IsList(h, link, c)
    ensures forall d :: IsList(h, link, d) ==> d == c
    ensures forall k :: 0 <= k < |c| ==> c[k] < |h|
  {
    forall d | IsList(h, link, d) ensures d == c { ListIsUnique(h, link, c, d); }
    forall k | 0 <= k < |c| ensures c[k] < |h| { ListTail(h, link, c, k); }
  }

  // ----- the round trip -----

  function Count(a: nat, b: nat): (c: seq<nat>)
    requires a <= b
    ensures |c| == b - a
    ensures forall i :: 0 <= i < |c| ==> c[i] == a + i
    decreases b - a
  {
    if a == b then [] else [a] + Count(a + 1, b)
  }

  lemma {:induction false} ChainedIsList(w: seq<Pair>, from: nat)
    requires WellFormedPairs(w) && from <= |w|
    ensures IsList(Chained(w), if from < |w| then Some(from) else None, Count(from, |w|))
    decreases |w| - from
  {
    if from < |w| {
      ChainedIsList(w, from + 1);
      assert Count(from, |w|)[1..] == Count(from + 1, |w|);
    }
  }

  lemma {:induction false} PositionOfCount(n: nat, k: nat)
    requires k < n
    ensures Position(Count(0, n), k) == Some(k)
  {
    var c := Count(0, n);
    if k < n - 1 {
      PositionOfCount(n - 1, k);
      assert c[..n - 1] == Count(0, n - 1);
    }
  }

  lemma RowReturns(w: seq<Pair>, k: nat)
    requires WellFormedPairs(w) && k < |w|
    ensures Row(Chained(w), Count(0, |w|), k) == w[k]
  {
    if w[k].random.Some? { PositionOfCount(|w|, w[k].random.value); }
  }

  /** Encoding a decoded list gives its wire back. */
  method RandomRoundTrip(w: seq<Pair>) returns (r: EncodedPairs)
    requires WellFormedPairs(w)
    ensures r == Pairs(w)
  {
    var built := BuildRandomList(w);
    ChainedIsList(w, 0);
    hide IsList, Row;
    var c := Count(0, |w|);
    r := EncodeRandom(built.h, built.head);
    forall k | 0 <= k < |w| ensures r.w[k] == w[k] {
      assert c[k] == k;
      RowReturns(w, k);
    }
    assert r.w == w;
  }
}
