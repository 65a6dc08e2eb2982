/** Binary trees in a heap of nodes, and their null-padded level-order arrays. */
module Trees {
  import opened Wrappers

  /** A node object: its children are other nodes of the heap, by number. */
  datatype Node = Node(val: Option<int>, left: Option<nat>, right: Option<nat>)

  type Slot = Option<int>

  predicate LinkFits(h: seq<Node>, link: Option<nat>) {
    link.Some? ==> link.value < |h|
  }

  predicate WellFormed(h: seq<Node>) {
    forall i :: 0 <= i < |h| ==> LinkFits(h, h[i].left) && LinkFits(h, h[i].right)
  }

  /** The finite tree that a node stands for, shared nodes repeated. */
  datatype Tree = Leaf | Branch(val: Slot, left: Tree, right: Tree)

  predicate Represents(h: seq<Node>, link: Option<nat>, t: Tree)
    decreases t
  {
    match t
    case Leaf => link.None?
    case Branch(v, l, r) =>
      && link.Some? && link.value < |h|
      && h[link.value].val == v
      && Represents(h, h[link.value].left, l)
      && Represents(h, h[link.value].right, r)
  }

  lemma {:induction false} RepresentsOne(h: seq<Node>, link: Option<nat>, t: Tree, u: Tree)
    requires Represents(h, link, t) && Represents(h, link, u)
    ensures t == u
    decreases t
  {
    if t.Branch? {
      RepresentsOne(h, h[link.value].left, t.left, u.left);
      RepresentsOne(h, h[link.value].right, t.right, u.right);
    }
  }

  // ----- level order -----

  function Weight(t: Tree): (w: nat)
    ensures w > 0
  {
    if t.Leaf? then 1 else 1 + Weight(t.left) + Weight(t.right)
  }

  function Weights(q: seq<Tree>): nat {
    if q == [] then 0 else Weight(q[0]) + Weights(q[1..])
  }

  lemma {:induction false} WeightsAppend(q: seq<Tree>, r: seq<Tree>)
    ensures Weights(q + r) == Weights(q) + Weights(r)
  {
    if q == [] {
      assert q + r == r;
    } else {
      assert (q + r)[0] == q[0] && (q + r)[1..] == q[1..] + r;
      WeightsAppend(q[1..], r);
    }
  }

  lemma WeightsOfPair(l: Tree, r: Tree)
    ensures Weights([l, r]) == Weight(l) + Weight(r)
  {
    assert [l, r][1..] == [r] && [r][1..] == [];
    assert Weights([r]) == Weight(r);
  }

  lemma NextIsLighter(q: seq<Tree>)
    requires q != []
    ensures Weights(Next(q)) < Weights(q)
  {
    if q[0].Branch? {
      WeightsAppend(q[1..], [q[0].left, q[0].right]);
      WeightsOfPair(q[0].left, q[0].right);
    }
  }

  /** The queue after its first tree is written: both of its child slots join the end. */
  function Next(q: seq<Tree>): seq<Tree>
    requires q != []
  {
    if q[0].Leaf? then q[1..] else q[1..] + [q[0].left, q[0].right]
  }

  function Entry(t: Tree): Slot {
    if t.Leaf? then None else t.val
  }

  /** The breadth-first entries of a queue of trees. */
  function Flat(q: seq<Tree>): (r: seq<Slot>)
    ensures |r| >= |q|
    decreases Weights(q)
  {
    if q == [] then [] else
      NextIsLighter(q);
      [Entry(q[0])] + Flat(Next(q))
  }

  /** Trailing nulls removed. */
  function Trim(s: seq<Slot>): (r: seq<Slot>)
    ensures |r| <= |s| && r == s[..|r|]
    ensures forall i :: |r| <= i < |s| ==> s[i].None?
    ensures r != [] ==> r[|r| - 1].Some?
  {
    if s != [] && s[|s| - 1].None? then Trim(s[..|s| - 1]) else s
  }

  /** The wire of a tree: its level order, trimmed. */
  function Wire(t: Tree): seq<Slot> {
    if t.Leaf? then [] else Trim(Flat([t]))
  }

  /** An entry of an array that goes on with nulls. */
  function At(s: seq<Slot>, i: nat): Slot {
    if i < |s| then s[i] else None
  }

  ghost predicate SamePadded(s: seq<Slot>, t: seq<Slot>) {
    forall i: nat {:trigger At(s, i)} {:trigger At(t, i)} :: At(s, i) == At(t, i)
  }

  lemma NotShorter(a: seq<Slot>, b: seq<Slot>)
    requires SamePadded(a, b)
    ensures b != [] && b[|b| - 1].Some? ==> |b| <= |a|
  {
    if b != [] { assert At(a, |b| - 1) == At(b, |b| - 1); }
  }

  lemma TrimIsPadding(s: seq<Slot>, t: seq<Slot>)
    ensures SamePadded(s, t) <==> Trim(s) == Trim(t)
  {
    var a, b := Trim(s), Trim(t);
    assert forall i: nat :: At(s, i) == At(a, i);
    assert forall i: nat :: At(t, i) == At(b, i);
    if SamePadded(s, t) {
      NotShorter(a, b);
      NotShorter(b, a);
      forall i | 0 <= i < |a| ensures a[i] == b[i] { assert At(a, i) == At(b, i); }
    }
  }

  /** Every value of the tree is something other than null. */
  predicate NonNull(t: Tree) {
    t.Branch? ==> t.val.Some? && NonNull(t.left) && NonNull(t.right)
  }

  predicate AllNonNull(q: seq<Tree>) {
    forall i :: 0 <= i < |q| ==> NonNull(q[i])
  }

  lemma FlatStep(q: seq<Tree>, r: seq<Tree>)
    requires q != [] && r != [] && SamePadded(Flat(q), Flat(r))
    ensures Entry(q[0]) == Entry(r[0])
    ensures SamePadded(Flat(Next(q)), Flat(Next(r)))
  {
    var a, b := Flat(q), Flat(r);
    assert At(a, 0) == At(b, 0);
    forall i: nat ensures At(Flat(Next(q)), i) == At(Flat(Next(r)), i) {
      assert At(a, i + 1) == At(b, i + 1);
    }
  }

  /** Level order with trailing nulls ignored determines the trees. */
  lemma {:induction false} FlatIsInjective(q: seq<Tree>, r: seq<Tree>)
    requires |q| == |r| && AllNonNull(q) && AllNonNull(r)
    requires SamePadded(Flat(q), Flat(r))
    ensures q == r
    decreases Weights(q)
  {
    if q != [] {
      FlatStep(q, r);
      NextIsLighter(q);
      FlatIsInjective(Next(q), Next(r));
      NextIsInjective(q, r);
    }
  }

  lemma NextIsInjective(q: seq<Tree>, r: seq<Tree>)
    requires |q| == |r| > 0 && NonNull(q[0]) && NonNull(r[0])
    requires Entry(q[0]) == Entry(r[0]) && Next(q) == Next(r)
    ensures q == r
  {
    var n := |q| - 1;
    assert q[1..] == Next(q)[..n] && r[1..] == Next(r)[..n];
    if q[0].Branch? {
      assert q[0].left == Next(q)[n] && q[0].right == Next(q)[n + 1];
      assert r[0].left == Next(r)[n] && r[0].right == Next(r)[n + 1];
    }
    assert q == [q[0]] + q[1..] && r == [r[0]] + r[1..];
  }

  /** Two trees without null values have the same wire only when they are the same tree. */
  lemma WireIsInjective(t: Tree, u: Tree)
    requires NonNull(t) && NonNull(u) && Wire(t) == Wire(u)
    ensures t == u
  {
    if t.Branch? && u.Branch? {
      TrimIsPadding(Flat([t]), Flat([u]));
      FlatIsInjective([t], [u]);
      assert [t][0] == [u][0];
    } else if t.Branch? {
      BranchHasWire(t);
    } else if u.Branch? {
      BranchHasWire(u);
    }
  }

  lemma BranchHasWire(t: Tree)
    requires t.Branch? && t.val.Some?
    ensures Wire(t) != [] && Wire(t)[0] == t.val
  {
    assert Flat([t])[0] == t.val;
  }

  // ----- building -----

  /** How many of the first `p` slots hold a node. */
  function Rank(v: seq<Slot>, p: nat): (r: nat)
    requires p <= |v|
    ensures r <= p
  {
    if p == 0 then 0 else Rank(v, p - 1) + (if v[p - 1].Some? then 1 else 0)
  }

  /** A slot after the root is read only if the node that owns it has been made. */
  predicate Owned(v: seq<Slot>, p: nat)
    requires p <= |v|
  {
    p == 0 || (p - 1) / 2 < Rank(v, p)
  }

  /** The number of entries the builders read from `p` on before they run out of entries or nodes. */
  function ConsumedFrom(v: seq<Slot>, p: nat): (c: nat)
    requires p <= |v|
    ensures p <= c <= |v|
    ensures forall q: nat {:trigger Owned(v, q)} :: p <= q < c ==> Owned(v, q)
    ensures c < |v| ==> !Owned(v, c)
    decreases |v| - p
  {
    if p < |v| && Owned(v, p) then ConsumedFrom(v, p + 1) else p
  }

  function Consumed(v: seq<Slot>): (c: nat)
    ensures c <= |v|
  {
    ConsumedFrom(v, 0)
  }

  function Link(v: seq<Slot>, c: nat, q: nat): Option<nat>
    requires c <= |v|
  {
    if q < c && v[q].Some? then Some(Rank(v, q)) else None
  }

  /** The nodes of the first `c` slots in order, each linked to the nodes of its two slots. */
  ghost predicate IsBuilt(v: seq<Slot>, c: nat, h: seq<Node>)
    requires c <= |v|
  {
    && |h| == Rank(v, c)
    && (forall q {:trigger Rank(v, q)} :: 0 <= q < c && v[q].Some? ==> Rank(v, q) < |h| && h[Rank(v, q)].val == v[q])
    && (forall i :: 0 <= i < |h| ==> h[i].left == Link(v, c, 2 * i + 1) && h[i].right == Link(v, c, 2 * i + 2))
  }

  lemma {:induction false} RankSteps(v: seq<Slot>, p: nat, q: nat)
    requires p <= q <= |v|
    ensures Rank(v, p) <= Rank(v, q)
    ensures p < q && v[p].Some? ==> Rank(v, p) < Rank(v, q)
  {
    if p < q { RankSteps(v, p, q - 1); }
  }

  /** The slot a node came from. */
  lemma {:induction false} SlotOf(v: seq<Slot>, c: nat, i: nat) returns (q: nat)
    requires c <= |v| && i < Rank(v, c)
    ensures q < c && v[q].Some? && Rank(v, q) == i
  {
    if i == Rank(v, c - 1) { q := c - 1; } else { q := SlotOf(v, c - 1, i); }
  }

  lemma BuiltIsUnique(v: seq<Slot>, c: nat, h: seq<Node>, g: seq<Node>)
    requires c <= |v| && IsBuilt(v, c, h) && IsBuilt(v, c, g)
    ensures h == g
  {
    forall i | 0 <= i < |h| ensures h[i] == g[i] {
      var q := SlotOf(v, c, i);
    }
  }

  lemma BuiltIsWellFormed(v: seq<Slot>, c: nat, h: seq<Node>)
    requires c <= |v| && IsBuilt(v, c, h)
    ensures WellFormed(h)
  {
  }

  // ----- the level order of what was built -----

  /** Links lead to later nodes only. */
  predicate Ascends(h: seq<Node>) {
    forall i :: 0 <= i < |h| ==>
      && (h[i].left.Some? ==> i < h[i].left.value < |h|)
      && (h[i].right.Some? ==> i < h[i].right.value < |h|)
  }

  /** The tree below a link of such a heap. */
  function TreeOf(h: seq<Node>, link: Option<nat>): (t: Tree)
    requires Ascends(h) && LinkFits(h, link)
    ensures Represents(h, link, t)
    decreases if link.Some? then |h| - link.value else 0
  {
    if link.None? then Leaf else
      var n := h[link.value];
      Branch(n.val, TreeOf(h, n.left), TreeOf(h, n.right))
  }

  lemma BuiltAscends(v: seq<Slot>, h: seq<Node>)
    requires IsBuilt(v, Consumed(v), h)
    ensures Ascends(h)
  {
    var c := Consumed(v);
    forall i | 0 <= i < |h|
      ensures h[i].left.Some? ==> i < h[i].left.value < |h|
      ensures h[i].right.Some? ==> i < h[i].right.value < |h|
    {
      if 2 * i + 1 < c { assert Owned(v, 2 * i + 1); }
      if 2 * i + 2 < c { assert Owned(v, 2 * i + 2); }
    }
  }

  ghost predicate Built(v: seq<Slot>, h: seq<Node>) {
    IsBuilt(v, Consumed(v), h) && Ascends(h)
  }

  lemma LinkIsFit(v: seq<Slot>, h: seq<Node>, q: nat)
    requires Built(v, h)
    ensures LinkFits(h, Link(v, Consumed(v), q))
  {
  }

  /** The tree that slot `q` holds, and those of the slots from `p` up to `e`. */
  ghost function SlotTree(v: seq<Slot>, h: seq<Node>, q: nat): (t: Tree)
    requires Built(v, h)
  {
    LinkIsFit(v, h, q);
    TreeOf(h, Link(v, Consumed(v), q))
  }

  ghost function SlotTrees(v: seq<Slot>, h: seq<Node>, p: nat, e: nat): (r: seq<Tree>)
    requires Built(v, h) && p <= e
    ensures |r| == e - p
    decreases e - p
  {
    if p == e then [] else [SlotTree(v, h, p)] + SlotTrees(v, h, p + 1, e)
  }

  lemma {:induction false} SlotTreesGrow(v: seq<Slot>, h: seq<Node>, p: nat, e: nat)
    requires Built(v, h) && p <= e
    ensures SlotTrees(v, h, p, e + 1) == SlotTrees(v, h, p, e) + [SlotTree(v, h, e)]
    decreases e - p
  {
    hide SlotTree, Built;
    if p < e {
      SlotTreesGrow(v, h, p + 1, e);
    } else {
      assert SlotTrees(v, h, e, e + 1) == [SlotTree(v, h, e)] + SlotTrees(v, h, e + 1, e + 1);
    }
  }

  /** The entries the slots from `p` up to `e` show. */
  function Shown(v: seq<Slot>, p: nat, e: nat): (r: seq<Slot>)
    requires p <= e
    ensures |r| == e - p
    ensures forall i :: 0 <= i < e - p ==> r[i] == At(v[..Consumed(v)], p + i)
    decreases e - p
  {
    if p == e then [] else [At(v[..Consumed(v)], p)] + Shown(v, p + 1, e)
  }

  lemma SlotTreeSplits(v: seq<Slot>, h: seq<Node>, p: nat)
    requires Built(v, h)
    ensures Entry(SlotTree(v, h, p)) == At(v[..Consumed(v)], p)
    ensures var t := SlotTree(v, h, p);
            if p < Consumed(v) && v[p].Some? then
              var i := Rank(v, p);
              t == Branch(v[p], SlotTree(v, h, 2 * i + 1), SlotTree(v, h, 2 * i + 2))
            else t == Leaf
  {
    hide ConsumedFrom;
  }

  /** The slots the first `p` slots' nodes own end here. */
  function End(v: seq<Slot>, p: nat): nat
    requires p <= |v|
  {
    2 * Rank(v, p) + 1
  }

  /** A node's slots are the two after those of the nodes before it. */
  lemma EndMoves(v: seq<Slot>, p: nat)
    requires p < Consumed(v)
    ensures p < End(v, p) && p + 1 <= End(v, p + 1)
    ensures End(v, p) == 2 * Rank(v, p) + 1
    ensures End(v, p + 1) == if v[p].Some? then End(v, p) + 2 else End(v, p)
  {
    hide ConsumedFrom;
    assert Owned(v, p);
  }

  lemma EndIsPast(v: seq<Slot>)
    ensures Consumed(v) <= End(v, Consumed(v))
  {
    hide Consumed, End, Rank;
    if Consumed(v) > 0 {
      EndMoves(v, Consumed(v) - 1);
    } else {
      EndOfNone(v);
    }
  }

  lemma EndOfNone(v: seq<Slot>)
    ensures End(v, 0) == 1
  {
  }

  lemma SlotTreesFirst(v: seq<Slot>, h: seq<Node>, p: nat, e: nat)
    requires Built(v, h) && p < e
    ensures SlotTrees(v, h, p, e) == [SlotTree(v, h, p)] + SlotTrees(v, h, p + 1, e)
  {
  }

  lemma NextOf(t: Tree, rest: seq<Tree>)
    ensures Next([t] + rest) == if t.Branch? then rest + [t.left] + [t.right] else rest
  {
    assert ([t] + rest)[1..] == rest;
  }

  lemma NextSlots(v: seq<Slot>, h: seq<Node>, p: nat)
    requires Built(v, h) && p < Consumed(v)
    ensures p < End(v, p) && p + 1 <= End(v, p + 1)
    ensures Next(SlotTrees(v, h, p, End(v, p))) == SlotTrees(v, h, p + 1, End(v, p + 1))
  {
    hide SlotTree, SlotTrees, Built, End, Rank, Consumed, Next;
    EndMoves(v, p);
    SlotTreeSplits(v, h, p);
    var e := End(v, p);
    SlotTreesFirst(v, h, p, e);
    NextOf(SlotTree(v, h, p), SlotTrees(v, h, p + 1, e));
    if v[p].Some? {
      SlotTreesGrow(v, h, p + 1, e);
      SlotTreesGrow(v, h, p + 1, e + 1);
    }
  }

  /** Breadth first, what was built shows the slots it was built from. */
  lemma {:induction false} LevelOrderOfBuilt(v: seq<Slot>, h: seq<Node>, p: nat)
    requires Built(v, h) && p <= Consumed(v)
    ensures p <= End(v, p) && p <= End(v, Consumed(v))
    ensures Flat(SlotTrees(v, h, p, End(v, p))) == Shown(v, p, End(v, Consumed(v)))
    decreases Consumed(v) - p
  {
    hide SlotTree, SlotTrees, Built, End, Rank, Consumed, Shown, Flat, Next;
    var c := Consumed(v);
    if p == c {
      EndIsPast(v);
      EmptySlots(v, h, c, End(v, c));
    } else {
      EndMoves(v, p);
      NextSlots(v, h, p);
      LevelOrderOfBuilt(v, h, p + 1);
      SlotTreeSplits(v, h, p);
      SlotTreesFirst(v, h, p, End(v, p));
      var trees, e := SlotTrees(v, h, p, End(v, p)), End(v, c);
      assert p < e && Entry(trees[0]) == At(v[..c], p);
      ShownFirst(v, p, e);
      FlatFirst(trees);
    }
  }

  lemma ShownFirst(v: seq<Slot>, p: nat, e: nat)
    requires p < e
    ensures Shown(v, p, e) == [At(v[..Consumed(v)], p)] + Shown(v, p + 1, e)
  {
  }

  lemma FlatFirst(trees: seq<Tree>)
    requires trees != []
    ensures Flat(trees) == [Entry(trees[0])] + Flat(Next(trees))
  {
  }

  lemma {:induction false} EmptySlots(v: seq<Slot>, h: seq<Node>, p: nat, e: nat)
    requires Built(v, h) && Consumed(v) <= p <= e
    ensures Flat(SlotTrees(v, h, p, e)) == Shown(v, p, e)
    decreases e - p
  {
    if p < e {
      EmptySlots(v, h, p + 1, e);
      SlotTreeSplits(v, h, p);
      hide SlotTree, Built;
    }
  }

  /** Flattening what was built gives back the entries that were read, trailing nulls trimmed. */
  lemma FlattenOfBuild(v: seq<Slot>, h: seq<Node>)
    requires v != [] && v[0].Some? && IsBuilt(v, Consumed(v), h)
    ensures h != [] && Ascends(h)
    ensures Wire(TreeOf(h, Some(0))) == Trim(v[..Consumed(v)])
  {
    var c := Consumed(v);
    assert Owned(v, 0);
    RankSteps(v, 0, c);
    BuiltAscends(v, h);
    LevelOrderOfBuilt(v, h, 0);
    hide Built, IsBuilt;
    var shown := Shown(v, 0, End(v, c));
    assert SlotTrees(v, h, 0, 1) == [SlotTree(v, h, 0)];
    forall i: nat ensures At(shown, i) == At(v[..c], i) {
      LevelOrderOfBuilt(v, h, c);
    }
    TrimIsPadding(shown, v[..c]);
  }

  // ----- building what was flattened -----

  /** Every entry of a level order belongs to a slot that an earlier node, or the queue, owns. */
  lemma {:induction false} FlatIsOwned(q: seq<Tree>, p: nat)
    requires p < |Flat(q)| && AllNonNull(q)
    ensures p < |q| + 2 * Rank(Flat(q), p)
    decreases Weights(q)
  {
    if p > 0 {
      NextIsLighter(q);
      FlatIsOwned(Next(q), p - 1);
      RankOfTail(Flat(q), p);
    }
  }

  lemma {:induction false} RankOfTail(s: seq<Slot>, p: nat)
    requires 0 < p <= |s|
    ensures Rank(s, p) == (if s[0].Some? then 1 else 0) + Rank(s[1..], p - 1)
  {
    if p > 1 { RankOfTail(s, p - 1); }
  }

  lemma {:induction false} RankOfPrefix(s: seq<Slot>, t: seq<Slot>, p: nat)
    requires p <= |s| && s <= t
    ensures Rank(s, p) == Rank(t, p)
  {
    if p > 0 { RankOfPrefix(s, t, p - 1); }
  }

  /** The builders read the whole wire of a tree. */
  lemma WireIsConsumed(t: Tree)
    requires NonNull(t)
    ensures Consumed(Wire(t)) == |Wire(t)|
  {
    if t.Branch? {
      var f, w := Flat([t]), Wire(t);
      var c := Consumed(w);
      if c < |w| {
        FlatIsOwned([t], c);
        RankOfPrefix(w, f, c);
        assert false;
      }
    }
  }

  lemma {:induction false} TreeOfNonNull(h: seq<Node>, link: Option<nat>)
    requires Ascends(h) && LinkFits(h, link)
    requires forall i :: 0 <= i < |h| ==> h[i].val.Some?
    ensures NonNull(TreeOf(h, link))
    decreases if link.Some? then |h| - link.value else 0
  {
    if link.Some? {
      TreeOfNonNull(h, h[link.value].left);
      TreeOfNonNull(h, h[link.value].right);
    }
  }

  lemma BuiltValues(v: seq<Slot>, c: nat, h: seq<Node>)
    requires c <= |v| && IsBuilt(v, c, h)
    ensures forall i :: 0 <= i < |h| ==> h[i].val.Some?
  {
    forall i | 0 <= i < |h| ensures h[i].val.Some? {
      var q := SlotOf(v, c, i);
    }
  }

  /** Building the wire of a tree gives nodes that stand for that tree. */
  lemma BuildOfFlatten(t: Tree, h: seq<Node>)
    requires t.Branch? && NonNull(t) && IsBuilt(Wire(t), Consumed(Wire(t)), h)
    ensures h != [] && Represents(h, Some(0), t)
  {
    var w := Wire(t);
    BranchHasWire(t);
    FlattenOfBuild(w, h);
    WireIsConsumed(t);
    assert w[..|w|] == w;
    BuiltValues(w, Consumed(w), h);
    hide IsBuilt, ConsumedFrom, Represents;
    var u := TreeOf(h, Some(0));
    TreeOfNonNull(h, Some(0));
    TrimAgain(Flat([t]));
    WireIsInjective(t, u);
  }

  lemma TrimAgain(s: seq<Slot>)
    ensures Trim(Trim(s)) == Trim(s)
  {
  }
}
