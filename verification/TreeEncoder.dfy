/** Flattening a returned tree: the cycle check, then breadth first with no visited set, up to a cap. */
module TreeEncoder {
  import opened NodeNumbers
  import opened Wrappers
  import opened Trees
  import opened TreeBuilders
  import opened TreeCycles

  datatype Encoded = Entries(out: seq<Slot>) | Cyclic | TooLarge

  ghost predicate AllRepresent(h: seq<Node>, queue: seq<Option<nat>>, trees: seq<Tree>) {
    |queue| == |trees| && forall i :: 0 <= i < |queue| ==> Represents(h, queue[i], trees[i])
  }

  lemma NoTreeOnCycle(h: seq<Node>, root: nat)
    requires HasCycle(h, root)
    ensures forall t :: !Represents(h, Some(root), t)
  {
    hide HasCycle;
    forall t | Represents(h, Some(root), t) ensures false { TreeMeansNoCycle(h, root, t); }
  }

  lemma OnlyTree(h: seq<Node>, root: Option<nat>, t: Tree)
    requires Represents(h, root, t)
    ensures forall u :: Represents(h, root, u) ==> u == t
  {
    forall u | Represents(h, root, u) ensures u == t { RepresentsOne(h, root, t, u); }
  }

  lemma FlatUnfolds(q: seq<Tree>)
    ensures if q == [] then Flat(q) == [] else Flat(q) == [Entry(q[0])] + Flat(Next(q))
  {
  }

  lemma NextRepresents(h: seq<Node>, queue: seq<Option<nat>>, trees: seq<Tree>)
    requires queue != [] && AllRepresent(h, queue, trees)
    ensures queue[0].None? <==> trees[0].Leaf?
    ensures queue[0].None? ==> AllRepresent(h, queue[1..], Next(trees))
    ensures queue[0].Some? ==>
              && queue[0].value < |h|
              && h[queue[0].value].val == trees[0].val
              && AllRepresent(h, queue[1..] + [h[queue[0].value].left] + [h[queue[0].value].right], Next(trees))
  {
    assert Represents(h, queue[0], trees[0]);
  }

  /** The breadth-first entries, or nothing when there are too many; a shared node is written every time it is met. */
  method LevelOrder(h: seq<Node>, root: Option<nat>, ghost t: Tree) returns (r: Option<seq<Slot>>)
    requires Represents(h, root, t)
    ensures r == if |Flat([t])| > MAX_ENCODED then None else Some(Flat([t]))
  {
    hide Flat, Represents;
    var out: seq<Slot> := [];
    var queue: seq<Option<nat>> := [root];
    ghost var trees := [t];
    while queue != []
      invariant AllRepresent(h, queue, trees)
      invariant |out| <= MAX_ENCODED && out + Flat(trees) == Flat([t])
      decreases Weights(trees)
    {
      FlatUnfolds(trees);
      if |out| >= MAX_ENCODED { return None; }
      NextRepresents(h, queue, trees);
      NextIsLighter(trees);
      ghost var before := out;
      var node := queue[0];
      queue := queue[1..];
      if node.None? {
        out := out + [None];
      } else {
        out := out + [h[node.value].val];
        queue := queue + [h[node.value].left];
        queue := queue + [h[node.value].right];
      }
      Regroup(before, Entry(trees[0]), Flat(Next(trees)));
      trees := Next(trees);
    }
    FlatUnfolds(trees);
    assert out + [] == out;
    r := Some(out);
  }

  lemma Regroup(a: seq<Slot>, x: Slot, b: seq<Slot>)
    ensures a + [x] + b == a + ([x] + b)
  {
  }

  method TrimEntries(entries: seq<Slot>) returns (out: seq<Slot>)
    ensures out == Trim(entries)
  {
    out := entries;
    while out != [] && out[|out| - 1].None?
      invariant Trim(out) == Trim(entries)
    {
      out := out[..|out| - 1];
    }
  }

  /** A cycle is refused, a shared subtree is not: what is written is the finite tree the root stands for. */
  method FlattenTree(h: seq<Node>, root: Option<nat>) returns (r: Encoded)
    requires WellFormed(h) && LinkFits(h, root)
    ensures root.None? ==> r == Entries([])
    ensures root.Some? ==> (r == Cyclic <==> HasCycle(h, root.value))
    ensures forall t :: Represents(h, root, t) && t.Branch? ==>
              r == if |Flat([t])| > MAX_ENCODED then TooLarge else Entries(Wire(t))
  {
    hide HasCycle, Flat;
    if root.None? { return Entries([]); }
    var cyclic, t := TreeHasCycle(h, root.value);
    if cyclic {
      NoTreeOnCycle(h, root.value);
      return Cyclic;
    }
    OnlyTree(h, root, t);
    var entries := LevelOrder(h, root, t);
    if entries.None? { return TooLarge; }
    var out := TrimEntries(entries.value);
    r := Entries(out);
  }

  lemma FlatOfBuilt(v: seq<Slot>, h: seq<Node>)
    requires v != [] && v[0].Some? && IsBuilt(v, Consumed(v), h)
    ensures h != [] && Ascends(h) && WellFormed(h)
    ensures |Flat([TreeOf(h, Some(0))])| == 2 * Rank(v, Consumed(v)) + 1
  {
    BuiltIsWellFormed(v, Consumed(v), h);
    FlattenOfBuild(v, h);
    LevelOrderOfBuilt(v, h, 0);
    hide IsBuilt;
    assert SlotTrees(v, h, 0, 1) == [SlotTree(v, h, 0)];
  }

  /** Building a tree and flattening it again gives the consumed prefix, unless its nodes and slots are too many. */
  method BuildThenFlatten(v: seq<Slot>) returns (r: Encoded)
    ensures v == [] || v[0].None? ==> r == Entries([])
    ensures v != [] && v[0].Some? ==>
              r == if 2 * Rank(v, Consumed(v)) + 1 > MAX_ENCODED then TooLarge else Entries(Trim(v[..Consumed(v)]))
  {
    hide Flat, Represents, Trim, Rank, ConsumedFrom, HasCycle, IsBuilt;
    var h, root := BuildTree(v);
    if root.None? { return Entries([]); }
    FlattenOfBuild(v, h);
    FlatOfBuilt(v, h);
    RootBranches(h);
    r := FlattenTree(h, root);
  }

  lemma RootBranches(h: seq<Node>)
    requires h != [] && Ascends(h)
    ensures var t := TreeOf(h, Some(0)); t.Branch? && Represents(h, Some(0), t)
  {
  }

  /** Flattening a tree without null values and building it again gives nodes that stand for the same tree. */
  method FlattenThenBuild(h: seq<Node>, root: nat) returns (r: Encoded, g: seq<Node>, newRoot: Option<nat>)
    requires WellFormed(h) && root < |h|
    ensures forall t :: Represents(h, Some(root), t) && NonNull(t) && |Flat([t])| <= MAX_ENCODED ==>
              r == Entries(Wire(t)) && Represents(g, newRoot, t)
  {
    r := FlattenTree(h, Some(root));
    if !r.Entries? { return r, [], None; }
    g, newRoot := BuildTree(r.out);
    hide Flat, IsBuilt, Wire;
    forall t | Represents(h, Some(root), t) && NonNull(t) && |Flat([t])| <= MAX_ENCODED
      ensures Represents(g, newRoot, t)
    {
      BranchHasWire(t);
      BuildOfFlatten(t, g);
    }
  }
}
