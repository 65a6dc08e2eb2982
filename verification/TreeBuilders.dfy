/** The two tree builders: Python's walk over a growing list and Rust's queue. */
module TreeBuilders {
  import opened Wrappers
  import opened Trees

  /** The heap once slot `p` has been read: its node, if any, linked from the node that owns the slot. */
  function Fill(h: seq<Node>, p: nat, slot: Slot): seq<Node>
    requires p > 0 && (p - 1) / 2 < |h|
  {
    if slot.None? then h else
      var i := (p - 1) / 2;
      var n := if p % 2 == 1 then h[i].(left := Some(|h|)) else h[i].(right := Some(|h|));
      h[i := n] + [Node(slot, None, None)]
  }

  lemma FillBuilds(v: seq<Slot>, p: nat, h: seq<Node>)
    requires 0 < p < |v| && IsBuilt(v, p, h) && Owned(v, p)
    ensures IsBuilt(v, p + 1, Fill(h, p, v[p]))
  {
    if v[p].None? { EmptyBuilds(v, p, h); } else { NodeBuilds(v, p, h); }
  }

  lemma EmptyBuilds(v: seq<Slot>, p: nat, h: seq<Node>)
    requires 0 < p < |v| && IsBuilt(v, p, h) && v[p].None?
    ensures IsBuilt(v, p + 1, h)
  {
  }

  lemma NodeBuilds(v: seq<Slot>, p: nat, h: seq<Node>)
    requires 0 < p < |v| && IsBuilt(v, p, h) && Owned(v, p) && v[p].Some?
    ensures IsBuilt(v, p + 1, Fill(h, p, v[p]))
  {
    var g := Fill(h, p, v[p]);
    assert Rank(v, p + 1) == Rank(v, p) + 1;
    hide Rank;
    forall q {:trigger Rank(v, q)} | 0 <= q < p + 1 && v[q].Some?
      ensures Rank(v, q) < |g| && g[Rank(v, q)].val == v[q]
    {
      RankSteps(v, q, p);
    }
    NodeLinks(v, p, h);
  }

  lemma NodeLinks(v: seq<Slot>, p: nat, h: seq<Node>)
    requires 0 < p < |v| && IsBuilt(v, p, h) && Owned(v, p) && v[p].Some?
    ensures var g := Fill(h, p, v[p]);
            forall i :: 0 <= i < |g| ==>
              g[i].left == Link(v, p + 1, 2 * i + 1) && g[i].right == Link(v, p + 1, 2 * i + 2)
  {
    hide Rank;
    var g := Fill(h, p, v[p]);
    forall i | 0 <= i < |g|
      ensures g[i].left == Link(v, p + 1, 2 * i + 1) && g[i].right == Link(v, p + 1, 2 * i + 2)
    {
      LinkGrows(v, p, 2 * i + 1);
      LinkGrows(v, p, 2 * i + 2);
      Parents(p, i);
      hide Link;
      assert i < |h| ==> h[i].left == Link(v, p, 2 * i + 1) && h[i].right == Link(v, p, 2 * i + 2);
    }
  }

  lemma LinkGrows(v: seq<Slot>, p: nat, q: nat)
    requires p < |v|
    ensures Link(v, p + 1, q) == if q == p && v[p].Some? then Some(Rank(v, p)) else Link(v, p, q)
    ensures q >= p ==> Link(v, p, q).None?
  {
  }

  lemma Parents(p: nat, i: nat)
    requires p > 0
    ensures (p - 1) / 2 == i <==> p == 2 * i + 1 || p == 2 * i + 2
    ensures p == 2 * i + 1 ==> p % 2 == 1
    ensures p == 2 * i + 2 ==> p % 2 == 0
    ensures (p - 1) / 2 < i <==> p < 2 * i + 1
  {
  }

  lemma RootBuilds(v: seq<Slot>)
    requires v != [] && v[0].Some?
    ensures IsBuilt(v, 1, [Node(v[0], None, None)])
  {
  }

  /** The builders stop after `p` entries when every earlier slot had an owner and slot `p` has none. */
  lemma StopsAt(v: seq<Slot>, p: nat)
    requires p <= |v| && (forall q :: 0 <= q < p ==> Owned(v, q))
    requires p < |v| ==> !Owned(v, p)
    ensures Consumed(v) == p
  {
    var c := Consumed(v);
    assert c < |v| ==> !Owned(v, c);
  }

  /** Python's builder: the list is walked by index while children are appended to it. */
  method BuildTree(v: seq<Slot>) returns (h: seq<Node>, root: Option<nat>)
    ensures v == [] || v[0].None? ==> root.None?
    ensures v != [] && v[0].Some? ==> root == Some(0) && IsBuilt(v, Consumed(v), h)
  {
    hide IsBuilt, ConsumedFrom, Rank, Fill;
    if v == [] || v[0].None? { return [], None; }
    h, root := [Node(v[0], None, None)], Some(0);
    RootBuilds(v);
    var queue := [0];
    var p, at := 1, 0;
    while at < |queue|
      invariant p == 2 * at + 1 && p <= |v| && at <= |queue| == |h|
      invariant forall k :: 0 <= k < |queue| ==> queue[k] == k
      invariant IsBuilt(v, p, h) && forall q :: 0 <= q < p ==> Owned(v, q)
      decreases |v| - p
    {
      var node := queue[at];
      for side := 0 to 2
        invariant p == 2 * at + 1 + side && p <= |v| && at < |queue| == |h|
        invariant forall k :: 0 <= k < |queue| ==> queue[k] == k
        invariant IsBuilt(v, p, h) && forall q :: 0 <= q < p ==> Owned(v, q)
      {
        if p == |v| {
          StopsAt(v, p);
          return;
        }
        OwnedWhenBuilt(v, p, h);
        FillBuilds(v, p, h);
        FillIsLinking(h, p, v[p]);
        if v[p].Some? {
          var child := |h|;
          h := h[node := if side == 0 then h[node].(left := Some(child)) else h[node].(right := Some(child))];
          h := h + [Node(v[p], None, None)];
          queue := queue + [child];
        }
        p := p + 1;
      }
      at := at + 1;
    }
    OwnedWhenBuilt(v, p, h);
    StopsAt(v, p);
  }

  lemma OwnedWhenBuilt(v: seq<Slot>, p: nat, h: seq<Node>)
    requires 0 < p <= |v| && IsBuilt(v, p, h)
    ensures Owned(v, p) <==> (p - 1) / 2 < |h|
  {
  }

  lemma FillIsLinking(h: seq<Node>, p: nat, slot: Slot)
    requires p > 0 && (p - 1) / 2 < |h|
    ensures slot.None? ==> Fill(h, p, slot) == h
    ensures slot.Some? ==>
              var i := (p - 1) / 2;
              Fill(h, p, slot)
              == h[i := if p % 2 == 1 then h[i].(left := Some(|h|)) else h[i].(right := Some(|h|))]
                 + [Node(slot, None, None)]
  {
  }

  /** Rust's builder: nodes leave the front of a queue. */
  method DecodeTree(v: seq<Slot>) returns (h: seq<Node>, root: Option<nat>)
    ensures v == [] || v[0].None? ==> root.None?
    ensures v != [] && v[0].Some? ==> root == Some(0) && IsBuilt(v, Consumed(v), h)
  {
    hide IsBuilt, ConsumedFrom, Rank, Fill;
    if v == [] || v[0].None? { return [], None; }
    h, root := [Node(v[0], None, None)], Some(0);
    RootBuilds(v);
    var queue := [0];
    var p := 1;
    ghost var at := 0;
    label fill:
    while queue != []
      invariant p == 2 * at + 1 && p <= |v| && at + |queue| == |h|
      invariant forall k :: 0 <= k < |queue| ==> queue[k] == at + k
      invariant IsBuilt(v, p, h) && forall q :: 0 <= q < p ==> Owned(v, q)
      decreases |v| - p
    {
      var node := queue[0];
      queue := queue[1..];
      for side := 0 to 2
        invariant p == 2 * at + 1 + side && p <= |v| && at + 1 + |queue| == |h|
        invariant forall k :: 0 <= k < |queue| ==> queue[k] == at + 1 + k
        invariant IsBuilt(v, p, h) && forall q :: 0 <= q < p ==> Owned(v, q)
      {
        if p == |v| { break fill; }
        OwnedWhenBuilt(v, p, h);
        FillBuilds(v, p, h);
        FillIsLinking(h, p, v[p]);
        var slot := v[p];
        p := p + 1;
        if slot.Some? {
          var child := |h|;
          h := h[node := if side == 0 then h[node].(left := Some(child)) else h[node].(right := Some(child))];
          h := h + [Node(slot, None, None)];
          queue := queue + [child];
        }
      }
      at := at + 1;
    }
    OwnedWhenBuilt(v, p, h);
    StopsAt(v, p);
  }
}
