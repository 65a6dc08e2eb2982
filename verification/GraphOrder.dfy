/** A search visits nearer nodes first: no node comes before one that fewer steps reach. */
module GraphOrder {
  import opened Graphs
  import opened NodeNumbers

  predicate Follows(h: seq<Vertex>, visited: seq<nat>, k: nat, n: nat) {
    k < |visited| && visited[k] < |h| && n in h[visited[k]].neighbors
  }

  /** One of the first `left` nodes leads to `n`. */
  ghost predicate Discovered(h: seq<Vertex>, visited: seq<nat>, left: nat, n: nat) {
    exists k: nat :: k < left && Follows(h, visited, k, n)
  }

  /** Whatever leads to a node visited later, something no later leads to one visited earlier. */
  ghost predicate InOrder(h: seq<Vertex>, visited: seq<nat>, left: nat) {
    forall i, j, k: nat :: 0 < i < j < |visited| && k < left && Follows(h, visited, k, visited[j]) ==>
      Discovered(h, visited, k + 1, visited[i])
  }

  /** What a search keeps: explored nodes have their neighbours visited, and visited nodes come in order. */
  ghost predicate Orderly(h: seq<Vertex>, visited: seq<nat>, left: nat) {
    && DistinctBelow(visited, |h|) && 0 < |visited| && left <= |visited|
    && Covered(h, visited, left) && AllDiscovered(h, visited, left) && InOrder(h, visited, left)
  }

  ghost predicate Covered(h: seq<Vertex>, visited: seq<nat>, left: nat) {
    forall n, k: nat :: k < left && Follows(h, visited, k, n) ==> n in visited
  }

  ghost predicate AllDiscovered(h: seq<Vertex>, visited: seq<nat>, left: nat) {
    forall i :: 0 < i < |visited| ==> Discovered(h, visited, left, visited[i])
  }

  lemma {:induction false} AddNewAdds(neighbors: seq<nat>, visited: seq<nat>)
    ensures forall n :: n in AddNew(neighbors, visited) <==> n in visited || n in neighbors
    ensures forall i :: |visited| <= i < |AddNew(neighbors, visited)| ==> AddNew(neighbors, visited)[i] in neighbors
    decreases |neighbors|
  {
    if neighbors != [] {
      var more := if neighbors[0] in visited then visited else visited + [neighbors[0]];
      AddNewAdds(neighbors[1..], more);
      assert forall n :: n in neighbors <==> n == neighbors[0] || n in neighbors[1..];
    }
  }

  lemma DistinctAt(s: seq<nat>, n: nat, i: nat, j: nat)
    requires DistinctBelow(s, n) && i < |s| && j < |s| && s[i] == s[j]
    ensures i == j
  {
  }

  lemma StepKeepsOrder(h: seq<Vertex>, visited: seq<nat>, left: nat)
    requires Closed(h) && Orderly(h, visited, left) && left < |visited|
    ensures visited[left] < |h|
    ensures Orderly(h, AddNew(h[visited[left]].neighbors, visited), left + 1)
  {
    SearchStep(h, visited, left);
    var neighbors := h[visited[left]].neighbors;
    var more := AddNew(neighbors, visited);
    AddNewAdds(neighbors, visited);
    CoveredSoFar(h, visited, left);
    hide *;
    StillCovered(h, visited, left, more);
    StillDiscovered(h, visited, left, more);
    StillInOrder(h, visited, left, more);
    AllOrderly(h, more, left + 1);
  }

  lemma CoveredSoFar(h: seq<Vertex>, visited: seq<nat>, left: nat)
    requires Orderly(h, visited, left)
    ensures Covered(h, visited, left)
  {
  }

  lemma AllOrderly(h: seq<Vertex>, visited: seq<nat>, left: nat)
    requires DistinctBelow(visited, |h|) && 0 < |visited| && left <= |visited|
    requires Covered(h, visited, left) && AllDiscovered(h, visited, left) && InOrder(h, visited, left)
    ensures Orderly(h, visited, left)
  {
  }

  lemma StillCovered(h: seq<Vertex>, visited: seq<nat>, left: nat, more: seq<nat>)
    requires Covered(h, visited, left) && visited <= more && left < |visited| && visited[left] < |h|
    requires forall n :: n in h[visited[left]].neighbors ==> n in more
    ensures Covered(h, more, left + 1)
  {
    forall k: nat, n | k < left + 1 && Follows(h, more, k, n) ensures n in more {
      if k < left {
        assert Follows(h, visited, k, n);
        StillIn(visited, more, n);
      }
    }
  }

  lemma StillIn(visited: seq<nat>, more: seq<nat>, n: nat)
    requires visited <= more && n in visited
    ensures n in more
  {
    var i :| 0 <= i < |visited| && visited[i] == n;
    assert more[i] == n;
  }

  lemma StillInOrder(h: seq<Vertex>, visited: seq<nat>, left: nat, more: seq<nat>)
    requires Orderly(h, visited, left) && visited <= more && left < |visited| && DistinctBelow(more, |h|)
    requires AllDiscovered(h, more, left + 1)
    ensures InOrder(h, more, left + 1)
  {
    hide DistinctBelow, Follows, Discovered, Orderly;
    forall i, j, k: nat | 0 < i < j < |more| && k < left + 1 && Follows(h, more, k, more[j])
      ensures Discovered(h, more, k + 1, more[i])
    {
      if k < left { OldOrder(h, visited, left, more, i, j, k); }
    }
  }

  /** Among nodes an explored one leads to, the order is the old one. */
  lemma OldOrder(h: seq<Vertex>, visited: seq<nat>, left: nat, more: seq<nat>, i: nat, j: nat, k: nat)
    requires Orderly(h, visited, left) && visited <= more && DistinctBelow(more, |h|)
    requires 0 < i < j < |more| && k < left && Follows(h, more, k, more[j])
    ensures Discovered(h, more, k + 1, more[i])
  {
    hide DistinctBelow, Discovered;
    assert Follows(h, visited, k, more[j]) && more[j] in visited;
    var j': nat :| j' < |visited| && visited[j'] == more[j];
    DistinctAt(more, |h|, j', j);
    assert Discovered(h, visited, k + 1, visited[i]);
    DiscoveredOn(h, visited, k + 1, more, i);
  }

  lemma DiscoveredOn(h: seq<Vertex>, visited: seq<nat>, left: nat, more: seq<nat>, i: nat)
    requires visited <= more && i < |visited| && left <= |visited| && Discovered(h, visited, left, visited[i])
    ensures Discovered(h, more, left, more[i])
  {
    var k: nat :| k < left && Follows(h, visited, k, visited[i]);
    assert Follows(h, more, k, more[i]);
  }

  /** A node is discovered by an explored one, or newly by the next. */
  lemma StillDiscovered(h: seq<Vertex>, visited: seq<nat>, left: nat, more: seq<nat>)
    requires Orderly(h, visited, left) && visited <= more && left < |visited| && visited[left] < |h|
    requires forall i :: |visited| <= i < |more| ==> more[i] in h[visited[left]].neighbors
    ensures AllDiscovered(h, more, left + 1)
  {
    forall i | 0 < i < |more| ensures Discovered(h, more, left + 1, more[i]) {
      if i < |visited| {
        assert Discovered(h, visited, left, visited[i]);
        var k: nat :| k < left && Follows(h, visited, k, visited[i]);
        assert Follows(h, more, k, more[i]);
      } else {
        assert Follows(h, more, left, more[i]);
      }
    }
  }

  lemma {:induction false} SearchIsOrderly(h: seq<Vertex>, visited: seq<nat>, left: nat)
    requires Closed(h) && Orderly(h, visited, left)
    ensures var order := Search(h, visited, left); Orderly(h, order, |order|) && visited <= order
    decreases |h| - left
  {
    hide Orderly, DistinctBelow, AddNew;
    OrderlyFits(h, visited, left);
    if left < |visited| {
      StepKeepsOrder(h, visited, left);
      SearchStep(h, visited, left);
      SearchIsOrderly(h, AddNew(h[visited[left]].neighbors, visited), left + 1);
    } else {
      SearchDone(h, visited, left);
    }
  }

  lemma OrderlyFits(h: seq<Vertex>, visited: seq<nat>, left: nat)
    requires Orderly(h, visited, left)
    ensures DistinctBelow(visited, |h|) && left <= |visited| <= |h|
  {
    Fits(visited, |h|);
  }

  lemma StartIsOrderly(h: seq<Vertex>, start: nat)
    requires start < |h|
    ensures Orderly(h, [start], 0)
  {
  }

  /** A node visited no later than one that a walk reaches is reached by a walk no longer. */
  lemma {:induction false} NoLongerWalk(h: seq<Vertex>, order: seq<nat>, p: seq<nat>, i: nat, j: nat)
    returns (q: seq<nat>)
    requires Closed(h) && Orderly(h, order, |order|) && i <= j < |order|
    requires Walk(h, p) && p[0] == order[0] && p[|p| - 1] == order[j]
    ensures Walk(h, q) && q[0] == order[0] && q[|q| - 1] == order[i] && |q| <= |p|
    decreases |p|
  {
    hide Orderly, Closed, DistinctBelow;
    if i == j {
      q := p;
    } else if i == 0 {
      q := p[..1];
    } else {
      if |p| == 1 {
        OrderlyFits(h, order, |order|);
        assert false;
      }
      var shorter := p[..|p| - 1];
      var k := WalkEnds(h, order, shorter);
      var k' := LeadsEarlier(h, order, k, i, j);
      var r := NoLongerWalk(h, order, shorter, k', k);
      q := r + [order[i]];
      OneFurther(h, r, order, k', i);
    }
  }

  lemma OneFurther(h: seq<Vertex>, r: seq<nat>, order: seq<nat>, k: nat, i: nat)
    requires Closed(h) && Walk(h, r) && i < |order| && Follows(h, order, k, order[i]) && r[|r| - 1] == order[k]
    ensures Walk(h, r + [order[i]])
  {
  }

  lemma LeadsEarlier(h: seq<Vertex>, order: seq<nat>, k: nat, i: nat, j: nat) returns (k': nat)
    requires Orderly(h, order, |order|) && 0 < i < j < |order| && Follows(h, order, k, order[j])
    ensures k' <= k && Follows(h, order, k', order[i])
  {
    k' :| k' < k + 1 && Follows(h, order, k', order[i]);
  }

  /** A walk from the start ends at a node that is visited. */
  lemma {:induction false} WalkEnds(h: seq<Vertex>, order: seq<nat>, p: seq<nat>) returns (k: nat)
    requires Orderly(h, order, |order|) && Walk(h, p) && p[0] == order[0]
    ensures k < |order| && order[k] == p[|p| - 1]
    decreases |p|
  {
    if |p| == 1 {
      k := 0;
    } else {
      var k' := WalkEnds(h, order, p[..|p| - 1]);
      assert Follows(h, order, k', p[|p| - 1]);
      k :| 0 <= k < |order| && order[k] == p[|p| - 1];
    }
  }

  /** Breadth first: what is visited earlier is at most as far from the start as what is visited later. */
  lemma NearerFirst(h: seq<Vertex>, start: nat, i: nat, j: nat, p: seq<nat>) returns (q: seq<nat>)
    requires Closed(h) && start < |h| && i <= j < |BreadthFirst(h, start)|
    requires Walk(h, p) && p[0] == start && p[|p| - 1] == BreadthFirst(h, start)[j]
    ensures Walk(h, q) && q[0] == start && q[|q| - 1] == BreadthFirst(h, start)[i] && |q| <= |p|
  {
    hide Orderly;
    StartIsOrderly(h, start);
    SearchIsOrderly(h, [start], 0);
    q := NoLongerWalk(h, BreadthFirst(h, start), p, i, j);
  }
}
