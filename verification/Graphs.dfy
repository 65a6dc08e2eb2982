/** The adjacency-list wire of a graph whose nodes are numbered from 1, and its breadth-first encoding. */
module Graphs {
  import opened Wrappers
  import opened CyclicLists
  import opened NodeNumbers

  datatype Vertex = Vertex(val: int, neighbors: seq<nat>)

  predicate Closed(h: seq<Vertex>) {
    forall i, k :: 0 <= i < |h| && 0 <= k < |h[i].neighbors| ==> h[i].neighbors[k] < |h|
  }

  predicate RowFits(row: seq<int>, size: nat) {
    forall k :: 0 <= k < |row| ==> IsIndex(row[k] - 1, size)
  }

  /** The structure check made when a problem is loaded. */
  predicate WellFormedRows(adj: seq<seq<int>>) {
    forall i :: 0 <= i < |adj| ==> RowFits(adj[i], |adj|)
  }

  function Targets(row: seq<int>, size: nat): (t: seq<nat>)
    requires RowFits(row, size)
    ensures |t| == |row|
  {
    seq(|row|, k requires 0 <= k < |row| => row[k] - 1)
  }

  /** The graph a well-formed wire stands for. */
  function Meant(adj: seq<seq<int>>): (h: seq<Vertex>)
    requires WellFormedRows(adj)
    ensures |h| == |adj|
  {
    seq(|adj|, i requires 0 <= i < |adj| => Vertex(i + 1, Targets(adj[i], |adj|)))
  }

  datatype DecodedGraph = Graph(h: seq<Vertex>) | Failed

  predicate PyRowFits(row: seq<int>, size: nat) {
    forall k :: 0 <= k < |row| ==> PyIndex(size, row[k] - 1).Some?
  }

  /** Python's decoder: `nodes[v - 1]` wraps a neighbour numbered 0 or below. */
  method BuildGraph(adj: seq<seq<int>>) returns (r: DecodedGraph)
    ensures WellFormedRows(adj) ==> r == Graph(Meant(adj))
    ensures r.Graph? <==> forall i :: 0 <= i < |adj| ==> PyRowFits(adj[i], |adj|)
  {
    var nodes := Isolated(|adj|);
    for i := 0 to |adj|
      invariant |nodes| == |adj|
      invariant forall k :: i <= k < |adj| ==> nodes[k] == Vertex(k + 1, [])
      invariant forall k :: 0 <= k < i ==> PyRowFits(adj[k], |adj|)
      invariant WellFormedRows(adj) ==> forall k :: 0 <= k < i ==> nodes[k] == Meant(adj)[k]
    {
      var row: seq<nat> := [];
      for k := 0 to |adj[i]|
        invariant |row| == k
        invariant forall m :: 0 <= m < k ==> PyIndex(|adj|, adj[i][m] - 1) == Some(row[m])
      {
        var at := PyIndex(|adj|, adj[i][k] - 1);
        if at.None? { return Failed; }
        row := row + [at.value];
      }
      assert WellFormedRows(adj) ==> row == Targets(adj[i], |adj|);
      nodes := nodes[i := nodes[i].(neighbors := row)];
    }
    r := Graph(nodes);
    assert WellFormedRows(adj) ==> nodes == Meant(adj);
  }

  method Isolated(size: nat) returns (nodes: seq<Vertex>)
    ensures |nodes| == size && forall k :: 0 <= k < size ==> nodes[k] == Vertex(k + 1, [])
  {
    nodes := [];
    for i := 0 to size
      invariant |nodes| == i && forall k :: 0 <= k < i ==> nodes[k] == Vertex(k + 1, [])
    {
      nodes := nodes + [Vertex(i + 1, [])];
    }
  }

  /** Rust's decoder accepts exactly the well-formed wires, and builds the same graph. */
  method DecodeGraph(adj: seq<seq<int>>) returns (r: DecodedGraph)
    ensures r.Graph? <==> WellFormedRows(adj)
    ensures r.Graph? ==> r == Graph(Meant(adj))
  {
    var nodes := Isolated(|adj|);
    for i := 0 to |adj|
      invariant |nodes| == |adj|
      invariant forall k :: i <= k < |adj| ==> nodes[k] == Vertex(k + 1, [])
      invariant forall k :: 0 <= k < i ==> RowFits(adj[k], |adj|) && nodes[k] == Vertex(k + 1, Targets(adj[k], |adj|))
    {
      var row: seq<nat> := [];
      for k := 0 to |adj[i]|
        invariant |row| == k
        invariant forall m :: 0 <= m < k ==> IsIndex(adj[i][m] - 1, |adj|) && row[m] == adj[i][m] - 1
      {
        if adj[i][k] < 1 || adj[i][k] - 1 >= |adj| { return Failed; }
        row := row + [adj[i][k] - 1];
      }
      assert row == Targets(adj[i], |adj|);
      nodes := nodes[i := nodes[i].(neighbors := row)];
    }
    r := Graph(nodes);
    assert nodes == Meant(adj);
  }

  /** A wire that passes the check made when a problem is loaded is the same graph in both languages. */
  method LoadedWireAgrees(adj: seq<seq<int>>) returns (python: DecodedGraph, rust: DecodedGraph)
    requires WellFormedRows(adj)
    ensures python == rust && python.Graph?
  {
    python := BuildGraph(adj);
    rust := DecodeGraph(adj);
  }

  // ----- reachability -----

  predicate Walk(h: seq<Vertex>, p: seq<nat>) {
    p != [] && (forall i :: 0 <= i < |p| ==> p[i] < |h|)
    && (forall i :: 0 <= i < |p| - 1 ==> p[i + 1] in h[p[i]].neighbors)
  }

  ghost predicate Reaches(h: seq<Vertex>, start: nat, n: nat) {
    exists p :: Walk(h, p) && p[0] == start && p[|p| - 1] == n
  }

  lemma ReachesOn(h: seq<Vertex>, start: nat, n: nat, m: nat)
    requires Reaches(h, start, n) && m < |h| && m in h[n].neighbors
    ensures Reaches(h, start, m)
  {
    var p :| Walk(h, p) && p[0] == start && p[|p| - 1] == n;
    var q := p + [m];
    assert Walk(h, q) && q[0] == start && q[|q| - 1] == m;
  }

  lemma ReachesItself(h: seq<Vertex>, start: nat)
    requires start < |h|
    ensures Reaches(h, start, start)
  {
    assert Walk(h, [start]);
  }

  /** A set that holds the start and is closed under neighbours holds everything reachable. */
  lemma {:induction false} ClosedHoldsWalk(h: seq<Vertex>, s: set<nat>, p: seq<nat>)
    requires Walk(h, p) && p[0] in s
    requires forall n, m :: n in s && n < |h| && m in h[n].neighbors ==> m in s
    ensures p[|p| - 1] in s
    decreases |p|
  {
    if |p| > 1 {
      ClosedHoldsWalk(h, s, p[..|p| - 1]);
    }
  }

  lemma ClosedHoldsReach(h: seq<Vertex>, s: set<nat>, start: nat)
    requires start in s
    requires forall n, m :: n in s && n < |h| && m in h[n].neighbors ==> m in s
    ensures forall n :: Reaches(h, start, n) ==> n in s
  {
    forall n | Reaches(h, start, n) ensures n in s {
      var p :| Walk(h, p) && p[0] == start && p[|p| - 1] == n;
      ClosedHoldsWalk(h, s, p);
    }
  }

  /** What a search has found so far: distinct reachable nodes, the start among them. */
  ghost predicate Found(h: seq<Vertex>, start: nat, visited: seq<nat>, seen: set<nat>) {
    && (forall n :: n in seen <==> n in visited)
    && (forall i :: 0 <= i < |visited| ==> visited[i] < |h| && Reaches(h, start, visited[i]))
    && (forall i, j :: 0 <= i < j < |visited| ==> visited[i] != visited[j])
    && start in visited
  }

  lemma FindsStart(h: seq<Vertex>, start: nat)
    requires start < |h|
    ensures Found(h, start, [start], {start})
  {
    ReachesItself(h, start);
  }

  lemma FindsNeighbor(h: seq<Vertex>, start: nat, visited: seq<nat>, seen: set<nat>, at: nat, m: nat)
    requires Closed(h) && Found(h, start, visited, seen) && at < |visited|
    requires m in h[visited[at]].neighbors && m !in seen
    ensures m < |h| && Found(h, start, visited + [m], seen + {m})
  {
    hide Reaches;
    assert Reaches(h, start, visited[at]);
    ReachesOn(h, start, visited[at], m);
  }

  lemma FoundFits(h: seq<Vertex>, start: nat, visited: seq<nat>, seen: set<nat>)
    requires Found(h, start, visited, seen)
    ensures forall i :: 0 <= i < |visited| ==> visited[i] < |h|
    ensures seen <= Below(|h|)
  {
    hide Reaches;
    forall n | n in seen ensures n in Below(|h|) { var i :| 0 <= i < |visited| && visited[i] == n; }
  }

  /** Every neighbour of the first `left` nodes has been found. */
  ghost predicate Explored(h: seq<Vertex>, visited: seq<nat>, left: nat, seen: set<nat>) {
    forall k :: 0 <= k < left && k < |visited| && visited[k] < |h| ==> NeighborsIn(h[visited[k]].neighbors, seen)
  }

  ghost predicate NeighborsIn(neighbors: seq<nat>, seen: set<nat>) {
    forall i :: 0 <= i < |neighbors| ==> neighbors[i] in seen
  }

  lemma FoundAll(h: seq<Vertex>, start: nat, visited: seq<nat>, seen: set<nat>)
    requires Found(h, start, visited, seen) && Explored(h, visited, |visited|, seen)
    ensures forall n :: n in visited <==> Reaches(h, start, n)
    ensures forall i :: 0 <= i < |visited| ==> visited[i] < |h|
    ensures forall i, j :: 0 <= i < j < |visited| ==> visited[i] != visited[j]
  {
    hide Reaches;
    forall n, m | n in seen && n < |h| && m in h[n].neighbors ensures m in seen {
      var k :| 0 <= k < |visited| && visited[k] == n;
      assert NeighborsIn(h[visited[k]].neighbors, seen);
    }
    ClosedHoldsReach(h, seen, start);
  }

  // ----- breadth-first order -----

  /** The neighbours not met before, added in order. */
  function AddNew(neighbors: seq<nat>, visited: seq<nat>): (r: seq<nat>)
    ensures visited <= r
  {
    if neighbors == [] then visited
    else AddNew(neighbors[1..], if neighbors[0] in visited then visited else visited + [neighbors[0]])
  }

  lemma {:induction false} AddNewDistinct(neighbors: seq<nat>, visited: seq<nat>, n: nat)
    requires DistinctBelow(visited, n) && forall i :: 0 <= i < |neighbors| ==> neighbors[i] < n
    ensures DistinctBelow(AddNew(neighbors, visited), n)
    decreases |neighbors|
  {
    if neighbors != [] {
      AddNewDistinct(neighbors[1..], if neighbors[0] in visited then visited else visited + [neighbors[0]], n);
    }
  }

  /** The order in which a search visits what it can reach, having explored the first `left` of `visited`. */
  function Search(h: seq<Vertex>, visited: seq<nat>, left: nat): seq<nat>
    requires Closed(h) && DistinctBelow(visited, |h|)
    decreases |h| - left
  {
    Fits(visited, |h|);
    if left >= |visited| then visited
    else
      AddNewDistinct(h[visited[left]].neighbors, visited, |h|);
      Search(h, AddNew(h[visited[left]].neighbors, visited), left + 1)
  }

  function BreadthFirst(h: seq<Vertex>, start: nat): seq<nat>
    requires Closed(h) && start < |h|
  {
    Search(h, [start], 0)
  }

  /** The breadth-first order of the nodes reachable from `start`, each once. */
  method Visit(h: seq<Vertex>, start: nat) returns (visited: seq<nat>)
    requires Closed(h) && start < |h|
    ensures visited == BreadthFirst(h, start)
    ensures forall n :: n in visited <==> Reaches(h, start, n)
    ensures forall i :: 0 <= i < |visited| ==> visited[i] < |h|
    ensures forall i, j :: 0 <= i < j < |visited| ==> visited[i] != visited[j]
  {
    hide Reaches, Found, Explored, DistinctBelow, Search, AddNew, NeighborsIn;
    var seen := {start};
    visited := [start];
    var queue := [start];
    FindsStart(h, start);
    FoundDistinct(h, start, visited, seen);
    ghost var left := 0;
    ExploresNone(h, visited, seen);
    while queue != []
      invariant left <= |visited| && queue == visited[left..]
      invariant Found(h, start, visited, seen) && Explored(h, visited, left, seen)
      invariant DistinctBelow(visited, |h|) && Search(h, visited, left) == BreadthFirst(h, start)
      decreases Below(|h|) - seen, |queue|
    {
      FoundFits(h, start, visited, seen);
      SearchStep(h, visited, left);
      ghost var seen0 := seen;
      visited, queue, seen := VisitNeighbors(h, start, left, queue, visited, seen);
      FoundFits(h, start, visited, seen);
      FoundDistinct(h, start, visited, seen);
      ExploresNext(h, visited, left, seen);
      left := left + 1;
    }
    SearchDone(h, visited, left);
    FoundAll(h, start, visited, seen);
  }

  /** The inner loop: the first in the queue leaves it, and its neighbours not seen before join it. */
  method VisitNeighbors(h: seq<Vertex>, ghost start: nat, ghost at: nat, queue0: seq<nat>, visited0: seq<nat>,
                        seen0: set<nat>)
    returns (visited: seq<nat>, queue: seq<nat>, seen: set<nat>)
    requires Closed(h) && queue0 != [] && at < |visited0| && queue0 == visited0[at..] && queue0[0] < |h|
    requires Found(h, start, visited0, seen0) && Explored(h, visited0, at, seen0)
    ensures visited == AddNew(h[queue0[0]].neighbors, visited0) && queue == visited[at + 1..]
    ensures Found(h, start, visited, seen) && Explored(h, visited, at, seen)
    ensures NeighborsIn(h[queue0[0]].neighbors, seen)
    ensures seen0 <= seen && (seen == seen0 ==> queue == queue0[1..])
  {
    hide Reaches, Found, Explored, AddNew, Closed, NeighborsIn;
    var current := queue0[0];
    visited, queue, seen := visited0, queue0[1..], seen0;
    ghost var neighbors := h[current].neighbors;
    assert neighbors[0..] == neighbors && neighbors[..0] == [];
    NoneIn(seen);
    for i := 0 to |h[current].neighbors|
      invariant at < |visited| && visited[at] == current && queue == visited[at + 1..]
      invariant Found(h, start, visited, seen) && Explored(h, visited, at, seen)
      invariant seen0 <= seen && (seen == seen0 ==> queue == queue0[1..])
      invariant NeighborsIn(neighbors[..i], seen)
      invariant AddNew(neighbors[i..], visited) == AddNew(neighbors, visited0)
    {
      var neighbor := h[current].neighbors[i];
      ghost var before := seen;
      AddNewStep(neighbors, i, visited);
      SeenIsVisited(h, start, visited, seen, neighbor);
      if neighbor !in seen {
        FindsNeighbor(h, start, visited, seen, at, neighbor);
        ExploresMore(h, visited, at, seen, neighbor);
        RestGrows(visited, at + 1, neighbor);
        seen := seen + {neighbor};
        visited := visited + [neighbor];
        queue := queue + [neighbor];
      }
      OneMoreIn(neighbors, i, before, seen);
    }
    AddNewDone(neighbors, visited);
    assert neighbors[..|neighbors|] == neighbors;
  }

  lemma NoneIn(seen: set<nat>)
    ensures NeighborsIn([], seen)
  {
  }

  lemma OneMoreIn(neighbors: seq<nat>, i: nat, before: set<nat>, seen: set<nat>)
    requires i < |neighbors| && NeighborsIn(neighbors[..i], before) && before <= seen && neighbors[i] in seen
    ensures NeighborsIn(neighbors[..i + 1], seen)
  {
    forall k | 0 <= k < i ensures neighbors[k] in seen { assert neighbors[..i][k] in before; }
  }

  lemma FoundDistinct(h: seq<Vertex>, start: nat, visited: seq<nat>, seen: set<nat>)
    requires Found(h, start, visited, seen)
    ensures DistinctBelow(visited, |h|)
  {
    hide Reaches;
  }

  lemma RestGrows(visited: seq<nat>, left: nat, n: nat)
    requires left <= |visited|
    ensures (visited + [n])[left..] == visited[left..] + [n]
  {
  }

  lemma SeenIsVisited(h: seq<Vertex>, start: nat, visited: seq<nat>, seen: set<nat>, n: nat)
    requires Found(h, start, visited, seen)
    ensures n in seen <==> n in visited
  {
    hide Reaches;
  }

  lemma SearchStep(h: seq<Vertex>, visited: seq<nat>, left: nat)
    requires Closed(h) && DistinctBelow(visited, |h|) && left < |visited|
    ensures visited[left] < |h|
    ensures var more := AddNew(h[visited[left]].neighbors, visited);
            DistinctBelow(more, |h|) && Search(h, visited, left) == Search(h, more, left + 1)
  {
    AddNewDistinct(h[visited[left]].neighbors, visited, |h|);
  }

  lemma SearchDone(h: seq<Vertex>, visited: seq<nat>, left: nat)
    requires Closed(h) && DistinctBelow(visited, |h|) && left >= |visited|
    ensures Search(h, visited, left) == visited
  {
  }

  lemma AddNewStep(neighbors: seq<nat>, i: nat, visited: seq<nat>)
    requires i < |neighbors|
    ensures AddNew(neighbors[i..], visited)
         == AddNew(neighbors[i + 1..], if neighbors[i] in visited then visited else visited + [neighbors[i]])
  {
    assert neighbors[i..][1..] == neighbors[i + 1..];
  }

  lemma AddNewDone(neighbors: seq<nat>, visited: seq<nat>)
    ensures AddNew(neighbors[|neighbors|..], visited) == visited
  {
  }

  lemma ExploresNone(h: seq<Vertex>, visited: seq<nat>, seen: set<nat>)
    ensures Explored(h, visited, 0, seen)
  {
  }

  lemma ExploresMore(h: seq<Vertex>, visited: seq<nat>, left: nat, seen: set<nat>, n: nat)
    requires Explored(h, visited, left, seen) && left < |visited|
    ensures Explored(h, visited + [n], left, seen + {n})
  {
  }

  lemma ExploresNext(h: seq<Vertex>, visited: seq<nat>, at: nat, seen: set<nat>)
    requires Explored(h, visited, at, seen) && at < |visited| && visited[at] < |h|
    requires NeighborsIn(h[visited[at]].neighbors, seen)
    ensures Explored(h, visited, at + 1, seen)
  {
  }

  // ----- encoding -----

  function NeighborVals(h: seq<Vertex>, n: nat): (r: seq<int>)
    requires Closed(h) && n < |h|
    ensures |r| == |h[n].neighbors|
  {
    seq(|h[n].neighbors|, k requires 0 <= k < |h[n].neighbors| => h[h[n].neighbors[k]].val)
  }

  ghost predicate HasVal(h: seq<Vertex>, start: nat, n: nat, v: int) {
    n < |h| && h[n].val == v && Reaches(h, start, n)
  }

  datatype Encoded = Rows(rows: seq<seq<int>>) | TooLarge(val: int)

  /** `k` is the last place in `order` of a node with value `v`. */
  predicate LastWith(h: seq<Vertex>, order: seq<nat>, v: int, k: nat) {
    && k < |order| && order[k] < |h| && h[order[k]].val == v
    && forall m :: k < m < |order| && order[m] < |h| ==> h[order[m]].val != v
  }

  /** The row holds the neighbours of the last node in `order` with its value, or nothing if there is none. */
  ghost predicate RowFrom(h: seq<Vertex>, order: seq<nat>, v: int, row: seq<int>)
    requires Closed(h)
  {
    || (row == [] && forall k :: 0 <= k < |order| && order[k] < |h| ==> h[order[k]].val != v)
    || (exists k: nat :: LastWith(h, order, v, k) && row == NeighborVals(h, order[k]))
  }

  lemma RowStays(h: seq<Vertex>, order: seq<nat>, n: nat, v: int, row: seq<int>)
    requires Closed(h) && n < |h| && h[n].val != v && RowFrom(h, order, v, row)
    ensures RowFrom(h, order + [n], v, row)
  {
    var longer := order + [n];
    if k: nat :| LastWith(h, order, v, k) && row == NeighborVals(h, order[k]) {
      assert LastWith(h, longer, v, k) && longer[k] == order[k];
    }
  }

  lemma RowReplaced(h: seq<Vertex>, order: seq<nat>, n: nat)
    requires Closed(h) && n < |h|
    ensures RowFrom(h, order + [n], h[n].val, NeighborVals(h, n))
  {
    var longer := order + [n];
    assert LastWith(h, longer, h[n].val, |order|) && longer[|order|] == n;
  }

  /** The largest value reached, or 0. */
  ghost predicate Largest(h: seq<Vertex>, start: nat, max: int) {
    && max >= 0
    && (max > 0 ==> exists n :: HasVal(h, start, n, max))
    && (forall n, v :: HasVal(h, start, n, v) ==> v <= max)
  }

  /** One row per value up to the largest reached, each of the last node with that value that a search visits. */
  method EncodeGraph(h: seq<Vertex>, start: Option<nat>) returns (r: Encoded)
    requires Closed(h) && (start.Some? ==> start.value < |h|)
    ensures start.None? ==> r == Rows([])
    ensures start.Some? && r.Rows? ==>
              && |r.rows| <= MAX_ENCODED && Largest(h, start.value, |r.rows|)
              && (forall i :: 0 <= i < |r.rows| ==> RowFrom(h, BreadthFirst(h, start.value), i + 1, r.rows[i]))
    ensures start.Some? && r.TooLarge? ==> r.val > MAX_ENCODED && Largest(h, start.value, r.val)
    ensures start.Some? ==> forall n :: n in BreadthFirst(h, start.value) <==> Reaches(h, start.value, n)
  {
    hide Reaches, BreadthFirst, RowFrom, Closed;
    if start.None? { return Rows([]); }
    var visited := Visit(h, start.value);
    var max := LargestVisited(h, start.value, visited);
    if max > MAX_ENCODED { return TooLarge(max); }
    var rows: seq<seq<int>> := seq(max, _ => []);
    forall u | 0 <= u < max ensures RowFrom(h, visited[..0], u + 1, rows[u]) { NoRow(h, u + 1); }
    for i := 0 to |visited|
      invariant |rows| == max
      invariant forall u :: 0 <= u < max ==> RowFrom(h, visited[..i], u + 1, rows[u])
    {
      var v := h[visited[i]].val;
      assert visited[..i + 1] == visited[..i] + [visited[i]];
      ghost var before := rows;
      if 1 <= v <= max {
        rows := rows[v - 1 := NeighborVals(h, visited[i])];
      }
      RowReplaced(h, visited[..i], visited[i]);
      forall u | 0 <= u < max
        ensures RowFrom(h, visited[..i + 1], u + 1, rows[u])
      {
        if u + 1 != v { RowStays(h, visited[..i], visited[i], u + 1, before[u]); }
      }
    }
    assert visited[..|visited|] == visited;
    r := Rows(rows);
  }

  lemma NoRow(h: seq<Vertex>, v: int)
    requires Closed(h)
    ensures RowFrom(h, [], v, [])
  {
  }

  method LargestVisited(h: seq<Vertex>, start: nat, visited: seq<nat>) returns (max: int)
    requires forall n :: n in visited <==> Reaches(h, start, n)
    requires forall i :: 0 <= i < |visited| ==> visited[i] < |h|
    ensures Largest(h, start, max)
  {
    hide Reaches;
    max := 0;
    for i := 0 to |visited|
      invariant max >= 0 && (max > 0 ==> exists n :: HasVal(h, start, n, max))
      invariant forall k :: 0 <= k < i ==> h[visited[k]].val <= max
    {
      assert HasVal(h, start, visited[i], h[visited[i]].val);
      if h[visited[i]].val > max { max := h[visited[i]].val; }
    }
  }

  // ----- the round trip -----

  /** The row of each node reachable from node 1, and an empty row for every other. */
  ghost predicate RowsOfReached(adj: seq<seq<int>>, rows: seq<seq<int>>)
    requires WellFormedRows(adj)
  {
    forall i :: 0 <= i < |rows| && i < |adj| ==>
      rows[i] == if Reaches(Meant(adj), 0, i) then adj[i] else []
  }

  lemma MeantVals(adj: seq<seq<int>>, n: nat)
    requires WellFormedRows(adj) && n < |adj|
    ensures Closed(Meant(adj)) && NeighborVals(Meant(adj), n) == adj[n]
  {
    assert RowFits(adj[n], |adj|);
  }

  lemma MeantIsClosed(adj: seq<seq<int>>)
    requires WellFormedRows(adj)
    ensures Closed(Meant(adj))
  {
  }

  lemma MeantHasVal(adj: seq<seq<int>>, n: nat, v: int)
    requires WellFormedRows(adj)
    ensures HasVal(Meant(adj), 0, n, v) <==> v == n + 1 && n < |adj| && Reaches(Meant(adj), 0, n)
  {
    hide Reaches;
  }

  lemma RowIsMeant(adj: seq<seq<int>>, order: seq<nat>, i: nat, row: seq<int>)
    requires WellFormedRows(adj) && i < |adj| && Closed(Meant(adj)) && RowFrom(Meant(adj), order, i + 1, row)
    requires forall n :: n in order <==> Reaches(Meant(adj), 0, n)
    ensures row == if Reaches(Meant(adj), 0, i) then adj[i] else []
  {
    hide Reaches, NeighborVals;
    MeantVals(adj, i);
    var h := Meant(adj);
    var v: int := i + 1;
    assert i in order ==> exists k :: 0 <= k < |order| && order[k] < |h| && h[order[k]].val == v;
    if k: nat :| LastWith(h, order, v, k) && row == NeighborVals(h, order[k]) {
      assert order[k] == i;
    }
  }

  /** The largest value reached is the number of the last node reached. */
  lemma LargestIsLast(adj: seq<seq<int>>, max: int)
    requires WellFormedRows(adj) && adj != [] && Largest(Meant(adj), 0, max)
    ensures 0 < max <= |adj| && Reaches(Meant(adj), 0, max - 1)
    ensures forall i :: max <= i < |adj| ==> !Reaches(Meant(adj), 0, i)
  {
    var h := Meant(adj);
    ReachesItself(h, 0);
    hide Reaches;
    MeantHasVal(adj, 0, 1);
    var n :| HasVal(h, 0, n, max);
    MeantHasVal(adj, n, max);
    forall i | max <= i < |adj| ensures !Reaches(h, 0, i) { MeantHasVal(adj, i, i + 1); }
  }

  /**
    * Encoding a decoded graph: the rows of the nodes reached from node 1 come back, every other row
    * is empty, and rows past the last node reached are cut.
    */
  method GraphRoundTrip(adj: seq<seq<int>>) returns (r: Encoded)
    requires WellFormedRows(adj)
    ensures adj == [] ==> r == Rows([])
    ensures r.TooLarge? ==> MAX_ENCODED < r.val <= |adj| && Reaches(Meant(adj), 0, r.val - 1)
    ensures r.Rows? ==> |r.rows| <= MAX_ENCODED && |r.rows| <= |adj| && RowsOfReached(adj, r.rows)
    ensures r.Rows? && adj != [] ==> |r.rows| > 0 && Reaches(Meant(adj), 0, |r.rows| - 1)
    ensures r.Rows? ==> forall i :: |r.rows| <= i < |adj| ==> !Reaches(Meant(adj), 0, i)
  {
    hide Reaches, Largest, RowFrom, BreadthFirst;
    var built := BuildGraph(adj);
    MeantIsClosed(adj);
    hide Meant, Closed;
    r := EncodeGraph(built.h, if adj == [] then None else Some(0));
    if adj != [] {
      LargestIsLast(adj, if r.Rows? then |r.rows| else r.val);
    }
    if r.Rows? {
      forall i | 0 <= i < |r.rows| && i < |adj|
        ensures r.rows[i] == if Reaches(Meant(adj), 0, i) then adj[i] else []
      {
        RowIsMeant(adj, BreadthFirst(built.h, 0), i, r.rows[i]);
      }
    }
  }

  /** The wire comes back whole exactly when its last node is reached and so is every node with neighbours. */
  method GraphWireReturns(adj: seq<seq<int>>) returns (r: Encoded)
    requires WellFormedRows(adj)
    ensures r == Rows(adj) <==>
              adj == [] || (|adj| <= MAX_ENCODED && Reaches(Meant(adj), 0, |adj| - 1)
                && forall i :: 0 <= i < |adj| && adj[i] != [] ==> Reaches(Meant(adj), 0, i))
  {
    hide Reaches, Meant, WellFormedRows;
    r := GraphRoundTrip(adj);
    if r.Rows? && |r.rows| == |adj| && (forall i :: 0 <= i < |adj| && adj[i] != [] ==> Reaches(Meant(adj), 0, i)) {
      assert r.rows == adj;
    }
  }
}
