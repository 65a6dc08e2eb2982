/** The three-colour depth-first search for a node that is its own ancestor. */
module TreeCycles {
  import opened NodeNumbers
  import opened Wrappers
  import opened Trees

  predicate Edge(h: seq<Node>, a: nat, b: nat) {
    a < |h| && b < |h| && (h[a].left == Some(b) || h[a].right == Some(b))
  }

  predicate Walk(h: seq<Node>, p: seq<nat>) {
    p != [] && p[0] < |h| && forall i :: 0 <= i < |p| - 1 ==> Edge(h, p[i], p[i + 1])
  }

  function Last(p: seq<nat>): nat
    requires p != []
  {
    p[|p| - 1]
  }

  predicate Leads(h: seq<Node>, a: nat, p: seq<nat>, b: nat) {
    Walk(h, p) && p[0] == a && Last(p) == b
  }

  /** Some node reachable from the root reaches itself. */
  ghost predicate HasCycle(h: seq<Node>, root: nat) {
    exists p, q, n :: Leads(h, root, p, n) && Leads(h, n, q, n) && |q| > 1
  }

  // ----- a node with a finite tree is on no cycle -----

  lemma {:induction false} SubtreeOnWalk(h: seq<Node>, p: seq<nat>, t: Tree) returns (u: Tree)
    requires Walk(h, p) && Represents(h, Some(p[0]), t)
    ensures Represents(h, Some(Last(p)), u)
    ensures Weight(u) <= Weight(t) && (|p| > 1 ==> Weight(u) < Weight(t))
    decreases |p|
  {
    if |p| == 1 {
      u := t;
    } else {
      assert Edge(h, p[0], p[1]);
      var below := if h[p[0]].left == Some(p[1]) then t.left else t.right;
      var rest := p[1..];
      forall i | 0 <= i < |rest| - 1 ensures Edge(h, rest[i], rest[i + 1]) {
        assert Edge(h, p[i + 1], p[i + 2]);
      }
      u := SubtreeOnWalk(h, rest, below);
    }
  }

  lemma TreeMeansNoCycle(h: seq<Node>, root: nat, t: Tree)
    requires Represents(h, Some(root), t)
    ensures !HasCycle(h, root)
  {
    if HasCycle(h, root) {
      var p, q, n :| Leads(h, root, p, n) && Leads(h, n, q, n) && |q| > 1;
      var u := SubtreeOnWalk(h, p, t);
      var w := SubtreeOnWalk(h, q, u);
      RepresentsOne(h, Some(n), u, w);
    }
  }

  // ----- the search -----

  datatype Frame = Frame(node: nat, leaving: bool)

  /** The nodes on the current path, from the root: those whose frames wait to be left. */
  function Gray(st: seq<Frame>): seq<nat> {
    if st == [] then [] else
      var n := |st| - 1;
      if st[n].leaving then Gray(st[..n]) + [st[n].node] else Gray(st[..n])
  }

  /** Every frame's node is the root or a child of the path node below it. */
  predicate Stacked(h: seq<Node>, root: nat, st: seq<Frame>) {
    if st == [] then true else
      var n := |st| - 1;
      var g := Gray(st[..n]);
      && Stacked(h, root, st[..n])
      && st[n].node < |h|
      && (if g == [] then st[n].node == root else Edge(h, Last(g), st[n].node))
  }

  lemma {:induction false} GrayIsWalk(h: seq<Node>, root: nat, st: seq<Frame>)
    requires Stacked(h, root, st)
    ensures Gray(st) != [] ==> Walk(h, Gray(st)) && Gray(st)[0] == root
    decreases |st|
  {
    if st != [] { GrayIsWalk(h, root, st[..|st| - 1]); }
  }

  ghost predicate Above(st: seq<Frame>, k: int, c: nat) {
    exists m :: k < m < |st| && 0 <= m && st[m].node == c
  }

  /** Each child of a node on the path is finished or still stacked above it. */
  ghost predicate Covered(h: seq<Node>, st: seq<Frame>, done: set<nat>) {
    forall k, c {:trigger Edge(h, st[k].node, c)} ::
      0 <= k < |st| && st[k].leaving && Edge(h, st[k].node, c) ==> c in done || Above(st, k, c)
  }

  ghost predicate Finished(h: seq<Node>, done: set<nat>, trees: map<nat, Tree>) {
    forall d :: d in done ==> d in trees && Represents(h, Some(d), trees[d])
  }

  predicate NoRepeats(g: seq<nat>) {
    forall i, j :: 0 <= i < j < |g| ==> g[i] != g[j]
  }

  lemma PopStacked(h: seq<Node>, root: nat, st: seq<Frame>, done: set<nat>)
    requires st != [] && Stacked(h, root, st) && Covered(h, st, done)
    ensures var n := |st| - 1;
            && Stacked(h, root, st[..n])
            && st[n].node < |h|
            && (var g := Gray(st[..n]); if g == [] then st[n].node == root else Edge(h, Last(g), st[n].node))
            && Covered(h, st[..n], done + {st[n].node})
            && Gray(st) == if st[n].leaving then Gray(st[..n]) + [st[n].node] else Gray(st[..n])
  {
    var n := |st| - 1;
    hide Edge;
    forall k, c {:trigger Edge(h, st[k].node, c)} | 0 <= k < n && st[k].leaving && Edge(h, st[k].node, c)
      ensures c in done + {st[n].node} || Above(st[..n], k, c)
    {
      if c !in done {
        var m :| k < m < |st| && 0 <= m && st[m].node == c;
        assert m < n ==> st[..n][m].node == c;
      }
    }
  }

  function ChildFrames(n: Node): seq<Frame> {
    (if n.right.Some? then [Frame(n.right.value, false)] else [])
    + (if n.left.Some? then [Frame(n.left.value, false)] else [])
  }

  lemma PushStacked(h: seq<Node>, root: nat, st: seq<Frame>, f: Frame)
    requires Stacked(h, root, st) && f.node < |h|
    requires var g := Gray(st); if g == [] then f.node == root else Edge(h, Last(g), f.node)
    ensures Stacked(h, root, st + [f])
    ensures Gray(st + [f]) == if f.leaving then Gray(st) + [f.node] else Gray(st)
  {
    assert (st + [f])[..|st|] == st;
  }

  lemma PushChildren(h: seq<Node>, root: nat, st: seq<Frame>, node: nat)
    requires WellFormed(h) && node < |h|
    requires Stacked(h, root, st) && Gray(st) != [] && Last(Gray(st)) == node
    ensures Stacked(h, root, st + ChildFrames(h[node]))
    ensures Gray(st + ChildFrames(h[node])) == Gray(st)
  {
    hide Stacked, Gray;
    var n := h[node];
    var a := if n.right.Some? then [Frame(n.right.value, false)] else [];
    var b := if n.left.Some? then [Frame(n.left.value, false)] else [];
    if n.right.Some? { PushStacked(h, root, st, Frame(n.right.value, false)); }
    assert st + a == st || a != [];
    assert Stacked(h, root, st + a) && Gray(st + a) == Gray(st);
    if n.left.Some? { PushStacked(h, root, st + a, Frame(n.left.value, false)); }
    assert st + a + b == st + (a + b);
    assert st + a + [] == st + a;
  }

  lemma PushCovered(h: seq<Node>, st: seq<Frame>, done: set<nat>, node: nat)
    requires node < |h| && Covered(h, st, done + {node})
    ensures Covered(h, st + [Frame(node, true)] + ChildFrames(h[node]), done)
  {
    var top := st + [Frame(node, true)] + ChildFrames(h[node]);
    forall k, c {:trigger Edge(h, top[k].node, c)} | 0 <= k < |top| && top[k].leaving && Edge(h, top[k].node, c)
      ensures c in done || Above(top, k, c)
    {
      if k < |st| {
        assert top[k] == st[k] && Edge(h, st[k].node, c);
        if c == node {
          assert top[|st|].node == c;
        } else if c !in done {
          var m :| k < m < |st| && 0 <= m && st[m].node == c;
          assert top[m].node == c;
        }
      } else if h[node].left == Some(c) {
        assert top[|top| - 1].node == c;
      } else {
        assert top[|st| + 1].node == c;
      }
    }
  }

  lemma LeaveFinished(h: seq<Node>, st: seq<Frame>, done: set<nat>, trees: map<nat, Tree>) returns (t: Tree)
    requires WellFormed(h) && st != [] && st[|st| - 1].leaving && st[|st| - 1].node < |h|
    requires Covered(h, st, done) && Finished(h, done, trees)
    ensures Represents(h, Some(st[|st| - 1].node), t)
  {
    var top := |st| - 1;
    var n := h[st[top].node];
    forall c | Edge(h, st[top].node, c) ensures c in done {
      assert !Above(st, top, c);
    }
    if n.left.Some? { assert Edge(h, st[top].node, n.left.value); }
    if n.right.Some? { assert Edge(h, st[top].node, n.right.value); }
    t := Branch(n.val,
      if n.left.Some? then trees[n.left.value] else Leaf,
      if n.right.Some? then trees[n.right.value] else Leaf);
  }

  lemma {:induction false} PathClosed(h: seq<Node>, g: seq<nat>, node: nat)
    requires Walk(h, g) && node in g && Edge(h, Last(g), node)
    ensures HasCycle(h, g[0])
  {
    var i :| 0 <= i < |g| && g[i] == node;
    var p, q := g[..i + 1], g[i..] + [node];
    forall k | 0 <= k < |p| - 1 ensures Edge(h, p[k], p[k + 1]) {
      assert Edge(h, g[k], g[k + 1]);
    }
    forall k | 0 <= k < |q| - 1 ensures Edge(h, q[k], q[k + 1]) {
      if k < |g| - i - 1 { assert Edge(h, g[i + k], g[i + k + 1]); }
    }
    assert Leads(h, g[0], p, node) && Leads(h, node, q, node);
  }

  lemma Starts(h: seq<Node>, root: nat)
    requires root < |h|
    ensures var st := [Frame(root, false)];
            Stacked(h, root, st) && Gray(st) == [] && Covered(h, st, {}) && Above(st, -1, root)
  {
    var st := [Frame(root, false)];
    assert st[..0] == [] && st[0].node == root;
  }

  lemma LeaveKeeps(h: seq<Node>, done: set<nat>, trees: map<nat, Tree>, node: nat, u: Tree)
    requires Finished(h, done, trees) && Represents(h, Some(node), u)
    ensures Finished(h, done + {node}, trees[node := u])
  {
    hide Represents;
  }

  lemma FinishedTree(h: seq<Node>, done: set<nat>, trees: map<nat, Tree>, root: nat) returns (t: Tree)
    requires Finished(h, done, trees) && root in done
    ensures Represents(h, Some(root), t)
  {
    hide Represents;
    t := trees[root];
  }

  lemma OnPathIsCycle(h: seq<Node>, root: nat, st: seq<Frame>, node: nat)
    requires Stacked(h, root, st) && node in Gray(st) && Edge(h, Last(Gray(st)), node)
    ensures HasCycle(h, root)
  {
    GrayIsWalk(h, root, st);
    hide *;
    PathClosed(h, Gray(st), node);
  }

  lemma Recolour(all: set<nat>, onPath: set<nat>, done: set<nat>, node: nat)
    requires node in onPath
    ensures all - (onPath - {node}) - (done + {node}) == all - onPath - done
  {
  }

  lemma Paint(all: set<nat>, onPath: set<nat>, done: set<nat>, node: nat)
    requires node in all && node !in onPath && node !in done
    ensures all - (onPath + {node}) - done < all - onPath - done
  {
    assert node in all - onPath - done;
  }

  lemma AboveNothing(c: nat)
    ensures !Above([], -1, c)
  {
  }

  lemma AbovePop(st: seq<Frame>, c: nat)
    requires st != [] && Above(st, -1, c)
    ensures c == st[|st| - 1].node || Above(st[..|st| - 1], -1, c)
  {
    var m :| -1 < m < |st| && st[m].node == c;
    assert m < |st| - 1 ==> st[..|st| - 1][m].node == c;
  }

  lemma AbovePush(st: seq<Frame>, r: seq<Frame>, c: nat)
    ensures Above(st, -1, c) ==> Above(st + r, -1, c)
    ensures r != [] && r[0].node == c ==> Above(st + r, -1, c)
  {
    if Above(st, -1, c) {
      var m :| -1 < m < |st| && st[m].node == c;
      assert (st + r)[m].node == c;
    }
    if r != [] { assert (st + r)[|st|] == r[0]; }
  }

  lemma LeaveGray(g: seq<nat>, node: nat)
    requires NoRepeats(g + [node])
    ensures NoRepeats(g) && node !in g
    ensures (set x | x in g + [node]) - {node} == (set x | x in g)
  {
    var all := g + [node];
    forall i | 0 <= i < |g| ensures g[i] != node { assert all[i] != all[|g|]; }
    forall i, j | 0 <= i < j < |g| ensures g[i] != g[j] { assert all[i] != all[j]; }
  }

  lemma EnterGray(g: seq<nat>, node: nat)
    requires NoRepeats(g) && node !in g
    ensures NoRepeats(g + [node])
    ensures (set x | x in g + [node]) == (set x | x in g) + {node}
  {
  }

  /** What the search keeps between two steps. */
  ghost predicate Searching(h: seq<Node>, root: nat, st: seq<Frame>, onPath: set<nat>, done: set<nat>,
                            trees: map<nat, Tree>)
  {
    && Stacked(h, root, st) && Covered(h, st, done) && Finished(h, done, trees)
    && NoRepeats(Gray(st)) && onPath == (set x | x in Gray(st)) && onPath !! done
    && (root in done || Above(st, -1, root))
  }

  lemma LeaveStep(h: seq<Node>, root: nat, st: seq<Frame>, onPath: set<nat>, done: set<nat>, trees: map<nat, Tree>)
    returns (t: Tree)
    requires WellFormed(h) && st != [] && Searching(h, root, st, onPath, done, trees) && st[|st| - 1].leaving
    ensures var n := st[|st| - 1].node;
            && n in onPath
            && Searching(h, root, st[..|st| - 1], onPath - {n}, done + {n}, trees[n := t])
  {
    hide Edge, Stacked, Gray, Covered, Above, Represents;
    var n := st[|st| - 1].node;
    PopStacked(h, root, st, done);
    if root !in done { AbovePop(st, root); }
    t := LeaveFinished(h, st, done, trees);
    LeaveKeeps(h, done, trees, n, t);
    LeaveGray(Gray(st[..|st| - 1]), n);
  }

  lemma SkipStep(h: seq<Node>, root: nat, st: seq<Frame>, onPath: set<nat>, done: set<nat>, trees: map<nat, Tree>)
    requires st != [] && Searching(h, root, st, onPath, done, trees)
    requires !st[|st| - 1].leaving && st[|st| - 1].node in done
    ensures Searching(h, root, st[..|st| - 1], onPath, done, trees)
  {
    hide Edge, Stacked, Gray, Covered, Above, Represents;
    PopStacked(h, root, st, done);
    if root !in done { AbovePop(st, root); }
    assert done + {st[|st| - 1].node} == done;
  }

  lemma EnterStep(h: seq<Node>, root: nat, st: seq<Frame>, onPath: set<nat>, done: set<nat>, trees: map<nat, Tree>)
    requires WellFormed(h) && st != [] && Searching(h, root, st, onPath, done, trees) && !st[|st| - 1].leaving
    ensures var n := st[|st| - 1].node;
            && n < |h|
            && (n !in onPath && n !in done ==>
                  Searching(h, root, st[..|st| - 1] + [Frame(n, true)] + ChildFrames(h[n]), onPath + {n}, done, trees))
            && (n in onPath ==> HasCycle(h, root))
  {
    hide Edge, Stacked, Gray, Covered, Above, Represents, HasCycle;
    var n, below := st[|st| - 1].node, st[..|st| - 1];
    PopStacked(h, root, st, done);
    if n in onPath {
      OnPathIsCycle(h, root, below, n);
    } else if n !in done {
      if root !in done { AbovePop(st, root); }
      PushCovered(h, below, done, n);
      PushStacked(h, root, below, Frame(n, true));
      PushChildren(h, root, below + [Frame(n, true)], n);
      AbovePush(below, [Frame(n, true)], root);
      AbovePush(below + [Frame(n, true)], ChildFrames(h[n]), root);
      EnterGray(Gray(below), n);
    }
  }

  /** Decides whether a node is its own ancestor; when none is, the root stands for a finite tree. */
  method TreeHasCycle(h: seq<Node>, root: nat) returns (r: bool, ghost t: Tree)
    requires WellFormed(h) && root < |h|
    ensures r <==> HasCycle(h, root)
    ensures !r ==> Represents(h, Some(root), t)
  {
    hide HasCycle, Searching, Represents;
    t := Leaf;
    var onPath: set<nat>, done: set<nat> := {}, {};
    var stack := [Frame(root, false)];
    ghost var trees: map<nat, Tree> := map[];
    SearchStarts(h, root);
    while stack != []
      invariant Searching(h, root, stack, onPath, done, trees)
      decreases Below(|h|) - onPath - done, |stack|
    {
      var top := |stack| - 1;
      var node, leaving := stack[top].node, stack[top].leaving;
      if leaving {
        ghost var u := LeaveStep(h, root, stack, onPath, done, trees);
        Recolour(Below(|h|), onPath, done, node);
        stack := stack[..top];
        onPath := onPath - {node};
        done := done + {node};
        trees := trees[node := u];
        continue;
      }
      if node in done {
        SkipStep(h, root, stack, onPath, done, trees);
        stack := stack[..top];
        continue;
      }
      EnterStep(h, root, stack, onPath, done, trees);
      if node in onPath { return true, t; }
      Paint(Below(|h|), onPath, done, node);
      ghost var entered := stack[..top] + [Frame(node, true)];
      onPath := onPath + {node};
      stack := stack[..top] + [Frame(node, true)];
      if h[node].right.Some? { stack := stack + [Frame(h[node].right.value, false)]; }
      if h[node].left.Some? { stack := stack + [Frame(h[node].left.value, false)]; }
      assert stack == entered + ChildFrames(h[node]);
    }
    t := SearchEnds(h, root, onPath, done, trees);
    TreeMeansNoCycle(h, root, t);
    r := false;
  }

  lemma SearchStarts(h: seq<Node>, root: nat)
    requires root < |h|
    ensures Searching(h, root, [Frame(root, false)], {}, {}, map[])
  {
    hide Edge, Stacked, Gray, Covered, Above;
    Starts(h, root);
  }

  lemma SearchEnds(h: seq<Node>, root: nat, onPath: set<nat>, done: set<nat>, trees: map<nat, Tree>) returns (t: Tree)
    requires Searching(h, root, [], onPath, done, trees)
    ensures Represents(h, Some(root), t)
  {
    AboveNothing(root);
    t := FinishedTree(h, done, trees, root);
  }
}
