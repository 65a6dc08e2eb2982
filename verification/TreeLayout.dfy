/** The layout of a drawn tree: one slot per leaf, a parent between its children or leaning off an only child. */
module TreeLayout {
  datatype Tree = Nil | Node(id: nat, left: Tree, right: Tree)

  /** Where the cursor stands after a subtree is placed. */
  function End(t: Tree, c: real, slot: real): real {
    match t
    case Nil => c
    case Node(_, l, r) =>
      if l.Node? && r.Node? then End(r, End(l, c, slot), slot)
      else if l.Node? then End(l, c, slot) + slot / 2.0
      else if r.Node? then End(r, c + slot / 2.0, slot)
      else c + slot
  }

  /** Where the right subtree starts; the left one starts where its parent does. */
  function RightStart(t: Tree, c: real, slot: real): real
    requires t.Node?
  {
    if t.left.Node? then End(t.left, c, slot) else c + slot / 2.0
  }

  function X(t: Tree, c: real, slot: real): real
    requires t.Node?
    decreases t
  {
    if t.left.Node? && t.right.Node? then
      (X(t.left, c, slot) + X(t.right, RightStart(t, c, slot), slot)) / 2.0
    else if t.left.Node? then X(t.left, c, slot) + slot / 2.0
    else if t.right.Node? then X(t.right, RightStart(t, c, slot), slot) - slot / 2.0
    else c + slot / 2.0
  }

  // ----- nodes by their path from the root: false goes left -----

  predicate HasNode(t: Tree, p: seq<bool>)
    decreases p
  {
    t.Node? && (p != [] ==> HasNode(if p[0] then t.right else t.left, p[1..]))
  }

  function At(t: Tree, c: real, slot: real, p: seq<bool>): real
    requires HasNode(t, p)
    decreases p
  {
    if p == [] then X(t, c, slot)
    else if p[0] then At(t.right, RightStart(t, c, slot), slot, p[1..])
    else At(t.left, c, slot, p[1..])
  }

  function IdAt(t: Tree, p: seq<bool>): nat
    requires HasNode(t, p)
    decreases p
  {
    if p == [] then t.id else IdAt(if p[0] then t.right else t.left, p[1..])
  }

  /** Left of, among nodes of one depth. */
  predicate Before(p: seq<bool>, q: seq<bool>)
    requires |p| == |q|
    decreases p
  {
    p != [] && (if p[0] == q[0] then Before(p[1..], q[1..]) else q[0])
  }

  lemma {:induction false} BeforeIsTotal(p: seq<bool>, q: seq<bool>)
    requires |p| == |q|
    ensures Before(p, q) || Before(q, p) || p == q
    decreases p
  {
    if p != [] && p[0] == q[0] {
      BeforeIsTotal(p[1..], q[1..]);
      assert p == [p[0]] + p[1..] && q == [q[0]] + q[1..];
    }
  }

  // ----- the claims -----

  lemma {:induction false} RootWithin(t: Tree, c: real, slot: real)
    requires t.Node? && slot > 0.0
    ensures c + slot / 2.0 <= X(t, c, slot) <= End(t, c, slot) - slot / 2.0
    decreases t
  {
    if t.left.Node? { RootWithin(t.left, c, slot); }
    if t.right.Node? { RootWithin(t.right, RightStart(t, c, slot), slot); }
  }

  /** A subtree keeps half a slot inside the stretch it is given. */
  lemma {:induction false} NodesWithin(t: Tree, c: real, slot: real, p: seq<bool>)
    requires HasNode(t, p) && slot > 0.0
    ensures c + slot / 2.0 <= At(t, c, slot, p) <= End(t, c, slot) - slot / 2.0
    decreases p
  {
    RootWithin(t, c, slot);
    if p != [] {
      if p[0] {
        NodesWithin(t.right, RightStart(t, c, slot), slot, p[1..]);
      } else {
        NodesWithin(t.left, c, slot, p[1..]);
      }
      if t.left.Node? { RootWithin(t.left, c, slot); }
      if t.right.Node? { RootWithin(t.right, RightStart(t, c, slot), slot); }
    }
  }

  /** Nodes of one depth stand in order, at least one slot apart. */
  lemma {:induction false} NodesApart(t: Tree, c: real, slot: real, p: seq<bool>, q: seq<bool>)
    requires HasNode(t, p) && HasNode(t, q) && |p| == |q| && Before(p, q) && slot > 0.0
    ensures At(t, c, slot, p) + slot <= At(t, c, slot, q)
    decreases p
  {
    if p[0] == q[0] {
      if p[0] {
        NodesApart(t.right, RightStart(t, c, slot), slot, p[1..], q[1..]);
      } else {
        NodesApart(t.left, c, slot, p[1..], q[1..]);
      }
    } else {
      NodesWithin(t.left, c, slot, p[1..]);
      NodesWithin(t.right, RightStart(t, c, slot), slot, q[1..]);
    }
  }

  /** An edge leans: each child stands at least half a slot to its own side of its parent, only children too. */
  lemma {:induction false} ChildrenLean(t: Tree, c: real, slot: real, p: seq<bool>, right: bool)
    requires HasNode(t, p + [right]) && slot > 0.0
    ensures HasNode(t, p)
    ensures right ==> At(t, c, slot, p + [right]) >= At(t, c, slot, p) + slot / 2.0
    ensures !right ==> At(t, c, slot, p + [right]) <= At(t, c, slot, p) - slot / 2.0
    decreases p
  {
    var q := p + [right];
    if p == [] {
      assert q[1..] == [];
      if t.left.Node? && t.right.Node? {
        RootWithin(t.left, c, slot);
        RootWithin(t.right, RightStart(t, c, slot), slot);
      }
    } else {
      assert q[0] == p[0] && q[1..] == p[1..] + [right];
      ChildrenLean(if p[0] then t.right else t.left, if p[0] then RightStart(t, c, slot) else c, slot, p[1..], right);
    }
  }

  // ----- the code -----

  /** Every node's place, by id; a parent is recorded after its children. */
  function Places(t: Tree, c: real, slot: real, depth: nat): map<nat, (real, nat)>
    decreases t
  {
    if t.Nil? then map[] else
      Places(t.left, c, slot, depth + 1) + Places(t.right, RightStart(t, c, slot), slot, depth + 1)
      + map[t.id := (X(t, c, slot), depth)]
  }

  lemma MapsJoin(a: map<nat, (real, nat)>, b: map<nat, (real, nat)>, c: map<nat, (real, nat)>, k: nat, v: (real, nat))
    ensures (a + b + c)[k := v] == a + (b + c + map[k := v])
    ensures a + map[] == a
  {
  }

  class Layout {
    const slot: real
    var cursor: real
    var at: map<nat, (real, nat)>

    constructor (slot: real)
      ensures this.slot == slot && cursor == 0.0 && at == map[]
    {
      this.slot := slot;
      cursor := 0.0;
      at := map[];
    }

    method Place(t: Tree, depth: nat) returns (x: real)
      requires t.Node?
      modifies this
      ensures x == X(t, old(cursor), slot) && cursor == End(t, old(cursor), slot)
      ensures at == old(at) + Places(t, old(cursor), slot, depth)
      decreases t
    {
      if t.left.Node? && t.right.Node? {
        var a := Place(t.left, depth + 1);
        var b := Place(t.right, depth + 1);
        x := (a + b) / 2.0;
      } else if t.left.Node? {
        var a := Place(t.left, depth + 1);
        cursor := cursor + slot / 2.0;
        x := a + slot / 2.0;
      } else if t.right.Node? {
        cursor := cursor + slot / 2.0;
        var b := Place(t.right, depth + 1);
        x := b - slot / 2.0;
      } else {
        x := cursor + slot / 2.0;
        cursor := cursor + slot;
      }
      MapsJoin(old(at), Places(t.left, old(cursor), slot, depth + 1),
        Places(t.right, RightStart(t, old(cursor), slot), slot, depth + 1), t.id, (x, depth));
      at := at[t.id := (x, depth)];
    }
  }

  predicate DistinctIds(t: Tree) {
    t.Node? ==>
      && DistinctIds(t.left) && DistinctIds(t.right)
      && t.id !in IdsOf(t.left) && t.id !in IdsOf(t.right) && IdsOf(t.left) !! IdsOf(t.right)
  }

  function IdsOf(t: Tree): set<nat> {
    if t.Nil? then {} else {t.id} + IdsOf(t.left) + IdsOf(t.right)
  }

  lemma {:induction false} PlacesKeys(t: Tree, c: real, slot: real, depth: nat)
    ensures Places(t, c, slot, depth).Keys == IdsOf(t)
    decreases t
  {
    if t.Node? {
      PlacesKeys(t.left, c, slot, depth + 1);
      PlacesKeys(t.right, RightStart(t, c, slot), slot, depth + 1);
    }
  }

  lemma {:induction false} IdIsOf(t: Tree, p: seq<bool>)
    requires HasNode(t, p)
    ensures IdAt(t, p) in IdsOf(t)
    decreases p
  {
    if p != [] { IdIsOf(if p[0] then t.right else t.left, p[1..]); }
  }

  /** With distinct ids, the map the layout returns gives each node its own place and depth. */
  lemma {:induction false} PlacesHold(t: Tree, c: real, slot: real, depth: nat, p: seq<bool>)
    requires HasNode(t, p) && DistinctIds(t)
    ensures IdAt(t, p) in Places(t, c, slot, depth)
    ensures Places(t, c, slot, depth)[IdAt(t, p)] == (At(t, c, slot, p), depth + |p|)
    decreases p
  {
    if p != [] {
      var rc := RightStart(t, c, slot);
      PlacesKeys(t.left, c, slot, depth + 1);
      PlacesKeys(t.right, rc, slot, depth + 1);
      IdIsOf(if p[0] then t.right else t.left, p[1..]);
      if p[0] {
        PlacesHold(t.right, rc, slot, depth + 1, p[1..]);
      } else {
        PlacesHold(t.left, c, slot, depth + 1, p[1..]);
      }
    }
  }

  /** A child stands at least half a slot to its own side. */
  predicate Leans(parent: real, child: real, right: bool, slot: real) {
    if right then child >= parent + slot / 2.0 else child <= parent - slot / 2.0
  }

  /** In the finished drawing, nodes of one depth are a slot apart and every edge leans to its side. */
  method LayoutTree(t: Tree, slot: real) returns (at: map<nat, (real, nat)>)
    requires DistinctIds(t) && slot > 0.0
    ensures forall p :: HasNode(t, p) ==> IdAt(t, p) in at && at[IdAt(t, p)].1 == |p|
    ensures forall p, q :: HasNode(t, p) && HasNode(t, q) && |p| == |q| && Before(p, q) ==>
              IdAt(t, p) in at && IdAt(t, q) in at && at[IdAt(t, p)].0 + slot <= at[IdAt(t, q)].0
    ensures forall p, right :: HasNode(t, p + [right]) ==>
              && IdAt(t, p + [right]) in at && HasNode(t, p) && IdAt(t, p) in at
              && Leans(at[IdAt(t, p)].0, at[IdAt(t, p + [right])].0, right, slot)
  {
    if t.Nil? { return map[]; }
    var layout := new Layout(slot);
    var x := layout.Place(t, 0);
    at := layout.at;
    forall p | HasNode(t, p)
      ensures IdAt(t, p) in at && at[IdAt(t, p)] == (At(t, 0.0, slot, p), |p|)
    {
      PlacesHold(t, 0.0, slot, 0, p);
    }
    forall p, q | HasNode(t, p) && HasNode(t, q) && |p| == |q| && Before(p, q)
      ensures At(t, 0.0, slot, p) + slot <= At(t, 0.0, slot, q)
    {
      NodesApart(t, 0.0, slot, p, q);
    }
    forall p, right | HasNode(t, p + [right])
      ensures HasNode(t, p) && Leans(At(t, 0.0, slot, p), At(t, 0.0, slot, p + [right]), right, slot)
    {
      ChildrenLean(t, 0.0, slot, p, right);
    }
  }
}
