/** The [values, pos] wire of a list whose last node may point back, and answers by node identity. */
module CyclicLists {
  import opened Arithmetic
  import opened Wrappers

  /** A list node. Python stamps the index it was built with on the node itself. */
  datatype Cell = Cell(val: int, next: Option<nat>, stamp: Option<nat>)

  datatype Wire = Empty | Wire(values: seq<int>, pos: int)

  /** A value an i32 field of a generated Rust node can hold. */
  predicate FitsI32(x: int) {
    -0x8000_0000 <= x < 0x8000_0000
  }

  predicate AllFitI32(s: seq<int>) {
    forall i :: 0 <= i < |s| ==> FitsI32(s[i])
  }

  predicate IsIndex(i: int, size: nat) {
    0 <= i < size
  }

  /** Python's indexing: a negative index counts from the end, any other is an error. */
  function PyIndex(size: nat, i: int): Option<nat> {
    if 0 <= i < size then Some(i) else if 0 - size <= i < 0 then Some(size + i) else None
  }

  /** Counting from the end gives the same place as counting from the start, and nothing else is a place. */
  lemma WrapsOnce(size: nat, i: int)
    ensures 0 <= i < size ==> PyIndex(size, i) == PyIndex(size, i - size) == Some(i)
    ensures PyIndex(size, i).Some? <==> 0 - size <= i < size
  {
  }

  /** The structure check made when a problem is loaded. */
  predicate WellFormed(w: Wire) {
    w.Wire? ==> w.pos == -1 || IsIndex(w.pos, |w.values|)
  }

  /** The nodes, numbered from `base`: a chain whose last node points to `back`. */
  function Chain(base: nat, values: seq<int>, back: Option<nat>): (c: seq<Cell>)
    ensures |c| == |values|
  {
    seq(|values|, i requires 0 <= i < |values| =>
      Cell(values[i], if i + 1 < |values| then Some(base + i + 1) else back, Some(i)))
  }

  lemma BackOfChain(base: nat, values: seq<int>, target: nat)
    requires values != []
    ensures var c, n := Chain(base, values, None), |values| - 1;
            c[n := c[n].(next := Some(target))] == Chain(base, values, Some(target))
  {
  }

  /** The index reached by `n` steps along `next` from the head of a list wired as [values, pos]. */
  function Visits(size: nat, pos: int, n: nat): Option<nat>
    requires pos == -1 || IsIndex(pos, size)
  {
    if n < size then Some(n)
    else if pos == -1 then None
    else Some(pos + (n - pos) % (size - pos))
  }

  function Step(cells: seq<Cell>, link: Option<nat>): Option<nat> {
    if link.None? || link.value >= |cells| then None else cells[link.value].next
  }

  function Steps(cells: seq<Cell>, link: Option<nat>, n: nat): Option<nat> {
    if n == 0 then link else Step(cells, Steps(cells, link, n - 1))
  }

  function Shifted(base: nat, i: Option<nat>): Option<nat> {
    if i.None? then None else Some(base + i.value)
  }

  /** The decoded nodes, followed from the head, are the list the wire describes: straight, or looping at `pos`. */
  lemma {:induction false} FollowsWire(cells: seq<Cell>, base: nat, values: seq<int>, pos: int, n: nat)
    requires values != [] && (pos == -1 || IsIndex(pos, |values|)) && base <= |cells|
    requires cells[base..] == Chain(base, values, if pos == -1 then None else Some(base + pos))
    ensures Steps(cells, Some(base), n) == Shifted(base, Visits(|values|, pos, n))
    decreases n
  {
    if n > 0 {
      FollowsWire(cells, base, values, pos, n - 1);
      var size := |values|;
      if n >= size && pos != -1 {
        if n == size { DivModUnique(size - 1 - pos, size - pos, 0, size - 1 - pos); }
        ModNext(n - 1 - pos, size - pos);
      }
      var at := Visits(size, pos, n - 1);
      assert at.Some? ==> at.value < size && cells[base + at.value] == cells[base..][at.value];
    }
  }

  /** The registry holds exactly the stamped nodes numbered below `limit`, each with its stamp. */
  ghost predicate Registered(cells: seq<Cell>, built: seq<(nat, nat)>, limit: nat)
    requires limit <= |cells|
  {
    && (forall k :: 0 <= k < |built| ==> built[k].0 < |cells| && cells[built[k].0].stamp == Some(built[k].1))
    && (forall n :: 0 <= n < limit && cells[n].stamp.Some? ==> (n, cells[n].stamp.value) in built)
  }

  lemma SameStamps(c: seq<Cell>, d: seq<Cell>, built: seq<(nat, nat)>, limit: nat)
    requires |c| == |d| && limit <= |c| && Registered(c, built, limit)
    requires forall k :: 0 <= k < |c| ==> c[k].stamp == d[k].stamp
    ensures Registered(d, built, limit)
  {
  }

  lemma UpdateSuffix(c: seq<Cell>, base: nat, last: nat, link: Option<nat>)
    requires base <= last < |c|
    ensures c[last] == c[base..][last - base]
    ensures var x := c[last].(next := link);
            && c[last := x] == c[..base] + c[base..][last - base := x]
            && forall k :: 0 <= k < |c| ==> c[last := x][k].stamp == c[k].stamp
  {
  }

  datatype Decoded = List(head: Option<nat>) | Refused

  /** The nodes built so far in one process, whichever lists they belong to. */
  class NodeStore {
    var cells: seq<Cell>
    // Rust's registry of every node a decoder built, with the index in its own list.
    var built: seq<(nat, nat)>

    ghost predicate Valid()
      reads this
    {
      Registered(cells, built, |cells|)
    }

    /** The nodes from `base` on are stamped, and only they are still to be registered. */
    ghost predicate Pending(base: nat)
      reads this
    {
      && base <= |cells| && Registered(cells, built, base)
      && forall i :: 0 <= i < |cells| - base ==> cells[base + i].stamp == Some(i)
    }

    constructor ()
      ensures Valid() && cells == [] && built == []
    {
      cells := [];
      built := [];
    }

    method Register(base: nat)
      requires Pending(base)
      modifies this`built
      ensures Valid()
    {
      for i := 0 to |cells| - base
        invariant Registered(cells, built, base + i)
      {
        assert cells[base + i].stamp == Some(i);
        ghost var before := built;
        built := built + [(base + i, i)];
        assert forall x :: x in before ==> x in built;
        assert built[|before|] == (base + i, i);
      }
    }

    /** Nodes for the values, each linked to the one after it. */
    method Link(values: seq<int>) returns (base: nat)
      requires Valid()
      modifies this`cells
      ensures Pending(base)
      ensures base == |old(cells)| && cells == old(cells) + Chain(base, values, None)
      ensures cells[base..] == Chain(base, values, None)
    {
      base := |cells|;
      for i := 0 to |values|
        invariant |cells| == base + i && cells[..base] == old(cells)
        invariant forall k :: base <= k < base + i ==> cells[k] == Cell(values[k - base], None, Some(k - base))
      {
        cells := cells + [Cell(values[i], None, Some(i))];
      }
      for i := 0 to |values|
        invariant |cells| == base + |values| && cells[..base] == old(cells)
        invariant forall k :: base <= k < base + i ==> cells[k] == Chain(base, values, None)[k - base]
        invariant forall k :: base + i <= k < base + |values| ==>
                    cells[k] == Cell(values[k - base], None, Some(k - base))
      {
        if i + 1 < |values| {
          cells := cells[base + i := cells[base + i].(next := Some(base + i + 1))];
        }
      }
      assert cells == cells[..base] + cells[base..];
      assert cells[base..] == Chain(base, values, None);
    }

    method PointBack(base: nat, values: seq<int>, target: nat)
      requires values != [] && |cells| == base + |values| && cells[base..] == Chain(base, values, None)
      modifies this`cells
      ensures cells == old(cells)[..base] + Chain(base, values, Some(target))
      ensures old(Valid()) ==> Valid()
      ensures old(Pending(base)) ==> Pending(base)
    {
      hide Chain, Registered;
      var last := base + |values| - 1;
      UpdateSuffix(cells, base, last, Some(target));
      BackOfChain(base, values, target);
      cells := cells[last := cells[last].(next := Some(target))];
      if old(Valid()) { SameStamps(old(cells), cells, built, |cells|); }
      if old(Pending(base)) { SameStamps(old(cells), cells, built, base); }
    }

    /** Python's decoder. */
    method BuildCyclicList(w: Wire) returns (r: Decoded)
      requires Valid()
      modifies this
      ensures Valid() && old(cells) <= cells
      ensures w.Empty? || w.values == [] ==> r == List(None) && cells == old(cells)
      ensures w.Wire? && w.values != [] ==>
                var base, n := |old(cells)|, |w.values|;
                var target := PyIndex(n, w.pos);
                if w.pos == -1 then r == List(Some(base)) && cells == old(cells) + Chain(base, w.values, None)
                else if target.None? then r == Refused
                else r == List(Some(base)) && cells == old(cells) + Chain(base, w.values, Some(base + target.value))
    {
      hide Chain, Registered, Pending;
      if w.Empty? { return List(None); }
      var base := Link(w.values);
      Register(base);
      if w.values != [] && w.pos != -1 {
        var target := PyIndex(|w.values|, w.pos);
        if target.None? { return Refused; }
        PointBack(base, w.values, base + target.value);
      }
      r := List(if w.values != [] then Some(base) else None);
    }

    /** Rust's decoder. */
    method DecodeCyclic(w: Wire) returns (r: Decoded)
      requires Valid()
      modifies this
      ensures r.List? ==> Valid()
      ensures r.List? <==> w.Empty? || (AllFitI32(w.values) && WellFormed(w))
      ensures r.List? && (w.Empty? || w.values == []) ==> r == List(None) && cells == old(cells)
      ensures r.List? && w.Wire? && w.values != [] ==>
                var base := |old(cells)|;
                && r == List(Some(base))
                && cells == old(cells) + Chain(base, w.values, if w.pos == -1 then None else Some(base + w.pos))
    {
      hide Chain, Registered, Pending;
      if w.Empty? { return List(None); }
      if !AllFitI32(w.values) { return Refused; }
      var base := Link(w.values);
      if w.pos != -1 {
        if !(0 <= w.pos < |w.values|) { return Refused; }
        PointBack(base, w.values, base + w.pos);
      }
      Register(base);
      r := List(if w.values != [] then Some(base) else None);
    }

    /** A node made by the solution itself carries no stamp. */
    method MakeNode(val: int, next: Option<nat>) returns (n: nat)
      requires Valid()
      modifies this`cells
      ensures Valid() && n == |old(cells)| && cells == old(cells) + [Cell(val, next, None)]
    {
      n := |cells|;
      cells := cells + [Cell(val, next, None)];
    }

    /** Python's answer for a returned node. */
    function EncodeByStamp(n: nat): Option<nat>
      requires n < |cells|
      reads this
    {
      cells[n].stamp
    }

    /** Rust's answer: the first registered node that is this very node. Both answers are the same. */
    method EncodeByRegistry(n: nat) returns (r: Option<nat>)
      requires Valid() && n < |cells|
      ensures r == EncodeByStamp(n)
    {
      for k := 0 to |built|
        invariant forall j :: 0 <= j < k ==> built[j].0 != n
      {
        if built[k].0 == n { return Some(built[k].1); }
      }
      r := None;
    }
  }

  /** A wire that passes the checks made when a problem is loaded is the same list in both languages. */
  method LoadedWireAgrees(w: Wire)
    returns (python: Decoded, rust: Decoded, pythonCells: seq<Cell>, rustCells: seq<Cell>)
    requires WellFormed(w) && (w.Wire? ==> AllFitI32(w.values))
    ensures python == rust && python.List? && pythonCells == rustCells
  {
    hide Chain;
    var p := new NodeStore();
    var r := new NodeStore();
    python := p.BuildCyclicList(w);
    rust := r.DecodeCyclic(w);
    pythonCells, rustCells := p.cells, r.cells;
  }
}
