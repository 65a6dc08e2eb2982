/** The Python harness's iterative nesting check, and that it refuses exactly the answers the Rust parser does. */
module JsonDepth {
  import opened Arithmetic
  import opened JsonParsing
  import opened JsonRoundTrip
  import opened JsonText
  import opened JsonValues

  const MAX_NESTING := 511

  datatype Pending = Pending(value: Json, depth: nat)

  predicate IsContainer(j: Json) {
    j.Arr? || j.Obj?
  }

  function Children(j: Json): seq<Json>
    requires IsContainer(j)
  {
    if j.Arr? then j.items else seq(|j.fields|, i requires 0 <= i < |j.fields| => j.fields[i].value)
  }

  function Containers(children: seq<Json>, depth: nat): seq<Pending> {
    if children == [] then []
    else (if IsContainer(children[0]) then [Pending(children[0], depth)] else []) + Containers(children[1..], depth)
  }

  // ----- the deepest value and how many containers there are -----

  lemma {:induction false} ItemsDeeper(items: seq<Json>, k: nat)
    ensures ItemsDepth(items) > k <==> exists i :: 0 <= i < |items| && Depth(items[i]) > k
  {
    if items != [] {
      ItemsDeeper(items[1..], k);
      if ItemsDepth(items[1..]) > k {
        var i :| 0 <= i < |items[1..]| && Depth(items[1..][i]) > k;
        assert Depth(items[i + 1]) > k;
      }
      if i :| 0 < i < |items| && Depth(items[i]) > k {
        assert items[1..][i - 1] == items[i];
      }
    }
  }

  lemma {:induction false} FieldsAsItems(fields: seq<Field>)
    ensures FieldsDepth(fields) == ItemsDepth(Children(Obj(fields)))
  {
    if fields != [] {
      FieldsAsItems(fields[1..]);
      assert Children(Obj(fields))[1..] == Children(Obj(fields[1..]));
    }
  }

  lemma ContainerDepth(j: Json)
    requires IsContainer(j)
    ensures var c := Children(j); Depth(j) == if c == [] then 0 else 1 + ItemsDepth(c)
  {
    if j.Obj? {
      FieldsAsItems(j.fields);
    }
  }

  function Size(j: Json): nat
    decreases j, 0
  {
    match j
    case Arr(items) => 1 + ItemsSize(items)
    case Obj(fields) => 1 + FieldsSize(fields)
    case _ => 0
  }

  function ItemsSize(items: seq<Json>): nat {
    if items == [] then 0 else Size(items[0]) + ItemsSize(items[1..])
  }

  function FieldsSize(fields: seq<Field>): nat {
    if fields == [] then 0 else Size(fields[0].value) + FieldsSize(fields[1..])
  }

  lemma {:induction false} FieldsSizeAsItems(fields: seq<Field>)
    ensures FieldsSize(fields) == ItemsSize(Children(Obj(fields)))
  {
    if fields != [] {
      FieldsSizeAsItems(fields[1..]);
      assert Children(Obj(fields))[1..] == Children(Obj(fields[1..]));
    }
  }

  function TotalSize(todo: seq<Pending>): nat {
    if todo == [] then 0 else Size(todo[0].value) + TotalSize(todo[1..])
  }

  lemma {:induction false} TotalSizeConcat(a: seq<Pending>, b: seq<Pending>)
    ensures TotalSize(a + b) == TotalSize(a) + TotalSize(b)
  {
    if a == [] {
      assert a + b == b;
    } else {
      assert (a + b)[1..] == a[1..] + b;
      TotalSizeConcat(a[1..], b);
    }
  }

  lemma {:induction false} ContainersSize(children: seq<Json>, depth: nat)
    ensures TotalSize(Containers(children, depth)) == ItemsSize(children)
  {
    if children != [] {
      ContainersSize(children[1..], depth);
      if IsContainer(children[0]) {
        assert Containers(children, depth)[1..] == Containers(children[1..], depth);
      } else {
        assert Containers(children, depth) == Containers(children[1..], depth);
      }
    }
  }

  // ----- what is still to be found out -----

  predicate TooDeep(p: Pending, limit: nat) {
    p.depth + Depth(p.value) > limit
  }

  predicate SomeTooDeep(todo: seq<Pending>, limit: nat) {
    exists i :: 0 <= i < |todo| && TooDeep(todo[i], limit)
  }

  lemma {:induction false} SomeTooDeepConcat(a: seq<Pending>, b: seq<Pending>, limit: nat)
    ensures SomeTooDeep(a + b, limit) <==> SomeTooDeep(a, limit) || SomeTooDeep(b, limit)
  {
    if i :| 0 <= i < |a| && TooDeep(a[i], limit) {
      assert TooDeep((a + b)[i], limit);
    }
    if i :| 0 <= i < |b| && TooDeep(b[i], limit) {
      assert TooDeep((a + b)[|a| + i], limit);
    }
  }

  lemma {:induction false} ContainersTooDeep(children: seq<Json>, depth: nat, limit: nat)
    requires depth <= limit
    ensures SomeTooDeep(Containers(children, depth), limit) <==> depth + ItemsDepth(children) > limit
  {
    if children != [] {
      ContainersTooDeep(children[1..], depth, limit);
      var first := if IsContainer(children[0]) then [Pending(children[0], depth)] else [];
      SomeTooDeepConcat(first, Containers(children[1..], depth), limit);
      if IsContainer(children[0]) && TooDeep(first[0], limit) {
        assert SomeTooDeep(first, limit);
      }
    }
  }

  predicate AllPending(todo: seq<Pending>, limit: nat) {
    forall i :: 0 <= i < |todo| ==> IsContainer(todo[i].value) && todo[i].depth <= limit
  }

  lemma {:induction false} ContainersPending(children: seq<Json>, depth: nat, limit: nat)
    requires depth <= limit
    ensures AllPending(Containers(children, depth), limit)
  {
    if children != [] {
      ContainersPending(children[1..], depth, limit);
    }
  }

  /** `_nests_too_deeply`. */
  method NestsTooDeeply(value: Json, limit: nat) returns (r: bool)
    ensures r <==> Depth(value) > limit
  {
    var todo := if IsContainer(value) then [Pending(value, 0)] else [];
    while todo != []
      invariant AllPending(todo, limit)
      invariant Depth(value) > limit <==> SomeTooDeep(todo, limit)
      decreases TotalSize(todo)
    {
      var Pending(node, depth) := todo[|todo| - 1];
      var rest := todo[..|todo| - 1];
      assert todo == rest + [Pending(node, depth)];
      var children := Children(node);
      ContainerDepth(node);
      if depth + 1 > limit && children != [] {
        assert TooDeep(todo[|todo| - 1], limit);
        return true;
      }
      var more := Containers(children, depth + 1);
      SearchStep(rest, node, depth, limit);
      todo := rest + more;
    }
    return false;
  }

  lemma StepShrinks(rest: seq<Pending>, node: Json, depth: nat)
    requires IsContainer(node)
    ensures TotalSize(rest + Containers(Children(node), depth + 1)) < TotalSize(rest + [Pending(node, depth)])
  {
    var children := Children(node);
    ContainersSize(children, depth + 1);
    if node.Obj? {
      FieldsSizeAsItems(node.fields);
    }
    TotalSizeConcat(rest, Containers(children, depth + 1));
    TotalSizeConcat(rest, [Pending(node, depth)]);
  }

  /** Replacing a container by its containers one level down keeps the answer and shrinks the work. */
  lemma SearchStep(rest: seq<Pending>, node: Json, depth: nat, limit: nat)
    requires IsContainer(node) && AllPending(rest, limit) && depth <= limit
    requires depth + 1 <= limit || Children(node) == []
    ensures var more := Containers(Children(node), depth + 1);
            && AllPending(rest + more, limit)
            && (SomeTooDeep(rest + more, limit) <==> SomeTooDeep(rest + [Pending(node, depth)], limit))
            && TotalSize(rest + more) < TotalSize(rest + [Pending(node, depth)])
  {
    var children := Children(node);
    var last := [Pending(node, depth)];
    var more := Containers(children, depth + 1);
    hide TotalSize, Size;
    ContainerDepth(node);
    StepShrinks(rest, node, depth);
    SomeTooDeepConcat(rest, more, limit);
    SomeTooDeepConcat(rest, last, limit);
    assert SomeTooDeep(last, limit) <==> TooDeep(last[0], limit);
    if depth + 1 <= limit {
      ContainersPending(children, depth + 1, limit);
      ContainersTooDeep(children, depth + 1, limit);
    }
  }

  /** The result object a Rust child reports an answer in. */
  function ResultObject(v: Json): Json {
    Obj([Field("ok", v)])
  }

  /** Both languages refuse the same answers: past 511 levels, exactly when the child's report cannot be parsed. */
  lemma SameDepthRefused(v: Json)
    requires Valid(v)
    ensures Parse(Dump(ResultObject(v))).Done? <==> Depth(v) <= MAX_NESTING
  {
    var fields := [Field("ok", v)];
    ParseOfDump(ResultObject(v));
    assert fields[1..] == [];
    assert FieldsDepth(fields) == Max(Depth(v), FieldsDepth(fields[1..]));
  }
}
