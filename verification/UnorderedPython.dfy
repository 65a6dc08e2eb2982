/** The Python harness's equality, hashable keys and order-insensitive comparison. */
module UnorderedPython {
  import opened Floats
  import opened JsonRoundTrip
  import opened JsonValues
  import opened Permutations
  import opened Unordered
  import opened Wrappers

  predicate NanFree(j: Json) {
    match j
    case Num(x) => !x.NaN?
    case Arr(items) => forall i :: 0 <= i < |items| ==> NanFree(items[i])
    case Obj(fields) => forall i :: 0 <= i < |fields| ==> NanFree(fields[i].value)
    case _ => true
  }

  // ----- the values Python reads -----

  /** Floats are binary64 and keys are distinct; integers have no bounds. */
  predicate PyValid(j: Json) {
    match j
    case Num(x) => IsDouble(x)
    case Arr(items) => forall i :: 0 <= i < |items| ==> PyValid(items[i])
    case Obj(fields) => KeysAscend(fields) && forall i :: 0 <= i < |fields| ==> PyValid(fields[i].value)
    case _ => true
  }

  type PyJson = j: Json | PyValid(j) witness Null

  lemma {:induction false} ValidIsPyValid(j: Json)
    requires Valid(j)
    ensures PyValid(j)
  {
    hide IsDouble, KeysAscend;
    match j {
      case Arr(items) =>
        forall i | 0 <= i < |items| ensures PyValid(items[i]) { ValidIsPyValid(items[i]); }
      case Obj(fields) =>
        forall i | 0 <= i < |fields| ensures PyValid(fields[i].value) { ValidIsPyValid(fields[i].value); }
      case _ =>
    }
  }

  /** Every float that is a whole number, however large, becomes that integer. */
  function Exact(j: Json): Json
    decreases j, 0
  {
    match j
    case Num(x) => if (x.NegZero? || x.Fin?) && IsWhole(Value(x)) then Int(Value(x).Floor) else j
    case Arr(items) => Arr(ExactItems(items))
    case Obj(fields) => Obj(ExactFields(fields))
    case _ => j
  }

  function ExactItems(items: seq<Json>): (r: seq<Json>)
    ensures |r| == |items| && forall i :: 0 <= i < |items| ==> r[i] == Exact(items[i])
  {
    if items == [] then [] else [Exact(items[0])] + ExactItems(items[1..])
  }

  function ExactFields(fields: seq<Field>): (r: seq<Field>)
    ensures |r| == |fields|
    ensures forall i :: 0 <= i < |fields| ==> r[i] == Field(fields[i].key, Exact(fields[i].value))
  {
    if fields == [] then []
    else [Field(fields[0].key, Exact(fields[0].value))] + ExactFields(fields[1..])
  }

  /** Equal by value, whatever the size of the integers; NaN is the same as NaN. */
  predicate Same(a: Json, b: Json) {
    Equal(Exact(a), Exact(b))
  }

  lemma SameLists(a: seq<Json>, b: seq<Json>)
    ensures Same(Arr(a), Arr(b)) <==> |a| == |b| && forall i :: 0 <= i < |a| ==> Same(a[i], b[i])
  {
  }

  lemma SameObjects(a: seq<Field>, b: seq<Field>)
    ensures Same(Obj(a), Obj(b)) <==>
              |a| == |b| && forall i :: 0 <= i < |a| ==> a[i].key == b[i].key && Same(a[i].value, b[i].value)
  {
  }

  /** On i64 integers that is Rust's equality. */
  lemma {:induction false} SameIsEqual(a: Json, b: Json)
    requires Valid(a) && Valid(b)
    ensures Same(a, b) <==> Equal(a, b)
    decreases a
  {
    hide Same, IsDouble, KeysAscend;
    if a.Arr? && b.Arr? {
      SameLists(a.items, b.items);
      if |a.items| == |b.items| {
        forall i | 0 <= i < |a.items| ensures Same(a.items[i], b.items[i]) <==> Equal(a.items[i], b.items[i]) {
          SameIsEqual(a.items[i], b.items[i]);
        }
      }
    } else if a.Obj? && b.Obj? {
      SameObjects(a.fields, b.fields);
      if |a.fields| == |b.fields| {
        forall i | 0 <= i < |a.fields|
          ensures Same(a.fields[i].value, b.fields[i].value) <==> Equal(a.fields[i].value, b.fields[i].value)
        {
          SameIsEqual(a.fields[i].value, b.fields[i].value);
        }
      }
    } else {
      KindsSame(a, b);
    }
  }

  lemma KindsSame(a: Json, b: Json)
    requires Valid(a) && Valid(b) && !(a.Arr? && b.Arr?) && !(a.Obj? && b.Obj?)
    ensures Same(a, b) <==> Equal(a, b)
  {
    hide IsDouble;
  }

  // ----- equality -----

  /** Python's `==` on what `_json_equal` leaves to it: numbers by exact value, strings and None. */
  predicate PlainEqual(a: Json, b: Json) {
    match (a, b)
    case (Null, Null) => true
    case (Str(x), Str(y)) => x == y
    case (Int(x), Int(y)) => x == y
    case (Num(x), Num(y)) => FloatEq(x, y)
    case (Int(x), Num(y)) => (y.NegZero? || y.Fin?) && Value(y) == x as real
    case (Num(x), Int(y)) => (x.NegZero? || x.Fin?) && Value(x) == y as real
    case _ => false
  }

  function KeySet(fields: seq<Field>): set<string> {
    set i | 0 <= i < |fields| :: fields[i].key
  }

  function Lookup(fields: seq<Field>, key: string): Option<Json> {
    if fields == [] then None
    else if fields[0].key == key then Some(fields[0].value)
    else Lookup(fields[1..], key)
  }

  /** `_json_equal`. */
  predicate PyEqual(a: Json, b: Json) {
    if a.Bool? || b.Bool? then a.Bool? && b.Bool? && a.b == b.b
    else if a.Arr? && b.Arr? then
      |a.items| == |b.items| && forall i :: 0 <= i < |a.items| ==> PyEqual(a.items[i], b.items[i])
    else if a.Obj? && b.Obj? then
      && KeySet(a.fields) == KeySet(b.fields)
      && forall i :: 0 <= i < |a.fields| ==>
           var other := Lookup(b.fields, a.fields[i].key);
           other.Some? && PyEqual(a.fields[i].value, other.value)
    else PlainEqual(a, b)
  }

  lemma {:induction false} LookupAt(fields: seq<Field>, i: nat)
    requires KeysAscend(fields) && i < |fields|
    ensures Lookup(fields, fields[i].key) == Some(fields[i].value)
  {
    if i > 0 {
      LessAsymmetric(fields[0].key, fields[i].key);
      LookupAt(fields[1..], i - 1);
    }
  }

  lemma FirstKeyLeast(x: seq<Field>, y: seq<Field>)
    requires KeysAscend(x) && KeysAscend(y) && KeySet(x) == KeySet(y) && x != [] && y != []
    ensures LessEq(x[0].key, y[0].key)
  {
    assert y[0].key in KeySet(x);
    var i :| 0 <= i < |x| && x[i].key == y[0].key;
  }

  /** Objects with the same keys list them in the same order. */
  lemma {:induction false} SameKeySets(x: seq<Field>, y: seq<Field>)
    requires KeysAscend(x) && KeysAscend(y) && KeySet(x) == KeySet(y)
    ensures |x| == |y| && forall i :: 0 <= i < |x| ==> x[i].key == y[i].key
  {
    NoKeys(x);
    NoKeys(y);
    if x != [] && y != [] {
      FirstKeyLeast(x, y);
      FirstKeyLeast(y, x);
      if x[0].key != y[0].key {
        LessAsymmetric(x[0].key, y[0].key);
      }
      TailKeys(x);
      TailKeys(y);
      SameKeySets(x[1..], y[1..]);
      forall i | 0 <= i < |x| ensures x[i].key == y[i].key {
        if i > 0 {
          assert x[1..][i - 1].key == y[1..][i - 1].key;
        }
      }
    }
  }

  lemma NoKeys(x: seq<Field>)
    ensures KeySet(x) == {} <==> x == []
  {
    if x != [] {
      assert x[0].key in KeySet(x);
    }
  }

  lemma TailKeys(x: seq<Field>)
    requires KeysAscend(x) && x != []
    ensures KeySet(x[1..]) == KeySet(x) - {x[0].key}
  {
    forall k | k in KeySet(x[1..]) ensures k in KeySet(x) - {x[0].key} {
      var i :| 0 <= i < |x[1..]| && x[1..][i].key == k;
      assert x[i + 1].key == k;
      LessAsymmetric(x[0].key, x[i + 1].key);
    }
    forall k | k in KeySet(x) - {x[0].key} ensures k in KeySet(x[1..]) {
      var i :| 0 <= i < |x| && x[i].key == k;
      assert x[1..][i - 1].key == k;
    }
  }

  lemma SameKeysSameSet(x: seq<Field>, y: seq<Field>)
    requires |x| == |y| && forall i :: 0 <= i < |x| ==> x[i].key == y[i].key
    ensures KeySet(x) == KeySet(y)
  {
  }

  /** Python's equality is by value, except that NaN differs from itself. */
  lemma {:induction false} PyEqualIsSame(a: Json, b: Json)
    requires PyValid(a) && PyValid(b)
    ensures PyEqual(a, b) <==> Same(a, b) && NanFree(a)
    decreases a
  {
    hide Same, IsDouble, KeysAscend, KeySet, Lookup;
    if a.Arr? && b.Arr? {
      SameLists(a.items, b.items);
      if |a.items| == |b.items| {
        forall i | 0 <= i < |a.items|
          ensures PyEqual(a.items[i], b.items[i]) <==> Same(a.items[i], b.items[i]) && NanFree(a.items[i])
        {
          PyEqualIsSame(a.items[i], b.items[i]);
        }
      }
    } else if a.Obj? && b.Obj? {
      PyObjectsEqual(a.fields, b.fields);
    } else {
      PyScalarsEqual(a, b);
    }
  }

  lemma PyScalarsEqual(a: Json, b: Json)
    requires PyValid(a) && PyValid(b) && !(a.Arr? && b.Arr?) && !(a.Obj? && b.Obj?)
    ensures PyEqual(a, b) <==> Same(a, b) && NanFree(a)
  {
    hide IsDouble;
  }

  lemma {:induction false} PyObjectsEqual(x: seq<Field>, y: seq<Field>)
    requires PyValid(Obj(x)) && PyValid(Obj(y))
    ensures PyEqual(Obj(x), Obj(y)) <==> Same(Obj(x), Obj(y)) && NanFree(Obj(x))
    decreases x
  {
    hide Same, IsDouble, KeysAscend, KeySet, Lookup;
    SameObjects(x, y);
    if KeySet(x) == KeySet(y) {
      SameKeySets(x, y);
    }
    if |x| == |y| && forall i :: 0 <= i < |x| ==> x[i].key == y[i].key {
      SameKeysSameSet(x, y);
      forall i | 0 <= i < |x|
        ensures Lookup(y, x[i].key) == Some(y[i].value)
        ensures PyEqual(x[i].value, y[i].value) <==> Same(x[i].value, y[i].value) && NanFree(x[i].value)
      {
        LookupAt(y, i);
        PyEqualIsSame(x[i].value, y[i].value);
      }
    }
  }

  /** On i64 integers it is Rust's equality, except for NaN. */
  lemma PyEqualIsEqual(a: Json, b: Json)
    requires Valid(a) && Valid(b)
    ensures PyEqual(a, b) <==> Equal(a, b) && NanFree(a)
  {
    hide *;
    ValidIsPyValid(a);
    ValidIsPyValid(b);
    PyEqualIsSame(a, b);
    SameIsEqual(a, b);
  }

  lemma {:induction false} ExactNanFree(j: Json)
    ensures NanFree(Exact(j)) <==> NanFree(j)
  {
    match j {
      case Arr(items) =>
        forall i | 0 <= i < |items| ensures NanFree(ExactItems(items)[i]) <==> NanFree(items[i]) {
          ExactNanFree(items[i]);
        }
      case Obj(fields) =>
        forall i | 0 <= i < |fields| ensures NanFree(ExactFields(fields)[i].value) <==> NanFree(fields[i].value) {
          ExactNanFree(fields[i].value);
        }
      case _ =>
    }
  }

  /** Equal values hold NaN in the same places. */
  lemma {:induction false} EqualNanFree(a: Json, b: Json)
    requires Equal(a, b)
    ensures NanFree(a) <==> NanFree(b)
    decreases a
  {
    if a.Arr? {
      forall i | 0 <= i < |a.items| ensures NanFree(a.items[i]) <==> NanFree(b.items[i]) {
        EqualNanFree(a.items[i], b.items[i]);
      }
    } else if a.Obj? {
      forall i | 0 <= i < |a.fields| ensures NanFree(a.fields[i].value) <==> NanFree(b.fields[i].value) {
        EqualNanFree(a.fields[i].value, b.fields[i].value);
      }
    }
  }

  // ----- hashable keys -----

  /**
    * What a `Counter` counts. Two keys are equal there exactly when they are the same here: it looks for the
    * same object first, and every NaN that `json.loads` reads is one object.
    */
  datatype PyKey =
    | KTag
    | KNone
    | KNumber(v: real)
    | KInf(neg: bool)
    | KNan
    | KStr(s: string)
    | KTuple(items: seq<PyKey>)

  /** `_hashable_key`; an object anywhere inside makes it unhashable. A bool is tagged, for `True == 1` in Python. */
  function HashableKey(j: Json): Option<PyKey>
    decreases j, 0
  {
    match j
    case Null => Some(KNone)
    case Bool(b) => Some(KTuple([KTag, KNumber(if b then 1.0 else 0.0)]))
    case Int(n) => Some(KNumber(n as real))
    case Num(x) =>
      Some(match x {
             case NaN => KNan
             case Inf(neg) => KInf(neg)
             case _ => KNumber(Value(x))
           })
    case Str(s) => Some(KStr(s))
    case Arr(items) => var keys := HashableKeys(items); if keys.Some? then Some(KTuple(keys.value)) else None
    case Obj(_) => None
  }

  function HashableKeys(items: seq<Json>): (r: Option<seq<PyKey>>)
    ensures r.Some? ==> |r.value| == |items|
    ensures r.Some? ==> forall i :: 0 <= i < |items| ==> HashableKey(items[i]) == Some(r.value[i])
  {
    if items == [] then Some([])
    else
      var k := HashableKey(items[0]);
      var ks := HashableKeys(items[1..]);
      if k.None? || ks.None? then None else Some([k.value] + ks.value)
  }

  /** No JSON value has the bool tag itself for a key. */
  lemma NotTag(j: Json)
    ensures HashableKey(j) != Some(KTag)
  {
  }

  lemma {:induction false} KeyIsExact(a: Json, b: Json)
    requires HashableKey(a).Some? && HashableKey(b).Some?
    ensures HashableKey(a) == HashableKey(b) <==> Same(a, b)
    decreases a
  {
    if a.Arr? && b.Arr? {
      hide Same;
      SameLists(a.items, b.items);
      var ka, kb := HashableKeys(a.items).value, HashableKeys(b.items).value;
      if |a.items| == |b.items| {
        forall i | 0 <= i < |a.items|
          ensures ka[i] == kb[i] <==> Same(a.items[i], b.items[i])
        {
          KeyIsExact(a.items[i], b.items[i]);
        }
        assert ka == kb <==> forall i :: 0 <= i < |a.items| ==> ka[i] == kb[i];
      }
    } else if a.Arr? {
      TupleIsNotScalar(a.items, b);
    } else if b.Arr? {
      TupleIsNotScalar(b.items, a);
    }
  }

  lemma TupleIsNotScalar(items: seq<Json>, j: Json)
    requires !j.Arr? && HashableKeys(items).Some?
    ensures HashableKey(j) != HashableKey(Arr(items))
  {
    if j.Bool? && |items| == 2 {
      NotTag(items[0]);
      assert HashableKey(items[0]) == Some(HashableKeys(items).value[0]);
    }
  }

  // ----- the comparison -----

  /** The first candidate equal to `item`. */
  function FirstEqual(remaining: seq<Json>, item: Json): (at: Option<nat>)
    ensures at.Some? ==> at.value < |remaining| && PyEqual(remaining[at.value], item)
    ensures at.None? ==> forall k :: 0 <= k < |remaining| ==> !PyEqual(remaining[k], item)
  {
    if remaining == [] then None
    else if PyEqual(remaining[0], item) then Some(0)
    else
      var at := FirstEqual(remaining[1..], item);
      if at.None? then None else Some(at.value + 1)
  }

  /** Removing each item of `a` in turn from what is left of `b`, its first equal there. */
  predicate RemovesAll(a: seq<Json>, b: seq<Json>) {
    a == [] ||
    var at := FirstEqual(b, a[0]);
    at.Some? && RemovesAll(a[1..], Without(b, at.value))
  }

  /** The answer of `_multiset_equal`. */
  predicate PyUnordered(a: Json, b: Json) {
    if !a.Arr? || !b.Arr? then PyEqual(a, b)
    else if |a.items| != |b.items| then false
    else
      var ka, kb := HashableKeys(a.items), HashableKeys(b.items);
      if ka.Some? && kb.Some? then multiset(ka.value) == multiset(kb.value) else RemovesAll(a.items, b.items)
  }

  method FindEqual(remaining: seq<Json>, item: Json) returns (at: Option<nat>)
    ensures at == FirstEqual(remaining, item)
  {
    hide PyEqual;
    for k := 0 to |remaining|
      invariant FirstEqual(remaining, item)
             == var at := FirstEqual(remaining[k..], item); if at.None? then None else Some(at.value + k)
    {
      assert remaining[k..][1..] == remaining[k + 1..];
      if PyEqual(remaining[k], item) {
        return Some(k);
      }
    }
    return None;
  }

  /** The O(n^2) fallback. */
  method RemoveEach(a: seq<Json>, b: seq<Json>) returns (r: bool)
    requires |a| == |b|
    ensures r <==> RemovesAll(a, b)
  {
    hide FirstEqual, Without;
    var remaining := b;
    for i := 0 to |a|
      invariant |remaining| == |a| - i
      invariant RemovesAll(a, b) <==> RemovesAll(a[i..], remaining)
    {
      assert a[i..][1..] == a[i + 1..];
      var at := FindEqual(remaining, a[i]);
      if at.None? {
        return false;
      }
      remaining := Without(remaining, at.value);
    }
    return true;
  }

  /** `_multiset_equal`. */
  method PyMultisetEqual(a: Json, b: Json) returns (r: bool)
    ensures r <==> PyUnordered(a, b)
  {
    hide PyEqual, HashableKeys, RemovesAll;
    if !a.Arr? || !b.Arr? {
      return PyEqual(a, b);
    }
    if |a.items| != |b.items| {
      return false;
    }
    var ka, kb := HashableKeys(a.items), HashableKeys(b.items);
    if ka.Some? && kb.Some? {
      return multiset(ka.value) == multiset(kb.value);
    }
    r := RemoveEach(a.items, b.items);
  }

  // ----- what the comparison decides -----

  predicate AllPyValid(items: seq<Json>) {
    forall i :: 0 <= i < |items| ==> PyValid(items[i])
  }

  predicate AllNanFree(items: seq<Json>) {
    forall i :: 0 <= i < |items| ==> NanFree(items[i])
  }

  /** What two items share exactly when they are the same by value. */
  function SameKeys(items: seq<Json>): (r: seq<Json>)
    ensures |r| == |items| && forall i :: 0 <= i < |items| ==> r[i] == Normal(Exact(items[i]))
  {
    NormalItems(ExactItems(items))
  }

  /** Without NaN in it, an item's equals are those with its key; with NaN it has none. */
  lemma EqualByKey(remaining: seq<Json>, item: Json)
    requires AllPyValid(remaining) && PyValid(item)
    ensures forall k :: 0 <= k < |remaining| ==>
              (PyEqual(remaining[k], item) <==> SameKeys(remaining)[k] == Normal(Exact(item)) && NanFree(item))
  {
    hide PyEqual, Equal, Normal, NanFree, PyValid, Exact, SameKeys;
    forall k | 0 <= k < |remaining|
      ensures PyEqual(remaining[k], item) <==> SameKeys(remaining)[k] == Normal(Exact(item)) && NanFree(item)
    {
      PyEqualIsSame(remaining[k], item);
      EqualIffSameNormal(Exact(remaining[k]), Exact(item));
      if Same(remaining[k], item) {
        EqualNanFree(Exact(remaining[k]), Exact(item));
        ExactNanFree(remaining[k]);
        ExactNanFree(item);
      }
    }
  }

  lemma KeysWithout(items: seq<Json>, j: nat)
    requires j < |items|
    ensures SameKeys(Without(items, j)) == Without(SameKeys(items), j)
  {
    hide Normal, Exact, SameKeys;
    var x, y := SameKeys(Without(items, j)), Without(SameKeys(items), j);
    forall i | 0 <= i < |x|
      ensures x[i] == y[i]
    {
      assert Without(items, j)[i] == items[if i < j then i else i + 1];
    }
  }

  lemma ValidWithout(items: seq<Json>, j: nat)
    requires j < |items| && AllPyValid(items)
    ensures AllPyValid(Without(items, j))
  {
    hide PyValid;
  }

  /** The fallback accepts the lists with the same keys, unless there is a NaN in them. */
  lemma {:induction false} RemovesAllDecides(a: seq<Json>, b: seq<Json>)
    requires |a| == |b| && AllPyValid(a) && AllPyValid(b)
    ensures RemovesAll(a, b) <==> multiset(SameKeys(a)) == multiset(SameKeys(b)) && AllNanFree(a)
  {
    hide PyEqual, Normal, Exact, PyValid, NanFree, Without, SameKeys;
    var ka, kb := SameKeys(a), SameKeys(b);
    if a != [] {
      EqualByKey(b, a[0]);
      assert ka[0] == Normal(Exact(a[0])) && ka[0..] == ka;
      assert SameKeys(a[1..]) == ka[1..];
      var at := FirstEqual(b, a[0]);
      if at.Some? {
        KeysWithout(b, at.value);
        ValidWithout(b, at.value);
        RemovesAllDecides(a[1..], Without(b, at.value));
        RemovePair(ka, 0, kb, at.value);
        NanFreeTail(a);
      } else if NanFree(a[0]) {
        KeyMissing(ka, 0, kb);
      }
    }
  }

  lemma NanFreeTail(a: seq<Json>)
    requires a != []
    ensures AllNanFree(a) <==> NanFree(a[0]) && AllNanFree(a[1..])
  {
    if AllNanFree(a[1..]) && NanFree(a[0]) {
      forall i | 0 <= i < |a| ensures NanFree(a[i]) {
        assert i > 0 ==> a[i] == a[1..][i - 1];
      }
    }
  }

  /** There is no object anywhere in the value. */
  predicate ObjectFree(j: Json) {
    match j
    case Arr(items) => forall i :: 0 <= i < |items| ==> ObjectFree(items[i])
    case Obj(_) => false
    case _ => true
  }

  lemma {:induction false} HashableIsObjectFree(j: Json)
    ensures HashableKey(j).Some? <==> ObjectFree(j)
    decreases j, 0
  {
    if j.Arr? {
      HashableItems(j.items);
    }
  }

  lemma {:induction false} HashableItems(items: seq<Json>)
    ensures HashableKeys(items).Some? <==> forall i :: 0 <= i < |items| ==> ObjectFree(items[i])
    decreases items, 1
  {
    if items != [] {
      HashableIsObjectFree(items[0]);
      HashableItems(items[1..]);
      if forall i :: 0 <= i < |items[1..]| ==> ObjectFree(items[1..][i]) {
        forall i | 0 < i < |items| ensures ObjectFree(items[i]) { assert items[i] == items[1..][i - 1]; }
      }
    }
  }

  /** What an order-insensitive comparison accepts by value. */
  ghost predicate SameUnordered(a: Json, b: Json) {
    Accepts(Exact(a), Exact(b))
  }

  /**
    * Python accepts the lists some permutation matches by value, except where a NaN is compared by value: it
    * then equals nothing. Lists without an object in them are compared by counted keys, which find NaN.
    */
  lemma PyUnorderedDecides(a: Json, b: Json)
    requires PyValid(a) && PyValid(b)
    ensures PyUnordered(a, b) <==>
              SameUnordered(a, b) && ((a.Arr? && b.Arr? && ObjectFree(a) && ObjectFree(b)) || NanFree(a))
  {
    if !a.Arr? || !b.Arr? {
      hide PyEqual, Equal, Exact, NanFree, PyValid;
      PyEqualIsSame(a, b);
      ExactKeepsKind(a);
      ExactKeepsKind(b);
    } else {
      hide PyEqual, Equal, Normal, NanFree, RemovesAll, SameUpToOrder, PyValid;
      ExactList(a.items);
      ExactList(b.items);
      HashableIsObjectFree(a);
      HashableIsObjectFree(b);
      if |a.items| != |b.items| {
        LengthsDiffer(a.items, b.items);
      } else if ObjectFree(a) && ObjectFree(b) {
        HashedDecide(a.items, b.items);
      } else {
        ListIsPyValid(a.items);
        ListIsPyValid(b.items);
        NormalItemsDecide(ExactItems(a.items), ExactItems(b.items));
        RemovesAllDecides(a.items, b.items);
        ListNanFree(a.items);
      }
    }
  }

  lemma ListIsPyValid(items: seq<Json>)
    requires PyValid(Arr(items))
    ensures AllPyValid(items)
  {
  }

  lemma LengthsDiffer(a: seq<Json>, b: seq<Json>)
    requires |a| != |b|
    ensures !SameUpToOrder(ExactItems(a), ExactItems(b))
  {
  }

  lemma ExactKeepsKind(j: Json)
    ensures Exact(j).Arr? == j.Arr?
  {
  }

  lemma ExactList(items: seq<Json>)
    ensures Exact(Arr(items)) == Arr(ExactItems(items))
  {
  }

  lemma ListNanFree(items: seq<Json>)
    ensures NanFree(Arr(items)) <==> AllNanFree(items)
  {
  }

  lemma HashedDecide(a: seq<Json>, b: seq<Json>)
    requires HashableKeys(a).Some? && HashableKeys(b).Some?
    ensures SameUpToOrder(ExactItems(a), ExactItems(b)) <==>
              multiset(HashableKeys(a).value) == multiset(HashableKeys(b).value)
  {
    hide Equal, Exact, HashableKey, HashableKeys;
    var ka, kb := HashableKeys(a), HashableKeys(b);
    forall i, j | 0 <= i < |a| && 0 <= j < |b|
      ensures ka.value[i] == kb.value[j] <==> Equal(ExactItems(a)[i], ExactItems(b)[j])
    {
      KeyIsExact(a[i], b[j]);
    }
    KeysDecide(ExactItems(a), ExactItems(b), ka.value, kb.value);
  }

  /** On i64 integers it is Rust's answer, except for NaN. */
  lemma PythonAgrees(a: Json, b: Json)
    requires Valid(a) && Valid(b)
    ensures PyUnordered(a, b) <==>
              Accepts(a, b) && ((a.Arr? && b.Arr? && ObjectFree(a) && ObjectFree(b)) || NanFree(a))
  {
    hide PyUnordered, Equal, Exact, NanFree, SameUpToOrder, ObjectFree;
    ValidIsPyValid(a);
    ValidIsPyValid(b);
    PyUnorderedDecides(a, b);
    ExactKeepsKind(a);
    ExactKeepsKind(b);
    if a.Arr? && b.Arr? {
      ExactList(a.items);
      ExactList(b.items);
      forall i, j | 0 <= i < |a.items| && 0 <= j < |b.items|
        ensures Equal(ExactItems(a.items)[i], ExactItems(b.items)[j]) <==> Equal(a.items[i], b.items[j])
      {
        SameIsEqual(a.items[i], b.items[j]);
      }
      SameMatching(a.items, b.items, ExactItems(a.items), ExactItems(b.items));
    } else {
      SameIsEqual(a, b);
    }
  }
}
