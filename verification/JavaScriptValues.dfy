/**
  * What JavaScript's `deepEqual` sees of a value: numbers are doubles, and a list is compared with an object
  * as the object whose keys are its indices.
  */
module JavaScriptValues {
  import opened DecimalText
  import opened Floats
  import opened JsonParsing
  import opened JsonRoundTrip
  import opened JsonValues
  import opened Unordered
  import opened UnorderedPython
  import opened Wrappers

  /** What JavaScript makes of a value it reads. */
  function JsRead(j: Json): Json
    decreases j, 0
  {
    match j
    case Int(_) => Num(AsDouble(j))
    case Arr(items) => Arr(JsReadItems(items))
    case Obj(fields) => Obj(JsReadFields(fields))
    case _ => j
  }

  function JsReadItems(items: seq<Json>): (r: seq<Json>)
    ensures |r| == |items| && forall i :: 0 <= i < |items| ==> r[i] == JsRead(items[i])
  {
    if items == [] then [] else [JsRead(items[0])] + JsReadItems(items[1..])
  }

  function JsReadFields(fields: seq<Field>): (r: seq<Field>)
    ensures |r| == |fields|
    ensures forall i :: 0 <= i < |fields| ==> r[i] == Field(fields[i].key, JsRead(fields[i].value))
  {
    if fields == [] then [] else [Field(fields[0].key, JsRead(fields[0].value))] + JsReadFields(fields[1..])
  }

  predicate IsObject(j: Json) {
    j.Arr? || j.Obj?
  }

  /** A value's keys and what they hold: a list has its indices for keys. */
  function Entries(j: Json): seq<Field>
    requires IsObject(j)
  {
    if j.Obj? then j.fields else Indexed(j.items)
  }

  function Indexed(items: seq<Json>): (r: seq<Field>)
    ensures |r| == |items|
  {
    seq(|items|, i requires 0 <= i < |items| => Field(Digits(i), items[i]))
  }

  // ----- the value seen -----

  /** Lists as objects, all the way down. */
  function Twin(j: Json): Json
    decreases j, 0
  {
    match j
    case Arr(items) => Obj(SortFields(Indexed(TwinItems(items))))
    case Obj(fields) => Obj(TwinFields(fields))
    case _ => j
  }

  function TwinItems(items: seq<Json>): (r: seq<Json>)
    ensures |r| == |items| && forall i :: 0 <= i < |items| ==> r[i] == Twin(items[i])
  {
    if items == [] then [] else [Twin(items[0])] + TwinItems(items[1..])
  }

  function TwinFields(fields: seq<Field>): (r: seq<Field>)
    ensures |r| == |fields|
    ensures forall i :: 0 <= i < |fields| ==> r[i] == Field(fields[i].key, Twin(fields[i].value))
  {
    if fields == [] then [] else [Field(fields[0].key, Twin(fields[0].value))] + TwinFields(fields[1..])
  }

  function Seen(j: Json): Json {
    Twin(JsRead(j))
  }

  // ----- keys and lookups -----

  predicate DistinctKeys(e: seq<Field>) {
    forall i, j :: 0 <= i < j < |e| ==> e[i].key != e[j].key
  }

  lemma {:induction false} LookupDistinct(e: seq<Field>, i: nat)
    requires DistinctKeys(e) && i < |e|
    ensures Lookup(e, e[i].key) == Some(e[i].value)
  {
    if i > 0 {
      assert e[1..][i - 1] == e[i];
      LookupDistinct(e[1..], i - 1);
    }
  }

  lemma {:induction false} LookupNone(e: seq<Field>, key: string)
    ensures Lookup(e, key).Some? <==> key in KeySet(e)
  {
    if e != [] {
      LookupNone(e[1..], key);
      if key in KeySet(e[1..]) {
        var i :| 0 <= i < |e[1..]| && e[1..][i].key == key;
        assert e[i + 1].key == key;
      }
      if key in KeySet(e) && key != e[0].key {
        var i :| 0 <= i < |e| && e[i].key == key;
        assert e[1..][i - 1].key == key;
      }
    }
  }

  lemma {:induction false} LookupLast(e: seq<Field>, f: Field, key: string)
    ensures Lookup(e + [f], key) ==
            if Lookup(e, key).Some? then Lookup(e, key) else if key == f.key then Some(f.value) else None
  {
    if e == [] {
      assert [f][1..] == [];
    } else {
      assert (e + [f])[1..] == e[1..] + [f];
      LookupLast(e[1..], f, key);
    }
  }

  lemma AscendingIsDistinct(e: seq<Field>)
    requires KeysAscend(e)
    ensures DistinctKeys(e)
  {
    forall i, j | 0 <= i < j < |e| ensures e[i].key != e[j].key {
      LessAsymmetric(e[i].key, e[j].key);
    }
  }

  lemma IndexedIsDistinct(items: seq<Json>)
    ensures DistinctKeys(Indexed(items))
  {
    forall i, j | 0 <= i < j < |items| ensures Digits(i) != Digits(j) {
      NatOfDigits(i);
      NatOfDigits(j);
    }
  }

  // ----- inserting in key order -----

  lemma AscendingFrom(f: Field, rest: seq<Field>)
    requires KeysAscend(rest) && forall k :: k in KeySet(rest) ==> Less(f.key, k)
    ensures KeysAscend([f] + rest)
  {
    hide Less;
    var r := [f] + rest;
    forall i, j | 0 <= i < j < |r| ensures Less(r[i].key, r[j].key) {
      assert r[j] == rest[j - 1] && rest[j - 1].key in KeySet(rest);
      if i > 0 { assert r[i] == rest[i - 1]; }
    }
  }

  lemma FirstIsLess(fields: seq<Field>)
    requires KeysAscend(fields) && fields != []
    ensures KeysAscend(fields[1..]) && forall k :: k in KeySet(fields[1..]) ==> Less(fields[0].key, k)
  {
    hide Less;
    forall k | k in KeySet(fields[1..]) ensures Less(fields[0].key, k) {
      var i :| 0 <= i < |fields[1..]| && fields[1..][i].key == k;
      assert fields[i + 1].key == k;
    }
  }

  lemma KeysOf(f: Field, rest: seq<Field>)
    ensures KeySet([f] + rest) == {f.key} + KeySet(rest)
  {
    var r := [f] + rest;
    forall k | k in KeySet(rest) ensures k in KeySet(r) {
      var i :| 0 <= i < |rest| && rest[i].key == k;
      assert r[i + 1].key == k;
    }
    assert r[0].key in KeySet(r);
    forall k | k in KeySet(r) ensures k == f.key || k in KeySet(rest) {
      var i :| 0 <= i < |r| && r[i].key == k;
      if i > 0 { assert rest[i - 1].key == k; }
    }
  }

  lemma {:induction false} InsertNew(fields: seq<Field>, f: Field)
    requires KeysAscend(fields) && f.key !in KeySet(fields)
    ensures KeysAscend(Insert(fields, f)) && KeySet(Insert(fields, f)) == KeySet(fields) + {f.key}
    ensures |Insert(fields, f)| == |fields| + 1
    ensures forall k :: Lookup(Insert(fields, f), k) == if k == f.key then Some(f.value) else Lookup(fields, k)
  {
    hide Less, KeysAscend, KeySet;
    if fields == [] {
      NothingAscends();
      AscendingFrom(f, []);
      KeysOf(f, []);
      assert [f] + [] == [f];
    } else {
      FirstIsLess(fields);
      assert fields == [fields[0]] + fields[1..];
      KeysOf(fields[0], fields[1..]);
      LessTotal(f.key, fields[0].key);
      if Less(f.key, fields[0].key) {
        forall k | k in KeySet(fields) ensures Less(f.key, k) {
          if k != fields[0].key { LessTransitive(f.key, fields[0].key, k); }
        }
        AscendingFrom(f, fields);
        KeysOf(f, fields);
      } else {
        InsertNew(fields[1..], f);
        var rest := Insert(fields[1..], f);
        AscendingFrom(fields[0], rest);
        KeysOf(fields[0], rest);
        assert ([fields[0]] + rest)[1..] == rest;
      }
    }
  }

  /** Sorting by key changes neither the keys nor what they hold. */
  lemma {:induction false} SortFieldsKeeps(e: seq<Field>)
    requires DistinctKeys(e)
    ensures KeysAscend(SortFields(e)) && KeySet(SortFields(e)) == KeySet(e) && |SortFields(e)| == |e|
    ensures forall k :: Lookup(SortFields(e), k) == Lookup(e, k)
  {
    hide KeysAscend, KeySet, Lookup, Insert;
    if e == [] {
      NothingAscends();
    } else {
      var n := |e| - 1;
      var before, f := e[..n], e[n];
      SortFieldsKeeps(before);
      LastIsNew(e);
      InsertNew(SortFields(before), f);
      assert e == before + [f];
      forall k ensures Lookup(SortFields(e), k) == Lookup(e, k) {
        LookupLast(before, f, k);
        LookupNone(before, k);
      }
    }
  }

  lemma NothingAscends()
    ensures KeysAscend([]) && KeySet([]) == {}
  {
  }

  lemma LastIsNew(e: seq<Field>)
    requires DistinctKeys(e) && e != []
    ensures var n := |e| - 1;
            DistinctKeys(e[..n]) && e[n].key !in KeySet(e[..n]) && KeySet(e) == KeySet(e[..n]) + {e[n].key}
  {
    var n := |e| - 1;
    forall k | k in KeySet(e) ensures k in KeySet(e[..n]) || k == e[n].key {
      var i :| 0 <= i < |e| && e[i].key == k;
      if i < n { assert e[..n][i].key == k; }
    }
    forall k | k in KeySet(e[..n]) ensures k in KeySet(e) {
      var i :| 0 <= i < n && e[..n][i].key == k;
      assert e[i].key == k;
    }
    assert e[n].key in KeySet(e);
  }

  /** Objects are equal when they have the same keys, holding equal values. */
  lemma EqualByLookup(x: seq<Field>, y: seq<Field>)
    requires KeysAscend(x) && KeysAscend(y)
    ensures Equal(Obj(x), Obj(y)) <==>
              && KeySet(x) == KeySet(y)
              && forall k :: k in KeySet(x) ==>
                   Lookup(x, k).Some? && Lookup(y, k).Some? && Equal(Lookup(x, k).value, Lookup(y, k).value)
  {
    if KeySet(x) == KeySet(y) {
      SameKeySets(x, y);
    }
    if |x| == |y| && forall i :: 0 <= i < |x| ==> x[i].key == y[i].key {
      SameKeysSameSet(x, y);
      hide Equal;
      forall i | 0 <= i < |x|
        ensures Lookup(x, x[i].key) == Some(x[i].value) && Lookup(y, x[i].key) == Some(y[i].value)
        ensures x[i].key in KeySet(x)
      {
        LookupAt(x, i);
        LookupAt(y, i);
      }
      EqualObjects(x, y);
    }
  }

  lemma EqualObjects(x: seq<Field>, y: seq<Field>)
    ensures Equal(Obj(x), Obj(y)) <==>
              |x| == |y| && forall i :: 0 <= i < |x| ==> x[i].key == y[i].key && Equal(x[i].value, y[i].value)
  {
  }

  // ----- equality -----

  /** `deepEqual`. Two key lists are the same once sorted exactly when they have the same keys. */
  predicate DeepEqual(a: Json, b: Json)
    decreases a
  {
    if (a.Int? || a.Num?) && (b.Int? || b.Num?) then
      FloatEq(AsDouble(a), AsDouble(b)) || (AsDouble(a).NaN? && AsDouble(b).NaN?)
    else if a.Arr? && b.Arr? then
      |a.items| == |b.items| && forall i :: 0 <= i < |a.items| ==> DeepEqual(a.items[i], b.items[i])
    else if a.Arr? && b.Obj? then
      && KeySet(Indexed(a.items)) == KeySet(b.fields)
      && forall i :: 0 <= i < |a.items| ==>
           var other := Lookup(b.fields, Digits(i));
           other.Some? && DeepEqual(a.items[i], other.value)
    else if a.Obj? && IsObject(b) then
      && KeySet(a.fields) == KeySet(Entries(b))
      && forall i :: 0 <= i < |a.fields| ==>
           var other := Lookup(Entries(b), a.fields[i].key);
           other.Some? && DeepEqual(a.fields[i].value, other.value)
    else a == b && !a.Num? && !a.Int?
  }

  lemma EntriesDistinct(j: Json)
    requires IsObject(j) && Valid(j)
    ensures DistinctKeys(Entries(j))
  {
    if j.Obj? {
      AscendingIsDistinct(j.fields);
    } else {
      IndexedIsDistinct(j.items);
    }
  }

  /** `t` holds the entries `e` as they are seen. */
  predicate SeenAs(e: seq<Field>, t: seq<Field>) {
    |t| == |e| && forall i :: 0 <= i < |e| ==> t[i] == Field(e[i].key, Seen(e[i].value))
  }

  lemma SeenFields(fields: seq<Field>)
    ensures Seen(Obj(fields)) == Obj(TwinFields(JsReadFields(fields)))
  {
  }

  lemma SeenObject(fields: seq<Field>)
    requires KeysAscend(fields)
    ensures var t := TwinFields(JsReadFields(fields));
            SeenAs(fields, t) && Seen(Obj(fields)) == Obj(t) && KeysAscend(t)
  {
    hide Less, Twin, JsRead;
    var t := TwinFields(JsReadFields(fields));
    SeenFields(fields);
    forall i, j | 0 <= i < j < |t| ensures Less(t[i].key, t[j].key) {
      assert t[i].key == fields[i].key && t[j].key == fields[j].key;
    }
  }

  lemma SeenList(items: seq<Json>)
    ensures var t := Indexed(TwinItems(JsReadItems(items)));
            SeenAs(Indexed(items), t) && Seen(Arr(items)) == Obj(SortFields(t)) && DistinctKeys(t)
  {
    IndexedIsDistinct(TwinItems(JsReadItems(items)));
    hide Digits, SortFields;
  }

  lemma KeptEntries(e: seq<Field>, t: seq<Field>)
    requires SeenAs(e, t) && DistinctKeys(t)
    ensures KeySet(t) == KeySet(e)
    ensures forall i :: 0 <= i < |e| ==> Lookup(t, e[i].key) == Some(Seen(e[i].value))
  {
    hide Seen, Lookup;
    SameKeysSameSet(e, t);
    forall i | 0 <= i < |e|
      ensures Lookup(t, e[i].key) == Some(Seen(e[i].value))
    {
      LookupDistinct(t, i);
    }
  }

  /** What is seen of a list or an object: its entries by key, each as it is seen itself. */
  lemma SeenEntries(j: Json)
    requires IsObject(j) && Valid(j)
    ensures Seen(j).Obj? && KeysAscend(Seen(j).fields) && KeySet(Seen(j).fields) == KeySet(Entries(j))
    ensures forall i :: 0 <= i < |Entries(j)| ==>
              Lookup(Seen(j).fields, Entries(j)[i].key) == Some(Seen(Entries(j)[i].value))
  {
    hide Seen, SeenAs, KeySet, Lookup, DistinctKeys, KeysAscend, Indexed, SortFields;
    if j.Obj? {
      var t := TwinFields(JsReadFields(j.fields));
      SeenObject(j.fields);
      AscendingIsDistinct(t);
      KeptEntries(j.fields, t);
    } else {
      var t := Indexed(TwinItems(JsReadItems(j.items)));
      SeenList(j.items);
      KeptEntries(Indexed(j.items), t);
      SortFieldsKeeps(t);
    }
  }

  /** Two objects, or a list and an object, seen by key. */
  lemma SeenByKey(a: Json, b: Json)
    requires IsObject(a) && IsObject(b) && Valid(a) && Valid(b)
    ensures Equal(Seen(a), Seen(b)) <==>
              && KeySet(Entries(a)) == KeySet(Entries(b))
              && forall i :: 0 <= i < |Entries(a)| ==>
                   var other := Lookup(Entries(b), Entries(a)[i].key);
                   other.Some? && Equal(Seen(Entries(a)[i].value), Seen(other.value))
  {
    SeenEntries(a);
    SeenEntries(b);
    EntriesDistinct(b);
    hide Equal, Seen, Entries, Valid, KeySet, KeysAscend, DistinctKeys, Lookup;
    var ea, eb := Entries(a), Entries(b);
    EqualByLookup(Seen(a).fields, Seen(b).fields);
    forall i | 0 <= i < |ea| && ea[i].key in KeySet(eb)
      ensures Lookup(eb, ea[i].key).Some?
      ensures Lookup(Seen(b).fields, ea[i].key) == Some(Seen(Lookup(eb, ea[i].key).value))
    {
      var k := AtKey(eb, ea[i].key);
      LookupDistinct(eb, k);
    }
    forall k | k in KeySet(ea) ensures exists i :: 0 <= i < |ea| && ea[i].key == k { var i := AtKey(ea, k); }
    forall i | 0 <= i < |ea| ensures ea[i].key in KeySet(ea) { HasKey(ea, i); }
  }

  lemma AtKey(e: seq<Field>, key: string) returns (i: nat)
    requires key in KeySet(e)
    ensures i < |e| && e[i].key == key
  {
    i :| 0 <= i < |e| && e[i].key == key;
  }

  lemma HasKey(e: seq<Field>, i: nat)
    requires i < |e|
    ensures e[i].key in KeySet(e)
  {
  }

  /** Lists of different lengths have different keys. */
  lemma IndexKeys(a: seq<Json>, b: seq<Json>)
    ensures KeySet(Indexed(a)) == KeySet(Indexed(b)) <==> |a| == |b|
  {
    if |a| == |b| {
      SameKeysSameSet(Indexed(a), Indexed(b));
    } else if |a| < |b| {
      KeyPastEnd(a, b);
    } else {
      KeyPastEnd(b, a);
    }
  }

  lemma KeyPastEnd(a: seq<Json>, b: seq<Json>)
    requires |a| < |b|
    ensures Digits(|a|) in KeySet(Indexed(b)) && Digits(|a|) !in KeySet(Indexed(a))
  {
    hide Digits;
    HasKey(Indexed(b), |a|);
    forall i | 0 <= i < |a| ensures Digits(i) != Digits(|a|) {
      NatOfDigits(i);
      NatOfDigits(|a|);
    }
  }

  lemma EntryValid(j: Json, i: nat)
    requires IsObject(j) && Valid(j) && i < |Entries(j)|
    ensures Valid(Entries(j)[i].value)
  {
  }

  lemma LookupValid(j: Json, key: string)
    requires IsObject(j) && Valid(j) && Lookup(Entries(j), key).Some?
    ensures Valid(Lookup(Entries(j), key).value)
  {
    LookupNone(Entries(j), key);
    EntriesDistinct(j);
    var i := AtKey(Entries(j), key);
    LookupDistinct(Entries(j), i);
    EntryValid(j, i);
  }

  /** Two lists are seen as equal when they are as long and their items are seen as equal. */
  lemma SeenLists(a: seq<Json>, b: seq<Json>)
    requires Valid(Arr(a)) && Valid(Arr(b))
    ensures Equal(Seen(Arr(a)), Seen(Arr(b))) <==>
              |a| == |b| && forall i :: 0 <= i < |a| ==> Equal(Seen(a[i]), Seen(b[i]))
  {
    hide Seen, Equal, Valid, KeySet, Lookup, Digits;
    SeenByKey(Arr(a), Arr(b));
    IndexKeys(a, b);
    var ea, eb := Indexed(a), Indexed(b);
    assert Entries(Arr(a)) == ea && Entries(Arr(b)) == eb;
    if |a| == |b| {
      forall i | 0 <= i < |a|
        ensures ea[i].value == a[i] && Lookup(eb, ea[i].key) == Some(b[i])
      {
        IndexedIsDistinct(b);
        LookupDistinct(eb, i);
      }
    }
  }

  /** Two objects are seen as equal when they have the same keys and their values are seen as equal. */
  lemma SeenObjects(a: seq<Field>, b: seq<Field>)
    requires KeysAscend(a) && KeysAscend(b)
    ensures Equal(Seen(Obj(a)), Seen(Obj(b))) <==>
              && |a| == |b|
              && forall i :: 0 <= i < |a| ==> a[i].key == b[i].key && Equal(Seen(a[i].value), Seen(b[i].value))
  {
    hide Seen, KeysAscend, Equal;
    SeenObject(a);
    SeenObject(b);
    EqualObjects(Seen(Obj(a)).fields, Seen(Obj(b)).fields);
  }

  lemma ScalarsEqual(a: Json, b: Json)
    requires !(IsObject(a) && IsObject(b))
    ensures DeepEqual(a, b) <==> Equal(Seen(a), Seen(b))
  {
    hide Round;
  }

  /** JavaScript's equality is Rust's on the values JavaScript sees. */
  lemma {:induction false} DeepEqualIsEqual(a: Json, b: Json)
    requires Valid(a) && Valid(b)
    ensures DeepEqual(a, b) <==> Equal(Seen(a), Seen(b))
    decreases a
  {
    hide Round, Lookup, KeySet, Digits, IsDouble, Seen, Equal;
    if a.Arr? && b.Arr? {
      SeenLists(a.items, b.items);
      if |a.items| == |b.items| {
        forall i | 0 <= i < |a.items|
          ensures DeepEqual(a.items[i], b.items[i]) <==> Equal(Seen(a.items[i]), Seen(b.items[i]))
        {
          DeepEqualIsEqual(a.items[i], b.items[i]);
        }
      }
    } else if IsObject(a) && IsObject(b) {
      SeenByKey(a, b);
      var ea, eb := Entries(a), Entries(b);
      forall i | 0 <= i < |ea| && Lookup(eb, ea[i].key).Some?
        ensures var other := Lookup(eb, ea[i].key).value;
                DeepEqual(ea[i].value, other) <==> Equal(Seen(ea[i].value), Seen(other))
      {
        EntryValid(a, i);
        LookupValid(b, ea[i].key);
        EntrySmaller(a, i);
        DeepEqualIsEqual(ea[i].value, Lookup(eb, ea[i].key).value);
      }
      ByKey(a, b);
    } else {
      ScalarsEqual(a, b);
    }
  }

  /** Unless both are lists, entries are compared by key. */
  lemma ByKey(a: Json, b: Json)
    requires IsObject(a) && IsObject(b) && !(a.Arr? && b.Arr?)
    ensures DeepEqual(a, b) <==>
              && KeySet(Entries(a)) == KeySet(Entries(b))
              && forall i :: 0 <= i < |Entries(a)| ==>
                   var other := Lookup(Entries(b), Entries(a)[i].key);
                   other.Some? && DeepEqual(Entries(a)[i].value, other.value)
  {
    hide Lookup, KeySet, Digits;
    if a.Arr? {
      var e := Entries(a);
      forall i | 0 <= i < |e|
        ensures e[i] == Field(Digits(i), a.items[i])
      {
      }
      assert DeepEqual(a, b) <==>
          && KeySet(e) == KeySet(b.fields)
          && forall i :: 0 <= i < |e| ==>
               var other := Lookup(b.fields, e[i].key);
               other.Some? && DeepEqual(e[i].value, other.value);
    }
  }

  lemma EntrySmaller(j: Json, i: nat)
    requires IsObject(j) && i < |Entries(j)|
    ensures Entries(j)[i].value < j
  {
  }
}
