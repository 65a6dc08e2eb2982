/** When the JavaScript harness's order-insensitive comparison agrees with the other judges'. */
module JavaScriptAgreement {
  import opened DecimalText
  import opened Floats
  import opened JavaScriptValues
  import opened JsonParsing
  import opened JsonValues
  import opened NumberText
  import opened SharedDoubles
  import opened Unordered
  import opened UnorderedJavaScript
  import opened UnorderedPython
  import opened Wrappers

  // ----- lists, and the objects that look like them -----

  function Indices(n: nat): set<string> {
    set i | 0 <= i < n :: Digits(i)
  }

  /** The object's keys are those of a list. */
  predicate ListLike(fields: seq<Field>) {
    KeySet(fields) == Indices(|fields|)
  }

  /** No object in the value looks like a list. */
  predicate Plain(j: Json) {
    match j
    case Arr(items) => forall i :: 0 <= i < |items| ==> Plain(items[i])
    case Obj(fields) => !ListLike(fields) && forall i :: 0 <= i < |fields| ==> Plain(fields[i].value)
    case _ => true
  }

  /** Neither a list nor an object that looks like one is in the value. */
  predicate ListFree(j: Json) {
    match j
    case Arr(_) => false
    case Obj(fields) => !ListLike(fields) && forall i :: 0 <= i < |fields| ==> ListFree(fields[i].value)
    case _ => true
  }

  lemma {:induction false} ListFreeIsPlain(j: Json)
    requires ListFree(j)
    ensures Plain(j)
  {
    if j.Obj? {
      forall i | 0 <= i < |j.fields| ensures Plain(j.fields[i].value) {
        ListFreeIsPlain(j.fields[i].value);
      }
    }
  }

  lemma {:induction false} KeyCount(e: seq<Field>)
    requires DistinctKeys(e)
    ensures |KeySet(e)| == |e|
  {
    if e != [] {
      LastIsNew(e);
      KeyCount(e[..|e| - 1]);
    }
  }

  lemma IndexedKeys(items: seq<Json>)
    ensures KeySet(Indexed(items)) == Indices(|items|)
  {
    hide Digits;
    var e := Indexed(items);
    forall i | 0 <= i < |items| ensures Digits(i) in KeySet(e) {
      HasKey(e, i);
    }
  }

  /** Only an object that looks like a list has a list's keys. */
  lemma OnlyListLike(items: seq<Json>, fields: seq<Field>)
    requires KeysAscend(fields)
    ensures KeySet(Indexed(items)) == KeySet(fields) <==> ListLike(fields) && |items| == |fields|
  {
    hide KeySet, Indices, Indexed, DistinctKeys, KeysAscend;
    IndexedKeys(items);
    IndexedIsDistinct(items);
    AscendingIsDistinct(fields);
    KeyCount(Indexed(items));
    KeyCount(fields);
  }

  // ----- told apart as the other judges tell them -----

  /** Every integer in the value is exactly a double. */
  predicate JsExact(j: Json) {
    match j
    case Int(n) => Round(n as real) == Fin(n as real)
    case Arr(items) => forall i :: 0 <= i < |items| ==> JsExact(items[i])
    case Obj(fields) => forall i :: 0 <= i < |fields| ==> JsExact(fields[i].value)
    case _ => true
  }

  /** JavaScript tells every number in `j` from every other i64. */
  predicate SharesNoDouble(j: Json) {
    match j
    case Int(n) => Alone(n)
    case Num(x) => if IsI64Float(x) then Alone(Value(x).Floor) else x != Fin(TWO_63)
    case Arr(items) => forall i :: 0 <= i < |items| ==> SharesNoDouble(items[i])
    case Obj(fields) => forall i :: 0 <= i < |fields| ==> SharesNoDouble(fields[i].value)
    case _ => true
  }

  /** A double that is an i64 in value is what that integer rounds to. */
  lemma WholeFloatRounds(x: F64)
    requires IsDouble(x) && IsI64Float(x)
    ensures var n := Value(x).Floor;
            InI64(n) && Round(n as real) == Fin(Value(x)) && Nearest(n) == Value(x)
  {
    hide RoundMagnitude;
    RoundOfInteger(Value(x).Floor);
    SmallRounds(0);
  }

  /** A float that is no i64 in value meets an integer in JavaScript only at 2^63, where i64's largest rounds. */
  lemma OnlyTheEndMeets(x: F64, k: int)
    requires InI64(k) && !IsI64Float(x) && FloatEq(Round(k as real), x)
    ensures x == Fin(TWO_63)
  {
    hide Round, Nearest;
    RoundOfInteger(k);
  }

  /** Values equal to a number that shares its double with no other i64 are told apart as Rust tells them. */
  lemma NumberTold(x: Json, y: Json)
    requires Valid(x) && Valid(y) && (x.Int? || x.Num?) && (y.Int? || y.Num?) && SharesNoDouble(x)
    ensures Equal(Seen(x), Seen(y)) <==> Equal(x, y)
  {
    hide Round, Alone, Nearest;
    var n := if x.Int? then x.n else if IsI64Float(x.x) then Value(x.x).Floor else 0;
    if x.Int? {
      RoundOfInteger(n);
      AloneIsDouble(n);
    } else if IsI64Float(x.x) {
      WholeFloatRounds(x.x);
    }
    if y.Int? {
      RoundOfInteger(y.n);
      if x.Num? && !IsI64Float(x.x) {
        if FloatEq(x.x, Round(y.n as real)) {
          OnlyTheEndMeets(x.x, y.n);
        }
      } else if Nearest(y.n) == Nearest(n) {
        AloneSharesNone(n, y.n);
      }
    }
  }

  lemma ExactNumberTold(x: Json, y: Json)
    requires Valid(x) && Valid(y) && (x.Int? || x.Num?) && (y.Int? || y.Num?) && JsExact(x) && JsExact(y)
    ensures Equal(Seen(x), Seen(y)) <==> Equal(x, y)
  {
    hide Round, Equal;
    EqualIffSameNormal(x, y);
    EqualIffSameNormal(Seen(x), Seen(y));
  }

  /** Every number is told from every other: from any other at all, or because each is exact. */
  predicate Told(x: Json, y: Json) {
    SharesNoDouble(x) || (JsExact(x) && JsExact(y))
  }

  /** No list of the one value can meet an object of the other that looks like it. */
  predicate NoTwins(x: Json, y: Json) {
    Plain(x) && (Plain(y) || ListFree(x))
  }

  /** Anything against a number, a string, a bool or null. */
  lemma ScalarTold(x: Json, y: Json)
    requires Valid(x) && Valid(y) && Told(x, y) && !(IsObject(x) && IsObject(y))
    ensures Equal(Seen(x), Seen(y)) <==> Equal(x, y)
  {
    hide Valid, SharesNoDouble, JsExact, Round;
    if (x.Int? || x.Num?) && (y.Int? || y.Num?) {
      if SharesNoDouble(x) {
        NumberTold(x, y);
      } else {
        ExactNumberTold(x, y);
      }
    }
  }

  lemma EqualLists(x: seq<Json>, y: seq<Json>)
    ensures Equal(Arr(x), Arr(y)) <==> |x| == |y| && forall i :: 0 <= i < |x| ==> Equal(x[i], y[i])
  {
  }

  lemma ItemsMeet(x: seq<Json>, y: seq<Json>, i: nat)
    requires i < |x| == |y| && NoTwins(Arr(x), Arr(y)) && Told(Arr(x), Arr(y)) && Valid(Arr(x)) && Valid(Arr(y))
    ensures NoTwins(x[i], y[i]) && Told(x[i], y[i]) && Valid(x[i]) && Valid(y[i])
  {
  }

  lemma ValuesMeet(x: seq<Field>, y: seq<Field>, i: nat)
    requires i < |x| == |y| && NoTwins(Obj(x), Obj(y)) && Told(Obj(x), Obj(y)) && Valid(Obj(x)) && Valid(Obj(y))
    ensures NoTwins(x[i].value, y[i].value) && Told(x[i].value, y[i].value)
    ensures Valid(x[i].value) && Valid(y[i].value)
  {
    hide KeysAscend, ListLike;
  }

  lemma FieldsAscend(j: Json)
    requires Valid(j) && j.Obj?
    ensures KeysAscend(j.fields)
  {
  }

  /** A list and an object that does not look like one have different keys. */
  lemma KeysDiffer(x: Json, y: Json)
    requires IsObject(x) && IsObject(y) && x.Arr? != y.Arr? && Valid(x) && Valid(y) && NoTwins(x, y)
    ensures KeySet(Entries(x)) != KeySet(Entries(y)) && !Equal(x, y)
  {
    hide KeySet, ListLike;
    if x.Arr? {
      OnlyListLike(x.items, y.fields);
    } else {
      OnlyListLike(y.items, x.fields);
    }
  }

  /** What is seen is equal exactly when the values are. */
  lemma {:induction false} SeenAsRust(x: Json, y: Json)
    requires Valid(x) && Valid(y) && NoTwins(x, y) && Told(x, y)
    ensures Equal(Seen(x), Seen(y)) <==> Equal(x, y)
    decreases x
  {
    hide ListLike, KeySet, Lookup, Valid, NoTwins, Told, Seen, Equal;
    if x.Arr? && y.Arr? {
      SeenLists(x.items, y.items);
      EqualLists(x.items, y.items);
      if |x.items| == |y.items| {
        forall i | 0 <= i < |x.items|
          ensures Equal(Seen(x.items[i]), Seen(y.items[i])) <==> Equal(x.items[i], y.items[i])
        {
          ItemsMeet(x.items, y.items, i);
          SeenAsRust(x.items[i], y.items[i]);
        }
      }
    } else if x.Obj? && y.Obj? {
      FieldsAscend(x);
      FieldsAscend(y);
      SeenObjects(x.fields, y.fields);
      EqualObjects(x.fields, y.fields);
      if |x.fields| == |y.fields| {
        forall i | 0 <= i < |x.fields|
          ensures Equal(Seen(x.fields[i].value), Seen(y.fields[i].value)) <==>
                    Equal(x.fields[i].value, y.fields[i].value)
        {
          ValuesMeet(x.fields, y.fields, i);
          SeenAsRust(x.fields[i].value, y.fields[i].value);
        }
      }
    } else if IsObject(x) && IsObject(y) {
      SeenByKey(x, y);
      KeysDiffer(x, y);
    } else {
      ScalarTold(x, y);
    }
  }

  lemma AcceptsAsRust(a: Json, b: Json)
    requires Valid(a) && Valid(b) && NoTwins(a, b) && Told(a, b)
    ensures JsAccepts(a, b) <==> RustUnordered(a, b)
  {
    RustAccepts(a, b);
    if a.Arr? && b.Arr? {
      hide RustUnordered, Equal, Seen, SameUpToOrder, Alone, Round, ListLike;
      forall i, j | 0 <= i < |a.items| && 0 <= j < |b.items|
        ensures Equal(SeenItems(a.items)[i], SeenItems(b.items)[j]) <==> Equal(a.items[i], b.items[j])
      {
        SeenAsRust(a.items[i], b.items[j]);
      }
      SameMatching(a.items, b.items, SeenItems(a.items), SeenItems(b.items));
    } else {
      hide RustUnordered, Equal, Seen, SameUpToOrder;
      SeenAsRust(a, b);
    }
  }

  /**
   When every integer is exactly a double and no object looks like a list, JavaScript accepts exactly what
   Rust and Python do.
   */
  lemma JavaScriptAgrees(a: Json, b: Json)
    requires Valid(a) && Valid(b) && Plain(a) && Plain(b) && JsExact(a) && JsExact(b)
    ensures JsAccepts(a, b) <==> RustUnordered(a, b)
  {
    AcceptsAsRust(a, b);
  }

  // ----- taken for another -----

  /** JavaScript takes `k` for `j`; Rust does not. */
  predicate Confused(j: Json, k: Json) {
    Equal(Seen(j), Seen(k)) && !Equal(j, k)
  }

  lemma NumberConfused(j: Json) returns (k: Json)
    requires Valid(j) && (j.Int? || j.Num?) && !SharesNoDouble(j)
    ensures k.Int? && Valid(k) && Confused(j, k)
  {
    hide Round, Nearest;
    if j.Num? && !IsI64Float(j.x) {
      EndRounds();
      RoundOfInteger(I64_MAX);
      return Int(I64_MAX);
    }
    var n := if j.Int? then j.n else Value(j.x).Floor;
    if j.Num? {
      WholeFloatRounds(j.x);
    }
    RoundOfInteger(n);
    if InI64(n - 1) && Round((n - 1) as real) == Round(n as real) {
      k := Int(n - 1);
    } else {
      k := Int(n + 1);
    }
    RoundOfInteger(k.n);
  }

  lemma ItemValid(items: seq<Json>, i: nat)
    requires i < |items| && Valid(Arr(items))
    ensures Valid(items[i])
  {
  }

  lemma SeenIsSeen(j: Json)
    ensures Equal(Seen(j), Seen(j))
  {
    hide Equal, Seen;
    EqualIsEquivalence(Seen(j), Seen(j), Seen(j));
  }

  lemma ItemReplaced(items: seq<Json>, i: nat, k: Json)
    requires i < |items| && Confused(items[i], k) && Valid(Arr(items)) && Valid(k)
    ensures Valid(Arr(items[i := k])) && Confused(Arr(items), Arr(items[i := k]))
  {
    hide Seen;
    var items' := items[i := k];
    assert !Equal(items[i], items'[i]);
    SeenLists(items, items');
    forall m | 0 <= m < |items|
      ensures Equal(Seen(items[m]), Seen(items'[m]))
    {
      SeenIsSeen(items[m]);
    }
  }

  function SetValue(fields: seq<Field>, i: nat, k: Json): (r: seq<Field>)
    requires i < |fields|
    ensures |r| == |fields| && forall m :: 0 <= m < |fields| ==> r[m].key == fields[m].key
  {
    fields[i := Field(fields[i].key, k)]
  }

  lemma FieldReplaced(fields: seq<Field>, i: nat, k: Json)
    requires i < |fields| && Confused(fields[i].value, k) && Valid(Obj(fields)) && Valid(k)
    ensures var j := Obj(SetValue(fields, i, k));
            Valid(j) && Confused(Obj(fields), j) && KeySet(j.fields) == KeySet(fields)
  {
    hide Seen, Less;
    var fields' := SetValue(fields, i, k);
    assert !Equal(fields[i].value, fields'[i].value);
    SameKeysSameSet(fields, fields');
    forall m, n | 0 <= m < n < |fields| ensures Less(fields'[m].key, fields'[n].key) {
      assert fields'[m].key == fields[m].key && fields'[n].key == fields[n].key;
    }
    SeenObjects(fields, fields');
    forall m | 0 <= m < |fields|
      ensures Equal(Seen(fields[m].value), Seen(fields'[m].value))
    {
      SeenIsSeen(fields[m].value);
    }
  }

  /** A value with a number that shares its double is confused with one that has the other number there. */
  lemma {:induction false} ValueConfused(j: Json) returns (k: Json)
    requires Valid(j) && !SharesNoDouble(j)
    ensures Valid(k) && k.Arr? == j.Arr? && (Plain(j) ==> Plain(k)) && Confused(j, k)
    decreases j
  {
    hide Alone, Round, Valid, Equal, Seen, Confused, KeySet;
    if j.Arr? {
      var i :| 0 <= i < |j.items| && !SharesNoDouble(j.items[i]);
      ItemValid(j.items, i);
      var k' := ValueConfused(j.items[i]);
      k := Arr(j.items[i := k']);
      ItemReplaced(j.items, i, k');
    } else if j.Obj? {
      var i :| 0 <= i < |j.fields| && !SharesNoDouble(j.fields[i].value);
      EntryValid(j, i);
      var k' := ValueConfused(j.fields[i].value);
      k := Obj(SetValue(j.fields, i, k'));
      FieldReplaced(j.fields, i, k');
    } else {
      k := NumberConfused(j);
    }
  }

  /** The same entries by key, one value a list and the other an object. */
  lemma SameEntries(a: Json, b: Json)
    requires IsObject(a) && IsObject(b) && Valid(a) && Valid(b) && a.Arr? != b.Arr?
    requires KeySet(Entries(a)) == KeySet(Entries(b))
    requires forall i :: 0 <= i < |Entries(a)| ==>
               Lookup(Entries(b), Entries(a)[i].key) == Some(Entries(a)[i].value)
    ensures Confused(a, b)
  {
    assert !Equal(a, b);
    hide Seen, Equal, Entries, KeySet, Lookup, Valid;
    SeenByKey(a, b);
    forall i | 0 <= i < |Entries(a)|
      ensures Equal(Seen(Entries(a)[i].value), Seen(Entries(a)[i].value))
    {
      SeenIsSeen(Entries(a)[i].value);
    }
  }

  /** The object with a list's indices for keys. */
  function TwinObject(items: seq<Json>): Json {
    Obj(SortFields(Indexed(items)))
  }

  /** JavaScript takes every list for the object of its indices. */
  lemma ListConfused(items: seq<Json>)
    requires Valid(Arr(items))
    ensures Valid(TwinObject(items)) && Confused(Arr(items), TwinObject(items))
  {
    hide KeySet, Lookup, Digits, SortFields, Confused, DistinctKeys;
    var e := Indexed(items);
    var t := SortFields(e);
    IndexedIsDistinct(items);
    SortFieldsKeeps(e);
    forall f | f in t ensures Valid(f.value) {
      var i :| 0 <= i < |t| && t[i] == f;
      LookupAt(t, i);
      LookupValid(Arr(items), f.key);
    }
    forall i | 0 <= i < |e|
      ensures Lookup(t, e[i].key) == Some(e[i].value)
    {
      LookupDistinct(e, i);
    }
    SameEntries(Arr(items), Obj(t));
  }

  /** What a list-like object has at its keys, in order of the indices. */
  function TwinList(fields: seq<Field>): (r: seq<Json>)
    requires ListLike(fields)
    ensures |r| == |fields| && forall i :: 0 <= i < |fields| ==> Lookup(fields, Digits(i)) == Some(r[i])
  {
    assert forall i :: 0 <= i < |fields| ==> Lookup(fields, Digits(i)).Some? by {
      forall i | 0 <= i < |fields| ensures Lookup(fields, Digits(i)).Some? {
        LookupNone(fields, Digits(i));
      }
    }
    seq(|fields|, i requires 0 <= i < |fields| && Lookup(fields, Digits(i)).Some? => Lookup(fields, Digits(i)).value)
  }

  /** JavaScript takes every object that looks like a list for that list. */
  lemma ListLikeConfused(fields: seq<Field>)
    requires Valid(Obj(fields)) && ListLike(fields)
    ensures Valid(Arr(TwinList(fields))) && Confused(Obj(fields), Arr(TwinList(fields)))
  {
    var items := TwinList(fields);
    hide KeySet, Lookup, Digits, Confused, ListLike, TwinList;
    OnlyListLike(items, fields);
    forall i | 0 <= i < |items| ensures Valid(items[i]) {
      assert Lookup(fields, Digits(i)) == Some(items[i]);
      LookupValid(Obj(fields), Digits(i));
    }
    assert Entries(Arr(items)) == Indexed(items);
    SameEntries(Arr(items), Obj(fields));
    ConfusedBack(Arr(items), Obj(fields));
  }

  lemma ConfusedBack(j: Json, k: Json)
    requires Confused(j, k)
    ensures Confused(k, j)
  {
    hide Equal, Seen;
    EqualIsEquivalence(j, k, j);
    EqualIsEquivalence(k, j, k);
    EqualIsEquivalence(Seen(j), Seen(k), Seen(j));
  }

  /** A value with a list, or an object that looks like one, is confused with one that has the other there. */
  lemma {:induction false} TwinConfused(j: Json) returns (k: Json)
    requires Valid(j) && !ListFree(j)
    ensures Valid(k) && !(j.Arr? && k.Arr?) && Confused(j, k)
    decreases j
  {
    hide Valid, Equal, Seen, Confused, KeySet, ListLike;
    if j.Arr? {
      k := TwinObject(j.items);
      ListConfused(j.items);
    } else if ListLike(j.fields) {
      k := Arr(TwinList(j.fields));
      ListLikeConfused(j.fields);
    } else {
      var i :| 0 <= i < |j.fields| && !ListFree(j.fields[i].value);
      EntryValid(j, i);
      var k' := TwinConfused(j.fields[i].value);
      k := Obj(SetValue(j.fields, i, k'));
      FieldReplaced(j.fields, i, k');
    }
  }

  // ----- on which values the judges agree -----

  /** JavaScript and Rust give the same answer on `a` and `b`. */
  ghost predicate AgreeOn(a: Json, b: Json)
    requires Valid(a) && Valid(b)
  {
    JsAccepts(a, b) <==> RustUnordered(a, b)
  }

  lemma KeysReplaced(items: seq<Json>, i: nat, k: Json)
    requires i < |items|
    ensures NormalItems(items)[i] == Normal(items[i])
    ensures NormalItems(items[i := k]) == NormalItems(items)[i := Normal(k)]
  {
    hide Normal;
  }

  lemma OneReplaced<T>(s: seq<T>, i: nat, x: T)
    requires i < |s| && s[i] != x
    ensures multiset(s[i := x]) != multiset(s)
  {
    assert multiset(s[i := x])[x] == multiset(s)[x] + 1;
  }

  /** Replacing one item by one it is confused with gives a list JavaScript accepts and Rust refuses. */
  lemma ListsDisagree(items: seq<Json>, i: nat, k: Json)
    requires i < |items| && Confused(items[i], k)
    ensures SameUpToOrder(SeenItems(items), SeenItems(items[i := k]))
    ensures !SameUpToOrder(items, items[i := k])
  {
    hide Equal, Seen, Normal, SameUpToOrder, NormalItems, JsKeys;
    var items' := items[i := k];
    JsKeysDecide(items, items');
    NormalItemsDecide(items, items');
    EqualIffSameNormal(items[i], k);
    EqualIffSameNormal(Seen(items[i]), Seen(k));
    KeysReplaced(items, i, k);
    assert JsKeys(items') == JsKeys(items);
    OneReplaced(NormalItems(items), i, Normal(k));
  }

  lemma Disagreement(a: Json) returns (b: Json)
    requires Valid(a) && !SharesNoDouble(a)
    ensures Valid(b) && (Plain(a) ==> Plain(b)) && !AgreeOn(a, b)
  {
    hide RustUnordered, Seen, Equal, Alone, SameUpToOrder, Plain;
    b := ValueConfused(a);
    if a.Arr? {
      var i :| 0 <= i < |a.items| && !SharesNoDouble(a.items[i]);
      var k := ValueConfused(a.items[i]);
      b := Arr(a.items[i := k]);
      ListsDisagree(a.items, i, k);
      PlainReplaced(a.items, i, k);
    }
    RustAccepts(a, b);
  }

  lemma PlainReplaced(items: seq<Json>, i: nat, k: Json)
    requires i < |items|
    ensures Plain(Arr(items)) && (Plain(items[i]) ==> Plain(k)) ==> Plain(Arr(items[i := k]))
  {
  }

  /**
   Among values with no object that looks like a list, the other judges' answer is JavaScript's against every
   value exactly when no number in `a` shares its double with another i64.
   */
  lemma JavaScriptAgreesExactly(a: Json)
    requires Valid(a) && Plain(a)
    ensures (forall b | Valid(b) && Plain(b) :: AgreeOn(a, b)) <==> SharesNoDouble(a)
  {
    hide Valid, Plain, SharesNoDouble, AgreeOn;
    if SharesNoDouble(a) {
      forall b | Valid(b) && Plain(b)
        ensures AgreeOn(a, b)
      {
        ToldMeansAgreed(a, b);
      }
    } else {
      var b := Disagreement(a);
      assert !AgreeOn(a, b);
    }
  }

  lemma ToldMeansAgreed(a: Json, b: Json)
    requires Valid(a) && Valid(b) && NoTwins(a, b) && SharesNoDouble(a)
    ensures AgreeOn(a, b)
  {
    AcceptsAsRust(a, b);
  }

  /** Among all values, it also takes that `a` holds no list and nothing that looks like one. */
  lemma JavaScriptAgreesEverywhere(a: Json)
    requires Valid(a)
    ensures (forall b | Valid(b) :: AgreeOn(a, b)) <==> SharesNoDouble(a) && ListFree(a)
  {
    hide Valid, Plain, SharesNoDouble, ListFree, AgreeOn;
    if !SharesNoDouble(a) {
      var b := Disagreement(a);
      assert !AgreeOn(a, b);
    } else if !ListFree(a) {
      var b := TwinDisagreement(a);
      assert !AgreeOn(a, b);
    } else {
      ListFreeIsPlain(a);
      forall b | Valid(b)
        ensures AgreeOn(a, b)
      {
        ToldMeansAgreed(a, b);
      }
    }
  }

  lemma TwinDisagreement(a: Json) returns (b: Json)
    requires Valid(a) && !ListFree(a)
    ensures Valid(b) && !AgreeOn(a, b)
  {
    hide RustUnordered, Seen, Equal, SameUpToOrder;
    b := TwinConfused(a);
    RustAccepts(a, b);
  }

  /** The smallest case: JavaScript accepts `{}` where `[]` is expected. */
  lemma EmptyListIsEmptyObject()
    ensures Valid(Arr([])) && Valid(Obj([])) && JsAccepts(Obj([]), Arr([])) && !RustUnordered(Obj([]), Arr([]))
  {
    RustAccepts(Obj([]), Arr([]));
    hide RustUnordered, Seen, Equal;
    ListConfused([]);
    assert TwinObject([]) == Obj([]);
    ConfusedBack(Arr([]), Obj([]));
  }

  /** Integers below 2^53 in magnitude share nothing, but 2^53 already does, although it is exactly a double. */
  lemma SharedFrom53(n: int)
    ensures -0x20_0000_0000_0000 < n < 0x20_0000_0000_0000 ==> SharesNoDouble(Int(n))
    ensures JsExact(Int(0x20_0000_0000_0000)) && !SharesNoDouble(Int(0x20_0000_0000_0000))
  {
    hide Round;
    RoundAbove53();
    if -0x20_0000_0000_0000 < n < 0x20_0000_0000_0000 {
      SmallIsAlone(n);
    }
  }

  lemma RoundAbove53()
    ensures Round(9007199254740993.0) == Fin(9007199254740992.0)
    ensures Round(9007199254740992.0) == Fin(9007199254740992.0)
  {
    hide Round, RoundMagnitude;
    Pow2Values();
    assert Scale(1.0, 1) == 2.0;
    assert Scale(1.0, 54) == 2.0 * Scale(1.0, 53);
    assert NearestEven(9007199254740993.0 / 2.0) == 0x10_0000_0000_0000;
    assert NearestEven(9007199254740992.0 / 2.0) == 0x10_0000_0000_0000;
    assert IsLastPlace(9007199254740993.0, 1) && IsLastPlace(9007199254740992.0, 1);
    RoundAt(9007199254740993.0, 1, 2.0);
    RoundInRange(9007199254740993.0, 9007199254740992.0);
    RoundAt(9007199254740992.0, 1, 2.0);
    RoundInRange(9007199254740992.0, 9007199254740992.0);
  }

  lemma Singletons(x: Json, y: Json)
    ensures SameUpToOrder([x], [y]) <==> Equal(x, y)
  {
    hide Equal;
    if Equal(x, y) {
      assert Matching([0], [x], [y]);
    }
    if SameUpToOrder([x], [y]) {
      var p :| Matching(p, [x], [y]);
      assert Equal([x][0], [y][p[0]]);
    }
  }

  lemma SingletonsDisagree(x: Json, y: Json)
    requires Valid(x) && Valid(y) && Confused(x, y)
    ensures Valid(Arr([x])) && Valid(Arr([y])) && JsAccepts(Arr([x]), Arr([y])) && !RustUnordered(Arr([x]), Arr([y]))
  {
    RustAccepts(Arr([x]), Arr([y]));
    hide Equal, Seen, SameUpToOrder, RustUnordered;
    assert SeenItems([x]) == [Seen(x)] && SeenItems([y]) == [Seen(y)];
    Singletons(x, y);
    Singletons(Seen(x), Seen(y));
  }

  /** Beyond 2^53 it can accept more: 2^53 + 1 reads as 2^53. */
  lemma JavaScriptRounds()
    ensures var a, b := Arr([Int(0x20_0000_0000_0001)]), Arr([Int(0x20_0000_0000_0000)]);
            Valid(a) && Valid(b) && JsAccepts(a, b) && !RustUnordered(a, b)
  {
    hide Round, RustUnordered, JsAccepts;
    RoundAbove53();
    SingletonsDisagree(Int(0x20_0000_0000_0001), Int(0x20_0000_0000_0000));
  }
}
