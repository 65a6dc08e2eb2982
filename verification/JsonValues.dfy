/**
 The JSON value type of the judge's shared core, its hand-written equality and its nesting depth.
 An object's fields are kept in key order, as a `BTreeMap` iterates them.
 */
module JsonValues {
  import opened Arithmetic
  import opened Floats
  import opened NumberText

  datatype Json =
    | Null
    | Bool(b: bool)
    | Int(n: int)
    | Num(x: F64)
    | Str(s: string)
    | Arr(items: seq<Json>)
    | Obj(fields: seq<Field>)

  datatype Field = Field(key: string, value: Json)

  /** Key order: by code point, a prefix first. */
  predicate Less(a: string, b: string) {
    if b == [] then false
    else if a == [] then true
    else a[0] < b[0] || (a[0] == b[0] && Less(a[1..], b[1..]))
  }

  /** The first place where the two differ decides. */
  lemma {:induction false} LessMeans(a: string, b: string)
    ensures Less(a, b) <==>
              exists k ::
                && 0 <= k <= |a| && k < |b| && a[..k] == b[..k]
                && (k == |a| || (a[k] as int) < (b[k] as int))
  {
    if a != [] && b != [] && a[0] == b[0] {
      LessMeans(a[1..], b[1..]);
      if k :| 0 <= k <= |a[1..]| && k < |b[1..]| && a[1..][..k] == b[1..][..k]
              && (k == |a[1..]| || (a[1..][k] as int) < (b[1..][k] as int)) {
        assert a[..k + 1] == [a[0]] + a[1..][..k] && b[..k + 1] == [b[0]] + b[1..][..k];
      }
      if k :| 0 <= k <= |a| && k < |b| && a[..k] == b[..k] && (k == |a| || (a[k] as int) < (b[k] as int)) {
        assert k > 0 && a[1..][..k - 1] == a[..k][1..] && b[1..][..k - 1] == b[..k][1..];
      }
    } else if b != [] {
      assert a[..0] == b[..0];
      if k :| 0 <= k <= |a| && k < |b| && a[..k] == b[..k] && (k == |a| || (a[k] as int) < (b[k] as int)) {
        assert k > 0 ==> a[..k][0] == b[..k][0];
      }
    }
  }

  predicate KeysAscend(fields: seq<Field>) {
    forall i, j :: 0 <= i < j < |fields| ==> Less(fields[i].key, fields[j].key)
  }

  /** What Rust's types guarantee of a value: i64 integers, binary64 floats, a map's distinct ordered keys. */
  predicate Valid(j: Json) {
    match j
    case Int(n) => InI64(n)
    case Num(x) => IsDouble(x)
    case Arr(items) => forall x :: x in items ==> Valid(x)
    case Obj(fields) => KeysAscend(fields) && forall f :: f in fields ==> Valid(f.value)
    case _ => true
  }

  /** How deep the deepest value inside `j` sits; `j` itself is at depth zero. */
  function Depth(j: Json): nat
    decreases j, 0
  {
    match j
    case Arr(items) => if items == [] then 0 else 1 + ItemsDepth(items)
    case Obj(fields) => if fields == [] then 0 else 1 + FieldsDepth(fields)
    case _ => 0
  }

  function ItemsDepth(items: seq<Json>): nat {
    if items == [] then 0 else Max(Depth(items[0]), ItemsDepth(items[1..]))
  }

  function FieldsDepth(fields: seq<Field>): nat {
    if fields == [] then 0 else Max(Depth(fields[0].value), FieldsDepth(fields[1..]))
  }

  // ----- equality -----

  /** IEEE equality: NaN equals nothing, the two zeros are equal. */
  predicate FloatEq(a: F64, b: F64) {
    match (a, b)
    case (NaN, _) => false
    case (_, NaN) => false
    case (Inf(p), Inf(q)) => p == q
    case (Inf(_), _) => false
    case (_, Inf(_)) => false
    case _ => Value(a) == Value(b)
  }

  function Value(a: F64): real
    requires a.NegZero? || a.Fin?
  {
    if a.NegZero? then 0.0 else a.v
  }

  /** Whether a float is a whole number inside i64's range; `as i64` then loses nothing. */
  predicate IsI64Float(x: F64) {
    && (x.NegZero? || x.Fin?)
    && IsWhole(Value(x)) && -TWO_63 <= Value(x) < TWO_63
  }

  predicate IntEqualsFloat(a: int, b: F64) {
    IsI64Float(b) && Value(b).Floor == a
  }

  /** `impl PartialEq for Json`. */
  predicate Equal(a: Json, b: Json) {
    match (a, b)
    case (Null, Null) => true
    case (Bool(x), Bool(y)) => x == y
    case (Int(x), Int(y)) => x == y
    case (Num(x), Num(y)) => FloatEq(x, y) || (x.NaN? && y.NaN?)
    case (Int(x), Num(y)) => IntEqualsFloat(x, y)
    case (Num(x), Int(y)) => IntEqualsFloat(y, x)
    case (Str(x), Str(y)) => x == y
    case (Arr(x), Arr(y)) => |x| == |y| && forall i :: 0 <= i < |x| ==> Equal(x[i], y[i])
    case (Obj(x), Obj(y)) =>
      |x| == |y| && forall i :: 0 <= i < |x| ==> x[i].key == y[i].key && Equal(x[i].value, y[i].value)
    case _ => false
  }

  /** A number as the nearest double, as JavaScript reads every number. */
  function AsDouble(j: Json): F64
    requires j.Int? || j.Num?
  {
    if j.Int? then Round(j.n as real) else j.x
  }

  // ----- the normal form equality compares -----

  /** Every float that is an i64 in value becomes that integer. */
  function Normal(j: Json): Json
    decreases j, 0
  {
    match j
    case Num(x) => if IsI64Float(x) then Int(Value(x).Floor) else j
    case Arr(items) => Arr(NormalItems(items))
    case Obj(fields) => Obj(NormalFields(fields))
    case _ => j
  }

  function NormalItems(items: seq<Json>): (r: seq<Json>)
    ensures |r| == |items| && forall i :: 0 <= i < |items| ==> r[i] == Normal(items[i])
  {
    if items == [] then [] else [Normal(items[0])] + NormalItems(items[1..])
  }

  function NormalFields(fields: seq<Field>): (r: seq<Field>)
    ensures |r| == |fields|
    ensures forall i :: 0 <= i < |fields| ==> r[i] == Field(fields[i].key, Normal(fields[i].value))
  {
    if fields == [] then []
    else [Field(fields[0].key, Normal(fields[0].value))] + NormalFields(fields[1..])
  }

  /** Two values are equal exactly when their normal forms are the same. */
  lemma {:induction false} EqualIffSameNormal(a: Json, b: Json)
    ensures Equal(a, b) <==> Normal(a) == Normal(b)
    decreases a
  {
    if a.Arr? && b.Arr? {
      if |a.items| == |b.items| {
        forall i | 0 <= i < |a.items|
          ensures Equal(a.items[i], b.items[i]) <==> NormalItems(a.items)[i] == NormalItems(b.items)[i]
        {
          EqualIffSameNormal(a.items[i], b.items[i]);
        }
      } else {
        assert |NormalItems(a.items)| != |NormalItems(b.items)|;
      }
    } else if a.Obj? && b.Obj? {
      if |a.fields| == |b.fields| {
        forall i | 0 <= i < |a.fields|
          ensures Equal(a.fields[i].value, b.fields[i].value)
             <==> NormalFields(a.fields)[i].value == NormalFields(b.fields)[i].value
        {
          EqualIffSameNormal(a.fields[i].value, b.fields[i].value);
        }
        SameFields(NormalFields(a.fields), NormalFields(b.fields));
      } else {
        assert |NormalFields(a.fields)| != |NormalFields(b.fields)|;
      }
    } else {
      EqualScalars(a, b);
    }
  }

  lemma SameFields(x: seq<Field>, y: seq<Field>)
    requires |x| == |y|
    ensures x == y <==> forall i :: 0 <= i < |x| ==> x[i].key == y[i].key && x[i].value == y[i].value
  {
    if forall i :: 0 <= i < |x| ==> x[i].key == y[i].key && x[i].value == y[i].value {
      assert forall i :: 0 <= i < |x| ==> x[i] == y[i];
    }
  }

  lemma EqualScalars(a: Json, b: Json)
    requires !(a.Arr? && b.Arr?) && !(a.Obj? && b.Obj?)
    ensures Equal(a, b) <==> Normal(a) == Normal(b)
  {
    hide NormalItems, NormalFields;
  }

  /** The hand-written equality is an equivalence relation, NaN included. */
  lemma EqualIsEquivalence(a: Json, b: Json, c: Json)
    ensures Equal(a, a)
    ensures Equal(a, b) ==> Equal(b, a)
    ensures Equal(a, b) && Equal(b, c) ==> Equal(a, c)
  {
    EqualIffSameNormal(a, a);
    EqualIffSameNormal(a, b);
    EqualIffSameNormal(b, a);
    EqualIffSameNormal(b, c);
    EqualIffSameNormal(a, c);
  }

  /** Normalizing keeps a value valid, and a second time changes nothing. */
  lemma {:induction false} NormalIsValid(j: Json)
    requires Valid(j)
    ensures Valid(Normal(j))
    decreases j
  {
    match j {
      case Arr(items) =>
        forall x | x in NormalItems(items) ensures Valid(x) {
          var i :| 0 <= i < |items| && NormalItems(items)[i] == x;
          NormalIsValid(items[i]);
        }
      case Obj(fields) =>
        forall f | f in NormalFields(fields) ensures Valid(f.value) {
          var i :| 0 <= i < |fields| && NormalFields(fields)[i] == f;
          NormalIsValid(fields[i].value);
        }
      case _ =>
    }
  }
}
