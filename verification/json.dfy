/** JavaScript values as the storage helpers and the signing code handle them.

    An object is the sequence of its own enumerable properties in insertion
    order, which is the order `Object.keys` and `for ... in` visit them.
    Property assignment, lookup and `delete` are modelled by Assign, Get and
    Delete; they keep property names distinct, as JavaScript does. */
module Json {
  import opened Wrappers

  datatype Value =
    | Undefined
    | Null
    | Bool(b: bool)
    | Num(n: int)
    | Str(s: string)
    | Arr(elems: seq<Value>)
    | Obj(props: seq<Field>)

  /** One own property of an object. */
  datatype Field = Field(name: string, value: Value)

  /** No two properties of the object share a name. */
  predicate DistinctKeys(props: seq<Field>)
  {
    forall i, j :: 0 <= i < j < |props| ==> props[i].name != props[j].name
  }

  /** Every object inside `v` (including `v`) has distinct property names, as
      every JavaScript object does. */
  predicate WellFormed(v: Value)
    decreases v
  {
    match v
    case Arr(xs) => forall i :: 0 <= i < |xs| ==> WellFormed(xs[i])
    case Obj(ps) => DistinctKeys(ps) && forall i :: 0 <= i < |ps| ==> WellFormed(ps[i].value)
    case _ => true
  }

  /** `v` survives a trip through JSON text: it is well formed and holds no
      `undefined` (which JSON.stringify drops). */
  predicate IsJson(v: Value)
    decreases v
  {
    match v
    case Undefined => false
    case Arr(xs) => forall i :: 0 <= i < |xs| ==> IsJson(xs[i])
    case Obj(ps) => DistinctKeys(ps) && forall i :: 0 <= i < |ps| ==> IsJson(ps[i].value)
    case _ => true
  }

  /** Every property name of every object inside `v` satisfies `p`. */
  predicate AllKeys(v: Value, p: string -> bool)
    decreases v
  {
    match v
    case Arr(xs) => forall i :: 0 <= i < |xs| ==> AllKeys(xs[i], p)
    case Obj(ps) => forall i :: 0 <= i < |ps| ==> p(ps[i].name) && AllKeys(ps[i].value, p)
    case _ => true
  }

  /** JavaScript truthiness (numbers are integers here, so NaN does not arise). */
  predicate Truthy(v: Value)
  {
    match v
    case Undefined => false
    case Null => false
    case Bool(b) => b
    case Num(n) => n != 0
    case Str(s) => s != ""
    case _ => true
  }

  /** Position of the property named `k`, if the object has one. */
  function IndexOfKey(props: seq<Field>, k: string): (r: Option<nat>)
    ensures r.Some? ==> r.value < |props| && props[r.value].name == k
    ensures r.Some? ==> forall j :: 0 <= j < r.value ==> props[j].name != k
    ensures r.None? ==> forall j :: 0 <= j < |props| ==> props[j].name != k
  {
    if props == [] then None
    else if props[0].name == k then Some(0)
    else match IndexOfKey(props[1..], k)
      case None => None
      case Some(i) => Some(i + 1)
  }

  /** `k in obj` for an own property. */
  predicate HasKey(props: seq<Field>, k: string)
  {
    IndexOfKey(props, k).Some?
  }

  /** The value of the own property `k`, or None when there is none. */
  function Get(props: seq<Field>, k: string): (r: Option<Value>)
    ensures r.Some? <==> HasKey(props, k)
    ensures r.Some? ==> Field(k, r.value) in props
  {
    match IndexOfKey(props, k)
    case None => None
    case Some(i) => Some(props[i].value)
  }

  /** `obj[k]`: the property's value, `undefined` when it is missing. */
  function Prop(props: seq<Field>, k: string): (r: Value)
    ensures HasKey(props, k) ==> Get(props, k) == Some(r)
    ensures !HasKey(props, k) ==> r == Undefined
  {
    match Get(props, k)
    case None => Undefined
    case Some(x) => x
  }

  lemma GetInDistinct(props: seq<Field>, i: nat)
    requires DistinctKeys(props) && i < |props|
    ensures Get(props, props[i].name) == Some(props[i].value)
  {
  }

  /** `obj[k] = v`: an existing property keeps its place, a new one goes last. */
  function Assign(props: seq<Field>, k: string, v: Value): (r: seq<Field>)
    ensures Get(r, k) == Some(v)
    ensures forall k' :: k' != k ==> Get(r, k') == Get(props, k')
    ensures HasKey(props, k) ==> |r| == |props|
    ensures !HasKey(props, k) ==> r == props + [Field(k, v)]
    ensures DistinctKeys(props) ==> DistinctKeys(r)
    ensures forall f :: f in r ==> f in props || f == Field(k, v)
  {
    match IndexOfKey(props, k)
    case Some(i) =>
      var r := props[i := Field(k, v)];
      assert forall j :: 0 <= j < |r| ==> r[j].name == props[j].name;
      r
    case None =>
      var r := props + [Field(k, v)];
      forall k' | k' != k ensures Get(r, k') == Get(props, k') {
        IndexOfKeyAppend(props, Field(k, v), k');
      }
      assert r[|props|].name == k;
      assert forall j :: 0 <= j < |props| ==> r[j] == props[j];
      r
  }

  lemma {:induction false} IndexOfKeyAppend(props: seq<Field>, f: Field, k: string)
    requires f.name != k
    ensures IndexOfKey(props + [f], k) == IndexOfKey(props, k)
  {
    if props != [] {
      assert (props + [f])[1..] == props[1..] + [f];
      IndexOfKeyAppend(props[1..], f, k);
    }
  }

  /** Assigning a name the object lacks appends the property. */
  lemma AppendNewKey(props: seq<Field>, k: string, v: Value)
    requires forall j :: 0 <= j < |props| ==> props[j].name != k
    ensures Assign(props, k, v) == props + [Field(k, v)]
  {
    assert IndexOfKey(props, k) == None;
  }

  /** The first property named `k` is the one `IndexOfKey` finds. */
  lemma IndexOfKeyUnique(props: seq<Field>, k: string, i: nat)
    requires i < |props| && props[i].name == k
    requires forall j :: 0 <= j < i ==> props[j].name != k
    ensures IndexOfKey(props, k) == Some(i)
  {
  }

  /** Assigning a property the value it already has changes nothing. */
  lemma AssignSame(props: seq<Field>, k: string, v: Value)
    requires Get(props, k) == Some(v)
    ensures Assign(props, k, v) == props
  {
    var i := IndexOfKey(props, k).value;
    assert props[i] == Field(k, v);
  }

  /** A second assignment to the same name overrides the first. */
  lemma AssignTwice(props: seq<Field>, k: string, a: Value, b: Value)
    ensures Assign(Assign(props, k, a), k, b) == Assign(props, k, b)
  {
    var r := Assign(props, k, a);
    match IndexOfKey(props, k)
    case Some(i) =>
      IndexOfKeyUnique(r, k, i);
    case None =>
      IndexOfKeyUnique(r, k, |props|);
      assert r[|props| := Field(k, b)] == props + [Field(k, b)];
  }

  /** Assigning a name that an earlier property carries leaves a later
      property in place. */
  lemma AssignBeforeLast(props: seq<Field>, f: Field, k: string, v: Value)
    requires f.name != k && HasKey(props, k)
    ensures Assign(props + [f], k, v) == Assign(props, k, v) + [f]
  {
    IndexOfKeyAppend(props, f, k);
    var i := IndexOfKey(props, k).value;
    assert (props + [f])[i := Field(k, v)] == props[i := Field(k, v)] + [f];
  }

  /** Deleting a name the object lacks changes nothing. */
  lemma {:induction false} RemoveAbsent(props: seq<Field>, k: string)
    requires !HasKey(props, k)
    ensures Remove(props, k) == props
  {
    if props != [] {
      assert props[0].name != k;
      assert IndexOfKey(props[1..], k).None?;
      RemoveAbsent(props[1..], k);
      assert props == [props[0]] + props[1..];
    }
  }

  /** Deleting from an object with one more property at the end. */
  lemma {:induction false} RemoveAppend(props: seq<Field>, f: Field, k: string)
    ensures Remove(props + [f], k) == Remove(props, k) + (if f.name == k then [] else [f])
  {
    if props != [] {
      assert (props + [f])[1..] == props[1..] + [f];
      RemoveAppend(props[1..], f, k);
    } else {
      assert [f][1..] == [];
    }
  }

  /** Assigning a JSON value keeps an object JSON. */
  lemma AssignIsJson(props: seq<Field>, k: string, v: Value)
    requires IsJson(Obj(props)) && IsJson(v)
    ensures IsJson(Obj(Assign(props, k, v)))
  {
    var r := Assign(props, k, v);
    forall i | 0 <= i < |r| ensures IsJson(r[i].value) {
      assert r[i] in r;
      if r[i] in props {
        var j :| 0 <= j < |props| && props[j] == r[i];
      }
    }
  }

  /** `delete obj[k]`: the other properties keep their order. */
  function Delete(props: seq<Field>, k: string): (r: seq<Field>)
    ensures !HasKey(r, k)
    ensures forall k' :: k' != k ==> Get(r, k') == Get(props, k')
    ensures DistinctKeys(props) ==> DistinctKeys(r)
  {
    DeleteFacts(props, k);
    Remove(props, k)
  }

  function Remove(props: seq<Field>, k: string): seq<Field>
  {
    if props == [] then []
    else if props[0].name == k then Remove(props[1..], k)
    else [props[0]] + Remove(props[1..], k)
  }

  lemma {:induction false} DeleteFacts(props: seq<Field>, k: string)
    ensures !HasKey(Remove(props, k), k)
    ensures forall k' :: k' != k ==> Get(Remove(props, k), k') == Get(props, k')
    ensures DistinctKeys(props) ==> DistinctKeys(Remove(props, k))
  {
    if props != [] {
      var rest := Remove(props[1..], k);
      assert props == [props[0]] + props[1..];
      DeleteFacts(props[1..], k);
      GetCons(props[0], props[1..]);
      DistinctCons(props[0], props[1..]);
      if props[0].name != k {
        assert Remove(props, k) == [props[0]] + rest;
        GetCons(props[0], rest);
        DistinctCons(props[0], rest);
        if DistinctKeys(props) {
          assert Get(rest, props[0].name) == Get(props[1..], props[0].name) == None;
        }
      }
    }
  }

  /** Looking a name up in an object whose first property is `f`. */
  lemma GetCons(f: Field, rest: seq<Field>)
    ensures forall k :: Get([f] + rest, k) == if f.name == k then Some(f.value) else Get(rest, k)
  {
    var s := [f] + rest;
    assert s[1..] == rest;
  }

  lemma DistinctCons(f: Field, rest: seq<Field>)
    ensures DistinctKeys([f] + rest) <==> DistinctKeys(rest) && !HasKey(rest, f.name)
  {
    var s := [f] + rest;
    assert forall j :: 0 <= j < |rest| ==> s[j + 1] == rest[j];
    if DistinctKeys(s) {
      forall i, j | 0 <= i < j < |rest| ensures rest[i].name != rest[j].name {
        assert s[i + 1] == rest[i] && s[j + 1] == rest[j];
      }
      forall j | 0 <= j < |rest| ensures rest[j].name != f.name {
        assert s[j + 1] == rest[j] && s[0] == f;
        assert s[0].name != s[j + 1].name;
      }
    }
    if DistinctKeys(rest) && !HasKey(rest, f.name) {
      forall i, j | 0 <= i < j < |s| ensures s[i].name != s[j].name {
        assert s[j] == rest[j - 1];
        if i > 0 {
          assert s[i] == rest[i - 1];
        }
      }
    }
  }

  /** A JavaScript object that the source changes in place. */
  class Doc {
    var props: seq<Field>

    constructor (props: seq<Field>)
      ensures this.props == props
    {
      this.props := props;
    }
  }
}
