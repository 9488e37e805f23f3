/**
 * The JavaScript values the protocols carry and `deepMerge` walks: plain
 * objects are sequences of own properties in insertion order.
 */
module JsValues {
  /** A JavaScript value: numbers are integers, arrays and functions are not modelled. */
  datatype Value =
    | Undefined
    | Null
    | Bool(b: bool)
    | Num(n: int)
    | Str(s: string)
    | Obj(fields: seq<(string, Value)>)

  type Fields = seq<(string, Value)>

  /** JavaScript truthiness: `undefined`, `null`, `false`, `0` and `''` are falsy. */
  predicate Truthy(v: Value) {
    match v
    case Undefined => false
    case Null => false
    case Bool(b) => b
    case Num(n) => n != 0
    case Str(s) => s != ""
    case Obj(_) => true
  }

  /** The property names, in insertion order. */
  function Keys(fs: Fields): (keys: seq<string>)
    ensures |keys| == |fs|
    ensures forall i :: 0 <= i < |fs| ==> keys[i] == fs[i].0
  {
    seq(|fs|, i requires 0 <= i < |fs| => fs[i].0)
  }

  /** The names of a prefix one property longer. */
  lemma KeysSnoc(fs: Fields, j: nat)
    requires 0 < j <= |fs|
    ensures Keys(fs[..j]) == Keys(fs[..j - 1]) + [fs[j - 1].0]
  {
  }

  /** A JavaScript object never holds one name twice. */
  predicate DistinctKeys(fs: Fields) {
    forall i, j :: 0 <= i < j < |fs| ==> fs[i].0 != fs[j].0
  }

  /** Where the property named `key` is, `|fs|` when there is none. */
  function Find(fs: Fields, key: string): (i: nat)
    ensures i <= |fs|
    ensures i < |fs| ==> fs[i].0 == key
  {
    FindFrom(fs, key, 0)
  }

  /** The first position at or after `from` holding `key`, `|fs|` when there is none. */
  function FindFrom(fs: Fields, key: string, from: nat): (i: nat)
    requires from <= |fs|
    ensures from <= i <= |fs|
    ensures i < |fs| ==> fs[i].0 == key
    decreases |fs| - from
  {
    if from == |fs| then |fs|
    else if fs[from].0 == key then from
    else FindFrom(fs, key, from + 1)
  }

  /** No property before the one `Find` reports has the name. */
  lemma FindFirst(fs: Fields, key: string, m: nat)
    requires m < Find(fs, key)
    ensures fs[m].0 != key
  {
    FindFromFirst(fs, key, 0, m);
  }

  lemma {:induction false} FindFromFirst(fs: Fields, key: string, from: nat, m: nat)
    requires from <= |fs| && from <= m < FindFrom(fs, key, from)
    ensures fs[m].0 != key
    decreases |fs| - from
  {
    if from < m {
      FindFromFirst(fs, key, from + 1, m);
    }
  }

  /** A name is found exactly when it is one of the names. */
  lemma FindKeys(fs: Fields, key: string)
    ensures Find(fs, key) < |fs| <==> key in Keys(fs)
  {
    if key in Keys(fs) {
      var m :| 0 <= m < |fs| && Keys(fs)[m] == key;
      if Find(fs, key) == |fs| {
        FindFirst(fs, key, m);
      }
    }
  }

  /** The position of a name is determined by the names alone. */
  lemma FindIs(fs: Fields, key: string, i: nat)
    requires i <= |fs| && (i < |fs| ==> fs[i].0 == key)
    requires forall m :: 0 <= m < i ==> fs[m].0 != key
    ensures Find(fs, key) == i
  {
    FindFromIs(fs, key, i, 0);
  }

  lemma {:induction false} FindFromIs(fs: Fields, key: string, i: nat, from: nat)
    requires from <= i <= |fs| && (i < |fs| ==> fs[i].0 == key)
    requires forall m :: from <= m < i ==> fs[m].0 != key
    ensures FindFrom(fs, key, from) == i
    decreases |fs| - from
  {
    if from < i {
      FindFromIs(fs, key, i, from + 1);
    }
  }

  /** `o[key]`: `undefined` when the property is missing. */
  function Get(fs: Fields, key: string): (v: Value)
    ensures key !in Keys(fs) ==> v == Undefined
  {
    var i := Find(fs, key);
    FindKeys(fs, key);
    if i < |fs| then fs[i].1 else Undefined
  }

  /**
   * `o[key] = v`: an existing property keeps its place, a new one goes
   * last.
   */
  function Put(fs: Fields, key: string, v: Value): (r: Fields)
    ensures key in Keys(fs) ==> Keys(r) == Keys(fs)
    ensures key !in Keys(fs) ==> r == fs + [(key, v)]
    ensures Get(r, key) == v
    ensures forall k :: k != key ==> Get(r, k) == Get(fs, k)
  {
    var i := Find(fs, key);
    FindKeys(fs, key);
    var r := if i < |fs| then fs[i := (key, v)] else fs + [(key, v)];
    forall m | 0 <= m < i
      ensures r[m].0 != key
    {
      FindFirst(fs, key, m);
    }
    FindIs(r, key, i);
    assert forall k :: k != key ==> Get(r, k) == Get(fs, k) by {
      forall k | k != key
        ensures Get(r, k) == Get(fs, k)
      {
        var f := Find(fs, k);
        forall m | 0 <= m < f
          ensures fs[m].0 != k
        {
          FindFirst(fs, k, m);
        }
        if i == |fs| && f == |fs| {
          FindIs(r, k, |r|);
        } else {
          FindIs(r, k, f);
        }
      }
    }
    r
  }

  /** Storing a value keeps the names distinct. */
  lemma PutDistinct(fs: Fields, key: string, v: Value)
    requires DistinctKeys(fs)
    ensures DistinctKeys(Put(fs, key, v))
  {
    var r := Put(fs, key, v);
    if key !in Keys(fs) {
      forall i, j | 0 <= i < j < |r|
        ensures r[i].0 != r[j].0
      {
        if j == |fs| {
          assert Keys(fs)[i] == fs[i].0;
        }
      }
    }
  }

  /** The own enumerable properties `for (key in v)` visits: none for a non-object. */
  function ForIn(v: Value): (fs: Fields)
    ensures v.Obj? ==> fs == v.fields
  {
    if v.Obj? then v.fields else []
  }

  /** Every object, at every depth, holds distinct names. */
  predicate WellFormed(v: Value)
    decreases v, 1
  {
    v.Obj? ==> DistinctKeys(v.fields) && WellFormedFields(v, |v.fields|)
  }

  predicate WellFormedFields(o: Value, j: nat)
    requires o.Obj? && j <= |o.fields|
    decreases o, 0, j
  {
    j == 0 || (WellFormed(o.fields[j - 1].1) && WellFormedFields(o, j - 1))
  }

  /** The nesting depth of objects: a non-object and `{}` have height 1. */
  function Height(v: Value): (h: nat)
    ensures h >= 1
    decreases v, 1
  {
    if v.Obj? then 1 + MaxHeight(v, |v.fields|) else 1
  }

  /** The largest height among the first `j` property values (0 for none). */
  function MaxHeight(o: Value, j: nat): nat
    requires o.Obj? && j <= |o.fields|
    decreases o, 0, j
  {
    if j == 0 then 0
    else
      var h := Height(o.fields[j - 1].1);
      var m := MaxHeight(o, j - 1);
      if h > m then h else m
  }

  /** A property value is strictly lower than the object holding it. */
  lemma {:induction false} ChildBelow(o: Value, i: nat)
    requires o.Obj? && i < |o.fields|
    ensures Height(o.fields[i].1) < Height(o)
  {
    MaxHeightCovers(o, |o.fields|, i);
  }

  lemma {:induction false} MaxHeightCovers(o: Value, j: nat, i: nat)
    requires o.Obj? && i < j <= |o.fields|
    ensures Height(o.fields[i].1) <= MaxHeight(o, j)
  {
    if i < j - 1 {
      MaxHeightCovers(o, j - 1, i);
    }
  }

  /** An object whose property values are all lower than `b` is at most `b` high. */
  lemma {:induction false} HeightAtMost(o: Value, b: nat)
    requires o.Obj? && b >= 1
    requires forall i :: 0 <= i < |o.fields| ==> Height(o.fields[i].1) < b
    ensures Height(o) <= b
  {
    MaxHeightBelow(o, |o.fields|, b);
  }

  lemma {:induction false} MaxHeightBelow(o: Value, j: nat, b: nat)
    requires o.Obj? && j <= |o.fields|
    requires forall i :: 0 <= i < |o.fields| ==> Height(o.fields[i].1) < b
    ensures MaxHeight(o, j) < b || j == 0
  {
    if j > 1 {
      MaxHeightBelow(o, j - 1, b);
    }
  }

  /** A truthy property read from an object is lower than the object. */
  lemma GetBelow(fs: Fields, key: string)
    requires Truthy(Get(fs, key))
    ensures Height(Get(fs, key)) < Height(Obj(fs))
  {
    var i := Find(fs, key);
    if i < |fs| {
      ChildBelow(Obj(fs), i);
    }
  }

  /** Storing `v` raises an object at most to one above `v`. */
  lemma PutHeight(fs: Fields, key: string, v: Value, b: nat)
    requires Height(Obj(fs)) <= b && Height(v) < b
    ensures Height(Obj(Put(fs, key, v))) <= b
  {
    var r := Put(fs, key, v);
    forall i | 0 <= i < |r|
      ensures Height(r[i].1) < b
    {
      if i < |fs| && r[i] != (key, v) {
        assert r[i] == fs[i];
        ChildBelow(Obj(fs), i);
      }
    }
    HeightAtMost(Obj(r), b);
  }
}
