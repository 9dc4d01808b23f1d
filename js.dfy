/** JavaScript values and plain objects as the clause builders see them.
    An object is an ordered sequence of (key, value) pairs, in the order
    `Object.keys` lists them; a missing property reads as `None`
    (JavaScript's `undefined`). */
module Js {

  datatype Option<T> = None | Some(value: T)

  /** A property value. Strings are modelled exactly (they are what query
      strings carry); any other value is opaque, known only by the text a
      template literal renders for it and by its truthiness. */
  datatype Value = Str(s: string) | Opaque(text: string, truthy: bool)

  predicate Truthy(v: Value)
  {
    match v
    case Str(s) => s != ""
    case Opaque(_, t) => t
  }

  /** The text `${v}` renders for `v`. */
  function Show(v: Value): string
  {
    match v
    case Str(s) => s
    case Opaque(t, _) => t
  }

  type Obj = seq<(string, Value)>

  /** `Object.keys(o)` */
  function Keys(o: Obj): (ks: seq<string>)
    ensures |ks| == |o|
    decreases |o|
  {
    if o == [] then [] else [o[0].0] + Keys(o[1..])
  }

  lemma {:induction false} KeysAt(o: Obj)
    ensures forall i :: 0 <= i < |o| ==> Keys(o)[i] == o[i].0
    decreases |o|
  {
    if o != [] {
      KeysAt(o[1..]);
      assert forall i :: 1 <= i < |o| ==> o[1..][i - 1] == o[i];
    }
  }

  /** `Object.values(o)` */
  function Values(o: Obj): (vs: seq<Value>)
    ensures |vs| == |o| && forall i :: 0 <= i < |o| ==> vs[i] == o[i].1
  {
    seq(|o|, i requires 0 <= i < |o| => o[i].1)
  }

  /** An object never holds the same key twice. */
  predicate DistinctKeys(o: Obj)
    decreases |o|
  {
    o == [] || (o[0].0 !in Keys(o[1..]) && DistinctKeys(o[1..]))
  }

  /** An object whose entries carry pairwise different names has
      distinct keys. */
  lemma {:induction false} DistinctKeysByIndex(o: Obj)
    requires forall i, j :: 0 <= i < j < |o| ==> o[i].0 != o[j].0
    ensures DistinctKeys(o)
    decreases |o|
  {
    if o != [] {
      var tail := o[1..];
      KeysAt(tail);
      assert forall i :: 0 <= i < |tail| ==> tail[i] == o[i + 1];
      assert o[0].0 !in Keys(tail) by {
        forall i | 0 <= i < |tail| ensures Keys(tail)[i] != o[0].0 {
          assert Keys(tail)[i] == o[i + 1].0;
        }
      }
      DistinctKeysByIndex(tail);
    }
  }

  /** The property access `o[k]`. */
  function Get(o: Obj, k: string): (r: Option<Value>)
    ensures r.Some? <==> k in Keys(o)
    ensures r.Some? ==> (k, r.value) in o
    decreases |o|
  {
    if o == [] then None
    else if o[0].0 == k then Some(o[0].1)
    else Get(o[1..], k)
  }

  /** `if (o[k])`: the property is present and truthy. */
  predicate TruthyProp(o: Obj, k: string)
  {
    Get(o, k).Some? && Truthy(Get(o, k).value)
  }

  /** The assignment `o[k] = v`: an existing property keeps its position,
      a new one goes last. */
  function Assign(o: Obj, k: string, v: Value): (r: Obj)
    ensures Get(r, k) == Some(v)
    ensures forall k' :: k' != k ==> Get(r, k') == Get(o, k')
    decreases |o|
  {
    if o == [] then [(k, v)]
    else if o[0].0 == k then [(k, v)] + o[1..]
    else
      var r := [o[0]] + Assign(o[1..], k, v);
      assert r[1..] == Assign(o[1..], k, v);
      r
  }

  lemma {:induction false} AssignKeys(o: Obj, k: string, v: Value)
    ensures Keys(Assign(o, k, v)) == if k in Keys(o) then Keys(o) else Keys(o) + [k]
    decreases |o|
  {
    if o != [] && o[0].0 != k {
      var rest := Assign(o[1..], k, v);
      var r := [o[0]] + rest;
      assert Assign(o, k, v) == r;
      assert r[1..] == rest;
      assert Keys(r) == [o[0].0] + Keys(rest);
      assert Keys(o) == [o[0].0] + Keys(o[1..]);
      AssignKeys(o[1..], k, v);
      assert Keys(o) + [k] == [o[0].0] + (Keys(o[1..]) + [k]);
    }
  }

  lemma {:induction false} AssignKeepsDistinct(o: Obj, k: string, v: Value)
    requires DistinctKeys(o)
    ensures DistinctKeys(Assign(o, k, v))
    decreases |o|
  {
    if o != [] && o[0].0 != k {
      var rest := Assign(o[1..], k, v);
      assert Assign(o, k, v) == [o[0]] + rest;
      assert ([o[0]] + rest)[1..] == rest;
      AssignKeepsDistinct(o[1..], k, v);
      AssignKeys(o[1..], k, v);
    }
  }

  /** The statement `delete o[k]`. */
  function Remove(o: Obj, k: string): (r: Obj)
    requires DistinctKeys(o)
    ensures DistinctKeys(r)
    ensures Get(r, k) == None
    ensures forall k' :: k' != k ==> Get(r, k') == Get(o, k')
    ensures k in Keys(o) ==> |r| == |o| - 1
    ensures k !in Keys(o) ==> r == o
    decreases |o|
  {
    if o == [] then []
    else if o[0].0 == k then o[1..]
    else
      var rest := Remove(o[1..], k);
      var r := [o[0]] + rest;
      assert r[1..] == rest;
      assert o[0].0 !in Keys(rest) by {
        assert Get(rest, o[0].0) == Get(o[1..], o[0].0);
      }
      r
  }

  /** The key list `ks` with the key `k` taken out, the rest in order. */
  function Without(ks: seq<string>, k: string): seq<string>
    decreases |ks|
  {
    if ks == [] then [] else (if ks[0] == k then [] else [ks[0]]) + Without(ks[1..], k)
  }

  lemma {:induction false} WithoutAbsent(ks: seq<string>, k: string)
    requires k !in ks
    ensures Without(ks, k) == ks
    decreases |ks|
  {
    if ks != [] {
      WithoutAbsent(ks[1..], k);
    }
  }

  /** `delete o[k]` keeps the other properties in their order. */
  lemma {:induction false} RemoveKeys(o: Obj, k: string)
    requires DistinctKeys(o)
    ensures Keys(Remove(o, k)) == Without(Keys(o), k)
    decreases |o|
  {
    if o != [] {
      assert Keys(o) == [o[0].0] + Keys(o[1..]);
      assert Keys(o)[1..] == Keys(o[1..]);
      if o[0].0 == k {
        WithoutAbsent(Keys(o[1..]), k);
      } else {
        var rest := Remove(o[1..], k);
        assert Remove(o, k) == [o[0]] + rest;
        assert ([o[0]] + rest)[1..] == rest;
        RemoveKeys(o[1..], k);
      }
    }
  }

  /** The wildcard rewrite `if (o[k]) o[k] = `%${o[k]}%``, done in place on
      the caller's object. */
  function Wildcard(o: Obj, k: string): (r: Obj)
    ensures Keys(r) == Keys(o)
    ensures TruthyProp(o, k) ==> Get(r, k) == Some(Str(Wrap(Show(Get(o, k).value))))
    ensures !TruthyProp(o, k) ==> r == o
    ensures forall k' :: k' != k ==> Get(r, k') == Get(o, k')
  {
    if TruthyProp(o, k) then
      AssignKeys(o, k, Str(Wrap(Show(Get(o, k).value))));
      Assign(o, k, Str(Wrap(Show(Get(o, k).value)))) else o
  }

  lemma WildcardKeepsDistinct(o: Obj, k: string)
    requires DistinctKeys(o)
    ensures DistinctKeys(Wildcard(o, k))
  {
    if TruthyProp(o, k) {
      AssignKeepsDistinct(o, k, Str(Wrap(Show(Get(o, k).value))));
    }
  }

  /** The rewrite is not idempotent: applied to its own output it wraps the
      value a second time. */
  lemma WildcardTwice(o: Obj, k: string, v: Value)
    requires Get(o, k) == Some(v) && Truthy(v)
    ensures Get(Wildcard(Wildcard(o, k), k), k) == Some(Str(Wrap(Wrap(Show(v)))))
  {
    var once := Wildcard(o, k);
    assert Get(once, k) == Some(Str(Wrap(Show(v))));
  }

  function Wrap(t: string): (r: string)
    ensures r != ""
  {
    "%" + t + "%"
  }

  /** A caller's object, which the model functions update in place. */
  class JsObject {
    var entries: Obj

    ghost predicate Valid()
      reads this
    {
      DistinctKeys(entries)
    }

    constructor (init: Obj)
      requires DistinctKeys(init)
      ensures Valid() && entries == init
    {
      entries := init;
    }

    function Prop(k: string): Option<Value>
      reads this
    {
      Get(entries, k)
    }

    method Put(k: string, v: Value)
      requires Valid()
      modifies this
      ensures Valid()
      ensures entries == Assign(old(entries), k, v)
    {
      AssignKeepsDistinct(entries, k, v);
      entries := Assign(entries, k, v);
    }

    method Delete(k: string)
      requires Valid()
      modifies this
      ensures Valid()
      ensures entries == Remove(old(entries), k)
    {
      entries := Remove(entries, k);
    }
  }
}
