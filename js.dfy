/**
 * The few JavaScript value semantics the model needs: `undefined` (as None),
 * truthiness of strings, the `||` operator on strings, property lookup on a
 * plain object, and `Array.prototype.join`.
 */
module Js {

  /** A value that may be `undefined`. */
  datatype Option<+T> = None | Some(value: T)

  /** A string that may be `undefined` is truthy when it is present and not "". */
  predicate Truthy(s: Option<string>) {
    s.Some? && s.value != ""
  }

  /** `a || b` on two strings that may be `undefined`. */
  function Or(a: Option<string>, b: Option<string>): Option<string> {
    if Truthy(a) then a else b
  }

  /** `obj[key]` on a plain object: `undefined` when the key is absent. */
  function Get<K, V>(m: map<K, V>, key: K): Option<V> {
    if key in m then Some(m[key]) else None
  }

  /** One byte of a Node.js Buffer. */
  newtype byte = x: int | 0 <= x < 256

  /** `xs.join(sep)`. */
  function Join(xs: seq<string>, sep: string): string {
    if |xs| == 0 then ""
    else if |xs| == 1 then xs[0]
    else xs[0] + sep + Join(xs[1..], sep)
  }

  /**
   * A plain object whose property values are strings, as its properties
   * in insertion order, the order `querystring.stringify` and the object
   * spread operators follow.
   */
  type Obj = seq<(string, string)>

  /** The property names, in order. */
  function Keys(o: Obj): (ks: seq<string>)
    ensures |ks| == |o|
    ensures forall i :: 0 <= i < |o| ==> ks[i] == o[i].0
  {
    if o == [] then [] else [o[0].0] + Keys(o[1..])
  }

  /** `o[k]`. */
  function ObjGet(o: Obj, k: string): (r: Option<string>)
    ensures r.None? <==> k !in Keys(o)
  {
    if o == [] then None else if o[0].0 == k then Some(o[0].1) else ObjGet(o[1..], k)
  }

  /** `o[k] = v`: an existing property keeps its place, a new one goes last. */
  function ObjSet(o: Obj, k: string, v: string): (r: Obj)
    ensures k in Keys(o) ==> Keys(r) == Keys(o)
    ensures k !in Keys(o) ==> r == o + [(k, v)]
    ensures ObjGet(r, k) == Some(v)
  {
    if o == [] then [(k, v)]
    else if o[0].0 == k then
      var r := [(k, v)] + o[1..];
      assert r[1..] == o[1..];
      r
    else
      var rest := ObjSet(o[1..], k, v);
      var r := [o[0]] + rest;
      assert r[1..] == rest;
      assert o == [o[0]] + o[1..];
      r
  }

  /** `delete o[k]`: the other properties keep their order. */
  function ObjDelete(o: Obj, k: string): (r: Obj)
    ensures k !in Keys(r)
    ensures k !in Keys(o) ==> r == o
  {
    if o == [] then []
    else if o[0].0 == k then ObjDelete(o[1..], k)
    else [o[0]] + ObjDelete(o[1..], k)
  }

  /** `String(v)` of a value that may be `undefined`, as `querystring.stringify` writes it: `undefined` becomes "". */
  function OrEmpty(v: Option<string>): string {
    if v.Some? then v.value else ""
  }

  /** Deleting the middle one of three properties with distinct names keeps the outer two in order. */
  lemma DeleteMiddle(a: (string, string), b: (string, string), c: (string, string))
    requires a.0 != b.0 && c.0 != b.0
    ensures ObjDelete([a, b, c], b.0) == [a, c]
  {
    assert [a, b, c][1..] == [b, c];
    assert [b, c][1..] == [c];
  }

  /** Assigning a new name to a one-property object appends it. */
  lemma SetSecond(a: (string, string), k: string, v: string)
    requires a.0 != k
    ensures ObjSet([a], k, v) == [a, (k, v)]
  {
    assert k !in Keys([a]);
  }

  /** Assigning a new name to a two-property object appends it. */
  lemma SetThird(a: (string, string), b: (string, string), k: string, v: string)
    requires a.0 != k && b.0 != k
    ensures ObjSet([a, b], k, v) == [a, b, (k, v)]
  {
    assert k !in Keys([a, b]);
  }

  /** Reassigning the first of two properties keeps both in place. */
  lemma SetFirstOfTwo(a: (string, string), b: (string, string), v: string)
    requires a.0 != b.0
    ensures ObjSet([a, b], a.0, v) == [(a.0, v), b]
    ensures ObjGet([(a.0, v), b], b.0) == Some(b.1)
    ensures ObjGet([(a.0, v), b], a.0) == Some(v)
  {
    assert [(a.0, v), b][1..] == [b];
  }

  /** Deleting the last of two properties leaves the first. */
  lemma DeleteSecond(a: (string, string), b: (string, string))
    requires a.0 != b.0
    ensures ObjDelete([a, b], b.0) == [a]
  {
    assert [a, b][1..] == [b];
  }
}
