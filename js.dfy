/**
 * JavaScript values and plain objects, as far as the core looks into them.
 * An object is its own enumerable properties in insertion order, which is the
 * order `JSON.stringify` and Joi follow for keys that are not integer-like
 * (JavaScript lists keys such as "0" and "1" first, in ascending order; that
 * is not modelled).
 */
module Js {
  import opened Wrappers

  /** A string, or any other value (number, boolean, null, array, object) kept opaque. */
  datatype Value = Str(s: string) | Other(repr: string)

  type Object = seq<(string, Value)>

  function Keys(o: Object): (ks: seq<string>)
    ensures |ks| == |o| && forall i :: 0 <= i < |o| ==> ks[i] == o[i].0
  {
    if o == [] then [] else [o[0].0] + Keys(o[1..])
  }

  /** A real object never holds the same key twice. */
  predicate DistinctKeys(o: Object) {
    forall i, j :: 0 <= i < j < |o| ==> o[i].0 != o[j].0
  }

  /** `o[k]`, with `undefined` as None. */
  function Get(o: Object, k: string): (r: Option<Value>)
    ensures r.None? <==> k !in Keys(o)
    ensures r.Some? ==> exists i :: 0 <= i < |o| && o[i] == (k, r.value)
  {
    if o == [] then None
    else if o[0].0 == k then Some(o[0].1)
    else
      var r := Get(o[1..], k);
      assert r.Some? ==> exists i :: 0 <= i < |o[1..]| && o[1..][i] == (k, r.value);
      r
  }

  /** `delete o[k]`. */
  function Delete(o: Object, k: string): (r: Object)
    ensures k !in Keys(r)
    ensures forall k' :: k' != k ==> Get(r, k') == Get(o, k')
  {
    if o == [] then []
    else if o[0].0 == k then Delete(o[1..], k)
    else [o[0]] + Delete(o[1..], k)
  }

  /** `o[k] = v`: an existing key keeps its position, a new key goes last. */
  function Set(o: Object, k: string, v: Value): (r: Object)
    ensures Get(r, k) == Some(v)
    ensures forall k' :: k' != k ==> Get(r, k') == Get(o, k')
  {
    if k in Keys(o) then SetInPlace(o, k, v)
    else
      GetAppendAll(o, k, v);
      o + [(k, v)]
  }

  function SetInPlace(o: Object, k: string, v: Value): (r: Object)
    requires k in Keys(o)
    ensures Keys(r) == Keys(o)
    ensures Get(r, k) == Some(v)
    ensures forall k' :: k' != k ==> Get(r, k') == Get(o, k')
  {
    if o[0].0 == k then [(k, v)] + o[1..]
    else
      assert k in Keys(o[1..]);
      [o[0]] + SetInPlace(o[1..], k, v)
  }

  lemma {:induction false} GetAppend(o: Object, k: string, v: Value, k': string)
    requires k !in Keys(o)
    ensures Get(o + [(k, v)], k') == if k' == k then Some(v) else Get(o, k')
  {
    if o != [] {
      assert (o + [(k, v)])[1..] == o[1..] + [(k, v)];
      GetAppend(o[1..], k, v, k');
    }
  }

  lemma GetAppendAll(o: Object, k: string, v: Value)
    requires k !in Keys(o)
    ensures Get(o + [(k, v)], k) == Some(v)
    ensures forall k' :: k' != k ==> Get(o + [(k, v)], k') == Get(o, k')
  {
    forall k' ensures Get(o + [(k, v)], k') == if k' == k then Some(v) else Get(o, k') {
      GetAppend(o, k, v, k');
    }
  }

  /** Deleting a key keeps every other key in its order. */
  lemma {:induction false} DeleteKeys(o: Object, k: string)
    ensures Keys(Delete(o, k)) == RemoveAll(Keys(o), k)
  {
    if o != [] {
      DeleteKeys(o[1..], k);
      assert Keys(o)[1..] == Keys(o[1..]);
    }
  }

  function RemoveAll(ks: seq<string>, k: string): seq<string> {
    if ks == [] then [] else (if ks[0] == k then [] else [ks[0]]) + RemoveAll(ks[1..], k)
  }

  /** Setting a key that exists changes no key order; a new key is appended. */
  lemma SetKeys(o: Object, k: string, v: Value)
    ensures Keys(Set(o, k, v)) == if k in Keys(o) then Keys(o) else Keys(o) + [k]
  {
    if k !in Keys(o) {
      assert Keys(o + [(k, v)]) == Keys(o) + [k];
    }
  }

  /** Setting a key to the value it already holds gives back the same object. */
  lemma {:induction false} SetSame(o: Object, k: string, v: Value)
    requires Get(o, k) == Some(v)
    ensures Set(o, k, v) == o
  {
    SetInPlaceSame(o, k, v);
  }

  lemma {:induction false} SetInPlaceSame(o: Object, k: string, v: Value)
    requires k in Keys(o) && Get(o, k) == Some(v)
    ensures SetInPlace(o, k, v) == o
  {
    if o[0].0 == k {
      assert o[0] == (k, v);
      assert [(k, v)] + o[1..] == o;
    } else {
      assert k in Keys(o[1..]);
      SetInPlaceSame(o[1..], k, v);
      assert [o[0]] + o[1..] == o;
    }
  }

  /** Deleting a key the object does not hold gives back the same object. */
  lemma {:induction false} DeleteAbsent(o: Object, k: string)
    requires k !in Keys(o)
    ensures Delete(o, k) == o
  {
    if o != [] {
      assert Keys(o)[1..] == Keys(o[1..]);
      DeleteAbsent(o[1..], k);
      assert [o[0]] + o[1..] == o;
    }
  }
}
