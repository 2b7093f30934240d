/** An insertion-ordered dictionary with string keys: a JavaScript object used as a map (the
    search results, the selections) or a Python dict. It is a list of (key, value) pairs whose
    keys are distinct, kept in the order the keys were first inserted. This is the order of a
    Python dict, and of a JavaScript object whose keys are not integer-like; a JavaScript object
    lists integer-like keys ("2", "10") first, in ascending numeric order, and gives the names
    it inherits from `Object.prototype` ("constructor", "__proto__") a meaning of their own.
    Neither JavaScript rule is modelled here. */
module Assoc {
  import opened Wrappers

  ghost predicate DistinctKeys<V>(o: seq<(string, V)>) {
    forall i, j :: 0 <= i < j < |o| ==> o[i].0 != o[j].0
  }

  type Dict<V> = o: seq<(string, V)> | DistinctKeys(o) witness []

  /** `Object.keys(o)`: the keys in insertion order (see above for integer-like keys). */
  function Keys<V>(o: seq<(string, V)>): (ks: seq<string>)
    ensures |ks| == |o|
    ensures forall i :: 0 <= i < |o| ==> ks[i] == o[i].0
  {
    seq(|o|, i requires 0 <= i < |o| => o[i].0)
  }

  /** Position of the first pair with key `k`, or `|o|` when there is none. */
  function IndexOf<V>(o: seq<(string, V)>, k: string): (i: nat)
    ensures i <= |o|
    ensures i < |o| ==> o[i].0 == k
    ensures forall j :: 0 <= j < i ==> o[j].0 != k
  {
    if o == [] then 0
    else if o[0].0 == k then 0
    else 1 + IndexOf(o[1..], k)
  }

  /** `o[k]`: the value stored under `k`, if any. */
  function Get<V>(o: seq<(string, V)>, k: string): (r: Option<V>)
    ensures r.None? <==> k !in Keys(o)
    ensures r.Some? ==> (k, r.value) in o
  {
    var i := IndexOf(o, k);
    if i < |o| then Some(o[i].1) else None
  }

  /** With distinct keys, the pair at position `i` is what its key looks up. */
  lemma GetAt<V>(o: Dict<V>, i: nat)
    requires i < |o|
    ensures Get(o, o[i].0) == Some(o[i].1)
  {
  }

  /** `o[k] = v`: a key already present keeps its position and takes the new value; a new key
      goes last. Every other key keeps its value. */
  function Put<V>(o: Dict<V>, k: string, v: V): (r: Dict<V>)
    ensures Get(r, k) == Some(v)
    ensures forall k' :: k' != k ==> Get(r, k') == Get(o, k')
    ensures Keys(r) == if k in Keys(o) then Keys(o) else Keys(o) + [k]
  {
    var i := IndexOf(o, k);
    if i < |o| then
      forall k' ensures Get(o[i := (k, v)], k') == if k' == k then Some(v) else Get(o, k') {
        GetUpdate(o, i, v, k');
      }
      assert o[i].0 == k;
      GetUpdate(o, i, v, k);
      assert Get(o[i := (k, v)], k) == Some(v);
      o[i := (k, v)]
    else
      forall k' ensures Get(o + [(k, v)], k') == if k' in Keys(o) then Get(o, k') else if k' == k then Some(v) else None {
        GetAppend(o, (k, v), k');
      }
      o + [(k, v)]
  }

  /** Looking a key up after appending a pair. */
  lemma GetAppend<V>(o: seq<(string, V)>, p: (string, V), k: string)
    ensures Get(o + [p], k) == if k in Keys(o) then Get(o, k) else if p.0 == k then Some(p.1) else None
  {
    var r := o + [p];
    assert r[|o|] == p;
    assert forall j :: 0 <= j < |o| ==> r[j] == o[j];
    var i, ir := IndexOf(o, k), IndexOf(r, k);
    if i < |o| {
      assert ir <= i;
      assert ir == i;
    } else {
      assert k !in Keys(o);
      assert ir >= |o|;
    }
  }

  /** Looking a key up in a dictionary read as the pairs before its last one, then the last. */
  lemma GetLast<V>(o: Dict<V>, k: string)
    requires o != []
    ensures o[|o| - 1].0 !in Keys(o[..|o| - 1])
    ensures Get(o, k) == if k in Keys(o[..|o| - 1]) then Get(o[..|o| - 1], k) else if k == o[|o| - 1].0 then Some(o[|o| - 1].1) else None
  {
    var init := o[..|o| - 1];
    assert o == init + [o[|o| - 1]];
    GetAppend(init, o[|o| - 1], k);
    assert forall i :: 0 <= i < |init| ==> o[i].0 != o[|o| - 1].0;
  }

  /** Looking a key up after giving the pair at position `i` a new value. */
  lemma GetUpdate<V>(o: Dict<V>, i: nat, v: V, k: string)
    requires i < |o|
    ensures Get(o[i := (o[i].0, v)], k) == if k == o[i].0 then Some(v) else Get(o, k)
  {
    var r := o[i := (o[i].0, v)];
    assert forall j :: 0 <= j < |o| ==> r[j].0 == o[j].0;
    var io, ir := IndexOf(o, k), IndexOf(r, k);
    assert io <= ir && ir <= io;
  }
}
